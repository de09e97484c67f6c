# Hospital-demand SIR model, in Dafny

A model of the numeric core of `_99_shared_functions.py`: a CHIME-style
projection of hospital, ICU and ventilator demand. One run of
`sensitivity_wrapper` does the following:

- reseeds the generator;
- copies the parameter table and pins overridden parameters to constants;
- resolves nine epidemiological parameters with `getparm`, drawing the
  non-constant ones when asked to;
- derives the SIR rates and the initial state;
- integrates 200 days with `sim_sir`/`sir`;
- returns either the S/I/R trajectory or the admission and census
  projection built from the daily drop of S.

All arithmetic is over exact `real`s. Python exceptions (a failed
`assert`, a division by zero, a pandas lookup that does not find exactly one
row, a missing sampler) become `Err` values of `Results.Result`.

Files:

- `results.dfy`: `Fault`, `Option`, `Result`.
- `parameters.dfy`: the parameter table, `getparm`, and the two forms of
  override.
- `sir.dfy`: the step (compute, clamp, rescale) and the integrator.
- `projection.dfy`:
  - the differenced S curve and the proportion chain that gives the three
    admission series;
  - the census as pandas computes it: `cumsum`, `iloc[:-L]`, `shift(L)`,
    `fillna(0)`, `ceil`;
  - the projection table.
- `scenario.dfy`: the resolution order, the derivation, and the whole
  wrapper.

The sampler is the oracle `Sampler = (Rng, Draw) -> Option<real>`:

- `Rng` is the seed together with the requests drawn so far, so the same
  seed and the same draws give the same answers.
- `None` stands for a request numpy refuses: a distribution name it does not
  have, or shape parameters that distribution rejects (a negative scale, say).

The growth rate `2 ** (1 / doubling_time) - 1` is the oracle
`growthOf: real -> real`.

### Census boundaries

The census is `cumsum.iloc[:-L] - cumsum.shift(L).fillna(0)`, rounded up,
with `L = int(los)`. On a table of n days this gives:

- for `t < L` and `t < n - L`, the running total of admissions so far;
- for `L <= t < n - L`, the sum over `(t-L, t]`, which includes day t;
- 0 on the last L rows, which `iloc[:-L]` drops and `fillna(0)` refills;
- 0 on every row when `L = 0` (because `iloc[:-0]` is empty) or when `L >= n`.

`Projection.CensusWindow` states all of this. `Projection.CensusTwoDayStay`
shows it on admissions `[0,0,5,0,0,0,0]` with a two-day stay: the result is
`[0,0,5,5,0,0,0]`.

## Model

| member | source | states |
|---|---|---|
| Sir.Clamp | _99_shared_functions.py:47-52 | A negative count becomes exactly 0. A non-negative count is kept unchanged. |
| Sir.Raw | _99_shared_functions.py:44-46 | The unclamped update moves people between compartments and keeps S+I+R. |
| Sir.Clamped | _99_shared_functions.py:44-52 | Each compartment is its raw update floored at 0. The clamped total is at least S+I+R, and it is zero exactly when all three raw updates are at most zero. |
| Sir.Rescale | _99_shared_functions.py:53-54 | Every compartment is multiplied by the same factor `N / total`, so the three add up to exactly N. For a non-negative input of positive total and N >= 0 they stay non-negative. |
| Sir.Step | _99_shared_functions.py:42-54 | `sir` fails with a division by zero exactly when all three raw updates are at most zero, and it never fails when S+I+R > 0. A result is the clamped update scaled by one common factor to total N. It is non-negative when N >= 0. |
| Sir.StepFloorsBeforeRescale | _99_shared_functions.py:44-54 | From (1, 1, 0) with beta = 2, gamma = 0 and N = 2, S is floored at 0 before the rescale, and the day ends at (0, 2, 0). |
| Sir.StepWithoutClamp | _99_shared_functions.py:44-54 | When no compartment clamps and S+I+R = N, the scale is 1 and the step returns the raw update. If N = 0, it is the division by zero instead. |
| Sir.StepSusceptibleNonIncreasing | _99_shared_functions.py:44-54 | With beta >= 0, a step from a non-negative state of positive total succeeds and does not increase S. |
| Sir.Iterate | _99_shared_functions.py:58-69 | A trajectory has `days + 1` states. The first is the start, and each next state is the step of the previous one. |
| Sir.SimSir | _99_shared_functions.py:58-69 | The loop of `sim_sir` returns exactly `Iterate` of the step with N fixed at the initial S+I+R. It returns the first failure if a step fails. |
| Sir.IterateFailureSticks | _99_shared_functions.py:61-63 | Once a step fails, every longer run fails with the same fault. |
| Sir.TrajectoryConserves | _99_shared_functions.py:58-69 | From a positive total N, no step divides by zero. Every state totals N, and every state after the first is non-negative. |
| Sir.TrajectoryTotals | _99_shared_functions.py:58-69 | From any start, a run that does not fail keeps every state at the starting total. |
| Sir.TrajectorySusceptibleNonIncreasing | _99_shared_functions.py:58-69 | With beta >= 0 and a non-negative start whose total is positive, the run succeeds and S never increases from one day to the next. |
| Parameters.Matching | _99_shared_functions.py:30 | The rows selected by `param == x` all carry name x. The selection is empty exactly when x is not a name in the table. |
| Parameters.MatchingCardinality | _99_shared_functions.py:30 | The selection has one row for each occurrence of x in the name column. |
| Parameters.MatchingFirst | _99_shared_functions.py:32 | The first selected row is the table's first row named x, which `iloc[0]` reads. |
| Parameters.BaseValue | _99_shared_functions.py:30 | `float(base[param == x])` succeeds exactly when one row carries x, and then returns that row's base value. It fails with an unknown-name fault when no row does. |
| Parameters.BaseValueNeedsOneRow | _99_shared_functions.py:30 | `float(...)` of the selected base cells succeeds exactly when x occurs once in the name column. |
| Parameters.GetParm | _99_shared_functions.py:28-38 | When the lookup does not draw, it returns the base value or its failure and leaves the generator untouched. When it draws (drawing requested, and the first matching row is not "constant"), the result is the sampler's answer for that row's distribution and shape. That draw is appended to the generator's history, and a missing distribution is a failure. A lookup advances the generator exactly when it draws. |
| Parameters.DrawReadsFirstRow | _99_shared_functions.py:32-35 | Whether x is drawn, and the distribution and shape parameters of its draw, come from the table's first row named x. |
| Parameters.NoDrawReturnsBase | _99_shared_functions.py:28-38 | Without drawing, or when the matching row is "constant", `getparm` returns the row's base value and consumes no sample. |
| Parameters.Pin | _99_shared_functions.py:80-81 | Every row named x gets base v and distribution "constant". Its name and shape parameters are kept, and every other row is unchanged. |
| Parameters.OverrideOne | _99_shared_functions.py:78-81 | Overriding one name fails with an unknown-name fault exactly when the name is absent. Otherwise it pins that name's rows and changes no other row. |
| Parameters.LastValue | _99_shared_functions.py:84-86 | The value paired with the last occurrence of a name in the override list. |
| Parameters.PinEach | _99_shared_functions.py:84-86 | Pinning the list in order leaves each named row "constant" with the value of that name's last entry. Unnamed rows are unchanged. |
| Parameters.OverrideMany | _99_shared_functions.py:82-86 | Overriding a list succeeds exactly when every name exists and there are at least as many values as names. An absent name gives an unknown-name fault. On success, later entries win and unnamed rows are unchanged. |
| Parameters.MatchingPin | _99_shared_functions.py:80-81 | Pinning x keeps the number of rows named x, and each of them now holds v and is "constant". |
| Parameters.OverrideOneResolves | _99_shared_functions.py:77-81 | When x names exactly one row, after overriding x with v, `getparm(x, random_draw=True)` returns v and consumes no sample. |
| Parameters.OverrideOneLeavesOthers | _99_shared_functions.py:80-81 | After overriding x, `getparm(y)` for any other name y gives exactly what it gave before: the same value, the same draw, or the same error. |
| Parameters.OverrideManyResolves | _99_shared_functions.py:82-86 | When a listed name x names exactly one row, after overriding the list, `getparm(x, random_draw=True)` returns the value of the last entry for x and consumes no sample. |
| Projection.CumSum | _99_shared_functions.py:149-150 | Entry t of the cumulative sum is the sum of entries 0..t. |
| Projection.Delta | _99_shared_functions.py:122-123 | `[0] + diff(-s)` has one entry per day. It starts at 0, and entry t is `s[t-1] - s[t]`. |
| Projection.DeltaTelescopes | _99_shared_functions.py:122-123 | The daily drops up to day t add up to `s[0] - s[t]`. |
| Projection.Admit | _99_shared_functions.py:118-127 | The admission series are, in order: `ds * hosp_prop * mkt_share`, that series times `ICU_prop`, and that series times `vent_prop`. |
| Projection.AdmitNonNegative | _99_shared_functions.py:118-127 | Non-negative drops and proportions give non-negative admissions in all three series. |
| Projection.Ceil | _99_shared_functions.py:151 | `np.ceil` is the least integer at or above its argument. |
| Projection.Trunc | _99_shared_functions.py:149 | `int()` truncates toward zero, in both directions. |
| Projection.Census | _99_shared_functions.py:148-152 | A census column has one entry per day. A stay of 0 days, or one as long as the table, gives zeros throughout. |
| Projection.CensusWindow | _99_shared_functions.py:147-154 | With L >= 1, the census is the rounded-up sum of admissions over the last L days, or fewer at the start. It is 0 on the last L rows, 0 everywhere for L = 0, and the look-ahead formula for L < 0. |
| Projection.CensusNonNegative | _99_shared_functions.py:147-154 | Non-negative admissions and a window of 0 or more days give a non-negative census. |
| Projection.CensusTwoDayStay | _99_shared_functions.py:148-151 | Admissions `[0,0,5,0,0,0,0]` with a two-day stay give the census `[0,0,5,5,0,0,0]`. |
| Projection.Project | _99_shared_functions.py:118-154 | The projection has one row per day of the trajectory, and its day column is 0, 1, 2, and so on. Its admissions are those of the daily drop of S. Each census column is the census of its own admissions over `int(los)`. |
| Projection.ProjectNonNegative | _99_shared_functions.py:118-154 | A non-increasing S curve with non-negative proportions gives non-negative admissions. It also gives a non-negative census in every column whose stay is 0 or more. |
| Projection.ValueMatrix | _99_shared_functions.py:156-159 | There is one matrix row per day, with six entries. Entry j is that day's value in the column named `ValueColumns[j]`. |
| Scenario.ResolveEach | _99_shared_functions.py:88-96 | Resolving a list gives one value per name. The generator has advanced by exactly the requests of the drawn names, in order. |
| Scenario.ResolveEachValues | _99_shared_functions.py:88-96 | A name that is not drawn resolves to its base value. A drawn name resolves to the sampler's answer after exactly the draws of the names before it. |
| Scenario.ResolveEachWithoutDraws | _99_shared_functions.py:88-96 | Without drawing, resolving succeeds exactly when every name has exactly one row. |
| Scenario.ResolveParams | _99_shared_functions.py:88-96 | The nine parameters resolve exactly when the list in source order resolves. Their values are that list's values, and the generator ends with that list's draws. |
| Scenario.Derive | _99_shared_functions.py:98-115 | The derivation succeeds exactly when the four looked-up values exist and every divisor is non-zero. On success: gamma times recovery_days is 1; beta times region_pop is (growth + gamma)(1 - soc_dist); the start is (region_pop, n_hosp / mkt_share / hosp_prop, 0). |
| Scenario.LookupsOf | _99_shared_functions.py:101-111 | Each of the four reads succeeds exactly when its name has one row. |
| Scenario.LookupsNeverDraw | _99_shared_functions.py:101-111 | The four reads never draw: each returns its value and leaves the generator untouched, whatever the sampler. |
| Scenario.Modify | _99_shared_functions.py:77-86 | No override keeps the table. A single name is the one-name override, and a list is the list override. Any successful override keeps the table's names. |
| Scenario.SensitivityWrapper | _99_shared_functions.py:72-171 | A failed override fails the run with the same fault. A successful run has resolved its nine parameters, and a sampled run reports exactly those under `parms`. With `output_SIR`, the output is the 201-day trajectory. Otherwise, drawing gives the sampled result and not drawing gives the table. Both have days 0..200, and the sampled matrix has six named columns per day. |
| Scenario.WrapperDefined | _99_shared_functions.py:98-115 | Once the override, the lookups and the divisions of the derivation succeed and the initial population is positive, the run succeeds. |
| Scenario.WrapperTrajectory | _99_shared_functions.py:98-117 | A run's trajectory starts at (region_pop, n_hosp / mkt_share / hosp_prop, 0), every day totals region_pop + n_hosp / mkt_share / hosp_prop, and each day is one `sir` step of the day before with the beta and gamma that `Derive` computes and N fixed at the starting total. |
| Scenario.WrapperProjects | _99_shared_functions.py:118-159 | The table, or the sampled matrix, is the projection of the trajectory the same run returns with `output_SIR`. It has days from 0, the admissions of the daily drop of S, and each census over its own stay, the ventilator one over `int(ICU_LOS * vent_LOS)`. |
| Scenario.OverrideFixesResolvedValue | _99_shared_functions.py:77-96 | When x names exactly one row, a parameter x overridden with v through the one-name override resolves to v, whether the run draws or not. |
| Scenario.OverrideManyFixesResolvedValue | _99_shared_functions.py:82-96 | After a list override, every listed parameter that names exactly one row resolves to the value of its last entry, whether the run draws or not. |
| Scenario.WrapperReportsOverride | _99_shared_functions.py:156-168 | When x names exactly one row, a sampled run after overriding x with v reports v for x under `parms`. |
| Scenario.ProjectionNonNegative | _99_shared_functions.py:110-154 | With beta >= 0, a non-negative start of positive size and non-negative proportions, every admission is non-negative. So is every census whose stay is 0 or more. |

## Left out

- Reading `parameters.csv`, the working-directory assertion, the path globals and `write_txt` (lines 12-25): these are file I/O.
- Plotting, `re` and the pandas display options: they do not affect any value.
- `np.random.seed` and numpy's samplers (lines 35, 74): both are foreign calls. The sampler is the oracle `Sampler`. The generator is its seed plus the requests drawn so far.
- The value of `2 ** (1 / doubling_time) - 1` (line 100): it is a real power with no exact rational value, so the model takes it as the oracle `growthOf`.
- Floating point: rounding, overflow (including an `OverflowError` from the power at line 100), NaN and infinities are not modelled. Arithmetic is exact. A Python float division by zero raises. A numpy float64 division by zero (an operand can be a numpy value, such as a drawn one) instead yields inf or NaN and the run goes on. The model turns every zero divisor into an `Err` either way.
- pandas/numpy packaging (lines 131-135, 153, 156-171): the frames and dictionaries are datatypes. The value columns keep their order. `Params` lists the nine values in lookup order (`recovery_days` first), not in the insertion order of the `parms` dictionary, which starts with `doubling_time` and ends with `recovery_days`. Dtypes are not modelled.
- The defaults `seed=8675309` and `random_draw=True` (line 72): every argument of `SensitivityWrapper` is explicit.
- `np.random.seed` rejects seeds outside `[0, 2**32)` (line 74). `Rng` accepts any integer seed, so that failure is not modelled.
- Scenario.SensitivityWrapper: a `modparm` that is neither a string nor a list (which the source silently ignores) is not representable. A `random_draw` that is not a boolean (`is True`/`is False` are both false) is not representable either. A `modval` that `float()` rejects is not representable, because values are reals.
- Scenario.Derive: reads the four looked-up values as given `Lookups` (`LookupsOf` fills them from the table without drawing). The model does not restate that the source reads `mkt_share` four times (lines 102 and 125-127), and `n_infec` and `region_pop` twice each, because repeated reads of the same unchanged table return the same value.
