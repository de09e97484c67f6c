/** `sensitivity_wrapper`: override, resolve, derive, integrate, project.

    A run reseeds the generator, copies the parameter table and pins the
    overridden parameters to constants, resolves nine epidemiological
    parameters (drawing those whose distribution is not "constant" when
    asked to), derives the SIR rates and the initial state, integrates 200
    days and either returns the S/I/R trajectory or projects it into
    admissions and census.

    `2 ** (1 / doubling_time) - 1` is a real power with no exact rational
    value; the model takes it as the oracle `growthOf`, applied only when
    the division `1 / doubling_time` is defined.
 */
module Scenario {
  import opened Results
  import opened Parameters
  import opened Sir
  import opened Projection

  /** `n_days`: the number of days integrated. */
  const Horizon: nat := 200

  /** The nine parameters a run resolves, in the order they are looked
      up (and so the order in which they draw). */
  const ResolvedNames: seq<string> :=
    ["recovery_days", "doubling_time", "soc_dist", "hosp_prop", "ICU_prop",
     "vent_prop", "hosp_LOS", "ICU_LOS", "vent_LOS"]

  /** The nine resolved values; the `parms` dictionary of a sampled run. */
  datatype Params = Params(
    recoveryDays: real, doublingTime: real, socDist: real,
    hospProp: real, icuProp: real, ventProp: real,
    hospLos: real, icuLos: real, ventLos: real)

  /** Looked-up values together with the generator state after them. */
  datatype Resolutions = Resolutions(values: seq<real>, rng: Rng)

  /** The draws that looking up `names` in order sends to the sampler. */
  function Requests(names: seq<string>, t: Table, randomDraw: bool): seq<Draw> {
    if |names| == 0 then []
    else
      (if Drawn(names[0], t, randomDraw) then [DrawFor(names[0], t)] else []) +
      Requests(names[1..], t, randomDraw)
  }

  /** Call `getparm` on each name in turn, threading the generator: only
      drawn look-ups advance it, each by its own request. */
  function ResolveEach(names: seq<string>, t: Table, randomDraw: bool, sample: Sampler, rng: Rng): (r: Result<Resolutions>)
    ensures r.Ok? ==> |r.value.values| == |names|
    ensures r.Ok? ==> r.value.rng == Rng(rng.seed, rng.history + Requests(names, t, randomDraw))
  {
    if |names| == 0 then Ok(Resolutions([], rng))
    else
      var first :- GetParm(names[0], t, randomDraw, sample, rng);
      var rest :- ResolveEach(names[1..], t, randomDraw, sample, first.rng);
      ConcatAssociates(rng.history, if Drawn(names[0], t, randomDraw) then [DrawFor(names[0], t)] else [],
                       Requests(names[1..], t, randomDraw));
      Ok(Resolutions([first.value] + rest.values, rest.rng))
  }

  lemma ConcatAssociates<T>(a: seq<T>, b: seq<T>, c: seq<T>)
    ensures (a + b) + c == a + (b + c)
  {
  }

  /** Values that are not drawn are the table's base values, and each drawn
      value is the sampler's answer after exactly the earlier draws. */
  lemma {:induction false} ResolveEachValues(names: seq<string>, t: Table, randomDraw: bool, sample: Sampler, rng: Rng)
    requires ResolveEach(names, t, randomDraw, sample, rng).Ok?
    ensures var r := ResolveEach(names, t, randomDraw, sample, rng).value;
            forall k :: 0 <= k < |names| && !Drawn(names[k], t, randomDraw) ==> BaseValue(names[k], t) == Ok(r.values[k])
    ensures var r := ResolveEach(names, t, randomDraw, sample, rng).value;
            forall k :: 0 <= k < |names| && Drawn(names[k], t, randomDraw) ==>
              sample(Rng(rng.seed, rng.history + Requests(names[..k], t, randomDraw)), DrawFor(names[k], t)) ==
              Some(r.values[k])
  {
    if |names| > 0 {
      var first := GetParm(names[0], t, randomDraw, sample, rng).value;
      ResolveEachValues(names[1..], t, randomDraw, sample, first.rng);
      var r := ResolveEach(names, t, randomDraw, sample, rng).value;
      var rest := ResolveEach(names[1..], t, randomDraw, sample, first.rng).value;
      assert r.values == [first.value] + rest.values;
      var head := if Drawn(names[0], t, randomDraw) then [DrawFor(names[0], t)] else [];
      assert first.rng.history == rng.history + head && first.rng.seed == rng.seed;
      forall k | 0 < k < |names| && Drawn(names[k], t, randomDraw)
        ensures sample(Rng(rng.seed, rng.history + Requests(names[..k], t, randomDraw)), DrawFor(names[k], t)) ==
                Some(r.values[k])
      {
        var tail := names[1..][..k - 1];
        assert names[..k][0] == names[0] && names[..k][1..] == tail;
        assert Requests(names[..k], t, randomDraw) == head + Requests(tail, t, randomDraw);
        ConcatAssociates(rng.history, head, Requests(tail, t, randomDraw));
        assert names[1..][k - 1] == names[k];
        assert r.values[k] == rest.values[k - 1];
      }
      assert rng.history + Requests(names[..0], t, randomDraw) == rng.history;
      assert forall k :: 0 < k < |names| ==> names[1..][k - 1] == names[k];
    }
  }

  /** Without drawing, resolving succeeds exactly when every name has one
      row. */
  lemma {:induction false} ResolveEachWithoutDraws(names: seq<string>, t: Table, sample: Sampler, rng: Rng)
    ensures ResolveEach(names, t, false, sample, rng).Ok? <==> forall k :: 0 <= k < |names| ==> BaseValue(names[k], t).Ok?
  {
    if |names| > 0 {
      ResolveEachWithoutDraws(names[1..], t, sample, rng);
      assert forall k :: 0 < k < |names| ==> names[1..][k - 1] == names[k];
    }
  }

  /** Resolve the nine parameters, in order, from one generator state. */
  function ResolveParams(t: Table, randomDraw: bool, sample: Sampler, rng: Rng): (r: Result<(Params, Rng)>)
    ensures r.Ok? <==> ResolveEach(ResolvedNames, t, randomDraw, sample, rng).Ok?
    ensures r.Ok? ==> r.value.1 == Rng(rng.seed, rng.history + Requests(ResolvedNames, t, randomDraw))
    ensures r.Ok? ==> Values(r.value.0) == ResolveEach(ResolvedNames, t, randomDraw, sample, rng).value.values
  {
    var res :- ResolveEach(ResolvedNames, t, randomDraw, sample, rng);
    var v := res.values;
    var p := Params(v[0], v[1], v[2], v[3], v[4], v[5], v[6], v[7], v[8]);
    assert Values(p) == v;
    Ok((p, res.rng))
  }

  /** The resolved values in the order of `ResolvedNames`. */
  function Values(p: Params): seq<real> {
    [p.recoveryDays, p.doublingTime, p.socDist, p.hospProp, p.icuProp,
     p.ventProp, p.hospLos, p.icuLos, p.ventLos]
  }

  /** The derived SIR inputs and the market share the projection uses. */
  datatype Derived = Derived(gamma: real, beta: real, init: State, mktShare: real)

  lemma CancelNested(a: real, b: real)
    requires a != 0.0 && b != 0.0
    ensures a / (a / b) == b
  {
    var q := a / b;
    assert q * b == a;
    assert q != 0.0;
  }

  lemma Reciprocal(x: real)
    requires x != 0.0
    ensures (1.0 / x) * x == 1.0
  {
  }

  lemma ScaleBack(x: real, d: real, y: real)
    requires d != 0.0
    ensures (x / d * y) * d == x * y
  {
    assert x / d * d == x;
  }

  lemma QuotientZero(a: real, b: real)
    requires b != 0.0
    ensures a / b == 0.0 <==> a == 0.0
  {
    if a / b == 0.0 {
      assert a == (a / b) * b;
    }
  }

  /** The four values the derivation reads from the table, always without
      drawing: each a base value or the lookup's
      failure. */
  datatype Lookups = Lookups(nHosp: Result<real>, mktShare: Result<real>, nInfec: Result<real>, regionPop: Result<real>)

  function LookupsOf(t: Table): (r: Lookups)
    ensures r.nHosp.Ok? <==> |Matching(t, "n_hosp")| == 1
    ensures r.mktShare.Ok? <==> |Matching(t, "mkt_share")| == 1
    ensures r.nInfec.Ok? <==> |Matching(t, "n_infec")| == 1
    ensures r.regionPop.Ok? <==> |Matching(t, "region_pop")| == 1
  {
    Lookups(BaseValue("n_hosp", t), BaseValue("mkt_share", t), BaseValue("n_infec", t), BaseValue("region_pop", t))
  }

  /** The four reads use `getparm`'s default of not drawing: each returns
      its lookup and leaves the generator where it was, whatever the
      sampler. */
  lemma LookupsNeverDraw(t: Table, sample: Sampler, rng: Rng)
    ensures var l := LookupsOf(t);
            && (l.nHosp.Ok? ==> GetParm("n_hosp", t, false, sample, rng) == Ok(Resolved(l.nHosp.value, rng)))
            && (l.mktShare.Ok? ==> GetParm("mkt_share", t, false, sample, rng) == Ok(Resolved(l.mktShare.value, rng)))
            && (l.nInfec.Ok? ==> GetParm("n_infec", t, false, sample, rng) == Ok(Resolved(l.nInfec.value, rng)))
            && (l.regionPop.Ok? ==> GetParm("region_pop", t, false, sample, rng) == Ok(Resolved(l.regionPop.value, rng)))
  {
  }

  /** Whether the derivation finds the four values it reads
      and divides only by non-zero values. */
  predicate Derivable(p: Params, lookups: Lookups) {
    && p.recoveryDays != 0.0 && p.doublingTime != 0.0 && p.hospProp != 0.0
    && lookups.nHosp.Ok? && lookups.nHosp.value != 0.0
    && lookups.mktShare.Ok? && lookups.mktShare.value != 0.0
    && lookups.nInfec.Ok? && lookups.nInfec.value != 0.0
    && lookups.regionPop.Ok? && lookups.regionPop.value != 0.0
  }

  /** The derivation of the SIR inputs: the recovery rate is the reciprocal of the recovery
      time; the transmission rate, times the population, is the growth rate
      plus the recovery rate, damped by social distancing; the initial state
      is the whole population susceptible plus n_hosp / mkt_share / hosp_prop
      infected (the detection probability cancels) and nobody recovered.
      Failures surface in the order the source meets them. */
  function Derive(p: Params, growthOf: real -> real, lookups: Lookups): (r: Result<Derived>)
    ensures r.Ok? <==> Derivable(p, lookups)
    ensures r.Ok? ==> r.value.gamma * p.recoveryDays == 1.0
    ensures r.Ok? ==> r.value.beta * lookups.regionPop.value ==
                      (growthOf(p.doublingTime) + r.value.gamma) * (1.0 - p.socDist)
    ensures r.Ok? ==>
              r.value.init == State(lookups.regionPop.value, lookups.nHosp.value / lookups.mktShare.value / p.hospProp, 0.0)
    ensures r.Ok? ==> r.value.mktShare == lookups.mktShare.value
  {
    if p.recoveryDays == 0.0 then Err(DivisionByZero("recovery_days"))
    else
      var gamma := 1.0 / p.recoveryDays;
      Reciprocal(p.recoveryDays);
      if p.doublingTime == 0.0 then Err(DivisionByZero("doubling_time"))
      else
        var growth := growthOf(p.doublingTime);
        var nHosp :- lookups.nHosp;
        var mkt :- lookups.mktShare;
        if mkt == 0.0 then Err(DivisionByZero("mkt_share"))
        else if p.hospProp == 0.0 then Err(DivisionByZero("hosp_prop"))
        else
          var totalInfections := nHosp / mkt / p.hospProp;
          var nInfec :- lookups.nInfec;
          QuotientZero(nHosp, mkt);
          QuotientZero(nHosp / mkt, p.hospProp);
          if totalInfections == 0.0 then Err(DivisionByZero("total_infections"))
          else
            var detectionProb := nInfec / totalInfections;
            var regionPop :- lookups.regionPop;
            if regionPop == 0.0 then Err(DivisionByZero("region_pop"))
            else
              var beta := (growth + gamma) / regionPop * (1.0 - p.socDist);
              QuotientZero(nInfec, totalInfections);
              if detectionProb == 0.0 then Err(DivisionByZero("detection_prob"))
              else
                CancelNested(nInfec, totalInfections);
                ScaleBack(growth + gamma, regionPop, 1.0 - p.socDist);
                Ok(Derived(gamma, beta, State(regionPop, nInfec / detectionProb, 0.0), mkt))
  }

  /** How a run changes the table before resolving: the two entry points of
      `modparm` (one name, or a list of names). */
  datatype Modification =
    | Unmodified
    | ModifyOne(name: string, value: real)
    | ModifyMany(names: seq<string>, values: seq<real>)

  /** Apply a run's override to a copy of the table. */
  function Modify(t: Table, m: Modification): (r: Result<Table>)
    ensures r.Ok? ==> ParamNames(r.value) == ParamNames(t)
    ensures m.Unmodified? ==> r == Ok(t)
    ensures m.ModifyOne? ==> r == OverrideOne(t, m.name, m.value)
    ensures m.ModifyMany? ==> r == OverrideMany(t, m.names, m.values)
  {
    match m
    case Unmodified => Ok(t)
    case ModifyOne(x, v) => OverrideOne(t, x, v)
    case ModifyMany(xs, vs) => OverrideMany(t, xs, vs)
  }

  /** What a run returns. */
  datatype Output =
    /** `output_SIR`: one (S, I, R) row per day. */
    | Trajectory(rows: seq<State>)
    /** Not drawing: the projection table. */
    | Projected(table: ProjectionTable)
    /** Drawing: the day index, the six value columns as a matrix, their
        names and the nine parameter values used. */
    | Sampled(days: seq<int>, values: seq<seq<real>>, names: seq<string>, parms: Params)

  /** The S column of a trajectory. */
  function Susceptible(tr: seq<State>): (s: seq<real>)
    ensures |s| == |tr|
    ensures forall k :: 0 <= k < |tr| ==> s[k] == tr[k].s
  {
    seq(|tr|, k requires 0 <= k < |tr| => tr[k].s)
  }

  /** What the projection reads: the resolved proportions and stays, the
      market share, and the raw ventilator stay `ICU_LOS * vent_LOS`. */
  function CoefficientsOf(p: Params, mkt: real): (k: Coefficients)
    ensures k.hospProp == p.hospProp && k.icuProp == p.icuProp && k.ventProp == p.ventProp && k.mktShare == mkt
    ensures k.hospLos == p.hospLos && k.icuLos == p.icuLos
    ensures k.ventLos == p.icuLos * p.ventLos
  {
    Coefficients(p.hospProp, p.icuProp, p.ventProp, mkt, p.hospLos, p.icuLos, p.icuLos * p.ventLos)
  }

  /** `sensitivity_wrapper`. */
  function SensitivityWrapper(params: Table, seed: int, randomDraw: bool, m: Modification, outputSir: bool,
                              sample: Sampler, growthOf: real -> real): (r: Result<Output>)
    ensures Modify(params, m).Err? ==> r == Err(Modify(params, m).fault)
    ensures r.Ok? ==> Modify(params, m).Ok? && ResolveParams(Modify(params, m).value, randomDraw, sample, Rng(seed, [])).Ok?
    ensures r.Ok? && r.value.Sampled? ==>
              r.value.parms == ResolveParams(Modify(params, m).value, randomDraw, sample, Rng(seed, [])).value.0
    ensures r.Ok? ==> (r.value.Trajectory? <==> outputSir)
    ensures r.Ok? && outputSir ==> |r.value.rows| == Horizon + 1
    ensures r.Ok? && !outputSir ==> (r.value.Sampled? <==> randomDraw)
    ensures r.Ok? && r.value.Projected? ==>
              |r.value.table.day| == Horizon + 1 && forall d :: 0 <= d <= Horizon ==> r.value.table.day[d] == d
    ensures r.Ok? && r.value.Sampled? ==>
              && |r.value.days| == Horizon + 1 && (forall d :: 0 <= d <= Horizon ==> r.value.days[d] == d)
              && |r.value.values| == Horizon + 1 && (forall d :: 0 <= d <= Horizon ==> |r.value.values[d]| == 6)
              && r.value.names == ValueColumns
  {
    var rng := Rng(seed, []);
    var t :- Modify(params, m);
    var resolved :- ResolveParams(t, randomDraw, sample, rng);
    var p := resolved.0;
    var d :- Derive(p, growthOf, LookupsOf(t));
    var tr :- Iterate(StepFn(d.beta, d.gamma, Total(d.init)), d.init, Horizon);
    if outputSir then Ok(Trajectory(tr))
    else
      var proj := Project(Susceptible(tr), CoefficientsOf(p, d.mktShare));
      if randomDraw then Ok(Sampled(proj.day, ValueMatrix(proj), ValueColumns, p))
      else Ok(Projected(proj))
  }

  /** A run fails only at an override, a lookup, a division at the
      derivation, or a degenerate rescale: once those pass and the initial
      population is positive, it succeeds. */
  lemma WrapperDefined(params: Table, seed: int, randomDraw: bool, m: Modification, outputSir: bool,
                       sample: Sampler, growthOf: real -> real)
    requires Modify(params, m).Ok?
    requires ResolveParams(Modify(params, m).value, randomDraw, sample, Rng(seed, [])).Ok?
    requires Derivable(ResolveParams(Modify(params, m).value, randomDraw, sample, Rng(seed, [])).value.0, LookupsOf(Modify(params, m).value))
    requires BaseValue("region_pop", Modify(params, m).value).value +
             BaseValue("n_hosp", Modify(params, m).value).value / BaseValue("mkt_share", Modify(params, m).value).value /
             ResolveParams(Modify(params, m).value, randomDraw, sample, Rng(seed, [])).value.0.hospProp > 0.0
    ensures SensitivityWrapper(params, seed, randomDraw, m, outputSir, sample, growthOf).Ok?
  {
    var t := Modify(params, m).value;
    var p := ResolveParams(t, randomDraw, sample, Rng(seed, [])).value.0;
    var d := Derive(p, growthOf, LookupsOf(t)).value;
    TrajectoryConserves(d.init, d.beta, d.gamma, Horizon);
  }

  /** A parameter pinned by an override is used at its pinned value whether
      or not the run draws. */
  lemma OverrideFixesResolvedValue(params: Table, x: string, v: real, randomDraw: bool, sample: Sampler, rng: Rng, k: nat)
    requires k < |ResolvedNames| && ResolvedNames[k] == x
    requires |Matching(params, x)| == 1
    requires Modify(params, ModifyOne(x, v)).Ok?
    requires ResolveParams(Modify(params, ModifyOne(x, v)).value, randomDraw, sample, rng).Ok?
    ensures Values(ResolveParams(Modify(params, ModifyOne(x, v)).value, randomDraw, sample, rng).value.0)[k] == v
  {
    var t := Modify(params, ModifyOne(x, v)).value;
    OverrideOneResolves(params, x, v, sample, rng);
    assert !Drawn(x, t, randomDraw) && BaseValue(x, t) == Ok(v);
    ResolveEachValues(ResolvedNames, t, randomDraw, sample, rng);
  }

  /** After overriding a list, every listed parameter is used at the value
      of its last entry, whether or not the run draws. */
  lemma OverrideManyFixesResolvedValue(params: Table, names: seq<string>, vals: seq<real>, randomDraw: bool,
                                       sample: Sampler, rng: Rng, k: nat)
    requires k < |ResolvedNames| && ResolvedNames[k] in names
    requires |Matching(params, ResolvedNames[k])| == 1
    requires Modify(params, ModifyMany(names, vals)).Ok?
    requires ResolveParams(Modify(params, ModifyMany(names, vals)).value, randomDraw, sample, rng).Ok?
    ensures Values(ResolveParams(Modify(params, ModifyMany(names, vals)).value, randomDraw, sample, rng).value.0)[k] ==
            LastValue(names, vals, ResolvedNames[k])
  {
    var x := ResolvedNames[k];
    var t := Modify(params, ModifyMany(names, vals)).value;
    OverrideManyResolves(params, names, vals, x, sample, rng);
    assert !Drawn(x, t, randomDraw) && BaseValue(x, t) == Ok(LastValue(names, vals, x));
    ResolveEachValues(ResolvedNames, t, randomDraw, sample, rng);
  }

  /** A sampled run reports, under `parms`, the value an override gave. */
  lemma WrapperReportsOverride(params: Table, seed: int, x: string, v: real, sample: Sampler, growthOf: real -> real, k: nat)
    requires k < |ResolvedNames| && ResolvedNames[k] == x
    requires |Matching(params, x)| == 1
    requires SensitivityWrapper(params, seed, true, ModifyOne(x, v), false, sample, growthOf).Ok?
    ensures SensitivityWrapper(params, seed, true, ModifyOne(x, v), false, sample, growthOf).value.Sampled?
    ensures Values(SensitivityWrapper(params, seed, true, ModifyOne(x, v), false, sample, growthOf).value.parms)[k] == v
  {
    OverrideFixesResolvedValue(params, x, v, true, sample, Rng(seed, []), k);
  }

  /** The trajectory of a run starts with the whole region susceptible and
      n_hosp / mkt_share / hosp_prop infected, and every day keeps that
      total. */
  lemma WrapperTrajectory(params: Table, seed: int, randomDraw: bool, m: Modification, sample: Sampler, growthOf: real -> real)
    requires SensitivityWrapper(params, seed, randomDraw, m, true, sample, growthOf).Ok?
    ensures Modify(params, m).Ok? && ResolveParams(Modify(params, m).value, randomDraw, sample, Rng(seed, [])).Ok?
    ensures var t := Modify(params, m).value;
            var p := ResolveParams(t, randomDraw, sample, Rng(seed, [])).value.0;
            var rows := SensitivityWrapper(params, seed, randomDraw, m, true, sample, growthOf).value.rows;
            && BaseValue("region_pop", t).Ok? && BaseValue("n_hosp", t).Ok? && BaseValue("mkt_share", t).Ok?
            && BaseValue("mkt_share", t).value != 0.0 && p.hospProp != 0.0
            && rows[0] == State(BaseValue("region_pop", t).value,
                                BaseValue("n_hosp", t).value / BaseValue("mkt_share", t).value / p.hospProp, 0.0)
            && forall d :: 0 <= d <= Horizon ==>
                 Total(rows[d]) == BaseValue("region_pop", t).value +
                                   BaseValue("n_hosp", t).value / BaseValue("mkt_share", t).value / p.hospProp
    ensures Derive(ResolveParams(Modify(params, m).value, randomDraw, sample, Rng(seed, [])).value.0,
                   growthOf, LookupsOf(Modify(params, m).value)).Ok?
    // Each day is one `sir` step of the day before, with the derived rates and the starting total.
    ensures var t := Modify(params, m).value;
            var p := ResolveParams(t, randomDraw, sample, Rng(seed, [])).value.0;
            var d := Derive(p, growthOf, LookupsOf(t)).value;
            var rows := SensitivityWrapper(params, seed, randomDraw, m, true, sample, growthOf).value.rows;
            forall k :: 0 <= k < Horizon ==> Step(rows[k], d.beta, d.gamma, Total(rows[0])) == Ok(rows[k + 1])
  {
    var t := Modify(params, m).value;
    var p := ResolveParams(t, randomDraw, sample, Rng(seed, [])).value.0;
    var d := Derive(p, growthOf, LookupsOf(t)).value;
    TrajectoryTotals(d.init, d.beta, d.gamma, Horizon);
    var rows := SensitivityWrapper(params, seed, randomDraw, m, true, sample, growthOf).value.rows;
    forall k | 0 <= k < Horizon
      ensures Step(rows[k], d.beta, d.gamma, Total(rows[0])) == Ok(rows[k + 1])
    {
      assert StepFn(d.beta, d.gamma, Total(d.init))(rows[k]) == Ok(rows[k + 1]);
    }
  }

  /** What the projection of a trajectory `tr` is, for resolved parameters
      `p` and market share `mkt`: one row per day numbered from 0; the
      admissions of the daily drop of S; each census over its own
      admissions, the ventilator one over `int(ICU_LOS * vent_LOS)`. */
  predicate ProjectionOf(proj: ProjectionTable, tr: seq<State>, p: Params, mkt: real) {
    && Aligned(proj) && |proj.day| == |tr|
    && (forall d :: 0 <= d < |proj.day| ==> proj.day[d] == d)
    && Admissions(proj.hospAdm, proj.icuAdm, proj.ventAdm) ==
       Admit(Delta(Susceptible(tr)), p.hospProp, p.icuProp, p.ventProp, mkt)
    && proj.hospCensus == Census(proj.hospAdm, Trunc(p.hospLos))
    && proj.icuCensus == Census(proj.icuAdm, Trunc(p.icuLos))
    && proj.ventCensus == Census(proj.ventAdm, Trunc(p.icuLos * p.ventLos))
  }

  /** The table a run returns, or the matrix of a sampled run, is the
      projection of the trajectory the same run returns with `output_SIR`. */
  lemma WrapperProjects(params: Table, seed: int, randomDraw: bool, m: Modification, sample: Sampler, growthOf: real -> real)
    requires SensitivityWrapper(params, seed, randomDraw, m, false, sample, growthOf).Ok?
    ensures SensitivityWrapper(params, seed, randomDraw, m, true, sample, growthOf).Ok?
    ensures Modify(params, m).Ok? && ResolveParams(Modify(params, m).value, randomDraw, sample, Rng(seed, [])).Ok?
    ensures BaseValue("mkt_share", Modify(params, m).value).Ok?
    ensures var t := Modify(params, m).value;
            var p := ResolveParams(t, randomDraw, sample, Rng(seed, [])).value.0;
            var mkt := BaseValue("mkt_share", t).value;
            var tr := SensitivityWrapper(params, seed, randomDraw, m, true, sample, growthOf).value.rows;
            var out := SensitivityWrapper(params, seed, randomDraw, m, false, sample, growthOf).value;
            && (out.Projected? ==> ProjectionOf(out.table, tr, p, mkt))
            && (out.Sampled? ==> exists proj :: ProjectionOf(proj, tr, p, mkt) && out.values == ValueMatrix(proj))
  {
    var t := Modify(params, m).value;
    var p := ResolveParams(t, randomDraw, sample, Rng(seed, [])).value.0;
    var d := Derive(p, growthOf, LookupsOf(t)).value;
    var tr := Iterate(StepFn(d.beta, d.gamma, Total(d.init)), d.init, Horizon).value;
    var proj := Project(Susceptible(tr), CoefficientsOf(p, d.mktShare));
    assert ProjectionOf(proj, tr, p, d.mktShare);
  }

  /** With a non-negative transmission rate, a non-negative start of
      positive size and non-negative proportions, every admission is
      non-negative, and so is every census whose window is 0 days or more. */
  lemma ProjectionNonNegative(init: State, beta: real, gamma: real, k: Coefficients)
    requires beta >= 0.0 && NonNegative(init) && Total(init) > 0.0
    requires k.hospProp >= 0.0 && k.icuProp >= 0.0 && k.ventProp >= 0.0 && k.mktShare >= 0.0
    ensures Iterate(StepFn(beta, gamma, Total(init)), init, Horizon).Ok?
    ensures var p := Project(Susceptible(Iterate(StepFn(beta, gamma, Total(init)), init, Horizon).value), k);
            && (forall d :: 0 <= d < |p.day| ==> p.hospAdm[d] >= 0.0 && p.icuAdm[d] >= 0.0 && p.ventAdm[d] >= 0.0)
            && (k.hospLos >= 0.0 ==> forall d :: 0 <= d < |p.day| ==> p.hospCensus[d] >= 0)
            && (k.icuLos >= 0.0 ==> forall d :: 0 <= d < |p.day| ==> p.icuCensus[d] >= 0)
            && (k.ventLos >= 0.0 ==> forall d :: 0 <= d < |p.day| ==> p.ventCensus[d] >= 0)
  {
    TrajectorySusceptibleNonIncreasing(init, beta, gamma, Horizon);
    var s := Susceptible(Iterate(StepFn(beta, gamma, Total(init)), init, Horizon).value);
    ProjectNonNegative(s, k);
  }
}
