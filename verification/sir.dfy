/** The SIR step (`sir`) and its integrator (`sim_sir`), over exact reals.

    One day moves `beta*S*I` people from S to I and `gamma*I` from I to R.
    Each compartment is then clamped at zero, and all three are rescaled so
    that they add up to the population N again. The rescale divides by the
    clamped total, so it fails when all three clamp to zero.
 */
module Sir {
  import opened Results

  /** The three compartments on one day. */
  datatype State = State(s: real, i: real, r: real)

  function Total(y: State): real {
    y.s + y.i + y.r
  }

  predicate NonNegative(y: State) {
    y.s >= 0.0 && y.i >= 0.0 && y.r >= 0.0
  }

  /** A negative count becomes 0. */
  function Clamp(x: real): (c: real)
    ensures c >= 0.0 && c >= x
    ensures x >= 0.0 ==> c == x
    ensures x < 0.0 ==> c == 0.0
  {
    if x < 0.0 then 0.0 else x
  }

  /** The day's update before clamping and rescaling: it moves people
      between compartments and keeps the total. */
  function Raw(y: State, beta: real, gamma: real): (r: State)
    ensures Total(r) == Total(y)
  {
    State(-beta * y.s * y.i + y.s,
          (beta * y.s * y.i - gamma * y.i) + y.i,
          gamma * y.i + y.r)
  }

  /** The clamped update: each compartment of the raw update, floored at 0.
      Clamping can only add people, so the clamped total is at least S+I+R
      and the rescale is defined whenever S+I+R > 0. */
  function Clamped(y: State, beta: real, gamma: real): (c: State)
    ensures NonNegative(c)
    ensures Total(c) >= Total(y)
    ensures Total(c) == 0.0 <==> Raw(y, beta, gamma).s <= 0.0 && Raw(y, beta, gamma).i <= 0.0 && Raw(y, beta, gamma).r <= 0.0
    ensures c.s == Clamp(Raw(y, beta, gamma).s) && c.i == Clamp(Raw(y, beta, gamma).i) && c.r == Clamp(Raw(y, beta, gamma).r)
  {
    var raw := Raw(y, beta, gamma);
    State(Clamp(raw.s), Clamp(raw.i), Clamp(raw.r))
  }

  /** Multiply every compartment by `n / Total(c)`. */
  function Rescale(c: State, n: real): (r: State)
    requires Total(c) != 0.0
    ensures Total(r) == n
    ensures NonNegative(c) && Total(c) > 0.0 && n >= 0.0 ==> NonNegative(r)
    ensures Proportional(r, c, n)
  {
    var sum := Total(c);
    var scale := n / sum;
    Distribute(c.s, c.i, c.r, scale);
    CancelDivision(sum, n);
    ScaledSign(c, n);
    ScaledProportional(c, n);
    State(c.s * scale, c.i * scale, c.r * scale)
  }

  /** Every compartment of `r` is the same multiple `n / Total(c)` of its
      compartment in `c`, stated without dividing. */
  predicate Proportional(r: State, c: State, n: real) {
    r.s * Total(c) == c.s * n && r.i * Total(c) == c.i * n && r.r * Total(c) == c.r * n
  }

  lemma ScaledProportional(c: State, n: real)
    requires Total(c) != 0.0
    ensures Proportional(State(c.s * (n / Total(c)), c.i * (n / Total(c)), c.r * (n / Total(c))), c, n)
  {
    var k := n / Total(c);
    assert k * Total(c) == n;
    assert c.s * k * Total(c) == c.s * (k * Total(c));
    assert c.i * k * Total(c) == c.i * (k * Total(c));
    assert c.r * k * Total(c) == c.r * (k * Total(c));
  }

  /** `sir`: one day of the epidemic, rescaled to total `n`. A successful
      step is the clamped update scaled by one common factor. */
  function Step(y: State, beta: real, gamma: real, n: real): (r: Result<State>)
    ensures r.Err? <==> Raw(y, beta, gamma).s <= 0.0 && Raw(y, beta, gamma).i <= 0.0 && Raw(y, beta, gamma).r <= 0.0
    ensures r.Err? ==> r.fault == DivisionByZero("rescale")
    ensures Total(y) > 0.0 ==> r.Ok?
    ensures r.Ok? ==> Total(r.value) == n
    ensures r.Ok? && n >= 0.0 ==> NonNegative(r.value)
    ensures r.Ok? ==> Proportional(r.value, Clamped(y, beta, gamma), n)
  {
    var c := Clamped(y, beta, gamma);
    if Total(c) == 0.0 then Err(DivisionByZero("rescale"))
    else Ok(Rescale(c, n))
  }

  lemma Distribute(a: real, b: real, c: real, k: real)
    ensures a * k + b * k + c * k == (a + b + c) * k
  {
  }

  lemma CancelDivision(d: real, n: real)
    requires d != 0.0
    ensures d * (n / d) == n
  {
  }

  lemma ScaledSign(c: State, n: real)
    requires Total(c) != 0.0
    ensures NonNegative(c) && Total(c) > 0.0 && n >= 0.0 ==>
              c.s * (n / Total(c)) >= 0.0 && c.i * (n / Total(c)) >= 0.0 && c.r * (n / Total(c)) >= 0.0
  {
    if NonNegative(c) && Total(c) > 0.0 && n >= 0.0 {
      var k := n / Total(c);
      assert k >= 0.0;
      assert c.s * k >= 0.0 && c.i * k >= 0.0 && c.r * k >= 0.0;
    }
  }

  /** When nothing clamps and the state already totals `n`, the rescale is
      the identity and the step is the raw update (or the division by zero
      when `n` is 0). */
  lemma StepWithoutClamp(y: State, beta: real, gamma: real, n: real)
    requires NonNegative(Raw(y, beta, gamma))
    requires Total(y) == n
    ensures n == 0.0 ==> Step(y, beta, gamma, n) == Err(DivisionByZero("rescale"))
    ensures n != 0.0 ==> Step(y, beta, gamma, n) == Ok(Raw(y, beta, gamma))
  {
    var c := Clamped(y, beta, gamma);
    assert c == Raw(y, beta, gamma);
    if n != 0.0 {
      RescaleByOne(c, n);
    }
  }

  lemma RescaleByOne(c: State, n: real)
    requires Total(c) == n && n != 0.0
    ensures Rescale(c, n) == c
  {
    assert n / Total(c) == 1.0;
  }

  /** Rescaling down to a smaller total shrinks every compartment. */
  lemma RescaleShrinks(c: State, n: real)
    requires NonNegative(c) && 0.0 < n <= Total(c)
    ensures Rescale(c, n).s <= c.s
  {
    var r := Rescale(c, n);
    assert r.s * Total(c) == c.s * n;
    ShrinkFactor(r.s, c.s, n, Total(c));
  }

  lemma ShrinkFactor(a: real, b: real, n: real, d: real)
    requires 0.0 < n <= d && b >= 0.0 && a * d == b * n
    ensures a <= b
  {
    assert b * n <= b * d;
    assert (a - b) * d <= 0.0;
  }

  /** With beta >= 0, the raw update does not raise S. */
  lemma RawSusceptibleDrops(y: State, beta: real, gamma: real)
    requires beta >= 0.0 && NonNegative(y)
    ensures Raw(y, beta, gamma).s <= y.s
  {
    assert beta * y.s >= 0.0;
    assert beta * y.s * y.i >= 0.0;
  }

  /** With a non-negative transmission rate, a step from a non-negative state
      never increases S. */
  lemma StepSusceptibleNonIncreasing(y: State, beta: real, gamma: real)
    requires beta >= 0.0 && NonNegative(y) && Total(y) > 0.0
    ensures Step(y, beta, gamma, Total(y)).Ok?
    ensures Step(y, beta, gamma, Total(y)).value.s <= y.s
  {
    var c := Clamped(y, beta, gamma);
    RawSusceptibleDrops(y, beta, gamma);
    assert c.s <= y.s;
    RescaleShrinks(c, Total(y));
  }

  /** A step where S would go negative: from (1, 1, 0) with beta = 2 and
      gamma = 0 the raw update is (-1, 3, 0); S is floored at 0 before the
      rescale, so the day ends at (0, 2, 0) and not at a rescaled (-1, 3, 0). */
  lemma StepFloorsBeforeRescale(y: State, beta: real, gamma: real, n: real)
    requires y == State(1.0, 1.0, 0.0) && beta == 2.0 && gamma == 0.0 && n == 2.0
    ensures Step(y, beta, gamma, n) == Ok(State(0.0, 2.0, 0.0))
  {
    RawExample(y, beta, gamma);
    var c := Clamped(y, beta, gamma);
    assert c == State(0.0, 3.0, 0.0);
    var r := Step(y, beta, gamma, n);
    assert r.Ok? && Proportional(r.value, c, n);
    ProportionalTo(r.value, c, n);
  }

  lemma RawExample(y: State, beta: real, gamma: real)
    requires y == State(1.0, 1.0, 0.0) && beta == 2.0 && gamma == 0.0
    ensures Raw(y, beta, gamma) == State(-1.0, 3.0, 0.0)
  {
    assert beta * y.s * y.i == 2.0;
  }

  lemma ProportionalTo(r: State, c: State, n: real)
    requires c == State(0.0, 3.0, 0.0) && n == 2.0
    requires Proportional(r, c, n)
    ensures r == State(0.0, 2.0, 0.0)
  {
    assert r.s * 3.0 == 0.0 && r.i * 3.0 == 6.0 && r.r * 3.0 == 0.0;
  }

  /** One day of `sir` with fixed rates and population, as a function of the
      state. */
  function StepFn(beta: real, gamma: real, n: real): State -> Result<State> {
    y => Step(y, beta, gamma, n)
  }

  /** `days` applications of `step` from `y0`: `days + 1` states, the first
      `y0` and each next one the step of the previous, or the first failure. */
  function Iterate(step: State -> Result<State>, y0: State, days: nat): (r: Result<seq<State>>)
    ensures r.Ok? ==> |r.value| == days + 1 && r.value[0] == y0
    ensures r.Ok? ==> forall k :: 0 <= k < days ==> step(r.value[k]) == Ok(r.value[k + 1])
  {
    if days == 0 then Ok([y0])
    else
      var prefix :- Iterate(step, y0, days - 1);
      var next :- step(prefix[days - 1]);
      Ok(prefix + [next])
  }

  /** `sim_sir`: integrate `days` days from (S, I, R), with N = S+I+R fixed
      at the start. */
  method SimSir(s: real, i: real, r: real, beta: real, gamma: real, days: nat)
    returns (traj: Result<seq<State>>)
    ensures traj == Iterate(StepFn(beta, gamma, s + i + r), State(s, i, r), days)
  {
    var step := StepFn(beta, gamma, s + i + r);
    var y := State(s, i, r);
    var acc := [y];
    var day := 0;
    while day < days
      invariant 0 <= day <= days
      invariant Iterate(step, State(s, i, r), day) == Ok(acc)
      invariant y == acc[day]
    {
      var next := step(y);
      if next.Err? {
        traj := Err(next.fault);
        assert Iterate(step, State(s, i, r), day + 1) == traj;
        IterateFailureSticks(step, State(s, i, r), day + 1, days);
        return;
      }
      y := next.value;
      acc := acc + [y];
      day := day + 1;
    }
    traj := Ok(acc);
  }

  /** Once a step fails, every longer horizon fails with the same fault. */
  lemma {:induction false} IterateFailureSticks(step: State -> Result<State>, y0: State, d: nat, days: nat)
    requires d <= days
    requires Iterate(step, y0, d).Err?
    ensures Iterate(step, y0, days) == Iterate(step, y0, d)
    decreases days - d
  {
    if d < days {
      IterateFailureSticks(step, y0, d, days - 1);
    }
  }

  /** An invariant that every step keeps, and under which no step fails,
      holds on the whole trajectory. */
  lemma {:induction false} IterateKeeps(step: State -> Result<State>, inv: State -> bool, y0: State, days: nat)
    requires inv(y0)
    requires forall y :: inv(y) ==> step(y).Ok? && inv(step(y).value)
    ensures Iterate(step, y0, days).Ok?
    ensures forall k :: 0 <= k <= days ==> inv(Iterate(step, y0, days).value[k])
  {
    if days > 0 {
      IterateKeeps(step, inv, y0, days - 1);
    }
  }

  /** Conservation: from a state with positive total N, no step divides by
      zero, every state totals N and every state after the first is
      non-negative. */
  lemma {:induction false} TrajectoryConserves(y0: State, beta: real, gamma: real, days: nat)
    requires Total(y0) > 0.0
    ensures Iterate(StepFn(beta, gamma, Total(y0)), y0, days).Ok?
    ensures forall k :: 0 <= k <= days ==> Total(Iterate(StepFn(beta, gamma, Total(y0)), y0, days).value[k]) == Total(y0)
    ensures forall k :: 1 <= k <= days ==> NonNegative(Iterate(StepFn(beta, gamma, Total(y0)), y0, days).value[k])
  {
    var n := Total(y0);
    var step := StepFn(beta, gamma, n);
    var inv := (y: State) => Total(y) == n;
    forall y | inv(y)
      ensures step(y).Ok? && inv(step(y).value)
    {
      assert Total(y) > 0.0;
    }
    IterateKeeps(step, inv, y0, days);
    var tr := Iterate(step, y0, days).value;
    forall k | 1 <= k <= days
      ensures NonNegative(tr[k])
    {
      assert step(tr[k - 1]) == Ok(tr[k]);
      assert inv(tr[k - 1]);
    }
  }

  /** Whatever the start, a run that does not fail keeps every state at the
      starting total. */
  lemma TrajectoryTotals(y0: State, beta: real, gamma: real, days: nat)
    requires Iterate(StepFn(beta, gamma, Total(y0)), y0, days).Ok?
    ensures forall k :: 0 <= k <= days ==> Total(Iterate(StepFn(beta, gamma, Total(y0)), y0, days).value[k]) == Total(y0)
  {
    var step := StepFn(beta, gamma, Total(y0));
    var tr := Iterate(step, y0, days).value;
    forall k | 1 <= k <= days
      ensures Total(tr[k]) == Total(y0)
    {
      assert step(tr[k - 1]) == Ok(tr[k]);
    }
  }

  /** With a non-negative transmission rate and a non-negative start, S
      never increases from one day to the next. */
  lemma TrajectorySusceptibleNonIncreasing(y0: State, beta: real, gamma: real, days: nat)
    requires beta >= 0.0 && NonNegative(y0) && Total(y0) > 0.0
    ensures Iterate(StepFn(beta, gamma, Total(y0)), y0, days).Ok?
    ensures forall k :: 0 <= k < days ==>
              Iterate(StepFn(beta, gamma, Total(y0)), y0, days).value[k + 1].s <=
              Iterate(StepFn(beta, gamma, Total(y0)), y0, days).value[k].s
  {
    TrajectoryConserves(y0, beta, gamma, days);
    var step := StepFn(beta, gamma, Total(y0));
    var tr := Iterate(step, y0, days).value;
    forall k | 0 <= k < days
      ensures tr[k + 1].s <= tr[k].s
    {
      assert NonNegative(tr[k]) && Total(tr[k]) == Total(y0);
      StepSusceptibleNonIncreasing(tr[k], beta, gamma);
      assert step(tr[k]) == Ok(tr[k + 1]);
    }
  }
}
