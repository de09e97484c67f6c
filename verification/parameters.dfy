/** The parameter table, its lookup (`getparm`) and the sensitivity override
    that pins parameters to constants.

    A table is a sequence of rows (param, base, distribution, p1, p2), read
    from a CSV file outside this model. Looking a name up returns the row's
    base value or, when drawing and the row's distribution is not
    "constant", one sample from the named distribution. The sampler is an
    oracle: numpy's process-wide generator, seeded once per run, whose next
    value is determined by the seed and the draws already taken.
 */
module Parameters {
  import opened Results

  /** One row of the parameter table. */
  datatype Row = Row(param: string, base: real, distribution: string, p1: real, p2: real)

  type Table = seq<Row>

  /** The distribution label that means "use the base value". */
  const Constant: string := "constant"

  /** One request to the sampling backend: a distribution label and its two
      shape parameters. */
  datatype Draw = Draw(distribution: string, p1: real, p2: real)

  /** The state of the process-wide generator: the seed it was last given and
      the draws requested since. */
  datatype Rng = Rng(seed: int, history: seq<Draw>)

  /** The sampling backend: the value of the next draw from generator state
      `rng`, or None when the backend refuses the request: no distribution of
      that label exists, or it rejects the shape parameters. */
  type Sampler = (Rng, Draw) -> Option<real>

  /** A looked-up value together with the generator state after the lookup. */
  datatype Resolved = Resolved(value: real, rng: Rng)

  /** The `param` column as a list. */
  function ParamNames(t: Table): (names: seq<string>)
    ensures |names| == |t|
    ensures forall i :: 0 <= i < |t| ==> names[i] == t[i].param
  {
    seq(|t|, i requires 0 <= i < |t| => t[i].param)
  }

  /** The rows whose name is `x`, in table order. */
  function Matching(t: Table, x: string): (rows: seq<Row>)
    ensures |rows| <= |t|
    ensures forall k :: 0 <= k < |rows| ==> rows[k].param == x
    ensures |rows| == 0 <==> x !in ParamNames(t)
  {
    if |t| == 0 then []
    else
      assert t[0].param == ParamNames(t)[0];
      assert forall i :: 0 <= i < |t| - 1 ==> ParamNames(t[1..])[i] == ParamNames(t)[i + 1];
      (if t[0].param == x then [t[0]] else []) + Matching(t[1..], x)
  }

  /** The matching rows are exactly the table's rows named `x`. */
  lemma {:induction false} MatchingMembers(t: Table, x: string)
    ensures forall row :: row in Matching(t, x) <==> row in t && row.param == x
  {
    if |t| > 0 {
      MatchingMembers(t[1..], x);
      assert forall row :: row in t <==> row == t[0] || row in t[1..];
    }
  }

  /** The selection has one row for each time `x` occurs in the name
      column. */
  lemma {:induction false} MatchingCardinality(t: Table, x: string)
    ensures |Matching(t, x)| == multiset(ParamNames(t))[x]
  {
    if |t| > 0 {
      MatchingCardinality(t[1..], x);
      assert ParamNames(t) == [t[0].param] + ParamNames(t[1..]);
    }
  }

  /** The first selected row is the table's first row named `x`, which is
      what `iloc[0]` of the selection reads. */
  lemma {:induction false} MatchingFirst(t: Table, x: string)
    requires |Matching(t, x)| > 0
    ensures exists j :: 0 <= j < |t| && t[j].param == x && Matching(t, x)[0] == t[j] &&
                        forall i :: 0 <= i < j ==> t[i].param != x
  {
    if t[0].param != x {
      MatchingFirst(t[1..], x);
      var j :| 0 <= j < |t| - 1 && t[1..][j].param == x && Matching(t[1..], x)[0] == t[1..][j] &&
               forall i :: 0 <= i < j ==> t[1..][i].param != x;
      assert forall i :: 0 < i <= j ==> t[i] == t[1..][i - 1];
      assert t[j + 1].param == x && Matching(t, x)[0] == t[j + 1];
    } else {
      assert Matching(t, x)[0] == t[0];
    }
  }

  /** When exactly one row is named `x`, every row named `x` is that row. */
  lemma SoleMatch(t: Table, x: string)
    requires |Matching(t, x)| == 1
    ensures forall i :: 0 <= i < |t| && t[i].param == x ==> t[i] == Matching(t, x)[0]
  {
    MatchingMembers(t, x);
    forall i | 0 <= i < |t| && t[i].param == x
      ensures t[i] == Matching(t, x)[0]
    {
      assert t[i] in t;
    }
  }

  /** Read a base value without drawing: pandas' `float(...)` of the selected
      cells, which needs exactly one matching row. */
  function BaseValue(x: string, t: Table): (r: Result<real>)
    ensures r.Ok? <==> |Matching(t, x)| == 1
    ensures x !in ParamNames(t) ==> r == Err(UnknownParameter(x))
    ensures r.Ok? ==> forall i :: 0 <= i < |t| && t[i].param == x ==> t[i].base == r.value
  {
    var rows := Matching(t, x);
    if |rows| == 1 then
      SoleMatch(t, x);
      Ok(rows[0].base)
    else if |rows| == 0 then Err(UnknownParameter(x))
    else Err(AmbiguousParameter(x))
  }

  /** The request a draw for `x` sends to the sampler: the first matching
      row's label and shape parameters. */
  function DrawFor(x: string, t: Table): Draw
    requires x in ParamNames(t)
  {
    var row := Matching(t, x)[0];
    Draw(row.distribution, row.p1, row.p2)
  }

  /** Whether looking `x` up consumes a sample. */
  predicate Drawn(x: string, t: Table, randomDraw: bool) {
    randomDraw && x in ParamNames(t) && Matching(t, x)[0].distribution != Constant
  }

  /** `getparm`: the base value of `x`, or a sample when drawing and the first
      matching row's distribution is not "constant". */
  function GetParm(x: string, t: Table, randomDraw: bool, sample: Sampler, rng: Rng): (r: Result<Resolved>)
    ensures !Drawn(x, t, randomDraw) ==>
              (r.Ok? <==> BaseValue(x, t).Ok?) && (r.Ok? ==> r.value == Resolved(BaseValue(x, t).value, rng))
    ensures Drawn(x, t, randomDraw) ==>
              (r.Ok? <==> sample(rng, DrawFor(x, t)).Some?)
    ensures Drawn(x, t, randomDraw) && r.Ok? ==>
              && Some(r.value.value) == sample(rng, DrawFor(x, t))
              && r.value.rng == Rng(rng.seed, rng.history + [DrawFor(x, t)])
    ensures r.Ok? ==> (r.value.rng == rng <==> !Drawn(x, t, randomDraw))
    ensures x !in ParamNames(t) ==> r == Err(UnknownParameter(x))
  {
    if !randomDraw then
      var v :- BaseValue(x, t);
      Ok(Resolved(v, rng))
    else
      var rows := Matching(t, x);
      if |rows| == 0 then Err(UnknownParameter(x))
      else if rows[0].distribution != Constant then
        var d := Draw(rows[0].distribution, rows[0].p1, rows[0].p2);
        match sample(rng, d)
        case None => Err(UnsupportedDistribution(rows[0].distribution))
        case Some(v) => Ok(Resolved(v, Rng(rng.seed, rng.history + [d])))
      else
        var v :- BaseValue(x, t);
        Ok(Resolved(v, rng))
  }

  /** A row after pinning parameter `x` to the constant `v`. */
  function PinRow(row: Row, x: string, v: real): Row {
    if row.param == x then row.(base := v, distribution := Constant) else row
  }

  /** Pin every row named `x` to the constant `v`, leaving the others alone. */
  function Pin(t: Table, x: string, v: real): (r: Table)
    ensures |r| == |t|
    ensures forall i :: 0 <= i < |t| ==> r[i].param == t[i].param && r[i].p1 == t[i].p1 && r[i].p2 == t[i].p2
    ensures forall i :: 0 <= i < |t| && t[i].param == x ==> r[i].base == v && r[i].distribution == Constant
    ensures forall i :: 0 <= i < |t| && t[i].param != x ==> r[i] == t[i]
  {
    if |t| == 0 then [] else [PinRow(t[0], x, v)] + Pin(t[1..], x, v)
  }

  /** The value the last occurrence of `x` in `names` pairs with. */
  function LastValue(names: seq<string>, vals: seq<real>, x: string): (v: real)
    requires |vals| >= |names| && x in names
    ensures exists j :: 0 <= j < |names| && names[j] == x && vals[j] == v &&
                        forall k :: j < k < |names| ==> names[k] != x
  {
    if x in names[1..] then
      var w := LastValue(names[1..], vals[1..], x);
      var j :| 0 <= j < |names| - 1 && names[1..][j] == x && vals[1..][j] == w &&
               forall k :: j < k < |names| - 1 ==> names[1..][k] != x;
      assert names[j + 1] == x && vals[j + 1] == w;
      assert forall k :: j + 1 < k < |names| ==> names[k] == names[1..][k - 1];
      w
    else
      assert forall k :: 0 < k < |names| ==> names[k] == names[1..][k - 1];
      vals[0]
  }

  /** Pin `names[0]`, then `names[1]`, and so on, each to its value. */
  function PinEach(t: Table, names: seq<string>, vals: seq<real>): (r: Table)
    requires |vals| >= |names|
    ensures |r| == |t|
    ensures forall i :: 0 <= i < |t| ==> r[i].param == t[i].param && r[i].p1 == t[i].p1 && r[i].p2 == t[i].p2
    ensures forall i :: 0 <= i < |t| && t[i].param in names ==>
              r[i].base == LastValue(names, vals, t[i].param) && r[i].distribution == Constant
    ensures forall i :: 0 <= i < |t| && t[i].param !in names ==> r[i] == t[i]
    decreases |names|
  {
    if |names| == 0 then t
    else
      var u := Pin(t, names[0], vals[0]);
      var r := PinEach(u, names[1..], vals[1..]);
      assert forall y :: y in names <==> y == names[0] || y in names[1..];
      r
  }

  /** Override one parameter: assert the name exists, then pin it. */
  function OverrideOne(t: Table, x: string, v: real): (r: Result<Table>)
    ensures r.Ok? <==> x in ParamNames(t)
    ensures r.Err? ==> r.fault == UnknownParameter(x)
    ensures r.Ok? ==> ParamNames(r.value) == ParamNames(t)
    ensures r.Ok? ==> forall i :: 0 <= i < |t| && t[i].param == x ==>
              r.value[i] == t[i].(base := v, distribution := Constant)
    ensures r.Ok? ==> forall i :: 0 <= i < |t| && t[i].param != x ==> r.value[i] == t[i]
  {
    if x !in ParamNames(t) then Err(UnknownParameter(x))
    else Ok(Pin(t, x, v))
  }

  /** The first of `names` that is not among `known`, if any. */
  function Missing(names: seq<string>, known: seq<string>): (r: Option<string>)
    ensures r.None? <==> forall k :: 0 <= k < |names| ==> names[k] in known
    ensures r.Some? ==> r.value in names && r.value !in known
  {
    if |names| == 0 then None
    else if names[0] !in known then Some(names[0])
    else
      var r := Missing(names[1..], known);
      assert forall k :: 0 < k < |names| ==> names[k] == names[1..][k - 1];
      r
  }

  /** Override a list of parameters: assert every name exists, then pin them
      in order, so that a later entry for a name wins. A value list shorter
      than the name list fails at the first name without a value. */
  function OverrideMany(t: Table, names: seq<string>, vals: seq<real>): (r: Result<Table>)
    ensures r.Ok? <==> (forall k :: 0 <= k < |names| ==> names[k] in ParamNames(t)) && |vals| >= |names|
    ensures (exists k :: 0 <= k < |names| && names[k] !in ParamNames(t)) ==> r.Err? && r.fault.UnknownParameter?
    ensures r.Ok? ==> ParamNames(r.value) == ParamNames(t)
    ensures r.Ok? ==> forall i :: 0 <= i < |t| && t[i].param in names ==>
              r.value[i] == t[i].(base := LastValue(names, vals, t[i].param), distribution := Constant)
    ensures r.Ok? ==> forall i :: 0 <= i < |t| && t[i].param !in names ==> r.value[i] == t[i]
  {
    var missing := Missing(names, ParamNames(t));
    if missing.Some? then Err(UnknownParameter(missing.value))
    else if |vals| < |names| then Err(MissingOverrideValue(names[|vals|]))
    else Ok(PinEach(t, names, vals))
  }

  /** The rows named `x` after pinning `x` are the rows named `x` before,
      each pinned. */
  lemma {:induction false} MatchingPin(t: Table, x: string, v: real)
    ensures |Matching(Pin(t, x, v), x)| == |Matching(t, x)|
    ensures forall k :: 0 <= k < |Matching(Pin(t, x, v), x)| ==>
              Matching(Pin(t, x, v), x)[k].base == v && Matching(Pin(t, x, v), x)[k].distribution == Constant
  {
    if |t| > 0 {
      MatchingPin(t[1..], x, v);
      assert Pin(t, x, v)[1..] == Pin(t[1..], x, v);
    }
  }

  /** Pinning every row named `x` changes neither the number of rows named
      `y` nor, for `y != x`, what they hold. */
  lemma {:induction false} MatchingPinOther(t: Table, x: string, v: real, y: string)
    requires y != x
    ensures Matching(Pin(t, x, v), y) == Matching(t, y)
  {
    if |t| > 0 {
      MatchingPinOther(t[1..], x, v, y);
      assert Pin(t, x, v)[1..] == Pin(t[1..], x, v);
    }
  }

  /** A row-by-row rewrite that keeps names keeps the number of rows per name. */
  lemma {:induction false} MatchingCount(t: Table, u: Table, x: string)
    requires |u| == |t|
    requires forall i :: 0 <= i < |t| ==> u[i].param == t[i].param
    ensures |Matching(u, x)| == |Matching(t, x)|
  {
    if |t| > 0 {
      MatchingCount(t[1..], u[1..], x);
    }
  }

  /** `float(...)` of the selected base cells succeeds exactly when `x`
      occurs once in the name column. */
  lemma BaseValueNeedsOneRow(x: string, t: Table)
    ensures BaseValue(x, t).Ok? <==> multiset(ParamNames(t))[x] == 1
  {
    MatchingCardinality(t, x);
  }

  /** A draw for `x` uses the distribution and shape parameters of the
      table's first row named `x`, and that row decides whether `x` is
      drawn. */
  lemma DrawReadsFirstRow(x: string, t: Table, randomDraw: bool)
    requires x in ParamNames(t)
    ensures exists j :: 0 <= j < |t| && t[j].param == x && (forall i :: 0 <= i < j ==> t[i].param != x) &&
                        DrawFor(x, t) == Draw(t[j].distribution, t[j].p1, t[j].p2) &&
                        (Drawn(x, t, randomDraw) <==> randomDraw && t[j].distribution != Constant)
  {
    MatchingFirst(t, x);
  }

  /** Without drawing, or when the first row named `x` is "constant", a
      lookup returns the base value and leaves the generator untouched. */
  lemma NoDrawReturnsBase(x: string, t: Table, randomDraw: bool, sample: Sampler, rng: Rng)
    requires |Matching(t, x)| == 1
    requires !randomDraw || Matching(t, x)[0].distribution == Constant
    ensures GetParm(x, t, randomDraw, sample, rng) == Ok(Resolved(Matching(t, x)[0].base, rng))
  {
  }

  /** After overriding `x` with `v`, a lookup of `x` returns `v` even when
      drawing, and consumes no sample. */
  lemma OverrideOneResolves(t: Table, x: string, v: real, sample: Sampler, rng: Rng)
    requires |Matching(t, x)| == 1
    requires OverrideOne(t, x, v).Ok?
    ensures GetParm(x, OverrideOne(t, x, v).value, true, sample, rng) == Ok(Resolved(v, rng))
  {
    var u := OverrideOne(t, x, v).value;
    MatchingPin(t, x, v);
  }

  /** Overriding `x` leaves every other parameter's lookup as it was, whether
      it reads the base value, draws, or fails. */
  lemma OverrideOneLeavesOthers(t: Table, x: string, v: real, y: string, randomDraw: bool, sample: Sampler, rng: Rng)
    requires y != x
    requires OverrideOne(t, x, v).Ok?
    ensures GetParm(y, OverrideOne(t, x, v).value, randomDraw, sample, rng) == GetParm(y, t, randomDraw, sample, rng)
  {
    MatchingPinOther(t, x, v, y);
  }

  /** After overriding a list of names, a lookup of any of them returns the
      value of its last entry, even when drawing. */
  lemma OverrideManyResolves(t: Table, names: seq<string>, vals: seq<real>, x: string, sample: Sampler, rng: Rng)
    requires |Matching(t, x)| == 1
    requires x in names
    requires OverrideMany(t, names, vals).Ok?
    ensures GetParm(x, OverrideMany(t, names, vals).value, true, sample, rng) ==
            Ok(Resolved(LastValue(names, vals, x), rng))
  {
    var u := OverrideMany(t, names, vals).value;
    MatchingCount(t, u, x);
    var row := Matching(u, x)[0];
    MatchingMembers(u, x);
    assert row in Matching(u, x);
    var i :| 0 <= i < |u| && u[i] == row;
    assert t[i].param == x;
  }
}
