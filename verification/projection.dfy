/** The admissions and census projection of `sensitivity_wrapper`.

    The daily drop of S is scaled by a chain of proportions into hospital,
    ICU and ventilator admissions. Each census column is then pandas'
    `(cumsum().iloc[:-L] - cumsum().shift(L).fillna(0)).apply(np.ceil)` with
    L = `int(los)`, aligned back onto all rows and `fillna(0)`-ed. For
    L >= 1 that is the rounded-up sum of the last L admissions on every row
    except the last L, which are 0; the first rows see a shorter window, not
    0. For L = 0 the slice `iloc[:-0]` is empty and the whole column is 0.
 */
module Projection {

  /** The sum of `a[lo..hi]`. */
  function SumRange(a: seq<real>, lo: nat, hi: nat): real
    requires lo <= hi <= |a|
    decreases hi - lo
  {
    if lo == hi then 0.0 else SumRange(a, lo, hi - 1) + a[hi - 1]
  }

  lemma {:induction false} SumRangeSplit(a: seq<real>, lo: nat, mid: nat, hi: nat)
    requires lo <= mid <= hi <= |a|
    ensures SumRange(a, lo, hi) == SumRange(a, lo, mid) + SumRange(a, mid, hi)
    decreases hi
  {
    if hi > mid {
      SumRangeSplit(a, lo, mid, hi - 1);
    }
  }

  /** A sum only reads the elements it ranges over. */
  lemma {:induction false} SumRangeAgree(a: seq<real>, b: seq<real>, lo: nat, hi: nat)
    requires lo <= hi <= |a| && hi <= |b|
    requires forall k :: lo <= k < hi ==> a[k] == b[k]
    ensures SumRange(a, lo, hi) == SumRange(b, lo, hi)
    decreases hi - lo
  {
    if lo < hi {
      SumRangeAgree(a, b, lo, hi - 1);
    }
  }

  lemma {:induction false} SumRangeNonNegative(a: seq<real>, lo: nat, hi: nat)
    requires lo <= hi <= |a|
    requires forall k :: lo <= k < hi ==> a[k] >= 0.0
    ensures SumRange(a, lo, hi) >= 0.0
    decreases hi - lo
  {
    if lo < hi {
      SumRangeNonNegative(a, lo, hi - 1);
    }
  }

  /** pandas' `cumsum`: a running total, each entry the sum of the prefix
      ending there. */
  function CumSum(a: seq<real>): (c: seq<real>)
    ensures |c| == |a|
    ensures forall t :: 0 <= t < |a| ==> c[t] == SumRange(a, 0, t + 1)
  {
    if |a| == 0 then []
    else
      var front := a[..|a| - 1];
      var p := CumSum(front);
      assert forall t :: 0 <= t < |front| ==> p[t] == SumRange(a, 0, t + 1) by {
        forall t | 0 <= t < |front|
          ensures p[t] == SumRange(a, 0, t + 1)
        {
          SumRangeAgree(front, a, 0, t + 1);
        }
      }
      p + [(if |p| == 0 then 0.0 else p[|p| - 1]) + a[|a| - 1]]
  }

  /** `np.diff(s * -1)` with a 0 in front: 0, then each day's drop of S. */
  function Delta(s: seq<real>): (ds: seq<real>)
    ensures |ds| == if |s| == 0 then 1 else |s|
    ensures ds[0] == 0.0
    ensures forall t :: 1 <= t < |s| ==> ds[t] == s[t - 1] - s[t]
  {
    var neg := seq(|s|, k requires 0 <= k < |s| => -s[k]);
    [0.0] + seq(if |s| == 0 then 0 else |s| - 1, k requires 0 <= k < |s| - 1 => neg[k + 1] - neg[k])
  }

  /** The drops add up: the first `t + 1` entries of `Delta(s)` sum to the
      fall of S from day 0 to day t. */
  lemma {:induction false} DeltaTelescopes(s: seq<real>, t: nat)
    requires t < |s|
    ensures SumRange(Delta(s), 0, t + 1) == s[0] - s[t]
  {
    if t > 0 {
      DeltaTelescopes(s, t - 1);
    }
  }

  /** The admission columns, one entry per day. */
  datatype Admissions = Admissions(hosp: seq<real>, icu: seq<real>, vent: seq<real>)

  function Scaled(ds: seq<real>, raw: real, mkt: real): seq<real> {
    seq(|ds|, t requires 0 <= t < |ds| => ds[t] * raw * mkt)
  }

  lemma Reassociate(d: real, h: real, c: real, m: real)
    ensures d * (h * c) * m == (d * h * m) * c
  {
  }

  /** The three admission series: every series is `ds` times its raw proportion times the
      market share, where the ICU proportion is a share of hospital
      admissions and the ventilator proportion a share of ICU admissions. */
  function Admit(ds: seq<real>, hospProp: real, icuProp: real, ventProp: real, mkt: real): (a: Admissions)
    ensures |a.hosp| == |ds| && |a.icu| == |ds| && |a.vent| == |ds|
    ensures forall t :: 0 <= t < |ds| ==> a.hosp[t] == ds[t] * hospProp * mkt
    ensures forall t :: 0 <= t < |ds| ==> a.icu[t] == a.hosp[t] * icuProp
    ensures forall t :: 0 <= t < |ds| ==> a.vent[t] == a.icu[t] * ventProp
  {
    var hospRaw := hospProp;
    var icuRaw := hospRaw * icuProp;
    var ventRaw := icuRaw * ventProp;
    var a := Admissions(Scaled(ds, hospRaw, mkt), Scaled(ds, icuRaw, mkt), Scaled(ds, ventRaw, mkt));
    assert forall t :: 0 <= t < |ds| ==> a.icu[t] == a.hosp[t] * icuProp by {
      forall t | 0 <= t < |ds|
        ensures a.icu[t] == a.hosp[t] * icuProp
      {
        Reassociate(ds[t], hospRaw, icuProp, mkt);
      }
    }
    assert forall t :: 0 <= t < |ds| ==> a.vent[t] == a.icu[t] * ventProp by {
      forall t | 0 <= t < |ds|
        ensures a.vent[t] == a.icu[t] * ventProp
      {
        Reassociate(ds[t], icuRaw, ventProp, mkt);
      }
    }
    a
  }

  /** `np.ceil`: the least integer at or above `x`. */
  function Ceil(x: real): (n: int)
    ensures x <= n as real < x + 1.0
  {
    -((-x).Floor)
  }

  /** Python's `int()` of a float: truncation toward zero. */
  function Trunc(x: real): (n: int)
    ensures 0.0 <= x ==> 0 <= n && n as real <= x < n as real + 1.0
    ensures x < 0.0 ==> n <= 0 && n as real - 1.0 < x <= n as real
  {
    if x >= 0.0 then x.Floor else -((-x).Floor)
  }

  /** How many of `n` rows Python's slice `[:stop]` keeps. */
  function SliceKeep(n: nat, stop: int): (e: nat)
    ensures e <= n
    ensures 0 <= stop ==> e == if stop < n then stop else n
    ensures stop < 0 ==> e == if n + stop > 0 then n + stop else 0
  {
    var end := if stop < 0 then n + stop else stop;
    if end < 0 then 0 else if end > n then n else end
  }

  /** Row `t` of `c.shift(L).fillna(0)`. */
  function ShiftFill(c: seq<real>, L: int, t: nat): real {
    if 0 <= t - L < |c| then c[t - L] else 0.0
  }

  /** One census column for admissions `adm` and window `L`. Rows outside
      `iloc[:-L]` are NaN after the index-aligned subtraction and become 0,
      so a stay of 0 days, or one as long as the table, gives a column of
      zeros. */
  function Census(adm: seq<real>, L: int): (census: seq<int>)
    ensures |census| == |adm|
    ensures L == 0 || L >= |adm| ==> forall t :: 0 <= t < |adm| ==> census[t] == 0
  {
    var c := CumSum(adm);
    var kept := SliceKeep(|adm|, -L);
    seq(|adm|, t requires 0 <= t < |adm| => if t < kept then Ceil(c[t] - ShiftFill(c, L, t)) else 0)
  }

  /** What the census is, for every window: with L >= 1, the rounded-up sum
      of the admissions in the last L days (fewer at the start) on all rows
      but the last L, which are 0; with L = 0, 0 everywhere; with L < 0, the
      rounded-up negated sum of the next -L admissions on the first -L rows
      (the running total where the look-ahead leaves the table), else 0. */
  lemma CensusWindow(adm: seq<real>, L: int)
    ensures L >= 1 ==> forall t :: 0 <= t < |adm| ==>
              Census(adm, L)[t] ==
                if t < |adm| - L then Ceil(SumRange(adm, if t - L + 1 < 0 then 0 else t - L + 1, t + 1)) else 0
    ensures L == 0 ==> forall t :: 0 <= t < |adm| ==> Census(adm, L)[t] == 0
    ensures L < 0 ==> forall t :: 0 <= t < |adm| ==>
              Census(adm, L)[t] ==
                if t >= -L then 0
                else if t - L < |adm| then Ceil(-SumRange(adm, t + 1, t - L + 1))
                else Ceil(SumRange(adm, 0, t + 1))
  {
    var c := CumSum(adm);
    forall t | 0 <= t < |adm|
      ensures L >= 1 && t < |adm| - L ==>
                c[t] - ShiftFill(c, L, t) == SumRange(adm, if t - L + 1 < 0 then 0 else t - L + 1, t + 1)
      ensures L < 0 && t - L < |adm| ==> c[t] - ShiftFill(c, L, t) == -SumRange(adm, t + 1, t - L + 1)
    {
      if L >= 1 && t - L + 1 > 0 {
        SumRangeSplit(adm, 0, t - L + 1, t + 1);
      }
      if L < 0 && t - L < |adm| {
        SumRangeSplit(adm, 0, t + 1, t - L + 1);
      }
    }
  }

  /** The census of non-negative admissions is non-negative for every
      window of length 0 or more. */
  lemma CensusNonNegative(adm: seq<real>, L: int)
    requires L >= 0
    requires forall t :: 0 <= t < |adm| ==> adm[t] >= 0.0
    ensures forall t :: 0 <= t < |Census(adm, L)| ==> Census(adm, L)[t] >= 0
  {
    CensusWindow(adm, L);
    forall t | 0 <= t < |adm| && L >= 1 && t < |adm| - L
      ensures Census(adm, L)[t] >= 0
    {
      SumRangeNonNegative(adm, if t - L + 1 < 0 then 0 else t - L + 1, t + 1);
    }
  }

  /** One admission on day 2 and a two-day stay: the census counts it on
      days 2 and 3, the window (t - 2, t], and the last two rows are 0. */
  lemma CensusTwoDayStay()
    ensures Census([0.0, 0.0, 5.0, 0.0, 0.0, 0.0, 0.0], 2) == [0, 0, 5, 5, 0, 0, 0]
  {
    var adm := [0.0, 0.0, 5.0, 0.0, 0.0, 0.0, 0.0];
    CensusWindow(adm, 2);
    var census := Census(adm, 2);
    assert census[0] == Ceil(SumRange(adm, 0, 1)) == 0;
    assert census[1] == Ceil(SumRange(adm, 0, 2)) == 0;
    assert census[2] == Ceil(SumRange(adm, 1, 3)) == 5;
    assert census[3] == Ceil(SumRange(adm, 2, 4)) == 5;
    assert census[4] == Ceil(SumRange(adm, 3, 5)) == 0;
  }

  /** The resolved values the projection reads. `ventLos` is the raw
      ventilator stay, `ICU_LOS * vent_LOS`. */
  datatype Coefficients = Coefficients(
    hospProp: real, icuProp: real, ventProp: real, mktShare: real,
    hospLos: real, icuLos: real, ventLos: real)

  /** The projection table: the day index, three admission columns and three
      census columns. */
  datatype ProjectionTable = ProjectionTable(
    day: seq<int>,
    hospAdm: seq<real>, icuAdm: seq<real>, ventAdm: seq<real>,
    hospCensus: seq<int>, icuCensus: seq<int>, ventCensus: seq<int>)

  /** Every column has one entry per day. */
  predicate Aligned(p: ProjectionTable) {
    var n := |p.day|;
    |p.hospAdm| == n && |p.icuAdm| == n && |p.ventAdm| == n &&
    |p.hospCensus| == n && |p.icuCensus| == n && |p.ventCensus| == n
  }

  /** The day column and the three census columns next to
      the admissions `a`. */
  function Tabulate(a: Admissions, k: Coefficients): (p: ProjectionTable)
    requires |a.icu| == |a.hosp| && |a.vent| == |a.hosp|
    ensures Aligned(p) && |p.day| == |a.hosp|
    ensures forall t :: 0 <= t < |p.day| ==> p.day[t] == t
    ensures Admissions(p.hospAdm, p.icuAdm, p.ventAdm) == a
    ensures p.hospCensus == Census(a.hosp, Trunc(k.hospLos))
    ensures p.icuCensus == Census(a.icu, Trunc(k.icuLos))
    ensures p.ventCensus == Census(a.vent, Trunc(k.ventLos))
  {
    var days := seq(|a.hosp|, t requires 0 <= t < |a.hosp| => t);
    ProjectionTable(days, a.hosp, a.icu, a.vent,
                    Census(a.hosp, Trunc(k.hospLos)),
                    Census(a.icu, Trunc(k.icuLos)),
                    Census(a.vent, Trunc(k.ventLos)))
  }

  /** Project the S trajectory `s` into admissions and
      census. The day column counts the rows; the admissions are those of
      `Admit` on the daily drop of S; each census column windows its own
      admissions over its own length of stay. */
  function Project(s: seq<real>, k: Coefficients): (p: ProjectionTable)
    ensures Aligned(p)
    ensures |s| >= 1 ==> |p.day| == |s|
    ensures forall t :: 0 <= t < |p.day| ==> p.day[t] == t
    ensures Admissions(p.hospAdm, p.icuAdm, p.ventAdm) == Admit(Delta(s), k.hospProp, k.icuProp, k.ventProp, k.mktShare)
    ensures p.hospCensus == Census(p.hospAdm, Trunc(k.hospLos))
    ensures p.icuCensus == Census(p.icuAdm, Trunc(k.icuLos))
    ensures p.ventCensus == Census(p.ventAdm, Trunc(k.ventLos))
  {
    Tabulate(Admit(Delta(s), k.hospProp, k.icuProp, k.ventProp, k.mktShare), k)
  }

  lemma ProductNonNegative(a: real, b: real)
    requires a >= 0.0 && b >= 0.0
    ensures a * b >= 0.0
  {
  }

  /** Non-negative daily drops and non-negative proportions give
      non-negative admissions in all three series. */
  lemma AdmitNonNegative(ds: seq<real>, hospProp: real, icuProp: real, ventProp: real, mkt: real)
    requires forall t :: 0 <= t < |ds| ==> ds[t] >= 0.0
    requires hospProp >= 0.0 && icuProp >= 0.0 && ventProp >= 0.0 && mkt >= 0.0
    ensures var a := Admit(ds, hospProp, icuProp, ventProp, mkt);
            forall t :: 0 <= t < |ds| ==> a.hosp[t] >= 0.0 && a.icu[t] >= 0.0 && a.vent[t] >= 0.0
  {
    var a := Admit(ds, hospProp, icuProp, ventProp, mkt);
    forall t | 0 <= t < |ds|
      ensures a.hosp[t] >= 0.0 && a.icu[t] >= 0.0 && a.vent[t] >= 0.0
    {
      ProductNonNegative(ds[t], hospProp);
      ProductNonNegative(ds[t] * hospProp, mkt);
      ProductNonNegative(a.hosp[t], icuProp);
      ProductNonNegative(a.icu[t], ventProp);
    }
  }

  /** A non-increasing S curve with non-negative proportions projects into
      non-negative admissions, and into non-negative census in every column
      whose length of stay is 0 or more. */
  lemma ProjectNonNegative(s: seq<real>, k: Coefficients)
    requires forall t :: 0 <= t < |s| - 1 ==> s[t + 1] <= s[t]
    requires k.hospProp >= 0.0 && k.icuProp >= 0.0 && k.ventProp >= 0.0 && k.mktShare >= 0.0
    ensures var p := Project(s, k);
            && (forall t :: 0 <= t < |p.day| ==> p.hospAdm[t] >= 0.0 && p.icuAdm[t] >= 0.0 && p.ventAdm[t] >= 0.0)
            && (k.hospLos >= 0.0 ==> forall t :: 0 <= t < |p.day| ==> p.hospCensus[t] >= 0)
            && (k.icuLos >= 0.0 ==> forall t :: 0 <= t < |p.day| ==> p.icuCensus[t] >= 0)
            && (k.ventLos >= 0.0 ==> forall t :: 0 <= t < |p.day| ==> p.ventCensus[t] >= 0)
  {
    var ds := Delta(s);
    forall t | 0 <= t < |ds|
      ensures ds[t] >= 0.0
    {
      if t >= 1 {
        assert s[t] <= s[t - 1];
      }
    }
    AdmitNonNegative(ds, k.hospProp, k.icuProp, k.ventProp, k.mktShare);
    var a := Admit(ds, k.hospProp, k.icuProp, k.ventProp, k.mktShare);
    if k.hospLos >= 0.0 {
      CensusNonNegative(a.hosp, Trunc(k.hospLos));
    }
    if k.icuLos >= 0.0 {
      CensusNonNegative(a.icu, Trunc(k.icuLos));
    }
    if k.ventLos >= 0.0 {
      CensusNonNegative(a.vent, Trunc(k.ventLos));
    }
  }

  /** The names of the value columns, the day column excluded. */
  const ValueColumns: seq<string> :=
    ["hosp_adm", "icu_adm", "vent_adm", "hosp_census", "icu_census", "vent_census"]

  /** The value column called `name`, as reals; the empty series for a
      name that is not a column. */
  function Column(p: ProjectionTable, name: string): seq<real> {
    if name == "hosp_adm" then p.hospAdm
    else if name == "icu_adm" then p.icuAdm
    else if name == "vent_adm" then p.ventAdm
    else if name == "hosp_census" then seq(|p.hospCensus|, t requires 0 <= t < |p.hospCensus| => p.hospCensus[t] as real)
    else if name == "icu_census" then seq(|p.icuCensus|, t requires 0 <= t < |p.icuCensus| => p.icuCensus[t] as real)
    else if name == "vent_census" then seq(|p.ventCensus|, t requires 0 <= t < |p.ventCensus| => p.ventCensus[t] as real)
    else []
  }

  lemma ColumnsInOrder(p: ProjectionTable)
    requires Aligned(p)
    ensures forall j :: 0 <= j < |ValueColumns| ==> |Column(p, ValueColumns[j])| == |p.day|
    ensures Column(p, ValueColumns[0]) == p.hospAdm
    ensures Column(p, ValueColumns[1]) == p.icuAdm
    ensures Column(p, ValueColumns[2]) == p.ventAdm
    ensures forall t :: 0 <= t < |p.day| ==> Column(p, ValueColumns[3])[t] == p.hospCensus[t] as real
    ensures forall t :: 0 <= t < |p.day| ==> Column(p, ValueColumns[4])[t] == p.icuCensus[t] as real
    ensures forall t :: 0 <= t < |p.day| ==> Column(p, ValueColumns[5])[t] == p.ventCensus[t] as real
  {
    assert ValueColumns[3] == "hosp_census" && ValueColumns[4] == "icu_census" && ValueColumns[5] == "vent_census";
  }

  /** The projection's values as a matrix, one row per day: entry `j` of a
      row is that day's value in the column named `ValueColumns[j]`. */
  function ValueMatrix(p: ProjectionTable): (m: seq<seq<real>>)
    requires Aligned(p)
    ensures |m| == |p.day|
    ensures forall t :: 0 <= t < |m| ==> |m[t]| == |ValueColumns|
    ensures forall t, j :: 0 <= t < |m| && 0 <= j < |ValueColumns| ==>
              |Column(p, ValueColumns[j])| == |m| && m[t][j] == Column(p, ValueColumns[j])[t]
  {
    ColumnsInOrder(p);
    seq(|p.day|, t requires 0 <= t < |p.day| =>
      [p.hospAdm[t], p.icuAdm[t], p.ventAdm[t],
       p.hospCensus[t] as real, p.icuCensus[t] as real, p.ventCensus[t] as real])
  }
}
