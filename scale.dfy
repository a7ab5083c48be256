/** The axis scale resolver of `generateAxisOption` (lib/utils.js) and
    `scaleCompute` (index.ts): one algorithm, with the table of magic
    interval multipliers as a parameter.

    `Resolved` is the specification, written with recursion; `Resolve` is the
    algorithm as the source runs it (reassigned locals, the scan loop, the
    labelled do-while with its expansion loop) and is proved equal to it. */
module Scale {
  import opened Numbers

  /** The scale options after defaults have been applied. */
  datatype Request = Request(
    dataMax: Num,
    dataMin: Num,
    splitNumber: Num,
    magics: seq<real>,
    symmetrical: bool,
    deviation: bool,
    preferZero: bool)

  /** `{ splitNumber }` when no bounds can be computed, otherwise all four keys. */
  datatype ScaleResult =
    | SplitOnly(splitNumber: Num)
    | Full(max: Num, min: real, interval: real, splitNumber: Num)

  /** The pair of locals `axisMax`, `axisMin` (or `dataMax`, `dataMin`). */
  datatype Bounds = Bounds(hi: real, lo: real)

  /** A usable magics table: nonempty, positive, strictly ascending. */
  predicate MagicsOk(m: seq<real>) {
    && |m| > 0
    && (forall i :: 0 <= i < |m| ==> m[i] > 0.0)
    && (forall i, j :: 0 <= i < j < |m| ==> m[i] < m[j])
  }

  /** A split count the source handles: anything it replaces by 4, or a positive integer. */
  predicate SplitOk(s: Num) {
    !NumberValid(s) || s.v <= 0.0 || IsInt(s.v)
  }

  predicate RequestOk(q: Request) {
    MagicsOk(q.magics) && SplitOk(q.splitNumber)
  }

  /** A bound is not a finite number, or the range is upside down. */
  predicate Uncomputable(q: Request) {
    !NumberValid(q.dataMax) || !NumberValid(q.dataMin) || q.dataMax.v < q.dataMin.v
  }

  predicate AllZero(q: Request)
    requires !Uncomputable(q)
  {
    q.dataMax.v == q.dataMin.v && q.dataMax.v == 0.0
  }

  /** The general path: neither early return is taken. */
  predicate Computable(q: Request) {
    !Uncomputable(q) && !AllZero(q)
  }

  /** `preferZero` as the resolver uses it: set by the caller or forced by a
      range of one nonzero value. */
  predicate PrefersZero(q: Request)
    requires !Uncomputable(q)
  {
    q.preferZero || q.dataMax.v == q.dataMin.v
  }

  /** `a * n` for a JavaScript number `n`: NaN and the infinities stay non-finite. */
  function Times(a: real, n: Num): Num {
    if NumberValid(n) then Finite(a * n.v) else NonFinite
  }

  function Abs(x: real): real {
    if x < 0.0 then -x else x
  }

  function Max(a: real, b: real): real {
    if a < b then b else a
  }

  /** The split count after `if (!numberValid(s) || s <= 0) s = 4`. */
  function Normalize(s: Num): (n: int)
    requires SplitOk(s)
    ensures n >= 1
    ensures NumberValid(s) && s.v > 0.0 ==> n as real == s.v
    ensures !(NumberValid(s) && s.v > 0.0) ==> n == 4
  {
    if !NumberValid(s) || s.v <= 0.0 then 4 else s.v.Floor
  }

  /** The `preferZero` step: when both bounds have one sign, the bound nearer
      zero becomes zero. */
  function ClampToZero(dataMax: real, dataMin: real, preferZero: bool): (b: Bounds)
    ensures b.hi >= dataMax && b.lo <= dataMin
    ensures (b.hi == dataMax || b.hi == 0.0) && (b.lo == dataMin || b.lo == 0.0)
    ensures !preferZero ==> b == Bounds(dataMax, dataMin)
    ensures preferZero && dataMin <= dataMax ==> b.lo <= 0.0 <= b.hi
    ensures dataMin < dataMax || (preferZero && dataMin == dataMax != 0.0) ==> b.lo < b.hi
  {
    if preferZero && dataMax * dataMin > 0.0 then
      if dataMax < 0.0 then Bounds(0.0, dataMin) else Bounds(dataMax, 0.0)
    else
      Bounds(dataMax, dataMin)
  }

  /** The scan: the index of the first entry above `t`, or `|m|` when there is none. */
  function FirstAbove(m: seq<real>, t: real): (i: nat)
    ensures i <= |m|
    ensures forall j :: 0 <= j < i ==> m[j] <= t
    ensures i < |m| ==> m[i] > t
  {
    if m == [] then 0
    else if m[0] > t then 0
    else 1 + FirstAbove(m[1..], t)
  }

  lemma {:induction false} FirstAboveUnique(m: seq<real>, t: real, i: nat)
    requires i <= |m|
    requires forall j :: 0 <= j < i ==> m[j] <= t
    requires i < |m| ==> m[i] > t
    ensures i == FirstAbove(m, t)
  {
    if m != [] && m[0] <= t {
      assert i != 0;
      forall j | 0 <= j < i - 1
        ensures m[1..][j] <= t
      {
        assert m[1..][j] == m[j + 1];
      }
      FirstAboveUnique(m[1..], t, i - 1);
    }
  }

  /** `magics[i] * multiple`, with the scan's fallback to `magics[0]` when
      nothing was found (`i == |m|`). */
  function MagicStep(m: seq<real>, multiple: real, i: nat): (s: real)
    requires MagicsOk(m) && multiple > 0.0
    ensures s > 0.0
  {
    (if i < |m| then m[i] else m[0]) * multiple
  }

  lemma StepOfEntry(magics: seq<real>, multiple: real, i: nat, entry: real)
    requires MagicsOk(magics) && multiple > 0.0 && i < |magics| && entry == magics[i]
    ensures MagicStep(magics, multiple, i) == entry * multiple
  {
  }

  predicate OnGrid(x: real, step: real)
    requires step > 0.0
  {
    IsInt(x / step)
  }

  predicate Aligned(b: Bounds, step: real)
    requires step > 0.0
  {
    OnGrid(b.hi, step) && OnGrid(b.lo, step)
  }

  /** The quotient is the one number that gives back the dividend. */
  lemma DivUnique(x: real, s: real, q: real)
    requires s > 0.0 && q * s == x
    ensures x / s == q
  {
  }

  lemma GridPoint(k: int, x: real, step: real)
    requires step > 0.0 && x == k as real * step
    ensures OnGrid(x, step)
  {
    assert x / step == k as real;
  }

  lemma GridNegate(x: real, step: real)
    requires step > 0.0 && OnGrid(x, step)
    ensures OnGrid(-x, step)
  {
    var k := (x / step).Floor;
    assert x / step * step == x;
    GridPoint(-k, -x, step);
  }

  lemma DivTimes(d: real, s: real)
    requires s > 0.0
    ensures d / s * s == d
    ensures 0.0 < d ==> 0.0 < d / s
    ensures d < 0.0 ==> d / s < 0.0
    ensures d == 0.0 ==> d / s == 0.0
  {
  }

  /** Multiplying by a positive factor keeps a strict order; the products are
      passed in as `xs` and `bs` so the solver sees them as plain terms. */
  lemma MulLess(a: real, b: real, s: real, xs: real, bs: real)
    requires s > 0.0 && a < b && xs == a * s && bs == b * s
    ensures xs < bs
  {
    assert (b - a) * s > 0.0;
  }
  lemma MulAtMost(a: real, b: real, s: real, xs: real, bs: real)
    requires s > 0.0 && a <= b && xs == a * s && bs == b * s
    ensures xs <= bs
  {
    assert (b - a) * s >= 0.0;
  }
  /** The sign of a product, from the signs of its factors. */
  lemma ProductSign(a: real, b: real, p: real)
    requires p == a * b
    ensures p < 0.0 <==> (a < 0.0 < b || b < 0.0 < a)
    ensures p > 0.0 <==> ((a < 0.0 && b < 0.0) || (0.0 < a && 0.0 < b))
  {
    if b > 0.0 {
      if a < 0.0 { MulLess(a, 0.0, b, p, 0.0); }
      if a > 0.0 { MulLess(0.0, a, b, 0.0, p); }
    } else if b < 0.0 {
      if a < 0.0 { MulLess(0.0, -a, -b, 0.0, p); }
      if a > 0.0 { MulLess(-a, 0.0, -b, p, 0.0); }
    }
  }

  lemma ScaleAbove(x: real, k: real, s: real, d: real, ks: real)
    requires s > 0.0 && d == x * s && ks == k * s && k - 1.0 <= x < k
    ensures ks - s <= d < ks
  {
    assert (k - 1.0) * s == ks - s;
    MulAtMost(k - 1.0, x, s, ks - s, d);
    MulLess(x, k, s, d, ks);
  }

  lemma ScaleAboveNegative(x: real, k: real, s: real, d: real, ks: real)
    requires s > 0.0 && d == x * s && ks == k * s && k <= 0.0 && k - 2.0 < x < k
    ensures d < ks <= 0.0 && ks < d + 2.0 * s
    ensures x + 1.0 <= k ==> d + s <= ks
  {
    MulLess(x, k, s, d, ks);
    if x + 1.0 <= k {
      assert (x + 1.0) * s == d + s;
      MulAtMost(x + 1.0, k, s, d + s, ks);
    }
    MulAtMost(k, 0.0, s, ks, 0.0);
    assert (k - 2.0) * s == ks - 2.0 * s;
    MulLess(k - 2.0, x, s, ks - 2.0 * s, d);
  }

  lemma ScaleWithin(y: real, k: real, s: real, d: real, ks: real)
    requires s > 0.0 && d == y * s && ks == k * s && k <= y < k + 1.0
    ensures ks <= d < ks + s
  {
    MulAtMost(k, y, s, ks, d);
    assert (k + 1.0) * s == ks + s;
    MulLess(y, k + 1.0, s, d, ks + s);
  }

  lemma ScaleWithinNegative(y: real, k: real, s: real, d: real, ks: real)
    requires s > 0.0 && d == y * s && ks == k * s && k - 1.0 < y <= k
    ensures ks - s < d <= ks
  {
    assert (k - 1.0) * s == ks - s;
    MulLess(k - 1.0, y, s, ks - s, d);
    MulAtMost(y, k, s, d, ks);
  }

  /** `parseInt('' + (d / step + 1)) * step`: for positive `d` the first grid
      point above it; for negative `d` a grid point above it but no higher than
      zero, one or two steps up because truncation rounds toward zero: zero
      itself, or at least one full step above `d`. */
  lemma TruncUp(d: real, step: real)
    requires step > 0.0
    ensures var hi := Trunc(d / step + 1.0) as real * step;
      && OnGrid(hi, step)
      && (0.0 < d ==> hi - step <= d < hi)
      && (d < 0.0 ==> d < hi <= 0.0 && hi < d + 2.0 * step)
      && (d < 0.0 ==> hi == 0.0 || d + step <= hi)
  {
    var x := d / step;
    var k := Trunc(x + 1.0);
    var hi := k as real * step;
    GridPoint(k, hi, step);
    DivTimes(d, step);
    if 0.0 < d {
      ScaleAbove(x, k as real, step, d, hi);
      assert hi - step <= d < hi;
    } else if d < 0.0 {
      ScaleAboveNegative(x, k as real, step, d, hi);
      assert d < hi <= 0.0 && hi < d + 2.0 * step;
      assert hi == 0.0 || d + step <= hi;
    }
    assert hi == Trunc(d / step + 1.0) as real * step;
  }

  /** `parseInt('' + d / step) * step`: the grid point between `d` and zero
      that is nearest to `d`. */
  lemma TruncIn(d: real, step: real)
    requires step > 0.0
    ensures var lo := Trunc(d / step) as real * step;
      && OnGrid(lo, step)
      && (0.0 <= d ==> lo <= d < lo + step)
      && (d <= 0.0 ==> lo - step < d <= lo)
  {
    var y := d / step;
    var k := Trunc(y);
    var lo := k as real * step;
    GridPoint(k, lo, step);
    DivTimes(d, step);
    if 0.0 <= d {
      ScaleWithin(y, k as real, step, d, lo);
      assert lo <= d < lo + step;
    }
    if d <= 0.0 {
      ScaleWithinNegative(y, k as real, step, d, lo);
      assert lo - step < d <= lo;
    }
    assert lo == Trunc(d / step) as real * step;
  }

  /** `countDegree` before the symmetry correction: both bounds are rounded
      to the step with truncation toward zero, and a zero bound stays zero. */
  function RawDegree(dataMax: real, dataMin: real, step: real): (b: Bounds)
    requires step > 0.0
    ensures Aligned(b, step)
    ensures dataMax == 0.0 ==> b.hi == 0.0
    ensures dataMin == 0.0 ==> b.lo == 0.0
    ensures 0.0 < dataMax ==> b.hi - step <= dataMax < b.hi
    ensures dataMax < 0.0 ==> dataMax < b.hi <= 0.0 && b.hi < dataMax + 2.0 * step
    ensures dataMax < 0.0 ==> b.hi == 0.0 || dataMax + step <= b.hi
    ensures 0.0 <= dataMin ==> b.lo <= dataMin < b.lo + step
    ensures dataMin <= 0.0 ==> b.lo - step < dataMin <= b.lo
  {
    TruncUp(dataMax, step);
    TruncIn(dataMin, step);
    GridPoint(0, 0.0, step);
    Bounds(if dataMax == 0.0 then 0.0 else Trunc(dataMax / step + 1.0) as real * step,
           if dataMin == 0.0 then 0.0 else Trunc(dataMin / step) as real * step)
  }

  /** `countDegree(step)`: the rounded bounds, made ±equal when `symmetrical`
      is set and they straddle zero. */
  function CountDegree(dataMax: real, dataMin: real, step: real, symmetrical: bool): (b: Bounds)
    requires step > 0.0
    ensures Aligned(b, step)
    ensures dataMax == 0.0 ==> b.hi == 0.0
    ensures dataMin == 0.0 ==> b.lo == 0.0
    ensures dataMax <= b.hi && (dataMax != 0.0 ==> dataMax < b.hi)
    ensures 0.0 <= dataMin ==> b.lo <= dataMin
    ensures dataMin <= 0.0 ==> b.lo <= 0.0
    ensures symmetrical && b.lo < 0.0 < b.hi ==> b.lo == -b.hi
  {
    var raw := RawDegree(dataMax, dataMin, step);
    var sign := raw.hi * raw.lo;
    ProductSign(raw.hi, raw.lo, sign);
    if symmetrical && sign < 0.0 then
      var tm := Max(Abs(raw.hi), Abs(raw.lo));
      GridNegate(raw.hi, step);
      GridNegate(raw.lo, step);
      assert OnGrid(tm, step);
      GridNegate(tm, step);
      Bounds(tm, -tm)
    else
      raw
  }

  /** The symmetry correction only widens the rounded bounds, and without
      `symmetrical` or without a negative product of the rounded bounds there
      is none; otherwise the bounds become the larger magnitude and its
      negation. */
  lemma CountDegreeWidens(dataMax: real, dataMin: real, step: real, symmetrical: bool)
    requires step > 0.0
    ensures var raw, b := RawDegree(dataMax, dataMin, step), CountDegree(dataMax, dataMin, step, symmetrical);
      && b.hi >= raw.hi && b.lo <= raw.lo
      && (!symmetrical ==> b == raw)
      && (raw.hi * raw.lo >= 0.0 ==> b == raw)
      && (symmetrical && raw.lo < 0.0 < raw.hi ==>
            b.hi == Max(Abs(raw.hi), Abs(raw.lo)) && b.lo == -b.hi)
  {
    var raw := RawDegree(dataMax, dataMin, step);
    ProductSign(raw.hi, raw.lo, raw.hi * raw.lo);
  }

  /** The inner `while` of the search: `n` times, widen by one step the bound
      nearer its data value (the minimum unless it is zero or the maximum is). */
  function Expand(dataMax: real, dataMin: real, b: Bounds, step: real, n: nat): Bounds
    decreases n
  {
    if n == 0 then b
    else if (b.lo - dataMin <= b.hi - dataMax && b.lo != 0.0) || b.hi == 0.0 then
      Expand(dataMax, dataMin, Bounds(b.hi, b.lo - step), step, n - 1)
    else
      Expand(dataMax, dataMin, Bounds(b.hi + step, b.lo), step, n - 1)
  }

  lemma OneMoreStep(span: real, step: real)
    requires step > 0.0
    ensures (span + step) / step == span / step + 1.0
  {
    var a := span / step;
    DivUnique(span, step, a);
    assert (a + 1.0) * step == span + step;
    DivUnique(span + step, step, a + 1.0);
  }

  /** Expansion adds exactly `n` steps to the span. */
  lemma {:induction false} ExpandSpan(dataMax: real, dataMin: real, b: Bounds, step: real, n: nat)
    requires step > 0.0
    ensures var r := Expand(dataMax, dataMin, b, step, n);
      (r.hi - r.lo) / step == (b.hi - b.lo) / step + n as real
    decreases n
  {
    if n > 0 {
      var b' := if (b.lo - dataMin <= b.hi - dataMax && b.lo != 0.0) || b.hi == 0.0
        then Bounds(b.hi, b.lo - step) else Bounds(b.hi + step, b.lo);
      assert b'.hi - b'.lo == (b.hi - b.lo) + step;
      OneMoreStep(b.hi - b.lo, step);
      ExpandSpan(dataMax, dataMin, b', step, n - 1);
    }
  }

  /** The interval count after expansion is the count before plus `n`, and a
      whole count stays whole. */
  lemma ExpandCount(dataMax: real, dataMin: real, b: Bounds, step: real, n: nat)
    requires step > 0.0
    ensures var r := Expand(dataMax, dataMin, b, step, n);
      && Round((r.hi - r.lo) / step) == Round((b.hi - b.lo) / step) + n
      && (IsInt((b.hi - b.lo) / step) ==> IsInt((r.hi - r.lo) / step))
  {
    ExpandSpan(dataMax, dataMin, b, step, n);
    RoundPlus((b.hi - b.lo) / step, n);
  }

  /** Expansion never moves a bound inward; a zero maximum stays zero, and so
      does a zero minimum under a positive maximum. */
  lemma {:induction false} ExpandOutward(dataMax: real, dataMin: real, b: Bounds, step: real, n: nat)
    requires step > 0.0
    ensures var r := Expand(dataMax, dataMin, b, step, n);
      && r.hi >= b.hi && r.lo <= b.lo
      && (b.hi == 0.0 ==> r.hi == 0.0)
      && (b.lo == 0.0 && b.hi > 0.0 ==> r.lo == 0.0)
    decreases n
  {
    if n > 0 {
      var b' := if (b.lo - dataMin <= b.hi - dataMax && b.lo != 0.0) || b.hi == 0.0
        then Bounds(b.hi, b.lo - step) else Bounds(b.hi + step, b.lo);
      ExpandOutward(dataMax, dataMin, b', step, n - 1);
    }
  }

  /** The state of the resolver just before the deviation test: the clamped
      data range, the normalised split count, the table, the power of ten
      `multiple`, the flag, the starting table index and the starting bounds. */
  datatype Plan = Plan(
    dataMax: real,
    dataMin: real,
    split: int,
    magics: seq<real>,
    multiple: real,
    symmetrical: bool,
    index: nat,
    bounds: Bounds)
  {
    predicate Valid() {
      && MagicsOk(magics)
      && split >= 1
      && multiple > 0.0
      && index <= |magics|
      && dataMin < dataMax
    }

    function StepAt(i: nat): (s: real)
      requires Valid()
      ensures s > 0.0
    {
      MagicStep(magics, multiple, i)
    }
  }

  /** The variables of the search loop when it stops. */
  datatype Outcome = Outcome(bounds: Bounds, index: nat, count: int)

  /** The labelled do-while of the resolver, one pass per call: too few
      intervals are made up by expansion, which ends the search; too many
      move to the next table entry and round the bounds again, unless the
      index is at either end of the table. */
  function Search(p: Plan, index: nat, b: Bounds): Outcome
    requires p.Valid() && index <= |p.magics|
    decreases |p.magics| - index
  {
    var step := p.StepAt(index);
    var count := Round((b.hi - b.lo) / step);
    if count < p.split then
      Outcome(Expand(p.dataMax, p.dataMin, b, step, p.split - count), index, p.split)
    else if count == p.split || index >= |p.magics| - 1 || index == 0 then
      Outcome(b, index, count)
    else
      Search(p, index + 1, CountDegree(p.dataMax, p.dataMin, p.StepAt(index + 1), p.symmetrical))
  }

  /** Everything the resolver computes before the deviation test. */
  function PlanOf(q: Request): (p: Plan)
    requires RequestOk(q) && Computable(q)
    ensures p.Valid()
  {
    var c := ClampToZero(q.dataMax.v, q.dataMin.v, PrefersZero(q));
    StartPlan(c.hi, c.lo, Normalize(q.splitNumber), q.magics, q.symmetrical)
  }

  /** The power of ten one decade below the gap per interval, and the index
      of the first table entry above the gap measured in that power. */
  datatype Scanned = Scanned(multiple: real, index: nat)

  function ScanOf(tempGap: real, magics: seq<real>): (s: Scanned)
    requires tempGap > 0.0 && MagicsOk(magics)
    ensures s.multiple > 0.0 && s.index <= |magics|
  {
    var multiple := Decade(tempGap);
    Scanned(multiple, FirstAbove(magics, tempGap / multiple))
  }

  /** From the clamped range on: the gap per interval, its power of ten, the
      first table entry above the scaled gap and the bounds rounded to that
      entry's step (only when the maximum exceeds one). */
  function StartPlan(dataMax: real, dataMin: real, split: int, magics: seq<real>, symmetrical: bool): (p: Plan)
    requires MagicsOk(magics) && split >= 1 && dataMin < dataMax
    ensures p.Valid()
  {
    var s := ScanOf((dataMax - dataMin) / split as real, magics);
    var step := MagicStep(magics, s.multiple, s.index);
    var bounds := if dataMax > 1.0 then CountDegree(dataMax, dataMin, step, symmetrical) else Bounds(dataMax, dataMin);
    Plan(dataMax, dataMin, split, magics, s.multiple, symmetrical, s.index, bounds)
  }

  /** The search is entered unless `symmetrical` is set and the bounds do not
      lie on one side of zero. */
  predicate Searches(p: Plan) {
    !p.symmetrical || p.bounds.hi * p.bounds.lo > 0.0
  }

  /** The bounds the resolver holds after the search (or without it). */
  function FinalBounds(p: Plan): Bounds
    requires p.Valid()
  {
    if Searches(p) then Search(p, p.index, p.bounds).bounds else p.bounds
  }

  /** The specification of `generateAxisOption` once defaults are applied. */
  function Resolved(q: Request): ScaleResult
    requires RequestOk(q)
  {
    if Uncomputable(q) then
      SplitOnly(q.splitNumber)
    else if AllZero(q) then
      Full(Times(q.magics[0], q.splitNumber), q.dataMin.v, q.magics[0], q.splitNumber)
    else
      Finished(PlanOf(q), q.deviation)
  }

  /** The result from the deviation test on: the starting bounds and step as
      they are, or the searched bounds split into `split` intervals. */
  function Finished(p: Plan, deviation: bool): ScaleResult
    requires p.Valid()
  {
    var step := p.StepAt(p.index);
    if deviation then
      Full(Finite(p.bounds.hi), p.bounds.lo, step,
            Finite(Round((p.bounds.hi - p.bounds.lo) / step) as real))
    else
      var b := FinalBounds(p);
      Full(Finite(if p.dataMax > 1.0 then b.hi else p.dataMax),
            if p.dataMin > 1.0 then b.lo else 0.0,
            (b.hi - b.lo) / p.split as real,
            Finite(if p.dataMax > 1.0 then p.split as real else 1.0))
  }


  /** The `for` loop that picks the starting table entry. */
  method ScanMagics(magics: seq<real>, tempStep: real, multiple: real) returns (index: nat, expectedStep: real)
    requires MagicsOk(magics) && multiple > 0.0
    ensures index == FirstAbove(magics, tempStep)
    ensures expectedStep == MagicStep(magics, multiple, index)
  {
    expectedStep := magics[0] * multiple;
    index := 0;
    while index < |magics|
      invariant index <= |magics|
      invariant forall j :: 0 <= j < index ==> magics[j] <= tempStep
      invariant expectedStep == magics[0] * multiple
    {
      if magics[index] > tempStep {
        expectedStep := magics[index] * multiple;
        break;
      }
      index := index + 1;
    }
    FirstAboveUnique(magics, tempStep, index);
  }

  /** The labelled do-while `out:` and its expansion loop, started from the
      plan's index and bounds. */
  method SearchSplit(p: Plan) returns (o: Outcome)
    requires p.Valid()
    ensures o == Search(p, p.index, p.bounds)
  {
    var magics, multiple, splitNumber := p.magics, p.multiple, p.split;
    var index: int := p.index;
    var storedMagicsIndex := -1;
    var expectedStep := p.StepAt(p.index);
    var axisMax, axisMin := p.bounds.hi, p.bounds.lo;
    var tempSplitNumber := 0;
    ghost var goal := Search(p, p.index, p.bounds);
    label out:
    while true
      invariant storedMagicsIndex < index <= |magics|
      invariant expectedStep == p.StepAt(index)
      invariant Search(p, index, Bounds(axisMax, axisMin)) == goal
      decreases |magics| - index
    {
      tempSplitNumber := Round((axisMax - axisMin) / expectedStep);
      var direction := (index - storedMagicsIndex) * (tempSplitNumber - splitNumber);
      NegativeWithPositive(index - storedMagicsIndex, tempSplitNumber - splitNumber, direction);
      if direction < 0 {
        while tempSplitNumber < splitNumber
          invariant tempSplitNumber <= splitNumber
          invariant goal == Outcome(Expand(p.dataMax, p.dataMin, Bounds(axisMax, axisMin), expectedStep,
                                           splitNumber - tempSplitNumber), index, splitNumber)
          decreases splitNumber - tempSplitNumber
        {
          if (axisMin - p.dataMin <= axisMax - p.dataMax && axisMin != 0.0) || axisMax == 0.0 {
            axisMin := axisMin - expectedStep;
          } else {
            axisMax := axisMax + expectedStep;
          }
          tempSplitNumber := tempSplitNumber + 1;
          if tempSplitNumber == splitNumber {
            break out;
          }
        }
      }
      assert tempSplitNumber >= splitNumber;
      if index >= |magics| - 1 || index <= 0 || tempSplitNumber == splitNumber {
        break;
      }
      storedMagicsIndex := index;
      if tempSplitNumber > splitNumber {
        index := index + 1;
        var entry := magics[index];
        expectedStep := entry * multiple;
        StepOfEntry(magics, multiple, index, entry);
      } else {
        // `--index`: unreachable, since the index only ever moves up
        assert false;
      }
      var b := CountDegree(p.dataMax, p.dataMin, expectedStep, p.symmetrical);
      axisMax, axisMin := b.hi, b.lo;
      // the do-while test `tempSplitNumber !== splitNumber` holds here: equality broke out above
    }
    o := Outcome(Bounds(axisMax, axisMin), index, tempSplitNumber);
  }

  /** The `preferZero` step of the resolver, on its two locals. */
  method PreferZero(dataMax: real, dataMin: real, preferZero: bool) returns (hi: real, lo: real)
    ensures Bounds(hi, lo) == ClampToZero(dataMax, dataMin, preferZero)
  {
    hi, lo := dataMax, dataMin;
    ProductSign(hi, lo, hi * lo);
    if preferZero && hi * lo > 0.0 {
      if hi < 0.0 {
        hi := 0.0;
      } else {
        lo := 0.0;
      }
    }
  }

  /** The resolver from the `preferZero` override up to the first
      `countDegree`: everything the source computes before the deviation test. */
  method Prepare(q: Request) returns (p: Plan, expectedStep: real)
    requires RequestOk(q) && Computable(q)
    ensures p == PlanOf(q)
    ensures expectedStep == p.StepAt(p.index)
  {
    var splitNumber, preferZero := q.splitNumber, q.preferZero;
    if q.dataMax.v == q.dataMin.v {
      preferZero := true;
    }
    if !NumberValid(splitNumber) || splitNumber.v <= 0.0 {
      splitNumber := Finite(4.0);
    }
    var split := splitNumber.v.Floor;
    assert split == Normalize(q.splitNumber);
    var dataMax, dataMin := PreferZero(q.dataMax.v, q.dataMin.v, preferZero);
    p, expectedStep := Start(dataMax, dataMin, split, q.magics, q.symmetrical);
  }

  /** The resolver from `tempGap` up to the first `countDegree`. */
  method Start(dataMax: real, dataMin: real, split: int, magics: seq<real>, symmetrical: bool)
    returns (p: Plan, expectedStep: real)
    requires MagicsOk(magics) && split >= 1 && dataMin < dataMax
    ensures p == StartPlan(dataMax, dataMin, split, magics, symmetrical)
    ensures expectedStep == p.StepAt(p.index)
  {
    var tempGap := (dataMax - dataMin) / split as real;
    var multiple := Decade(tempGap);
    var tempStep := tempGap / multiple;
    var index;
    index, expectedStep := ScanMagics(magics, tempStep, multiple);
    var axisMax, axisMin := dataMax, dataMin;
    if dataMax > 1.0 {
      var b := CountDegree(dataMax, dataMin, expectedStep, symmetrical);
      axisMax, axisMin := b.hi, b.lo;
    }
    p := Plan(dataMax, dataMin, split, magics, multiple, symmetrical, index, Bounds(axisMax, axisMin));
  }

  /** The resolver from the deviation test to the returned object. */
  method Finish(p: Plan, expectedStep: real, deviation: bool) returns (r: ScaleResult)
    requires p.Valid() && expectedStep == p.StepAt(p.index)
    ensures r == Finished(p, deviation)
  {
    var axisMax, axisMin := p.bounds.hi, p.bounds.lo;
    if deviation {
      return Full(Finite(axisMax), axisMin, expectedStep,
                   Finite(Round((axisMax - axisMin) / expectedStep) as real));
    }
    ProductSign(axisMax, axisMin, axisMax * axisMin);
    if !p.symmetrical || axisMax * axisMin > 0.0 {
      var o := SearchSplit(p);
      axisMax, axisMin := o.bounds.hi, o.bounds.lo;
    }
    var interval := (axisMax - axisMin) / p.split as real;
    r := Full(Finite(if p.dataMax > 1.0 then axisMax else p.dataMax),
               if p.dataMin > 1.0 then axisMin else 0.0,
               interval,
               Finite(if p.dataMax > 1.0 then p.split as real else 1.0));
  }

  /** The resolver as the source runs it, once defaults are applied. */
  method Resolve(q: Request) returns (r: ScaleResult)
    requires RequestOk(q)
    ensures r == Resolved(q)
  {
    var magics, splitNumber := q.magics, q.splitNumber;
    if !NumberValid(q.dataMax) || !NumberValid(q.dataMin) || q.dataMax.v < q.dataMin.v {
      return SplitOnly(splitNumber);
    } else if q.dataMax.v == q.dataMin.v && q.dataMax.v == 0.0 {
      return Full(Times(magics[0], splitNumber), q.dataMin.v, magics[0], splitNumber);
    }
    var p, expectedStep := Prepare(q);
    r := Finish(p, expectedStep, q.deviation);
  }
}
