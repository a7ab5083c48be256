/** What the search loop guarantees: where the table index ends, that the
    interval count it reports is the rounded span, that the bounds stay on the
    grid of the final step and keep covering the data. */
module SearchFacts {
  import opened Numbers
  import opened Scale

  /** A grid point moved by one step is a grid point. */
  lemma GridShift(x: real, step: real)
    requires step > 0.0 && OnGrid(x, step)
    ensures OnGrid(x + step, step) && OnGrid(x - step, step)
  {
    OneMoreStep(x, step);
    RoundPlus(x / step, 1);
    OneMoreStep(x - step, step);
    RoundPlus(x / step, -1);
  }

  lemma DivDifference(hi: real, lo: real, step: real)
    requires step > 0.0
    ensures (hi - lo) / step == hi / step - lo / step
  {
    var a, c := hi / step, lo / step;
    DivUnique(hi, step, a);
    DivUnique(lo, step, c);
    assert (a - c) * step == hi - lo;
    DivUnique(hi - lo, step, a - c);
  }

  /** The span between two grid points is a whole number of steps. */
  lemma GridSpan(hi: real, lo: real, step: real)
    requires step > 0.0 && OnGrid(hi, step) && OnGrid(lo, step)
    ensures IsInt((hi - lo) / step)
  {
    DivDifference(hi, lo, step);
    RoundPlus(hi / step, -(lo / step).Floor);
  }

  lemma {:induction false} ExpandAligned(dataMax: real, dataMin: real, b: Bounds, step: real, n: nat)
    requires step > 0.0 && Aligned(b, step)
    ensures Aligned(Expand(dataMax, dataMin, b, step, n), step)
    decreases n
  {
    if n > 0 {
      GridShift(b.hi, step);
      GridShift(b.lo, step);
      var b' := if (b.lo - dataMin <= b.hi - dataMax && b.lo != 0.0) || b.hi == 0.0
        then Bounds(b.hi, b.lo - step) else Bounds(b.hi + step, b.lo);
      ExpandAligned(dataMax, dataMin, b', step, n - 1);
    }
  }

  /** The index only moves up, and it stops inside the table unless it started
      past the end; the reported count is never below the requested one, it
      differs from it only at either end of the table, and it is the rounded
      span over the final step. */
  lemma {:induction false} SearchEnds(p: Plan, index: nat, b: Bounds)
    requires p.Valid() && index <= |p.magics|
    ensures var o := Search(p, index, b);
      && index <= o.index <= |p.magics|
      && (o.index > index ==> o.index < |p.magics|)
      && o.count >= p.split
      && (o.count != p.split ==> o.index == 0 || o.index >= |p.magics| - 1)
      && o.count == Round((o.bounds.hi - o.bounds.lo) / p.StepAt(o.index))
    decreases |p.magics| - index
  {
    var step := p.StepAt(index);
    var count := Round((b.hi - b.lo) / step);
    if count < p.split {
      ExpandCount(p.dataMax, p.dataMin, b, step, p.split - count);
    } else if count == p.split || index >= |p.magics| - 1 || index == 0 {
    } else {
      SearchEnds(p, index + 1, CountDegree(p.dataMax, p.dataMin, p.StepAt(index + 1), p.symmetrical));
    }
  }

  /** Bounds on the grid of the current step end on the grid of the final one. */
  lemma {:induction false} SearchAligned(p: Plan, index: nat, b: Bounds)
    requires p.Valid() && index <= |p.magics|
    requires Aligned(b, p.StepAt(index))
    ensures var o := Search(p, index, b);
      Aligned(o.bounds, p.StepAt(o.index))
    decreases |p.magics| - index
  {
    var step := p.StepAt(index);
    var count := Round((b.hi - b.lo) / step);
    if count < p.split {
      ExpandAligned(p.dataMax, p.dataMin, b, step, p.split - count);
    } else if count == p.split || index >= |p.magics| - 1 || index == 0 {
    } else {
      SearchAligned(p, index + 1, CountDegree(p.dataMax, p.dataMin, p.StepAt(index + 1), p.symmetrical));
    }
  }

  /** Bounds that cover the maximum, and the minimum or zero, still do when
      the search ends. */
  lemma {:induction false} SearchCovers(p: Plan, index: nat, b: Bounds)
    requires p.Valid() && index <= |p.magics|
    requires b.hi >= p.dataMax && b.lo <= Max(p.dataMin, 0.0)
    ensures var o := Search(p, index, b);
      o.bounds.hi >= p.dataMax && o.bounds.lo <= Max(p.dataMin, 0.0)
    decreases |p.magics| - index
  {
    var step := p.StepAt(index);
    var count := Round((b.hi - b.lo) / step);
    if count < p.split {
      ExpandOutward(p.dataMax, p.dataMin, b, step, p.split - count);
    } else if count == p.split || index >= |p.magics| - 1 || index == 0 {
    } else {
      SearchCovers(p, index + 1, CountDegree(p.dataMax, p.dataMin, p.StepAt(index + 1), p.symmetrical));
    }
  }

  /** On the grid, the count is exact: the span is `count` steps. */
  lemma SearchExact(p: Plan, index: nat, b: Bounds)
    requires p.Valid() && index <= |p.magics|
    requires Aligned(b, p.StepAt(index))
    ensures var o := Search(p, index, b);
      (o.bounds.hi - o.bounds.lo) / p.StepAt(o.index) == o.count as real
  {
    SearchEnds(p, index, b);
    SearchAligned(p, index, b);
    var o := Search(p, index, b);
    var x := (o.bounds.hi - o.bounds.lo) / p.StepAt(o.index);
    GridSpan(o.bounds.hi, o.bounds.lo, p.StepAt(o.index));
    RoundPlus(0.0, x.Floor);
  }

  /** A zero end stays zero: the minimum when the data minimum is zero and
      the maximum is positive, the maximum when the data maximum is zero. */
  lemma {:induction false} SearchKeepsZero(p: Plan, index: nat, b: Bounds)
    requires p.Valid() && index <= |p.magics|
    ensures var o := Search(p, index, b);
      && (p.dataMin == 0.0 && b.lo == 0.0 && b.hi > 0.0 ==> o.bounds.lo == 0.0)
      && (p.dataMax == 0.0 && b.hi == 0.0 ==> o.bounds.hi == 0.0)
    decreases |p.magics| - index
  {
    var step := p.StepAt(index);
    var count := Round((b.hi - b.lo) / step);
    if count < p.split {
      ExpandOutward(p.dataMax, p.dataMin, b, step, p.split - count);
    } else if count == p.split || index >= |p.magics| - 1 || index == 0 {
    } else {
      SearchKeepsZero(p, index + 1, CountDegree(p.dataMax, p.dataMin, p.StepAt(index + 1), p.symmetrical));
    }
  }
}
