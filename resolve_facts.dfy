/** What the resolver promises about its result: which shape it has, that
    the axis covers the data, how its ends are ordered, that the interval is
    a table entry times a power of ten, and how zero and symmetry are kept. */
module ResolveFacts {
  import opened Numbers
  import opened Scale
  import opened SearchFacts

  /** The starting bounds: they cover the maximum and the minimum (or zero),
      lie on the grid of the starting step when they were rounded, keep a zero
      minimum, and are ±equal when symmetry applies and they straddle zero. */
  lemma StartBounds(dataMax: real, dataMin: real, split: int, magics: seq<real>, symmetrical: bool)
    requires MagicsOk(magics) && split >= 1 && dataMin < dataMax
    ensures var p := StartPlan(dataMax, dataMin, split, magics, symmetrical);
      && p.dataMax == dataMax && p.dataMin == dataMin && p.split == split
      && p.magics == magics && p.symmetrical == symmetrical
      && p.bounds.hi >= dataMax && p.bounds.lo <= Max(dataMin, 0.0)
      && p.bounds.lo < p.bounds.hi
      && (dataMax > 1.0 ==> Aligned(p.bounds, p.StepAt(p.index)))
      && (dataMax <= 1.0 ==> p.bounds == Bounds(dataMax, dataMin))
      && (dataMax > 1.0 && dataMin == 0.0 ==> p.bounds.lo == 0.0)
      && (dataMax > 1.0 && symmetrical && p.bounds.lo < 0.0 < p.bounds.hi ==> p.bounds.lo == -p.bounds.hi)
  {
  }

  /** The plan keeps the caller's table, flag and normalised split count, and
      works on the clamped range. */
  lemma PlanFacts(q: Request)
    requires RequestOk(q) && Computable(q)
    ensures var p, c := PlanOf(q), ClampToZero(q.dataMax.v, q.dataMin.v, PrefersZero(q));
      && p.dataMax == c.hi && p.dataMin == c.lo
      && p.split == Normalize(q.splitNumber)
      && p.magics == q.magics && p.symmetrical == q.symmetrical
      && p.bounds.hi >= p.dataMax && p.bounds.lo <= Max(p.dataMin, 0.0)
      && p.bounds.lo < p.bounds.hi
      && (p.dataMax > 1.0 ==> Aligned(p.bounds, p.StepAt(p.index)))
      && (p.dataMax <= 1.0 ==> p.bounds == c)
      && (p.dataMax > 1.0 && p.dataMin == 0.0 ==> p.bounds.lo == 0.0)
      && (p.dataMax > 1.0 && q.symmetrical && p.bounds.lo < 0.0 < p.bounds.hi ==> p.bounds.lo == -p.bounds.hi)
  {
    var c := ClampToZero(q.dataMax.v, q.dataMin.v, PrefersZero(q));
    StartBounds(c.hi, c.lo, Normalize(q.splitNumber), q.magics, q.symmetrical);
  }

  /** The result has all four keys exactly when the bounds are finite and in
      order; otherwise it is the caller's split count, untouched. */
  lemma ResultShape(q: Request)
    requires RequestOk(q)
    ensures Resolved(q).SplitOnly? <==> Uncomputable(q)
    ensures Resolved(q).SplitOnly? ==> Resolved(q).splitNumber == q.splitNumber
  {
  }

  /** Zero data: the minimum is zero, the interval is the first table entry
      and the maximum is that entry times the split count, which is passed
      through without the replacement by 4. */
  lemma AllZeroResult(q: Request)
    requires RequestOk(q) && !Uncomputable(q) && AllZero(q)
    ensures var r := Resolved(q);
      && r.Full? && r.min == 0.0 && r.interval == q.magics[0]
      && r.splitNumber == q.splitNumber
      && (NumberValid(q.splitNumber) ==> r.max == Finite(r.interval * q.splitNumber.v))
      && (!NumberValid(q.splitNumber) ==> !NumberValid(r.max))
  {
  }

  /** The axis covers the data: the maximum is at least the data maximum, and
      a non-negative data minimum is not below the axis minimum. */
  lemma CoversData(q: Request)
    requires RequestOk(q) && Computable(q)
    ensures var r := Resolved(q);
      && r.Full? && NumberValid(r.max)
      && r.max.v >= q.dataMax.v
      && (0.0 <= q.dataMin.v ==> r.min <= q.dataMin.v)
  {
    var p := PlanOf(q);
    PlanFacts(q);
    if Searches(p) {
      SearchCovers(p, p.index, p.bounds);
    }
  }

  /** Both ends are never reversed when deviation is set or the maximum
      exceeds one; otherwise the maximum is at least the minimum exactly when
      zero is preferred or the maximum is not negative. */
  lemma Ordering(q: Request)
    requires RequestOk(q) && Computable(q)
    ensures var r := Resolved(q);
      && r.Full? && NumberValid(r.max)
      && (q.deviation || q.dataMax.v > 1.0 ==> r.max.v > r.min)
      && (r.max.v >= r.min <==> q.deviation || PrefersZero(q) || q.dataMax.v >= 0.0)
  {
    var p := PlanOf(q);
    PlanFacts(q);
    if Searches(p) {
      SearchCovers(p, p.index, p.bounds);
    }
  }

  /** The search stops only once the span holds at least one step (its
      rounded count reaches the split count, which is at least one), so
      ordered bounds stay ordered through it. */
  lemma FinalOrdered(p: Plan)
    requires p.Valid() && p.bounds.lo < p.bounds.hi
    ensures FinalBounds(p).lo < FinalBounds(p).hi
  {
    if Searches(p) {
      SearchEnds(p, p.index, p.bounds);
      var o := Search(p, p.index, p.bounds);
      DivTimes(o.bounds.hi - o.bounds.lo, p.StepAt(o.index));
    }
  }

  /** Whenever bounds are returned the interval is positive: the first table
      entry for zero data, the step itself with deviation, and otherwise the
      ordered final span split into a positive number of parts. */
  lemma IntervalPositive(q: Request)
    requires RequestOk(q)
    ensures Resolved(q).Full? ==> Resolved(q).interval > 0.0
  {
    if !Uncomputable(q) && !AllZero(q) {
      var p := PlanOf(q);
      PlanFacts(q);
      FinalOrdered(p);
      var b := FinalBounds(p);
      DivTimes(b.hi - b.lo, p.split as real);
    }
  }

  /** Without deviation the minimum is 0 whenever the data minimum is at
      most 1, negative data included; when the clamped maximum is at most 1
      it is returned as the maximum and the split count is reported as one. */
  lemma SmallRange(q: Request)
    requires RequestOk(q) && Computable(q) && !q.deviation
    ensures var p, r := PlanOf(q), Resolved(q);
      && r.Full?
      && (q.dataMin.v <= 1.0 ==> r.min == 0.0)
      && (p.dataMax <= 1.0 ==>
            r.max == Finite(p.dataMax) && r.splitNumber == Finite(1.0))
  {
    PlanFacts(q);
  }

  /** Dividing a span by a whole count of steps gives the step back. */
  lemma SwapDivisor(span: real, step: real, n: real)
    requires step > 0.0 && n > 0.0 && span / step == n
    ensures span / n == step
  {
    DivTimes(span, step);
    DivUnique(span, n, step);
  }

  /** A rounded count of steps over a span on the grid is the exact count. */
  lemma GridCount(hi: real, lo: real, step: real)
    requires step > 0.0 && Aligned(Bounds(hi, lo), step)
    ensures Round((hi - lo) / step) as real == (hi - lo) / step
  {
    GridSpan(hi, lo, step);
    RoundOfInt(((hi - lo) / step).Floor);
  }

  /** `IntervalIsStep` for any plan whose starting bounds were rounded. */
  lemma SearchedInterval(p: Plan)
    requires p.Valid() && Searches(p)
    requires Aligned(p.bounds, p.StepAt(p.index))
    ensures var o, r := Search(p, p.index, p.bounds), Finished(p, false);
      && r.Full?
      && (o.count == p.split ==> r.interval == p.StepAt(o.index))
      && (o.count != p.split ==> o.count > p.split && (o.index == 0 || o.index >= |p.magics| - 1))
  {
    var o := Search(p, p.index, p.bounds);
    SearchEnds(p, p.index, p.bounds);
    SearchAligned(p, p.index, p.bounds);
    var step := p.StepAt(o.index);
    GridCount(o.bounds.hi, o.bounds.lo, step);
    if o.count == p.split {
      SwapDivisor(o.bounds.hi - o.bounds.lo, step, p.split as real);
    }
  }

  /** Without deviation, once the maximum exceeds one and the search runs to
      the requested count, the interval is the final table entry times the
      power of ten; the search stops at another count only at either end of
      the table. The reported count is the requested one (4 when it was not
      usable). */
  lemma IntervalIsStep(q: Request)
    requires RequestOk(q) && Computable(q) && !q.deviation && q.dataMax.v > 1.0
    requires Searches(PlanOf(q))
    ensures var p := PlanOf(q);
      var o, r := Search(p, p.index, p.bounds), Resolved(q);
      && r.Full?
      && r.splitNumber == Finite(Normalize(q.splitNumber) as real)
      && (o.count == p.split ==> r.interval == p.StepAt(o.index))
      && (o.count != p.split ==> o.count > p.split && (o.index == 0 || o.index >= |q.magics| - 1))
  {
    PlanFacts(q);
    SearchedInterval(PlanOf(q));
  }

  /** `DeviationResult` for any plan whose starting bounds were rounded. */
  lemma DeviationCount(p: Plan)
    requires p.Valid() && Aligned(p.bounds, p.StepAt(p.index))
    ensures var r := Finished(p, true);
      r.Full? && r.splitNumber.Finite? && r.splitNumber.v == (r.max.v - r.min) / r.interval
  {
    GridCount(p.bounds.hi, p.bounds.lo, p.StepAt(p.index));
  }

  /** With deviation the starting bounds are returned with the starting step
      as the interval, and the reported count is the rounded number of steps
      between them: exact once the maximum exceeds one. */
  lemma DeviationResult(q: Request)
    requires RequestOk(q) && Computable(q) && q.deviation
    ensures var p, r := PlanOf(q), Resolved(q);
      && r.Full? && NumberValid(r.max) && NumberValid(r.splitNumber)
      && r.max.v == p.bounds.hi && r.min == p.bounds.lo
      && r.interval == p.StepAt(p.index)
      && r.splitNumber.v == Round((r.max.v - r.min) / r.interval) as real
      && (q.dataMax.v > 1.0 ==> r.splitNumber.v == (r.max.v - r.min) / r.interval)
  {
    PlanFacts(q);
    if q.dataMax.v > 1.0 {
      DeviationCount(PlanOf(q));
    }
  }

  /** The scan's power of ten: the gap per interval lies between 10 and 100
      times `multiple`, so every table entry from 10 to 100 is a candidate. */
  lemma ScanFacts(gap: real, magics: seq<real>)
    requires gap > 0.0 && MagicsOk(magics)
    ensures var s := ScanOf(gap, magics);
      10.0 * s.multiple <= gap < 100.0 * s.multiple
  {
    var multiple := Decade(gap);
    var t := gap / multiple;
    DivTimes(gap, multiple);
    MulAtMost(10.0, t, multiple, 10.0 * multiple, gap);
    MulLess(t, 100.0, multiple, gap, 100.0 * multiple);
  }

  /** When the scan finds an entry, the starting step exceeds the gap per
      interval and the step of the entry below it does not. */
  lemma StartStep(gap: real, magics: seq<real>)
    requires gap > 0.0 && MagicsOk(magics)
    ensures var s := ScanOf(gap, magics);
      s.index < |magics| ==>
        && gap < MagicStep(magics, s.multiple, s.index)
        && (0 < s.index ==> MagicStep(magics, s.multiple, s.index - 1) <= gap)
  {
    var multiple := Decade(gap);
    StepsAround(gap, multiple, magics, FirstAbove(magics, gap / multiple));
  }

  lemma StepsAround(gap: real, multiple: real, magics: seq<real>, i: nat)
    requires MagicsOk(magics) && multiple > 0.0 && 10.0 <= gap / multiple < 100.0
    requires i == FirstAbove(magics, gap / multiple)
    ensures i < |magics| ==> gap < MagicStep(magics, multiple, i)
    ensures 0 < i <= |magics| ==> MagicStep(magics, multiple, i - 1) <= gap
  {
    if i < |magics| {
      StepAbove(gap, multiple, magics, i);
    }
    if 0 < i {
      StepBelow(gap, multiple, magics, i - 1);
    }
  }

  /** An entry above the gap measured in `multiple` gives a step above the gap. */
  lemma StepAbove(gap: real, multiple: real, magics: seq<real>, i: nat)
    requires MagicsOk(magics) && multiple > 0.0 && i < |magics| && magics[i] > gap / multiple
    ensures gap < MagicStep(magics, multiple, i)
  {
    DivTimes(gap, multiple);
    StepOfEntry(magics, multiple, i, magics[i]);
    MulLess(gap / multiple, magics[i], multiple, gap, MagicStep(magics, multiple, i));
  }

  /** An entry not above the gap measured in `multiple` gives a step not above the gap. */
  lemma StepBelow(gap: real, multiple: real, magics: seq<real>, i: nat)
    requires MagicsOk(magics) && multiple > 0.0 && i < |magics| && magics[i] <= gap / multiple
    ensures MagicStep(magics, multiple, i) <= gap
  {
    DivTimes(gap, multiple);
    StepOfEntry(magics, multiple, i, magics[i]);
    MulAtMost(magics[i], gap / multiple, multiple, MagicStep(magics, multiple, i), gap);
  }

  /** Zero is kept as an end when it is preferred: positive data start the
      axis at zero, negative data end it there. */
  lemma ZeroAnchored(q: Request)
    requires RequestOk(q) && Computable(q) && PrefersZero(q)
    ensures var p, r := PlanOf(q), Resolved(q);
      && (q.dataMin.v > 0.0 ==> p.bounds.lo == 0.0 && FinalBounds(p).lo == 0.0 && r.min == 0.0)
      && (q.dataMax.v < 0.0 ==> p.bounds.hi == 0.0 && FinalBounds(p).hi == 0.0 && r.max == Finite(0.0))
  {
    var p := PlanOf(q);
    PlanFacts(q);
    if Searches(p) {
      SearchKeepsZero(p, p.index, p.bounds);
    }
  }

  /** `SymmetricBounds` for any plan. */
  lemma SymmetricPlan(p: Plan)
    requires p.Valid() && p.symmetrical && p.bounds.lo < 0.0 < p.bounds.hi
    ensures FinalBounds(p) == p.bounds
  {
    ProductSign(p.bounds.hi, p.bounds.lo, p.bounds.hi * p.bounds.lo);
  }

  /** With `symmetrical`, bounds that straddle zero are ±equal and the search
      leaves them alone. */
  lemma SymmetricBounds(q: Request)
    requires RequestOk(q) && Computable(q) && q.symmetrical && q.dataMax.v > 1.0
    ensures var p := PlanOf(q);
      p.bounds.lo < 0.0 < p.bounds.hi ==>
        && p.bounds.lo == -p.bounds.hi
        && FinalBounds(p) == p.bounds
        && (q.deviation ==> Resolved(q).min == -Resolved(q).max.v)
  {
    var p := PlanOf(q);
    PlanFacts(q);
    if p.bounds.lo < 0.0 < p.bounds.hi {
      SymmetricPlan(p);
    }
  }
}
