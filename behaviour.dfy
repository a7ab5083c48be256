/** Concrete runs of the resolver with the default table that show what it
    does not promise: the same range resolved twice is not a fixed point, the
    reported split count need not be the span over the interval, negative
    data can give a reversed axis, and a negative minimum can be cut off. */
module Behaviour {
  import opened Numbers
  import opened Scale
  import opened Utils

  /** A search whose first count already equals the split count keeps the
      starting bounds. */
  lemma StopsAtOnce(p: Plan)
    requires p.Valid() && Round((p.bounds.hi - p.bounds.lo) / p.StepAt(p.index)) == p.split
    ensures FinalBounds(p) == p.bounds
  {
  }

  /** Not idempotent: the range `[0, 40]` that the repository's test produces,
      resolved again with the same options, becomes 0 to 50 in steps of 25
      (with or without deviation), because its gap per interval 20 is first
      exceeded by the entry 25. */
  lemma NotIdempotent()
    ensures var q := Request(Finite(40.0), Finite(0.0), Finite(2.0), DefaultMagics, false, false, true);
      && RequestOk(q) && RequestOk(q.(deviation := true))
      && Resolved(q) == Full(Finite(50.0), 0.0, 25.0, Finite(2.0))
      && Resolved(q.(deviation := true)) == Full(Finite(50.0), 0.0, 25.0, Finite(2.0))
  {
    var q := Request(Finite(40.0), Finite(0.0), Finite(2.0), DefaultMagics, false, false, true);
    assert Computable(q) && Normalize(q.splitNumber) == 2;
    DefaultMagicsOk();
    var p := WiderPlan();
    assert ClampToZero(40.0, 0.0, true) == Bounds(40.0, 0.0);
    assert PlanOf(q) == p;
    assert PlanOf(q.(deviation := true)) == p;
    WiderFinish(p);
  }

  /** `[0, 40]` in two intervals: multiple 1, entry 25 (index 3), bounds 0 and 50. */
  lemma WiderPlan() returns (p: Plan)
    ensures p == StartPlan(40.0, 0.0, 2, DefaultMagics, false)
    ensures p == Plan(40.0, 0.0, 2, DefaultMagics, 1.0, false, 3, Bounds(50.0, 0.0))
  {
    DefaultMagicsOk();
    assert Log10Floor(2.0) == 0;
    assert Log10Floor(20.0) == 1;
    assert Decade(20.0) == 1.0;
    FirstAboveUnique(DefaultMagics, 20.0, 3);
    assert ScanOf(20.0, DefaultMagics) == Scanned(1.0, 3);
    assert MagicStep(DefaultMagics, 1.0, 3) == 25.0;
    assert Trunc(40.0 / 25.0 + 1.0) == 2;
    assert RawDegree(40.0, 0.0, 25.0) == Bounds(50.0, 0.0);
    assert CountDegree(40.0, 0.0, 25.0, false) == Bounds(50.0, 0.0);
    p := StartPlan(40.0, 0.0, 2, DefaultMagics, false);
  }

  /** 0 to 50 is already two steps of 25, so the search stops at once. */
  lemma WiderFinish(p: Plan)
    requires p == Plan(40.0, 0.0, 2, DefaultMagics, 1.0, false, 3, Bounds(50.0, 0.0))
    ensures p.Valid()
    ensures Finished(p, false) == Full(Finite(50.0), 0.0, 25.0, Finite(2.0))
    ensures Finished(p, true) == Full(Finite(50.0), 0.0, 25.0, Finite(2.0))
  {
    DefaultMagicsOk();
    assert p.StepAt(3) == 25.0;
    assert Round(50.0 / 25.0) == 2;
    StopsAtOnce(p);
  }

  /** The reported split count is not always the span over the interval: the
      range `[0.2, 0.8]` (its minimum clamped to 0) in two intervals gives
      max 0.8, min 0, interval 0.4 and split count 1, while 0.8 / 0.4 rounds
      to 2. */
  lemma CountMismatch()
    ensures var q := Request(Finite(0.8), Finite(0.2), Finite(2.0), DefaultMagics, false, false, true);
      && RequestOk(q)
      && Resolved(q) == Full(Finite(0.8), 0.0, 0.4, Finite(1.0))
      && Round((0.8 - 0.0) / 0.4) == 2
  {
    var q := Request(Finite(0.8), Finite(0.2), Finite(2.0), DefaultMagics, false, false, true);
    assert Computable(q) && Normalize(q.splitNumber) == 2;
    DefaultMagicsOk();
    var p := FractionPlan();
    assert 0.8 * 0.2 > 0.0 && ClampToZero(0.8, 0.2, true) == Bounds(0.8, 0.0);
    assert PlanOf(q) == p;
    FractionFinish(p);
  }

  /** `[0, 0.8]` in two intervals: multiple 0.01, entry 50 (index 6), and the
      data as bounds since the maximum is below one. */
  lemma FractionPlan() returns (p: Plan)
    ensures p == StartPlan(0.8, 0.0, 2, DefaultMagics, false)
    ensures p == Plan(0.8, 0.0, 2, DefaultMagics, 0.01, false, 6, Bounds(0.8, 0.0))
  {
    DefaultMagicsOk();
    assert Log10Floor(4.0) == 0;
    assert Log10Floor(0.4) == -1;
    assert Pow10(-2) == 0.01;
    assert Decade(0.4) == 0.01;
    FirstAboveUnique(DefaultMagics, 40.0, 6);
    assert ScanOf(0.4, DefaultMagics) == Scanned(0.01, 6);
    p := StartPlan(0.8, 0.0, 2, DefaultMagics, false);
  }

  /** 0.8 rounds to two steps of 0.5, so the search stops at once and the
      span 0.8 is split in two. */
  lemma FractionFinish(p: Plan)
    requires p == Plan(0.8, 0.0, 2, DefaultMagics, 0.01, false, 6, Bounds(0.8, 0.0))
    ensures p.Valid() && Finished(p, false) == Full(Finite(0.8), 0.0, 0.4, Finite(1.0))
  {
    DefaultMagicsOk();
    assert p.StepAt(6) == 0.5;
    assert 0.8 / 0.5 == 1.6 && Round(1.6) == 2;
    StopsAtOnce(p);
    assert 0.8 / 2.0 == 0.4;
  }

  /** With zero not preferred, all-negative data are not clamped: `[-100, -30]`
      in two intervals gives max -30 below min 0, interval 35 and split
      count 1. */
  lemma NegativeRange()
    ensures var q := Request(Finite(-30.0), Finite(-100.0), Finite(2.0), DefaultMagics, false, false, false);
      && RequestOk(q)
      && Resolved(q) == Full(Finite(-30.0), 0.0, 35.0, Finite(1.0))
  {
    var q := Request(Finite(-30.0), Finite(-100.0), Finite(2.0), DefaultMagics, false, false, false);
    assert Computable(q) && Normalize(q.splitNumber) == 2;
    DefaultMagicsOk();
    var p := NegativePlan();
    assert ClampToZero(-30.0, -100.0, false) == Bounds(-30.0, -100.0);
    assert PlanOf(q) == p;
    NegativeFinish(p);
  }

  /** `[-100, -30]` in two intervals: multiple 1, entry 40 (index 5), and the
      data as bounds since the maximum is below one. */
  lemma NegativePlan() returns (p: Plan)
    ensures p == StartPlan(-30.0, -100.0, 2, DefaultMagics, false)
    ensures p == Plan(-30.0, -100.0, 2, DefaultMagics, 1.0, false, 5, Bounds(-30.0, -100.0))
  {
    DefaultMagicsOk();
    assert Log10Floor(3.5) == 0;
    assert Log10Floor(35.0) == 1;
    assert Decade(35.0) == 1.0;
    FirstAboveUnique(DefaultMagics, 35.0, 5);
    assert ScanOf(35.0, DefaultMagics) == Scanned(1.0, 5);
    p := StartPlan(-30.0, -100.0, 2, DefaultMagics, false);
  }

  /** A span of 70 rounds to two steps of 40, so the search stops at once. */
  lemma NegativeFinish(p: Plan)
    requires p == Plan(-30.0, -100.0, 2, DefaultMagics, 1.0, false, 5, Bounds(-30.0, -100.0))
    ensures p.Valid() && Finished(p, false) == Full(Finite(-30.0), 0.0, 35.0, Finite(1.0))
  {
    DefaultMagicsOk();
    assert p.StepAt(5) == 40.0;
    assert 70.0 / 40.0 == 1.75 && Round(1.75) == 2;
    StopsAtOnce(p);
  }

  /** Truncation toward zero can cut off a negative minimum: `[-50, 50]` with
      deviation and zero not preferred gives max 60, min 0, interval 60 and
      split count 1, so the data minimum -50 lies below the axis. */
  lemma NegativeMinCut()
    ensures var q := Request(Finite(50.0), Finite(-50.0), Finite(2.0), DefaultMagics, false, true, false);
      && RequestOk(q)
      && Resolved(q) == Full(Finite(60.0), 0.0, 60.0, Finite(1.0))
      && Resolved(q).min > q.dataMin.v
  {
    var q := Request(Finite(50.0), Finite(-50.0), Finite(2.0), DefaultMagics, false, true, false);
    assert Computable(q) && Normalize(q.splitNumber) == 2;
    DefaultMagicsOk();
    var p := StraddlePlan();
    assert ClampToZero(50.0, -50.0, false) == Bounds(50.0, -50.0);
    assert PlanOf(q) == p;
    StraddleFinish(p);
  }

  /** With deviation the rounded bounds and the step are returned as they are. */
  lemma StraddleFinish(p: Plan)
    requires p == Plan(50.0, -50.0, 2, DefaultMagics, 1.0, false, 7, Bounds(60.0, 0.0))
    ensures p.Valid() && Finished(p, true) == Full(Finite(60.0), 0.0, 60.0, Finite(1.0))
  {
    DefaultMagicsOk();
    assert p.StepAt(7) == 60.0;
    assert Round(60.0 / 60.0) == 1;
  }

  /** `[-50, 50]` in two intervals: multiple 1, entry 60 (index 7); 50 rounds
      up to 60 and -50 truncates to 0. */
  lemma StraddlePlan() returns (p: Plan)
    ensures p == StartPlan(50.0, -50.0, 2, DefaultMagics, false)
    ensures p == Plan(50.0, -50.0, 2, DefaultMagics, 1.0, false, 7, Bounds(60.0, 0.0))
  {
    DefaultMagicsOk();
    StraddleScan();
    assert MagicStep(DefaultMagics, 1.0, 7) == 60.0;
    StraddleDegree();
    p := StartPlan(50.0, -50.0, 2, DefaultMagics, false);
  }

  /** The gap 50 is measured in units and first exceeded by the entry 60. */
  lemma StraddleScan()
    ensures MagicsOk(DefaultMagics) && ScanOf(50.0, DefaultMagics) == Scanned(1.0, 7)
  {
    DefaultMagicsOk();
    assert Log10Floor(5.0) == 0;
    assert Log10Floor(50.0) == 1;
    assert Decade(50.0) == 1.0;
    FirstAboveUnique(DefaultMagics, 50.0, 7);
  }

  /** On the grid of 60, the maximum 50 rounds up to 60 and the minimum -50
      truncates to 0. */
  lemma StraddleDegree()
    ensures CountDegree(50.0, -50.0, 60.0, false) == Bounds(60.0, 0.0)
  {
    assert 50.0 / 60.0 + 1.0 > 1.0 && Trunc(50.0 / 60.0 + 1.0) == 1;
    assert -1.0 < -50.0 / 60.0 < 0.0 && Trunc(-50.0 / 60.0) == 0;
    assert RawDegree(50.0, -50.0, 60.0) == Bounds(60.0, 0.0);
  }

  /** A negative maximum is rounded up by truncation: -50 on the grid of 20
      becomes -20, one and a half steps above it, and -30 becomes 0. */
  lemma NegativeDegree()
    ensures RawDegree(-50.0, -100.0, 20.0) == Bounds(-20.0, -100.0)
    ensures RawDegree(-30.0, -100.0, 20.0) == Bounds(0.0, -100.0)
  {
    assert Trunc(-50.0 / 20.0 + 1.0) == -1;
    assert Trunc(-30.0 / 20.0 + 1.0) == 0;
    assert Trunc(-100.0 / 20.0) == -5;
  }
}
