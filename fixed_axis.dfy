/** `fixedAxis` (lib/index.js): the data range of all series is resolved to
    a scale, and the scale's keys are written onto the caller's axis object,
    which is returned. */
module FixedAxis {
  import opened Numbers
  import opened Scale
  import opened Utils
  import ResolveFacts

  /** A property of the axis object: a number, or any other value (a string,
      a nested object, `null`). */
  datatype Value = Number(n: Num) | Other

  /** The axis object the caller passes in; `fixedAxis` updates it in place. */
  class Axis {
    var props: map<string, Value>

    constructor (props: map<string, Value>)
      ensures this.props == props
    {
      this.props := props;
    }

    /** `Object.assign(axis, source)`: every property of `source` is written
        onto the axis, and the axis itself is returned. */
    method Assign(source: map<string, Value>) returns (self: Axis)
      modifies this
      ensures self == this
      ensures props == Assigned(old(props), source)
    {
      props := props + source;
      self := this;
    }
  }

  /** The properties after `Object.assign(target, source)`: those of both,
      with the value from `source` where both have the key. */
  function Assigned(target: map<string, Value>, source: map<string, Value>): (m: map<string, Value>)
    ensures m.Keys == target.Keys + source.Keys
    ensures forall k :: k in source ==> m[k] == source[k]
    ensures forall k :: k in target && k !in source ==> m[k] == target[k]
  {
    target + source
  }

  /** The resolver result as an object: `{ splitNumber }`, or the four keys. */
  function ResultProps(r: ScaleResult): (m: map<string, Value>)
    ensures m.Keys == if r.SplitOnly? then {"splitNumber"} else {"max", "min", "interval", "splitNumber"}
    ensures m["splitNumber"] == Number(r.splitNumber)
    ensures r.Full? ==> m["max"] == Number(r.max)
    ensures r.Full? ==> m["min"] == Number(Finite(r.min)) && m["interval"] == Number(Finite(r.interval))
  {
    match r
    case SplitOnly(n) => map["splitNumber" := Number(n)]
    case Full(max, min, interval, n) =>
      map["max" := Number(max), "min" := Number(Finite(min)),
          "interval" := Number(Finite(interval)), "splitNumber" := Number(n)]
  }

  /** A property read from the caller's option and written into a new object
      literal: a missing one becomes a key holding `undefined`. */
  function Forward<T>(f: Field<T>): (g: Field<T>)
    ensures g.Given? <==> f.Given?
    ensures g.Given? ==> g.value == f.value
    ensures !f.Given? ==> g == Undefined
  {
    if f.Given? then f else Undefined
  }

  /** The option `fixedAxis` hands to `generateAxisOption`: the data range,
      and the caller's split count and table, nothing else. */
  function AxisOptionOf(series: seq<Serie>, splitNumber: Field<Num>, magics: Field<seq<real>>): AxisOption {
    AxisOption(Given(Finite(Highest(series))), Given(Finite(Lowest(series))),
               Forward(splitNumber), Forward(magics), Absent, Absent, Absent)
  }

  /** The resolver request `fixedAxis` ends up with. */
  function FixedRequest(series: seq<Serie>, splitNumber: Field<Num>, magics: Field<seq<real>>): (q: Request)
    ensures q.dataMax == Finite(Highest(series)) && q.dataMin == Finite(Lowest(series))
    ensures q.splitNumber == OrDefault(splitNumber, Finite(2.0))
    ensures q.magics == OrDefault(magics, DefaultMagics)
    ensures !q.symmetrical && !q.deviation && q.preferZero
  {
    Utils.RequestOf(AxisOptionOf(series, splitNumber, magics))
  }

  /** What the caller must give for the resolver to be well defined: a
      usable table (or none) and a usable split count (or none). */
  predicate FixedOk(splitNumber: Field<Num>, magics: Field<seq<real>>) {
    MagicsOk(OrDefault(magics, DefaultMagics)) && SplitOk(OrDefault(splitNumber, Finite(2.0)))
  }

  /** `fixedAxis`: the returned object is the axis passed in, now holding the
      resolved keys over its own. */
  method FixedAxis(axis: Axis, series: seq<Serie>, splitNumber: Field<Num>, magics: Field<seq<real>>)
    returns (result: Axis)
    requires FixedOk(splitNumber, magics)
    modifies axis
    ensures result == axis
    ensures axis.props == Assigned(old(axis.props), ResultProps(Resolved(FixedRequest(series, splitNumber, magics))))
  {
    var axisMin, axisMax := GetMinAndMax(series);
    var fixedAxisOptions := GenerateAxisOption(AxisOption(Given(Finite(axisMax)), Given(Finite(axisMin)),
                                                          Forward(splitNumber), Forward(magics),
                                                          Absent, Absent, Absent));
    result := axis.Assign(ResultProps(fixedAxisOptions));
  }

  /** The resolver always sees a finite range with `min <= 0 <= max`, so the
      result always has all four keys; its minimum is 0, and once any
      y-value is nonzero its maximum is at least the largest y-value. */
  lemma AlwaysScale(series: seq<Serie>, splitNumber: Field<Num>, magics: Field<seq<real>>)
    requires FixedOk(splitNumber, magics)
    ensures var q := FixedRequest(series, splitNumber, magics);
      && !Uncomputable(q) && q.dataMin.v <= 0.0 <= q.dataMax.v
      && Resolved(q).Full? && Resolved(q).min == 0.0
      && (Computable(q) ==> Resolved(q).max.Finite? && Resolved(q).max.v >= Highest(series))
  {
    var q := FixedRequest(series, splitNumber, magics);
    MinMaxBounds(series);
    if Computable(q) {
      ResolveFacts.CoversData(q);
      ResolveFacts.PlanFacts(q);
    }
  }

  /** Every axis property the result does not name keeps its value; the
      result's keys override the axis's own. */
  lemma OverlayKeeps(props: map<string, Value>, r: ScaleResult, k: string)
    ensures var m := Assigned(props, ResultProps(r));
      && (k in ResultProps(r) ==> m[k] == ResultProps(r)[k])
      && (k in props && k != "splitNumber" && (r.SplitOnly? || k !in {"max", "min", "interval"}) ==> m[k] == props[k])
  {
  }

  /** With no usable range only `splitNumber` is written: bounds and interval
      already on the axis survive. */
  lemma UncomputableKeepsBounds(props: map<string, Value>, n: Num)
    ensures var m := Assigned(props, ResultProps(SplitOnly(n)));
      && m.Keys == props.Keys + {"splitNumber"}
      && m["splitNumber"] == Number(n)
      && forall k :: k in props && k != "splitNumber" ==> m[k] == props[k]
  {
  }

  /** The single series of the repository's test: y-values 0 to 30. */
  function TestSeries(): seq<Serie> {
    [Serie(Some([Point(1546300800000.0, 0.0), Point(1546387200000.0, 2.0),
                 Point(1546473600000.0, 4.0), Point(1546560000000.0, 6.0),
                 Point(1546646400000.0, 0.0), Point(1546732800000.0, 10.0),
                 Point(1546819200000.0, 30.0), Point(1546905600000.0, 0.0),
                 Point(1546992000000.0, 2.0), Point(1547078400000.0, 5.0),
                 Point(1547164800000.0, 7.0), Point(1547251200000.0, 15.0)]))]
  }

  /** `getMinAndMax` over the test series gives `[0, 30]`. */
  lemma TestRange()
    ensures Lowest(TestSeries()) == 0.0 && Highest(TestSeries()) == 30.0
  {
    var ys := AllYs(TestSeries());
    assert AllYs(TestSeries()[..0]) == [];
    assert ys == [0.0, 2.0, 4.0, 6.0, 0.0, 10.0, 30.0, 0.0, 2.0, 5.0, 7.0, 15.0];
    MinMaxBounds(TestSeries());
    assert Highest(TestSeries()) >= ys[6];
  }

  /** The range `[0, 30]` in two intervals resolves to 0 to 40 in steps of 20:
      the gap per interval 15 falls between the entries 15 and 20 of the
      default table, and 30 rounds up to 40 on the grid of 20. */
  lemma TestScale()
    ensures var q := Request(Finite(30.0), Finite(0.0), Finite(2.0), DefaultMagics, false, false, true);
      RequestOk(q) && Resolved(q) == Full(Finite(40.0), 0.0, 20.0, Finite(2.0))
  {
    var q := Request(Finite(30.0), Finite(0.0), Finite(2.0), DefaultMagics, false, false, true);
    DefaultMagicsOk();
    var p := TestPlan();
    assert ClampToZero(30.0, 0.0, true) == Bounds(30.0, 0.0);
    assert PlanOf(q) == p;
    TestSearch(p);
  }

  /** The test's plan: multiple 1, starting entry 20 (index 2), bounds 0 and 40. */
  lemma TestPlan() returns (p: Plan)
    ensures p == StartPlan(30.0, 0.0, 2, DefaultMagics, false)
    ensures p == Plan(30.0, 0.0, 2, DefaultMagics, 1.0, false, 2, Bounds(40.0, 0.0))
  {
    DefaultMagicsOk();
    TestScan();
    assert MagicStep(DefaultMagics, 1.0, 2) == 20.0;
    assert Trunc(30.0 / 20.0 + 1.0) == 2;
    assert RawDegree(30.0, 0.0, 20.0) == Bounds(40.0, 0.0);
    assert CountDegree(30.0, 0.0, 20.0, false) == Bounds(40.0, 0.0);
    p := StartPlan(30.0, 0.0, 2, DefaultMagics, false);
  }

  /** The gap 15 is measured in units (multiple 1) and first exceeded by the
      table entry 20. */
  lemma TestScan()
    ensures MagicsOk(DefaultMagics) && ScanOf(15.0, DefaultMagics) == Scanned(1.0, 2)
  {
    DefaultMagicsOk();
    assert Log10Floor(1.5) == 0;
    assert Log10Floor(15.0) == 1;
    assert Decade(15.0) == 1.0;
    FirstAboveUnique(DefaultMagics, 15.0, 2);
  }

  /** The search stops at once: 0 to 40 is already two steps of 20. */
  lemma TestSearch(p: Plan)
    requires p == Plan(30.0, 0.0, 2, DefaultMagics, 1.0, false, 2, Bounds(40.0, 0.0))
    ensures p.Valid() && Finished(p, false) == Full(Finite(40.0), 0.0, 20.0, Finite(2.0))
  {
    DefaultMagicsOk();
    assert p.StepAt(2) == 20.0;
    assert Round(40.0 / 20.0) == 2;
    assert Search(p, 2, Bounds(40.0, 0.0)) == Outcome(Bounds(40.0, 0.0), 2, 2);
    assert FinalBounds(p) == Bounds(40.0, 0.0);
  }

  /** The repository's test: the test series with `splitNumber` 2 writes
      max 40, min 0, interval 20 and splitNumber 2 onto the y-axis, over its
      own `min: 0`, and keeps its other properties. */
  lemma TestExample(props: map<string, Value>)
    requires props == map["type" := Other, "axisLabel" := Other, "min" := Number(Finite(0.0))]
    ensures FixedOk(Given(Finite(2.0)), Absent)
    ensures Assigned(props, ResultProps(Resolved(FixedRequest(TestSeries(), Given(Finite(2.0)), Absent))))
         == map["type" := Other, "axisLabel" := Other, "min" := Number(Finite(0.0)),
                "max" := Number(Finite(40.0)), "interval" := Number(Finite(20.0)),
                "splitNumber" := Number(Finite(2.0))]
  {
    DefaultMagicsOk();
    TestRequest();
    TestScale();
    TestOverlay(props);
  }

  /** The test's expected keys written over the y-axis of the test. */
  lemma TestOverlay(props: map<string, Value>)
    requires props == map["type" := Other, "axisLabel" := Other, "min" := Number(Finite(0.0))]
    ensures Assigned(props, ResultProps(Full(Finite(40.0), 0.0, 20.0, Finite(2.0))))
         == map["type" := Other, "axisLabel" := Other, "min" := Number(Finite(0.0)),
                "max" := Number(Finite(40.0)), "interval" := Number(Finite(20.0)),
                "splitNumber" := Number(Finite(2.0))]
  {
    assert ResultProps(Full(Finite(40.0), 0.0, 20.0, Finite(2.0)))
        == map["max" := Number(Finite(40.0)), "min" := Number(Finite(0.0)),
               "interval" := Number(Finite(20.0)), "splitNumber" := Number(Finite(2.0))];
  }

  /** `fixedAxis` on the test series with `splitNumber` 2 asks the resolver
      for the range `[0, 30]` with the defaults. */
  lemma TestRequest()
    ensures FixedRequest(TestSeries(), Given(Finite(2.0)), Absent)
         == Request(Finite(30.0), Finite(0.0), Finite(2.0), DefaultMagics, false, false, true)
  {
    TestRange();
  }
}
