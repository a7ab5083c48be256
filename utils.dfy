/** lib/utils.js around the resolver: `getMinAndMax`, which folds the
    y-values of every series into a `[min, max]` pair, and
    `generateAxisOption`, which applies its destructuring defaults and runs
    the resolver with the caller's table. */
module Utils {
  import opened Numbers
  import opened Scale

  datatype Option<T> = None | Some(value: T)

  /** One `[x, y]` pair of a series' data. */
  datatype Point = Point(x: real, y: real)

  /** A series; its `data` may be `null` or `undefined`. */
  datatype Serie = Serie(data: Option<seq<Point>>)

  /** The table `generateAxisOption` uses when the caller gives none. */
  const DefaultMagics: seq<real> :=
    [10.0, 15.0, 20.0, 25.0, 30.0, 40.0, 50.0, 60.0, 70.0, 80.0, 90.0, 100.0, 150.0]

  /** The y-values of some points, in order. */
  function PointYs(ps: seq<Point>): (ys: seq<real>)
    ensures |ys| == |ps| && forall i :: 0 <= i < |ps| ==> ys[i] == ps[i].y
  {
    seq(|ps|, i requires 0 <= i < |ps| => ps[i].y)
  }

  /** The y-values of a series: none when its data is missing. */
  function SerieYs(s: Serie): seq<real> {
    match s.data
    case None => []
    case Some(ps) => PointYs(ps)
  }

  /** Every y-value of every series, series after series. */
  function AllYs(series: seq<Serie>): seq<real>
    decreases |series|
  {
    if series == [] then [] else AllYs(series[..|series| - 1]) + SerieYs(series[|series| - 1])
  }

  /** `min` after the comparisons `if (min > value) min = value` over `ys`,
      starting from `m`. */
  function MinFold(m: real, ys: seq<real>): (r: real)
    ensures r <= m
    ensures forall i :: 0 <= i < |ys| ==> r <= ys[i]
    ensures r == m || r in ys
    decreases |ys|
  {
    if ys == [] then m
    else
      var prev := MinFold(m, ys[..|ys| - 1]);
      var value := ys[|ys| - 1];
      if prev > value then value else prev
  }

  /** `max` after the comparisons `if (max < value) max = value` over `ys`,
      starting from `m`. */
  function MaxFold(m: real, ys: seq<real>): (r: real)
    ensures r >= m
    ensures forall i :: 0 <= i < |ys| ==> r >= ys[i]
    ensures r == m || r in ys
    decreases |ys|
  {
    if ys == [] then m
    else
      var prev := MaxFold(m, ys[..|ys| - 1]);
      var value := ys[|ys| - 1];
      if prev < value then value else prev
  }

  /** The pair `getMinAndMax` returns. */
  function Lowest(series: seq<Serie>): real {
    MinFold(0.0, AllYs(series))
  }
  function Highest(series: seq<Serie>): real {
    MaxFold(0.0, AllYs(series))
  }

  /** Folding two runs of values one after the other is folding their
      concatenation. */
  lemma {:induction false} MinFoldAppend(m: real, a: seq<real>, b: seq<real>)
    ensures MinFold(m, a + b) == MinFold(MinFold(m, a), b)
    decreases |b|
  {
    if b == [] {
      assert a + b == a;
    } else {
      var ab := a + b;
      assert ab[..|ab| - 1] == a + b[..|b| - 1];
      MinFoldAppend(m, a, b[..|b| - 1]);
    }
  }
  lemma {:induction false} MaxFoldAppend(m: real, a: seq<real>, b: seq<real>)
    ensures MaxFold(m, a + b) == MaxFold(MaxFold(m, a), b)
    decreases |b|
  {
    if b == [] {
      assert a + b == a;
    } else {
      var ab := a + b;
      assert ab[..|ab| - 1] == a + b[..|b| - 1];
      MaxFoldAppend(m, a, b[..|b| - 1]);
    }
  }

  /** The inner `forEach` of `getMinAndMax` over one series' points. */
  method FoldPoints(min0: real, max0: real, points: seq<Point>) returns (min: real, max: real)
    ensures min == MinFold(min0, PointYs(points)) && max == MaxFold(max0, PointYs(points))
  {
    min, max := min0, max0;
    var j := 0;
    while j < |points|
      invariant 0 <= j <= |points|
      invariant min == MinFold(min0, PointYs(points[..j]))
      invariant max == MaxFold(max0, PointYs(points[..j]))
    {
      var value := points[j].y;
      assert PointYs(points[..j + 1])[..j] == PointYs(points[..j]);
      if min > value {
        min := value;
      }
      if max < value {
        max := value;
      }
      j := j + 1;
    }
    assert points[..|points|] == points;
  }

  /** The `forEach` callback of `getMinAndMax` for one series: nothing when
      its data is missing. */
  method FoldSerie(min0: real, max0: real, s: Serie) returns (min: real, max: real)
    ensures min == MinFold(min0, SerieYs(s)) && max == MaxFold(max0, SerieYs(s))
  {
    min, max := min0, max0;
    match s.data {
      case None =>
      case Some(points) =>
        min, max := FoldPoints(min, max, points);
    }
  }

  /** `getMinAndMax`: both accumulators start at 0 and every y-value of
      every series with data is compared against them. */
  method GetMinAndMax(series: seq<Serie>) returns (min: real, max: real)
    ensures min == Lowest(series) && max == Highest(series)
  {
    min, max := 0.0, 0.0;
    var i := 0;
    while i < |series|
      invariant 0 <= i <= |series|
      invariant min == MinFold(0.0, AllYs(series[..i]))
      invariant max == MaxFold(0.0, AllYs(series[..i]))
    {
      ghost var done := AllYs(series[..i]);
      assert AllYs(series[..i + 1]) == done + SerieYs(series[i]) by {
        assert series[..i + 1][..i] == series[..i];
      }
      MinFoldAppend(0.0, done, SerieYs(series[i]));
      MaxFoldAppend(0.0, done, SerieYs(series[i]));
      min, max := FoldSerie(min, max, series[i]);
      i := i + 1;
    }
    assert series[..|series|] == series;
  }

  /** The pair brackets zero and every y-value, and each end is zero or one
      of the y-values. */
  lemma MinMaxBounds(series: seq<Serie>)
    ensures Lowest(series) <= 0.0 <= Highest(series)
    ensures forall y :: y in AllYs(series) ==> Lowest(series) <= y <= Highest(series)
    ensures Lowest(series) == 0.0 || Lowest(series) in AllYs(series)
    ensures Highest(series) == 0.0 || Highest(series) in AllYs(series)
  {
  }

  /** A series list without any data points gives `[0, 0]`. */
  lemma {:induction false} NoDataGivesZero(series: seq<Serie>)
    requires forall k :: 0 <= k < |series| ==> series[k].data == None || series[k].data == Some([])
    ensures AllYs(series) == []
    ensures Lowest(series) == 0.0 && Highest(series) == 0.0
    decreases |series|
  {
    if series != [] {
      NoDataGivesZero(series[..|series| - 1]);
    }
  }

  /** Only the y-values count: series whose points differ only in their
      x-values give the same pair. */
  lemma {:induction false} IgnoresX(series: seq<Serie>, other: seq<Serie>)
    requires |series| == |other|
    requires forall k :: 0 <= k < |series| ==> SerieYs(series[k]) == SerieYs(other[k])
    ensures Lowest(series) == Lowest(other) && Highest(series) == Highest(other)
  {
    SameYs(series, other);
  }

  lemma {:induction false} SameYs(series: seq<Serie>, other: seq<Serie>)
    requires |series| == |other|
    requires forall k :: 0 <= k < |series| ==> SerieYs(series[k]) == SerieYs(other[k])
    ensures AllYs(series) == AllYs(other)
    decreases |series|
  {
    if series != [] {
      SameYs(series[..|series| - 1], other[..|other| - 1]);
    }
  }

  /** The option object of `generateAxisOption`: each property may be
      missing, `undefined` or set. */
  datatype AxisOption = AxisOption(
    max: Field<Num>,
    min: Field<Num>,
    splitNumber: Field<Num>,
    magics: Field<seq<real>>,
    symmetrical: Field<bool>,
    deviation: Field<bool>,
    preferZero: Field<bool>)

  /** The destructuring defaults: bounds 0, split count 2, the default table,
      `symmetrical` and `deviation` false, `preferZero` true; a property
      holding `undefined` takes its default too. */
  function RequestOf(o: AxisOption): (q: Request)
    ensures q.dataMax == (if o.max.Given? then o.max.value else Finite(0.0))
    ensures q.dataMin == (if o.min.Given? then o.min.value else Finite(0.0))
    ensures q.magics == (if o.magics.Given? then o.magics.value else DefaultMagics)
    ensures q.splitNumber == (if o.splitNumber.Given? then o.splitNumber.value else Finite(2.0))
    ensures q.preferZero == (o.preferZero != Given(false))
    ensures q.symmetrical == (o.symmetrical == Given(true))
    ensures q.deviation == (o.deviation == Given(true))
  {
    Request(
      OrDefault(o.max, Finite(0.0)),
      OrDefault(o.min, Finite(0.0)),
      OrDefault(o.splitNumber, Finite(2.0)),
      OrDefault(o.magics, DefaultMagics),
      OrDefault(o.symmetrical, false),
      OrDefault(o.deviation, false),
      OrDefault(o.preferZero, true))
  }

  /** The default table is one the resolver accepts. */
  lemma DefaultMagicsOk()
    ensures MagicsOk(DefaultMagics)
  {
  }

  /** `generateAxisOption`. */
  method GenerateAxisOption(o: AxisOption) returns (r: ScaleResult)
    requires RequestOk(RequestOf(o))
    ensures r == Resolved(RequestOf(o))
  {
    r := Resolve(RequestOf(o));
  }

  /** Missing bounds count as zero, so an option with neither gives the
      zero-data result: `{ max: 10 * 2, min: 0, interval: 10, splitNumber: 2 }`
      with the default table and split count. */
  lemma NoBoundsGiven()
    ensures var r := Resolved(RequestOf(AxisOption(Absent, Undefined, Absent, Absent, Absent, Absent, Absent)));
      r == Full(Finite(20.0), 0.0, 10.0, Finite(2.0))
  {
    DefaultMagicsOk();
  }
}
