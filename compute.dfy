/** `scaleCompute` (index.ts): the resolver with a fixed table, and defaults
    put in by object spread rather than by destructuring alone. */
module Compute {
  import opened Numbers
  import opened Scale
  import Utils

  /** The table `scaleCompute` always uses; 150 closes the search at the top. */
  const FixedMagics: seq<real> :=
    [10.0, 15.0, 20.0, 25.0, 30.0, 40.0, 50.0, 60.0, 70.0, 80.0, 90.0, 100.0, 150.0]

  /** The option object of `scaleCompute`: there is no `magics` property. */
  datatype ScaleOption = ScaleOption(
    max: Field<Num>,
    min: Field<Num>,
    splitNumber: Field<Num>,
    symmetrical: Field<bool>,
    deviation: Field<bool>,
    preferZero: Field<bool>)

  /** `{ key: d, ...option }` for one key: the default only fills a missing
      property; a property holding `undefined` is copied over it. */
  function Spread<T>(f: Field<T>, d: T): (g: Field<T>)
    ensures f.Absent? ==> g == Given(d)
    ensures !f.Absent? ==> g == f
  {
    if f.Absent? then Given(d) else f
  }

  /** A flag read with no destructuring default: only `true` is truthy. */
  function Truthy(f: Field<bool>): (b: bool)
    ensures b <==> f == Given(true)
  {
    f.Given? && f.value
  }

  /** The spread defaults (split count 2, both flags false, `preferZero`
      true) followed by the destructuring defaults (bounds 0, split count 2). */
  function RequestOf(o: ScaleOption): (q: Request)
    ensures q.dataMax == (if o.max.Given? then o.max.value else Finite(0.0))
    ensures q.dataMin == (if o.min.Given? then o.min.value else Finite(0.0))
    ensures q.magics == FixedMagics
    ensures q.splitNumber == (if o.splitNumber.Given? then o.splitNumber.value else Finite(2.0))
    ensures q.symmetrical <==> o.symmetrical == Given(true)
    ensures q.deviation <==> o.deviation == Given(true)
    ensures q.preferZero <==> o.preferZero.Absent? || o.preferZero == Given(true)
  {
    Request(
      OrDefault(o.max, Finite(0.0)),
      OrDefault(o.min, Finite(0.0)),
      OrDefault(Spread(o.splitNumber, Finite(2.0)), Finite(2.0)),
      FixedMagics,
      Truthy(Spread(o.symmetrical, false)),
      Truthy(Spread(o.deviation, false)),
      Truthy(Spread(o.preferZero, true)))
  }

  lemma FixedMagicsOk()
    ensures MagicsOk(FixedMagics)
  {
  }

  /** `scaleCompute`. */
  method ScaleCompute(o: ScaleOption) returns (r: ScaleResult)
    requires SplitOk(RequestOf(o).splitNumber)
    ensures RequestOk(RequestOf(o))
    ensures r == Resolved(RequestOf(o))
  {
    FixedMagicsOk();
    r := Resolve(RequestOf(o));
  }

  /** The two entry points agree on every option, with one exception: a
      `preferZero` property holding `undefined` is true for
      `generateAxisOption` and false for `scaleCompute`. */
  lemma SameAsGenerate(o: ScaleOption)
    ensures var u := Utils.AxisOption(o.max, o.min, o.splitNumber, Given(FixedMagics),
                                      o.symmetrical, o.deviation, o.preferZero);
      var q, g := RequestOf(o), Utils.RequestOf(u);
      && q.dataMax == g.dataMax && q.dataMin == g.dataMin && q.splitNumber == g.splitNumber
      && q.magics == g.magics && q.symmetrical == g.symmetrical && q.deviation == g.deviation
      && (q.preferZero == g.preferZero <==> o.preferZero != Undefined)
  {
  }

  /** The scaled gap lies in [10, 100), so with the fixed table the scan
      starts at an entry from 15 to 100: never the first entry 10, never the
      closing 150, and never the fallback. */
  lemma StartIndex(gap: real)
    requires gap > 0.0
    ensures 1 <= ScanOf(gap, FixedMagics).index <= 11
  {
    FixedScan(gap / Decade(gap));
  }

  /** A value in [10, 100) lies above the fixed table's first entry and
      below its twelfth (100). */
  lemma FixedScan(t: real)
    requires 10.0 <= t < 100.0
    ensures 1 <= FirstAbove(FixedMagics, t) <= 11
  {
    assert FixedMagics[0] == 10.0 && FixedMagics[11] == 100.0;
  }

  /** With the spread defaults, an option with only the bounds set resolves
      with split count 2, no symmetry, no deviation and zero preferred. */
  lemma Defaults(dataMax: Num, dataMin: Num)
    ensures RequestOf(ScaleOption(Given(dataMax), Given(dataMin), Absent, Absent, Absent, Absent))
         == Request(dataMax, dataMin, Finite(2.0), FixedMagics, false, false, true)
  {
  }
}
