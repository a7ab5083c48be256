/** JavaScript number helpers used by the scale resolver, stated over exact reals.

    A JavaScript number is either a finite value or something `numberValid`
    rejects (NaN or an infinity);
    `Math.round`, `parseInt('' + x)` and the `Math.log10`/`Math.pow` pair
    become integer-valued functions on reals. */
module Numbers {

  /** A JavaScript number: a finite value, or NaN or an infinity, which
      `numberValid` rejects. */
  datatype Num = Finite(v: real) | NonFinite

  /** `numberValid`: the value is a number and it is finite. */
  predicate NumberValid(n: Num) {
    n.Finite?
  }

  /** A property of an option object that is not there, is there and holds
      `undefined`, or holds a value. Destructuring defaults treat the first two
      alike; object spread does not. */
  datatype Field<T> = Absent | Undefined | Given(value: T)

  /** The value a destructuring default `{ x = d } = obj` gives. */
  function OrDefault<T>(f: Field<T>, d: T): (r: T)
    ensures f.Given? ==> r == f.value
    ensures !f.Given? ==> r == d
  {
    match f
    case Given(x) => x
    case _ => d
  }

  predicate IsInt(x: real) {
    x.Floor as real == x
  }

  /** `parseInt('' + x)`: drops the fraction, rounding toward zero. */
  function Trunc(x: real): (k: int)
    ensures 0.0 <= x ==> 0 <= k && k as real <= x < k as real + 1.0
    ensures x <= 0.0 ==> k <= 0 && k as real - 1.0 < x <= k as real
  {
    if x >= 0.0 then x.Floor else -((-x).Floor)
  }

  /** `Math.round`: to the nearest integer, halves toward plus infinity. */
  function Round(x: real): (k: int)
    ensures x - 0.5 < k as real <= x + 0.5
  {
    (x + 0.5).Floor
  }

  lemma RoundOfInt(k: int)
    ensures Round(k as real) == k
  {
  }

  /** Shifting by a whole number shifts the rounded value by the same amount. */
  lemma RoundPlus(x: real, n: int)
    ensures Round(x + n as real) == Round(x) + n
    ensures IsInt(x) ==> IsInt(x + n as real)
  {
    var k := Round(x);
    FloorOf(x + n as real + 0.5, k + n);
    if IsInt(x) {
      FloorOf(x + n as real, x.Floor + n);
    }
  }

  /** The floor is the one integer at most `y` and above `y - 1`. */
  lemma FloorOf(y: real, k: int)
    requires k as real <= y < k as real + 1.0
    ensures y.Floor == k
  {
  }

  /** `Math.pow(10, e)` for an integer exponent. */
  function Pow10(e: int): (r: real)
    ensures r > 0.0
    decreases if e < 0 then -e else e
  {
    if e == 0 then 1.0
    else if e > 0 then 10.0 * Pow10(e - 1)
    else Pow10(e + 1) / 10.0
  }

  lemma Pow10Succ(e: int)
    ensures Pow10(e + 1) == 10.0 * Pow10(e)
  {
    if e < -1 {
      assert Pow10(e) == Pow10(e + 1) / 10.0;
    }
  }

  /** `Math.floor(Math.log10(x))`: the decade of a positive number. */
  function Log10Floor(x: real): (e: int)
    requires x > 0.0
    ensures Pow10(e) <= x < Pow10(e + 1)
    decreases if x < 1.0 then 1 else 0, if x < 1.0 then (1.0 / x).Floor else x.Floor
  {
    if x >= 10.0 then
      TenthFloor(x);
      var d := Log10Floor(x / 10.0);
      Pow10Succ(d);
      Pow10Succ(d + 1);
      d + 1
    else if x < 1.0 then
      ReciprocalShrinks(x);
      var d := Log10Floor(x * 10.0);
      Pow10Succ(d - 1);
      Pow10Succ(d);
      d - 1
    else
      0
  }

  /** A tenth of a number of at least ten has a smaller floor. */
  lemma TenthFloor(y: real)
    requires y >= 10.0
    ensures (y / 10.0).Floor < y.Floor
  {
    var k := (y / 10.0).Floor;
    assert k as real <= y / 10.0;
    assert 10 * k <= y.Floor by { FloorOf(y, y.Floor); }
  }

  /** Scaling a number below a tenth up by ten shrinks its reciprocal's floor. */
  lemma ReciprocalShrinks(x: real)
    requires 0.0 < x
    ensures x * 10.0 < 1.0 ==> (1.0 / (x * 10.0)).Floor < (1.0 / x).Floor
  {
    if x * 10.0 < 1.0 {
      var y := 1.0 / x;
      assert y * x == 1.0;
      assert y > 10.0;
      assert 1.0 / (x * 10.0) == y / 10.0;
      TenthFloor(y);
    }
  }

  /** The power of ten that `Math.pow(10, Math.floor(Math.log10(gap) - 1))`
      yields: one decade below the decade of `gap`. */
  function Decade(gap: real): (m: real)
    requires gap > 0.0
    ensures m > 0.0
    ensures 10.0 <= gap / m < 100.0
    ensures m == Pow10(Log10Floor(gap) - 1)
  {
    var e := Log10Floor(gap);
    var m := Pow10(e - 1);
    Pow10Succ(e - 1);
    Pow10Succ(e);
    assert 10.0 * m <= gap < 100.0 * m;
    DivideBetween(gap, m, 10.0, 100.0);
    m
  }

  lemma DivideBetween(x: real, m: real, lo: real, hi: real)
    requires m > 0.0 && lo * m <= x < hi * m
    ensures lo <= x / m < hi
  {
    assert x / m * m == x;
  }

  /** With a positive first factor, a product is negative exactly when the
      second factor is. */
  lemma NegativeWithPositive(a: int, b: int, p: int)
    requires a > 0 && p == a * b
    ensures p < 0 <==> b < 0
  {
    if b < 0 {
      var q := a * -b;
      assert q >= -b by { PositiveProduct(a, -b); }
      assert p == -q;
    } else {
      PositiveProduct(a, b);
    }
  }

  /** A positive whole factor does not shrink a natural number. */
  lemma {:induction false} PositiveProduct(a: int, b: int)
    requires a > 0 && b >= 0
    ensures a * b >= b
    decreases b
  {
    if b > 0 {
      PositiveProduct(a, b - 1);
      assert a * b == a * (b - 1) + a;
    }
  }
}
