/** The two-significant-figure key that merges two spellings of one pack size. Quantities are exact. */
module PackKeys {
  import opened Common

  /** Python's rounding: to the nearest whole number, ties to the even one. */
  function RoundHalfEven(x: real): int {
    var f := x.Floor;
    var d := x - f as real;
    if d < 0.5 || (d == 0.5 && f % 2 == 0) then f else f + 1
  }

  /** How many digits a whole number prints with. */
  function Digits(n: nat): nat {
    if n < 10 then 1 else 1 + Digits(n / 10)
  }

  function Pow10(e: nat): int {
    if e == 0 then 1 else 10 * Pow10(e - 1)
  }

  function Size(q: real): real {
    if q >= 0.0 then q else -q
  }

  /** The place of the second digit. */
  function Unit(q: real): (m: int)
    ensures m >= 1
  {
    var d := Digits(Size(q).Floor);
    if d >= 2 then PowPositive(d - 2); Pow10(d - 2) else 1
  }

  /** Below ten the whole number; from ten on two significant figures. */
  function KeyOf(q: real): int {
    RoundHalfEven(q / Unit(q) as real) * Unit(q)
  }

  /** Nothing for an absent or zero quantity. */
  function PackKey(q: real): Option<int> {
    if q == 0.0 then None else Some(KeyOf(q))
  }

  // ------------------------------------------------------------ powers and digits

  lemma {:induction false} PowPositive(e: nat)
    ensures Pow10(e) >= 1
  {
    if e > 0 {
      PowPositive(e - 1);
    }
  }

  lemma {:induction false} PowGrows(a: nat, b: nat)
    requires a <= b
    ensures Pow10(a) <= Pow10(b)
  {
    if a < b {
      PowGrows(a, b - 1);
      PowPositive(b - 1);
    }
  }

  lemma {:induction false} DigitsBound(n: nat)
    ensures Digits(n) >= 1 && n < Pow10(Digits(n)) && (n >= 10 ==> Digits(n) >= 2 && Pow10(Digits(n) - 1) <= n)
  {
    if n >= 10 {
      DigitsBound(n / 10);
      if n / 10 < 10 {
        assert Digits(n / 10) == 1 && Pow10(1) == 10 * Pow10(0) && Pow10(2) == 10 * Pow10(1);
      }
    } else {
      assert Pow10(1) == 10 * Pow10(0);
    }
  }

  /** For ten and more the unit leaves between ten and a hundred of it. */
  lemma UnitSpan(q: real)
    ensures Unit(q) >= 1
    ensures Size(q) >= 10.0 ==> 10.0 * Unit(q) as real <= Size(q) < 100.0 * Unit(q) as real
    ensures Size(q) < 10.0 ==> Unit(q) == 1
  {
    var n := Size(q).Floor;
    DigitsBound(n);
    if n >= 10 {
      var d := Digits(n);
      PowPositive(d - 2);
      assert Pow10(d - 1) == 10 * Pow10(d - 2) && Pow10(d) == 10 * Pow10(d - 1);
      assert n + 1 <= 100 * Unit(q) && 10 * Unit(q) <= n;
    }
  }

  /** Only one power of ten spans a quantity. */
  lemma UnitUnique(q: real, e: nat)
    requires 10.0 * Pow10(e) as real <= Size(q) < 100.0 * Pow10(e) as real
    ensures Unit(q) == Pow10(e)
  {
    PowPositive(e);
    UnitSpan(q);
    var n := Size(q).Floor;
    var d := Digits(n);
    DigitsBound(n);
    assert n >= 10;
    assert Unit(q) == Pow10(d - 2);
    assert Pow10(e + 1) == 10 * Pow10(e) && Pow10(d - 1) == 10 * Pow10(d - 2);
    if e < d - 2 {
      PowGrows(e + 1, d - 2);
    } else if d - 2 < e {
      PowGrows(d - 1, e);
    }
  }

  // ------------------------------------------------------------ rounding

  lemma RoundNearest(x: real)
    ensures -0.5 <= RoundHalfEven(x) as real - x <= 0.5
    ensures x == x.Floor as real ==> RoundHalfEven(x) == x.Floor
  {
  }

  lemma RoundMonotone(x: real, y: real)
    requires x <= y
    ensures RoundHalfEven(x) <= RoundHalfEven(y)
  {
    assert x.Floor <= y.Floor;
  }

  lemma RoundWhole(k: int)
    ensures RoundHalfEven(k as real) == k
  {
  }

  lemma RoundBetween(x: real, a: int, b: int)
    requires a as real <= x <= b as real
    ensures a <= RoundHalfEven(x) <= b
  {
    RoundMonotone(a as real, x);
    RoundMonotone(x, b as real);
    RoundWhole(a);
    RoundWhole(b);
  }

  lemma Quotient(q: real, m: int)
    requires m >= 1
    ensures q / m as real * m as real == q
  {
  }

  lemma QuotientMonotone(p: real, q: real, m: int)
    requires m >= 1 && p <= q
    ensures p / m as real <= q / m as real
  {
  }

  lemma Scaled(a: int, b: int, m: int)
    requires a <= b && m >= 1
    ensures a * m <= b * m
  {
  }

  /** A quantity of ten or more has a key of ten to a hundred units. */
  lemma KeySpan(q: real)
    requires q >= 10.0
    ensures var m, k := Unit(q), RoundHalfEven(q / Unit(q) as real);
      KeyOf(q) == k * m && 10 <= k <= 100 && 10 * m <= KeyOf(q) <= 100 * m
  {
    hide RoundHalfEven, Unit;
    UnitSpan(q);
    var m := Unit(q);
    Quotient(10.0 * m as real, m);
    QuotientMonotone(10.0 * m as real, q, m);
    QuotientMonotone(q, 100.0 * m as real, m);
    assert 10.0 * m as real / m as real == 10.0 && 100.0 * m as real / m as real == 100.0;
    RoundBetween(q / m as real, 10, 100);
    Scaled(10, RoundHalfEven(q / m as real), m);
    Scaled(RoundHalfEven(q / m as real), 100, m);
  }

  lemma KeySmall(q: real)
    requires 0.0 <= q < 10.0
    ensures KeyOf(q) == RoundHalfEven(q) && 0 <= KeyOf(q) <= 10
  {
    UnitSpan(q);
    RoundBetween(q, 0, 10);
    Quotient(q, 1);
    assert q / Unit(q) as real == q;
  }

  // ------------------------------------------------------------ the key's properties

  /** Two figures are never more than a twentieth off. */
  lemma KeyWithinFivePercent(q: real)
    requires q >= 10.0
    ensures -q / 20.0 <= KeyOf(q) as real - q <= q / 20.0
  {
    hide RoundHalfEven, Unit;
    UnitSpan(q);
    KeySpan(q);
    var m, x := Unit(q), q / Unit(q) as real;
    var k := RoundHalfEven(x);
    RoundNearest(x);
    Quotient(q, m);
    OffBy(k, x, m);
  }

  lemma OffBy(k: int, x: real, m: int)
    requires m >= 1 && -0.5 <= k as real - x <= 0.5
    ensures -0.5 * m as real <= (k * m) as real - x * m as real <= 0.5 * m as real
  {
    ScaledReal(k as real - x, 0.5, m as real);
    ScaledReal(-0.5, k as real - x, m as real);
    assert (k as real - x) * m as real == k as real * m as real - x * m as real;
    assert k as real * m as real == (k * m) as real;
  }

  lemma ScaledReal(a: real, b: real, m: real)
    requires a <= b && m >= 0.0
    ensures a * m <= b * m
  {
  }

  /** A larger pack never gets a smaller key. */
  lemma KeyMonotone(p: real, q: real)
    requires 0.0 <= p <= q
    ensures KeyOf(p) <= KeyOf(q)
  {
    hide RoundHalfEven, Unit;
    if q < 10.0 {
      KeySmall(p);
      KeySmall(q);
      RoundMonotone(p, q);
    } else if p < 10.0 {
      KeySmall(p);
      KeySpan(q);
      UnitSpan(q);
    } else {
      KeySpan(p);
      KeySpan(q);
      UnitSpan(p);
      UnitsOrdered(p, q);
      if Unit(p) == Unit(q) {
        QuotientMonotone(p, q, Unit(p));
        RoundMonotone(p / Unit(p) as real, q / Unit(p) as real);
        Scaled(RoundHalfEven(p / Unit(p) as real), RoundHalfEven(q / Unit(p) as real), Unit(p));
      }
    }
  }

  /** Different units differ by a factor of ten at least. */
  lemma UnitsOrdered(p: real, q: real)
    requires 10.0 <= p <= q
    ensures Unit(p) == Unit(q) || 10 * Unit(p) <= Unit(q)
  {
    var a, b := Digits(p.Floor) - 2, Digits(q.Floor) - 2;
    DigitsBound(p.Floor);
    DigitsBound(q.Floor);
    UnitSpan(p);
    UnitSpan(q);
    assert Pow10(a + 1) == 10 * Pow10(a) && Pow10(b + 1) == 10 * Pow10(b);
    if a < b {
      PowGrows(a + 1, b);
    } else if b < a {
      PowGrows(b + 1, a);
    }
  }

  /** Keying a key again changes nothing. */
  lemma KeyIdempotent(q: real)
    requires q >= 0.0
    ensures KeyOf(KeyOf(q) as real) == KeyOf(q)
  {
    hide RoundHalfEven, Unit;
    if q < 10.0 {
      KeySmall(q);
      if KeyOf(q) < 10 {
        KeySmall(KeyOf(q) as real);
        RoundWhole(KeyOf(q));
      } else {
        assert Pow10(0) == 1;
        KeyOfMultiple(10, 0);
      }
    } else {
      KeySpan(q);
      var e := UnitExponent(q);
      var k := RoundHalfEven(q / Unit(q) as real);
      if k < 100 {
        KeyOfMultiple(k, e);
      } else {
        assert Pow10(e + 1) == 10 * Pow10(e);
        KeyOfMultiple(10, e + 1);
      }
    }
  }

  lemma KeyOfMultiple(k: int, e: nat)
    requires 10 <= k < 100
    ensures KeyOf((k * Pow10(e)) as real) == k * Pow10(e)
  {
    hide RoundHalfEven, Unit;
    var m := Pow10(e);
    PowPositive(e);
    Scaled(10, k, m);
    Scaled(k, 99, m);
    var q := (k * m) as real;
    UnitUnique(q, e);
    assert q == k as real * m as real;
    assert q / m as real == k as real;
    RoundWhole(k);
  }

  function UnitExponent(q: real): (e: nat)
    requires q >= 10.0
    ensures Unit(q) == Pow10(e)
  {
    DigitsBound(Size(q).Floor);
    Digits(Size(q).Floor) - 2
  }

  /** The key itself has a key, the same one, exactly when the quantity rounds above zero. */
  lemma PackKeyStableExactly(q: real)
    requires q > 0.0
    ensures PackKey(PackKey(q).value as real) == PackKey(q) <==> q > 0.5
  {
    hide RoundHalfEven, Unit;
    KeyIdempotent(q);
    if q < 10.0 {
      KeySmall(q);
      RoundAboveZero(q);
    } else {
      KeySpan(q);
      UnitSpan(q);
    }
  }

  lemma RoundAboveZero(q: real)
    requires 0.0 < q
    ensures RoundHalfEven(q) > 0 <==> q > 0.5
  {
  }
}
