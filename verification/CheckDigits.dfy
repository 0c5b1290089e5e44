/**
 The two mod-10 checks, GS1 for product barcodes and Luhn for SIREN and SIRET
 numbers, and the keys barcodes of different lengths are compared by.
 */
module CheckDigits {
  import opened Common

  type Digit = d: int | 0 <= d <= 9

  /** The digits of a text, whatever stands between them. */
  function DigitsOf(value: string): seq<Digit> {
    if value == [] then []
    else if '0' <= value[0] <= '9' then [value[0] as int - '0' as int] + DigitsOf(value[1..])
    else DigitsOf(value[1..])
  }

  lemma {:induction false} DigitsOfConcat(a: string, b: string)
    ensures DigitsOf(a + b) == DigitsOf(a) + DigitsOf(b)
  {
    if a == [] {
      assert a + b == b;
    } else {
      assert (a + b)[1..] == a[1..] + b;
      DigitsOfConcat(a[1..], b);
    }
  }

  lemma DigitOf(c: char)
    ensures c !in "0123456789" ==> DigitsOf([c]) == []
    ensures forall k | 0 <= k < 10 && c == "0123456789"[k] :: DigitsOf([c]) == [k]
  {
    if '0' <= c <= '9' {
      assert c == "0123456789"[c as int - '0' as int];
    }
  }

  /** Wherever it stands, a digit is read as its value, and any other character as nothing. */
  lemma DigitsAreRead(a: string, c: char, b: string)
    ensures DigitsOf([]) == [] && (c !in "0123456789" ==> DigitsOf(a + [c] + b) == DigitsOf(a) + DigitsOf(b))
    ensures forall k | 0 <= k < 10 && c == "0123456789"[k] :: DigitsOf(a + [c] + b) == DigitsOf(a) + [k] + DigitsOf(b)
  {
    assert DigitsOf([]) == [];
    hide DigitsOf;
    DigitsOfConcat(a + [c], b);
    DigitsOfConcat(a, [c]);
    DigitOf(c);
  }

  datatype Scheme = Gs1 | Luhn

  /** What a digit adds at an even or odd distance from the last digit. */
  function Weight(s: Scheme, odd: bool, x: Digit): int {
    match s
    case Gs1 => if odd then 3 * x else x
    case Luhn => if odd then 2 * x / 10 + 2 * x % 10 else x
  }

  /** The weighted sum of every digit, the check digit included. */
  function Total(s: Scheme, d: seq<Digit>): int {
    if d == [] then 0 else Weight(s, (|d| - 1) % 2 == 1, d[0]) + Total(s, d[1..])
  }

  predicate Checks(s: Scheme, d: seq<Digit>) {
    Total(s, d) % 10 == 0
  }

  predicate Gs1Valid(d: seq<Digit>) {
    |d| in {8, 12, 13, 14} && Checks(Gs1, d)
  }

  // ------------------------------------------------------------ the loops

  lemma TotalGrows(s: Scheme, d: seq<Digit>, k: nat)
    requires k < |d|
    ensures Total(s, d[|d| - 1 - k..]) == Weight(s, k % 2 == 1, d[|d| - 1 - k]) + Total(s, d[|d| - k..])
  {
    assert d[|d| - 1 - k..] == [d[|d| - 1 - k]] + d[|d| - k..];
  }

  lemma JustTheCheckDigit(d: seq<Digit>)
    requires d != []
    ensures Total(Gs1, d[|d| - 1..]) == d[|d| - 1]
  {
    assert d[|d| - 1..] == [d[|d| - 1]];
  }

  lemma GsStep(d: seq<Digit>, offset: nat)
    requires offset + 1 < |d|
    ensures Total(Gs1, d[|d| - 2 - offset..]) ==
      (if offset % 2 == 0 then 3 else 1) * d[|d| - 2 - offset] as int + Total(Gs1, d[|d| - 1 - offset..])
  {
    TotalGrows(Gs1, d, offset + 1);
  }

  method Gs1CheckDigitValid(value: string) returns (ok: bool)
    ensures ok == Gs1Valid(DigitsOf(value))
  {
    hide Total, DigitsOf, Weight;
    var number := DigitsOf(value);
    if |number| !in {8, 12, 13, 14} {
      return false;
    }
    var n := |number| - 1;
    var check: int, total: int := number[n], 0;
    JustTheCheckDigit(number);
    for offset := 0 to n
      invariant total + check == Total(Gs1, number[n - offset..])
    {
      GsStep(number, offset);
      var digit: int := number[n - 1 - offset];
      total := total + digit * (if offset % 2 == 0 then 3 else 1);
    }
    assert number[0..] == number;
    ok := (10 - total % 10) % 10 == check;
  }

  method LuhnIsValid(value: seq<Digit>) returns (ok: bool)
    ensures ok == Checks(Luhn, value)
  {
    var total := 0;
    for index := 0 to |value|
      invariant total == Total(Luhn, value[|value| - index..])
    {
      var digit: int := value[|value| - 1 - index];
      if index % 2 == 1 {
        digit := digit * 2;
        digit := digit / 10 + digit % 10;
      }
      total := total + digit;
      TotalGrows(Luhn, value, index);
    }
    assert value[0..] == value;
    ok := total % 10 == 0;
  }

  /** Both identifiers when they pass, nothing when the wizard raises. */
  method ValidateIdentifiers(siren: string, siret: string) returns (r: Option<(seq<Digit>, seq<Digit>)>)
    ensures r.Some? <==> |DigitsOf(siren)| == 9 && Checks(Luhn, DigitsOf(siren))
                         && |DigitsOf(siret)| == 14 && Checks(Luhn, DigitsOf(siret))
                            && DigitsOf(siren) <= DigitsOf(siret)
    ensures r.Some? ==> r.value == (DigitsOf(siren), DigitsOf(siret))
  {
    var company, site := DigitsOf(siren), DigitsOf(siret);
    var companyOk := LuhnIsValid(company);
    if |company| != 9 || !companyOk {
      return None;
    }
    var siteOk := LuhnIsValid(site);
    if |site| != 14 || !siteOk {
      return None;
    }
    r := if company <= site then Some((company, site)) else None;
  }

  // ------------------------------------------------------------ typing errors

  predicate OddPlace(d: seq<Digit>, i: nat)
    requires i < |d|
  {
    (|d| - 1 - i) % 2 == 1
  }

  lemma {:induction false} TotalAfterUpdate(s: Scheme, d: seq<Digit>, i: nat, x: Digit)
    requires i < |d|
    ensures Total(s, d[i := x]) == Total(s, d) + Weight(s, OddPlace(d, i), x) - Weight(s, OddPlace(d, i), d[i])
    decreases |d|
  {
    hide Weight;
    if i == 0 {
      assert d[i := x][1..] == d[1..];
    } else {
      TotalAfterUpdate(s, d[1..], i - 1, x);
      assert d[i := x][1..] == d[1..][i - 1 := x];
    }
  }

  lemma WeightsDiffer(s: Scheme, odd: bool, x: Digit, y: Digit)
    requires x != y
    ensures (Weight(s, odd, x) - Weight(s, odd, y)) % 10 != 0
  {
    if s == Luhn && odd {
      GainIsDifference(s, x);
      GainIsDifference(s, y);
    } else {
      assert Weight(s, odd, x) - Weight(s, odd, y) == if odd then 3 * (x - y) else x - y;
    }
  }

  /** Two numbers that differ in one digit never both pass, under either check. */
  lemma OneDigitErrorIsCaught(s: Scheme, d: seq<Digit>, i: nat, x: Digit)
    requires i < |d| && x != d[i] && Checks(s, d)
    ensures !Checks(s, d[i := x])
  {
    hide Weight, Total;
    TotalAfterUpdate(s, d, i, x);
    WeightsDiffer(s, OddPlace(d, i), x, d[i]);
  }

  function Swapped(d: seq<Digit>, i: nat, j: nat): seq<Digit>
    requires i < j < |d|
  {
    d[i := d[j]][j := d[i]]
  }

  lemma TotalAfterSwap(s: Scheme, d: seq<Digit>, i: nat, j: nat)
    requires i < j < |d|
    ensures Total(s, Swapped(d, i, j)) == Total(s, d)
      + Weight(s, OddPlace(d, i), d[j]) - Weight(s, OddPlace(d, i), d[i])
      + Weight(s, OddPlace(d, j), d[i]) - Weight(s, OddPlace(d, j), d[j])
  {
    hide Weight, Total;
    TotalAfterUpdate(s, d, i, d[j]);
    TotalAfterUpdate(s, d[i := d[j]], j, d[i]);
  }

  /** Pairs of distinct digits whose exchange the check cannot see. */
  predicate Confusable(s: Scheme, a: Digit, b: Digit) {
    match s
    case Gs1 => Abs(a - b) == 5
    case Luhn => (a == 0 && b == 9) || (a == 9 && b == 0)
  }

  /** What a digit gains by moving to an odd place. */
  function Gain(s: Scheme, x: Digit): int {
    match s
    case Gs1 => 2 * x
    case Luhn => if x < 5 then x else x - 9
  }

  lemma GainIsDifference(s: Scheme, x: Digit)
    ensures Weight(s, true, x) - Weight(s, false, x) == Gain(s, x)
  {
  }

  lemma GainsAgree(s: Scheme, a: Digit, b: Digit)
    ensures (Gain(s, b) - Gain(s, a)) % 10 == 0 <==> a == b || Confusable(s, a, b)
    ensures (Gain(s, a) - Gain(s, b)) % 10 == 0 <==> a == b || Confusable(s, a, b)
  {
    if s == Gs1 {
      assert Gain(s, b) - Gain(s, a) == 2 * (b - a);
    } else {
      assert -10 < Gain(s, b) - Gain(s, a) < 10;
    }
  }

  lemma SwapWeights(s: Scheme, odd: bool, a: Digit, b: Digit)
    ensures (Weight(s, odd, b) - Weight(s, odd, a) + Weight(s, !odd, a) - Weight(s, !odd, b)) % 10 == 0
      <==> a == b || Confusable(s, a, b)
  {
    hide Weight, Gain, Confusable;
    GainIsDifference(s, a);
    GainIsDifference(s, b);
    GainsAgree(s, a, b);
  }

  /**
   Exchanging two digits an odd distance apart, neighbours among them, passes exactly when
   they are equal or the check's blind pair.
   */
  lemma OddDistanceSwapIsCaughtExactly(s: Scheme, d: seq<Digit>, i: nat, j: nat)
    requires i < j < |d| && (j - i) % 2 == 1 && Checks(s, d)
    ensures Checks(s, Swapped(d, i, j)) <==> d[i] == d[j] || Confusable(s, d[i], d[j])
  {
    hide Weight, Total, Confusable, Swapped;
    TotalAfterSwap(s, d, i, j);
    SwapWeights(s, OddPlace(d, i), d[i], d[j]);
    assert OddPlace(d, j) == !OddPlace(d, i);
  }

  /** Neither check sees an exchange of two digits an even distance apart. */
  lemma EvenDistanceSwapIsInvisible(s: Scheme, d: seq<Digit>, i: nat, j: nat)
    requires i < j < |d| && (j - i) % 2 == 0
    ensures Checks(s, Swapped(d, i, j)) <==> Checks(s, d)
  {
    hide Weight, Total;
    TotalAfterSwap(s, d, i, j);
    assert OddPlace(d, i) == OddPlace(d, j);
  }

  // ------------------------------------------------------------ one key for one article

  /** Zeros in front up to the given width. */
  function Padded(d: seq<Digit>, width: nat): seq<Digit>
    decreases width - |d|
  {
    if |d| >= width then d else Padded([0] + d, width)
  }

  /** None stands for the error raised on an invalid identifier. */
  function ComparisonGtin(value: string): Option<seq<Digit>> {
    var number := DigitsOf(value);
    if Gs1Valid(number) then Some(Padded(number, 14)) else None
  }

  /** A 13-digit spelling of a 12-digit code loses its leading zero. */
  function NormalizedGtin(number: seq<Digit>): seq<Digit> {
    if |number| == 13 && number[0] == 0 && Gs1Valid(number) then number[1..] else number
  }

  /** The number the digits spell. */
  function Number(d: seq<Digit>): nat {
    if d == [] then 0 else 10 * Number(d[..|d| - 1]) + d[|d| - 1]
  }

  lemma {:induction false} LeadingZero(d: seq<Digit>)
    ensures Number([0] + d) == Number(d)
  {
    if d != [] {
      assert ([0] + d)[..|d|] == [0] + d[..|d| - 1];
      LeadingZero(d[..|d| - 1]);
    }
  }

  lemma {:induction false} PaddingKeeps(d: seq<Digit>, width: nat)
    ensures var p := Padded(d, width);
      Number(p) == Number(d) && |p| == Max(|d|, width) && forall s :: Total(s, p) == Total(s, d)
    decreases width - |d|
  {
    if |d| < width {
      LeadingZero(d);
      assert ([0] + d)[1..] == d;
      PaddingKeeps([0] + d, width);
    }
  }

  lemma {:induction false} SameLengthSameNumber(a: seq<Digit>, b: seq<Digit>)
    requires |a| == |b| && Number(a) == Number(b)
    ensures a == b
  {
    if a != [] {
      SameLengthSameNumber(a[..|a| - 1], b[..|b| - 1]);
      assert a == a[..|a| - 1] + [a[|a| - 1]] && b == b[..|b| - 1] + [b[|b| - 1]];
    }
  }

  /** Leading zeros never change whether a number passes, only which lengths are accepted. */
  lemma LeadingZerosKeepValidity(d: seq<Digit>, width: nat)
    ensures Checks(Gs1, Padded(d, width)) <==> Checks(Gs1, d)
    ensures |d| in {8, 12, 13, 14} && width in {12, 13, 14} ==> (Gs1Valid(Padded(d, width)) <==> Gs1Valid(d))
  {
    PaddingKeeps(d, width);
  }

  /** Valid barcodes share a key exactly when they spell one number; the key is itself a valid barcode. */
  lemma SameKeyExactly(a: string, b: string)
    requires Gs1Valid(DigitsOf(a)) && Gs1Valid(DigitsOf(b))
    ensures ComparisonGtin(a) == ComparisonGtin(b) <==> Number(DigitsOf(a)) == Number(DigitsOf(b))
    ensures Gs1Valid(ComparisonGtin(a).value) && |ComparisonGtin(a).value| == 14
  {
    var x, y := DigitsOf(a), DigitsOf(b);
    PaddingKeeps(x, 14);
    PaddingKeeps(y, 14);
    if Number(x) == Number(y) {
      SameLengthSameNumber(Padded(x, 14), Padded(y, 14));
    }
  }

  /** Normalising a barcode never changes its key, nor whether it has one. */
  lemma NormalizingKeepsKey(d: seq<Digit>)
    ensures Gs1Valid(NormalizedGtin(d)) <==> Gs1Valid(d)
    ensures Gs1Valid(d) ==> Padded(NormalizedGtin(d), 14) == Padded(d, 14)
    ensures NormalizedGtin(NormalizedGtin(d)) == NormalizedGtin(d)
  {
    if |d| == 13 && d[0] == 0 && Gs1Valid(d) {
      assert d == [0] + d[1..];
      assert Padded(d[1..], 14) == Padded([0] + d[1..], 14);
    }
  }

  /** Between 12- and 13-digit codes the normalised forms agree exactly when the keys do. */
  lemma NormalizedIsAKey(a: seq<Digit>, b: seq<Digit>)
    requires Gs1Valid(a) && Gs1Valid(b) && |a| in {12, 13} && |b| in {12, 13}
    ensures NormalizedGtin(a) == NormalizedGtin(b) <==> Padded(a, 14) == Padded(b, 14)
  {
    hide Checks, Number, Padded;
    var m, n := NormalizedGtin(a), NormalizedGtin(b);
    NormalizingKeepsKey(a);
    NormalizingKeepsKey(b);
    SuffixOfPadded(m);
    SuffixOfPadded(n);
    if Padded(m, 14) == Padded(n, 14) {
      assert Padded(m, 14)[1] == Padded(n, 14)[1] && |m| == |n|;
      assert m == Padded(m, 14)[14 - |m|..] && n == Padded(n, 14)[14 - |n|..];
    }
  }

  lemma SuffixOfPadded(d: seq<Digit>)
    requires |d| in {12, 13}
    ensures Padded(d, 14) == (if |d| == 13 then [0] else [0, 0]) + d
  {
    if |d| == 12 {
      assert Padded(d, 14) == Padded([0] + d, 14) == Padded([0] + ([0] + d), 14);
      assert [0] + ([0] + d) == [0, 0] + d;
    } else {
      assert Padded(d, 14) == Padded([0] + d, 14);
    }
  }
}
