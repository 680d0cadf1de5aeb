/** The zero-padded numbers that recordings are named by, so that sorted names are sorted ids. */
module PaddedNames {
  function Digit(d: nat): char
    requires d < 10
  {
    '0' + d as char
  }

  predicate IsDigit(c: char) { '0' <= c <= '9' }

  predicate AllDigits(s: string) { forall i :: 0 <= i < |s| ==> IsDigit(s[i]) }

  function DigitValue(c: char): nat
    requires IsDigit(c)
  {
    c as nat - '0' as nat
  }

  /** `String.valueOf` of a number that is not negative. */
  function Decimal(n: nat): (s: string)
    ensures s != "" && AllDigits(s)
  {
    if n < 10 then [Digit(n)] else Decimal(n / 10) + [Digit(n % 10)]
  }

  function Zeros(n: nat): (s: string)
    ensures |s| == n && forall i :: 0 <= i < n ==> s[i] == '0'
  {
    seq(n, _ => '0')
  }

  function Padded(input: string, length: nat): string {
    if |input| >= length then input else Zeros(length - |input|) + input
  }

  method PadLeftZeros(inputString: string, length: nat) returns (r: string)
    ensures r == Padded(inputString, length)
  {
    if |inputString| >= length { return inputString; }
    var sb := "";
    while |sb| < length - |inputString|
      invariant |sb| <= length - |inputString| && sb == Zeros(|sb|)
    {
      sb := sb + "0";
    }
    return sb + inputString;
  }

  /** `String.valueOf` of any number. */
  function Number(n: int): (s: string)
    ensures s != "" && (IsDigit(s[0]) || s[0] == '-')
  {
    if n < 0 then "-" + Decimal(-n) else Decimal(n)
  }

  function Name(id: int): (name: string)
    ensures name != "" && (IsDigit(name[0]) || name[0] == '-')
  {
    Padded(Number(id), 10)
  }

  // ---------------------------------------------------------------- the number a string of digits stands for

  function Pow10(n: nat): (p: nat)
    ensures p > 0
  {
    if n == 0 then 1 else 10 * Pow10(n - 1)
  }

  function Value(s: string): nat
    requires AllDigits(s)
  {
    if s == "" then 0 else DigitValue(s[0]) * Pow10(|s| - 1) + Value(s[1..])
  }

  lemma {:induction false} Scale(a: nat, b: nat, p: nat)
    requires a < b
    ensures a * p + p <= b * p
    decreases b
  {
    assert b * p == (b - 1) * p + p;
    if a < b - 1 { Scale(a, b - 1, p); }
  }

  lemma {:induction false} ValueBound(s: string)
    requires AllDigits(s)
    ensures Value(s) < Pow10(|s|)
    decreases |s|
  {
    if s != "" {
      ValueBound(s[1..]);
      Scale(DigitValue(s[0]), 10, Pow10(|s| - 1));
    }
  }

  lemma {:induction false} TenTimes(d: nat, p: nat)
    ensures d * (10 * p) == 10 * (d * p)
  {}

  lemma {:induction false} ValueSnoc(s: string, c: char)
    requires AllDigits(s) && IsDigit(c)
    ensures AllDigits(s + [c]) && Value(s + [c]) == 10 * Value(s) + DigitValue(c)
    decreases |s|
  {
    if s == "" {
      assert s + [c] == [c] && [c][1..] == "";
      assert Value([c]) == DigitValue(c) * Pow10(0) + Value("");
    } else {
      var t := s + [c];
      assert t[1..] == s[1..] + [c];
      ValueSnoc(s[1..], c);
      assert Value(t) == DigitValue(s[0]) * Pow10(|s|) + Value(t[1..]);
      TenTimes(DigitValue(s[0]), Pow10(|s| - 1));
    }
  }

  lemma {:induction false} ValueOfDecimal(n: nat)
    ensures Value(Decimal(n)) == n
    decreases n
  {
    if n >= 10 {
      ValueOfDecimal(n / 10);
      ValueSnoc(Decimal(n / 10), Digit(n % 10));
    } else {
      assert [Digit(n)][1..] == "" && Pow10(0) == 1;
    }
  }

  lemma {:induction false} LengthOfDecimal(n: nat, k: nat)
    requires k > 0
    ensures |Decimal(n)| <= k <==> n < Pow10(k)
    decreases k
  {
    if k == 1 {
      assert Pow10(1) == 10 * Pow10(0) == 10;
      if n >= 10 { assert |Decimal(n)| == |Decimal(n / 10)| + 1; }
    } else if n >= 10 {
      LengthOfDecimal(n / 10, k - 1);
      assert Pow10(k) == 10 * Pow10(k - 1);
    } else {
      assert Pow10(k) == 10 * Pow10(k - 1);
    }
  }

  lemma {:induction false} ValueZeros(n: nat, s: string)
    requires AllDigits(s)
    ensures AllDigits(Zeros(n) + s) && Value(Zeros(n) + s) == Value(s)
    decreases n
  {
    if n == 0 {
      assert Zeros(0) + s == s;
    } else {
      ValueZeros(n - 1, s);
      var t := Zeros(n) + s;
      assert t[1..] == Zeros(n - 1) + s && DigitValue(t[0]) == 0;
    }
  }

  // ---------------------------------------------------------------- the order of names

  /** `a.compareTo(b) < 0`. */
  predicate Before(a: string, b: string) {
    if b == "" then false
    else if a == "" then true
    else a[0] < b[0] || (a[0] == b[0] && Before(a[1..], b[1..]))
  }

  lemma {:induction false} BeforeIsLess(a: string, b: string)
    requires AllDigits(a) && AllDigits(b) && |a| == |b|
    ensures Before(a, b) <==> Value(a) < Value(b)
    decreases |a|
  {
    if a != "" {
      BeforeIsLess(a[1..], b[1..]);
      ValueBound(a[1..]);
      ValueBound(b[1..]);
      var p := Pow10(|a| - 1);
      if a[0] < b[0] { Scale(DigitValue(a[0]), DigitValue(b[0]), p); }
      if b[0] < a[0] { Scale(DigitValue(b[0]), DigitValue(a[0]), p); }
    }
  }

  /** The names of ids below 10^10: ten digits that read back as the id. */
  lemma {:induction false} NameIs(id: nat)
    requires id < Pow10(10)
    ensures |Name(id)| == 10 && AllDigits(Name(id)) && Value(Name(id)) == id
  {
    LengthOfDecimal(id, 10);
    ValueOfDecimal(id);
    ValueZeros(10 - |Decimal(id)|, Decimal(id));
    assert Zeros(0) + Decimal(id) == Decimal(id);
  }

  lemma {:induction false} NamesSortAsNumbers(a: nat, b: nat)
    requires a < Pow10(10) && b < Pow10(10)
    ensures Before(Name(a), Name(b)) <==> a < b
    ensures Name(a) == Name(b) <==> a == b
  {
    NameIs(a);
    NameIs(b);
    BeforeIsLess(Name(a), Name(b));
  }

  /** Ten digits are exactly enough: with any larger id allowed, some names sort the wrong way. */
  lemma {:induction false} TenDigitsIff(bound: nat)
    ensures (forall a: nat, b: nat :: a < bound && b < bound ==> (Before(Name(a), Name(b)) <==> a < b))
            <==> bound <= Pow10(10)
  {
    if bound <= Pow10(10) {
      forall a: nat, b: nat | a < bound && b < bound ensures Before(Name(a), Name(b)) <==> a < b {
        NamesSortAsNumbers(a, b);
      }
    } else {
      TenDigitsNeeded();
    }
  }

  lemma {:induction false} TenDigitsNeeded()
    ensures !Before(Name(Pow10(10) - 1), Name(Pow10(10)))
  {
    var big := Pow10(10);
    NameIs(big - 1);
    LengthOfDecimal(big, 10);
    LengthOfDecimal(big, 11);
    assert Pow10(11) == 10 * Pow10(10);
    ValueOfDecimal(big);
    LeadingDigits(Name(big), Name(big - 1));
  }

  /** 10^10 starts with a 1, and 10^10 - 1 with a 9. */
  lemma {:induction false} LeadingDigits(big: string, small: string)
    requires AllDigits(big) && |big| == 11 && Value(big) == Pow10(10)
    requires AllDigits(small) && |small| == 10 && Value(small) == Pow10(10) - 1
    ensures !Before(small, big)
  {
    var p := Pow10(9);
    assert Pow10(10) == 10 * p;
    ValueBound(big[1..]);
    ValueBound(small[1..]);
    if DigitValue(big[0]) > 1 { Scale(1, DigitValue(big[0]), Pow10(10)); }
    if DigitValue(small[0]) < 9 { Scale(DigitValue(small[0]), 9, p); }
  }
}
