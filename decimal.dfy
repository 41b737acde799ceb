/**
 * Decimal digit strings: the reading of a run of ASCII digits as a non-negative
 * integer (what `parseInt` does with the digits-only text of a counter), its
 * inverse rendering (what `Math.floor(current) + suffix` writes), and the part
 * of JavaScript's string-to-number conversion that `createOrder` relies on
 * when it compares the custom amount with 0.
 */
module Decimal {
  import opened Wrappers
  import Text

  /** JavaScript's `\d`: the ASCII digits only. */
  predicate IsDigit(c: char) {
    '0' <= c <= '9'
  }

  predicate AllDigits(s: string) {
    forall i :: 0 <= i < |s| ==> IsDigit(s[i])
  }

  function DigitValue(c: char): (d: nat)
    requires IsDigit(c)
    ensures d < 10
  {
    c as int - '0' as int
  }

  function DigitChar(d: nat): (c: char)
    requires d < 10
    ensures IsDigit(c) && DigitValue(c) == d
  {
    ('0' as int + d) as char
  }

  /** The integer a digit string denotes, most significant digit first. */
  function Value(s: string): nat
    requires AllDigits(s)
  {
    if s == [] then 0 else Value(s[..|s| - 1]) * 10 + DigitValue(s[|s| - 1])
  }

  /** The canonical decimal rendering of `n`: no sign, no leading zero. */
  function Show(n: nat): (s: string)
    ensures |s| > 0 && AllDigits(s)
  {
    if n < 10 then [DigitChar(n)] else Show(n / 10) + [DigitChar(n % 10)]
  }

  /** A digit string without a superfluous leading zero. */
  predicate Canonical(s: string) {
    |s| > 0 && AllDigits(s) && (s[0] == '0' ==> |s| == 1)
  }

  lemma {:induction false} ShowIsCanonical(n: nat)
    ensures Canonical(Show(n))
  {
    if n >= 10 {
      ShowIsCanonical(n / 10);
      assert Show(n)[0] == Show(n / 10)[0];
    }
  }

  /** Reading back a rendered number gives the number. */
  lemma {:induction false} ValueOfShow(n: nat)
    ensures Value(Show(n)) == n
  {
    if n >= 10 {
      var s := Show(n);
      assert s[..|s| - 1] == Show(n / 10);
      ValueOfShow(n / 10);
    }
  }

  lemma {:induction false} ValueAtLeastOne(s: string)
    requires AllDigits(s) && |s| > 0 && s[0] != '0'
    ensures Value(s) >= 1
  {
    if |s| > 1 {
      ValueAtLeastOne(s[..|s| - 1]);
    }
  }

  /** Rendering a canonical digit string's value gives the string back. */
  lemma {:induction false} ShowOfValue(s: string)
    requires Canonical(s)
    ensures Show(Value(s)) == s
  {
    if |s| > 1 {
      var p := s[..|s| - 1];
      ValueAtLeastOne(p);
      ShowOfValue(p);
      assert p + [s[|s| - 1]] == s;
    }
  }

  /** A digit string denotes 0 exactly when it is made of zeros only. */
  lemma {:induction false} ValueZeroIff(s: string)
    requires AllDigits(s)
    ensures Value(s) == 0 <==> forall i :: 0 <= i < |s| ==> s[i] == '0'
  {
    if s != [] {
      var p := s[..|s| - 1];
      ValueZeroIff(p);
      if Value(s) == 0 {
        forall i | 0 <= i < |s| ensures s[i] == '0' {
          if i < |s| - 1 { assert s[i] == p[i]; }
        }
      }
    }
  }

  function Pow10(k: nat): (p: nat)
    ensures p >= 1
  {
    if k == 0 then 1 else 10 * Pow10(k - 1)
  }

  /** Some digit of `s` is one of `1` to `9`. */
  predicate HasNonZeroDigit(s: string) {
    exists i :: 0 <= i < |s| && '1' <= s[i] <= '9'
  }

  /** A digit string denotes a positive number exactly when it has a non-zero digit. */
  lemma PositiveValueIff(s: string)
    requires AllDigits(s)
    ensures Value(s) > 0 <==> HasNonZeroDigit(s)
  {
    ValueZeroIff(s);
    if Value(s) > 0 {
      var i :| 0 <= i < |s| && s[i] != '0';
      assert '1' <= s[i] <= '9';
    }
  }

  /** The text after an optional leading sign. */
  function Unsigned(s: string): (b: string)
    ensures |b| <= |s|
  {
    if |s| > 0 && (s[0] == '-' || s[0] == '+') then s[1..] else s
  }

  /** The digits before the first `.` of an unsigned literal. */
  function Whole(b: string): string {
    b[..Text.IndexOf(b, '.')]
  }

  /** The digits after the first `.` of an unsigned literal (none when there is no `.`). */
  function Fraction(b: string): string {
    var dot := Text.IndexOf(b, '.');
    if dot < |b| then b[dot + 1..] else []
  }

  /** `Whole(b) . Fraction(b)` read as a non-negative real, if it is a well-formed literal. */
  function Magnitude(b: string): (r: Option<real>)
    ensures r.Some? ==> r.value >= 0.0
  {
    var whole, frac := Whole(b), Fraction(b);
    if AllDigits(whole) && AllDigits(frac) && |whole| + |frac| > 0 then
      Some(Value(whole) as real + Value(frac) as real / Pow10(|frac|) as real)
    else None
  }

  /**
   * A numeric literal as JavaScript's `Number(string)` reads it, for the forms a
   * donation amount takes: an optional `+` or `-`, decimal digits, and an optional
   * `.` followed by fraction digits, with at least one digit in all. The empty
   * string reads as 0. Every other string reads as `None` (NaN).
   */
  function ToNumber(s: string): Option<real> {
    if s == [] then Some(0.0)
    else
      match Magnitude(Unsigned(s))
      case None => None
      case Some(m) => Some(if s[0] == '-' then -m else m)
  }

  /** `Number(s) > 0` in JavaScript: false for NaN. */
  predicate IsPositive(s: string) {
    var r := ToNumber(s);
    r.Some? && r.value > 0.0
  }

  /** A rendered natural number reads back as that number. */
  lemma ToNumberOfShow(n: nat)
    ensures ToNumber(Show(n)) == Some(n as real)
  {
    var s := Show(n);
    ValueOfShow(n);
    assert IsDigit(s[0]);
    assert Text.IndexOf(s, '.') == |s| by {
      assert forall k :: 0 <= k < |s| ==> s[k] != '.';
    }
    assert Whole(s) == s;
  }

  /** An unsigned literal is its whole part, then (if it has a `.`) the `.` and the fraction. */
  lemma WholeAndFraction(b: string)
    ensures Text.IndexOf(b, '.') == |b| ==> b == Whole(b) && Fraction(b) == []
    ensures Text.IndexOf(b, '.') < |b| ==> b == Whole(b) + ['.'] + Fraction(b)
  {
    var dot := Text.IndexOf(b, '.');
    if dot < |b| {
      assert b[dot] == '.';
      SplitAround(b, dot);
    } else {
      assert b[..dot] == b;
    }
  }

  lemma SplitAround(b: string, i: nat)
    requires i < |b|
    ensures b == b[..i] + [b[i]] + b[i + 1..]
  {
  }

  lemma NonZeroDigitAround(a: string, c: string)
    ensures HasNonZeroDigit(a + ['.'] + c) <==> HasNonZeroDigit(a) || HasNonZeroDigit(c)
  {
    var s := a + ['.'] + c;
    if HasNonZeroDigit(s) {
      var i :| 0 <= i < |s| && '1' <= s[i] <= '9';
      if i < |a| { assert a[i] == s[i]; } else { assert c[i - |a| - 1] == s[i]; }
    }
    if HasNonZeroDigit(a) {
      var i :| 0 <= i < |a| && '1' <= a[i] <= '9';
      assert s[i] == a[i];
    }
    if HasNonZeroDigit(c) {
      var i :| 0 <= i < |c| && '1' <= c[i] <= '9';
      assert s[i + |a| + 1] == c[i];
    }
  }

  lemma PositiveSum(w: nat, f: nat, k: nat)
    requires k >= 1
    ensures w as real + f as real / k as real > 0.0 <==> w > 0 || f > 0
  {
    if f > 0 { assert f as real / k as real > 0.0; }
  }

  lemma MagnitudePositiveIff(b: string)
    requires Magnitude(b).Some?
    ensures Magnitude(b).value > 0.0 <==> HasNonZeroDigit(b)
  {
    var whole, frac := Whole(b), Fraction(b);
    PositiveValueIff(whole);
    PositiveValueIff(frac);
    PositiveSum(Value(whole), Value(frac), Pow10(|frac|));
    WholeAndFraction(b);
    if Text.IndexOf(b, '.') < |b| {
      NonZeroDigitAround(whole, frac);
    } else {
      assert !HasNonZeroDigit(frac);
    }
  }

  /**
   * A well-formed amount is positive exactly when it has no minus sign and at
   * least one non-zero digit.
   */
  lemma PositiveIff(s: string)
    requires ToNumber(s).Some?
    ensures IsPositive(s) <==> s != [] && s[0] != '-' && HasNonZeroDigit(s)
  {
    if s != [] {
      var b := Unsigned(s);
      MagnitudePositiveIff(b);
      if HasNonZeroDigit(s) {
        var i :| 0 <= i < |s| && '1' <= s[i] <= '9';
        if b != s { assert b[i - 1] == s[i]; }
      }
      if HasNonZeroDigit(b) && b != s {
        var i :| 0 <= i < |b| && '1' <= b[i] <= '9';
        assert s[i + 1] == b[i];
      }
    }
  }
}
