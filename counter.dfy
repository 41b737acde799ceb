/**
 * The statistic counter of `animateCounter` (script.js:349-364): the element's
 * text is split into its digits, read as the target, and the rest, kept as a
 * suffix; a timer then raises `current` by a fixed increment per tick, clamps
 * it at the target, and writes `Math.floor(current) + suffix` each tick.
 */
module Counter {
  import opened Wrappers
  import Decimal

  predicate NoDigits(s: string) {
    forall i :: 0 <= i < |s| ==> !Decimal.IsDigit(s[i])
  }

  /** `text.replace(/[^\d]/g, '')`: the digits of the text, in order. */
  function DigitsOf(text: string): (d: string)
    ensures Decimal.AllDigits(d)
  {
    if text == [] then []
    else (if Decimal.IsDigit(text[0]) then [text[0]] else []) + DigitsOf(text[1..])
  }

  /** `text.replace(/[\d]/g, '')`: the text with every digit removed. */
  function Suffix(text: string): (r: string)
    ensures NoDigits(r)
  {
    if text == [] then []
    else (if Decimal.IsDigit(text[0]) then [] else [text[0]]) + Suffix(text[1..])
  }

  /** `parseInt` of the digits; `None` (NaN) when the text has none. */
  function Target(text: string): Option<nat> {
    var d := DigitsOf(text);
    if d == [] then None else Some(Decimal.Value(d))
  }

  /** The animation lasts `Duration` ms at one tick per `Interval` ms. */
  const Duration := 2000
  const Interval := 16
  const Ticks := Duration / Interval

  /** Digits and suffix together are exactly the characters of the text: nothing is lost or invented. */
  lemma {:induction false} SplitIsPartition(text: string)
    ensures multiset(DigitsOf(text)) + multiset(Suffix(text)) == multiset(text)
  {
    if text != [] {
      SplitIsPartition(text[1..]);
      assert text == [text[0]] + text[1..];
    }
  }

  lemma {:induction false} DigitsOfDigitFree(s: string)
    requires NoDigits(s)
    ensures DigitsOf(s) == [] && Suffix(s) == s
  {
    if s != [] {
      DigitsOfDigitFree(s[1..]);
      assert s == [s[0]] + s[1..];
    }
  }

  /** Both splits work character by character, so they keep the order of the text. */
  lemma {:induction false} SplitConcat(a: string, b: string)
    ensures DigitsOf(a + b) == DigitsOf(a) + DigitsOf(b)
    ensures Suffix(a + b) == Suffix(a) + Suffix(b)
  {
    if a != [] {
      assert (a + b)[1..] == a[1..] + b;
      SplitConcat(a[1..], b);
    } else {
      assert a + b == b;
    }
  }

  /** A digit among other characters: `1,200+` reads as 1200 with suffix `,+`. */
  lemma MixedText()
    ensures DigitsOf("1,200+") == "1200" && Suffix("1,200+") == ",+"
  {
    assert "1,200+" == "1" + "," + "200" + "+";
    SplitConcat("1" + ",", "200" + "+");
    SplitConcat("1", ",");
    SplitConcat("200", "+");
    SplitNumberAndSuffix("1", "");
    assert "1" + "" == "1";
    DigitsOfDigitFree(",");
    SplitNumberAndSuffix("200", "+");
  }

  /** For a number followed by a digit-free suffix, the split recovers the two parts. */
  lemma {:induction false} SplitNumberAndSuffix(d: string, sfx: string)
    requires Decimal.AllDigits(d) && NoDigits(sfx)
    ensures DigitsOf(d + sfx) == d && Suffix(d + sfx) == sfx
  {
    if d == [] {
      assert d + sfx == sfx;
      DigitsOfDigitFree(sfx);
    } else {
      SplitNumberAndSuffix(d[1..], sfx);
      assert (d + sfx)[1..] == d[1..] + sfx;
      assert d == [d[0]] + d[1..];
    }
  }

  /**
   * A counter whose text is a canonical number followed by a digit-free suffix
   * ends on exactly the text it started with.
   */
  lemma EndsOnOriginalText(d: string, sfx: string)
    requires Decimal.Canonical(d) && NoDigits(sfx)
    ensures Target(d + sfx) == Some(Decimal.Value(d))
    ensures Decimal.Show(Decimal.Value(d)) + Suffix(d + sfx) == d + sfx
  {
    SplitNumberAndSuffix(d, sfx);
    Decimal.ShowOfValue(d);
  }

  /** `1200+` has target 1200 and suffix `+`, and ends on `1200+`. */
  lemma ThousandTwoHundredPlus()
    ensures Target("1200+") == Some(1200) && Suffix("1200+") == "+"
    ensures Decimal.Show(1200) + Suffix("1200+") == "1200+"
  {
    assert "1200+" == "1200" + "+";
    assert Decimal.Value("1200") == 1200 by {
      assert "1200"[..3] == "120" && "120"[..2] == "12" && "12"[..1] == "1";
    }
    EndsOnOriginalText("1200", "+");
  }

  /** The per-tick increment `target / (duration / 16)`, exactly. */
  function Increment(target: nat): (inc: real)
    ensures inc >= 0.0 && (target > 0 ==> inc > 0.0)
  {
    target as real / (Duration as real / Interval as real)
  }

  /** `current` after `n` ticks, before clamping. */
  function Progress(n: nat, target: nat): (c: real)
    ensures c >= 0.0
  {
    n as real * Increment(target)
  }

  lemma NonNegativeProduct(a: real, b: real)
    requires a >= 0.0 && b >= 0.0
    ensures a * b >= 0.0
  {
  }

  /** With `target > 0`, the unclamped value reaches the target exactly from the `Ticks`-th tick on. */
  lemma ReachesTargetAt(n: nat, target: nat)
    requires target > 0
    ensures Progress(n, target) >= target as real <==> n >= Ticks
  {
    var inc := Increment(target);
    assert 125.0 * inc == target as real;
    assert Progress(n, target) == n as real * inc;
    assert Ticks == 125;
    if n >= Ticks {
      NonNegativeProduct(n as real - 125.0, inc);
    } else {
      NonNegativeProduct(124.0 - n as real, inc);
    }
  }

  /** One tick adds the increment, so the unclamped value only grows. */
  lemma ProgressStep(n: nat, target: nat)
    ensures Progress(n, target) + Increment(target) == Progress(n + 1, target)
    ensures Progress(n, target) <= Progress(n + 1, target)
  {
  }

  /** The number written on tick `n`: `Math.floor(current)`, or the target once `current` is clamped. */
  function ShownAt(n: nat, target: nat): (v: nat)
    ensures v <= target
  {
    if Progress(n, target) >= target as real then target else Progress(n, target).Floor
  }

  /** The first write for `1200+` is 9, as `floor(1200 / 125) = floor(9.6)`. */
  lemma FirstWriteOf1200()
    ensures ShownAt(1, 1200) == 9
  {
    assert Progress(1, 1200) == 9.6;
  }

  /** The zero target is reached on the first tick. */
  lemma ZeroTarget(n: nat)
    ensures Progress(n, 0) == 0.0
  {
  }

  /** Later ticks never show a smaller number. */
  lemma ShownAtMonotone(m: nat, n: nat, target: nat)
    requires m <= n
    ensures ShownAt(m, target) <= ShownAt(n, target)
  {
    NonNegativeProduct(n as real - m as real, Increment(target));
    assert Progress(m, target) <= Progress(n, target);
  }

  /**
   * The animation, one loop iteration per timer tick, with exact arithmetic for
   * the increment. `shown` holds the numbers written and `frames` the texts.
   */
  method AnimateCounter(text: string) returns (shown: seq<nat>, frames: seq<string>)
    requires Target(text).Some?
    ensures |shown| == |frames| == if Target(text).value == 0 then 1 else Ticks
    ensures forall k :: 0 <= k < |shown| ==> shown[k] == ShownAt(k + 1, Target(text).value)
    ensures forall k :: 0 <= k < |shown| ==>
              shown[k] <= Target(text).value && frames[k] == Decimal.Show(shown[k]) + Suffix(text)
    ensures forall k :: 0 < k < |shown| ==> shown[k - 1] <= shown[k]
    ensures shown[|shown| - 1] == Target(text).value
    ensures frames[|frames| - 1] == Decimal.Show(Target(text).value) + Suffix(text)
  {
    var target := Target(text).value;
    var suffix := Suffix(text);
    var increment: real := Increment(target);
    var current: real := 0.0;
    var running := true;
    shown, frames := [], [];
    while running
      invariant running ==> current == Progress(|shown|, target) && |shown| < Ticks
      invariant running && target == 0 ==> shown == []
      invariant !running ==> |shown| == (if target == 0 then 1 else Ticks)
      invariant !running ==> shown[|shown| - 1] == target
      invariant |frames| == |shown|
      invariant forall k :: 0 <= k < |shown| ==>
                  shown[k] == ShownAt(k + 1, target) && frames[k] == Decimal.Show(shown[k]) + suffix
      decreases Ticks - |shown|
    {
      ghost var n := |shown|;
      ProgressStep(n, target);
      if target > 0 { ReachesTargetAt(n + 1, target); } else { ZeroTarget(n + 1); }
      current := current + increment;
      if current >= target as real {
        current := target as real;
        running := false;
      }
      var value: nat := current.Floor;
      assert value == ShownAt(n + 1, target);
      shown := shown + [value];
      frames := frames + [Decimal.Show(value) + suffix];
    }
    forall k | 0 < k < |shown| ensures shown[k - 1] <= shown[k] {
      ShownAtMonotone(k, k + 1, target);
    }
  }
}
