/**
  The score board of the ring-toss game: the integer score is clamped to
  [0, 9999], written in decimal and left-padded with '0' to four characters
  (updateScoreDisplay in src/index.js).

  `DecimalString` models JavaScript's Number.prototype.toString on a
  non-negative integer below 10^21, `PadStart` models String.prototype.padStart with a
  one-character pad string, and `DecimalValue` is the reference reading of a
  digit string back into a number, used to state the round trip.
 */
module ScoreDisplay {

  /** Largest score the board can show. */
  const MaxShown: int := 9999

  /** Width of the board, in characters. */
  const Width: nat := 4

  /** Math.max(0, Math.min(9999, score)) */
  function Clamp(score: int): (c: int)
    ensures 0 <= c <= MaxShown
    ensures 0 <= score <= MaxShown ==> c == score
    ensures score < 0 ==> c == 0
    ensures score > MaxShown ==> c == MaxShown
  {
    if score < 0 then 0 else if score > MaxShown then MaxShown else score
  }

  predicate IsDigit(ch: char) {
    '0' <= ch <= '9'
  }

  predicate AllDigits(s: string) {
    forall i :: 0 <= i < |s| ==> IsDigit(s[i])
  }

  function DigitValue(ch: char): (d: nat)
    requires IsDigit(ch)
    ensures d < 10
  {
    ch as int - '0' as int
  }

  function DigitChar(d: nat): (ch: char)
    requires d < 10
    ensures IsDigit(ch) && DigitValue(ch) == d
  {
    ('0' as int + d) as char
  }

  function Pow10(k: nat): (p: nat)
    ensures p >= 1
  {
    if k == 0 then 1 else 10 * Pow10(k - 1)
  }

  lemma {:induction false} Pow10Monotone(i: nat, j: nat)
    requires i <= j
    ensures Pow10(i) <= Pow10(j)
  {
    if i < j {
      Pow10Monotone(i, j - 1);
    }
  }

  /** The number a string of decimal digits denotes, most significant first. */
  function DecimalValue(s: string): (v: nat)
    requires AllDigits(s)
    ensures v < Pow10(|s|)
  {
    if s == [] then 0
    else
      var v' := DecimalValue(s[..|s| - 1]);
      assert v' <= Pow10(|s| - 1) - 1;
      10 * v' + DigitValue(s[|s| - 1])
  }

  lemma DecimalValueSnoc(s: string, ch: char)
    requires AllDigits(s) && IsDigit(ch)
    ensures AllDigits(s + [ch])
    ensures DecimalValue(s + [ch]) == 10 * DecimalValue(s) + DigitValue(ch)
  {
    assert (s + [ch])[..|s|] == s;
  }

  /** Decimal form of a natural number, as Number.prototype.toString gives it
      for integers below 10^21 (the board only formats 0..9999). */
  function DecimalString(n: nat): (r: string)
    ensures 1 <= |r| && AllDigits(r)
  {
    if n < 10 then [DigitChar(n)]
    else DecimalString(n / 10) + [DigitChar(n % 10)]
  }

  /** The decimal form is all digits and reads back as the number; it has no
      leading zero except for the number 0 itself, and it has the fewest
      digits that can hold the number. */
  lemma {:induction false} DecimalStringCorrect(n: nat)
    ensures var r := DecimalString(n);
      && AllDigits(r) && DecimalValue(r) == n
      && 1 <= |r| && n < Pow10(|r|)
      && (|r| > 1 ==> Pow10(|r| - 1) <= n)
      && (r[0] == '0' ==> r == "0")
  {
    if n >= 10 {
      var prefix := DecimalString(n / 10);
      DecimalStringCorrect(n / 10);
      DecimalValueSnoc(prefix, DigitChar(n % 10));
      assert DecimalString(n) == prefix + [DigitChar(n % 10)];
    }
  }

  /** A number below 10^k has at most k digits (k >= 1). */
  lemma DecimalStringLength(n: nat, k: nat)
    requires 1 <= k && n < Pow10(k)
    ensures |DecimalString(n)| <= k
  {
    DecimalStringCorrect(n);
    var m: nat := |DecimalString(n)| - 1;
    if m >= k {
      Pow10Monotone(k, m);
    }
  }

  /** String.prototype.padStart(targetLength, padChar) for a one-character
      pad string: a string already long enough is returned as it is. */
  function PadStart(s: string, targetLength: nat, padChar: char): (r: string)
    ensures |s| >= targetLength ==> r == s
    ensures |s| < targetLength ==> |r| == targetLength
    ensures |r| >= |s| && r[|r| - |s|..] == s
    ensures forall i :: 0 <= i < |r| - |s| ==> r[i] == padChar
  {
    if |s| >= targetLength then s
    else seq(targetLength - |s|, _ => padChar) + s
  }

  /** The text updateScoreDisplay puts on the board for `score`. */
  function FormatScore(score: int): (r: string)
    ensures |r| == Width
    ensures AllDigits(r)
  {
    var digits := DecimalString(Clamp(score));
    DecimalStringCorrect(Clamp(score));
    DecimalStringLength(Clamp(score), Width);
    PadStart(digits, Width, '0')
  }

  /** Leading '0' characters do not change the value of a digit string. */
  lemma {:induction false} LeadingZeros(z: string, t: string)
    requires forall i :: 0 <= i < |z| ==> z[i] == '0'
    requires AllDigits(t)
    ensures AllDigits(z + t)
    ensures DecimalValue(z + t) == DecimalValue(t)
  {
    if t == [] {
      assert z + t == z;
      if z != [] {
        var zs := z[..|z| - 1];
        LeadingZeros(zs, []);
        assert zs + [] == zs;
      }
    } else {
      var init := t[..|t| - 1];
      LeadingZeros(z, init);
      assert (z + t)[..|z + t| - 1] == z + init;
    }
  }

  /** Padding a digit string on the left with '0' keeps its value. */
  lemma PadStartZerosValue(digits: string, targetLength: nat)
    requires AllDigits(digits)
    ensures AllDigits(PadStart(digits, targetLength, '0'))
    ensures DecimalValue(PadStart(digits, targetLength, '0')) == DecimalValue(digits)
  {
    var r := PadStart(digits, targetLength, '0');
    var pad := r[..|r| - |digits|];
    assert r == pad + r[|r| - |digits|..];
    assert forall i :: 0 <= i < |pad| ==> pad[i] == r[i];
    LeadingZeros(pad, digits);
  }

  /** Reading the board back as a decimal number gives the clamped score. */
  lemma FormatScoreRoundTrip(score: int)
    ensures DecimalValue(FormatScore(score)) == Clamp(score)
  {
    var digits := DecimalString(Clamp(score));
    DecimalStringCorrect(Clamp(score));
    assert FormatScore(score) == PadStart(digits, Width, '0');
    PadStartZerosValue(digits, Width);
  }

  lemma SplitLastDigit(va: nat, da: nat, vb: nat, db: nat)
    requires da < 10 && db < 10 && 10 * va + da == 10 * vb + db
    ensures va == vb && da == db
  {
  }

  /** Two digit strings of the same length with the same value are equal. */
  lemma {:induction false} DecimalValueInjective(a: string, b: string)
    requires AllDigits(a) && AllDigits(b) && |a| == |b|
    requires DecimalValue(a) == DecimalValue(b)
    ensures a == b
  {
    if a != [] {
      var n := |a| - 1;
      var va, vb := DecimalValue(a[..n]), DecimalValue(b[..n]);
      var da, db := DigitValue(a[n]), DigitValue(b[n]);
      assert 10 * va + da == 10 * vb + db;
      SplitLastDigit(va, da, vb, db);
      DecimalValueInjective(a[..n], b[..n]);
      assert a[n] as int == b[n] as int;
      assert a == a[..n] + [a[n]];
      assert b == b[..n] + [b[n]];
    }
  }

  lemma BoardTextValues()
    ensures AllDigits("9999") && DecimalValue("9999") == MaxShown
    ensures AllDigits("0000") && DecimalValue("0000") == 0
  {
    assert "9999"[..3] == "999" && "999"[..2] == "99" && "99"[..1] == "9" && "9"[..0] == "";
    assert "0000"[..3] == "000" && "000"[..2] == "00" && "00"[..1] == "0" && "0"[..0] == "";
  }

  /** The board saturates at both ends. */
  lemma FormatScoreSaturates(score: int)
    ensures score >= MaxShown ==> FormatScore(score) == "9999"
    ensures score <= 0 ==> FormatScore(score) == "0000"
  {
    var r := FormatScore(score);
    FormatScoreRoundTrip(score);
    BoardTextValues();
    if score >= MaxShown {
      DecimalValueInjective(r, "9999");
    } else if score <= 0 {
      DecimalValueInjective(r, "0000");
    }
  }

  /** Two scores show the same text exactly when they clamp to the same value;
      so formatting the clamped score shows the same text again. */
  lemma FormatScoreInjective(a: int, b: int)
    ensures FormatScore(a) == FormatScore(b) <==> Clamp(a) == Clamp(b)
    ensures FormatScore(Clamp(a)) == FormatScore(a)
  {
    FormatScoreRoundTrip(a);
    FormatScoreRoundTrip(b);
  }
}
