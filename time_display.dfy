/**
 * The countdown text of `updateDisplay` in script.js: whole minutes and the
 * leftover seconds, each written in decimal and padded with one leading
 * zero when below ten, joined by a colon.
 */
module TimeDisplay {

  predicate IsDigit(c: char) { '0' <= c <= '9' }

  predicate IsDigits(s: string) {
    forall i :: 0 <= i < |s| ==> IsDigit(s[i])
  }

  function DigitChar(d: nat): char
    requires d < 10
  {
    (('0' as int) + d) as char
  }

  function DigitValue(c: char): nat
    requires IsDigit(c)
  {
    (c as int) - ('0' as int)
  }

  /** The value of a string of decimal digits, most significant first. */
  function ValueOf(s: string): nat
    requires IsDigits(s)
  {
    if s == [] then 0 else 10 * ValueOf(s[..|s| - 1]) + DigitValue(s[|s| - 1])
  }

  /** A number converted to a string the way JavaScript does for a non-negative integer. */
  function Decimal(n: nat): (r: string)
    decreases n
    ensures 1 <= |r| && IsDigits(r)
  {
    if n < 10 then [DigitChar(n)] else Decimal(n / 10) + [DigitChar(n % 10)]
  }

  /** `Decimal` writes the shortest digit string that reads back as `n`. */
  lemma {:induction false} DecimalSpec(n: nat)
    decreases n
    ensures IsDigits(Decimal(n)) && ValueOf(Decimal(n)) == n
    ensures 1 <= |Decimal(n)|
    ensures n < 10 ==> |Decimal(n)| == 1
    ensures 10 <= n < 100 ==> |Decimal(n)| == 2
    ensures 100 <= n ==> |Decimal(n)| >= 3
    ensures 0 < n ==> Decimal(n)[0] != '0'
  {
    if n >= 10 {
      DecimalSpec(n / 10);
      var s := Decimal(n);
      assert s[..|s| - 1] == Decimal(n / 10);
    }
  }

  /** `"0" + x` for `x < 10`, otherwise `x` as it is. */
  function Pad(n: nat): (r: string)
    ensures 2 <= |r| && IsDigits(r)
  {
    if n < 10 then "0" + Decimal(n) else Decimal(n)
  }

  /** A padded field has at least two digits, exactly two below 100, and reads back as `n`. */
  lemma PadSpec(n: nat)
    ensures IsDigits(Pad(n)) && ValueOf(Pad(n)) == n
    ensures |Pad(n)| >= 2
    ensures n < 100 <==> |Pad(n)| == 2
  {
    DecimalSpec(n);
    if n < 10 {
      var s := Pad(n);
      assert s[..1] == "0";
      assert ValueOf("0") == 0;
    }
  }

  /** The `MM:SS` text shown for `remainingTime` seconds. */
  function Format(remainingTime: nat): (r: string)
    ensures 5 <= |r| && r[|r| - 3] == ':'
  {
    PadSpec(remainingTime % 60);
    Pad(remainingTime / 60) + ":" + Pad(remainingTime % 60)
  }

  /**
   * `Format` can be read back: everything before the last three characters is
   * the minutes and the last two are the seconds, always two digits and below
   * 60, and minutes * 60 + seconds is the input. Up to 99:59 the minutes take
   * exactly two digits, so every count of the timer (at most 1500) shows as
   * five characters. From 10:00 on the minutes have no leading zero.
   */
  lemma FormatReadsBack(t: nat)
    ensures var r := Format(t);
      |r| >= 5 && r[|r| - 3] == ':' &&
      IsDigits(r[..|r| - 3]) && IsDigits(r[|r| - 2..]) &&
      ValueOf(r[|r| - 2..]) < 60 &&
      ValueOf(r[..|r| - 3]) * 60 + ValueOf(r[|r| - 2..]) == t
    ensures t < 6000 <==> |Format(t)| == 5
    ensures 600 <= t ==> Format(t)[0] != '0'
  {
    var m, s := Pad(t / 60), Pad(t % 60);
    PadSpec(t / 60);
    PadSpec(t % 60);
    DecimalSpec(t / 60);
    var r := Format(t);
    assert r[..|r| - 3] == m;
    assert r[|r| - 2..] == s;
  }

  /** Each phase's full length, and two sample counts. */
  lemma FormatExamples()
    ensures Format(65) == "01:05"
    ensures Format(0) == "00:00"
    ensures Format(1500) == "25:00"
    ensures Format(300) == "05:00"
  {
    assert Pad(1) == "01" && Pad(5) == "05" && Pad(0) == "00" && Pad(25) == "25";
  }
}
