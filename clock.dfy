/**
 * The round clock's text, `TIME: MM:SS.cc` (Assets/Timer.cs and Assets/GameData.cs).
 * Elapsed time is a whole number of milliseconds; the three fields are the .NET
 * `TimeSpan` components Minutes, Seconds and Milliseconds / 10, each written with
 * the `D2` format (decimal, padded with zeros to at least two digits).
 */
module Clock {

  /** A TextMeshPro text component: the label the clock writes into. */
  class Label {
    var text: string

    constructor (text: string)
      ensures this.text == text
    {
      this.text := text;
    }
  }

  /** `TimeSpan.Minutes`: whole minutes, hours and days dropped. */
  function Minutes(ms: nat): (m: nat)
    ensures m < 60
  {
    (ms / 60000) % 60
  }

  /** `TimeSpan.Seconds`: whole seconds within the minute. */
  function Seconds(ms: nat): (s: nat)
    ensures s < 60
  {
    (ms / 1000) % 60
  }

  /** `TimeSpan.Milliseconds / 10`: hundredths within the second, truncated. */
  function Centiseconds(ms: nat): (c: nat)
    ensures c < 100
  {
    (ms % 1000) / 10
  }

  predicate IsDigit(c: char) {
    '0' <= c <= '9'
  }

  predicate IsDigits(s: string) {
    forall i :: 0 <= i < |s| ==> IsDigit(s[i])
  }

  function DigitChar(d: nat): (c: char)
    requires d < 10
    ensures IsDigit(c)
  {
    ('0' as int + d) as char
  }

  function DigitValue(c: char): nat
    requires IsDigit(c)
  {
    c as int - '0' as int
  }

  /** The decimal digits of `n`, most significant first, without leading zeros. */
  function Decimal(n: nat): (s: string)
    ensures |s| >= 1 && IsDigits(s)
    ensures n < 10 <==> |s| == 1
    ensures 10 <= n < 100 ==> |s| == 2
  {
    if n < 10 then [DigitChar(n)] else Decimal(n / 10) + [DigitChar(n % 10)]
  }

  /** Reads a string of decimal digits back as a number. */
  function ParseDecimal(s: string): nat
    requires IsDigits(s)
  {
    if s == [] then 0 else ParseDecimal(s[..|s| - 1]) * 10 + DigitValue(s[|s| - 1])
  }

  lemma {:induction false} DecimalRoundTrip(n: nat)
    ensures ParseDecimal(Decimal(n)) == n
  {
    if n >= 10 {
      var s := Decimal(n);
      assert s[..|s| - 1] == Decimal(n / 10);
      DecimalRoundTrip(n / 10);
    }
  }

  /** The `D2` format: at least two digits, exactly two below 100, and it reads back as `n`. */
  function D2(n: nat): (s: string)
    ensures IsDigits(s) && |s| >= 2
    ensures n < 100 ==> |s| == 2
    ensures ParseDecimal(s) == n
  {
    DecimalRoundTrip(n);
    if n < 10 then
      var s := "0" + Decimal(n);
      assert s[..1] == "0";
      s
    else Decimal(n)
  }

  /**
   * The clock text: the fixed prefix `TIME: `, then minutes, seconds and
   * centiseconds as two digits each, separated by ':' and '.'.
   */
  function FormatTime(ms: nat): (s: string)
    ensures |s| == 14 && s[..6] == "TIME: " && s[8] == ':' && s[11] == '.'
    ensures IsDigits(s[6..8]) && IsDigits(s[9..11]) && IsDigits(s[12..14])
    ensures ParseDecimal(s[6..8]) == Minutes(ms)
    ensures ParseDecimal(s[9..11]) == Seconds(ms)
    ensures ParseDecimal(s[12..14]) == Centiseconds(ms)
  {
    var mm, ss, cc := D2(Minutes(ms)), D2(Seconds(ms)), D2(Centiseconds(ms));
    Layout(mm, ss, cc);
    "TIME: " + mm + ":" + ss + "." + cc
  }

  /** Where the three two-digit fields sit in the clock text. */
  lemma Layout(mm: string, ss: string, cc: string)
    requires |mm| == 2 && |ss| == 2 && |cc| == 2
    ensures var s := "TIME: " + mm + ":" + ss + "." + cc;
            |s| == 14 && s[..6] == "TIME: " && s[8] == ':' && s[11] == '.' &&
            s[6..8] == mm && s[9..11] == ss && s[12..14] == cc
  {
    var s := "TIME: " + mm + ":" + ss + "." + cc;
    assert s[6..8] == mm;
    assert s[9..11] == ss;
    assert s[12..14] == cc;
  }

  /** The time a clock text shows, in centiseconds: minutes, seconds and hundredths put back together. */
  function ReadClock(s: string): nat
    requires |s| == 14
    requires IsDigits(s[6..8]) && IsDigits(s[9..11]) && IsDigits(s[12..14])
  {
    ParseDecimal(s[6..8]) * 6000 + ParseDecimal(s[9..11]) * 100 + ParseDecimal(s[12..14])
  }

  /** What the clock can show of `ms`: whole hours dropped, then truncated to centiseconds. */
  function ShownCentis(ms: nat): (c: nat)
    ensures c < 360000
  {
    (ms % 3600000) / 10
  }

  /** The three TimeSpan fields are the digits of ShownCentis in base 60:60:100. */
  lemma FieldsOfShown(ms: nat)
    ensures Minutes(ms) == ShownCentis(ms) / 6000
    ensures Seconds(ms) == (ShownCentis(ms) / 100) % 60
    ensures Centiseconds(ms) == ShownCentis(ms) % 100
  {
    var h := ms / 3600000;
    var r := ms % 3600000;
    var m := r / 60000;
    var r2 := r % 60000;
    var sec := r2 / 1000;
    var r3 := r2 % 1000;
    assert ms == h * 3600000 + m * 60000 + sec * 1000 + r3;
    assert ms / 60000 == h * 60 + m;
    assert ms / 1000 == (h * 60 + m) * 60 + sec;
    assert ms % 1000 == r3;
    var c := ShownCentis(ms);
    assert c == m * 6000 + sec * 100 + r3 / 10;
    assert c / 6000 == m;
    assert c / 100 == m * 60 + sec;
    assert c % 100 == r3 / 10;
  }

  /** Reading the clock text gives back exactly the shown time. */
  lemma ReadFormatTime(ms: nat)
    ensures ReadClock(FormatTime(ms)) == ShownCentis(ms)
  {
    FieldsOfShown(ms);
    var c := ShownCentis(ms);
    assert c == (c / 6000) * 6000 + ((c / 100) % 60) * 100 + c % 100;
  }

  /**
   * Two elapsed times give the same text exactly when they agree to the
   * centisecond once whole hours are dropped.
   */
  lemma FormatTimeSameText(a: nat, b: nat)
    ensures FormatTime(a) == FormatTime(b) <==> ShownCentis(a) == ShownCentis(b)
  {
    ReadFormatTime(a);
    ReadFormatTime(b);
    FieldsOfShown(a);
    FieldsOfShown(b);
  }

  /** 125.678 s is shown as 02:05.67; 3661 s (one hour, one minute, one second) as 01:01.00. */
  lemma FormatTimeExamples()
    ensures FormatTime(125678) == "TIME: 02:05.67"
    ensures FormatTime(3661000) == "TIME: 01:01.00"
  {
    assert Minutes(125678) == 2 && Seconds(125678) == 5 && Centiseconds(125678) == 67;
    assert Decimal(67) == "67";
    assert Minutes(3661000) == 1 && Seconds(3661000) == 1 && Centiseconds(3661000) == 0;
  }
}
