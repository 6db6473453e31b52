/**
 * `formatTime` of client/js/timer.js: milliseconds rendered as hours,
 * minutes and seconds, each at least two digits, separated by colons.
 * Inputs are integer milliseconds; `Math.floor` of a quotient by a positive
 * constant is Dafny's `/`, which rounds toward negative infinity as well.
 */
module TimeFormat {

  function DigitChar(d: int): char
    requires 0 <= d < 10
  {
    "0123456789"[d]
  }

  predicate IsDigit(c: char)
  {
    '0' <= c <= '9'
  }

  /** `String(n)` for a positive integer: its decimal digits, most significant first. */
  function Decimal(n: nat): (s: string)
    ensures 1 <= |s|
    ensures forall i :: 0 <= i < |s| ==> IsDigit(s[i])
    ensures n < 10 <==> |s| == 1
    ensures n < 100 <==> |s| <= 2
    ensures s[0] == '0' <==> n == 0
  {
    if n < 10 then [DigitChar(n)] else Decimal(n / 10) + [DigitChar(n % 10)]
  }

  /** The number a string of decimal digits denotes (leading zeros allowed). */
  function DecimalValue(s: string): nat
    requires forall i :: 0 <= i < |s| ==> IsDigit(s[i])
  {
    if s == [] then 0
    else
      assert IsDigit(s[|s| - 1]);
      DecimalValue(s[..|s| - 1]) * 10 + (s[|s| - 1] as int - '0' as int)
  }

  /** Reading the decimal rendering back gives the number. */
  lemma {:induction false} DecimalRoundTrip(n: nat)
    ensures DecimalValue(Decimal(n)) == n
  {
    if n >= 10 {
      var s := Decimal(n);
      assert s[..|s| - 1] == Decimal(n / 10);
      DecimalRoundTrip(n / 10);
    }
  }

  /** `timeString` without its colon: a positive field in decimal, padded to two digits; anything else "00". */
  function Pad(n: int): (s: string)
    ensures 2 <= |s|
    ensures forall i :: 0 <= i < |s| ==> IsDigit(s[i])
    ensures n <= 0 ==> s == "00"
    ensures DecimalValue(s) == if n > 0 then n else 0
    ensures 0 <= n < 100 ==> |s| == 2
    ensures n >= 10 ==> s[0] != '0'
  {
    if n > 0 then
      DecimalRoundTrip(n);
      if n < 10 then
        assert DecimalValue("0" + Decimal(n)) == DecimalValue(Decimal(n)) by {
          assert ("0" + Decimal(n))[..1] == "0";
        }
        "0" + Decimal(n)
      else Decimal(n)
    else
      assert DecimalValue("00") == DecimalValue("0") * 10 by { assert "00"[..1] == "0"; }
      "00"
  }

  /** `timeString`: the padded field followed by a colon. */
  function TimeString(n: int): (s: string)
    ensures |s| >= 3 && s[|s| - 1] == ':'
    ensures forall i :: 0 <= i < |s| - 1 ==> IsDigit(s[i])
    ensures n < 100 ==> |s| == 3
    ensures DecimalValue(s[..|s| - 1]) == if n > 0 then n else 0
    ensures n >= 10 ==> s[0] != '0'
  {
    Pad(n) + ":"
  }

  /** `Math.floor(ts / 1000)`: whole seconds. */
  function Seconds(ts: int): int
  {
    ts / 1000
  }

  /** `Math.floor(ts / 1000 / 60)`: whole minutes. */
  function Minutes(ts: int): int
  {
    ts / 1000 / 60
  }

  /** `Math.floor(ts / 1000 / 60 / 60)`: whole hours. */
  function Hours(ts: int): int
  {
    ts / 1000 / 60 / 60
  }

  /** The minute field, `minuts - hours * 60`. */
  function MinuteField(ts: int): int
  {
    Minutes(ts) - Hours(ts) * 60
  }

  /** The second field, `seconds - minuts * 60`. */
  function SecondField(ts: int): int
  {
    Seconds(ts) - Minutes(ts) * 60
  }

  /** `formatTime`: the three `timeString`s with the last colon sliced off. */
  function FormatTime(ts: int): (s: string)
    ensures |s| >= 8 && s[|s| - 3] == ':' && s[|s| - 6] == ':'
    ensures forall i :: 0 <= i < |s| && i != |s| - 3 && i != |s| - 6 ==> IsDigit(s[i])
  {
    var hoursString, minutsString, secondsString := TimeString(Hours(ts)), TimeString(MinuteField(ts)), TimeString(SecondField(ts));
    FieldsInRange(ts);
    hoursString + minutsString + secondsString[..|secondsString| - 1]
  }

  /** The minute and second fields are in 0..59 and the three fields recombine to the whole seconds. */
  lemma FieldsInRange(ts: int)
    ensures 0 <= MinuteField(ts) < 60
    ensures 0 <= SecondField(ts) < 60
    ensures Hours(ts) * 3600 + MinuteField(ts) * 60 + SecondField(ts) == ts / 1000
  {
  }

  /** The result is three padded fields separated by two colons, with no trailing colon. */
  lemma FormatTimeShape(ts: int)
    ensures FormatTime(ts) == Pad(Hours(ts)) + ":" + Pad(MinuteField(ts)) + ":" + Pad(SecondField(ts))
    ensures FormatTime(ts)[|FormatTime(ts)| - 1] != ':'
  {
  }

  /** From zero up to 100 hours the result is exactly "HH:MM:SS", eight characters. */
  lemma FormatTimeLength(ts: int)
    requires 0 <= ts < 100 * 3600 * 1000
    ensures |FormatTime(ts)| == 8
    ensures FormatTime(ts)[2] == ':' && FormatTime(ts)[5] == ':'
  {
  }

  /** The three digit fields of the result, cut out by position, are the padded fields. */
  lemma FieldSlices(ts: int)
    ensures var s := FormatTime(ts); var n := |s|;
      && s[..n - 6] == Pad(Hours(ts))
      && s[n - 5..n - 3] == Pad(MinuteField(ts))
      && s[n - 2..] == Pad(SecondField(ts))
  {
    FormatTimeShape(ts);
    FieldsInRange(ts);
    var h, m, sec := Pad(Hours(ts)), Pad(MinuteField(ts)), Pad(SecondField(ts));
    assert FormatTime(ts) == h + ":" + m + ":" + sec;
  }

  /** For a non-negative duration the three fields read back to the hours, minutes and seconds. */
  lemma FormatTimeReadsBack(ts: int)
    requires 0 <= ts
    ensures var s := FormatTime(ts); var n := |s|;
      && n >= 8 && s[n - 3] == ':' && s[n - 6] == ':'
      && (forall i :: 0 <= i < n && i != n - 3 && i != n - 6 ==> IsDigit(s[i]))
      && DecimalValue(s[..n - 6]) * 3600 + DecimalValue(s[n - 5..n - 3]) * 60 + DecimalValue(s[n - 2..])
         == ts / 1000
  {
    FieldSlices(ts);
    FieldsInRange(ts);
  }

  /** Less than a second renders as all zeros. */
  lemma SubSecondIsZero(ts: int)
    requires 0 <= ts < 1000
    ensures FormatTime(ts) == "00:00:00"
  {
  }

  /**
   * Negative inputs are floored, not truncated: one millisecond before zero
   * is the last second of hour -1, whose hour field renders as "00".
   */
  lemma NegativeWrapsToLastSecond()
    ensures FormatTime(-1) == "00:59:59"
  {
  }
}
