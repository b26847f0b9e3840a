/** The 12-hour labels drawn beside the grid rows ("12am", "3pm"), and a parser
    that reads such a text back, so that the formatter has a checked inverse. */
module HourLabel {
  import opened Wrappers

  /** JavaScript's `a % 12`: the remainder takes the sign of the dividend. */
  function JsRemainder12(a: int): (r: int)
    ensures -12 < r < 12
    ensures r % 12 == a % 12
    ensures a >= 0 ==> 0 <= r
    ensures a < 0 ==> r <= 0
  {
    if a >= 0 then a % 12 else -((-a) % 12)
  }

  /** The number printed for `hour`: hours 0, 12 and 24 print as 12, every other
      hour as its remainder modulo 12. */
  function HourNumber(hour: int): (n: int)
    ensures n % 12 == hour % 12
    ensures !(hour == 0 || hour == 12 || hour == 24) ==> n == JsRemainder12(hour)
    ensures 0 <= hour <= 24 ==> 1 <= n <= 12
    ensures 0 <= hour <= 24 ==> (n == 12 <==> hour == 0 || hour == 12 || hour == 24)
  {
    if hour == 0 || hour == 12 || hour == 24 then 12 else JsRemainder12(hour)
  }

  /** The suffix: "am" for the hours before noon and for midnight at the end
      of the day, "pm" for every other hour. */
  function Meridiem(hour: int): (s: string)
    ensures |s| == 2
    ensures s == "am" <==> hour < 12 || hour == 24
    ensures s == "pm" <==> !(hour < 12 || hour == 24)
  {
    if hour < 12 || hour == 24 then "am" else "pm"
  }

  predicate IsDigit(c: char)
  {
    '0' <= c <= '9'
  }

  predicate AllDigits(s: string)
  {
    forall i :: 0 <= i < |s| ==> IsDigit(s[i])
  }

  /** Decimal text of a natural number, most significant digit first, with no
      leading zero. */
  function NatToDecimal(n: nat): (s: string)
    ensures 1 <= |s|
    ensures AllDigits(s)
    ensures n < 10 <==> |s| == 1
    ensures s[0] == '0' ==> n == 0
  {
    if n < 10 then [('0' as int + n) as char]
    else NatToDecimal(n / 10) + [('0' as int + n % 10) as char]
  }

  /** The number a string of digits denotes. */
  function DecimalValue(s: string): (n: nat)
    requires AllDigits(s)
  {
    if s == [] then 0
    else 10 * DecimalValue(s[..|s| - 1]) + (s[|s| - 1] as int - '0' as int)
  }

  /** Decimal text of any integer, as a template literal prints it. */
  function IntToDecimal(n: int): (s: string)
    ensures 1 <= |s|
    ensures n >= 0 ==> s == NatToDecimal(n)
    ensures n < 0 ==> s == "-" + NatToDecimal(-n)
  {
    if n >= 0 then NatToDecimal(n) else "-" + NatToDecimal(-n)
  }

  /** `formatHour`: the hour number followed by "am" or "pm". */
  function FormatHour(hour: int): (text: string)
    ensures 3 <= |text|
    ensures text[|text| - 2..] == "am" <==> hour < 12 || hour == 24
    ensures text[|text| - 2..] == "pm" <==> !(hour < 12 || hour == 24)
    ensures text[..|text| - 2] == IntToDecimal(HourNumber(hour))
  {
    IntToDecimal(HourNumber(hour)) + Meridiem(hour)
  }

  /** Reads a text of the form produced by `FormatHour` for the hours of one
      day: a canonical number 1..12 followed by "am" or "pm". Anything else is
      rejected. */
  function ParseHourLabel(text: string): (hour: Option<int>)
    ensures hour.Some? ==> 0 <= hour.value < 24
  {
    if |text| < 3 then None
    else
      var digits := text[..|text| - 2];
      var suffix := text[|text| - 2..];
      if !(suffix == "am" || suffix == "pm") || !AllDigits(digits) then None
      else
        var n := DecimalValue(digits);
        if !(1 <= n <= 12) || digits != NatToDecimal(n) then None
        else if suffix == "am" then Some(if n == 12 then 0 else n)
        else Some(if n == 12 then 12 else n + 12)
  }

  /** Reading a decimal numeral back yields the number that was printed. */
  lemma {:induction false} DecimalRoundTrip(n: nat)
    ensures DecimalValue(NatToDecimal(n)) == n
  {
    if n >= 10 {
      var s := NatToDecimal(n);
      var prefix := NatToDecimal(n / 10);
      assert s[..|s| - 1] == prefix;
      DecimalRoundTrip(n / 10);
    }
  }

  /** Every hour of a day gets a text from which it can be read back, so the
      24 row labels of a day are pairwise distinct. */
  lemma LabelRoundTrip(hour: int)
    requires 0 <= hour < 24
    ensures ParseHourLabel(FormatHour(hour)) == Some(hour)
  {
    var n := HourNumber(hour);
    DecimalRoundTrip(n);
  }

  /** The end-of-day hour 24 is labelled exactly like midnight, hour 0. */
  lemma EndOfDayLabelsAsMidnight()
    ensures FormatHour(24) == FormatHour(0) == "12am"
  {
  }

  /** Every text the parser accepts is the text of the hour it returns: the
      accepted labels are exactly the 24 labels of a day. */
  lemma ParsedLabelIsFormatted(text: string)
    requires ParseHourLabel(text).Some?
    ensures FormatHour(ParseHourLabel(text).value) == text
  {
  }
}
