/** Timestamp text: ISO 8601 as profiled in section 5.6 of RFC 3339. One crate prints
    milliseconds since the epoch, another parses the text back. */
module Timestamps {
  import opened Calendar
  import opened Wrappers

  datatype Error =
    | InvalidDatetime | InvalidYear | InvalidMonth | InvalidDay | InvalidDateValues
    | ExpectedT | IncompleteTime | InvalidHour | InvalidMinute | InvalidSecond
    | InvalidTimeFormat | InvalidTimezone | InvalidTimezoneHour | InvalidTimezoneMinute

  datatype Result<+T> = Ok(value: T) | Err(error: Error) {
    predicate IsFailure() { Err? }
    function PropagateFailure<U>(): Result<U> requires Err? { Err(error) }
    function Extract(): T requires Ok? { value }
  }

  // ---------------------------------------------------------------------------
  // Seconds to calendar fields
  // ---------------------------------------------------------------------------

  datatype DateTime = DateTime(date: Date, hour: int, minute: int, second: int)

  /** The field values of a second count, by floor division. */
  function DateTimeOf(secs: int): DateTime {
    var rest := secs % 86400;
    DateTime(CivilFromDays(secs / 86400), rest / 3600, rest % 3600 / 60, rest % 60)
  }

  /** Seconds from fields, the last step of the parser before the zone offset. */
  function SecondsOf(t: DateTime): int {
    DaysFromCivil(t.date) * 86400 + t.hour * 3600 + t.minute * 60 + t.second
  }

  method EpochSecsToDatetime(secs: int) returns (t: DateTime)
    ensures t.date == CivilFromDays(secs / 86400)
    ensures t.hour == secs % 86400 / 3600
    ensures t.minute == secs % 86400 % 3600 / 60
    ensures t.second == secs % 86400 % 60
  {
    hide CivilFromDays, Quot;
    var remaining := secs;
    if remaining >= 0 {
      var second := remaining % 60;
      remaining := remaining / 60;
      var minute := remaining % 60;
      remaining := remaining / 60;
      var hour := remaining % 24;
      var days := remaining / 24;
      t := DateTime(CivilFromDays(days), hour, minute, second);
      FieldsBySteps(secs);
    } else {
      var days := Quot(remaining - 86399, 86400);
      var daySecs := remaining - days * 86400;
      var hour := daySecs / 3600;
      var minute := daySecs % 3600 / 60;
      var second := daySecs % 60;
      t := DateTime(CivilFromDays(days), hour, minute, second);
      assert days == secs / 86400 by { QuotBounds(secs - 86399, 86400); }
    }
  }

  lemma FieldsOfTime(t: DateTime, secs: int)
    requires t.date == CivilFromDays(secs / 86400) && t.hour == secs % 86400 / 3600
    requires t.minute == secs % 86400 % 3600 / 60 && t.second == secs % 86400 % 60
    ensures t == DateTimeOf(secs)
  {
    hide CivilFromDays;
  }

  lemma FieldsBySteps(secs: int)
    requires secs >= 0
    ensures secs / 60 / 60 / 24 == secs / 86400
    ensures secs / 60 / 60 % 24 == secs % 86400 / 3600
    ensures secs / 60 % 60 == secs % 86400 % 3600 / 60
    ensures secs % 60 == secs % 86400 % 60
  {
    var s, m := secs % 60, secs / 60 % 60;
    var h, d := secs / 60 / 60 % 24, secs / 60 / 60 / 24;
    assert secs == ((d * 24 + h) * 60 + m) * 60 + s;
    var rest := h * 3600 + m * 60 + s;
    assert secs == d * 86400 + rest && 0 <= rest < 86400;
    assert secs / 86400 == d && secs % 86400 == rest;
  }

  /** Fields and seconds determine each other, on all integers. */
  lemma FieldRoundTrip(secs: int)
    ensures SecondsOf(DateTimeOf(secs)) == secs
    ensures var t := DateTimeOf(secs);
            ValidDate(t.date) && 0 <= t.hour < 24 && 0 <= t.minute < 60 && 0 <= t.second < 60
  {
    DaysRoundTrip(secs / 86400);
    CivilIsValid(secs / 86400);
    DayPart(secs % 86400);
  }

  lemma DayPart(rest: int)
    requires 0 <= rest < 86400
    ensures rest / 3600 * 3600 + rest % 3600 / 60 * 60 + rest % 60 == rest
    ensures 0 <= rest / 3600 < 24 && 0 <= rest % 3600 / 60 < 60
  {
    assert rest % 3600 % 60 == rest % 60;
  }

  // ---------------------------------------------------------------------------
  // Numbers as text
  // ---------------------------------------------------------------------------

  function DigitChar(d: nat): char
    requires d < 10
  {
    "0123456789"[d]
  }

  predicate IsDigit(c: char) {
    '0' <= c <= '9'
  }

  function Decimal(n: nat): (s: string)
    ensures |s| > 0
    ensures forall i | 0 <= i < |s| :: IsDigit(s[i])
  {
    if n < 10 then [DigitChar(n)] else Decimal(n / 10) + [DigitChar(n % 10)]
  }

  function Zeros(k: nat): (s: string)
    ensures |s| == k && forall i | 0 <= i < k :: s[i] == '0'
  {
    if k == 0 then "" else "0" + Zeros(k - 1)
  }

  /** Decimal digits, filled with zeros on the left up to the width. */
  function Padded(n: nat, width: nat): (s: string)
    ensures |s| >= width
    ensures forall i | 0 <= i < |s| :: IsDigit(s[i])
  {
    var s := Decimal(n);
    if |s| < width then Zeros(width - |s|) + s else s
  }

  /** The sign counts towards the width, as in the `{:04}` format of the source. */
  function SignedPadded(n: int, width: nat): string {
    if n >= 0 then Padded(n, width)
    else "-" + Padded(-n, if width > 0 then width - 1 else 0)
  }

  /** One or more digits, most significant first. */
  function ParseDigits(s: string): Option<nat> {
    if s == "" || !IsDigit(s[|s| - 1]) then None
    else
      var d := s[|s| - 1] as nat - '0' as nat;
      if |s| == 1 then Some(d)
      else
        match ParseDigits(s[..|s| - 1])
        case None => None
        case Some(n) => Some(10 * n + d)
  }

  function Negated(n: int): int { -n }

  /** Integer parsing of the standard library: an optional plus sign, and a minus sign for
      signed types. */
  function ParseNumber(s: string, signed: bool): Option<int> {
    if s == "" then None
    else if s[0] == '+' then ParseDigits(s[1..])
    else if s[0] == '-' && signed then
      var digits := ParseDigits(s[1..]);
      if digits.None? then None else Some(Negated(digits.value))
    else ParseDigits(s)
  }

  lemma {:induction false} ParseDecimal(n: nat)
    ensures ParseDigits(Decimal(n)) == Some(n)
  {
    var s := Decimal(n);
    if n >= 10 {
      ParseDecimal(n / 10);
      assert s[..|s| - 1] == Decimal(n / 10);
    }
    assert forall d: nat | d < 10 :: DigitChar(d) as nat == '0' as nat + d;
  }

  lemma {:induction false} ParseLeadingZero(s: string)
    requires ParseDigits(s).Some?
    ensures ParseDigits("0" + s) == ParseDigits(s)
  {
    if |s| == 1 {
      assert ("0" + s)[..1] == "0";
      assert ParseDigits("0") == Some(0);
    } else {
      ParseLeadingZero(s[..|s| - 1]);
      assert ("0" + s)[..|s|] == "0" + s[..|s| - 1];
    }
  }

  lemma {:induction false} ParseZeros(k: nat, s: string)
    requires ParseDigits(s).Some?
    ensures ParseDigits(Zeros(k) + s) == ParseDigits(s)
  {
    if k == 0 {
      assert Zeros(0) + s == s;
    } else {
      ParseZeros(k - 1, s);
      assert Zeros(k) + s == "0" + (Zeros(k - 1) + s);
      ParseLeadingZero(Zeros(k - 1) + s);
    }
  }

  lemma ParsePaddedDigits(n: nat, width: nat)
    ensures ParseDigits(Padded(n, width)) == Some(n)
  {
    var s := Decimal(n);
    ParseDecimal(n);
    if |s| < width {
      ParseZeros(width - |s|, s);
    }
  }

  /** Printing a number and parsing it gives the number back. */
  lemma ParsePadded(n: int, width: nat)
    ensures ParseNumber(SignedPadded(n, width), true) == Some(n)
    ensures n >= 0 ==> ParseNumber(SignedPadded(n, width), false) == Some(n)
  {
    var s := SignedPadded(n, width);
    if n >= 0 {
      ParsePaddedDigits(n, width);
      assert IsDigit(s[0]) by { ParsePaddedNonempty(n, width); }
    } else {
      var w := if width > 0 then width - 1 else 0;
      ParsePaddedDigits(-n, w);
      assert s[1..] == Padded(-n, w);
    }
  }

  lemma ParsePaddedNonempty(n: nat, width: nat)
    ensures Padded(n, width) != ""
  {
  }

  lemma {:induction false} DecimalLength(n: nat, bound: nat, k: nat)
    requires k > 0 && bound == Pow10(k)
    ensures |Decimal(n)| <= k <==> n < bound
    decreases k
  {
    if k == 1 {
      assert bound == 10 * Pow10(0);
    } else if n >= 10 {
      DecimalLength(n / 10, Pow10(k - 1), k - 1);
    } else {
      assert bound == 10 * Pow10(k - 1);
    }
  }

  function Pow10(k: nat): (p: nat)
    ensures p > 0
  {
    if k == 0 then 1 else 10 * Pow10(k - 1)
  }

  /** When the printed year takes exactly four characters. */
  lemma YearWidth(y: int)
    ensures |SignedPadded(y, 4)| >= 4
    ensures |SignedPadded(y, 4)| == 4 <==> -999 <= y <= 9999
    ensures IsDigit(SignedPadded(y, 4)[|SignedPadded(y, 4)| - 1])
    ensures |SignedPadded(y, 4)| > 4 ==> IsDigit(SignedPadded(y, 4)[4])
  {
    assert Pow10(3) == 1000 && Pow10(4) == 10000 by {
      assert Pow10(1) == 10 && Pow10(2) == 100;
    }
    if y >= 0 {
      DecimalLength(y, 10000, 4);
    } else {
      DecimalLength(-y, 1000, 3);
    }
  }

  lemma PaddedWidth(n: nat, k: nat)
    requires k > 0 && n < Pow10(k)
    ensures |Padded(n, k)| == k
  {
    DecimalLength(n, Pow10(k), k);
  }

  // ---------------------------------------------------------------------------
  // Printing
  // ---------------------------------------------------------------------------

  function DateText(t: DateTime): string
    requires t.date.month >= 0 && t.date.day >= 0
  {
    SignedPadded(t.date.year, 4) + "-" + Padded(t.date.month, 2) + "-" + Padded(t.date.day, 2)
  }

  function TimeText(t: DateTime): string
    requires t.hour >= 0 && t.minute >= 0 && t.second >= 0
  {
    Padded(t.hour, 2) + ":" + Padded(t.minute, 2) + ":" + Padded(t.second, 2)
  }

  ghost predicate Printable(t: DateTime) {
    && 0 <= t.date.month < 100 && 0 <= t.date.day < 100
    && 0 <= t.hour < 100 && 0 <= t.minute < 100 && 0 <= t.second < 100
  }

  function TimestampText(t: DateTime, ms: nat): string
    requires t.date.month >= 0 && t.date.day >= 0 && t.hour >= 0 && t.minute >= 0 && t.second >= 0
  {
    DateText(t) + "T" + TimeText(t) + "." + Padded(ms, 3) + "Z"
  }

  lemma FloorMillis(millis: int)
    ensures millis < 0 ==> Quot(millis - 999, 1000) == millis / 1000
    ensures millis - millis / 1000 * 1000 == millis % 1000
  {
    hide Quot;
    QuotBounds(millis - 999, 1000);
  }

  method FormatMillis(millis: int) returns (text: string)
    ensures Printable(DateTimeOf(millis / 1000))
    ensures text == TimestampText(DateTimeOf(millis / 1000), millis % 1000)
  {
    hide *;
    FloorMillis(millis);
    var totalSecs, msPart;
    if millis >= 0 {
      totalSecs, msPart := millis / 1000, millis % 1000;
    } else {
      totalSecs := Quot(millis - 999, 1000);
      msPart := millis - totalSecs * 1000;
    }
    var t := EpochSecsToDatetime(totalSecs);
    FieldsOfTime(t, totalSecs);
    PrintableFields(totalSecs);
    text := TimestampText(t, msPart);
  }

  lemma PrintableFields(secs: int)
    ensures Printable(DateTimeOf(secs))
  {
    FieldRoundTrip(secs);
  }

  // ---------------------------------------------------------------------------
  // Parsing
  // ---------------------------------------------------------------------------

  /** The White_Space property of Unicode, which the source's `trim` removes. */
  predicate IsSpace(c: char) {
    || c == ' ' || '\t' <= c <= '\r'
    || c == '\U{85}' || c == '\U{A0}' || c == '\U{1680}' || '\U{2000}' <= c <= '\U{200A}'
    || c == '\U{2028}' || c == '\U{2029}' || c == '\U{202F}' || c == '\U{205F}' || c == '\U{3000}'
  }

  function TrimLeft(s: string): string {
    if s != "" && IsSpace(s[0]) then TrimLeft(s[1..]) else s
  }

  function TrimRight(s: string): string {
    if s != "" && IsSpace(s[|s| - 1]) then TrimRight(s[..|s| - 1]) else s
  }

  function Field(s: string, signed: bool, error: Error): (r: Result<int>)
    ensures r.Ok? <==> ParseNumber(s, signed).Some?
  {
    match ParseNumber(s, signed)
    case None => Err(error)
    case Some(n) => Ok(n)
  }

  function ParseDate(s: string): Result<Date>
    requires |s| >= 10
  {
    var year :- Field(s[0..4], true, InvalidYear);
    if s[4] != '-' then Err(InvalidDatetime) else
    var month :- Field(s[5..7], false, InvalidMonth);
    if s[7] != '-' then Err(InvalidDatetime) else
    var day :- Field(s[8..10], false, InvalidDay);
    if 1 <= month <= 12 && 1 <= day <= 31 then Ok(Date(year, month, day))
    else Err(InvalidDateValues)
  }

  /** The zone offset in minutes; no suffix and `Z` both mean UTC. */
  function ParseZone(s: string): Result<int> {
    if s == "" || s == "Z" then Ok(0)
    else if |s| == 6 && (s[0] == '+' || s[0] == '-') then
      var hours :- Field(s[1..3], true, InvalidTimezoneHour);
      var minutes :- Field(s[4..6], true, InvalidTimezoneMinute);
      Ok((if s[0] == '+' then 1 else -1) * (hours * 60 + minutes))
    else Err(InvalidTimezone)
  }

  /** Seconds after midnight, UTC: the time of day less the zone offset. */
  function ParseTime(s: string): Result<int> {
    if s == "" then Ok(0)
    else if s[0] != 'T' then Err(ExpectedT)
    else if |s| < 9 then Err(IncompleteTime)
    else
      var hour :- Field(s[1..3], false, InvalidHour);
      if s[3] != ':' then Err(InvalidTimeFormat) else
      var minute :- Field(s[4..6], false, InvalidMinute);
      if s[6] != ':' then Err(InvalidTimeFormat) else
      var second :- Field(s[7..9], false, InvalidSecond);
      var offset :- ParseZone(s[9..]);
      Ok(hour * 3600 + minute * 60 + second - offset * 60)
  }

  function Instant(date: Date, secs: int): int {
    (DaysFromCivil(date) * 86400 + secs) * 1000
  }

  lemma InstantOfFields(t: DateTime, zone: int)
    ensures Instant(t.date, t.hour * 3600 + t.minute * 60 + t.second - zone * 60)
         == (SecondsOf(t) - zone * 60) * 1000
  {
  }

  function ParseTimestamp(text: string): Result<int> {
    var s := TrimRight(TrimLeft(text));
    if |s| < 10 then Err(InvalidDatetime) else
    var date :- ParseDate(s);
    var secs :- ParseTime(s[10..]);
    Ok(Instant(date, secs))
  }

  /** The parser as the source runs it, one pass over byte offsets with mutable fields. */
  method ParseIso8601(text: string) returns (r: Result<int>)
    ensures r == ParseTimestamp(text)
  {
    hide ParseNumber, DaysFromCivil, TrimLeft, TrimRight;
    var s := TrimRight(TrimLeft(text));
    if |s| < 10 { return Err(InvalidDatetime); }
    var y := ParseNumber(s[0..4], true);
    if y.None? { return Err(InvalidYear); }
    if s[4] != '-' { return Err(InvalidDatetime); }
    var mo := ParseNumber(s[5..7], false);
    if mo.None? { return Err(InvalidMonth); }
    if s[7] != '-' { return Err(InvalidDatetime); }
    var d := ParseNumber(s[8..10], false);
    if d.None? { return Err(InvalidDay); }
    if !(1 <= mo.value <= 12) || !(1 <= d.value <= 31) { return Err(InvalidDateValues); }
    var hour, minute, second, offset := 0, 0, 0, 0;
    var rest := s[10..];
    if rest != "" {
      if rest[0] != 'T' { return Err(ExpectedT); }
      var time := rest[1..];
      if |time| < 8 { return Err(IncompleteTime); }
      assert time[0..2] == rest[1..3] && time[3..5] == rest[4..6] && time[6..8] == rest[7..9];
      var field := ParseNumber(time[0..2], false);
      if field.None? { return Err(InvalidHour); }
      hour := field.value;
      if time[2] != ':' { return Err(InvalidTimeFormat); }
      field := ParseNumber(time[3..5], false);
      if field.None? { return Err(InvalidMinute); }
      minute := field.value;
      if time[5] != ':' { return Err(InvalidTimeFormat); }
      field := ParseNumber(time[6..8], false);
      if field.None? { return Err(InvalidSecond); }
      second := field.value;
      var zone := time[8..];
      assert zone == rest[9..];
      if zone != "" {
        if zone == "Z" {
        } else if |zone| == 6 && (zone[0] == '+' || zone[0] == '-') {
          var sign := if zone[0] == '+' then 1 else -1;
          var zoneHour := ParseNumber(zone[1..3], true);
          if zoneHour.None? { return Err(InvalidTimezoneHour); }
          var zoneMinute := ParseNumber(zone[4..6], true);
          if zoneMinute.None? { return Err(InvalidTimezoneMinute); }
          offset := sign * (zoneHour.value * 60 + zoneMinute.value);
        } else {
          return Err(InvalidTimezone);
        }
      }
    }
    var days := DaysFromCivil(Date(y.value, mo.value, d.value));
    var totalSeconds := days * 86400 + hour * 3600 + minute * 60 + second - offset * 60;
    return Ok(totalSeconds * 1000);
  }

  // ---------------------------------------------------------------------------
  // Round trip
  // ---------------------------------------------------------------------------

  lemma TrimNothing(s: string)
    requires s != "" && !IsSpace(s[0]) && !IsSpace(s[|s| - 1])
    ensures TrimRight(TrimLeft(s)) == s
  {
  }

  lemma TimeTextShape(t: DateTime)
    requires 0 <= t.hour < 24 && 0 <= t.minute < 60 && 0 <= t.second < 60
    ensures var s := TimeText(t);
            && |s| == 8 && s[2] == ':' && s[5] == ':'
            && ParseNumber(s[0..2], false) == Some(t.hour)
            && ParseNumber(s[3..5], false) == Some(t.minute)
            && ParseNumber(s[6..8], false) == Some(t.second)
            && IsDigit(s[7])
  {
    var s := TimeText(t);
    assert Pow10(2) == 100 by { assert Pow10(1) == 10; }
    PaddedWidth(t.hour, 2); PaddedWidth(t.minute, 2); PaddedWidth(t.second, 2);
    assert s[0..2] == Padded(t.hour, 2);
    assert s[3..5] == Padded(t.minute, 2);
    assert s[6..8] == Padded(t.second, 2);
    ParsePadded(t.hour, 2); ParsePadded(t.minute, 2); ParsePadded(t.second, 2);
  }

  /** The printed time of day, followed by any suffix, parses as that time in the zone the
      suffix stands for. */
  lemma ParseTimeText(t: DateTime, suffix: string)
    requires 0 <= t.hour < 24 && 0 <= t.minute < 60 && 0 <= t.second < 60
    ensures var zone := ParseZone(suffix);
            ParseTime("T" + TimeText(t) + suffix) ==
            if zone.Err? then Err(zone.error)
            else Ok(t.hour * 3600 + t.minute * 60 + t.second - zone.value * 60)
  {
    TimeTextShape(t);
    var time := TimeText(t);
    var s := "T" + time + suffix;
    assert s[1..3] == time[0..2] && s[4..6] == time[3..5] && s[7..9] == time[6..8];
    assert s[9..] == suffix;
  }

  lemma ParseDateText(t: DateTime, rest: string)
    requires ValidDate(t.date)
    ensures |DateText(t) + rest| >= 10
    ensures ParseDate(DateText(t) + rest) ==
            if -999 <= t.date.year <= 9999 then Ok(t.date) else Err(InvalidDatetime)
    ensures -999 <= t.date.year <= 9999 ==> |DateText(t)| == 10
    ensures IsDigit(DateText(t)[0]) || DateText(t)[0] == '-'
  {
    var year := SignedPadded(t.date.year, 4);
    var s := DateText(t) + rest;
    assert Pow10(2) == 100 by { assert Pow10(1) == 10; }
    YearWidth(t.date.year);
    PaddedWidth(t.date.month, 2); PaddedWidth(t.date.day, 2);
    if -999 <= t.date.year <= 9999 {
      assert s[0..4] == year;
      assert s[5..7] == Padded(t.date.month, 2);
      assert s[8..10] == Padded(t.date.day, 2);
      ParsePadded(t.date.year, 4); ParsePadded(t.date.month, 2); ParsePadded(t.date.day, 2);
    } else {
      assert s[4] == year[4];
      YearPrefixParses(t.date.year);
      assert s[0..4] == year[0..4];
    }
  }

  /** A year that is too wide is cut to four characters, which still are a number. */
  lemma YearPrefixParses(y: int)
    requires |SignedPadded(y, 4)| > 4
    ensures ParseNumber(SignedPadded(y, 4)[0..4], true).Some?
  {
    var s := SignedPadded(y, 4)[0..4];
    if y >= 0 {
      DigitsParse(s);
    } else {
      assert forall i | 1 <= i < 4 :: s[i] == Padded(-y, 3)[i - 1];
      DigitsParse(s[1..]);
    }
  }

  lemma {:induction false} DigitsParse(s: string)
    requires s != "" && forall i | 0 <= i < |s| :: IsDigit(s[i])
    ensures ParseDigits(s).Some?
  {
    if |s| > 1 {
      DigitsParse(s[..|s| - 1]);
    }
  }

  ghost predicate ValidFields(t: DateTime) {
    ValidDate(t.date) && 0 <= t.hour < 24 && 0 <= t.minute < 60 && 0 <= t.second < 60
  }

  /** Printed text with any suffix after the seconds, parsed back. */
  lemma ParsePrinted(t: DateTime, suffix: string)
    requires ValidFields(t)
    requires suffix == "" || !IsSpace(suffix[|suffix| - 1])
    ensures var text := DateText(t) + "T" + TimeText(t) + suffix;
            var zone := ParseZone(suffix);
            ParseTimestamp(text) ==
            if !(-999 <= t.date.year <= 9999) then Err(InvalidDatetime)
            else if zone.Err? then Err(zone.error)
            else Ok((SecondsOf(t) - zone.value * 60) * 1000)
  {
    hide DateText, TimeText, ParseDate, ParseTime, ParseZone, Instant, SecondsOf, TrimLeft, TrimRight, ParseNumber;
    var tail := "T" + TimeText(t) + suffix;
    var text := DateText(t) + "T" + TimeText(t) + suffix;
    assert text == DateText(t) + tail;
    TimeTextShape(t);
    ParseDateText(t, tail);
    assert tail[|tail| - 1] == if suffix == "" then TimeText(t)[7] else suffix[|suffix| - 1];
    TrimNothing(text);
    if -999 <= t.date.year <= 9999 {
      assert text[10..] == tail;
      ParseTimeText(t, suffix);
      var zone := ParseZone(suffix);
      if zone.Ok? {
        InstantOfFields(t, zone.value);
      }
    }
  }

  lemma TextHead(t: DateTime, ms: nat)
    requires ValidFields(t)
    ensures var text := TimestampText(t, ms);
            && |text| >= 24 && DateText(t) <= text
            && (|DateText(t)| == 10 ==> text[..19] == DateText(t) + "T" + TimeText(t) + "")
  {
    var text := TimestampText(t, ms);
    TimeTextShape(t);
    ParseDateText(t, "");
    assert DateText(t) + "" == DateText(t);
  }

  lemma PrintedRoundTrip(t: DateTime, ms: nat, secs: int)
    requires ValidFields(t) && ms < 1000 && SecondsOf(t) == secs
    ensures var text := TimestampText(t, ms);
            && |text| >= 24
            && (-999 <= t.date.year <= 9999 ==> ParseTimestamp(text[..19]) == Ok(secs * 1000))
            && (!(-999 <= t.date.year <= 9999) ==> ParseTimestamp(text[..19]).Err?)
  {
    TextHead(t, ms);
    DateWidth(t);
    if -999 <= t.date.year <= 9999 {
      ParsePrinted(t, "");
    } else {
      WideYearRejected(TimestampText(t, ms), t);
    }
  }

  lemma DateWidth(t: DateTime)
    requires ValidDate(t.date)
    ensures |DateText(t)| >= 10
    ensures |DateText(t)| == 10 <==> -999 <= t.date.year <= 9999
  {
    assert Pow10(2) == 100 by { assert Pow10(1) == 10; }
    YearWidth(t.date.year);
    PaddedWidth(t.date.month, 2); PaddedWidth(t.date.day, 2);
  }

  /** Main result. For every millisecond count, including those before the epoch, the first
      19 characters of its text parse to the count floored to a whole second exactly when
      the year takes four characters, that is from -999 to 9999. */
  lemma TimestampRoundTrip(millis: int)
    ensures Printable(DateTimeOf(millis / 1000))
    ensures var t := DateTimeOf(millis / 1000);
            var text := TimestampText(t, millis % 1000);
            && |text| >= 24
            && (ParseTimestamp(text[..19]) == Ok(millis / 1000 * 1000)
                <==> -999 <= t.date.year <= 9999)
  {
    FieldRoundTrip(millis / 1000);
    PrintedRoundTrip(DateTimeOf(millis / 1000), millis % 1000, millis / 1000);
  }

  lemma WideYearRejected(text: string, t: DateTime)
    requires ValidDate(t.date) && !(-999 <= t.date.year <= 9999)
    requires |text| >= 19 && |DateText(t)| > 10 && DateText(t) <= text
    ensures ParseTimestamp(text[..19]).Err?
  {
    hide ParseTime, Instant, ValidDate, ParseNumber, ParseDate, Padded, TrimRight, TrimLeft;
    var s := text[..19];
    YearWidth(t.date.year);
    var year := SignedPadded(t.date.year, 4);
    assert s[0] == year[0] && s[4] == year[4];
    assert !IsSpace(s[0]) by { FirstCharacter(t.date.year); }
    TrimLeftKeeps(s);
    PrefixSurvivesTrim(s, 5);
    assert TrimRight(s)[4] == TrimRight(s)[..5][4];
    NoDashNoDate(TrimRight(s));
  }

  lemma FirstCharacter(y: int)
    ensures |SignedPadded(y, 4)| > 0 && (IsDigit(SignedPadded(y, 4)[0]) || SignedPadded(y, 4)[0] == '-')
  {
    YearWidth(y);
  }

  lemma NoDashNoDate(s: string)
    requires |s| >= 5 && IsDigit(s[4])
    ensures |s| >= 10 ==> ParseDate(s).Err?
  {
    hide ParseNumber;
  }

  lemma TrimLeftKeeps(s: string)
    requires s != "" && !IsSpace(s[0])
    ensures TrimLeft(s) == s
  {
  }

  /** Trimming on the right cannot remove a character that is not a space, nor those
      before it. */
  lemma {:induction false} PrefixSurvivesTrim(s: string, k: nat)
    requires 0 < k <= |s| && !IsSpace(s[k - 1])
    ensures |TrimRight(s)| >= k && TrimRight(s)[..k] == s[..k]
  {
    if IsSpace(s[|s| - 1]) {
      PrefixSurvivesTrim(s[..|s| - 1], k);
    }
  }

  /** The text as printed, with its millisecond part, is never accepted by the parser. */
  lemma FullTextRejected(t: DateTime, ms: nat)
    requires ValidFields(t) && ms < 1000
    ensures ParseTimestamp(TimestampText(t, ms)).Err?
  {
    var suffix := "." + Padded(ms, 3) + "Z";
    assert Pow10(3) == 1000 by { assert Pow10(1) == 10 && Pow10(2) == 100; }
    PaddedWidth(ms, 3);
    ParsePrinted(t, suffix);
    assert TimestampText(t, ms) == DateText(t) + "T" + TimeText(t) + suffix;
  }

  lemma ZoneSuffix(ahead: bool, hours: nat, minutes: nat)
    requires hours < 100 && minutes < 100
    ensures var suffix := (if ahead then "+" else "-") + Padded(hours, 2) + ":" + Padded(minutes, 2);
            && |suffix| == 6 && IsDigit(suffix[5])
            && ParseZone(suffix) == Ok((if ahead then 1 else -1) * (hours * 60 + minutes))
  {
    hide Padded, ParseNumber;
    var suffix := (if ahead then "+" else "-") + Padded(hours, 2) + ":" + Padded(minutes, 2);
    assert Pow10(2) == 100 by { assert Pow10(1) == 10; }
    PaddedWidth(hours, 2); PaddedWidth(minutes, 2);
    assert suffix[1..3] == SignedPadded(hours, 2) == Padded(hours, 2);
    assert suffix[4..6] == SignedPadded(minutes, 2) == Padded(minutes, 2);
    ParsePadded(hours, 2); ParsePadded(minutes, 2);
  }

  /** A zone suffix shifts the parsed instant by the offset it names. */
  lemma ZoneShift(t: DateTime, ahead: bool, hours: nat, minutes: nat)
    requires ValidFields(t) && -999 <= t.date.year <= 9999
    requires hours < 100 && minutes < 100
    ensures var suffix := (if ahead then "+" else "-") + Padded(hours, 2) + ":" + Padded(minutes, 2);
            ParseTimestamp(DateText(t) + "T" + TimeText(t) + suffix)
            == Ok((SecondsOf(t) - (if ahead then 1 else -1) * (hours * 60 + minutes) * 60) * 1000)
  {
    hide Padded, ParseZone, ParseTimestamp, SecondsOf, DateText, TimeText;
    ZoneSuffix(ahead, hours, minutes);
    ParsePrinted(t, (if ahead then "+" else "-") + Padded(hours, 2) + ":" + Padded(minutes, 2));
  }
}
