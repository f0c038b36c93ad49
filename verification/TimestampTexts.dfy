/** What timestamp text says, place by place: which texts the parser accepts and with what
    value, and where the printer writes what. */
module TimestampTexts {
  import opened Wrappers
  import opened Calendar
  import opened Timestamps

  // ---------------------------------------------------------------------------
  // Numbers
  // ---------------------------------------------------------------------------

  predicate AllDigits(s: string) {
    s != "" && forall i | 0 <= i < |s| :: '0' <= s[i] <= '9'
  }

  /** The decimal value, the leftmost digit weighing most. */
  function Weight(s: string): int {
    if s == "" then 0 else (s[0] as int - '0' as int) * Pow10(|s| - 1) + Weight(s[1..])
  }

  /** Digits, a plus sign and digits, or for signed fields a minus sign and digits. */
  predicate Says(s: string, signed: bool, n: int) {
    || (AllDigits(s) && n == Weight(s))
    || (s != "" && s[0] == '+' && AllDigits(s[1..]) && n == Weight(s[1..]))
    || (signed && s != "" && s[0] == '-' && AllDigits(s[1..]) && n == 0 - Weight(s[1..]))
  }

  lemma {:induction false} WeightOfLast(s: string, c: char)
    ensures Weight(s + [c]) == 10 * Weight(s) + (c as int - '0' as int)
  {
    if s == "" {
      assert Weight([c]) == (c as int - '0' as int) * Pow10(0) + Weight([c][1..]);
    } else {
      var d, p := s[0] as int - '0' as int, Pow10(|s| - 1);
      WeightOfLast(s[1..], c);
      assert (s + [c])[1..] == s[1..] + [c];
      assert Pow10(|s|) == 10 * p;
      assert d * (10 * p) == 10 * (d * p);
    }
  }

  lemma {:induction false} DigitsSay(s: string)
    ensures ParseDigits(s).Some? <==> AllDigits(s)
    ensures AllDigits(s) ==> ParseDigits(s) == Some(Weight(s))
  {
    if s != "" {
      var front, last := s[..|s| - 1], s[|s| - 1];
      assert s == front + [last];
      DigitsSay(front);
      WeightOfLast(front, last);
      if AllDigits(front) && IsDigit(last) {
        assert forall i | 0 <= i < |s| :: s[i] == if i < |front| then front[i] else last;
      }
      if front != "" && AllDigits(s) {
        assert forall i | 0 <= i < |front| :: front[i] == s[i];
      }
    }
  }

  lemma NumberSays(s: string, signed: bool, n: int)
    ensures ParseNumber(s, signed) == Some(n) <==> Says(s, signed, n)
  {
    DigitsSay(s);
    if s != "" {
      DigitsSay(s[1..]);
    }
  }

  // ---------------------------------------------------------------------------
  // What is accepted
  // ---------------------------------------------------------------------------

  /** `text` without the spaces around it. */
  ghost predicate Trims(text: string, s: string) {
    && (exists a, b :: text == a + s + b && (forall i | 0 <= i < |a| :: IsSpace(a[i])) && (forall i | 0 <= i < |b| :: IsSpace(b[i])))
    && (s != "" ==> !IsSpace(s[0]) && !IsSpace(s[|s| - 1]))
  }

  /** The fields of a text: year, month, day, hour, minute and second, with the zone in minutes
      east of Greenwich. */
  datatype Fields = Fields(year: int, month: int, day: int, hour: int, minute: int, second: int, zone: int)

  /** `YYYY-MM-DD`. */
  predicate DateSays(s: string, f: Fields) {
    && |s| >= 10 && s[4] == '-' && s[7] == '-'
    && Says(s[0..4], true, f.year) && Says(s[5..7], false, f.month) && Says(s[8..10], false, f.day)
    && 1 <= f.month <= 12 && 1 <= f.day <= 31
  }

  /** `THH:MM:SS` from the tenth place on. */
  predicate TimeSays(s: string, f: Fields) {
    && |s| >= 19 && s[10] == 'T' && s[13] == ':' && s[16] == ':'
    && Says(s[11..13], false, f.hour) && Says(s[14..16], false, f.minute) && Says(s[17..19], false, f.second)
  }

  /** Nothing or `Z` for UTC; `+HH:MM` or `-HH:MM`, where any character may stand for the
      colon, and both numbers may have a sign of their own. */
  ghost predicate ZoneSays(zone: string, minutes: int) {
    || ((zone == "" || zone == "Z") && minutes == 0)
    || (|zone| == 6 && (zone[0] == '+' || zone[0] == '-')
        && exists h, m :: Says(zone[1..3], true, h) && Says(zone[4..6], true, m)
             && minutes == if zone[0] == '+' then h * 60 + m else 0 - (h * 60 + m))
  }

  /** A date alone is midnight, UTC. */
  ghost predicate TextSays(s: string, f: Fields) {
    && DateSays(s, f)
    && (if |s| == 10 then f.hour == 0 && f.minute == 0 && f.second == 0 && f.zone == 0
        else TimeSays(s, f) && ZoneSays(s[19..], f.zone))
  }

  /** Milliseconds since the epoch. Day numbers are those of module Calendar. */
  function MillisOf(f: Fields): int {
    (DaysFromCivil(Date(f.year, f.month, f.day)) * 86400 + f.hour * 3600 + f.minute * 60 + f.second - f.zone * 60) * 1000
  }

  lemma TrimsTo(text: string)
    ensures Trims(text, TrimRight(TrimLeft(text)))
  {
    var a := LeftSpaces(text);
    var b := RightSpaces(TrimLeft(text));
    assert text == a + TrimRight(TrimLeft(text)) + b;
    LeftEdge(text);
    RightEdge(TrimLeft(text));
  }

  lemma {:induction false} LeftSpaces(s: string) returns (a: string)
    ensures s == a + TrimLeft(s) && forall i | 0 <= i < |a| :: IsSpace(a[i])
  {
    if s != "" && IsSpace(s[0]) {
      var more := LeftSpaces(s[1..]);
      a := [s[0]] + more;
    } else {
      a := "";
    }
  }

  lemma {:induction false} RightSpaces(s: string) returns (b: string)
    ensures s == TrimRight(s) + b && forall i | 0 <= i < |b| :: IsSpace(b[i])
  {
    if s != "" && IsSpace(s[|s| - 1]) {
      var more := RightSpaces(s[..|s| - 1]);
      b := more + [s[|s| - 1]];
    } else {
      b := "";
    }
  }

  lemma {:induction false} LeftEdge(s: string)
    ensures TrimLeft(s) != "" ==> !IsSpace(TrimLeft(s)[0])
  {
    if s != "" && IsSpace(s[0]) {
      LeftEdge(s[1..]);
    }
  }

  lemma {:induction false} RightEdge(s: string)
    ensures TrimRight(s) != "" ==> !IsSpace(TrimRight(s)[|TrimRight(s)| - 1]) && TrimRight(s)[0] == s[0]
  {
    if s != "" && IsSpace(s[|s| - 1]) {
      RightEdge(s[..|s| - 1]);
    }
  }

  /** There is only one way to take the spaces off. */
  lemma TrimIsUnique(text: string, s: string, t: string)
    requires Trims(text, s) && Trims(text, t)
    ensures s == t
  {
    var a, b :| text == a + s + b && (forall i | 0 <= i < |a| :: IsSpace(a[i])) && (forall i | 0 <= i < |b| :: IsSpace(b[i]));
    var c, d :| text == c + t + d && (forall i | 0 <= i < |c| :: IsSpace(c[i])) && (forall i | 0 <= i < |d| :: IsSpace(d[i]));
    hide IsSpace;
    Edges(text, a, s, b);
    Edges(text, c, t, d);
    assert s == text[|a|..|a| + |s|] && t == text[|c|..|c| + |t|];
  }

  /** Where the first and the last character are that is no space. */
  lemma Edges(text: string, a: string, s: string, b: string)
    requires text == a + s + b && (forall i | 0 <= i < |a| :: IsSpace(a[i])) && (forall i | 0 <= i < |b| :: IsSpace(b[i]))
    requires s != "" ==> !IsSpace(s[0]) && !IsSpace(s[|s| - 1])
    ensures forall i | 0 <= i < |a| || |a| + |s| <= i < |text| :: IsSpace(text[i])
    ensures s != "" ==> !IsSpace(text[|a|]) && !IsSpace(text[|a| + |s| - 1])
    ensures s == text[|a|..|a| + |s|]
  {
    hide IsSpace;
    assert forall i | |a| + |s| <= i < |text| :: text[i] == b[i - |a| - |s|];
  }

  lemma DateIs(s: string, f: Fields)
    requires |s| >= 10
    ensures ParseDate(s) == Ok(Date(f.year, f.month, f.day)) <==> DateSays(s, f)
  {
    hide ParseNumber, Says;
    NumberSays(s[0..4], true, f.year);
    NumberSays(s[5..7], false, f.month);
    NumberSays(s[8..10], false, f.day);
  }

  lemma ZoneIs(zone: string, minutes: int)
    ensures ParseZone(zone) == Ok(minutes) <==> ZoneSays(zone, minutes)
  {
    hide ParseNumber, Says;
    if |zone| == 6 {
      forall n
        ensures ParseNumber(zone[1..3], true) == Some(n) <==> Says(zone[1..3], true, n)
        ensures ParseNumber(zone[4..6], true) == Some(n) <==> Says(zone[4..6], true, n)
      {
        NumberSays(zone[1..3], true, n);
        NumberSays(zone[4..6], true, n);
      }
    }
  }

  lemma TimeIs(s: string, f: Fields)
    requires |s| > 10
    requires TimeSays(s, f) && ZoneSays(s[19..], f.zone)
    ensures ParseTime(s[10..]) == Ok(f.hour * 3600 + f.minute * 60 + f.second - f.zone * 60)
  {
    hide ParseNumber, Says, ParseZone, ZoneSays;
    var t := s[10..];
    assert t[1..3] == s[11..13] && t[4..6] == s[14..16] && t[7..9] == s[17..19] && t[9..] == s[19..];
    NumberSays(s[11..13], false, f.hour);
    NumberSays(s[14..16], false, f.minute);
    NumberSays(s[17..19], false, f.second);
    ZoneIs(s[19..], f.zone);
  }

  /** The fields of an accepted time of day. */
  lemma TimeFound(s: string, f: Fields) returns (g: Fields)
    requires |s| > 10 && ParseTime(s[10..]).Ok?
    ensures g == f.(hour := g.hour, minute := g.minute, second := g.second, zone := g.zone)
    ensures TimeSays(s, g) && ZoneSays(s[19..], g.zone)
  {
    hide ParseNumber, Says, ParseZone, ZoneSays;
    var t := s[10..];
    assert t[1..3] == s[11..13] && t[4..6] == s[14..16] && t[7..9] == s[17..19] && t[9..] == s[19..];
    assert t[0] == s[10] && t[3] == s[13] && t[6] == s[16];
    g := f.(hour := ParseNumber(s[11..13], false).value, minute := ParseNumber(s[14..16], false).value,
            second := ParseNumber(s[17..19], false).value, zone := ParseZone(s[19..]).value);
    NumberSays(s[11..13], false, g.hour);
    NumberSays(s[14..16], false, g.minute);
    NumberSays(s[17..19], false, g.second);
    ZoneIs(s[19..], g.zone);
  }

  lemma DateFound(s: string) returns (f: Fields)
    requires |s| >= 10 && ParseDate(s).Ok?
    ensures DateSays(s, f) && f.hour == 0 && f.minute == 0 && f.second == 0 && f.zone == 0
  {
    var d := ParseDate(s).value;
    f := Fields(d.year, d.month, d.day, 0, 0, 0, 0);
    DateIs(s, f);
  }

  /** Main result. The parser accepts a text exactly when, without the spaces around it, it says
      some fields place by place, and the value is that of these fields. */
  lemma ParsedIsSaid(text: string, s: string, millis: int)
    requires Trims(text, s)
    ensures ParseTimestamp(text) == Ok(millis) <==> exists f :: TextSays(s, f) && millis == MillisOf(f)
  {
    hide ParseDate, ParseTime, DateSays, TimeSays, ZoneSays, DaysFromCivil, TrimLeft, TrimRight;
    TrimsTo(text);
    TrimIsUnique(text, s, TrimRight(TrimLeft(text)));
    hide Trims;
    forall f | TextSays(s, f)
      ensures ParseTimestamp(text) == Ok(MillisOf(f))
    {
      SaidIsParsed(s, f);
    }
    if ParseTimestamp(text) == Ok(millis) {
      var f := DateFound(s);
      if |s| > 10 {
        f := FieldsFound(s, f);
      }
      assert TextSays(s, f);
      SaidIsParsed(s, f);
    }
  }

  lemma FieldsFound(s: string, f: Fields) returns (g: Fields)
    requires |s| > 10 && DateSays(s, f) && ParseTime(s[10..]).Ok?
    ensures TextSays(s, g)
  {
    hide Says, ParseTime, ZoneSays;
    g := TimeFound(s, f);
  }

  lemma SaidIsParsed(s: string, f: Fields)
    requires TextSays(s, f)
    ensures |s| >= 10 && ParseDate(s) == Ok(Date(f.year, f.month, f.day)) && ParseTime(s[10..]).Ok?
    ensures Instant(Date(f.year, f.month, f.day), ParseTime(s[10..]).value) == MillisOf(f)
  {
    hide ParseDate, Says, ZoneSays, DaysFromCivil, ParseNumber, ParseZone;
    DateIs(s, f);
    if |s| == 10 {
      assert s[10..] == "";
    } else {
      TimeIs(s, f);
      hide ParseTime;
    }
  }

  // ---------------------------------------------------------------------------
  // What is printed
  // ---------------------------------------------------------------------------

  /** Digits alone. */
  predicate Spells(s: string, n: int) {
    AllDigits(s) && Weight(s) == n
  }

  lemma PaddedSpells(n: nat, width: nat)
    ensures Spells(Padded(n, width), n)
  {
    ParsePaddedDigits(n, width);
    DigitsSay(Padded(n, width));
  }

  /** Year, month, day, hour, minute, second and milliseconds at their places, with nothing but
      the marks between them. The year takes the first `k` characters. */
  predicate Printed(text: string, k: nat, f: Fields, ms: int) {
    && k >= 4 && |text| == k + 20
    && (if f.year >= 0 then Spells(text[..k], f.year) else text[0] == '-' && Spells(text[1..k], 0 - f.year))
    && text[k] == '-' && Spells(text[k + 1..k + 3], f.month) && text[k + 3] == '-' && Spells(text[k + 4..k + 6], f.day)
    && text[k + 6] == 'T' && Spells(text[k + 7..k + 9], f.hour)
    && text[k + 9] == ':' && Spells(text[k + 10..k + 12], f.minute) && text[k + 12] == ':' && Spells(text[k + 13..k + 15], f.second)
    && text[k + 15] == '.' && Spells(text[k + 16..k + 19], ms) && text[k + 19] == 'Z'
  }

  lemma YearSpells(y: int)
    ensures var s := SignedPadded(y, 4);
            && |s| >= 4 && (|s| == 4 <==> -999 <= y <= 9999)
            && if y >= 0 then Spells(s, y) else s[0] == '-' && Spells(s[1..], 0 - y)
  {
    hide Padded, Spells;
    YearWidth(y);
    if y >= 0 {
      PaddedSpells(y, 4);
    } else {
      PaddedSpells(-y, 3);
      assert SignedPadded(y, 4)[1..] == Padded(-y, 3);
    }
  }

  /** Cutting a concatenation where its parts meet. */
  lemma Parts(year: string, month: string, day: string, hour: string, minute: string, second: string, ms: string)
    requires |month| == 2 && |day| == 2 && |hour| == 2 && |minute| == 2 && |second| == 2 && |ms| == 3
    ensures var text := (year + "-" + month + "-" + day) + "T" + (hour + ":" + minute + ":" + second) + "." + ms + "Z";
            var k := |year|;
            && |text| == k + 20 && text[..k] == year
            && text[k] == '-' && text[k + 1..k + 3] == month && text[k + 3] == '-' && text[k + 4..k + 6] == day
            && text[k + 6] == 'T' && text[k + 7..k + 9] == hour
            && text[k + 9] == ':' && text[k + 10..k + 12] == minute && text[k + 12] == ':' && text[k + 13..k + 15] == second
            && text[k + 15] == '.' && text[k + 16..k + 19] == ms && text[k + 19] == 'Z'
  {
  }

  lemma TextIsPrinted(t: DateTime, ms: nat)
    requires ValidFields(t) && ms < 1000
    ensures var f := Fields(t.date.year, t.date.month, t.date.day, t.hour, t.minute, t.second, 0);
            Printed(TimestampText(t, ms), |SignedPadded(t.date.year, 4)|, f, ms)
  {
    assert Pow10(2) == 100 && Pow10(3) == 1000 by { assert Pow10(1) == 10; }
    PaddedWidth(t.date.month, 2); PaddedWidth(t.date.day, 2);
    PaddedWidth(t.hour, 2); PaddedWidth(t.minute, 2); PaddedWidth(t.second, 2); PaddedWidth(ms, 3);
    hide Padded, SignedPadded, Spells;
    Parts(SignedPadded(t.date.year, 4), Padded(t.date.month, 2), Padded(t.date.day, 2),
          Padded(t.hour, 2), Padded(t.minute, 2), Padded(t.second, 2), Padded(ms, 3));
    YearSpells(t.date.year);
    PaddedSpells(t.date.month, 2); PaddedSpells(t.date.day, 2);
    PaddedSpells(t.hour, 2); PaddedSpells(t.minute, 2); PaddedSpells(t.second, 2); PaddedSpells(ms, 3);
    var text, k := TimestampText(t, ms), |SignedPadded(t.date.year, 4)|;
    assert text[1..k] == text[..k][1..];
  }

  /** Main result. The printed text of any millisecond count says, place by place and in decimal
      digits, a valid calendar date, a time of day and the milliseconds that together are that
      count; its year takes four characters exactly from -999 to 9999. */
  lemma PrintedIsSaid(millis: int)
    ensures Printable(DateTimeOf(millis / 1000))
    ensures var t := DateTimeOf(millis / 1000);
            var f := Fields(t.date.year, t.date.month, t.date.day, t.hour, t.minute, t.second, 0);
            var k := |TimestampText(t, millis % 1000)| - 20;
            && k >= 4 && Printed(TimestampText(t, millis % 1000), k, f, millis % 1000)
            && MillisOf(f) + millis % 1000 == millis && ValidDate(t.date)
            && 0 <= f.hour < 24 && 0 <= f.minute < 60 && 0 <= f.second < 60
            && (k == 4 <==> -999 <= f.year <= 9999)
  {
    hide Printed, TimestampText, CivilFromDays, DaysFromCivil;
    FieldRoundTrip(millis / 1000);
    PrintableFields(millis / 1000);
    var t := DateTimeOf(millis / 1000);
    TextIsPrinted(t, millis % 1000);
    YearSpells(t.date.year);
    PrintedLength(TimestampText(t, millis % 1000), |SignedPadded(t.date.year, 4)|,
                  Fields(t.date.year, t.date.month, t.date.day, t.hour, t.minute, t.second, 0), millis % 1000);
  }

  lemma PrintedLength(text: string, k: nat, f: Fields, ms: int)
    requires Printed(text, k, f, ms)
    ensures |text| == k + 20
  {
  }
}
