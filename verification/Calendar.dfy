/** The proleptic Gregorian calendar of the two halves of the date code: the printing
    side turns a day number into a date, the parsing side turns a date into a day number.

    The source works on i64 with division truncated toward zero; the model is over all
    integers and writes that division out. */
module Calendar {

  /** The `/` of the source, truncated toward zero: how often `b` goes into `a`. */
  function Quot(a: int, b: int): int
    requires b > 0
    decreases if a < 0 then 1 - a else a
  {
    if a < 0 then -Quot(-a, b)
    else if a < b then 0
    else 1 + Quot(a - b, b)
  }

  lemma {:induction false} QuotBounds(a: int, b: int)
    requires b > 0
    ensures var q := Quot(a, b); if a >= 0 then q * b <= a < q * b + b else q * b - b < a <= q * b
    decreases if a < 0 then 1 - a else a
  {
    if a < 0 {
      QuotBounds(-a, b);
      assert Quot(a, b) * b == -(Quot(-a, b) * b);
    } else if a >= b {
      QuotBounds(a - b, b);
      assert (1 + Quot(a - b, b)) * b == b + Quot(a - b, b) * b;
    }
  }

  datatype Date = Date(year: int, month: int, day: int)

  lemma Multiples(q: int, b: int)
    requires b > 0
    ensures q >= 1 ==> q * b >= b
    ensures q <= -1 ==> q * b + b <= 0
  {
    assert q >= 1 ==> (q - 1) * b >= 0;
    assert q <= -1 ==> (q + 1) * b <= 0;
  }

  /** The one quotient that leaves a remainder below the divisor. */
  lemma {:induction false} QuotIs(a: int, b: int, q: int)
    requires b > 0 && a >= 0 && q * b <= a < q * b + b
    ensures Quot(a, b) == q
    decreases a
  {
    if a < b {
      Multiples(q, b);
    } else {
      assert (q - 1) * b == q * b - b;
      QuotIs(a - b, b, q - 1);
    }
  }

  // ---------------------------------------------------------------------------
  // The code
  // ---------------------------------------------------------------------------

  /** Day of the March-based year (0 is 1 March) to year, month and day. */
  function MonthDay(y: int, doy: int): Date {
    var mp := Quot(5 * doy + 2, 153);
    var d := doy - Quot(153 * mp + 2, 5) + 1;
    var m := if mp < 10 then mp + 3 else mp - 9;
    Date(if m <= 2 then y + 1 else y, m, d)
  }

  function EraOfDay(z: int): int {
    Quot(if z >= 0 then z else z - 146096, 146097)
  }

  function YearOfEra(doe: int): int {
    Quot(doe - Quot(doe, 1460) + Quot(doe, 36524) - Quot(doe, 146096), 365)
  }

  function DayOfYear(doe: int, yoe: int): int {
    doe - (365 * yoe + Quot(yoe, 4) - Quot(yoe, 100))
  }

  function CivilOfEraDay(era: int, doe: int): Date {
    var yoe := YearOfEra(doe);
    MonthDay(yoe + era * 400, DayOfYear(doe, yoe))
  }

  function CivilFromDays(days: int): Date {
    var z := days + 719468;
    var era := EraOfDay(z);
    CivilOfEraDay(era, z - era * 146097)
  }

  function EraOfYear(y: int): int {
    Quot(if y >= 0 then y else y - 399, 400)
  }

  function DayOfEra(yoe: int, doy: int): int {
    yoe * 365 + Quot(yoe, 4) - Quot(yoe, 100) + doy
  }

  /** The March-based calendar year of a date. */
  function MarchYear(date: Date): int {
    if date.month <= 2 then date.year - 1 else date.year
  }

  /** The day of that year, 1 March being day 0. */
  function MarchDay(date: Date): int {
    var m := if date.month <= 2 then date.month + 9 else date.month - 3;
    Quot(153 * m + 2, 5) + date.day - 1
  }

  function DaysFromCivil(date: Date): int {
    var y := MarchYear(date);
    var era := EraOfYear(y);
    era * 146097 + DayOfEra(y - era * 400, MarchDay(date)) - 719468
  }

  // ---------------------------------------------------------------------------
  // Reference definition: the leap-year rule of Appendix C of RFC 3339
  // ---------------------------------------------------------------------------

  predicate IsLeap(y: int) {
    y % 4 == 0 && (y % 100 != 0 || y % 400 == 0)
  }

  function DaysInMonth(y: int, m: int): int {
    if m == 2 then (if IsLeap(y) then 29 else 28)
    else if m == 4 || m == 6 || m == 9 || m == 11 then 30
    else 31
  }

  predicate ValidDate(date: Date) {
    1 <= date.month <= 12 && 1 <= date.day <= DaysInMonth(date.year, date.month)
  }

  /** The day after, read off the calendar. */
  function NextDay(date: Date): Date {
    if date.day < DaysInMonth(date.year, date.month) then date.(day := date.day + 1)
    else if date.month < 12 then Date(date.year, date.month + 1, 1)
    else Date(date.year + 1, 1, 1)
  }

  // ---------------------------------------------------------------------------
  // One 400-year era
  // ---------------------------------------------------------------------------

  /** The length of the March-based year `yoe` of an era: it ends with the February of
      the following calendar year. */
  function YearLength(yoe: int): int {
    if IsLeap(yoe + 1) then 366 else 365
  }

  /** Only the fourth year of a cycle can have a day 365. */
  lemma LeapDay(c: int, q: int, s: int)
    requires 0 <= c <= 3 && 0 <= q <= 24 && 0 <= s <= 3
    ensures YearLength(100 * c + 4 * q + s) == if s == 3 && (q < 24 || c == 3) then 366 else 365
  {
    var y := 100 * c + 4 * q + s + 1;
    assert y % 4 == (s + 1) % 4;
    assert y % 100 == (4 * q + s + 1) % 100;
    if q == 24 && s == 3 {
      assert y == 100 * (c + 1);
    }
  }

  /** Writing a year of the era as 100c + 4q + s and adding a day of that year gives back
      exactly that year: the corrections by 1460, 36524 and 146096 days cancel. */
  lemma YearOfEraSplit(c: int, q: int, s: int, doy: int)
    requires 0 <= c <= 3 && 0 <= q <= 24 && 0 <= s <= 3
    requires 0 <= doy < if s == 3 && (q < 24 || c == 3) then 366 else 365
    ensures var doe := 36524 * c + 1461 * q + 365 * s + doy;
            0 <= doe <= 146096 && YearOfEra(doe) == 100 * c + 4 * q + s
  {
    var doe := 36524 * c + 1461 * q + 365 * s + doy;
    var x := 24 * c + q + 365 * s + doy;
    var over := if x >= 1460 then 1 else 0;
    var w := 1461 * q + 365 * s + doy;
    var e := if w == 36524 then 1 else 0;
    hide Quot;
    QuotIs(doe, 1460, 25 * c + q + over);
    QuotIs(doe, 36524, c + e);
    QuotIs(doe, 146096, if c == 3 then e else 0);
    QuotIs(doe - (25 * c + q + over) + (c + e) - (if c == 3 then e else 0), 365, 100 * c + 4 * q + s);
  }

  lemma DayOfEraSplit(c: int, q: int, s: int, doy: int)
    requires 0 <= c <= 3 && 0 <= q <= 24 && 0 <= s <= 3
    ensures DayOfEra(100 * c + 4 * q + s, doy) == 36524 * c + 1461 * q + 365 * s + doy
  {
    hide Quot;
    QuotIs(100 * c + 4 * q + s, 4, 25 * c + q);
    QuotIs(100 * c + 4 * q + s, 100, c);
  }

  lemma YearOfEraOfDay(yoe: int, doy: int)
    requires 0 <= yoe < 400 && 0 <= doy < YearLength(yoe)
    ensures 0 <= DayOfEra(yoe, doy) <= 146096
    ensures YearOfEra(DayOfEra(yoe, doy)) == yoe
  {
    hide YearOfEra, YearLength, DayOfEra;
    var c := yoe / 100;
    var q := (yoe % 100) / 4;
    var s := yoe % 4;
    assert yoe == 100 * c + 4 * q + s;
    LeapDay(c, q, s);
    YearOfEraSplit(c, q, s, doy);
    DayOfEraSplit(c, q, s, doy);
  }

  /** Every day of an era lies in exactly one of its years. */
  lemma EraDaySplit(doe: int) returns (yoe: int, doy: int)
    requires 0 <= doe <= 146096
    ensures 0 <= yoe < 400 && 0 <= doy < YearLength(yoe)
    ensures doe == DayOfEra(yoe, doy)
  {
    hide DayOfEra, YearLength;
    var c, q, s: int;
    if doe == 146096 {
      c, q, s, doy := 3, 24, 3, 365;
    } else {
      c := doe / 36524;
      var r := doe % 36524;
      q := r / 1461;
      var t := r % 1461;
      s := if t == 1460 then 3 else t / 365;
      doy := t - 365 * s;
    }
    yoe := 100 * c + 4 * q + s;
    LeapDay(c, q, s);
    DayOfEraSplit(c, q, s, doy);
  }

  // ---------------------------------------------------------------------------
  // Months of a March-based year
  // ---------------------------------------------------------------------------

  lemma MonthDayInverse(y: int, doy: int)
    requires 0 <= doy < (if IsLeap(y + 1) then 366 else 365)
    ensures var date := MonthDay(y, doy);
            ValidDate(date) && MarchYear(date) == y && MarchDay(date) == doy
  {
    hide Quot;
    var mp := (5 * doy + 2) / 153;
    QuotIs(5 * doy + 2, 153, mp);
    QuotIs(153 * mp + 2, 5, (153 * mp + 2) / 5);
  }

  lemma MarchDayInverse(date: Date)
    requires ValidDate(date)
    ensures 0 <= MarchDay(date) < (if IsLeap(MarchYear(date) + 1) then 366 else 365)
    ensures MonthDay(MarchYear(date), MarchDay(date)) == date
  {
    hide Quot;
    var m := if date.month <= 2 then date.month + 9 else date.month - 3;
    QuotIs(153 * m + 2, 5, (153 * m + 2) / 5);
    QuotIs(5 * ((153 * m + 2) / 5 + date.day - 1) + 2, 153, m);
  }

  lemma MarchDayIs(date: Date)
    requires 1 <= date.month <= 12
    ensures var m := if date.month <= 2 then date.month + 9 else date.month - 3;
            MarchDay(date) == (153 * m + 2) / 5 + date.day - 1
  {
    hide Quot;
    var m := if date.month <= 2 then date.month + 9 else date.month - 3;
    QuotIs(153 * m + 2, 5, (153 * m + 2) / 5);
  }

  lemma ResidueKept(b: int, k: int, r: int)
    requires b > 0
    ensures (b * k + r) % b == r % b
  {
    hide *;
    var q, s := r / b, r % b;
    assert b * k + r == b * (k + q) + s;
    RemainderIs(b, k + q, s);
  }

  lemma RemainderIs(b: int, q: int, s: int)
    requires 0 <= s < b
    ensures (b * q + s) % b == s
  {
    var x := b * q + s;
    Multiples(x / b - q, b);
    assert (x / b - q) * b == x / b * b - q * b;
  }

  lemma LeapOfResidue(q: int, r: int)
    ensures IsLeap(400 * q + r) == IsLeap(r)
  {
    ResidueKept(400, q, r);
    ResidueKept(100, 4 * q, r);
    ResidueKept(4, 100 * q, r);
  }

  /** Leap years repeat every 400 years. */
  lemma LeapPeriod(y: int, k: int)
    ensures IsLeap(y + 400 * k) == IsLeap(y)
  {
    LeapOfResidue(k, y);
  }

  // ---------------------------------------------------------------------------
  // Main results
  // ---------------------------------------------------------------------------

  /** The truncated division in the source, corrected for negative operands, is floor
      division, so the remainders it casts to unsigned are in their stated ranges. */
  lemma ErasAreFloors(z: int, y: int)
    ensures 0 <= z - EraOfDay(z) * 146097 <= 146096
    ensures 0 <= y - EraOfYear(y) * 400 <= 399
  {
    hide Quot;
    QuotBounds(if z >= 0 then z else z - 146096, 146097);
    QuotBounds(if y >= 0 then y else y - 399, 400);
  }

  lemma EraDayDate(era: int, yoe: int, doy: int)
    requires 0 <= yoe < 400 && 0 <= doy < YearLength(yoe)
    ensures CivilOfEraDay(era, DayOfEra(yoe, doy)) == MonthDay(yoe + era * 400, doy)
  {
    YearOfEraOfDay(yoe, doy);
  }

  /** A day number splits into an era, a year of the era and a day of that year; the code
      computes exactly that year and that day. */
  lemma CivilSplit(days: int) returns (era: int, yoe: int, doy: int)
    ensures days + 719468 == era * 146097 + DayOfEra(yoe, doy)
    ensures era == EraOfDay(days + 719468)
    ensures 0 <= yoe < 400 && 0 <= doy < YearLength(yoe)
    ensures CivilFromDays(days) == MonthDay(yoe + era * 400, doy)
  {
    hide MonthDay, YearOfEra, DayOfYear, DayOfEra, YearLength;
    var z := days + 719468;
    ErasAreFloors(z, 0);
    era := EraOfDay(z);
    yoe, doy := EraDaySplit(z - era * 146097);
    EraDayDate(era, yoe, doy);
  }

  /** The unsigned intermediates of the printing side stay in the ranges the comments of the
      source give, so no cast or unsigned subtraction wraps. */
  lemma IntermediateRanges(days: int)
    ensures var z := days + 719468;
            var doe := z - EraOfDay(z) * 146097;
            var yoe := YearOfEra(doe);
            var doy := DayOfYear(doe, yoe);
            var mp := Quot(5 * doy + 2, 153);
            && 0 <= doe <= 146096
            && 0 <= doe - Quot(doe, 1460)
            && 0 <= yoe <= 399
            && 0 <= doy <= 365
            && 0 <= mp <= 11
            && 1 <= doy - Quot(153 * mp + 2, 5) + 1 <= 31
  {
    hide Quot, YearOfEra, YearLength;
    var era, yoe, doy := CivilSplit(days);
    ErasAreFloors(days + 719468, 0);
    YearOfEraOfDay(yoe, doy);
    QuotBounds(DayOfEra(yoe, doy), 1460);
    var mp := (5 * doy + 2) / 153;
    assert doy <= 365 by { LengthOfYear(yoe); }
    QuotIs(5 * doy + 2, 153, mp);
    QuotIs(153 * mp + 2, 5, (153 * mp + 2) / 5);
  }

  lemma LengthOfYear(yoe: int)
    ensures YearLength(yoe) <= 366
  {
  }

  /** The parsing side accepts day 31 in every month. Its year of the era is always in range
      and nothing goes below zero. The day of the year leaves the range that the source's comment
      gives exactly on 30 and 31 February, the day of the era exactly on these days in the last
      year of an era. */
  lemma ParsingRanges(date: Date)
    requires 1 <= date.month <= 12 && 1 <= date.day <= 31
    ensures var yoe := MarchYear(date) - EraOfYear(MarchYear(date)) * 400;
            var doy := MarchDay(date);
            && 0 <= yoe <= 399
            && 0 <= doy
            && (doy <= 365 <==> !(date.month == 2 && date.day > 29))
            && 0 <= DayOfEra(yoe, doy)
            && (DayOfEra(yoe, doy) <= 146096 <==> !(date.month == 2 && date.day > 29 && yoe == 399))
  {
    hide Quot, EraOfYear;
    ErasAreFloors(0, MarchYear(date));
    var yoe := MarchYear(date) - EraOfYear(MarchYear(date)) * 400;
    var m := if date.month <= 2 then date.month + 9 else date.month - 3;
    QuotIs(153 * m + 2, 5, (153 * m + 2) / 5);
    var c, q, s := yoe / 100, yoe % 100 / 4, yoe % 4;
    assert yoe == 100 * c + 4 * q + s;
    DayOfEraSplit(c, q, s, MarchDay(date));
    assert yoe == 399 <==> c == 3 && q == 24 && s == 3;
    hide DayOfEra;
  }

  lemma CivilIsValid(days: int)
    ensures ValidDate(CivilFromDays(days))
  {
    hide CivilFromDays, MonthDay, DayOfEra, ValidDate, IsLeap;
    var era, yoe, doy := CivilSplit(days);
    LeapPeriod(yoe + 1, era);
    MonthDayInverse(yoe + era * 400, doy);
  }

  /** The day number of a date whose March-based year is split into era and year of era. */
  lemma DaysOfSplit(date: Date, era: int, yoe: int)
    requires 0 <= yoe < 400 && MarchYear(date) == yoe + era * 400
    ensures DaysFromCivil(date) + 719468 == era * 146097 + DayOfEra(yoe, MarchDay(date))
  {
    hide Quot, EraOfYear, MarchYear, MarchDay;
    ErasAreFloors(0, MarchYear(date));
    assert EraOfYear(MarchYear(date)) == era;
  }

  /** The date of a day number given by its split. */
  lemma DateOfSplit(days: int, era: int, yoe: int, doy: int)
    requires 0 <= yoe < 400 && 0 <= doy < YearLength(yoe)
    requires days + 719468 == era * 146097 + DayOfEra(yoe, doy)
    ensures CivilFromDays(days) == MonthDay(yoe + era * 400, doy)
  {
    hide Quot, YearOfEra, YearLength, DayOfEra, EraOfDay, MonthDay;
    assert EraOfDay(days + 719468) == era by {
      YearOfEraOfDay(yoe, doy);
      ErasAreFloors(days + 719468, 0);
    }
    EraDayDate(era, yoe, doy);
  }

  /** Printing a day number and parsing the date back is the identity on all integers. */
  lemma DaysRoundTrip(days: int)
    ensures DaysFromCivil(CivilFromDays(days)) == days
  {
    var era, yoe, doy := CivilSplit(days);
    hide CivilFromDays, DaysFromCivil, MonthDay, DayOfEra, MarchDay, MarchYear, IsLeap;
    LeapPeriod(yoe + 1, era);
    MonthDayInverse(yoe + era * 400, doy);
    DaysOfSplit(CivilFromDays(days), era, yoe);
  }

  lemma DateRoundTrip(date: Date)
    requires ValidDate(date)
    ensures CivilFromDays(DaysFromCivil(date)) == date
  {
    MarchDayInverse(date);
    var era, yoe := MarchYear(date) / 400, MarchYear(date) % 400;
    LeapPeriod(yoe + 1, era);
    DaysOfSplit(date, era, yoe);
    DateOfSplit(DaysFromCivil(date), era, yoe, MarchDay(date));
  }

  /** The parsing side accepts day 31 in every month. A date survives the trip through its
      day number exactly when it is on the calendar. */
  lemma DateRoundTripExactly(date: Date)
    ensures CivilFromDays(DaysFromCivil(date)) == date <==> ValidDate(date)
  {
    CivilIsValid(DaysFromCivil(date));
    if ValidDate(date) {
      DateRoundTrip(date);
    }
  }

  /** A March-based year is followed at once by the next one. */
  lemma DayOfEraStep(yoe: int)
    requires 0 <= yoe < 400
    ensures DayOfEra(yoe, YearLength(yoe)) == if yoe == 399 then 146097 else DayOfEra(yoe + 1, 0)
  {
    hide DayOfEra, YearLength;
    var c, q, s := yoe / 100, yoe % 100 / 4, yoe % 4;
    assert yoe == 100 * c + 4 * q + s;
    LeapDay(c, q, s);
    DayOfEraSplit(c, q, s, YearLength(yoe));
    if s < 3 {
      DayOfEraSplit(c, q, s + 1, 0);
    } else if q < 24 {
      DayOfEraSplit(c, q + 1, 0, 0);
    } else if c < 3 {
      DayOfEraSplit(c + 1, 0, 0, 0);
    }
  }

  /** The next day is the next day of the same March-based year, or the first of the
      following one after the last day of February. */
  lemma NextMarchDay(date: Date)
    requires ValidDate(date)
    ensures ValidDate(NextDay(date))
    ensures if date.month == 2 && date.day == DaysInMonth(date.year, 2)
            then MarchYear(NextDay(date)) == MarchYear(date) + 1 && MarchDay(NextDay(date)) == 0
                 && MarchDay(date) + 1 == (if IsLeap(date.year) then 366 else 365)
            else MarchYear(NextDay(date)) == MarchYear(date) && MarchDay(NextDay(date)) == MarchDay(date) + 1
  {
    hide Quot;
    MarchDayIs(date);
    MarchDayIs(NextDay(date));
  }

  lemma DaysOfNextDay(date: Date)
    requires ValidDate(date)
    ensures ValidDate(NextDay(date))
    ensures DaysFromCivil(NextDay(date)) == DaysFromCivil(date) + 1
  {
    var next := NextDay(date);
    NextMarchDay(date);
    var era, yoe := MarchYear(date) / 400, MarchYear(date) % 400;
    assert MarchYear(date) == yoe + era * 400;
    DaysOfSplit(date, era, yoe);
    if MarchYear(next) == MarchYear(date) {
      DaysOfSplit(next, era, yoe);
    } else {
      assert YearLength(yoe) == MarchDay(date) + 1 by { LeapPeriod(yoe + 1, era); }
      DayOfEraStep(yoe);
      if yoe == 399 {
        DaysOfSplit(next, era + 1, 0);
      } else {
        DaysOfSplit(next, era, yoe + 1);
      }
    }
  }

  /** Day zero is 1 January 1970. With the next lemma this fixes the conversion on all
      integers. */
  lemma Epoch()
    ensures CivilFromDays(0) == Date(1970, 1, 1)
  {
    var date := Date(1970, 1, 1);
    hide Quot, DayOfEra, CivilFromDays, MarchDay;
    DaysOfSplit(date, 4, 369);
    DayOfEraSplit(3, 17, 1, 306);
    MarchDayIs(date);
    assert DaysFromCivil(date) == 0;
    EpochDate(date);
  }

  lemma EpochDate(date: Date)
    requires ValidDate(date) && DaysFromCivil(date) == 0
    ensures CivilFromDays(0) == date
  {
    DateRoundTrip(date);
  }

  /** Each further day is the next one on the calendar. */
  lemma CivilFollowsCalendar(days: int)
    ensures CivilFromDays(days + 1) == NextDay(CivilFromDays(days))
  {
    CivilIsValid(days);
    DaysRoundTrip(days);
    NextDayRoundTrip(CivilFromDays(days), days);
  }

  lemma NextDayRoundTrip(date: Date, days: int)
    requires ValidDate(date) && DaysFromCivil(date) == days
    ensures CivilFromDays(days + 1) == NextDay(date)
  {
    hide DaysFromCivil, CivilFromDays, NextDay, ValidDate;
    DaysOfNextDay(date);
    DateRoundTrip(NextDay(date));
  }
}
