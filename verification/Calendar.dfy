/** The civil-date arithmetic behind every timestamp the runtime writes. */
module Calendar {
  import Bytes

  datatype Date = Date(year: int, month: int, day: int)

  // ----- the calendar itself ---------------------------------------------------

  /** Appendix C of RFC 3339. */
  predicate IsLeap(y: int) {
    y % 4 == 0 && (y % 100 != 0 || y % 400 == 0)
  }

  function MonthLength(y: int, m: int): int {
    if m == 2 then (if IsLeap(y) then 29 else 28)
    else if m == 4 || m == 6 || m == 9 || m == 11 then 30
    else 31
  }

  predicate InCalendar(d: Date) {
    1 <= d.month <= 12 && 1 <= d.day <= MonthLength(d.year, d.month)
  }

  function NextDay(d: Date): Date {
    if d.day < MonthLength(d.year, d.month) then Date(d.year, d.month, d.day + 1)
    else if d.month < 12 then Date(d.year, d.month + 1, 1)
    else Date(d.year + 1, 1, 1)
  }

  /** The date `n` days after the epoch, counted one day at a time. */
  function DayAfterEpoch(n: nat): Date {
    if n == 0 then Date(1970, 1, 1) else NextDay(DayAfterEpoch(n - 1))
  }

  // ----- the conversion ----------------------------------------------------------

  function YearOfEra(doe: int): int {
    (doe - doe / 1460 + doe / 36_524 - doe / 146_096) / 365
  }

  /** Days before year `yoe` of an era whose years start in March. */
  function YearStart(yoe: int): int {
    365 * yoe + yoe / 4 - yoe / 100
  }

  function MonthStart(mp: int): int {
    (153 * mp + 2) / 5
  }

  function CivilFromDays(days: int): Date {
    var z := days + 719_468;
    var era := z / 146_097;
    var doe := z % 146_097;
    var yoe := YearOfEra(doe);
    var doy := doe - YearStart(yoe);
    CivilFromParts(era, yoe, doy)
  }

  function CivilFromParts(era: int, yoe: int, doy: int): Date {
    var mp := (5 * doy + 2) / 153;
    var d := doy - MonthStart(mp) + 1;
    var m := if mp < 10 then mp + 3 else mp - 9;
    var y := yoe + era * 400;
    Date(if m <= 2 then y + 1 else y, m, d)
  }

  /** The inverse. */
  function DaysFromCivil(d: Date): int {
    var y := if d.month <= 2 then d.year - 1 else d.year;
    var era := y / 400;
    var yoe := y % 400;
    var mp := if d.month > 2 then d.month - 3 else d.month + 9;
    var doe := YearStart(yoe) + MonthStart(mp) + d.day - 1;
    era * 146_097 + doe - 719_468
  }

  // ----- the year of the era --------------------------------------------------------

  function YearLength(yoe: int): int {
    if IsLeap(yoe + 1) then 366 else 365
  }

  /** A year of the era by century, four-year cycle and rest. */
  lemma YearStartParts(a: int, b: int, c: int)
    requires 0 <= a <= 3 && 0 <= b <= 24 && 0 <= c <= 3
    ensures YearStart(100 * a + 4 * b + c) == 36_524 * a + 1461 * b + 365 * c
    ensures YearLength(100 * a + 4 * b + c) == if c == 3 && (b < 24 || a == 3) then 366 else 365
  {
    var yoe := 100 * a + 4 * b + c;
    assert yoe / 4 == 25 * a + b && yoe / 100 == a;
    assert (yoe + 1) % 4 == 0 <==> c == 3;
    assert (yoe + 1) % 100 == 0 <==> b == 24 && c == 3;
    assert (yoe + 1) % 400 == 0 <==> a == 3 && b == 24 && c == 3;
  }

  /** The division picks the year: the corrections undo the leap days passed so far. */
  lemma YearOfEraUnique(a: int, b: int, c: int, doy: int)
    requires 0 <= a <= 3 && 0 <= b <= 24 && 0 <= c <= 3
    requires 0 <= doy < YearLength(100 * a + 4 * b + c)
    ensures 0 <= YearStart(100 * a + 4 * b + c) + doy < 146_097
    ensures YearOfEra(YearStart(100 * a + 4 * b + c) + doy) == 100 * a + 4 * b + c
  {
    hide YearStart, YearLength;
    YearStartParts(a, b, c);
    var doe := 36_524 * a + 1461 * b + 365 * c + doy;
    assert doe / 36_524 - doe / 146_096 == a;
    var rest := 24 * a + b + 365 * c + doy;
    var t := if rest >= 1460 then 1 else 0;
    assert doe == 1460 * (25 * a + b) + rest;
    assert doe / 1460 == 25 * a + b + t;
    assert 0 <= doy - t < 365;
  }

  /** Every day of the era lies in the year the division picks. */
  lemma YearOfEraExact(doe: int)
    requires 0 <= doe < 146_097
    ensures 0 <= YearOfEra(doe) < 400
    ensures 0 <= doe - YearStart(YearOfEra(doe)) < YearLength(YearOfEra(doe))
  {
    var a := if doe == 146_096 then 3 else doe / 36_524;
    var r := doe - 36_524 * a;
    var b := r / 1461;
    var s := r - 1461 * b;
    var c := if s == 1460 then 3 else s / 365;
    YearStartParts(a, b, c);
    YearOfEraUnique(a, b, c, s - 365 * c);
  }

  lemma YearFollowsParts(a: int, b: int, c: int)
    requires 0 <= a <= 3 && 0 <= b <= 24 && 0 <= c <= 3
    ensures var yoe := 100 * a + 4 * b + c;
            YearStart(yoe) + YearLength(yoe) == if yoe == 399 then 146_097 else YearStart(yoe + 1)
  {
    hide YearStart, YearLength;
    YearStartParts(a, b, c);
    if c < 3 {
      YearStartParts(a, b, c + 1);
    } else if b < 24 {
      YearStartParts(a, b + 1, 0);
    } else if a < 3 {
      YearStartParts(a + 1, 0, 0);
    }
  }

  lemma YearFollows(yoe: int)
    requires 0 <= yoe < 400
    ensures YearStart(yoe) + YearLength(yoe) == if yoe == 399 then 146_097 else YearStart(yoe + 1)
  {
    hide YearStart, YearLength;
    var a, b, c := yoe / 100, (yoe % 100) / 4, yoe % 4;
    assert yoe == 100 * a + 4 * b + c;
    YearFollowsParts(a, b, c);
  }

  // ----- days to parts and back -----------------------------------------------------

  predicate IsPart(era: int, yoe: int, doy: int) {
    0 <= yoe < 400 && 0 <= doy < YearLength(yoe)
  }

  function DaysOfParts(era: int, yoe: int, doy: int): int {
    era * 146_097 + YearStart(yoe) + doy - 719_468
  }

  lemma CivilOfParts(era: int, yoe: int, doy: int)
    requires IsPart(era, yoe, doy)
    ensures CivilFromDays(DaysOfParts(era, yoe, doy)) == CivilFromParts(era, yoe, doy)
  {
    hide YearOfEra, CivilFromParts, YearStart, YearLength;
    YearOfEraUnique(yoe / 100, (yoe % 100) / 4, yoe % 4, doy);
    assert 100 * (yoe / 100) + 4 * ((yoe % 100) / 4) + yoe % 4 == yoe;
    var doe := YearStart(yoe) + doy;
    Bytes.DivModUnique(era * 146_097 + doe, 146_097, era, doe);
  }

  lemma PartsOf(days: int) returns (era: int, yoe: int, doy: int)
    ensures IsPart(era, yoe, doy) && DaysOfParts(era, yoe, doy) == days
  {
    var z := days + 719_468;
    var doe := z % 146_097;
    era, yoe := z / 146_097, YearOfEra(doe);
    YearOfEraExact(doe);
    doy := doe - YearStart(yoe);
  }

  // ----- months -----------------------------------------------------------------------

  lemma MonthExact(doy: int)
    requires 0 <= doy <= 365
    ensures var mp := (5 * doy + 2) / 153; 0 <= mp <= 11 && MonthStart(mp) <= doy < MonthStart(mp + 1)
  {
  }

  lemma MonthUnique(mp: int, doy: int)
    requires 0 <= mp <= 11 && MonthStart(mp) <= doy < MonthStart(mp + 1)
    ensures (5 * doy + 2) / 153 == mp
  {
  }

  lemma LeapPeriodic(y: int, era: int)
    ensures IsLeap(y + 400 * era) <==> IsLeap(y)
  {
    ModShift(y, 100 * era, 4);
    ModShift(y, 4 * era, 100);
    ModShift(y, era, 400);
  }

  lemma ModShift(y: int, k: int, m: int)
    requires m > 0
    ensures (y + m * k) % m == y % m
  {
    assert y + m * k == (y / m + k) * m + y % m;
    Bytes.DivModUnique(y + m * k, m, y / m + k, y % m);
  }

  /** Months counted from March have the calendar's lengths; February takes what the year leaves. */
  lemma MonthLengths(y: int, mp: int)
    requires 0 <= mp <= 11
    ensures var m := if mp < 10 then mp + 3 else mp - 9;
            MonthLength(y, m) ==
              if mp == 11 then (if IsLeap(y) then 29 else 28) else MonthStart(mp + 1) - MonthStart(mp)
  {
    assert MonthStart(0) == 0 && MonthStart(1) == 31 && MonthStart(2) == 61 && MonthStart(3) == 92;
    assert MonthStart(4) == 122 && MonthStart(5) == 153 && MonthStart(6) == 184 && MonthStart(7) == 214;
    assert MonthStart(8) == 245 && MonthStart(9) == 275 && MonthStart(10) == 306 && MonthStart(11) == 337;
  }

  lemma CivilInCalendar(era: int, yoe: int, doy: int)
    requires IsPart(era, yoe, doy)
    ensures InCalendar(CivilFromParts(era, yoe, doy))
  {
    var mp := (5 * doy + 2) / 153;
    MonthExact(doy);
    var d := CivilFromParts(era, yoe, doy);
    MonthLengths(d.year, mp);
    LeapPeriodic(yoe + 1, era);
  }

  /** Within a March-to-February year the next day is the calendar's next day. */
  lemma NextInYear(era: int, yoe: int, doy: int)
    requires IsPart(era, yoe, doy) && doy + 1 < YearLength(yoe)
    ensures CivilFromParts(era, yoe, doy + 1) == NextDay(CivilFromParts(era, yoe, doy))
  {
    var mp := (5 * doy + 2) / 153;
    MonthExact(doy);
    MonthLengths(CivilFromParts(era, yoe, doy).year, mp);
    LeapPeriodic(yoe + 1, era);
    if doy + 1 < MonthStart(mp + 1) {
      MonthUnique(mp, doy + 1);
    } else {
      MonthUnique(mp + 1, doy + 1);
    }
  }

  /** The last day of such a year is the last of February, and the first of March follows. */
  lemma NextAcrossYears(era: int, yoe: int)
    requires 0 <= yoe < 400
    ensures var next := if yoe == 399 then CivilFromParts(era + 1, 0, 0) else CivilFromParts(era, yoe + 1, 0);
            next == NextDay(CivilFromParts(era, yoe, YearLength(yoe) - 1))
  {
    var doy := YearLength(yoe) - 1;
    MonthUnique(11, doy);
    LeapPeriodic(yoe + 1, era);
    assert CivilFromParts(era, yoe, doy) == Date(yoe + 1 + 400 * era, 2, if IsLeap(yoe + 1) then 29 else 28);
  }

  // ----- main results -------------------------------------------------------------------

  lemma EraOpens()
    ensures YearStart(0) == 0 && forall yoe :: 365 <= YearLength(yoe) <= 366
  {
  }

  /** The conversion of day n + 1 is the calendar successor of the conversion of day n, for every n. */
  lemma CivilSuccessor(days: int)
    ensures CivilFromDays(days + 1) == NextDay(CivilFromDays(days))
  {
    hide CivilFromDays, CivilFromParts, NextDay, YearStart, YearLength;
    var era, yoe, doy := PartsOf(days);
    CivilOfParts(era, yoe, doy);
    if doy + 1 < YearLength(yoe) {
      CivilOfParts(era, yoe, doy + 1);
      NextInYear(era, yoe, doy);
    } else {
      YearFollows(yoe);
      NextAcrossYears(era, yoe);
      EraOpens();
      if yoe == 399 {
        CivilOfParts(era + 1, 0, 0);
      } else {
        CivilOfParts(era, yoe + 1, 0);
      }
    }
  }

  /** The closed form is the calendar counted one day at a time from 1970-01-01. */
  lemma {:induction false} CivilIsCalendar(n: nat)
    ensures CivilFromDays(n) == DayAfterEpoch(n)
  {
    hide CivilFromDays, NextDay;
    if n == 0 {
      Epoch();
    } else {
      CivilIsCalendar(n - 1);
      CivilSuccessor(n - 1);
    }
  }

  lemma Epoch()
    ensures CivilFromDays(0) == Date(1970, 1, 1)
  {
    hide CivilFromDays;
    assert YearStart(369) == 134_774 && DaysOfParts(4, 369, 306) == 0;
    CivilOfParts(4, 369, 306);
    assert MonthStart(10) == 306;
  }

  lemma DaysOfCivil(era: int, yoe: int, doy: int)
    requires IsPart(era, yoe, doy)
    ensures DaysFromCivil(CivilFromParts(era, yoe, doy)) == DaysOfParts(era, yoe, doy)
  {
    hide YearStart;
    MonthExact(doy);
    Bytes.DivModUnique(yoe + era * 400, 400, era, yoe);
  }

  /** Month and day are in range for the year, and the day count can be recovered. */
  lemma CivilRoundTrip(days: int)
    ensures InCalendar(CivilFromDays(days))
    ensures DaysFromCivil(CivilFromDays(days)) == days
  {
    hide *;
    var era, yoe, doy := PartsOf(days);
    CivilOfParts(era, yoe, doy);
    CivilInCalendar(era, yoe, doy);
    DaysOfCivil(era, yoe, doy);
  }

  /** Every calendar date is the conversion of its day count. */
  lemma DaysRoundTrip(d: Date)
    requires InCalendar(d)
    ensures CivilFromDays(DaysFromCivil(d)) == d
  {
    hide CivilFromDays, YearStart, MonthStart, CivilFromParts, YearLength, MonthLength;
    var y := if d.month <= 2 then d.year - 1 else d.year;
    var era, yoe := y / 400, y % 400;
    var mp := if d.month > 2 then d.month - 3 else d.month + 9;
    var doy := MonthStart(mp) + d.day - 1;
    DateParts(d, y, era, yoe, mp, doy);
    CivilOfParts(era, yoe, doy);
  }

  lemma DateParts(d: Date, y: int, era: int, yoe: int, mp: int, doy: int)
    requires InCalendar(d) && y == era * 400 + yoe && 0 <= yoe < 400
    requires y == (if d.month <= 2 then d.year - 1 else d.year)
    requires mp == (if d.month > 2 then d.month - 3 else d.month + 9) && doy == MonthStart(mp) + d.day - 1
    ensures IsPart(era, yoe, doy) && CivilFromParts(era, yoe, doy) == d
  {
    MonthLengths(d.year, mp);
    LeapPeriodic(yoe + 1, era);
    MonthUnique(mp, doy);
  }
}
