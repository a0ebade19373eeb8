/** The closed-form civil calendar behind `iso_timestamp` (src/logctl.rs), checked against
    a calendar that counts one day at a time. */
module Calendar {

  datatype Date = Date(year: int, month: int, day: int)

  // ---------------------------------------------------------------------------
  // The reference: the Gregorian calendar, one day after the other
  // ---------------------------------------------------------------------------

  predicate IsLeap(year: int) {
    year % 4 == 0 && (year % 100 != 0 || year % 400 == 0)
  }

  function DaysInMonth(year: int, month: int): int {
    if month == 2 then (if IsLeap(year) then 29 else 28)
    else if month == 4 || month == 6 || month == 9 || month == 11 then 30
    else 31
  }

  predicate Valid(date: Date) {
    1 <= date.month <= 12 && 1 <= date.day <= DaysInMonth(date.year, date.month)
  }

  function NextDay(date: Date): Date {
    if date.day < DaysInMonth(date.year, date.month) then date.(day := date.day + 1)
    else if date.month < 12 then Date(date.year, date.month + 1, 1)
    else Date(date.year + 1, 1, 1)
  }

  function PreviousDay(date: Date): Date {
    if date.day > 1 then date.(day := date.day - 1)
    else if date.month > 1 then Date(date.year, date.month - 1, DaysInMonth(date.year, date.month - 1))
    else Date(date.year - 1, 12, 31)
  }

  /** Count from the epoch, one day at a time, in either direction. */
  function DayByDay(days: int): Date
    decreases if days < 0 then -days else days
  {
    if days == 0 then Date(1970, 1, 1)
    else if days > 0 then NextDay(DayByDay(days - 1))
    else PreviousDay(DayByDay(days + 1))
  }

  // ---------------------------------------------------------------------------
  // The formula of the source
  // ---------------------------------------------------------------------------

  /** Rust's `/` on signed integers. */
  function TruncatingDiv(a: int, b: int): int
    requires b > 0
  {
    if a >= 0 then a / b else -((-a) / b)
  }

  function Era(z: int): int {
    TruncatingDiv(if z >= 0 then z else z - 146096, 146097)
  }

  /** The day inside its 400-year era; the source casts this to `u64`. */
  function DayOfEra(z: int): int {
    z - Era(z) * 146097
  }

  function YearOfEra(doe: int): int {
    (doe - doe / 1460 + doe / 36524 - doe / 146096) / 365
  }

  function DayOfYear(doe: int): int {
    var yoe := YearOfEra(doe);
    doe - (365 * yoe + yoe / 4 - yoe / 100)
  }

  function MonthIndex(doy: int): int {
    (5 * doy + 2) / 153
  }

  function CivilFromDays(days: int): Date {
    var z := days + 719468;
    var doe := DayOfEra(z);
    var y := YearOfEra(doe) + Era(z) * 400;
    var doy := DayOfYear(doe);
    var mp := MonthIndex(doy);
    var d := doy - (153 * mp + 2) / 5 + 1;
    var m := if mp < 10 then mp + 3 else mp - 9;
    Date(if m <= 2 then y + 1 else y, m, d)
  }

  // ---------------------------------------------------------------------------
  // The inverse formula, used as the bridge to the day-by-day calendar
  // ---------------------------------------------------------------------------

  /** Days before year `y` of an era whose years begin on the first of March. */
  function DaysBeforeYear(y: int): int {
    365 * y + y / 4 - y / 100 + y / 400
  }

  /** Days before month `mp` of a year that begins on the first of March. */
  function DaysBeforeMonth(mp: int): int {
    (153 * mp + 2) / 5
  }

  function DaysFromCivil(date: Date): int {
    var y := if date.month <= 2 then date.year - 1 else date.year;
    var mp := if date.month > 2 then date.month - 3 else date.month + 9;
    DaysBeforeYear(y) + DaysBeforeMonth(mp) + date.day - 1 - 719468
  }

  // ---------------------------------------------------------------------------
  // No unsigned intermediate underflows
  // ---------------------------------------------------------------------------

  lemma EraIsFloor(z: int)
    ensures Era(z) == z / 146097
    ensures DayOfEra(z) == z % 146097
    ensures 0 <= DayOfEra(z) <= 146096
  {
  }

  /** A day of the era, written as century, four-year cycle, year and day. */
  lemma YearOfEraOfParts(c: int, q: int, t: int, k: int)
    requires 0 <= c <= 3 && 0 <= q <= 24 && 0 <= t <= 3
    requires 0 <= k <= 364 || (k == 365 && t == 3 && (q < 24 || c == 3))
    ensures YearOfEra(36524 * c + 1461 * q + 365 * t + k) == 100 * c + 4 * q + t
  {
    var doe := 36524 * c + 1461 * q + 365 * t + k;
    assert doe / 146096 == if doe == 146096 then 1 else 0;
    assert doe / 36524 == if doe == 146096 then 4 else c;
  }

  lemma EraParts(doe: int) returns (c: int, q: int, t: int, k: int)
    requires 0 <= doe <= 146096
    ensures 0 <= c <= 3 && 0 <= q <= 24 && 0 <= t <= 3
    ensures 0 <= k <= 364 || (k == 365 && t == 3 && (q < 24 || c == 3))
    ensures doe == 36524 * c + 1461 * q + 365 * t + k
  {
    c := if doe == 146096 then 3 else doe / 36524;
    var r := doe - 36524 * c;
    q := r / 1461;
    var s := r - 1461 * q;
    t := if s == 1460 then 3 else s / 365;
    k := s - 365 * t;
  }

  lemma YearParts(c: int, q: int, t: int)
    requires 0 <= c <= 3 && 0 <= q <= 24 && 0 <= t <= 3
    ensures var y := 100 * c + 4 * q + t;
            y / 4 == 25 * c + q && y / 100 == c && y / 400 == 0
  {
    var y := 100 * c + 4 * q + t;
    assert y == 4 * (25 * c + q) + t;
    assert y == 100 * c + (4 * q + t);
  }

  lemma YearLength(y: int)
    ensures DaysBeforeYear(y + 1) - DaysBeforeYear(y) == if IsLeap(y + 1) then 366 else 365
  {
    assert (y + 1) / 4 == y / 4 + if (y + 1) % 4 == 0 then 1 else 0;
    assert (y + 1) / 100 == y / 100 + if (y + 1) % 100 == 0 then 1 else 0;
    assert (y + 1) / 400 == y / 400 + if (y + 1) % 400 == 0 then 1 else 0;
    MultiplesOfCenturies(y + 1);
  }

  lemma MultiplesOfCenturies(y: int)
    ensures y % 400 == 0 ==> y % 100 == 0
    ensures y % 100 == 0 ==> y % 4 == 0
  {
  }

  lemma YearsRepeatByEra(y: int, era: int)
    ensures DaysBeforeYear(y + 400 * era) == DaysBeforeYear(y) + 146097 * era
    ensures IsLeap(y + 400 * era) == IsLeap(y)
  {
    assert (y + 400 * era) / 4 == y / 4 + 100 * era;
    assert (y + 400 * era) / 100 == y / 100 + 4 * era;
    assert (y + 400 * era) / 400 == y / 400 + era;
  }

  /** Which years of an era, counted from the first of March, end with a leap day. */
  lemma LeapParts(c: int, q: int, t: int)
    requires 0 <= c <= 3 && 0 <= q <= 24 && 0 <= t <= 3
    ensures IsLeap(100 * c + 4 * q + t + 1) <==> t == 3 && (q < 24 || c == 3)
  {
    var y := 100 * c + 4 * q + t + 1;
    assert y == 4 * (25 * c + q) + (t + 1);
    assert y == 100 * c + (4 * q + t + 1);
    assert y % 100 == 0 <==> q == 24 && t == 3;
    assert y % 400 == 0 <==> q == 24 && t == 3 && c == 3;
  }

  /** The year and the day of the year that the formula picks inside one era. */
  lemma EraYear(doe: int)
    requires 0 <= doe <= 146096
    ensures 0 <= YearOfEra(doe) <= 399
    ensures 0 <= DayOfYear(doe) < if IsLeap(YearOfEra(doe) + 1) then 366 else 365
    ensures DaysBeforeYear(YearOfEra(doe)) + DayOfYear(doe) == doe
  {
    hide YearOfEra, IsLeap;
    var c, q, t, k := EraParts(doe);
    YearOfEraOfParts(c, q, t, k);
    YearParts(c, q, t);
    LeapParts(c, q, t);
  }

  /** Every subtraction the source makes on `u64` stays at or above zero, and the fields
      stay in the ranges the formula's author states. */
  lemma UnsignedRanges(z: int)
    ensures 0 <= DayOfEra(z) <= 146096
    ensures var doe := DayOfEra(z);
            0 <= doe - doe / 1460 <= doe - doe / 1460 + doe / 36524 - doe / 146096
    ensures var doe := DayOfEra(z);
            var yoe := YearOfEra(doe);
            && 0 <= yoe <= 399
            && 0 <= 365 * yoe + yoe / 4 - yoe / 100 <= doe
            && 0 <= DayOfYear(doe) <= 365
            && 0 <= MonthIndex(DayOfYear(doe)) <= 11
            && 0 <= (153 * MonthIndex(DayOfYear(doe)) + 2) / 5 <= DayOfYear(doe)
  {
    EraIsFloor(z);
    EraYear(DayOfEra(z));
  }

  /** The month and the day of the month inside a year that begins on the first of March. */
  lemma MonthOfDay(doy: int)
    requires 0 <= doy <= 365
    ensures 0 <= MonthIndex(doy) <= 11
    ensures DaysBeforeMonth(MonthIndex(doy)) <= doy
    ensures MonthIndex(doy) < 11 ==> doy < DaysBeforeMonth(MonthIndex(doy) + 1)
  {
  }

  lemma MonthLength(year: int, mp: int)
    requires 0 <= mp <= 11
    ensures var month := if mp < 10 then mp + 3 else mp - 9;
            mp != 11 ==> DaysInMonth(year, month) == DaysBeforeMonth(mp + 1) - DaysBeforeMonth(mp)
    ensures DaysBeforeMonth(0) == 0 && DaysBeforeMonth(11) == 337
  {
  }

  /** The formula always gives a date that exists. */
  lemma CivilIsValid(days: int)
    ensures Valid(CivilFromDays(days))
  {
    hide YearOfEra, DayOfYear, Era;
    var z := days + 719468;
    EraIsFloor(z);
    var doe := DayOfEra(z);
    EraYear(doe);
    YearsRepeatByEra(YearOfEra(doe) + 1, Era(z));
    MonthOfDay(DayOfYear(doe));
    MonthLength(CivilFromDays(days).year, MonthIndex(DayOfYear(doe)));
  }

  /** The formula followed by its inverse. */
  lemma DaysOfCivil(days: int)
    ensures DaysFromCivil(CivilFromDays(days)) == days
  {
    hide YearOfEra, DayOfYear, DaysBeforeYear, Era;
    var z := days + 719468;
    EraIsFloor(z);
    var doe := DayOfEra(z);
    EraYear(doe);
    YearsRepeatByEra(YearOfEra(doe), Era(z));
    MonthOfDay(DayOfYear(doe));
  }

  lemma DaysOfNext(date: Date)
    requires Valid(date)
    ensures Valid(NextDay(date))
    ensures DaysFromCivil(NextDay(date)) == DaysFromCivil(date) + 1
  {
    var mp := if date.month > 2 then date.month - 3 else date.month + 9;
    MonthLength(date.year, mp);
    YearLength(date.year - 1);
  }

  predicate Earlier(a: Date, b: Date) {
    a.year < b.year || (a.year == b.year && (a.month < b.month || (a.month == b.month && a.day < b.day)))
  }

  lemma EarlierDays(a: Date, b: Date)
    requires Valid(a) && Valid(b) && Earlier(a, b)
    ensures DaysFromCivil(a) < DaysFromCivil(b)
  {
    hide DaysFromCivil;
    if a.year < b.year {
      DayInsideYear(a);
      DayInsideYear(b);
      YearStartsGrow(a.year + 1, b.year);
    } else {
      EarlierInYear(a, b);
    }
  }

  function MonthStart(year: int, month: int): int {
    DaysFromCivil(Date(year, month, 1))
  }

  lemma DayInsideMonth(a: Date)
    requires Valid(a)
    ensures DaysFromCivil(a) == MonthStart(a.year, a.month) + a.day - 1
  {
  }

  lemma MonthStartsGrow(year: int, m: int, m': int)
    requires 1 <= m < m' <= 12
    ensures MonthStart(year, m) + DaysInMonth(year, m) <= MonthStart(year, m')
    decreases m' - m
  {
    hide DaysFromCivil, DaysInMonth;
    if m' == m + 1 {
      NextMonth(year, m);
    } else {
      MonthStartsGrow(year, m, m' - 1);
      NextMonth(year, m' - 1);
      MonthIsNotEmpty(year, m' - 1);
    }
  }

  lemma MonthIsNotEmpty(year: int, m: int)
    ensures DaysInMonth(year, m) > 0
  {
  }

  lemma NextMonth(year: int, m: int)
    requires 1 <= m <= 11
    ensures MonthStart(year, m + 1) == MonthStart(year, m) + DaysInMonth(year, m)
  {
    var last := Date(year, m, DaysInMonth(year, m));
    DaysOfNext(last);
    DayInsideMonth(last);
    hide DaysFromCivil;
  }

  lemma EarlierInYear(a: Date, b: Date)
    requires Valid(a) && Valid(b) && Earlier(a, b) && a.year == b.year
    ensures DaysFromCivil(a) < DaysFromCivil(b)
  {
    hide DaysFromCivil, DaysInMonth;
    DayInsideMonth(a);
    DayInsideMonth(b);
    if a.month < b.month {
      MonthStartsGrow(a.year, a.month, b.month);
    }
  }

  function NewYear(year: int): int {
    DaysFromCivil(Date(year, 1, 1))
  }

  lemma DayInsideYear(a: Date)
    requires Valid(a)
    ensures NewYear(a.year) <= DaysFromCivil(a) < NewYear(a.year + 1)
  {
    YearLength(a.year - 1);
  }

  lemma {:induction false} YearStartsGrow(y: int, y': int)
    requires y <= y'
    ensures NewYear(y) <= NewYear(y')
    decreases y' - y
  {
    if y < y' {
      DayInsideYear(Date(y, 1, 1));
      YearStartsGrow(y + 1, y');
    }
  }

  lemma DateOrder(a: Date, b: Date)
    requires Valid(a) && Valid(b)
    ensures Earlier(a, b) <==> DaysFromCivil(a) < DaysFromCivil(b)
    ensures a == b <==> DaysFromCivil(a) == DaysFromCivil(b)
  {
    hide DaysFromCivil;
    if Earlier(a, b) {
      EarlierDays(a, b);
    } else if Earlier(b, a) {
      EarlierDays(b, a);
    }
  }

  // ---------------------------------------------------------------------------
  // Main results
  // ---------------------------------------------------------------------------

  /** Every date that exists is the formula's answer for its own day number. */
  lemma CivilOfDays(date: Date)
    requires Valid(date)
    ensures CivilFromDays(DaysFromCivil(date)) == date
  {
    CivilIsValid(DaysFromCivil(date));
    DaysOfCivil(DaysFromCivil(date));
    DateOrder(CivilFromDays(DaysFromCivil(date)), date);
  }

  /** The answer for the following day is the following day of the calendar. */
  lemma CivilSuccessor(days: int)
    ensures CivilFromDays(days + 1) == NextDay(CivilFromDays(days))
  {
    hide *;
    CivilIsValid(days);
    DaysOfCivil(days);
    DaysOfNext(CivilFromDays(days));
    CivilOfDays(NextDay(CivilFromDays(days)));
  }

  lemma Epoch()
    ensures CivilFromDays(0) == Date(1970, 1, 1)
  {
  }

  /** For every day number, before and after the epoch, the closed form agrees with
      counting day by day from 1 January 1970. */
  lemma {:induction false} CivilRefinesDayByDay(days: int)
    ensures CivilFromDays(days) == DayByDay(days)
    decreases if days < 0 then -days else days
  {
    hide CivilFromDays, NextDay, PreviousDay, Valid;
    if days == 0 {
      Epoch();
    } else if days > 0 {
      CivilRefinesDayByDay(days - 1);
      CivilSuccessor(days - 1);
    } else {
      CivilRefinesDayByDay(days + 1);
      CivilSuccessor(days);
      CivilIsValid(days);
      PreviousOfNext(CivilFromDays(days));
    }
  }

  lemma PreviousOfNext(date: Date)
    requires Valid(date)
    ensures PreviousDay(NextDay(date)) == date
  {
  }

  /** Calendar order and day order are the same order. */
  lemma CivilIsMonotone(d1: int, d2: int)
    ensures Earlier(CivilFromDays(d1), CivilFromDays(d2)) <==> d1 < d2
  {
    var a, b := CivilFromDays(d1), CivilFromDays(d2);
    hide CivilFromDays, DaysFromCivil, Earlier;
    CivilIsValid(d1);
    CivilIsValid(d2);
    DaysOfCivil(d1);
    DaysOfCivil(d2);
    DateOrder(a, b);
  }
}
