/** `iso_timestamp` (src/logctl.rs): the text it prints, read back and put in order. */
module Timestamp {
  import opened Calendar

  const SECONDS_PER_DAY := 86400

  /** The values interpolated into the text. */
  datatype Stamp = Stamp(date: Date, hour: int, minute: int, second: int, milli: int)

  function StampOf(secs: int, millis: int): Stamp {
    var days := secs / SECONDS_PER_DAY;
    var sod := secs % SECONDS_PER_DAY;
    Stamp(CivilFromDays(days), sod / 3600, (sod / 60) % 60, sod % 60, millis)
  }

  function Digit(n: int): char
    requires 0 <= n <= 9
  {
    '0' + n as char
  }

  /** Rust's `{:0w$}` for an unsigned number: at least `w` digits, padded with zeros. */
  function Pad(n: nat, w: nat): string
    decreases n, w
  {
    if n < 10 && w <= 1 then [Digit(n)]
    else Pad(n / 10, if w == 0 then 0 else w - 1) + [Digit(n % 10)]
  }

  /** Rust's `{:04}` for the signed year: the sign takes one of the four columns. */
  function PadYear(year: int): string {
    if year < 0 then "-" + Pad(-year, 3) else Pad(year, 4)
  }

  function Text(s: Stamp): string
    requires s.date.month >= 0 && s.date.day >= 0
    requires s.hour >= 0 && s.minute >= 0 && s.second >= 0 && s.milli >= 0
  {
    PadYear(s.date.year) + ("-" + (Pad(s.date.month, 2) + ("-" + (Pad(s.date.day, 2) + ("T"
    + (Pad(s.hour, 2) + (":" + (Pad(s.minute, 2) + (":" + (Pad(s.second, 2) + ("."
    + (Pad(s.milli, 3) + "Z"))))))))))))
  }

  predicate InRange(s: Stamp) {
    && Calendar.Valid(s.date)
    && 0 <= s.hour <= 23 && 0 <= s.minute <= 59 && 0 <= s.second <= 59 && 0 <= s.milli <= 999
  }

  /** The first second of the year 0 and of the year 10000. */
  const YEAR_0 := -62167219200
  const YEAR_10000 := 253402300800

  /** RFC 3339 writes years in four digits. */
  predicate FourDigitYear(s: Stamp) {
    0 <= s.date.year <= 9999
  }

  function TimeOfDay(s: Stamp): int {
    ((s.hour * 60 + s.minute) * 60 + s.second) * 1000 + s.milli
  }

  function TotalMillis(s: Stamp): int {
    DaysFromCivil(s.date) * (SECONDS_PER_DAY * 1000) + TimeOfDay(s)
  }

  function IsoTimestamp(secs: int, millis: int): string
    requires 0 <= millis <= 999
  {
    StampInRange(secs, millis);
    Text(StampOf(secs, millis))
  }

  lemma StampInRange(secs: int, millis: int)
    requires 0 <= millis <= 999
    ensures InRange(StampOf(secs, millis))
  {
    hide CivilFromDays, Calendar.Valid;
    CivilIsValid(secs / SECONDS_PER_DAY);
  }

  lemma FourDigitSeconds(secs: int, millis: int)
    ensures FourDigitYear(StampOf(secs, millis)) <==> YEAR_0 <= secs < YEAR_10000
  {
    hide CivilFromDays, DaysFromCivil, DaysInMonth;
    var days := secs / SECONDS_PER_DAY;
    var first, last, date := Date(0, 1, 1), Date(10000, 1, 1), CivilFromDays(days);
    YearStarts();
    CivilIsValid(days);
    DaysOfCivil(days);
    DateOrder(date, first);
    DateOrder(date, last);
    WholeDays(secs, -719528);
    WholeDays(secs, 2932897);
  }

  lemma YearStarts()
    ensures Calendar.Valid(Date(0, 1, 1)) && DaysFromCivil(Date(0, 1, 1)) == -719528
    ensures Calendar.Valid(Date(10000, 1, 1)) && DaysFromCivil(Date(10000, 1, 1)) == 2932897
  {
  }

  lemma WholeDays(secs: int, days: int)
    ensures secs / SECONDS_PER_DAY < days <==> secs < days * SECONDS_PER_DAY
  {
  }

  /** The printed fields determine the millisecond count they were made from. */
  lemma LosesNothing(secs: int, millis: int)
    requires 0 <= millis <= 999
    ensures TotalMillis(StampOf(secs, millis)) == secs * 1000 + millis
  {
    hide CivilFromDays, DaysFromCivil;
    DaysOfCivil(secs / SECONDS_PER_DAY);
    var sod := secs % SECONDS_PER_DAY;
    assert sod == (sod / 3600) * 3600 + ((sod / 60) % 60) * 60 + sod % 60;
  }

  // ---------------------------------------------------------------------------
  // Reading the text back
  // ---------------------------------------------------------------------------

  /** The number a run of decimal digits stands for. */
  function Number(s: string): int {
    if |s| == 0 then 0 else 10 * Number(s[..|s| - 1]) + (s[|s| - 1] as int - '0' as int)
  }

  /** Read a `YYYY-MM-DDTHH:MM:SS.mmmZ` text by its columns. */
  function ReadStamp(t: string): Stamp
    requires |t| == 24
  {
    Stamp(Date(Number(t[0..4]), Number(t[5..7]), Number(t[8..10])),
          Number(t[11..13]), Number(t[14..16]), Number(t[17..19]), Number(t[20..23]))
  }

  function Pow10(w: nat): nat {
    if w == 0 then 1 else 10 * Pow10(w - 1)
  }

  lemma {:induction false} PadReads(n: nat, w: nat)
    requires 1 <= w && n < Pow10(w)
    ensures |Pad(n, w)| == w && Number(Pad(n, w)) == n
  {
    if w == 1 {
      assert Pow10(1) == 10 * Pow10(0);
    } else {
      PadReads(n / 10, w - 1);
      assert Pad(n, w)[..w - 1] == Pad(n / 10, w - 1);
    }
  }

  lemma PadWidths(s: Stamp)
    requires InRange(s) && FourDigitYear(s)
    ensures |PadYear(s.date.year)| == 4 && Number(PadYear(s.date.year)) == s.date.year
    ensures |Pad(s.date.month, 2)| == 2 && Number(Pad(s.date.month, 2)) == s.date.month
    ensures |Pad(s.date.day, 2)| == 2 && Number(Pad(s.date.day, 2)) == s.date.day
    ensures |Pad(s.hour, 2)| == 2 && Number(Pad(s.hour, 2)) == s.hour
    ensures |Pad(s.minute, 2)| == 2 && Number(Pad(s.minute, 2)) == s.minute
    ensures |Pad(s.second, 2)| == 2 && Number(Pad(s.second, 2)) == s.second
    ensures |Pad(s.milli, 3)| == 3 && Number(Pad(s.milli, 3)) == s.milli
  {
    PowersOfTen();
    hide Pad, Number, Pow10;
    PadReads(s.date.year, 4);
    PadReads(s.date.month, 2);
    PadReads(s.date.day, 2);
    PadReads(s.hour, 2);
    PadReads(s.minute, 2);
    PadReads(s.second, 2);
    PadReads(s.milli, 3);
  }

  lemma PowersOfTen()
    ensures Pow10(2) == 100 && Pow10(3) == 1000 && Pow10(4) == 10000
  {
    assert Pow10(1) == 10;
  }

  /** Printing and reading back is the identity on stamps with a four-digit year. */
  lemma TextReadsBack(s: Stamp)
    requires InRange(s) && FourDigitYear(s)
    ensures |Text(s)| == 24 && ReadStamp(Text(s)) == s
  {
    PadWidths(s);
    hide Pad, Number, PadYear, DaysInMonth;
    var t := Text(s);
    var r6 := Pad(s.milli, 3) + "Z";
    var r5 := Pad(s.second, 2) + ("." + r6);
    var r4 := Pad(s.minute, 2) + (":" + r5);
    var r3 := Pad(s.hour, 2) + (":" + r4);
    var r2 := Pad(s.date.day, 2) + ("T" + r3);
    var r1 := Pad(s.date.month, 2) + ("-" + r2);
    assert t == PadYear(s.date.year) + ("-" + r1);
    Column(t, 0, PadYear(s.date.year), '-', r1);
    Column(t, 5, Pad(s.date.month, 2), '-', r2);
    Column(t, 8, Pad(s.date.day, 2), 'T', r3);
    Column(t, 11, Pad(s.hour, 2), ':', r4);
    Column(t, 14, Pad(s.minute, 2), ':', r5);
    Column(t, 17, Pad(s.second, 2), '.', r6);
    Column(t, 20, Pad(s.milli, 3), 'Z', "");
  }

  /** Column `at` of a text whose tail is a field, a separator and the rest. */
  lemma Column(t: string, at: nat, field: string, sep: char, rest: string)
    requires at <= |t| && t[at..] == field + ([sep] + rest)
    ensures at + |field| + 1 <= |t| && t[at..at + |field|] == field
    ensures t[at + |field| + 1..] == rest
  {
    assert t[at..][..|field|] == field;
    assert t[at..][|field| + 1..] == rest;
  }

  predicate IsDigit(c: char) {
    '0' <= c <= '9'
  }

  /** Whatever the width, the digits stand for the number, and there are at least that many. */
  lemma {:induction false} PadIsNumber(n: nat, w: nat)
    ensures Number(Pad(n, w)) == n && |Pad(n, w)| >= w && |Pad(n, w)| >= 1
    ensures forall i :: 0 <= i < |Pad(n, w)| ==> IsDigit(Pad(n, w)[i])
    decreases n, w
  {
    if !(n < 10 && w <= 1) {
      var rest := if w == 0 then 0 else w - 1;
      PadIsNumber(n / 10, rest);
      assert Pad(n, w)[..|Pad(n, w)| - 1] == Pad(n / 10, rest);
    }
  }

  /** Every year reads back, also one before the year 0 or after 9999: a sign, if any, and at
      least four columns. */
  lemma YearReadsBack(year: int)
    ensures var t := PadYear(year);
            && |t| >= 4
            && (year >= 0 ==> Number(t) == year && IsDigit(t[0]))
            && (year < 0 ==> t[0] == '-' && Number(t[1..]) == -year)
  {
    if year < 0 {
      PadIsNumber(-year, 3);
      assert PadYear(year)[1..] == Pad(-year, 3);
    } else {
      PadIsNumber(year, 4);
    }
  }

  /** Whether column `i` of the text belongs to a number. */
  predicate IsDigitColumn(i: int) {
    i !in {4, 7, 10, 13, 16, 19, 23}
  }

  /** The layout of section 5.6 of RFC 3339, column by column. */
  predicate IsLaidOut(t: string) {
    && |t| == 24
    && t[4] == '-' && t[7] == '-' && t[10] == 'T' && t[13] == ':' && t[16] == ':' && t[19] == '.' && t[23] == 'Z'
    && forall i :: 0 <= i < 24 && IsDigitColumn(i) ==> IsDigit(t[i])
  }

  predicate AllDigits(field: string, w: nat) {
    |field| == w && forall i :: 0 <= i < w ==> IsDigit(field[i])
  }

  lemma FieldsAreDigits(s: Stamp)
    requires InRange(s) && FourDigitYear(s)
    ensures AllDigits(PadYear(s.date.year), 4) && AllDigits(Pad(s.date.month, 2), 2) && AllDigits(Pad(s.date.day, 2), 2)
    ensures AllDigits(Pad(s.hour, 2), 2) && AllDigits(Pad(s.minute, 2), 2) && AllDigits(Pad(s.second, 2), 2)
    ensures AllDigits(Pad(s.milli, 3), 3)
  {
    hide Pad, Number, DaysInMonth, IsDigit;
    PadWidths(s);
    PadIsNumber(s.date.year, 4);
    PadIsNumber(s.date.month, 2);
    PadIsNumber(s.date.day, 2);
    PadIsNumber(s.hour, 2);
    PadIsNumber(s.minute, 2);
    PadIsNumber(s.second, 2);
    PadIsNumber(s.milli, 3);
  }

  lemma TextIsLaidOut(s: Stamp)
    requires InRange(s) && FourDigitYear(s)
    ensures IsLaidOut(Text(s))
  {
    FieldsAreDigits(s);
    hide Pad, PadYear, AllDigits, InRange, FourDigitYear, IsLaidOut;
    var t := Text(s);
    var r6 := Pad(s.milli, 3) + "Z";
    var r5 := Pad(s.second, 2) + ("." + r6);
    var r4 := Pad(s.minute, 2) + (":" + r5);
    var r3 := Pad(s.hour, 2) + (":" + r4);
    var r2 := Pad(s.date.day, 2) + ("T" + r3);
    var r1 := Pad(s.date.month, 2) + ("-" + r2);
    assert t == PadYear(s.date.year) + ("-" + r1);
    assert t[0..] == t;
    DigitsAndSeparator(t, 0, PadYear(s.date.year), 4, '-', r1);
    DigitsAndSeparator(t, 5, Pad(s.date.month, 2), 2, '-', r2);
    DigitsAndSeparator(t, 8, Pad(s.date.day, 2), 2, 'T', r3);
    DigitsAndSeparator(t, 11, Pad(s.hour, 2), 2, ':', r4);
    DigitsAndSeparator(t, 14, Pad(s.minute, 2), 2, ':', r5);
    DigitsAndSeparator(t, 17, Pad(s.second, 2), 2, '.', r6);
    DigitsAndSeparator(t, 20, Pad(s.milli, 3), 3, 'Z', "");
    ColumnsMakeLayout(t);
  }

  lemma DigitsAndSeparator(t: string, at: nat, field: string, w: nat, sep: char, rest: string)
    requires at <= |t| && t[at..] == field + ([sep] + rest) && AllDigits(field, w)
    ensures at + w + 1 <= |t| && t[at + w] == sep && t[at + w + 1..] == rest
    ensures AllDigits(t[at..at + w], w)
  {
    Column(t, at, field, sep, rest);
    assert t[at..][|field|] == sep;
  }

  lemma ColumnsMakeLayout(t: string)
    requires |t| == 24
    requires t[4] == '-' && t[7] == '-' && t[10] == 'T' && t[13] == ':' && t[16] == ':' && t[19] == '.' && t[23] == 'Z'
    requires AllDigits(t[0..4], 4) && AllDigits(t[5..7], 2) && AllDigits(t[8..10], 2)
    requires AllDigits(t[11..13], 2) && AllDigits(t[14..16], 2) && AllDigits(t[17..19], 2) && AllDigits(t[20..23], 3)
    ensures IsLaidOut(t)
  {
    hide IsDigit;
    Spread(t, 0, 4);
    Spread(t, 5, 7);
    Spread(t, 8, 10);
    Spread(t, 11, 13);
    Spread(t, 14, 16);
    Spread(t, 17, 19);
    Spread(t, 20, 23);
    hide AllDigits;
  }

  lemma Spread(t: string, from: nat, to: nat)
    requires from <= to <= |t| && AllDigits(t[from..to], to - from)
    ensures forall i :: from <= i < to ==> IsDigit(t[i])
  {
    forall i | from <= i < to
      ensures IsDigit(t[i])
    {
      assert t[from..to][i - from] == t[i];
    }
  }

  /** The text of every reading of the years 0000 to 9999 is laid out as the standard asks. */
  lemma TimestampIsLaidOut(secs: int, millis: int)
    requires 0 <= millis <= 999 && YEAR_0 <= secs < YEAR_10000
    ensures IsLaidOut(IsoTimestamp(secs, millis))
  {
    hide StampOf, Text, IsLaidOut;
    FourDigitSeconds(secs, millis);
    StampInRange(secs, millis);
    TextIsLaidOut(StampOf(secs, millis));
  }

  /** From clock to text and back to the clock, to the millisecond, in the years 0000 to 9999. */
  lemma TimestampReadsBack(secs: int, millis: int)
    requires 0 <= millis <= 999 && YEAR_0 <= secs < YEAR_10000
    ensures |IsoTimestamp(secs, millis)| == 24
    ensures TotalMillis(ReadStamp(IsoTimestamp(secs, millis))) == secs * 1000 + millis
  {
    hide StampOf, Text, TotalMillis, ReadStamp;
    FourDigitSeconds(secs, millis);
    StampInRange(secs, millis);
    TextReadsBack(StampOf(secs, millis));
    LosesNothing(secs, millis);
  }

  // ---------------------------------------------------------------------------
  // Lexicographic order is chronological order
  // ---------------------------------------------------------------------------

  predicate LexLess(a: string, b: string) {
    |b| > 0 && (|a| == 0 || a[0] < b[0] || (a[0] == b[0] && LexLess(a[1..], b[1..])))
  }

  lemma {:induction false} LexConcat(a: string, b: string, x: string, y: string)
    requires |a| == |b|
    ensures LexLess(a + x, b + y) <==> LexLess(a, b) || (a == b && LexLess(x, y))
  {
    if |a| == 0 {
      assert a + x == x && b + y == y;
    } else {
      assert (a + x)[1..] == a[1..] + x && (b + y)[1..] == b[1..] + y;
      LexConcat(a[1..], b[1..], x, y);
      assert a == [a[0]] + a[1..] && b == [b[0]] + b[1..];
    }
  }

  lemma {:induction false} PadOrder(m: nat, n: nat, w: nat)
    requires 1 <= w && m < Pow10(w) && n < Pow10(w)
    ensures LexLess(Pad(m, w), Pad(n, w)) <==> m < n
    ensures Pad(m, w) == Pad(n, w) <==> m == n
  {
    PadReads(m, w);
    PadReads(n, w);
    if w == 1 {
      assert Pow10(1) == 10 * Pow10(0);
      DigitOrder(m, n);
    } else {
      assert m / 10 < Pow10(w - 1) && n / 10 < Pow10(w - 1);
      assert Pad(m, w) == Pad(m / 10, w - 1) + [Digit(m % 10)];
      assert Pad(n, w) == Pad(n / 10, w - 1) + [Digit(n % 10)];
      hide Pad, Pow10, LexLess, Digit;
      PadOrder(m / 10, n / 10, w - 1);
      DigitOrder(m % 10, n % 10);
      PadReads(m / 10, w - 1);
      PadReads(n / 10, w - 1);
      LexConcat(Pad(m / 10, w - 1), Pad(n / 10, w - 1), [Digit(m % 10)], [Digit(n % 10)]);
    }
  }

  lemma DigitOrder(m: nat, n: nat)
    requires m <= 9 && n <= 9
    ensures LexLess([Digit(m)], [Digit(n)]) <==> m < n
  {
    assert [Digit(m)][1..] == [] && [Digit(n)][1..] == [];
  }

  /** One field of fixed width, one separator, and the rest. */
  lemma FieldOrder(m: nat, n: nat, w: nat, sep: char, x: string, y: string)
    requires 1 <= w && m < Pow10(w) && n < Pow10(w)
    ensures LexLess(Pad(m, w) + ([sep] + x), Pad(n, w) + ([sep] + y)) <==> m < n || (m == n && LexLess(x, y))
  {
    PadReads(m, w);
    PadReads(n, w);
    PadOrder(m, n, w);
    LexConcat(Pad(m, w), Pad(n, w), [sep] + x, [sep] + y);
    LexConcat([sep], [sep], x, y);
    assert !LexLess([sep], [sep]) by {
      assert [sep][1..] == [];
    }
  }

  predicate Before(a: Stamp, b: Stamp) {
    Earlier(a.date, b.date) || (a.date == b.date && TimeOfDay(a) < TimeOfDay(b))
  }

  /** The part of the text after the `T`. */
  function ClockText(s: Stamp): string
    requires s.hour >= 0 && s.minute >= 0 && s.second >= 0 && s.milli >= 0
  {
    Pad(s.hour, 2) + (":" + (Pad(s.minute, 2) + (":" + (Pad(s.second, 2) + ("." + (Pad(s.milli, 3) + "Z"))))))
  }

  lemma ClockTextOrder(a: Stamp, b: Stamp)
    requires InRange(a) && InRange(b)
    ensures LexLess(ClockText(a), ClockText(b)) <==> TimeOfDay(a) < TimeOfDay(b)
  {
    PowersOfTen();
    hide Pad, LexLess, Pow10, Calendar.Valid;
    var a6, b6 := Pad(a.milli, 3) + ("Z" + ""), Pad(b.milli, 3) + ("Z" + "");
    var a5, b5 := Pad(a.second, 2) + ("." + a6), Pad(b.second, 2) + ("." + b6);
    var a4, b4 := Pad(a.minute, 2) + (":" + a5), Pad(b.minute, 2) + (":" + b5);
    assert "Z" + "" == "Z";
    assert ClockText(a) == Pad(a.hour, 2) + (":" + a4) && ClockText(b) == Pad(b.hour, 2) + (":" + b4);
    FieldOrder(a.hour, b.hour, 2, ':', a4, b4);
    FieldOrder(a.minute, b.minute, 2, ':', a5, b5);
    FieldOrder(a.second, b.second, 2, '.', a6, b6);
    FieldOrder(a.milli, b.milli, 3, 'Z', "", "");
    EmptyIsLeast();
  }

  lemma TextOrder(a: Stamp, b: Stamp)
    requires InRange(a) && InRange(b) && FourDigitYear(a) && FourDigitYear(b)
    ensures LexLess(Text(a), Text(b)) <==> Before(a, b)
  {
    PowersOfTen();
    ClockTextOrder(a, b);
    assert a.date.month < 100 && b.date.month < 100 && a.date.day < 100 && b.date.day < 100;
    var a3, b3 := ClockText(a), ClockText(b);
    var a2, b2 := Pad(a.date.day, 2) + ("T" + a3), Pad(b.date.day, 2) + ("T" + b3);
    var a1, b1 := Pad(a.date.month, 2) + ("-" + a2), Pad(b.date.month, 2) + ("-" + b2);
    hide Pad, LexLess, Pow10, Calendar.Valid, TimeOfDay;
    assert Text(a) == Pad(a.date.year, 4) + ("-" + a1) && Text(b) == Pad(b.date.year, 4) + ("-" + b1);
    FieldOrder(a.date.year, b.date.year, 4, '-', a1, b1);
    FieldOrder(a.date.month, b.date.month, 2, '-', a2, b2);
    FieldOrder(a.date.day, b.date.day, 2, 'T', a3, b3);
  }

  lemma EmptyIsLeast()
    ensures !LexLess("", "")
  {
  }

  lemma StampOrder(a: Stamp, b: Stamp)
    requires InRange(a) && InRange(b)
    ensures Before(a, b) <==> TotalMillis(a) < TotalMillis(b)
  {
    hide DaysFromCivil, Earlier, DaysInMonth;
    DateOrder(a.date, b.date);
  }

  /** The texts of two clock readings of the years 0000 to 9999 sort like the readings. */
  lemma TimestampsSort(secs1: int, millis1: int, secs2: int, millis2: int)
    requires 0 <= millis1 <= 999 && YEAR_0 <= secs1 < YEAR_10000
    requires 0 <= millis2 <= 999 && YEAR_0 <= secs2 < YEAR_10000
    ensures LexLess(IsoTimestamp(secs1, millis1), IsoTimestamp(secs2, millis2))
            <==> secs1 * 1000 + millis1 < secs2 * 1000 + millis2
  {
    var a, b := StampOf(secs1, millis1), StampOf(secs2, millis2);
    hide StampOf, Text, LexLess, TotalMillis, Before, FourDigitYear;
    FourDigitSeconds(secs1, millis1);
    FourDigitSeconds(secs2, millis2);
    StampInRange(secs1, millis1);
    StampInRange(secs2, millis2);
    TextOrder(a, b);
    StampOrder(a, b);
    LosesNothing(secs1, millis1);
    LosesNothing(secs2, millis2);
  }

  /** Four digits are needed: the first instant of the year 10000 sorts before the last
      second of 9999. */
  lemma FifthDigitBreaksOrder()
    ensures StampOf(253402300800, 0).date == Date(10000, 1, 1)
    ensures StampOf(253402300799, 0).date == Date(9999, 12, 31)
    ensures LexLess(IsoTimestamp(253402300800, 0), IsoTimestamp(253402300799, 0))
  {
    var late, early := Date(10000, 1, 1), Date(9999, 12, 31);
    hide CivilFromDays;
    assert DaysFromCivil(late) == 2932897 && DaysFromCivil(early) == 2932896;
    CivilOfDays(late);
    CivilOfDays(early);
    hide DaysFromCivil;
    FiveDigits();
    var x, y := IsoTimestamp(253402300800, 0), IsoTimestamp(253402300799, 0);
    assert x[0] == '1' && y[0] == '9';
  }

  /** The texts of all clock readings from the year 0 up to `hi` sort like the readings. */
  ghost predicate SortsUpTo(hi: int) {
    forall secs1, millis1, secs2, millis2 ::
      YEAR_0 <= secs1 < hi && YEAR_0 <= secs2 < hi && 0 <= millis1 <= 999 && 0 <= millis2 <= 999 ==>
        (LexLess(IsoTimestamp(secs1, millis1), IsoTimestamp(secs2, millis2))
         <==> secs1 * 1000 + millis1 < secs2 * 1000 + millis2)
  }

  /** The last second of 9999 is exactly how far that goes. */
  lemma SortingLimit(hi: int)
    ensures SortsUpTo(hi) <==> hi <= YEAR_10000
  {
    hide IsoTimestamp, LexLess;
    if hi <= YEAR_10000 {
      forall secs1, millis1, secs2, millis2
        | YEAR_0 <= secs1 < hi && YEAR_0 <= secs2 < hi && 0 <= millis1 <= 999 && 0 <= millis2 <= 999
        ensures LexLess(IsoTimestamp(secs1, millis1), IsoTimestamp(secs2, millis2))
                <==> secs1 * 1000 + millis1 < secs2 * 1000 + millis2
      {
        TimestampsSort(secs1, millis1, secs2, millis2);
      }
    } else {
      FifthDigitBreaksOrder();
      var late, early := IsoTimestamp(253402300800, 0), IsoTimestamp(253402300799, 0);
      assert LexLess(late, early);
    }
  }

  lemma FiveDigits()
    ensures |Pad(10000, 4)| > 0 && Pad(10000, 4)[0] == '1'
    ensures |Pad(9999, 4)| > 0 && Pad(9999, 4)[0] == '9'
  {
    assert Pad(10, 1) == Pad(1, 0) + "0";
    assert Pad(100, 2) == Pad(10, 1) + "0";
    assert Pad(1000, 3) == Pad(100, 2) + "0";
    assert Pad(10000, 4) == Pad(1000, 3) + "0";
    assert Pad(99, 2) == Pad(9, 1) + "9";
    assert Pad(999, 3) == Pad(99, 2) + "9";
    assert Pad(9999, 4) == Pad(999, 3) + "9";
  }
}
