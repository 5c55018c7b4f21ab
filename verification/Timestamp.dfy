/**
 The civil date of a Unix time: `timestamp` in `crates/cli/src/output.rs`,
 for a timestamp as section 5.6 of RFC 3339 writes one.
 */
module Timestamp {
  import Decimal

  datatype Date = Date(year: int, month: int, day: int)

  datatype DateTime = DateTime(date: Date, hour: int, minute: int, second: int)

  // ---- The proleptic Gregorian calendar ----

  predicate IsLeap(y: int) { y % 4 == 0 && (y % 100 != 0 || y % 400 == 0) }

  function DaysInMonth(y: int, m: int): int {
    if m == 2 then (if IsLeap(y) then 29 else 28)
    else if m == 4 || m == 6 || m == 9 || m == 11 then 30
    else 31
  }

  predicate IsDate(d: Date) {
    1 <= d.month <= 12 && 1 <= d.day <= DaysInMonth(d.year, d.month)
  }

  /** Days of year `y` before month `m`. */
  function DaysBeforeMonth(y: int, m: int): int
    requires 1 <= m <= 12
  {
    if m == 1 then 0 else DaysBeforeMonth(y, m - 1) + DaysInMonth(y, m - 1)
  }

  /** Days before year `y`, counted from year 1. */
  function DaysBeforeYear(y: int): int {
    365 * (y - 1) + (y - 1) / 4 - (y - 1) / 100 + (y - 1) / 400
  }

  /** Days since 1970-01-01. */
  function DayNumber(d: Date): int
    requires IsDate(d)
  {
    DaysBeforeYear(d.year) + DaysBeforeMonth(d.year, d.month) + d.day - 1 - 719_162
  }

  /** The day after. */
  function NextDate(d: Date): Date {
    if d.day < DaysInMonth(d.year, d.month) then Date(d.year, d.month, d.day + 1)
    else if d.month < 12 then Date(d.year, d.month + 1, 1)
    else Date(d.year + 1, 1, 1)
  }

  // ---- The computation ----

  /** The day of an era of 400 years that starts in March. */
  function YearOfEra(doe: int): int {
    (doe - doe / 1460 + doe / 36_524 - doe / 146_096) / 365
  }

  function DayOfYear(doe: int): int {
    var yoe := YearOfEra(doe);
    doe - (365 * yoe + yoe / 4 - yoe / 100)
  }

  /** The civil date `days` days after 1970-01-01. */
  function CivilDate(days: int): Date {
    var z := days + 719_468;
    var era := z / 146_097;
    var doe := z - era * 146_097;
    MarchDate(YearOfEra(doe) + era * 400, DayOfYear(doe))
  }

  /** The date `doy` days into the year that starts in March of year `y`. */
  function MarchDate(y: int, doy: int): Date {
    var mp := (5 * doy + 2) / 153;
    var day := doy - (153 * mp + 2) / 5 + 1;
    var month := if mp < 10 then mp + 3 else mp - 9;
    Date(y + (if month <= 2 then 1 else 0), month, day)
  }

  /** Unix milliseconds as a UTC date and time, to the second. */
  function Timestamp(ms: int): DateTime {
    var secs := ms / 1000;
    var days := secs / 86_400;
    var rem := secs % 86_400;
    DateTime(CivilDate(days), rem / 3600, rem % 3600 / 60, rem % 60)
  }

  // ---- Years of an era ----

  /** Days of an era before its year `yoe`, which starts in March. */
  function DaysOfEraBefore(yoe: int): int {
    365 * yoe + yoe / 4 - yoe / 100
  }

  /** The parts of a day of an era: century, four-year cycle, year and day. */
  lemma EraParts(doe: int) returns (c: int, q: int, y: int, d: int)
    requires 0 <= doe < 146_097
    ensures 0 <= c < 4 && 0 <= q < 25 && 0 <= y < 4
    ensures doe == 36_524 * c + 1461 * q + 365 * y + d
    ensures 0 <= d < 365 || (d == 365 && y == 3 && (q != 24 || c == 3))
  {
    c := if doe / 36_524 < 4 then doe / 36_524 else 3;
    var r := doe - 36_524 * c;
    q := r / 1461;
    var s := r - 1461 * q;
    y := if s / 365 < 4 then s / 365 else 3;
    d := s - 365 * y;
  }

  /** The computed year of an era is the one its parts name. */
  lemma YearOfParts(c: int, q: int, y: int, d: int)
    requires 0 <= c < 4 && 0 <= q < 25 && 0 <= y < 4
    requires 0 <= d < 365 || (d == 365 && y == 3 && (q != 24 || c == 3))
    ensures YearOfEra(36_524 * c + 1461 * q + 365 * y + d) == 100 * c + 4 * q + y
  {
    var doe := 36_524 * c + 1461 * q + 365 * y + d;
    assert c == 0 || c == 1 || c == 2 || c == 3;
    assert doe / 146_096 == (if doe == 146_096 then 1 else 0);
    assert doe / 36_524 == c + doe / 146_096;
  }

  lemma EraYear(doe: int)
    requires 0 <= doe < 146_097
    ensures 0 <= YearOfEra(doe) < 400
    ensures 0 <= DayOfYear(doe) <= 365
    ensures DayOfYear(doe) == 365 ==> IsLeap(YearOfEra(doe) + 1)
  {
    var c, q, y, d := EraParts(doe);
    YearOfParts(c, q, y, d);
    hide YearOfEra, IsLeap;
    PartsOfYear(c, q, y);
  }

  lemma PartsOfYear(c: int, q: int, y: int)
    requires 0 <= c < 4 && 0 <= q < 25 && 0 <= y < 4
    ensures var yoe := 100 * c + 4 * q + y; yoe / 4 == 25 * c + q && yoe / 100 == c
    ensures y == 3 && (q != 24 || c == 3) ==> IsLeap(100 * c + 4 * q + y + 1)
  {
  }

  /** Days of a March-based year before its month `mp`. */
  function DaysBeforeMarchMonth(mp: int): int { (153 * mp + 2) / 5 }

  /** Counting months from March, the days before each follow one formula. */
  lemma MarchMonths(y: int, mp: int)
    requires 0 <= mp < 12
    ensures mp < 10 ==>
      DaysBeforeMonth(y, mp + 3) == 59 + (if IsLeap(y) then 1 else 0) + DaysBeforeMarchMonth(mp)
    ensures mp < 10 ==>
      DaysBeforeMarchMonth(mp + 1) == DaysBeforeMarchMonth(mp) + DaysInMonth(y, mp + 3)
    ensures mp >= 10 ==> DaysBeforeMonth(y, mp - 9) == DaysBeforeMarchMonth(mp) - 306
    ensures mp == 10 ==> DaysBeforeMarchMonth(11) == DaysBeforeMarchMonth(10) + DaysInMonth(y, 1)
  {
    if 0 < mp < 10 {
      MarchMonths(y, mp - 1);
    } else if mp == 0 {
      assert DaysBeforeMonth(y, 1) == 0 && DaysBeforeMonth(y, 2) == 31;
    } else {
      assert DaysBeforeMonth(y, 1) == 0;
    }
  }

  /** The month and day of a March-based year are a month and day of the calendar. */
  lemma MonthAndDay(doy: int, x: int, y: int)
    requires 0 <= doy <= 365 && (doy == 365 ==> IsLeap(y))
    ensures var mp := (5 * doy + 2) / 153;
      var day := doy - DaysBeforeMarchMonth(mp) + 1;
      && 0 <= mp < 12
      && (mp < 10 ==> 1 <= day <= DaysInMonth(x, mp + 3))
      && (mp >= 10 ==> 1 <= day <= DaysInMonth(y, mp - 9))
  {
    var mp := (5 * doy + 2) / 153;
    assert 0 <= mp < 12;
    MarchMonths(if mp < 10 then x else y, mp);
  }

  /** Days before a March-based year, in days before the January-based one. */
  lemma MarchYear(era: int, yoe: int)
    requires 0 <= yoe < 400
    ensures var y := yoe + era * 400;
      && era * 146_097 + DaysOfEraBefore(yoe) == DaysBeforeYear(y) + (if IsLeap(y) then 1 else 0) + 365
      && DaysBeforeYear(y + 1) == DaysBeforeYear(y) + 365 + (if IsLeap(y) then 1 else 0)
      && (IsLeap(y + 1) <==> IsLeap(yoe + 1))
  {
    hide DaysBeforeYear, IsLeap;
    Divisions(era, yoe);
    YearGrows(yoe + era * 400);
    LeapYearsRepeat(yoe + 1, era);
  }

  lemma Divisions(era: int, yoe: int)
    requires 0 <= yoe < 400
    ensures var y := yoe + era * 400;
      y / 4 == yoe / 4 + 100 * era && y / 100 == yoe / 100 + 4 * era && y / 400 == era
  {
  }

  lemma LeapYearsRepeat(y: int, era: int)
    ensures IsLeap(y + era * 400) <==> IsLeap(y)
  {
    SameRemainder(y, 100 * era, 4);
    SameRemainder(y, 4 * era, 100);
    SameRemainder(y, era, 400);
  }

  lemma SameRemainder(y: int, k: int, m: int)
    requires m == 4 || m == 100 || m == 400
    ensures (y + k * m) % m == y % m
  {
  }

  lemma YearGrows(y: int)
    ensures DaysBeforeYear(y + 1) == DaysBeforeYear(y) + 365 + (if IsLeap(y) then 1 else 0)
    ensures DaysBeforeYear(y + 1) == 365 * y + y / 4 - y / 100 + y / 400
  {
    NextQuotient(y, 4);
    NextQuotient(y, 100);
    NextQuotient(y, 400);
    LeapCases(y);
  }

  lemma NextQuotient(y: int, m: int)
    requires m == 4 || m == 100 || m == 400
    ensures y / m == (y - 1) / m + (if y % m == 0 then 1 else 0)
  {
  }

  lemma LeapCases(y: int)
    ensures y % 400 == 0 ==> y % 100 == 0
    ensures y % 100 == 0 ==> y % 4 == 0
  {
  }

  lemma MarchDateIsRight(y: int, doy: int)
    requires 0 <= doy <= 365 && (doy == 365 ==> IsLeap(y + 1))
    ensures var d := MarchDate(y, doy);
      IsDate(d) && DayNumber(d) == DaysBeforeYear(y) + (if IsLeap(y) then 1 else 0) + 59 + doy - 719_162
  {
    hide DaysBeforeYear, DaysBeforeMonth, IsLeap;
    MonthAndDay(doy, y, y + 1);
    YearGrows(y);
    var mp := (5 * doy + 2) / 153;
    MarchMonths(if mp < 10 then y else y + 1, mp);
  }

  /** The computed date exists, and is the given number of days from 1970-01-01. */
  lemma CivilDateIsRight(days: int)
    ensures IsDate(CivilDate(days)) && DayNumber(CivilDate(days)) == days
  {
    hide YearOfEra, DaysBeforeYear, IsLeap, MarchDate, DayNumber, IsDate;
    var z := days + 719_468;
    var era := z / 146_097;
    var doe := z - era * 146_097;
    EraYear(doe);
    MarchYear(era, YearOfEra(doe));
    MarchDateIsRight(YearOfEra(doe) + era * 400, DayOfYear(doe));
  }

  // ---- Uniqueness and succession ----

  lemma {:induction false} MonthsFit(y: int, m: int, n: int)
    requires 1 <= m < n <= 12
    ensures DaysBeforeMonth(y, m) + DaysInMonth(y, m) <= DaysBeforeMonth(y, n)
  {
    if m + 1 < n {
      MonthsFit(y, m, n - 1);
    }
  }

  lemma DayOfYearFits(d: Date)
    requires IsDate(d)
    ensures 0 <= DaysBeforeMonth(d.year, d.month) + d.day - 1 < 365 + (if IsLeap(d.year) then 1 else 0)
  {
    hide IsLeap;
    assert DaysBeforeMonth(d.year, 1) == 0;
    if d.month > 1 {
      MonthsFit(d.year, 1, d.month);
    }
    YearLength(d.year);
    if d.month < 12 {
      MonthsFit(d.year, d.month, 12);
    }
  }

  lemma YearLength(y: int)
    ensures DaysBeforeMonth(y, 12) == 334 + (if IsLeap(y) then 1 else 0)
  {
    MarchMonths(y, 9);
  }

  lemma YearsFit(y: int, x: int)
    requires y < x
    ensures DaysBeforeYear(y) + 365 + (if IsLeap(y) then 1 else 0) <= DaysBeforeYear(x)
    decreases x - y
  {
    YearGrows(y);
    if y + 1 < x {
      YearsFit(y + 1, x);
    }
  }

  /** Different dates have different day numbers. */
  lemma DayNumberIsInjective(a: Date, b: Date)
    requires IsDate(a) && IsDate(b) && DayNumber(a) == DayNumber(b)
    ensures a == b
  {
    hide DaysBeforeYear, DaysBeforeMonth, IsLeap;
    DayOfYearFits(a);
    DayOfYearFits(b);
    if a.year < b.year {
      YearsFit(a.year, b.year);
    } else if b.year < a.year {
      YearsFit(b.year, a.year);
    } else if a.month < b.month {
      MonthsFit(a.year, a.month, b.month);
    } else if b.month < a.month {
      MonthsFit(a.year, b.month, a.month);
    }
  }

  lemma NextDateIsNext(d: Date)
    requires IsDate(d)
    ensures IsDate(NextDate(d)) && DayNumber(NextDate(d)) == DayNumber(d) + 1
  {
    hide DaysBeforeYear, IsLeap;
    if d.day == DaysInMonth(d.year, d.month) && d.month == 12 {
      YearGrows(d.year);
      YearLength(d.year);
      assert DaysBeforeMonth(d.year + 1, 1) == 0;
    }
  }

  /** Consecutive days are consecutive dates. */
  lemma ConsecutiveDays(days: int)
    ensures CivilDate(days + 1) == NextDate(CivilDate(days))
  {
    hide CivilDate, NextDate, DayNumber, IsDate;
    CivilDateIsRight(days);
    CivilDateIsRight(days + 1);
    NextDateIsNext(CivilDate(days));
    DayNumberIsInjective(CivilDate(days + 1), NextDate(CivilDate(days)));
  }

  /** The computation inverts the calendar: every date comes from its day number. */
  lemma CivilDateInvertsDayNumber(d: Date)
    requires IsDate(d)
    ensures CivilDate(DayNumber(d)) == d
  {
    hide CivilDate, DayNumber, IsDate;
    CivilDateIsRight(DayNumber(d));
    DayNumberIsInjective(CivilDate(DayNumber(d)), d);
  }

  /** Day zero is 1970-01-01. */
  lemma Epoch()
    ensures CivilDate(0) == Date(1970, 1, 1)
  {
    hide CivilDate;
    CivilDateInvertsDayNumber(Date(1970, 1, 1));
  }

  /**
   Every millisecond count gives a date and a time of day that together denote
   its second.
   */
  lemma TimestampIsRight(ms: int)
    ensures var t := Timestamp(ms);
      && IsDate(t.date) && 0 <= t.hour < 24 && 0 <= t.minute < 60 && 0 <= t.second < 60
      && ((DayNumber(t.date) * 24 + t.hour) * 60 + t.minute) * 60 + t.second == ms / 1000
  {
    hide CivilDate, DayNumber, IsDate;
    CivilDateIsRight(ms / 1000 / 86_400);
  }

  // ---- The text ----

  function Filled(n: nat, zeros: nat): string { Decimal.Zeros(zeros) + Decimal.Print(n) }

  /** A number with zeros in front, so that it takes `width` characters with its sign. */
  function Padded(n: int, width: nat): string {
    var size := if n < 0 then -n else n;
    var taken := |Decimal.Print(size)| + if n < 0 then 1 else 0;
    (if n < 0 then "-" else "") + Filled(size, if taken < width then width - taken else 0)
  }

  /** What follows the year. */
  function RestText(t: DateTime): string
    requires IsDate(t.date) && 0 <= t.hour && 0 <= t.minute && 0 <= t.second
  {
    "-" + Padded(t.date.month, 2) + "-" + Padded(t.date.day, 2)
    + "T" + Padded(t.hour, 2) + ":" + Padded(t.minute, 2) + ":" + Padded(t.second, 2) + "Z"
  }

  /** `timestamp` */
  function TimestampText(ms: int): string {
    TimestampIsRight(ms);
    Padded(Timestamp(ms).date.year, 4) + RestText(Timestamp(ms))
  }

  lemma FilledReads(n: nat, zeros: nat)
    ensures var s := Filled(n, zeros);
      && |s| == zeros + |Decimal.Print(n)| && s != "" && s[0] != '-'
      && Decimal.AllDigits(s) && Decimal.ValueOf(s) == n
  {
    hide Decimal.Print, Decimal.ValueOf, Decimal.Zeros;
    Decimal.LeadingZeros(zeros, Decimal.Print(n));
    assert Decimal.IsDigit(Filled(n, zeros)[0]);
  }

  lemma DigitsFit(n: nat, width: nat)
    requires 0 < width && n < Decimal.Pow10(width)
    ensures |Decimal.Print(n)| <= width
  {
    if n == 0 {
      assert |Decimal.Print(0)| == 1;
    } else {
      hide Decimal.Print, Decimal.Pow10;
      var digits := Decimal.Print(n);
      Decimal.ValueBound(digits);
      if |digits| > width {
        Decimal.PowGrows(width, |digits| - 1);
      }
    }
  }

  lemma PaddedReads(n: nat, width: nat)
    requires 0 < width && n < Decimal.Pow10(width)
    ensures |Padded(n, width)| == width && Decimal.AllDigits(Padded(n, width))
    ensures Decimal.ValueOf(Padded(n, width)) == n
  {
    hide Decimal.Print, Decimal.ValueOf, Decimal.AllDigits, Filled;
    DigitsFit(n, width);
    FilledReads(n, width - |Decimal.Print(n)|);
    assert Padded(n, width) == Filled(n, width - |Decimal.Print(n)|);
  }

  lemma TwoDigits(n: nat)
    requires n < 100
    ensures |Padded(n, 2)| == 2 && Decimal.AllDigits(Padded(n, 2)) && Decimal.ValueOf(Padded(n, 2)) == n
  {
    assert Decimal.Pow10(1) == 10 && Decimal.Pow10(2) == 100;
    PaddedReads(n, 2);
  }

  /** The numbers in `s` are where RFC 3339 puts them. */
  ghost predicate Reads(s: string, at: nat, n: nat) {
    at + 2 <= |s| && Decimal.AllDigits(s[at..at + 2]) && Decimal.ValueOf(s[at..at + 2]) == n
  }

  ghost predicate IsRestText(s: string, t: DateTime) {
    && |s| == 16 && s[0] == '-' && s[3] == '-' && s[6] == 'T' && s[9] == ':' && s[12] == ':' && s[15] == 'Z'
    && t.date.month >= 0 && t.date.day >= 0 && t.hour >= 0 && t.minute >= 0 && t.second >= 0
    && Reads(s, 1, t.date.month) && Reads(s, 4, t.date.day)
    && Reads(s, 7, t.hour) && Reads(s, 10, t.minute) && Reads(s, 13, t.second)
  }

  lemma RestReads(t: DateTime)
    requires IsDate(t.date) && 0 <= t.hour < 24 && 0 <= t.minute < 60 && 0 <= t.second < 60
    ensures IsRestText(RestText(t), t)
  {
    hide Padded, Decimal.ValueOf, Decimal.AllDigits;
    var s := RestText(t);
    TwoDigits(t.date.month);
    TwoDigits(t.date.day);
    TwoDigits(t.hour);
    TwoDigits(t.minute);
    TwoDigits(t.second);
    assert s[1..3] == Padded(t.date.month, 2);
    assert s[4..6] == Padded(t.date.day, 2);
    assert s[7..9] == Padded(t.hour, 2);
    assert s[10..12] == Padded(t.minute, 2);
    assert s[13..15] == Padded(t.second, 2);
  }

  /** In the years that RFC 3339 covers, the text has its form, and reads back as the same date and time. */
  lemma TextReads(ms: int)
    requires 0 <= Timestamp(ms).date.year <= 9999
    ensures var s, t := TimestampText(ms), Timestamp(ms);
      && |s| == 20 && Decimal.AllDigits(s[..4]) && Decimal.ValueOf(s[..4]) == t.date.year && IsRestText(s[4..], t)
  {
    hide Padded, RestText, IsRestText, Timestamp, Decimal.ValueOf, Decimal.AllDigits;
    var t := Timestamp(ms);
    TimestampIsRight(ms);
    FourDigits(t.date.year);
    RestReads(t);
    RestIsShort(RestText(t), t);
    var s := TimestampText(ms);
    assert s[..4] == Padded(t.date.year, 4) && s[4..] == RestText(t);
  }

  lemma RestIsShort(s: string, t: DateTime)
    requires IsRestText(s, t)
    ensures |s| == 16
  {
  }

  lemma FourDigits(n: nat)
    requires n <= 9999
    ensures |Padded(n, 4)| == 4 && Decimal.AllDigits(Padded(n, 4)) && Decimal.ValueOf(Padded(n, 4)) == n
  {
    assert Decimal.Pow10(1) == 10 && Decimal.Pow10(2) == 100 && Decimal.Pow10(3) == 1000 && Decimal.Pow10(4) == 10000;
    PaddedReads(n, 4);
  }

  /** A padded number is not another one's. */
  lemma PaddedIsInjective(m: int, n: int, width: nat)
    requires Padded(m, width) == Padded(n, width)
    ensures m == n
  {
    SignShows(m, width);
    SignShows(n, width);
  }

  lemma SignShows(n: int, width: nat)
    ensures var s := Padded(n, width);
      && s != "" && (s[0] == '-' <==> n < 0)
      && (n < 0 ==> Decimal.AllDigits(s[1..]) && Decimal.ValueOf(s[1..]) == -n)
      && (n >= 0 ==> Decimal.AllDigits(s) && Decimal.ValueOf(s) == n)
  {
    hide Decimal.Print, Decimal.ValueOf, Decimal.AllDigits, Filled;
    var size := if n < 0 then -n else n;
    var taken := |Decimal.Print(size)| + if n < 0 then 1 else 0;
    var zeros := if taken < width then width - taken else 0;
    FilledReads(size, zeros);
    if n < 0 {
      assert Padded(n, width)[1..] == Filled(size, zeros);
    } else {
      assert Padded(n, width) == Filled(size, zeros);
    }
  }

  /** Timestamps have the same text exactly when they are in the same second, in every year. */
  lemma SameTextIffSameSecond(a: int, b: int)
    ensures TimestampText(a) == TimestampText(b) <==> a / 1000 == b / 1000
  {
    hide Padded, RestText, IsRestText, Timestamp, IsDate, DayNumber;
    var s, t := Timestamp(a), Timestamp(b);
    TimestampIsRight(a);
    TimestampIsRight(b);
    RestReads(s);
    RestReads(t);
    RestIsShort(RestText(s), s);
    RestIsShort(RestText(t), t);
    if TimestampText(a) == TimestampText(b) {
      var x, y := TimestampText(a), TimestampText(b);
      assert x[..|x| - 16] == Padded(s.date.year, 4) && x[|x| - 16..] == RestText(s);
      assert y[..|y| - 16] == Padded(t.date.year, 4) && y[|y| - 16..] == RestText(t);
      PaddedIsInjective(s.date.year, t.date.year, 4);
      SameRest(RestText(s), s, t);
    }
    if a / 1000 == b / 1000 {
      SecondDecides(a, b);
    }
  }

  lemma SameRest(rest: string, s: DateTime, t: DateTime)
    requires IsRestText(rest, s) && IsRestText(rest, t) && s.date.year == t.date.year
    ensures s == t
  {
  }

  lemma SecondDecides(a: int, b: int)
    requires a / 1000 == b / 1000
    ensures Timestamp(a) == Timestamp(b)
  {
  }
}
