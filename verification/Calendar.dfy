/**
 The civil date of a day number, as the build stamp and the audit log compute it, against counting days by
 month lengths and the leap rule (section 5.7 and Appendix C of RFC 3339).
 */
module Calendar {

  datatype Date = Date(year: int, month: int, day: int)

  // ----- counting days -----

  predicate IsLeap(y: int) {
    y % 4 == 0 && (y % 100 != 0 || y % 400 == 0)
  }

  function MonthLength(y: int, m: int): int {
    if m == 2 then (if IsLeap(y) then 29 else 28)
    else if m == 4 || m == 6 || m == 9 || m == 11 then 30
    else 31
  }

  predicate IsDate(v: Date) {
    1 <= v.month <= 12 && 1 <= v.day <= MonthLength(v.year, v.month)
  }

  /** The days of a year before a month; before the thirteenth, all of them. */
  function MonthStart(y: int, m: int): int
    requires 1 <= m <= 13
  {
    if m == 1 then 0 else MonthStart(y, m - 1) + MonthLength(y, m - 1)
  }

  /** The days from 1970-01-01 to the first day of a year, year by year. */
  function YearStart(y: int): int
    decreases if y < 1970 then 1970 - y else y - 1970
  {
    if y == 1970 then 0
    else if y > 1970 then YearStart(y - 1) + MonthStart(y - 1, 13)
    else YearStart(y + 1) - MonthStart(y, 13)
  }

  function DayNumber(v: Date): int
    requires IsDate(v)
  {
    YearStart(v.year) + MonthStart(v.year, v.month) + v.day - 1
  }

  /** The day after. */
  function Successor(v: Date): Date {
    if v.day < MonthLength(v.year, v.month) then v.(day := v.day + 1)
    else if v.month < 12 then Date(v.year, v.month + 1, 1)
    else Date(v.year + 1, 1, 1)
  }

  // ----- the conversion -----

  /** Day of the era, year of the era, day of the year from March on. */
  function YearOfEra(doe: int): int {
    (doe - doe / 1460 + doe / 36_524 - doe / 146_096) / 365
  }

  function CivilDate(days: int): Date {
    var z := days + 719_468;
    var era := z / 146_097;
    var doe := z - era * 146_097;
    var yoe := YearOfEra(doe);
    var y := yoe + era * 400;
    var doy := doe - (365 * yoe + yoe / 4 - yoe / 100);
    var mp := (5 * doy + 2) / 153;
    var d := doy - (153 * mp + 2) / 5 + 1;
    var m := if mp < 10 then mp + 3 else mp - 9;
    Date(if m <= 2 then y + 1 else y, m, d)
  }

  // ---------------------------------------------------------------------------------------------
  // Years
  // ---------------------------------------------------------------------------------------------

  /** The days of the years before March of year `y`, counted from March of year 0. */
  function MarchStart(y: int): int {
    365 * y + y / 4 - y / 100 + y / 400
  }

  lemma MarchStep(y: int)
    ensures MarchStart(y) - MarchStart(y - 1) == if IsLeap(y) then 366 else 365
  {
    DivStep(y, 4);
    DivStep(y, 100);
    DivStep(y, 400);
  }

  lemma DivStep(y: int, k: int)
    requires k == 4 || k == 100 || k == 400
    ensures y / k - (y - 1) / k == if y % k == 0 then 1 else 0
  {
  }

  lemma MarchOfEra(era: int, yoe: int)
    requires 0 <= yoe < 400
    ensures MarchStart(yoe + era * 400) == era * 146_097 + (365 * yoe + yoe / 4 - yoe / 100)
  {
    assert (yoe + era * 400) / 400 == era;
    assert (yoe + era * 400) / 100 == yoe / 100 + 4 * era;
    assert (yoe + era * 400) / 4 == yoe / 4 + 100 * era;
  }

  lemma YearLength(y: int)
    ensures MonthStart(y, 13) == if IsLeap(y) then 366 else 365
    ensures MonthStart(y, 3) == if IsLeap(y) then 60 else 59
  {
    MonthsFromMarch(y, 13);
  }

  /** From March on a month starts as many days after March as the conversion says. */
  lemma MonthsFromMarch(y: int, m: int)
    requires 3 <= m <= 13
    ensures MonthStart(y, 3) == if IsLeap(y) then 60 else 59
    ensures m <= 12 ==> MonthStart(y, m) == MonthStart(y, 3) + (153 * (m - 3) + 2) / 5
    ensures m == 13 ==> MonthStart(y, 13) == MonthStart(y, 3) + 306
  {
    assert MonthStart(y, 2) == 31;
    if m > 3 {
      MonthsFromMarch(y, m - 1);
    }
  }

  lemma {:induction false} YearStartClosed(y: int)
    ensures YearStart(y) == MarchStart(y - 1) + 306 - 719_468
    decreases if y < 1970 then 1970 - y else y - 1970
  {
    if y > 1970 {
      YearStartClosed(y - 1);
      MarchStep(y - 1);
      YearLength(y - 1);
    } else if y < 1970 {
      YearStartClosed(y + 1);
      MarchStep(y);
      YearLength(y);
    }
  }

  /** The year counted from March that a month belongs to, and the place of the month in it. */
  function MarchYear(v: Date): int {
    if v.month <= 2 then v.year - 1 else v.year
  }

  function MarchMonth(v: Date): int {
    if v.month <= 2 then v.month + 9 else v.month - 3
  }

  lemma DayNumberClosed(v: Date)
    requires IsDate(v)
    ensures DayNumber(v) == MarchStart(MarchYear(v)) + (153 * MarchMonth(v) + 2) / 5 + v.day - 1 - 719_468
  {
    YearStartClosed(v.year);
    if v.month >= 3 {
      MonthsFromMarch(v.year, v.month);
      MarchStep(v.year);
    } else {
      assert MonthStart(v.year, 2) == 31;
    }
  }

  // ---------------------------------------------------------------------------------------------
  // The year of the era
  // ---------------------------------------------------------------------------------------------

  /** A year of the era taken apart: centuries, groups of four years, years; and the day of the year. A 366th
      day comes only at the end of a group, and at the end of a century only in the last. */
  predicate YearParts(c: int, q: int, k: int, r: int) {
    && 0 <= c <= 3 && 0 <= q <= 24 && 0 <= k <= 3 && 0 <= r <= 365
    && (r == 365 ==> k == 3 && (q < 24 || c == 3))
  }

  lemma YearFound(c: int, q: int, k: int, r: int)
    requires YearParts(c, q, k, r)
    ensures YearOfEra(36_524 * c + 1461 * q + 365 * k + r) == 100 * c + 4 * q + k
  {
    var doe := 36_524 * c + 1461 * q + 365 * k + r;
    var t := if 24 * c + q + 365 * k + r >= 1460 then 1 else 0;
    assert doe == 1460 * (25 * c + q) + (24 * c + q + 365 * k + r);
    assert doe / 1460 == 25 * c + q + t;
    assert doe <= 146_096;
    assert doe / 146_096 == if doe == 146_096 then 1 else 0;
    assert doe / 36_524 == if doe == 146_096 then 4 else c;
    assert 0 <= r - t < 365;
    Quotient(100 * c + 4 * q + k, r - t);
  }

  lemma Quotient(y: int, r: int)
    requires 0 <= r < 365
    ensures (365 * y + r) / 365 == y
  {
  }

  /** The first day of a year of the era, by its parts. */
  lemma PartsOfYear(yoe: int)
    requires 0 <= yoe < 400
    ensures var c, q, k := yoe / 100, (yoe % 100) / 4, yoe % 4;
      && yoe == 100 * c + 4 * q + k && 0 <= c <= 3 && 0 <= q <= 24 && 0 <= k <= 3
      && 365 * yoe + yoe / 4 - yoe / 100 == 36_524 * c + 1461 * q + 365 * k
  {
  }

  lemma MonthFound(mp: int, d: int)
    requires 0 <= mp <= 11 && 1 <= d <= 31
    requires mp == 1 || mp == 3 || mp == 6 || mp == 8 ==> d <= 30
    requires mp == 11 ==> d <= 29
    ensures (5 * ((153 * mp + 2) / 5 + d - 1) + 2) / 153 == mp
  {
  }

  /** The conversion, from the parts of the day number. */
  lemma CivilOfParts(era: int, c: int, q: int, k: int, mp: int, d: int)
    requires 0 <= mp <= 11 && 1 <= d <= 31
    requires mp == 1 || mp == 3 || mp == 6 || mp == 8 ==> d <= 30
    requires mp == 11 ==> d <= 29
    requires YearParts(c, q, k, (153 * mp + 2) / 5 + d - 1)
    ensures var y, m := 400 * era + 100 * c + 4 * q + k, if mp < 10 then mp + 3 else mp - 9;
      CivilDate(era * 146_097 + 36_524 * c + 1461 * q + 365 * k + (153 * mp + 2) / 5 + d - 1 - 719_468)
      == Date(if m <= 2 then y + 1 else y, m, d)
  {
    hide YearOfEra, CivilDate;
    var doy := (153 * mp + 2) / 5 + d - 1;
    var doe := 36_524 * c + 1461 * q + 365 * k + doy;
    var yoe := 100 * c + 4 * q + k;
    YearFound(c, q, k, doy);
    EraFound(era, doe);
    FirstDayOfYear(c, q, k);
    MonthFound(mp, d);
    Assembled(era * 146_097 + doe - 719_468, era, doe, yoe, doy, mp);
  }

  lemma FirstDayOfYear(c: int, q: int, k: int)
    requires 0 <= c <= 3 && 0 <= q <= 24 && 0 <= k <= 3
    ensures var yoe := 100 * c + 4 * q + k;
      365 * yoe + yoe / 4 - yoe / 100 == 36_524 * c + 1461 * q + 365 * k
  {
  }

  lemma Assembled(days: int, era: int, doe: int, yoe: int, doy: int, mp: int)
    requires (days + 719_468) / 146_097 == era && doe == days + 719_468 - era * 146_097
    requires YearOfEra(doe) == yoe && doy == doe - (365 * yoe + yoe / 4 - yoe / 100) && (5 * doy + 2) / 153 == mp
    ensures var y, m := yoe + era * 400, if mp < 10 then mp + 3 else mp - 9;
      CivilDate(days) == Date(if m <= 2 then y + 1 else y, m, doy - (153 * mp + 2) / 5 + 1)
  {
    hide YearOfEra;
  }

  /** The conversion finds the date again from its closed day number. */
  lemma CivilOfClosed(v: Date)
    requires IsDate(v)
    ensures CivilDate(MarchStart(MarchYear(v)) + (153 * MarchMonth(v) + 2) / 5 + v.day - 1 - 719_468) == v
  {
    hide CivilDate, YearOfEra;
    var y, mp := MarchYear(v), MarchMonth(v);
    var era, yoe := y / 400, y % 400;
    MarchOfEra(era, yoe);
    PartsOfYear(yoe);
    var c, q, k := yoe / 100, (yoe % 100) / 4, yoe % 4;
    assert y == 400 * era + 100 * c + 4 * q + k;
    LeapParts(era, c, q, k);
    CivilOfParts(era, c, q, k, mp, v.day);
  }

  lemma EraFound(era: int, doe: int)
    requires 0 <= doe <= 146_096
    ensures (era * 146_097 + doe) / 146_097 == era
  {
  }

  lemma LeapParts(era: int, c: int, q: int, k: int)
    requires 0 <= c <= 3 && 0 <= q <= 24 && 0 <= k <= 3
    ensures IsLeap(400 * era + 100 * c + 4 * q + k + 1) ==> k == 3 && (q < 24 || c == 3)
  {
    var next := 400 * era + 100 * c + 4 * q + k + 1;
    if k < 3 {
      Remainder4(next, 100 * era + 25 * c + q, k + 1);
    } else if q == 24 && c < 3 {
      Remainder100(next, 4 * era + c + 1);
      Remainder400(next, era, 100 * (c + 1));
    }
  }

  lemma Remainder4(n: int, a: int, r: int)
    requires n == 4 * a + r && 0 <= r < 4
    ensures n % 4 == r
  {
  }

  lemma Remainder100(n: int, a: int)
    requires n == 100 * a
    ensures n % 100 == 0
  {
  }

  lemma Remainder400(n: int, a: int, r: int)
    requires n == 400 * a + r && 0 <= r < 400
    ensures n % 400 == r
  {
  }

  // ---------------------------------------------------------------------------------------------
  // The conversion is the inverse of counting days
  // ---------------------------------------------------------------------------------------------

  /** The date of the number of a date is that date. */
  lemma DateOfItsNumber(v: Date)
    requires IsDate(v)
    ensures CivilDate(DayNumber(v)) == v
  {
    hide CivilDate, DayNumber, MarchStart, IsDate, MarchYear, MarchMonth;
    DayNumberClosed(v);
    CivilOfClosed(v);
  }

  lemma SuccessorCounts(v: Date)
    requires IsDate(v)
    ensures IsDate(Successor(v)) && DayNumber(Successor(v)) == DayNumber(v) + 1
  {
    if v.month == 12 && v.day == 31 {
      YearStartClosed(v.year);
      YearStartClosed(v.year + 1);
      MarchStep(v.year);
      YearLength(v.year);
      assert MonthStart(v.year, 13) == MonthStart(v.year, 12) + 31;
    }
  }

  function Predecessor(v: Date): Date {
    if v.day > 1 then v.(day := v.day - 1)
    else if v.month > 1 then Date(v.year, v.month - 1, MonthLength(v.year, v.month - 1))
    else Date(v.year - 1, 12, 31)
  }

  lemma PredecessorCounts(v: Date)
    requires IsDate(v)
    ensures IsDate(Predecessor(v)) && DayNumber(Predecessor(v)) == DayNumber(v) - 1
  {
    SuccessorCounts(Predecessor(v));
    assert Successor(Predecessor(v)) == v;
  }

  /** Every day number is that of a date. */
  lemma {:induction false} EveryDayHasADate(n: int) returns (v: Date)
    ensures IsDate(v) && DayNumber(v) == n
    decreases if n < 0 then -n else n
  {
    if n == 0 {
      v := Date(1970, 1, 1);
    } else if n > 0 {
      var before := EveryDayHasADate(n - 1);
      v := Successor(before);
      SuccessorCounts(before);
    } else {
      var after := EveryDayHasADate(n + 1);
      v := Predecessor(after);
      PredecessorCounts(after);
    }
  }

  /** For every integer day number the conversion yields a date of the calendar, whose number it is. */
  lemma NumberOfItsDate(n: int)
    ensures IsDate(CivilDate(n)) && DayNumber(CivilDate(n)) == n
  {
    hide CivilDate;
    var v := EveryDayHasADate(n);
    DateOfItsNumber(v);
  }

  /** Day 0 is the first of January 1970, and the next number is the next day. */
  lemma ConsecutiveDays(n: int)
    ensures CivilDate(0) == Date(1970, 1, 1)
    ensures CivilDate(n + 1) == Successor(CivilDate(n))
  {
    hide CivilDate;
    NumberOfItsDate(n);
    SuccessorCounts(CivilDate(n));
    DateOfItsNumber(Successor(CivilDate(n)));
    DateOfItsNumber(Date(1970, 1, 1));
  }

  // ---------------------------------------------------------------------------------------------
  // Stamps
  // ---------------------------------------------------------------------------------------------

  datatype Stamp = Stamp(date: Date, hour: int, minute: int, second: int, millis: int)

  predicate IsStamp(s: Stamp) {
    IsDate(s.date) && 0 <= s.hour < 24 && 0 <= s.minute < 60 && 0 <= s.second < 60 && 0 <= s.millis < 1000
  }

  /** The stamp of a build: whole seconds. */
  function BuildStamp(secs: int): Stamp {
    var days, rem := secs / 86_400, secs % 86_400;
    Stamp(CivilDate(days), rem / 3600, (rem % 3600) / 60, rem % 60, 0)
  }

  /** The stamp of an audit entry: milliseconds. */
  function AuditStamp(totalMillis: int): Stamp {
    var s, ms := totalMillis / 1000, totalMillis % 1000;
    var days, rem := s / 86_400, s % 86_400;
    Stamp(CivilDate(days), rem / 3600, (rem % 3600) / 60, rem % 60, ms)
  }

  /** The milliseconds from the start of 1970 that a stamp stands for. */
  function Instant(s: Stamp): int
    requires IsStamp(s)
  {
    (((DayNumber(s.date) * 24 + s.hour) * 60 + s.minute) * 60 + s.second) * 1000 + s.millis
  }

  /** A stamp is one of the calendar and stands for the instant it was made from; and one stamp for one
      instant. */
  lemma StampOfInstant(totalMillis: int)
    ensures IsStamp(AuditStamp(totalMillis)) && Instant(AuditStamp(totalMillis)) == totalMillis
  {
    hide CivilDate, DayNumber, IsDate;
    NumberOfItsDate(totalMillis / 1000 / 86_400);
  }

  lemma SplitMillis(secs: int, ms: int)
    requires 0 <= ms < 1000
    ensures (secs * 1000 + ms) / 1000 == secs && (secs * 1000 + ms) % 1000 == ms
  {
  }

  lemma SplitDay(n: int, rem: int)
    requires 0 <= rem < 86_400
    ensures (n * 86_400 + rem) / 86_400 == n && (n * 86_400 + rem) % 86_400 == rem
  {
  }

  lemma SplitHour(h: int, m: int, s: int)
    requires 0 <= h < 24 && 0 <= m < 60 && 0 <= s < 60
    ensures var rem := (h * 60 + m) * 60 + s;
      0 <= rem < 86_400 && rem / 3600 == h && (rem % 3600) / 60 == m && rem % 60 == s
  {
  }

  lemma InstantOfStamp(s: Stamp)
    requires IsStamp(s)
    ensures AuditStamp(Instant(s)) == s
  {
    hide CivilDate, DayNumber, IsDate;
    var n, minutes := DayNumber(s.date), s.hour * 60 + s.minute;
    var rem := minutes * 60 + s.second;
    SplitMillis(n * 86_400 + rem, s.millis);
    SplitDay(n, rem);
    SplitHour(s.hour, s.minute, s.second);
    DateOfItsNumber(s.date);
  }

  /** The stamp of a build, its second to the whole second; the two stamps spell the one conversion out twice. */
  lemma BuildStampOfSecond(secs: int)
    ensures IsStamp(BuildStamp(secs)) && Instant(BuildStamp(secs)) == secs * 1000
  {
    hide CivilDate, DayNumber, IsDate;
    NumberOfItsDate(secs / 86_400);
  }
}
