/** `unix_to_amz_date`: civil-date arithmetic against a calendar defined year by year and month by month. */
module CivilDate {
  import opened Seqs
  import opened Text
  import opened Catalog

  // ---- the calendar ----

  predicate IsLeap(y: nat) { y % 4 == 0 && (y % 100 != 0 || y % 400 == 0) }

  function LeapDay(y: nat): nat { if IsLeap(y) then 1 else 0 }

  function DaysInMonth(y: nat, m: nat): nat {
    if m == 2 then 28 + LeapDay(y)
    else if m == 4 || m == 6 || m == 9 || m == 11 then 30
    else 31
  }

  datatype Date = Date(year: nat, month: nat, day: nat)

  predicate IsDate(d: Date) { 1 <= d.month <= 12 && 1 <= d.day <= DaysInMonth(d.year, d.month) }

  /** Days from the start of year 0 to the start of year y. */
  function DaysBeforeYear(y: nat): nat {
    if y == 0 then 0 else DaysBeforeYear(y - 1) + 365 + LeapDay(y - 1)
  }

  function DaysBeforeMonth(y: nat, m: nat): nat {
    if m <= 1 then 0 else DaysBeforeMonth(y, m - 1) + DaysInMonth(y, m - 1)
  }

  /** Days from 1 January 1970; negative before it. */
  function DaysFromCivil(d: Date): int {
    DaysBeforeYear(d.year) + DaysBeforeMonth(d.year, d.month) + d.day - 1 - DaysBeforeYear(1970)
  }

  predicate DateLess(a: Date, b: Date) {
    a.year < b.year || (a.year == b.year && (a.month < b.month || (a.month == b.month && a.day < b.day)))
  }

  function NextDate(d: Date): Date {
    if d.day < DaysInMonth(d.year, d.month) then d.(day := d.day + 1)
    else if d.month < 12 then Date(d.year, d.month + 1, 1)
    else Date(d.year + 1, 1, 1)
  }

  // ---- the algorithm ----

  function Yoe(doe: nat): nat {
    (doe - doe / 1460 + doe / 36524 - doe / 146096) / 365
  }

  function CivilFromDays(days: nat): Date {
    var z := days + 719468;
    var era := z / 146097;
    var doe := z - era * 146097;
    var yoe := Yoe(doe);
    var y := yoe + era * 400;
    YoeIsYear(doe);
    var doy := doe - (365 * yoe + yoe / 4 - yoe / 100);
    var mp := (5 * doy + 2) / 153;
    var d := doy - (153 * mp + 2) / 5 + 1;
    var m := if mp < 10 then mp + 3 else mp - 9;
    Date(if m <= 2 then y + 1 else y, m, d)
  }

  // ---- the year ----

  /** Days from 1 March of year 0 to 1 March of year y, within a 400-year era. */
  function MarchDays(y: nat): nat { 365 * y + y / 4 - y / 100 }

  /** The year-of-era formula on a day written as century, four-year cycle and day of the cycle. */
  lemma YoeOfParts(doe: nat, c: nat, f: nat, t: nat)
    requires c <= 3 && f <= 24 && t <= 1460 && (f == 24 ==> t <= 1459)
    requires doe == 36524 * c + 1461 * f + t
    ensures var g := if t >= 1095 then 3 else t / 365; Yoe(doe) == 100 * c + 4 * f + g
  {
    var late := if 24 * c + f + t >= 1460 then 1 else 0;
    assert doe / 1460 == 25 * c + f + late;
    assert doe / 36524 == c;
    assert doe / 146096 == 0;
    assert Yoe(doe) == (36500 * c + 1460 * f + t - late) / 365;
  }

  lemma MarchDaysOfParts(c: nat, f: nat, g: nat)
    requires f <= 24 && g <= 3
    ensures MarchDays(100 * c + 4 * f + g) == 36524 * c + 1461 * f + 365 * g
  {
    var y := 100 * c + 4 * f + g;
    assert y / 4 == 25 * c + f && y / 100 == c;
  }

  lemma LeapAfterCycle(c: nat, f: nat)
    requires f < 24
    ensures IsLeap(100 * c + 4 * f + 4)
  {
    var y := 100 * c + 4 * f + 4;
    assert y % 4 == 0 by { MultipleOf4(y, 25 * c + f + 1); }
    assert y % 100 == 4 * f + 4;
  }

  /** The year of era puts the day inside that March year: at most its 366th day, and that only in a leap year. */
  lemma YoeIsYear(doe: nat)
    requires doe < 146097
    ensures var yoe := Yoe(doe);
      && yoe <= 399
      && MarchDays(yoe) <= doe <= MarchDays(yoe) + 365
      && (doe == MarchDays(yoe) + 365 ==> IsLeap(yoe + 1))
  {
    if doe == 146096 {
      assert Yoe(doe) == 399;
    } else {
      var c := doe / 36524;
      var r := doe % 36524;
      var f := r / 1461;
      var t := r % 1461;
      YoeOfParts(doe, c, f, t);
      var g := if t >= 1095 then 3 else t / 365;
      MarchDaysOfParts(c, f, g);
      if t == 365 * g + 365 { LeapAfterCycle(c, f); }
    }
  }

  function One(b: bool): nat { if b then 1 else 0 }

  /** How many multiples of d there are below y. */
  function Multiples(d: nat, y: nat): nat
    requires d > 0
  {
    (y + (d - 1)) / d
  }

  lemma NextMultiple4(x: nat)
    ensures Multiples(4, x + 1) == Multiples(4, x) + One(x % 4 == 0)
  {
  }

  lemma NextMultiple100(x: nat)
    ensures Multiples(100, x + 1) == Multiples(100, x) + One(x % 100 == 0)
  {
  }

  lemma NextMultiple400(x: nat)
    ensures Multiples(400, x + 1) == Multiples(400, x) + One(x % 400 == 0)
  {
  }

  lemma MultipleOf4(x: nat, q: nat)
    requires x == 4 * q
    ensures x % 4 == 0
  {
  }

  lemma MultipleOf100(x: nat, q: nat)
    requires x == 100 * q
    ensures x % 100 == 0
  {
  }

  lemma LeapDayByDivisors(x: nat)
    ensures LeapDay(x) == One(x % 4 == 0) - One(x % 100 == 0) + One(x % 400 == 0)
  {
    if x % 100 == 0 { MultipleOf4(x, 25 * (x / 100)); }
    if x % 400 == 0 { MultipleOf100(x, 4 * (x / 400)); }
  }

  lemma {:induction false} LeapDaysBefore(y: nat)
    ensures DaysBeforeYear(y) == 365 * y + Multiples(4, y) - Multiples(100, y) + Multiples(400, y)
  {
    if y > 0 {
      LeapDaysBefore(y - 1);
      hide LeapDay, One, Multiples;
      NextMultiple4(y - 1);
      NextMultiple100(y - 1);
      NextMultiple400(y - 1);
      LeapDayByDivisors(y - 1);
    }
  }

  lemma DaysBeforeYearClosed(y: nat)
    ensures DaysBeforeYear(y) == 365 * y + (y + 3) / 4 - (y + 99) / 100 + (y + 399) / 400
  {
    LeapDaysBefore(y);
  }

  lemma EraDivisions(era: nat, yoe: nat)
    ensures var y := yoe + era * 400;
      && (y + 4) / 4 == yoe / 4 + 100 * era + 1
      && (y + 100) / 100 == yoe / 100 + 4 * era + 1
      && (y + 400) / 400 == yoe / 400 + era + 1
  {
    var y := yoe + era * 400;
    assert y + 4 == 4 * (yoe / 4 + 100 * era + 1) + yoe % 4;
    assert y + 100 == 100 * (yoe / 100 + 4 * era + 1) + yoe % 100;
    assert y + 400 == 400 * (yoe / 400 + era + 1) + yoe % 400;
  }

  lemma SameBy4(x: nat, n: nat, q: nat)
    requires x == n + 4 * q
    ensures x % 4 == n % 4
  {
  }

  lemma SameBy100(x: nat, n: nat, q: nat)
    requires x == n + 100 * q
    ensures x % 100 == n % 100
  {
  }

  lemma SameBy400(x: nat, n: nat, q: nat)
    requires x == n + 400 * q
    ensures x % 400 == n % 400
  {
  }

  lemma EraRemainders(era: nat, n: nat)
    ensures IsLeap(n + era * 400) == IsLeap(n)
  {
    var x := n + era * 400;
    SameBy4(x, n, 100 * era);
    SameBy100(x, n, 4 * era);
    SameBy400(x, n, era);
  }

  /** 1 January of the year after March year y comes 306 days into it. */
  lemma MarchYearStart(era: nat, yoe: nat)
    requires yoe <= 399
    ensures var y := yoe + era * 400;
      && DaysBeforeYear(y + 1) == 146097 * era + MarchDays(yoe) + 366
      && IsLeap(y + 1) == IsLeap(yoe + 1)
  {
    hide DaysBeforeYear, IsLeap;
    DaysBeforeYearClosed(yoe + era * 400 + 1);
    EraDivisions(era, yoe);
    EraRemainders(era, yoe + 1);
    assert yoe + era * 400 + 1 == yoe + 1 + era * 400;
  }

  lemma DaysBefore1970()
    ensures DaysBeforeYear(1970) == 719528
  {
    DaysBeforeYearClosed(1970);
  }

  // ---- the month ----

  lemma MonthStarts(y: nat)
    ensures DaysBeforeMonth(y, 2) == 31
    ensures var l := LeapDay(y);
      && DaysBeforeMonth(y, 3) == 59 + l && DaysBeforeMonth(y, 4) == 90 + l && DaysBeforeMonth(y, 5) == 120 + l
      && DaysBeforeMonth(y, 6) == 151 + l && DaysBeforeMonth(y, 7) == 181 + l && DaysBeforeMonth(y, 8) == 212 + l
      && DaysBeforeMonth(y, 9) == 243 + l && DaysBeforeMonth(y, 10) == 273 + l && DaysBeforeMonth(y, 11) == 304 + l
      && DaysBeforeMonth(y, 12) == 334 + l && DaysBeforeMonth(y, 13) == 365 + l
  {
    assert DaysBeforeMonth(y, 2) == 31;
    assert DaysBeforeMonth(y, 4) == DaysBeforeMonth(y, 3) + 31;
    assert DaysBeforeMonth(y, 6) == DaysBeforeMonth(y, 5) + 31;
    assert DaysBeforeMonth(y, 8) == DaysBeforeMonth(y, 7) + 31;
    assert DaysBeforeMonth(y, 10) == DaysBeforeMonth(y, 9) + 30;
    assert DaysBeforeMonth(y, 12) == DaysBeforeMonth(y, 11) + 30;
  }

  /** Day doy of a March year, as month and day: the month table of the formula is the calendar's. */
  lemma MonthOfDay(y: nat, doy: nat)
    requires doy <= 365 && (doy == 365 ==> IsLeap(y + 1))
    ensures var mp := (5 * doy + 2) / 153;
      var d := doy - (153 * mp + 2) / 5 + 1;
      && mp <= 11
      && (mp < 10 ==> 1 <= d <= DaysInMonth(y, mp + 3) && DaysBeforeMonth(y, mp + 3) + d - 1 == doy + 59 + LeapDay(y))
      && (mp >= 10 ==> 1 <= d <= DaysInMonth(y + 1, mp - 9) && DaysBeforeMonth(y + 1, mp - 9) + d - 1 == doy - 306)
  {
    MonthStarts(y);
    MonthStarts(y + 1);
    var mp := (5 * doy + 2) / 153;
    if mp < 6 {
      if mp == 0 {} else if mp == 1 {} else if mp == 2 {} else if mp == 3 {} else if mp == 4 {} else {}
    } else {
      if mp == 6 {} else if mp == 7 {} else if mp == 8 {} else if mp == 9 {} else if mp == 10 {} else {}
    }
  }

  // ---- correctness of the date ----

  lemma YearLength(y: nat)
    ensures DaysBeforeYear(y + 1) == DaysBeforeYear(y) + 365 + LeapDay(y)
  {
  }

  /** The date at day doe of an era, and its place in the calendar. */
  lemma DateInEra(era: nat, doe: nat)
    requires doe < 146097
    ensures var yoe := Yoe(doe);
      var doy := doe - MarchDays(yoe);
      0 <= doy
      && var y, mp := yoe + era * 400, (5 * doy + 2) / 153;
      mp <= 11 && 0 <= doy - (153 * mp + 2) / 5 + 1
      && var d := Date(if mp < 10 then y else y + 1, if mp < 10 then mp + 3 else mp - 9, doy - (153 * mp + 2) / 5 + 1);
      IsDate(d) && DaysFromCivil(d) == 146097 * era + doe - 719468
  {
    hide DaysBeforeYear, DaysBeforeMonth, DaysInMonth, IsLeap, MarchDays, Yoe, LeapDay;
    var yoe := Yoe(doe);
    YoeIsYear(doe);
    MarchYearStart(era, yoe);
    var y := yoe + era * 400;
    MonthOfDay(y, doe - MarchDays(yoe));
    DaysBefore1970();
    YearLength(y);
  }

  /** Every day number maps to a valid civil date, and the calendar maps that date back to the day number. */
  lemma CivilFromDaysInverts(days: nat)
    ensures IsDate(CivilFromDays(days)) && DaysFromCivil(CivilFromDays(days)) == days
  {
    hide IsDate, DaysFromCivil, Yoe;
    var z := days + 719468;
    DateInEra(z / 146097, z - z / 146097 * 146097);
  }

  lemma {:induction false} DaysBeforeYearGrows(y: nat, y': nat)
    requires y < y'
    ensures DaysBeforeYear(y) + 365 + LeapDay(y) <= DaysBeforeYear(y')
  {
    if y + 1 < y' { DaysBeforeYearGrows(y, y' - 1); }
  }

  lemma {:induction false} DaysBeforeMonthGrows(y: nat, m: nat, m': nat)
    requires 1 <= m < m'
    ensures DaysBeforeMonth(y, m) + DaysInMonth(y, m) <= DaysBeforeMonth(y, m')
  {
    if m + 1 < m' { DaysBeforeMonthGrows(y, m, m' - 1); }
  }

  lemma DaysFromCivilOrders(a: Date, b: Date)
    requires IsDate(a) && IsDate(b) && DateLess(a, b)
    ensures DaysFromCivil(a) < DaysFromCivil(b)
  {
    if a.year < b.year {
      DaysBeforeYearGrows(a.year, b.year);
      DaysBeforeMonthGrows(a.year, a.month, 13);
      MonthStarts(a.year);
    } else if a.month < b.month {
      DaysBeforeMonthGrows(a.year, a.month, b.month);
    }
  }

  /** The date is the only valid one with that day number. */
  lemma DateIsUnique(days: nat, d: Date)
    requires IsDate(d) && DaysFromCivil(d) == days
    ensures d == CivilFromDays(days)
  {
    CivilFromDaysInverts(days);
    var e := CivilFromDays(days);
    if DateLess(d, e) { DaysFromCivilOrders(d, e); }
    if DateLess(e, d) { DaysFromCivilOrders(e, d); }
  }

  lemma NextDateIsNextDay(d: Date)
    requires IsDate(d)
    ensures IsDate(NextDate(d)) && DaysFromCivil(NextDate(d)) == DaysFromCivil(d) + 1
  {
    hide DaysInMonth, DaysBeforeMonth, DaysBeforeYear;
    if d.day < DaysInMonth(d.year, d.month) {
    } else if d.month < 12 {
      MonthLength(d.year, d.month);
    } else {
      YearTurns(d.year);
    }
  }

  lemma MonthLength(y: nat, m: nat)
    requires 1 <= m < 12
    ensures DaysBeforeMonth(y, m + 1) == DaysBeforeMonth(y, m) + DaysInMonth(y, m) && DaysInMonth(y, m + 1) >= 1
  {
  }

  lemma YearTurns(y: nat)
    ensures DaysBeforeYear(y + 1) + DaysBeforeMonth(y + 1, 1) == DaysBeforeYear(y) + DaysBeforeMonth(y, 12) + DaysInMonth(y, 12)
    ensures DaysInMonth(y + 1, 1) >= 1
  {
    MonthStarts(y);
    YearLength(y);
  }

  /** Consecutive days have consecutive dates. */
  lemma NextDayNextDate(days: nat)
    ensures CivilFromDays(days + 1) == NextDate(CivilFromDays(days))
  {
    hide *;
    CivilFromDaysInverts(days);
    NextDateIsNextDay(CivilFromDays(days));
    DateIsUnique(days + 1, NextDate(CivilFromDays(days)));
  }

  lemma EarlierDayEarlierDate(i: nat, j: nat)
    requires i < j
    ensures DateLess(CivilFromDays(i), CivilFromDays(j))
  {
    CivilFromDaysInverts(i);
    CivilFromDaysInverts(j);
    var a, b := CivilFromDays(i), CivilFromDays(j);
    if DateLess(b, a) { DaysFromCivilOrders(b, a); }
  }

  // ---- the strings ----

  /** The decimal digits of n, zero-padded to at least w. */
  function Padded(n: nat, w: nat): string {
    if w == 0 then if n == 0 then "" else Padded(n / 10, 0) + [Digit(n % 10)]
    else Padded(n / 10, w - 1) + [Digit(n % 10)]
  }

  function DateStamp(d: Date): string {
    Padded(d.year, 4) + Padded(d.month, 2) + Padded(d.day, 2)
  }

  function AmzDate(secs: nat): (string, string) {
    var stamp := DateStamp(CivilFromDays(secs / 86400));
    var s := secs % 86400;
    (stamp + "T" + Padded(s / 3600, 2) + Padded(s % 3600 / 60, 2) + Padded(s % 60, 2) + "Z", stamp)
  }

  /** 1 January 10000. */
  const YEAR_10000: nat := 253402300800

  function Pow10(w: nat): nat { if w == 0 then 1 else 10 * Pow10(w - 1) }

  lemma {:induction false} PaddedWidth(n: nat, w: nat)
    requires n < Pow10(w)
    ensures |Padded(n, w)| == w
  {
    if w > 0 { PaddedWidth(n / 10, w - 1); }
  }

  lemma {:induction false} LessAfterPrefix(p: string, x: string, y: string)
    ensures Less(p + x, p + y) == Less(x, y)
  {
    if p == [] {
      assert p + x == x && p + y == y;
    } else {
      assert (p + x)[1..] == p[1..] + x && (p + y)[1..] == p[1..] + y;
      LessAfterPrefix(p[1..], x, y);
    }
  }

  /** A difference within equally long beginnings decides, whatever follows. */
  lemma {:induction false} LessBeforeSuffix(p: string, q: string, x: string, y: string)
    requires |p| == |q| && Less(p, q)
    ensures Less(p + x, q + y)
  {
    assert (p + x)[1..] == p[1..] + x && (q + y)[1..] == q[1..] + y;
    if p[0] == q[0] { LessBeforeSuffix(p[1..], q[1..], x, y); }
  }

  lemma {:induction false} PaddedOrders(a: nat, b: nat, w: nat)
    requires a < b < Pow10(w)
    ensures Less(Padded(a, w), Padded(b, w))
  {
    if w > 0 {
      PaddedWidth(a / 10, w - 1);
      PaddedWidth(b / 10, w - 1);
      if a / 10 < b / 10 {
        PaddedOrders(a / 10, b / 10, w - 1);
        hide Less;
        LessBeforeSuffix(Padded(a / 10, w - 1), Padded(b / 10, w - 1), [Digit(a % 10)], [Digit(b % 10)]);
      } else {
        LessAfterPrefix(Padded(a / 10, w - 1), [Digit(a % 10)], [Digit(b % 10)]);
      }
    }
  }

  /** Two fixed-width fields followed by anything order like the numbers, then like what follows. */
  lemma FieldOrders(a: nat, b: nat, w: nat, x: string, y: string)
    requires a < Pow10(w) && b < Pow10(w)
    ensures a < b ==> Less(Padded(a, w) + x, Padded(b, w) + y)
    ensures a == b ==> Less(Padded(a, w) + x, Padded(b, w) + y) == Less(x, y)
  {
    PaddedWidth(a, w);
    PaddedWidth(b, w);
    if a < b {
      PaddedOrders(a, b, w);
      LessBeforeSuffix(Padded(a, w), Padded(b, w), x, y);
    } else if a == b {
      LessAfterPrefix(Padded(a, w), x, y);
    }
  }

  function Clock(s: nat): string {
    Padded(s / 3600, 2) + (Padded(s % 3600 / 60, 2) + (Padded(s % 60, 2) + "Z"))
  }

  lemma ClockFields(s: nat, t: nat)
    requires s < t < 86400
    ensures s / 3600 <= t / 3600 < 100 && s % 3600 / 60 < 100 && t % 3600 / 60 < 100
    ensures s / 3600 == t / 3600 ==> s % 3600 / 60 <= t % 3600 / 60
    ensures s / 3600 == t / 3600 && s % 3600 / 60 == t % 3600 / 60 ==> s % 60 < t % 60
  {
    var m, n := s % 3600, t % 3600;
    assert s == 3600 * (s / 3600) + m && t == 3600 * (t / 3600) + n;
    assert m == 60 * (m / 60) + m % 60 && n == 60 * (n / 60) + n % 60;
    assert s % 60 == m % 60 by { assert s == 60 * (60 * (s / 3600) + m / 60) + m % 60; }
    assert t % 60 == n % 60 by { assert t == 60 * (60 * (t / 3600) + n / 60) + n % 60; }
  }

  lemma ClockOrders(s: nat, t: nat)
    requires s < t < 86400
    ensures Less(Clock(s), Clock(t))
  {
    ClockFields(s, t);
    assert Pow10(2) == 100;
    hide Less, Padded, Pow10;
    var ss, tt := Padded(s % 60, 2) + "Z", Padded(t % 60, 2) + "Z";
    FieldOrders(s % 60, t % 60, 2, "Z", "Z");
    FieldOrders(s % 3600 / 60, t % 3600 / 60, 2, ss, tt);
    FieldOrders(s / 3600, t / 3600, 2, Padded(s % 3600 / 60, 2) + ss, Padded(t % 3600 / 60, 2) + tt);
  }

  lemma YearBelow10000(days: nat)
    requires days < YEAR_10000 / 86400
    ensures CivilFromDays(days).year < 10000
  {
    hide CivilFromDays, DaysBeforeYear;
    CivilFromDaysInverts(days);
    var d := CivilFromDays(days);
    DaysBefore1970();
    DaysBeforeYearClosed(10000);
    if d.year >= 10000 {
      if d.year > 10000 { DaysBeforeYearGrows(10000, d.year); }
    }
  }

  lemma AmzDateParts(s: nat)
    ensures AmzDate(s).0 == DateStamp(CivilFromDays(s / 86400)) + ("T" + Clock(s % 86400))
  {
    hide CivilFromDays, DateStamp, Padded;
  }

  // ---- when timestamps order as strings ----

  /** A date as one number: its stamp's digits. */
  function StampNumber(d: Date): nat { 100 * (100 * d.year + d.month) + d.day }

  /** n without its last j digits. */
  function Shorten(n: nat, j: nat): nat { if j == 0 then n else Shorten(n / 10, j - 1) }

  /** Padding to the width a number has anyway changes nothing. */
  lemma {:induction false} PaddedExact(n: nat, w: nat)
    ensures var u := |Padded(n, w)|; u >= w && n < Pow10(u) && Padded(n, u) == Padded(n, w)
    decreases n, w
  {
    if n > 0 || w > 0 { PaddedExact(n / 10, if w == 0 then 0 else w - 1); }
  }

  lemma {:induction false} PaddedWidthGrows(a: nat, b: nat, w: nat)
    requires a <= b
    ensures |Padded(a, w)| <= |Padded(b, w)|
    decreases b, w
  {
    if b > 0 || w > 0 { PaddedWidthGrows(a / 10, b / 10, if w == 0 then 0 else w - 1); }
  }

  lemma {:induction false} PaddedIsDigits(n: nat, w: nat, i: nat)
    requires i < |Padded(n, w)|
    ensures Padded(n, w)[i] <= '9'
    decreases n, w
  {
    var front := Padded(n / 10, if w == 0 then 0 else w - 1);
    if i < |front| { PaddedIsDigits(n / 10, if w == 0 then 0 else w - 1, i); }
  }

  lemma PaddedTwoMore(a: nat, b: nat, w: nat)
    requires b < 100
    ensures Padded(100 * a + b, w + 2) == Padded(a, w) + Padded(b, 2)
  {
    var n := 100 * a + b;
    assert n / 10 == 10 * a + b / 10 && n % 10 == b % 10;
    assert n / 10 / 10 == a && n / 10 % 10 == b / 10;
    assert Padded(n, w + 2) == Padded(n / 10, w + 1) + [Digit(b % 10)];
    assert Padded(n / 10, w + 1) == Padded(a, w) + [Digit(b / 10)];
    assert Padded(b, 2) == Padded(b / 10, 1) + [Digit(b % 10)];
    assert b / 10 / 10 == 0 && Padded(0, 0) == "";
    assert Padded(b / 10, 1) == [Digit(b / 10)];
    ConcatAssociates(Padded(a, w), [Digit(b / 10)], [Digit(b % 10)]);
  }

  lemma PowFour(u: nat)
    ensures Pow10(u + 4) == 10000 * Pow10(u)
  {
    assert Pow10(u + 2) == 100 * Pow10(u);
  }

  lemma DateIsSmall(d: Date)
    requires IsDate(d)
    ensures d.month < 100 && d.day < 100
  {
  }

  /** A date stamp is its number in the width of its year and four. */
  lemma StampIsNumber(d: Date)
    requires IsDate(d)
    ensures var u := |Padded(d.year, 4)|;
      DateStamp(d) == Padded(StampNumber(d), u + 4) && StampNumber(d) < Pow10(u + 4)
  {
    hide Padded, Pow10, IsDate;
    var u := |Padded(d.year, 4)|;
    DateIsSmall(d);
    PaddedExact(d.year, 4);
    PowFour(u);
    PaddedTwoMore(d.year, d.month, u);
    PaddedTwoMore(100 * d.year + d.month, d.day, u + 2);
  }

  /** Cutting off the last j places leaves the number without its last j digits. */
  lemma {:induction false} PaddedPrefix(n: nat, w: nat, j: nat)
    requires n < Pow10(w + j)
    ensures |Padded(n, w + j)| == w + j && Shorten(n, j) < Pow10(w)
    ensures Padded(n, w + j)[..w] == Padded(Shorten(n, j), w)
  {
    PaddedWidth(n, w + j);
    if j > 0 {
      PaddedPrefix(n / 10, w, j - 1);
      assert Padded(n, w + j) == Padded(n / 10, w + j - 1) + [Digit(n % 10)];
    }
  }

  lemma LessIsAsymmetric(a: string, b: string)
    requires Less(a, b)
    ensures !Less(b, a) && a != b
  {
    LessIrreflexive(a);
    if Less(b, a) { LessTransitive(a, b, a); }
  }

  /** Two numbers of one width followed by anything order like the numbers, then like what follows. */
  lemma NumbersOrder(a: nat, b: nat, w: nat, x: string, y: string)
    requires a < Pow10(w) && b < Pow10(w)
    ensures Less(Padded(a, w) + x, Padded(b, w) + y) <==> a < b || (a == b && Less(x, y))
  {
    hide Padded, Pow10, Less;
    FieldOrders(a, b, w, x, y);
    if b < a {
      FieldOrders(b, a, w, y, x);
      LessIsAsymmetric(Padded(b, w) + y, Padded(a, w) + x);
    }
  }

  /** A narrower number, then a letter, against a wider one: only the common width decides. */
  lemma NarrowAgainstWide(a: nat, b: nat, w: nat, j: nat, x: string, y: string)
    requires a < Pow10(w) && b < Pow10(w + j) && j > 0 && x != "" && x[0] > '9'
    ensures Less(Padded(a, w) + x, Padded(b, w + j) + y) <==> a < Shorten(b, j)
  {
    PaddedPrefix(b, w, j);
    var wide := Padded(b, w + j);
    var rest := wide[w..] + y;
    PaddedIsDigits(b, w + j, w);
    assert !Less(x, rest) by { assert rest[0] == wide[w]; }
    hide Padded, Less, Shorten;
    assert wide + y == wide[..w] + rest;
    NumbersOrder(a, Shorten(b, j), w, x, rest);
  }

  lemma StampNumberOrders(a: Date, b: Date)
    requires IsDate(a) && IsDate(b) && DateLess(a, b)
    ensures StampNumber(a) < StampNumber(b)
  {
  }

  /** Digits a year takes in a timestamp: four, or more from year 10000 on. */
  function YearWidth(days: nat): nat { |Padded(CivilFromDays(days).year, 4)| }

  lemma LaterYearIsWider(i: nat, j: nat)
    requires i <= j
    ensures YearWidth(i) <= YearWidth(j)
  {
    hide CivilFromDays, Padded, IsDate;
    if i < j { EarlierDayEarlierDate(i, j); }
    PaddedWidthGrows(CivilFromDays(i).year, CivilFromDays(j).year, 4);
  }

  /** Two stamps, each followed by a letter and more. */
  lemma StampsOrder(a: Date, b: Date, x: string, y: string)
    requires IsDate(a) && IsDate(b) && x != "" && x[0] > '9'
    ensures var u, v := |Padded(a.year, 4)|, |Padded(b.year, 4)|;
      && (u == v ==> (Less(DateStamp(a) + x, DateStamp(b) + y) <==>
                      StampNumber(a) < StampNumber(b) || (StampNumber(a) == StampNumber(b) && Less(x, y))))
      && (u < v ==> (Less(DateStamp(a) + x, DateStamp(b) + y) <==> StampNumber(a) < Shorten(StampNumber(b), v - u)))
  {
    hide IsDate, DateStamp, Less, Padded, StampNumber, Shorten, Pow10;
    var u, v := |Padded(a.year, 4)|, |Padded(b.year, 4)|;
    StampIsNumber(a);
    StampIsNumber(b);
    if u < v {
      assert u + 4 + (v - u) == v + 4;
      NarrowAgainstWide(StampNumber(a), StampNumber(b), u + 4, v - u, x, y);
    } else if u == v {
      NumbersOrder(StampNumber(a), StampNumber(b), u + 4, x, y);
    }
  }

  /** On one day the clocks decide, otherwise the stamps' numbers. */
  lemma LaterStampOrClock(i: nat, c: nat, j: nat, d: nat)
    requires c < 86400 && d < 86400 && (i < j || (i == j && c < d))
    ensures var a, b := StampNumber(CivilFromDays(i)), StampNumber(CivilFromDays(j));
      a < b || (a == b && Less("T" + Clock(c), "T" + Clock(d)))
  {
    hide CivilFromDays, IsDate, Less, Clock, StampNumber, DateLess;
    if i < j {
      CivilFromDaysInverts(i);
      CivilFromDaysInverts(j);
      EarlierDayEarlierDate(i, j);
      StampNumberOrders(CivilFromDays(i), CivilFromDays(j));
    } else {
      ClockOrders(c, d);
      LessAfterPrefix("T", Clock(c), Clock(d));
    }
  }

  function Instant(i: nat, c: nat): string { DateStamp(CivilFromDays(i)) + ("T" + Clock(c)) }

  /** Both years have the same number of digits, or the earlier date's digits are less than as many of the later date's. */
  predicate InOrder(i: nat, j: nat) {
    YearWidth(i) >= YearWidth(j)
    || StampNumber(CivilFromDays(i)) < Shorten(StampNumber(CivilFromDays(j)), YearWidth(j) - YearWidth(i))
  }

  lemma InstantsOrder(i: nat, c: nat, j: nat, d: nat)
    requires c < 86400 && d < 86400 && (i < j || (i == j && c < d))
    ensures YearWidth(i) <= YearWidth(j)
    ensures Less(Instant(i, c), Instant(j, d)) <==> InOrder(i, j)
  {
    hide CivilFromDays, IsDate, DateStamp, Less, Padded, Clock, StampNumber, Shorten;
    CivilFromDaysInverts(i);
    CivilFromDaysInverts(j);
    LaterYearIsWider(i, j);
    LaterStampOrClock(i, c, j, d);
    StampsOrder(CivilFromDays(i), CivilFromDays(j), "T" + Clock(c), "T" + Clock(d));
  }

  /** The exact condition, for all instants, under which an earlier one comes first as a string. */
  lemma AmzDateOrdersIff(s: nat, t: nat)
    requires s < t
    ensures Less(AmzDate(s).0, AmzDate(t).0) <==> InOrder(s / 86400, t / 86400)
  {
    AmzDateParts(s);
    AmzDateParts(t);
    hide InOrder, CivilFromDays, DateStamp, Less, Clock, AmzDate;
    InstantsOrder(s / 86400, s % 86400, t / 86400, t % 86400);
  }

  /** Up to the end of year 9999, timestamps order as strings exactly as they do as numbers. */
  lemma AmzDateOrders(s: nat, t: nat)
    requires s < t < YEAR_10000
    ensures Less(AmzDate(s).0, AmzDate(t).0)
  {
    assert Pow10(4) == 10000;
    hide CivilFromDays, Less, Padded, AmzDate, StampNumber, Shorten;
    YearBelow10000(s / 86400);
    YearBelow10000(t / 86400);
    PaddedWidth(CivilFromDays(s / 86400).year, 4);
    PaddedWidth(CivilFromDays(t / 86400).year, 4);
    AmzDateOrdersIff(s, t);
  }

  lemma LastDayOf9999()
    ensures IsDate(Date(9999, 12, 31)) && DaysFromCivil(Date(9999, 12, 31)) == 2932896
  {
    hide DaysBeforeYear, DaysBeforeMonth, CivilFromDays;
    DaysBefore1970();
    DaysBeforeYearClosed(9999);
    MonthStarts(9999);
    assert LeapDay(9999) == 0;
  }

  lemma TurnOfYear10000()
    ensures CivilFromDays(2932896) == Date(9999, 12, 31) && CivilFromDays(2932897) == Date(10000, 1, 1)
  {
    assert DaysInMonth(9999, 12) == 31;
    hide DaysFromCivil, CivilFromDays, IsDate, DaysInMonth;
    LastDayOf9999();
    DateIsUnique(2932896, Date(9999, 12, 31));
    NextDayNextDate(2932896);
  }

  lemma WidthsAtYear10000()
    ensures |Padded(9999, 4)| == 4 && |Padded(10000, 4)| == 5
  {
    assert Pow10(1) == 10 && Pow10(2) == 100 && Pow10(3) == 1000 && Pow10(4) == 10000;
    PaddedWidth(9999, 4);
    PaddedWidth(1000, 4);
    assert Padded(10000, 4) == Padded(1000, 3) + [Digit(0)];
    PaddedExact(1000, 3);
    PaddedWidthGrows(1000, 1000, 4);
    FourDigits();
  }

  lemma FourDigits()
    ensures |Padded(1000, 3)| == 4
  {
    assert Padded(1, 0) == Padded(0, 0) + [Digit(1)];
    assert Padded(10, 1) == Padded(1, 0) + [Digit(0)];
    assert Padded(100, 2) == Padded(10, 1) + [Digit(0)];
    assert Padded(1000, 3) == Padded(100, 2) + [Digit(0)];
  }

  /** And no further: the last second of year 9999 does not come before the next one. */
  lemma OrderBreaksAtYear10000()
    ensures !Less(AmzDate(YEAR_10000 - 1).0, AmzDate(YEAR_10000).0)
  {
    TurnOfYear10000();
    hide CivilFromDays, Less, AmzDate, Padded;
    WidthsAtYear10000();
    assert Shorten(100000101, 1) == Shorten(10000010, 0) == 10000010;
    AmzDateOrdersIff(YEAR_10000 - 1, YEAR_10000);
  }

  /** The timestamp is 16 characters long and starts with its 8-character date stamp. */
  lemma AmzDateWidth(s: nat)
    requires s < YEAR_10000
    ensures AmzDate(s).1 <= AmzDate(s).0 && |AmzDate(s).0| == 16 && |AmzDate(s).1| == 8
  {
    var i := s / 86400;
    var d := CivilFromDays(i);
    YearBelow10000(i);
    CivilFromDaysInverts(i);
    hide CivilFromDays, Padded;
    assert Pow10(4) == 10000 && Pow10(2) == 100;
    PaddedWidth(d.year, 4);
    PaddedWidth(d.month, 2);
    PaddedWidth(d.day, 2);
    var c := s % 86400;
    PaddedWidth(c / 3600, 2);
    PaddedWidth(c % 3600 / 60, 2);
    PaddedWidth(c % 60, 2);
  }

  // ---- reading a timestamp back ----

  function NumberOf(s: string): nat {
    if s == [] then 0 else 10 * NumberOf(Init(s)) + (if IsAsciiDigit(Last(s)) then (Last(s) - '0') as nat else 0)
  }

  lemma {:induction false} PaddedReadsBack(n: nat, w: nat)
    ensures NumberOf(Padded(n, w)) == n
    decreases n, w
  {
    if w > 0 || n > 0 {
      var front := Padded(n / 10, if w == 0 then 0 else w - 1);
      PaddedReadsBack(n / 10, if w == 0 then 0 else w - 1);
      assert Padded(n, w) == front + [Digit(n % 10)];
      assert Init(front + [Digit(n % 10)]) == front;
    }
  }

  /** The instant a 16-character timestamp denotes, by the calendar. */
  function SecondsOf(t: string): int
    requires |t| == 16
  {
    86400 * DaysFromCivil(Date(NumberOf(t[..4]), NumberOf(t[4..6]), NumberOf(t[6..8])))
    + 3600 * NumberOf(t[9..11]) + 60 * NumberOf(t[11..13]) + NumberOf(t[13..15])
  }

  /** The fields of a timestamp by position. */
  lemma FieldsAt(y: string, m: string, d: string, h: string, n: string, s: string, t: string)
    requires |y| == 4 && |m| == 2 && |d| == 2 && |h| == 2 && |n| == 2 && |s| == 2
    requires t == y + m + d + "T" + h + n + s + "Z"
    ensures |t| == 16 && t[..4] == y && t[4..6] == m && t[6..8] == d && t[9..11] == h && t[11..13] == n && t[13..15] == s
  {
  }

  /** Up to the end of year 9999 a timestamp denotes the second it was made from. */
  lemma AmzDateReadsBack(secs: nat)
    requires secs < YEAR_10000
    ensures |AmzDate(secs).0| == 16 && SecondsOf(AmzDate(secs).0) == secs
  {
    var days, s := secs / 86400, secs % 86400;
    var date := CivilFromDays(days);
    YearBelow10000(days);
    CivilFromDaysInverts(days);
    assert Pow10(4) == 10000 && Pow10(2) == 100;
    assert date.month < 100 && date.day < 100;
    hide CivilFromDays, DaysFromCivil, IsDate, Padded, Pow10, NumberOf;
    Field(date.year, 4); Field(date.month, 2); Field(date.day, 2);
    var h, n, c := s / 3600, s % 3600 / 60, s % 60;
    Field(h, 2); Field(n, 2); Field(c, 2);
    FieldsAt(Padded(date.year, 4), Padded(date.month, 2), Padded(date.day, 2),
             Padded(h, 2), Padded(n, 2), Padded(c, 2), AmzDate(secs).0);
    ClockAddsUp(s);
  }

  lemma Field(n: nat, w: nat)
    requires n < Pow10(w)
    ensures |Padded(n, w)| == w && NumberOf(Padded(n, w)) == n
  {
    PaddedWidth(n, w);
    PaddedReadsBack(n, w);
  }

  lemma ClockAddsUp(s: nat)
    ensures 3600 * (s / 3600) + 60 * (s % 3600 / 60) + s % 60 == s
  {
    assert s == 60 * (60 * (s / 3600) + s % 3600 / 60) + s % 3600 % 60;
  }
}
