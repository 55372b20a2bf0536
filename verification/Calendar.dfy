/** Calendar arithmetic of base/Date.cpp and base/timezone.cpp. */
module Calendar {

  // ---------------------------------------------------------------------------------------------
  // The code. C division truncates toward zero.

  function CDiv(a: int, b: int): int
    requires b > 0
  {
    if a >= 0 then a / b else -((-a) / b)
  }

  function CMod(a: int, b: int): int
    requires b > 0
  {
    a - b * CDiv(a, b)
  }

  datatype Date = Date(year: int, month: int, day: int)

  function JulianDayNumber(t: Date): int {
    var a := CDiv(14 - t.month, 12);
    var y := t.year + 4800 - a;
    var m := t.month + 12 * a - 3;
    t.day + CDiv(153 * m + 2, 5) + y * 365 + CDiv(y, 4) - CDiv(y, 100) + CDiv(y, 400) - 32045
  }

  /** `getYearMonthDay`, in its three stages: century, year, month. */
  function YearMonthDay(j: int): Date {
    var a := j + 32044;
    var b := CDiv(4 * a + 3, 146097);
    InCentury(b, a - CDiv(b * 146097, 4))
  }

  function InCentury(b: int, c: int): Date {
    var d := CDiv(4 * c + 3, 1461);
    InYear(b * 100 + d, c - CDiv(1461 * d, 4))
  }

  function InYear(y: int, e: int): Date {
    var m := CDiv(5 * e + 2, 153);
    Date(y - 4800 + CDiv(m, 10), m + 3 - 12 * CDiv(m, 10), e - CDiv(153 * m + 2, 5) + 1)
  }

  // ---------------------------------------------------------------------------------------------
  // The proleptic Gregorian calendar

  predicate IsLeap(y: int) { y % 4 == 0 && (y % 100 != 0 || y % 400 == 0) }

  function DaysInMonth(y: int, m: int): int {
    if m == 2 then (if IsLeap(y) then 29 else 28)
    else if m == 4 || m == 6 || m == 9 || m == 11 then 30 else 31
  }

  predicate Valid(t: Date) { 1 <= t.month <= 12 && 1 <= t.day <= DaysInMonth(t.year, t.month) }

  function NextDay(t: Date): Date {
    if t.day < DaysInMonth(t.year, t.month) then t.(day := t.day + 1)
    else if t.month < 12 then Date(t.year, t.month + 1, 1)
    else Date(t.year + 1, 1, 1)
  }

  /** From 1 March of the year 4801 BC on, the arithmetic never meets a negative dividend. */
  predicate InScope(t: Date) { Valid(t) && (t.year > -4800 || (t.year == -4800 && t.month >= 3)) }

  // ---------------------------------------------------------------------------------------------
  // Years that start in March

  /** Month counted from March, and the year that March belongs to, counted from -4800. */
  function MarchMonth(month: int): int { if month >= 3 then month - 3 else month + 9 }

  function MarchYear(t: Date): int { if t.month >= 3 then t.year + 4800 else t.year + 4799 }

  function MonthStart(m: int): int { (153 * m + 2) / 5 }

  /** Days before the `d`-th year of a century and before the `b`-th century. */
  function YearStart(d: int): int { 1461 * d / 4 }

  function CenturyStart(b: int): int { 146097 * b / 4 }

  function MonthLength(m: int): int {
    if m == 1 || m == 3 || m == 6 || m == 8 then 30 else if m == 11 then 29 else 31
  }

  /** The magic 153/5 lays the months from March to February end to end. */
  lemma MonthsTile(m: int)
    requires 0 <= m <= 11
    ensures MonthStart(m) + MonthLength(m) == (if m == 11 then 366 else MonthStart(m + 1))
    ensures 0 <= MonthStart(m) <= 337
  {}

  /** ... and recovers the month from the day of the year. */
  lemma MonthRecovered(m: int, e: int)
    requires 0 <= m <= 11 && MonthStart(m) <= e < MonthStart(m) + MonthLength(m)
    ensures (5 * e + 2) / 153 == m
  {}

  lemma MonthExists(e: int)
    requires 0 <= e <= 365
    ensures var m := (5 * e + 2) / 153; 0 <= m <= 11 && MonthStart(m) <= e < MonthStart(m) + MonthLength(m)
  {}

  lemma YearRecovered(d: int, e: int)
    requires 0 <= d && 0 <= e <= 365 && (e == 365 ==> d % 4 == 3)
    ensures (4 * (YearStart(d) + e) + 3) / 1461 == d
  {}

  lemma CenturyRecovered(b: int, c: int)
    requires 0 <= b && 0 <= c <= 36524 && (c == 36524 ==> b % 4 == 3)
    ensures (4 * (CenturyStart(b) + c) + 3) / 146097 == b
  {}

  lemma YearExists(c: int)
    requires 0 <= c <= 36524
    ensures var d := (4 * c + 3) / 1461; var e := c - YearStart(d);
      0 <= d <= 99 && 0 <= e <= 365 && (e == 365 ==> d % 4 == 3) && (e == 365 && d == 99 ==> c == 36524)
  {}

  lemma CenturyExists(a: int)
    requires 0 <= a
    ensures var b := (4 * a + 3) / 146097; var c := a - CenturyStart(b);
      0 <= b && 0 <= c <= 36524 && (c == 36524 ==> b % 4 == 3)
  {
    var b, r := (4 * a + 3) / 146097, (4 * a + 3) % 146097;
    assert 4 * a + 3 == 146097 * b + r;
    var s := 146097 * b % 4;
    assert 146097 * b == 4 * CenturyStart(b) + s;
    assert s == b % 4;
  }

  /** The three counts of leap days collapse, century by century. */
  lemma LeapDays(b: int, d: int)
    requires 0 <= b && 0 <= d <= 99
    ensures var y := 100 * b + d;
      365 * y + y / 4 - y / 100 + y / 400 == CenturyStart(b) + YearStart(d)
  {
    var y := 100 * b + d;
    assert y / 100 == b && y / 400 == b / 4;
    assert y / 4 == 25 * b + d / 4;
    CenturyDays(b);
    assert YearStart(d) == 365 * d + d / 4;
  }

  /** Day of the March year, from 0. */
  function DayOfYear(t: Date): int { MonthStart(MarchMonth(t.month)) + t.day - 1 }

  /** The Julian day number as century + year + month + day. */
  lemma JulianParts(t: Date)
    requires InScope(t)
    ensures MarchYear(t) >= 0
    ensures var y := MarchYear(t);
      JulianDayNumber(t) == CenturyStart(y / 100) + YearStart(y % 100) + DayOfYear(t) - 32044
  {
    var y := MarchYear(t);
    var a := CDiv(14 - t.month, 12);
    assert a == if t.month >= 3 then 0 else 1;
    LeapDays(y / 100, y % 100);
    assert y == 100 * (y / 100) + y % 100;
  }

  lemma {:induction false} AtLeastOnce(n: int, k: int)
    requires n > 0 && k >= 1
    ensures n * k >= n
    decreases k
  {
    if k > 1 {
      AtLeastOnce(n, k - 1);
      assert n * k == n * (k - 1) + n;
    }
  }

  lemma NotBelow(n: int, p: int, m: int, q: int, r: int)
    requires 0 <= m < n && 0 <= r < n && n * p + m == n * q + r
    ensures p <= q
  {
    if p > q {
      var k := p - q;
      assert n * k == n * p - n * q by {
        assert p == q + k;
      }
      AtLeastOnce(n, k);
    }
  }

  lemma OnlyQuotient(n: int, p: int, m: int, q: int, r: int)
    requires 0 <= m < n && 0 <= r < n && n * p + m == n * q + r
    ensures p == q && m == r
  {
    NotBelow(n, p, m, q, r);
    NotBelow(n, q, r, p, m);
  }

  lemma Quotient(z: int, n: int, q: int, r: int)
    requires 0 <= r < n && z == n * q + r
    ensures z / n == q && z % n == r
  {
    OnlyQuotient(n, z / n, z % n, q, r);
  }

  /** Shifting by the 4800 years, twelve times 400, keeps the leap years. */
  lemma FourHundredYears(z: int)
    ensures IsLeap(z - 4800) <==> IsLeap(z)
  {
    Quotient(z - 4800, 4, z / 4 - 1200, z % 4);
    Quotient(z - 4800, 100, z / 100 - 48, z % 100);
    Quotient(z - 4800, 400, z / 400 - 12, z % 400);
  }

  lemma LeapParts(b: int, d: int)
    requires 0 <= d <= 99
    ensures IsLeap(100 * b + d + 1) <==> d % 4 == 3 && (d == 99 ==> b % 4 == 3)
  {
    var z := 100 * b + d + 1;
    Quotient(z, 4, 25 * b + (d + 1) / 4, (d + 1) % 4);
    if d == 99 {
      Quotient(z, 100, b + 1, 0);
      Quotient(z, 400, (b + 1) / 4, (b + 1) % 4 * 100);
    } else {
      Quotient(z, 100, b, d + 1);
    }
  }

  /** In terms of March years, a leap year is one whose last day is the 366th. */
  lemma LeapMarch(y: int)
    requires y >= 0
    ensures IsLeap(y - 4799) <==> y % 100 % 4 == 3 && (y % 100 == 99 ==> y / 100 % 4 == 3)
  {
    FourHundredYears(y + 1);
    LeapParts(y / 100, y % 100);
  }

  lemma MonthLengthIsDays(t: Date)
    requires 1 <= t.month <= 12
    ensures DaysInMonth(t.year, t.month) ==
      if t.month == 2 then (if IsLeap(t.year) then 29 else 28) else MonthLength(MarchMonth(t.month))
  {}

  /** A valid date's day lies in its month, and past the 365th only in a leap year. */
  lemma DayOfYearInRange(t: Date)
    requires InScope(t)
    ensures var m, e := MarchMonth(t.month), DayOfYear(t);
      0 <= m <= 11 && 0 <= e <= 365 && MonthStart(m) <= e < MonthStart(m) + MonthLength(m)
    ensures DayOfYear(t) == 365 ==> IsLeap(MarchYear(t) - 4799)
  {
    MonthLengthIsDays(t);
    MonthsTile(MarchMonth(t.month));
  }

  /** The date `getYearMonthDay` assembles from its parts. */
  function FromParts(y: int, m: int, e: int): Date {
    Date(y - 4800 + m / 10, m + 3 - 12 * (m / 10), e - MonthStart(m) + 1)
  }

  lemma InYearParts(y: int, e: int)
    requires 0 <= e <= 365
    ensures InYear(y, e) == FromParts(y, (5 * e + 2) / 153, e)
  {
    MonthExists(e);
  }

  lemma InCenturyParts(b: int, d: int, e: int)
    requires 0 <= d && 0 <= e <= 365 && (e == 365 ==> d % 4 == 3)
    ensures InCentury(b, YearStart(d) + e) == InYear(100 * b + d, e)
  {
    YearRecovered(d, e);
  }

  lemma CenturyParts(b: int, c: int)
    requires 0 <= b && 0 <= c <= 36524 && (c == 36524 ==> b % 4 == 3)
    ensures YearMonthDay(CenturyStart(b) + c - 32044) == InCentury(b, c)
  {
    CenturyRecovered(b, c);
  }

  lemma LastDayOfCentury(d: int, e: int)
    requires 0 <= d <= 99 && 0 <= e <= 365 && (e == 365 ==> d % 4 == 3)
    ensures 0 <= YearStart(d) + e <= 36524
    ensures YearStart(d) + e == 36524 <==> d == 99 && e == 365
  {}

  /** `getYearMonthDay` recovers century, year and day of the year. */
  lemma YearMonthDayParts(b: int, d: int, e: int)
    requires 0 <= b && 0 <= d <= 99 && 0 <= e <= 365
    requires e == 365 ==> d % 4 == 3 && (d == 99 ==> b % 4 == 3)
    ensures YearMonthDay(CenturyStart(b) + YearStart(d) + e - 32044) == FromParts(100 * b + d, (5 * e + 2) / 153, e)
  {
    hide *;
    LastDayOfCentury(d, e);
    CenturyParts(b, YearStart(d) + e);
    InCenturyParts(b, d, e);
    InYearParts(100 * b + d, e);
  }

  /** Every day number from -32044 on splits into century, year and day. */
  lemma DayNumberParts(j: int) returns (b: int, d: int, e: int)
    requires j >= -32044
    ensures 0 <= b && 0 <= d <= 99 && 0 <= e <= 365 && j == CenturyStart(b) + YearStart(d) + e - 32044
    ensures e == 365 ==> d % 4 == 3 && (d == 99 ==> b % 4 == 3)
  {
    var a := j + 32044;
    CenturyExists(a);
    b := (4 * a + 3) / 146097;
    var c := a - CenturyStart(b);
    YearExists(c);
    d := (4 * c + 3) / 1461;
    e := c - YearStart(d);
  }

  /** A March year, a day in it and its month make a valid date with those very parts. */
  lemma FromPartsValid(y: int, e: int)
    requires 0 <= y && 0 <= e <= 365 && (e == 365 ==> IsLeap(y - 4799))
    ensures var t := FromParts(y, (5 * e + 2) / 153, e);
      InScope(t) && MarchYear(t) == y && DayOfYear(t) == e
  {
    var m := (5 * e + 2) / 153;
    MonthExists(e);
    MonthsTile(m);
    var t := FromParts(y, m, e);
    assert MarchMonth(t.month) == m;
    MonthLengthIsDays(t);
  }

  /** `getYearMonthDay` yields a date of the calendar, and `getJulianDayNumber` inverts it. */
  lemma DayNumberRoundTrip(j: int)
    requires j >= -32044
    ensures InScope(YearMonthDay(j)) && JulianDayNumber(YearMonthDay(j)) == j
  {
    hide *;
    var b, d, e := DayNumberParts(j);
    YearMonthDayParts(b, d, e);
    Hundreds(b, d);
    LeapMarch(100 * b + d);
    FromPartsValid(100 * b + d, e);
    JulianParts(FromParts(100 * b + d, (5 * e + 2) / 153, e));
  }

  lemma Hundreds(b: int, d: int)
    requires 0 <= d <= 99
    ensures (100 * b + d) / 100 == b && (100 * b + d) % 100 == d
  {}

  lemma PartsOf(t: Date, m: int)
    requires Valid(t) && m == MarchMonth(t.month)
    ensures FromParts(MarchYear(t), m, DayOfYear(t)) == t
  {}

  /** The other way round: no two dates share a day number. */
  lemma DateRoundTrip(t: Date)
    requires InScope(t)
    ensures JulianDayNumber(t) >= -32044 && YearMonthDay(JulianDayNumber(t)) == t
  {
    hide MarchYear, DayOfYear, JulianDayNumber, YearMonthDay, FromParts, YearStart, IsLeap;
    var y, e := MarchYear(t), DayOfYear(t);
    JulianParts(t);
    DayOfYearInRange(t);
    LeapMarch(y);
    LastDayOfCentury(y % 100, e);
    YearMonthDayParts(y / 100, y % 100, e);
    MonthRecovered(MarchMonth(t.month), e);
    PartsOf(t, (5 * e + 2) / 153);
  }

  lemma NextDayStays(t: Date)
    requires InScope(t)
    ensures var u := NextDay(t);
      InScope(u) && if MarchMonth(t.month) == 11 && t.day == DaysInMonth(t.year, t.month)
                    then MarchYear(u) == MarchYear(t) + 1 && DayOfYear(u) == 0
                      && DayOfYear(t) == (if IsLeap(MarchYear(t) - 4799) then 365 else 364)
                    else MarchYear(u) == MarchYear(t) && DayOfYear(u) == DayOfYear(t) + 1
  {
    MonthLengthIsDays(t);
    MonthsTile(MarchMonth(t.month));
  }

  /** Day numbers count days: the next day of the calendar has the next number. */
  lemma NextDayNumber(t: Date)
    requires InScope(t)
    ensures InScope(NextDay(t)) && JulianDayNumber(NextDay(t)) == JulianDayNumber(t) + 1
  {
    hide *;
    NextDayStays(t);
    JulianParts(t);
    JulianParts(NextDay(t));
    YearTurns(MarchYear(t));
  }

  /** March years follow each other after 365 or 366 days. */
  lemma YearTurns(y: int)
    requires y >= 0
    ensures CenturyStart((y + 1) / 100) + YearStart((y + 1) % 100)
         == CenturyStart(y / 100) + YearStart(y % 100) + (if IsLeap(y - 4799) then 366 else 365)
  {
    hide IsLeap, CenturyStart, YearStart;
    LeapMarch(y);
    var b, d := y / 100, y % 100;
    if d == 99 {
      Quotient(y + 1, 100, b + 1, 0);
      CenturyTurns(b);
    } else {
      Quotient(y + 1, 100, b, d + 1);
      YearInCentury(d);
    }
  }

  lemma YearInCentury(d: int)
    requires 0 <= d
    ensures YearStart(d + 1) == YearStart(d) + (if d % 4 == 3 then 366 else 365)
  {}

  lemma CenturyTurns(b: int)
    ensures CenturyStart(b + 1) + YearStart(0)
         == CenturyStart(b) + YearStart(99) + (if b % 4 == 3 then 366 else 365)
  {
    CenturyDays(b);
    CenturyDays(b + 1);
  }

  lemma CenturyDays(b: int)
    ensures CenturyStart(b) == 36524 * b + b / 4
  {
    assert 146097 * b == 4 * (36524 * b) + b;
  }

  /** 32-bit `int` carries the computation exactly up to this day, in the year 1465002. */
  const LAST_DAY := 536838867

  predicate FitsInt(x: int) { -0x8000_0000 <= x < 0x8000_0000 }

  /** The largest intermediate of `getYearMonthDay` is its first one. */
  lemma NoOverflow(j: int)
    requires j >= -32044
    ensures FitsInt(4 * (j + 32044) + 3) <==> j <= LAST_DAY
    ensures j <= LAST_DAY ==>
      var a := j + 32044; var b := (4 * a + 3) / 146097; var c := a - CenturyStart(b); var d := (4 * c + 3) / 1461;
      FitsInt(b * 146097) && FitsInt(4 * c + 3) && FitsInt(1461 * d) && FitsInt(5 * (c - YearStart(d)) + 2)
  {
    CenturyExists(j + 32044);
    var a := j + 32044;
    var b := (4 * a + 3) / 146097;
    YearExists(a - CenturyStart(b));
  }

  // ---------------------------------------------------------------------------------------------
  // base/timezone.cpp

  const SECONDS_PER_DAY := 86400

  /** Day number of 1 January 1970. */
  const EPOCH_DAY := 2440588

  lemma EpochDay()
    ensures JulianDayNumber(Date(1970, 1, 1)) == EPOCH_DAY
  {
    assert CDiv(13, 12) == 1 && CDiv(153 * 10 + 2, 5) == 306;
    assert CDiv(6769, 4) == 1692 && CDiv(6769, 100) == 67 && CDiv(6769, 400) == 16;
  }

  datatype DateTime = DateTime(date: Date, hour: int, minute: int, second: int)

  predicate ValidTime(dt: DateTime) {
    InScope(dt.date) && 0 <= dt.hour < 24 && 0 <= dt.minute < 60 && 0 <= dt.second < 60
  }

  /** `fillHMS`. */
  method FillHMS(seconds: nat) returns (hour: int, minute: int, second: int)
    ensures second == seconds % 60 && minute == seconds / 60 % 60 && hour == seconds / 3600
  {
    second := seconds % 60;
    var minutes := seconds / 60;
    minute := minutes % 60;
    hour := minutes / 60;
  }

  /** What `BreakTime` computes, with division that rounds down. */
  function ToUtc(t: int): DateTime {
    var seconds := t % SECONDS_PER_DAY;
    DateTime(YearMonthDay(t / SECONDS_PER_DAY + EPOCH_DAY), seconds / 3600, seconds / 60 % 60, seconds % 60)
  }

  /** C division and a borrow make division that rounds down. */
  lemma Borrow(t: int)
    ensures var s, d := CMod(t, SECONDS_PER_DAY), CDiv(t, SECONDS_PER_DAY);
      t % SECONDS_PER_DAY == (if s < 0 then s + SECONDS_PER_DAY else s)
      && t / SECONDS_PER_DAY == (if s < 0 then d - 1 else d)
  {
    if t < 0 {
      var q, r := (-t) / 86400, (-t) % 86400;
      if r == 0 {
        Quotient(t, 86400, -q, 0);
      } else {
        Quotient(t, 86400, -q - 1, 86400 - r);
      }
    }
  }

  /** `BreakTime`: C division rounds toward zero, so a negative remainder borrows a day. */
  method BreakTime(t: int) returns (dt: DateTime)
    ensures dt == ToUtc(t)
  {
    Borrow(t);
    var seconds := CMod(t, SECONDS_PER_DAY);
    var days := CDiv(t, SECONDS_PER_DAY);
    if seconds < 0 {
      seconds := seconds + SECONDS_PER_DAY;
      days := days - 1;
    }
    var hour, minute, second := FillHMS(seconds);
    dt := DateTime(YearMonthDay(days + EPOCH_DAY), hour, minute, second);
  }

  function FromUtc(dt: DateTime): int {
    (JulianDayNumber(dt.date) - EPOCH_DAY) * SECONDS_PER_DAY + (dt.hour * 3600 + dt.minute * 60 + dt.second)
  }

  /** Seconds to date and back, also before 1970. */
  lemma SecondsRoundTrip(t: int)
    requires t >= (-32044 - EPOCH_DAY) * SECONDS_PER_DAY
    ensures ValidTime(ToUtc(t)) && FromUtc(ToUtc(t)) == t
  {
    hide YearMonthDay, JulianDayNumber, FromUtc, InScope;
    var days, s := t / SECONDS_PER_DAY, t % SECONDS_PER_DAY;
    assert days >= -32044 - EPOCH_DAY && t == days * SECONDS_PER_DAY + s;
    DayNumberRoundTrip(days + EPOCH_DAY);
    Hms(s);
    Rebuilt(YearMonthDay(days + EPOCH_DAY), days, s / 3600, s / 60 % 60, s % 60);
  }

  lemma Hms(s: int)
    requires 0 <= s < SECONDS_PER_DAY
    ensures s / 3600 * 3600 + s / 60 % 60 * 60 + s % 60 == s && 0 <= s / 3600 < 24
  {
    assert s / 60 == s / 3600 * 60 + s / 60 % 60;
  }

  lemma Rebuilt(date: Date, days: int, hour: int, minute: int, second: int)
    requires JulianDayNumber(date) == days + EPOCH_DAY
    ensures FromUtc(DateTime(date, hour, minute, second))
         == days * SECONDS_PER_DAY + (hour * 3600 + minute * 60 + second)
  {}

  lemma HmsRecovered(hour: int, minute: int, second: int)
    requires 0 <= hour < 24 && 0 <= minute < 60 && 0 <= second < 60
    ensures var s := hour * 3600 + minute * 60 + second;
      0 <= s < SECONDS_PER_DAY && s / 3600 == hour && s / 60 % 60 == minute && s % 60 == second
  {
    var s := hour * 3600 + minute * 60 + second;
    assert s / 60 == hour * 60 + minute;
  }

  lemma DaysRecovered(days: int, s: int)
    requires 0 <= s < SECONDS_PER_DAY
    ensures (days * SECONDS_PER_DAY + s) / SECONDS_PER_DAY == days
    ensures (days * SECONDS_PER_DAY + s) % SECONDS_PER_DAY == s
  {}

  /** Date to seconds and back. */
  lemma UtcRoundTrip(dt: DateTime)
    requires ValidTime(dt)
    ensures ToUtc(FromUtc(dt)) == dt
  {
    hide YearMonthDay, JulianDayNumber, FromUtc, InScope;
    var days := JulianDayNumber(dt.date) - EPOCH_DAY;
    HmsRecovered(dt.hour, dt.minute, dt.second);
    DaysRecovered(days, dt.hour * 3600 + dt.minute * 60 + dt.second);
    Rebuilt(dt.date, days, dt.hour, dt.minute, dt.second);
    DateRoundTrip(dt.date);
  }

  /** Day of the calendar year, from 0 (`tm_yday`). */
  function {:induction false} YearDay(t: Date): int
    requires 1 <= t.month <= 12
    decreases t.month
  {
    if t.month == 1 then t.day - 1
    else DaysInMonth(t.year, t.month - 1) + YearDay(Date(t.year, t.month - 1, t.day))
  }

  /** Seconds since the Epoch as section 4.16 of POSIX.1-2017 (Base Definitions) defines them. */
  function PosixSeconds(dt: DateTime): int
    requires 1 <= dt.date.month <= 12
  {
    var y := dt.date.year - 1900;
    dt.second + dt.minute * 60 + dt.hour * 3600 + YearDay(dt.date) * 86400
    + (y - 70) * 31536000 + ((y - 69) / 4) * 86400 - ((y - 1) / 100) * 86400 + ((y + 299) / 400) * 86400
  }

  /** The days before a month, counted in the calendar year and from March. */
  lemma {:induction false} YearDayNumber(t: Date)
    requires InScope(t) && t.year >= 0
    ensures JulianDayNumber(t) == JulianDayNumber(Date(t.year, 1, 1)) + YearDay(t)
    decreases t.month
  {
    if t.month > 1 {
      var first := Date(t.year, t.month - 1, 1);
      YearDayNumber(first);
      YearDayOffset(first, t.day - 1);
      MonthStep(first, t.day);
    } else {
      SameMonth(t, 1);
    }
  }

  lemma {:induction false} YearDayOffset(t: Date, k: int)
    requires 1 <= t.month <= 12
    ensures YearDay(t.(day := t.day + k)) == YearDay(t) + k
    decreases t.month
  {
    if t.month > 1 {
      YearDayOffset(Date(t.year, t.month - 1, t.day), k);
    }
  }

  lemma SameMonth(t: Date, day: int)
    ensures JulianDayNumber(t) == JulianDayNumber(t.(day := day)) + t.day - day
  {}

  /** From the first of a month to a day of the next one. */
  lemma MonthStep(first: Date, day: int)
    requires InScope(first) && first.day == 1 && first.month < 12
    ensures JulianDayNumber(Date(first.year, first.month + 1, day))
         == JulianDayNumber(first) + DaysInMonth(first.year, first.month) + day - 1
  {
    var last := first.(day := DaysInMonth(first.year, first.month));
    SameMonth(last, 1);
    NextDayNumber(last);
    SameMonth(Date(first.year, first.month + 1, day), 1);
  }

  /** `fromUtcTime` is the standard's definition, from 1970 on. */
  lemma FromUtcIsPosix(dt: DateTime)
    requires ValidTime(dt) && dt.date.year >= 1970
    ensures FromUtc(dt) == PosixSeconds(dt)
  {
    var y := dt.date.year;
    YearDayNumber(dt.date);
    NewYear(y);
  }

  lemma NewYear(y: int)
    requires y >= 1970
    ensures JulianDayNumber(Date(y, 1, 1)) - EPOCH_DAY
         == (y - 1970) * 365 + (y - 1969) / 4 - (y - 1901) / 100 + (y - 1601) / 400
  {
    assert (y + 4799) / 4 == (y - 1969) / 4 + 1692;
    assert (y + 4799) / 100 == (y - 1901) / 100 + 67;
    assert (y + 4799) / 400 == (y - 1601) / 400 + 16;
  }
}
