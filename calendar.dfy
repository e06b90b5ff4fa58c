// Calendar arithmetic of the UTC time line as JavaScript's Date performs it
// (ECMA-262 sections 21.4.1, 21.4.2.1 and 21.4.3.4): `Date.UTC(year, monthIndex,
// day)` reads a year argument 0..99 as 1900 + year, carries an out-of-range month
// into the year and rolls an out-of-range day into the neighbouring months
// instead of clamping it. Time values are not clipped to the ±8.64e15 ms range.
module Calendar {
  import opened Common

  datatype CalendarDate = CalendarDate(year: int, month: int, day: int)

  predicate IsLeapYear(y: int) {
    y % 4 == 0 && (y % 100 != 0 || y % 400 == 0)
  }

  function DaysInMonth(y: int, m: int): (n: int)
    requires 1 <= m <= 12
    ensures 28 <= n <= 31
    ensures n == 29 <==> m == 2 && IsLeapYear(y)
  {
    if m == 2 then (if IsLeapYear(y) then 29 else 28)
    else if m == 4 || m == 6 || m == 9 || m == 11 then 30
    else 31
  }

  /** A date that names an existing day: month 1..12, day within the month. */
  predicate ValidDate(d: CalendarDate) {
    1 <= d.month <= 12 && 1 <= d.day <= DaysInMonth(d.year, d.month)
  }

  function NextMonth(y: int, m: int): (r: (int, int))
    requires 1 <= m <= 12
    ensures 1 <= r.1 <= 12
  {
    if m == 12 then (y + 1, 1) else (y, m + 1)
  }

  function PrevMonth(y: int, m: int): (r: (int, int))
    requires 1 <= m <= 12
    ensures 1 <= r.1 <= 12
  {
    if m == 1 then (y - 1, 12) else (y, m - 1)
  }

  /** Day `d` counted from the first of month `m` (1-based); days past the
      end of the month continue into the next ones, days below 1 go back. */
  function RollDay(y: int, m: int, d: int): (r: CalendarDate)
    requires 1 <= m <= 12
    ensures ValidDate(r)
    decreases if d >= 1 then d else 32 - d
  {
    if d < 1 then
      var p := PrevMonth(y, m);
      RollDay(p.0, p.1, d + DaysInMonth(p.0, p.1))
    else if d <= DaysInMonth(y, m) then CalendarDate(y, m, d)
    else
      var n := NextMonth(y, m);
      RollDay(n.0, n.1, d - DaysInMonth(y, m))
  }

  /** The year `Date.UTC` and the `Date` constructor work with: a year argument
      0..99 stands for 1900 + year. */
  function FullYear(year: int): int {
    if 0 <= year <= 99 then 1900 + year else year
  }

  /** The calendar date of `Date.UTC(year, monthIndex, day)`; `monthIndex` is 0-based. */
  function DateUtc(year: int, monthIndex: int, day: int): (r: CalendarDate)
    ensures ValidDate(r)
  {
    RollDay(FullYear(year) + monthIndex / 12, monthIndex % 12 + 1, day)
  }

  // ---------------------------------------------------------------------
  // Day numbers of ECMA-262 section 21.4.1: days since 1970-01-01.

  /** DayFromYear(y) of ECMA-262 section 21.4.1.3; `/` is floor division here. */
  function DayFromYear(y: int): int {
    365 * (y - 1970) + (y - 1969) / 4 - (y - 1901) / 100 + (y - 1601) / 400
  }

  function DaysBeforeMonth(y: int, m: int): int
    requires 1 <= m <= 12
  {
    (if m == 1 then 0 else if m == 2 then 31 else if m == 3 then 59
     else if m == 4 then 90 else if m == 5 then 120 else if m == 6 then 151
     else if m == 7 then 181 else if m == 8 then 212 else if m == 9 then 243
     else if m == 10 then 273 else if m == 11 then 304 else 334)
    + (if m > 2 && IsLeapYear(y) then 1 else 0)
  }

  function MonthStart(y: int, m: int): int
    requires 1 <= m <= 12
  {
    DayFromYear(y) + DaysBeforeMonth(y, m)
  }

  function DayNumber(d: CalendarDate): int
    requires 1 <= d.month <= 12
  {
    MonthStart(d.year, d.month) + d.day - 1
  }

  /** MakeDay(year, month, date) of ECMA-262 section 21.4.1.28. */
  function MakeDay(year: int, monthIndex: int, date: int): int {
    MonthStart(year + monthIndex / 12, monthIndex % 12 + 1) + date - 1
  }

  const MsPerDay: int := 86400000

  /** The instant at which a date begins: MakeDate(MakeDay(...), 0) of ECMA-262. */
  function StartOfDay(d: CalendarDate): Instant {
    MakeDay(d.year, d.month - 1, d.day) * 86400000
  }

  /** `new Date(year, month - 1, 1)`: the first instant of the month. */
  function MonthWindowStart(year: int, month: int): Instant {
    StartOfDay(DateUtc(year, month - 1, 1))
  }

  /** `new Date(year, month, 0, 23, 59, 59, 999)`: the last millisecond of the month. */
  function MonthWindowEnd(year: int, month: int): Instant {
    StartOfDay(DateUtc(year, month, 0)) + 23 * 3600000 + 59 * 60000 + 59 * 1000 + 999
  }

  predicate InMonthWindow(t: Instant, year: int, month: int) {
    MonthWindowStart(year, month) <= t <= MonthWindowEnd(year, month)
  }

  // ---------------------------------------------------------------------
  // Lemmas

  /** A year has 366 days exactly when it is a leap year. */
  lemma YearLength(y: int)
    ensures DayFromYear(y + 1) - DayFromYear(y) == if IsLeapYear(y) then 366 else 365
  {
    var fours := (y - 1968) / 4 - (y - 1969) / 4;
    var hundreds := (y - 1900) / 100 - (y - 1901) / 100;
    var fourHundreds := (y - 1600) / 400 - (y - 1601) / 400;
    LeapTerm(y, 1968, 4, 492);
    LeapTerm(y, 1900, 100, 19);
    LeapTerm(y, 1600, 400, 4);
    DayFromYearStep(y);
    LeapDays(y, fours, hundreds, fourHundreds);
  }

  lemma DayFromYearStep(y: int)
    ensures DayFromYear(y + 1) - DayFromYear(y) ==
      365 + ((y - 1968) / 4 - (y - 1969) / 4) - ((y - 1900) / 100 - (y - 1901) / 100) + ((y - 1600) / 400 - (y - 1601) / 400)
  {
  }

  /** The three step terms add up to one leap day exactly in a leap year. */
  lemma LeapDays(y: int, fours: int, hundreds: int, fourHundreds: int)
    requires fours == if y % 4 == 0 then 1 else 0
    requires hundreds == if y % 100 == 0 then 1 else 0
    requires fourHundreds == if y % 400 == 0 then 1 else 0
    ensures 365 + fours - hundreds + fourHundreds == if IsLeapYear(y) then 366 else 365
  {
    if y % 400 == 0 {
      DivisorsOf400(y);
    } else if y % 100 == 0 {
      DivisorsOf100(y);
    }
  }

  lemma DivisorsOf400(y: int)
    requires y % 400 == 0
    ensures y % 100 == 0 && y % 4 == 0
  {
    DivUnique(y, 100, 4 * (y / 400), 0);
    DivUnique(y, 4, 100 * (y / 400), 0);
  }

  lemma DivisorsOf100(y: int)
    requires y % 100 == 0
    ensures y % 4 == 0
  {
    DivUnique(y, 4, 25 * (y / 100), 0);
  }

  /** The floor quotient of `y - c` by d, c a multiple of d, steps up exactly at the multiples of d. */
  lemma LeapTerm(y: int, c: int, d: int, k: int)
    requires d > 0 && c == d * k
    ensures (y - c) / d - (y - c - 1) / d == if y % d == 0 then 1 else 0
  {
    FloorStep(y - c, d);
    ModShift(y, d, k);
  }

  /** Quotient and remainder are determined by the division identity. */
  lemma DivUnique(x: int, d: int, q: int, r: int)
    requires d > 0 && 0 <= r < d && x == d * q + r
    ensures x / d == q && x % d == r
  {
    var q', r' := x / d, x % d;
    assert d * (q - q') == r' - r;
    if q > q' {
      MulAtLeast(d, q - q');
    } else if q < q' {
      MulAtLeast(d, q' - q);
    }
  }

  lemma MulAtLeast(d: int, k: int)
    requires d > 0 && k >= 1
    ensures d * k >= d
  {
  }

  /** Stepping down from a multiple of d lowers the floor quotient by one. */
  lemma FloorStep(a: int, d: int)
    requires d > 0
    ensures a / d - (a - 1) / d == if a % d == 0 then 1 else 0
  {
    var q, r := a / d, a % d;
    if r == 0 {
      DivUnique(a - 1, d, q - 1, d - 1);
    } else {
      DivUnique(a - 1, d, q, r - 1);
    }
  }

  /** Removing a multiple of d keeps the remainder. */
  lemma ModShift(y: int, d: int, k: int)
    requires d > 0
    ensures (y - d * k) % d == y % d
  {
    DivUnique(y - d * k, d, y / d - k, y % d);
  }

  /** The month after `(y, m)` starts where `(y, m)` ends. */
  lemma NextMonthStart(y: int, m: int)
    requires 1 <= m <= 12
    ensures MonthStart(NextMonth(y, m).0, NextMonth(y, m).1) == MonthStart(y, m) + DaysInMonth(y, m)
  {
    if m == 12 { YearLength(y); }
  }

  lemma {:induction false} RollDayNumber(y: int, m: int, d: int)
    requires 1 <= m <= 12
    ensures DayNumber(RollDay(y, m, d)) == MonthStart(y, m) + d - 1
    decreases if d >= 1 then d else 32 - d
  {
    if d < 1 {
      var p := PrevMonth(y, m);
      RollDayNumber(p.0, p.1, d + DaysInMonth(p.0, p.1));
      NextMonthStart(p.0, p.1);
      assert NextMonth(p.0, p.1) == (y, m);
    } else if d > DaysInMonth(y, m) {
      var n := NextMonth(y, m);
      RollDayNumber(n.0, n.1, d - DaysInMonth(y, m));
      NextMonthStart(y, m);
    }
  }

  /** `Date.UTC`'s calendar date is the day ECMA-262's MakeDay computes. */
  lemma DateUtcIsMakeDay(year: int, monthIndex: int, day: int)
    ensures DayNumber(DateUtc(year, monthIndex, day)) == MakeDay(FullYear(year), monthIndex, day)
  {
    RollDayNumber(FullYear(year) + monthIndex / 12, monthIndex % 12 + 1, day);
  }

  /** A day that exists in its month of the full year is not clamped or moved. */
  lemma DateUtcOfValid(year: int, month: int, day: int)
    requires ValidDate(CalendarDate(FullYear(year), month, day))
    ensures DateUtc(year, month - 1, day) == CalendarDate(FullYear(year), month, day)
  {
    assert (month - 1) / 12 == 0 && (month - 1) % 12 == month - 1;
  }

  /** An existing date outside the years 0..99 is its own normalisation; inside them it
      moves to 1900 + year, the same day, except that 29 February of year 0 becomes
      1 March 1900. */
  lemma DateUtcOfDate(d: CalendarDate)
    requires ValidDate(d)
    ensures !(0 <= d.year <= 99) ==> DateUtc(d.year, d.month - 1, d.day) == d
    ensures 1 <= d.year <= 99 ==> DateUtc(d.year, d.month - 1, d.day) == d.(year := 1900 + d.year)
    ensures d.year == 0 ==>
      DateUtc(d.year, d.month - 1, d.day) == (if d.month == 2 && d.day == 29 then CalendarDate(1900, 3, 1) else d.(year := 1900))
  {
    if 1 <= d.year <= 99 {
      assert (1900 + d.year) % 4 == d.year % 4 && (1900 + d.year) % 100 == d.year;
      assert IsLeapYear(1900 + d.year) == IsLeapYear(d.year);
      DateUtcOfValid(d.year, d.month, d.day);
    } else if d.year == 0 {
      if d.month == 2 && d.day == 29 {
        assert (d.month - 1) / 12 == 0 && (d.month - 1) % 12 == 1;
        assert RollDay(1900, 3, 1) == CalendarDate(1900, 3, 1);
      } else {
        DateUtcOfValid(d.year, d.month, d.day);
      }
    } else {
      DateUtcOfValid(d.year, d.month, d.day);
    }
  }

  /** With a month index inside the year, `Date.UTC` is the roll-over from that month
      of the full year. */
  lemma DateUtcOfMonth(year: int, month: int, day: int)
    requires 1 <= month <= 12
    ensures DateUtc(year, month - 1, day) == RollDay(FullYear(year), month, day)
  {
    assert (month - 1) / 12 == 0 && (month - 1) % 12 == month - 1;
  }

  /** Two-digit years: `Date.UTC(50, 2, 1)` is 1 March 1950, and year 100 is itself. */
  lemma DateUtcTwoDigitYears()
    ensures DateUtc(50, 2, 1) == CalendarDate(1950, 3, 1)
    ensures DateUtc(0, 0, 1) == CalendarDate(1900, 1, 1)
    ensures DateUtc(100, 0, 1) == CalendarDate(100, 1, 1)
    ensures DateUtc(-1, 0, 1) == CalendarDate(-1, 1, 1)
  {
    assert RollDay(1950, 3, 1) == CalendarDate(1950, 3, 1);
    assert RollDay(1900, 1, 1) == CalendarDate(1900, 1, 1);
    assert RollDay(100, 1, 1) == CalendarDate(100, 1, 1);
    assert RollDay(-1, 1, 1) == CalendarDate(-1, 1, 1);
  }

  /** A day past the end of the month rolls into the next month. */
  lemma DateUtcRollsOver(year: int, monthIndex: int, day: int)
    requires 0 <= monthIndex < 12
    requires DaysInMonth(FullYear(year), monthIndex + 1) < day <= DaysInMonth(FullYear(year), monthIndex + 1) + 28
    ensures var y := FullYear(year);
      DateUtc(year, monthIndex, day) == CalendarDate(NextMonth(y, monthIndex + 1).0, NextMonth(y, monthIndex + 1).1, day - DaysInMonth(y, monthIndex + 1))
  {
    var y := FullYear(year);
    var n := NextMonth(y, monthIndex + 1);
    assert RollDay(n.0, n.1, day - DaysInMonth(y, monthIndex + 1)) ==
      CalendarDate(n.0, n.1, day - DaysInMonth(y, monthIndex + 1));
  }

  /** The 31st of February 2025 is the 3rd of March; month 12 of 2024 is January 2025. */
  lemma DateUtcExamples()
    ensures DateUtc(2025, 1, 31) == CalendarDate(2025, 3, 3)
    ensures DateUtc(2024, 1, 31) == CalendarDate(2024, 3, 2)
    ensures DateUtc(2024, 12, 15) == CalendarDate(2025, 1, 15)
    ensures DateUtc(2025, 3, 0) == CalendarDate(2025, 3, 31)
  {
    assert RollDay(2025, 3, 3) == CalendarDate(2025, 3, 3);
    assert RollDay(2024, 3, 2) == CalendarDate(2024, 3, 2);
    assert RollDay(2025, 4, 0) == RollDay(2025, 3, 31);
  }

  lemma MonthIndexOf(y: int, m: int)
    requires 1 <= m <= 12
    ensures (12 * y + m - 1) / 12 == y && (12 * y + m - 1) % 12 == m - 1
  {
  }

  lemma StartOfDayIsDayNumber(d: CalendarDate)
    requires 1 <= d.month <= 12
    ensures StartOfDay(d) == DayNumber(d) * MsPerDay
  {
    assert (d.month - 1) / 12 == 0 && (d.month - 1) % 12 == d.month - 1;
  }

  lemma LastDayOfMonth(year: int, month: int)
    requires 1 <= month <= 12
    ensures var y := FullYear(year);
      DayNumber(DateUtc(year, month, 0)) == MonthStart(y, month) + DaysInMonth(y, month) - 1
  {
    var y := FullYear(year);
    if month == 12 {
      assert month / 12 == 1 && month % 12 == 0;
    } else {
      assert month / 12 == 0 && month % 12 == month;
    }
    assert NextMonth(y, month) == (y + month / 12, month % 12 + 1);
    DateUtcIsMakeDay(year, month, 0);
    NextMonthStart(y, month);
  }

  lemma WindowBounds(year: int, month: int)
    requires 1 <= month <= 12
    ensures MonthWindowStart(year, month) == MonthStart(FullYear(year), month) * MsPerDay
    ensures MonthWindowEnd(year, month) == (MonthStart(FullYear(year), month) + DaysInMonth(FullYear(year), month)) * MsPerDay - 1
  {
    var first, last := DateUtc(year, month - 1, 1), DateUtc(year, month, 0);
    DateUtcOfValid(year, month, 1);
    assert first == CalendarDate(FullYear(year), month, 1);
    StartOfDayIsDayNumber(first);
    LastDayOfMonth(year, month);
    StartOfDayIsDayNumber(last);
    assert MonthWindowStart(year, month) == StartOfDay(first);
    assert MonthWindowEnd(year, month) == StartOfDay(last) + 86399999;
  }

  /** The day numbers of a month are exactly the days of that month. */
  lemma DayInMonthIff(d: CalendarDate, year: int, month: int)
    requires ValidDate(d) && 1 <= month <= 12
    ensures MonthStart(year, month) <= DayNumber(d) < MonthStart(year, month) + DaysInMonth(year, month)
        <==> d.year == year && d.month == month
  {
    var kd, km := 12 * d.year + d.month - 1, 12 * year + month - 1;
    var sd, nd := MonthStart(d.year, d.month), DaysInMonth(d.year, d.month);
    var sm, nm := MonthStart(year, month), DaysInMonth(year, month);
    assert sd <= DayNumber(d) < sd + nd;
    if kd != km {
      if kd < km {
        MonthsInOrder(d.year, d.month, year, month);
      } else {
        MonthsInOrder(year, month, d.year, d.month);
      }
      Outside(DayNumber(d), sd, nd, sm, nm);
      assert !(d.year == year && d.month == month);
    } else {
      MonthIndexOf(d.year, d.month);
      MonthIndexOf(year, month);
      assert d.year == year && d.month == month;
    }
  }

  /** A later month starts after an earlier one has ended. */
  lemma {:induction false} MonthsInOrder(y1: int, m1: int, y2: int, m2: int)
    requires 1 <= m1 <= 12 && 1 <= m2 <= 12 && 12 * y1 + m1 < 12 * y2 + m2
    ensures MonthStart(y2, m2) >= MonthStart(y1, m1) + DaysInMonth(y1, m1)
    decreases 12 * y2 + m2 - (12 * y1 + m1)
  {
    var n := NextMonth(y1, m1);
    NextMonthStart(y1, m1);
    assert 12 * n.0 + n.1 == 12 * y1 + m1 + 1;
    if n != (y2, m2) {
      assert 12 * n.0 + n.1 < 12 * y2 + m2;
      MonthsInOrder(n.0, n.1, y2, m2);
      AtLeastAfter(MonthStart(y2, m2), MonthStart(n.0, n.1), DaysInMonth(n.0, n.1),
                   MonthStart(y1, m1), DaysInMonth(y1, m1));
    }
  }

  lemma AtLeastAfter(s2: int, sn: int, dn: int, s1: int, d1: int)
    requires s2 >= sn + dn && sn == s1 + d1 && dn >= 0
    ensures s2 >= s1 + d1
  {
  }

  /** A point of one of two disjoint intervals is not in the other. */
  lemma Outside(x: int, a: int, la: int, b: int, lb: int)
    requires a <= x < a + la
    requires b >= a + la || a >= b + lb
    ensures !(b <= x < b + lb)
  {
  }

  /** The month window `[first day 00:00, last day 23:59:59.999]` holds the start
      of an existing date exactly when the date lies in that month of the full year. */
  lemma InMonthWindowIff(d: CalendarDate, year: int, month: int)
    requires ValidDate(d) && 1 <= month <= 12
    ensures InMonthWindow(StartOfDay(d), year, month) <==> d.year == FullYear(year) && d.month == month
  {
    WindowBounds(year, month);
    DayInMonthIff(d, FullYear(year), month);
    StartOfDayIsDayNumber(d);
  }
}
