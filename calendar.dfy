/** System.DateOnly as the core uses it: the proleptic Gregorian calendar of years
    1 to 9999, the day number DateOnly counts from 0001-01-01, the ISO 8601 week date
    that System.Globalization.ISOWeek computes (ISO 8601:2004 section 4.1.4), and the
    "yyyy-MM-dd" / "yyyyMMdd" invariant-culture formats. */
module Calendar {
  import opened Wrappers
  import opened Text

  datatype Date = Date(year: int, month: int, day: int)

  predicate IsLeapYear(y: int) {
    y % 4 == 0 && (y % 100 != 0 || y % 400 == 0)
  }

  function DaysInMonth(y: int, m: int): (n: int)
    requires 1 <= m <= 12
    ensures 28 <= n <= 31
  {
    if m == 2 then (if IsLeapYear(y) then 29 else 28)
    else if m == 4 || m == 6 || m == 9 || m == 11 then 30
    else 31
  }

  function DaysInYear(y: int): int {
    if IsLeapYear(y) then 366 else 365
  }

  /** The values a DateOnly can hold. */
  predicate IsValidDate(d: Date) {
    1 <= d.year <= 9999 && 1 <= d.month <= 12 && 1 <= d.day <= DaysInMonth(d.year, d.month)
  }

  type DateOnly = d: Date | IsValidDate(d) witness Date(1, 1, 1)

  /** new DateOnly(year, month, day): ArgumentOutOfRangeException unless the parts name a day. */
  function MakeDate(y: int, m: int, d: int): (r: Result<DateOnly, Exn>)
    ensures r.Ok? <==> IsValidDate(Date(y, m, d))
    ensures r.Ok? ==> r.value == Date(y, m, d)
    ensures r.Err? ==> r.error == ArgumentOutOfRange
  {
    if IsValidDate(Date(y, m, d)) then Ok(Date(y, m, d)) else Err(ArgumentOutOfRange)
  }

  /** Days of the months before month m of year y. */
  function DaysBeforeMonth(y: int, m: int): (n: nat)
    requires 1 <= m <= 13
    ensures m == 13 ==> n == DaysInYear(y)
    decreases m
  {
    if m == 1 then 0 else DaysBeforeMonth(y, m - 1) + DaysInMonth(y, m - 1)
  }

  /** The 1-based ordinal day of the year (DateTime.DayOfYear). */
  function DayOfYear(d: DateOnly): (n: int)
    ensures 1 <= n <= DaysInYear(d.year)
  {
    DaysBeforeMonthBound(d.year, d.month);
    DaysBeforeMonth(d.year, d.month) + d.day
  }

  lemma {:induction false} DaysBeforeMonthBound(y: int, m: int)
    requires 1 <= m <= 12
    ensures DaysBeforeMonth(y, m) + DaysInMonth(y, m) <= DaysInYear(y)
    decreases 12 - m
  {
    if m < 12 {
      DaysBeforeMonthBound(y, m + 1);
    }
  }

  /** Days in the years before year y, counted from 0001-01-01. */
  function DaysBeforeYear(y: int): int
    requires y >= 1
  {
    var p := y - 1;
    365 * p + p / 4 - p / 100 + p / 400
  }

  /** DateOnly.DayNumber: days elapsed since 0001-01-01. This is what DateOnly
      compares, so it is the order the core sorts by. */
  function DayNumber(d: DateOnly): (n: nat)
  {
    DaysBeforeYear(d.year) + DayOfYear(d) - 1
  }

  /** DateTime.DayOfWeek with Sunday = 0; 0001-01-01 was a Monday. */
  function DayOfWeek(d: DateOnly): (w: int)
    ensures 0 <= w < 7
  {
    (DayNumber(d) + 1) % 7
  }

  /** The ISO weekday, Monday = 1 to Sunday = 7 (ISOWeek's GetWeekday). */
  function IsoWeekday(d: DateOnly): (w: int)
    ensures 1 <= w <= 7
    ensures w == DayNumber(d) % 7 + 1
  {
    WeekdayStep(DayNumber(d));
    var dow := DayOfWeek(d);
    if dow == 0 then 7 else dow
  }

  lemma WeekdayStep(n: int)
    ensures (n + 1) % 7 == if n % 7 == 6 then 0 else n % 7 + 1
  {
  }

  /** ISOWeek's P(y): the day of the week of 31 December of year y (Sunday = 0). */
  function YearEndWeekday(y: int): int
    requires y >= 0
  {
    (y + y / 4 - y / 100 + y / 400) % 7
  }

  /** ISOWeek.GetWeeksInYear: 53 when the year ends on a Thursday, or when the previous
      year ends on a Wednesday (a leap year starting on Thursday); 52 otherwise. */
  function WeeksInYear(y: int): (n: int)
    requires y >= 1
    ensures n == 52 || n == 53
  {
    if YearEndWeekday(y) == 4 || YearEndWeekday(y - 1) == 3 then 53 else 52
  }

  /** An ISO 8601 week date without its weekday: week-numbering year and week. */
  datatype WeekDate = WeekDate(year: int, week: int)

  /** ISOWeek.GetYear and ISOWeek.GetWeekOfYear of one date. */
  function IsoWeek(d: DateOnly): (w: WeekDate)
    ensures d.year - 1 <= w.year <= d.year + 1
    ensures 1 <= w.week <= 53
    ensures w.year >= 1 && w.week <= WeeksInYear(w.year)
  {
    var raw := (DayOfYear(d) - IsoWeekday(d) + 10) / 7;
    if raw < 1 then
      JanuaryDays(d);
      WeekDate(d.year - 1, WeeksInYear(d.year - 1))
    else if raw > WeeksInYear(d.year) then
      WeekDate(d.year + 1, 1)
    else WeekDate(d.year, raw)
  }

  lemma JanuaryDays(d: DateOnly)
    requires (DayOfYear(d) - IsoWeekday(d) + 10) / 7 < 1
    ensures d.year > 1 && d.month == 1 && d.day <= 3
  {
    var n, w := DayOfYear(d), IsoWeekday(d);
    assert n - w + 10 < 7;
    if d.month > 1 {
      DaysBeforeMonthAtLeast(d.year, d.month);
    }
  }

  lemma DaysBeforeMonthAtLeast(y: int, m: int)
    requires 2 <= m <= 13
    ensures DaysBeforeMonth(y, m) >= 28 * (m - 1)
    decreases m
  {
    if m > 2 {
      DaysBeforeMonthAtLeast(y, m - 1);
    }
  }

  // ---------------------------------------------------------------- ISO weeks are calendar weeks

  /** Where the Monday-aligned weeks of the day count stand relative to the weeks of year y:
      a date of year y with day number n falls in raw week n / 7 + WeekOffset(y). */
  function WeekOffset(y: int): int
    requires y >= 1
  {
    (10 - DaysBeforeYear(y)) / 7
  }

  /** The ISO week is a Monday-to-Sunday week of the day count: two dates share an ISO
      week-numbering year and week exactly when their day numbers share a block of seven
      starting on a Monday (day 0 is Monday 0001-01-01). */
  lemma IsoWeekIsCalendarWeek(a: DateOnly, b: DateOnly)
    ensures IsoWeek(a) == IsoWeek(b) <==> DayNumber(a) / 7 == DayNumber(b) / 7
  {
    var wa, wb := IsoWeek(a), IsoWeek(b);
    WeekBlockOf(a);
    WeekBlockOf(b);
    if DayNumber(a) / 7 == DayNumber(b) / 7 && wa != wb {
      if wa.year < wb.year {
        BlocksOrdered(wa, wb);
      } else if wb.year < wa.year {
        BlocksOrdered(wb, wa);
      }
    }
  }

  /** The Monday-aligned block a week date stands for. */
  function WeekBlock(w: WeekDate): int
    requires w.year >= 1
  {
    w.week - WeekOffset(w.year)
  }

  lemma {:induction false} WeekBlockOf(d: DateOnly)
    ensures WeekBlock(IsoWeek(d)) == DayNumber(d) / 7
  {
    var y := d.year;
    var raw := (DayOfYear(d) - IsoWeekday(d) + 10) / 7;
    RawWeek(d);
    IsoWeekOfRaw(d, raw);
    assert raw >= 0;
    if raw < 1 {
      assert WeekBlock(IsoWeek(d)) == WeeksInYear(y - 1) - WeekOffset(y - 1);
      WeekShift(y - 1);
      assert raw == 0;
    } else if raw > WeeksInYear(y) {
      assert raw <= 53;
      assert WeekBlock(IsoWeek(d)) == 1 - WeekOffset(y + 1);
      WeekShift(y);
      assert raw == WeeksInYear(y) + 1;
    } else {
      assert WeekBlock(IsoWeek(d)) == raw - WeekOffset(y);
    }
  }

  /** The three cases of IsoWeek, by the raw week number. */
  lemma IsoWeekOfRaw(d: DateOnly, raw: int)
    requires raw == (DayOfYear(d) - IsoWeekday(d) + 10) / 7
    ensures raw < 1 ==> d.year > 1 && IsoWeek(d) == WeekDate(d.year - 1, WeeksInYear(d.year - 1))
    ensures 1 <= raw <= WeeksInYear(d.year) ==> IsoWeek(d) == WeekDate(d.year, raw)
    ensures raw > WeeksInYear(d.year) ==> IsoWeek(d) == WeekDate(d.year + 1, 1)
  {
    if raw < 1 {
      JanuaryDays(d);
    }
  }

  /** raw week number = day-number block + offset of the year. */
  lemma RawWeek(d: DateOnly)
    ensures (DayOfYear(d) - IsoWeekday(d) + 10) / 7 == DayNumber(d) / 7 + WeekOffset(d.year)
  {
    var n, b := DayNumber(d), DaysBeforeYear(d.year);
    assert DayOfYear(d) - IsoWeekday(d) + 10 == 7 * (n / 7) + (10 - b);
    DivShift(n / 7, 10 - b);
  }

  lemma DivShift(q: int, c: int)
    ensures (7 * q + c) / 7 == q + c / 7
  {
    var r := c % 7;
    assert c == 7 * (c / 7) + r;
    assert 7 * q + c == 7 * (q + c / 7) + r;
  }

  /** Consecutive week-numbering years hand over without gap or overlap: the offset drops
      by exactly the number of weeks of the earlier year. */
  lemma WeekShift(y: int)
    requires y >= 1
    ensures WeekOffset(y) - WeekOffset(y + 1) == WeeksInYear(y)
  {
    var b, b' := DaysBeforeYear(y), DaysBeforeYear(y + 1);
    YearLength(y);
    var e := b' - b - 364;
    var x := 10 - b;
    DivShift(-52, x - e);
    assert 10 - b' == 7 * (-52) + (x - e);
    OffsetStep(x, e);
    YearEndResidue(y);
    YearEndResidue(y - 1);
    ResidueStep(b, b', e, x);
  }

  lemma OffsetStep(x: int, e: int)
    requires e == 1 || e == 2
    ensures x / 7 - (x - e) / 7 == if x % 7 < e then 1 else 0
  {
  }

  lemma ResidueStep(b: int, b': int, e: int, x: int)
    requires e == 1 || e == 2
    requires b' == b + 364 + e && x == 10 - b
    ensures x % 7 < e <==> (b' % 7 == 4 || b % 7 == 3)
  {
  }

  /** DaysBeforeYear(y + 1) - DaysBeforeYear(y) is the length of year y. */
  lemma YearLength(y: int)
    requires y >= 1
    ensures DaysBeforeYear(y + 1) - DaysBeforeYear(y) == DaysInYear(y)
  {
    var p := y - 1;
    QuotientStep4(p);
    QuotientStep100(p);
    QuotientStep400(p);
  }

  lemma QuotientStep4(p: int)
    ensures (p + 1) / 4 - p / 4 == if (p + 1) % 4 == 0 then 1 else 0
  {
  }

  lemma QuotientStep100(p: int)
    ensures (p + 1) / 100 - p / 100 == if (p + 1) % 100 == 0 then 1 else 0
  {
  }

  lemma QuotientStep400(p: int)
    ensures (p + 1) / 400 - p / 400 == if (p + 1) % 400 == 0 then 1 else 0
  {
  }

  /** DaysBeforeYear(y + 1) leaves the remainder P(y) modulo 7, since 365 = 7 * 52 + 1. */
  lemma YearEndResidue(y: int)
    requires y >= 0
    ensures DaysBeforeYear(y + 1) % 7 == YearEndWeekday(y)
  {
    var t := y + y / 4 - y / 100 + y / 400;
    assert DaysBeforeYear(y + 1) == 7 * (52 * y) + t;
    DivShift(52 * y, t);
  }

  /** Week dates of earlier years stand for earlier blocks. */
  lemma {:induction false} BlocksOrdered(v: WeekDate, w: WeekDate)
    requires 1 <= v.year < w.year
    requires 1 <= v.week <= WeeksInYear(v.year) && 1 <= w.week
    ensures WeekBlock(v) < WeekBlock(w)
    decreases w.year - v.year
  {
    WeekShift(v.year);
    if v.year + 1 < w.year {
      BlocksOrdered(WeekDate(v.year + 1, 1), w);
    }
  }

  /** $"{year:D4}-W{week:D2}" for a week date. */
  function WeekText(w: WeekDate): (key: string)
    requires w.year >= 0 && 0 <= w.week < 100
  {
    ZeroPadded(w.year, 4) + "-W" + ZeroPadded(w.week, 2)
  }

  /** Different week dates are written differently. */
  lemma WeekTextInjective(v: WeekDate, w: WeekDate)
    requires v.year >= 0 && 0 <= v.week < 100
    requires w.year >= 0 && 0 <= w.week < 100
    ensures WeekText(v) == WeekText(w) <==> v == w
  {
    if WeekText(v) == WeekText(w) {
      Pow10Values();
      var kv, kw := ZeroPadded(v.week, 2), ZeroPadded(w.week, 2);
      assert |kv| == 2 && |kw| == 2;
      Text.SplitAroundInfix(ZeroPadded(v.year, 4), "-W", kv, ZeroPadded(w.year, 4), kw);
    }
  }

  /** The grouping key of the weekly aggregation (IsoWeekKey). */
  function IsoWeekKey(d: DateOnly): (key: string)
  {
    WeekText(IsoWeek(d))
  }

  /** Two dates share a key exactly when they share an ISO week-numbering year and week. */
  lemma IsoWeekKeyMatches(a: DateOnly, b: DateOnly)
    ensures IsoWeekKey(a) == IsoWeekKey(b) <==> IsoWeek(a) == IsoWeek(b)
  {
    WeekTextInjective(IsoWeek(a), IsoWeek(b));
  }

  // ---------------------------------------------------------------- formats

  /** DateOnly.ToString("yyyy-MM-dd", CultureInfo.InvariantCulture). */
  function FormatIsoDate(d: DateOnly): (s: string)
    ensures |s| == 10 && s[4] == '-' && s[7] == '-'
  {
    Pow10Values();
    ZeroPadded(d.year, 4) + "-" + ZeroPadded(d.month, 2) + "-" + ZeroPadded(d.day, 2)
  }

  /** DateTime.ToString("yyyyMMdd"): the compact form used in storage paths and keys. */
  function FormatCompactDate(d: DateOnly): (s: string)
    ensures |s| == 8 && AllDigits(s)
  {
    Pow10Values();
    ZeroPadded(d.year, 4) + ZeroPadded(d.month, 2) + ZeroPadded(d.day, 2)
  }

  lemma Pow10Values()
    ensures Pow10(2) == 100 && Pow10(4) == 10000
  {
  }

  /** DateOnly.TryParseExact(s, "yyyy-MM-dd", InvariantCulture, DateTimeStyles.None):
      exactly four, two and two ASCII digits separated by hyphens, naming a real day. */
  function ParseIsoDate(s: string): (r: Option<DateOnly>)
    ensures r.Some? ==> |s| == 10 && s[4] == '-' && s[7] == '-'
  {
    if |s| == 10 && s[4] == '-' && s[7] == '-'
       && AllDigits(s[..4]) && AllDigits(s[5..7]) && AllDigits(s[8..])
    then
      var d := Date(ValueOf(s[..4]), ValueOf(s[5..7]), ValueOf(s[8..]));
      if IsValidDate(d) then Some(d) else None
    else None
  }

  /** Formatting then parsing "yyyy-MM-dd" gives the date back. */
  lemma ParseFormatIsoDate(d: DateOnly)
    ensures ParseIsoDate(FormatIsoDate(d)) == Some(d)
  {
    var s := FormatIsoDate(d);
    Pow10Values();
    var y, m, dd := ZeroPadded(d.year, 4), ZeroPadded(d.month, 2), ZeroPadded(d.day, 2);
    assert s == y + "-" + m + "-" + dd;
    assert s[..4] == y;
    assert s[5..7] == m;
    assert s[8..] == dd;
  }

  /** A string is accepted only if it is the canonical form of the date it yields. */
  lemma FormatParseIsoDate(s: string)
    requires ParseIsoDate(s).Some?
    ensures FormatIsoDate(ParseIsoDate(s).value) == s
  {
    var y, m, dd := s[..4], s[5..7], s[8..];
    assert AllDigits(y) && AllDigits(m) && AllDigits(dd);
    var d := ParseIsoDate(s).value;
    assert d == Date(ValueOf(y), ValueOf(m), ValueOf(dd));
    CanonicalDigits(y, 4);
    CanonicalDigits(m, 2);
    CanonicalDigits(dd, 2);
    assert FormatIsoDate(d) == y + "-" + m + "-" + dd;
    IsoDateParts(s);
  }

  /** A ten-character text with hyphens at 4 and 7 is its three fields joined by them. */
  lemma IsoDateParts(s: string)
    requires |s| == 10 && s[4] == '-' && s[7] == '-'
    ensures s == s[..4] + "-" + s[5..7] + "-" + s[8..]
  {
  }

  /** A fixed-width digit string is the zero-padded form of its value. */
  lemma CanonicalDigits(s: string, w: nat)
    requires AllDigits(s) && |s| == w && w >= 1
    ensures ValueOf(s) < Pow10(w)
    ensures ZeroPadded(ValueOf(s), w) == s
  {
    ValueBelowPow10(s);
    var t := ZeroPadded(ValueOf(s), w);
    DigitStringsEqual(s, t);
  }

  /** Digit strings of the same length and value are equal. */
  lemma {:induction false} DigitStringsEqual(s: string, t: string)
    requires AllDigits(s) && AllDigits(t) && |s| == |t| && ValueOf(s) == ValueOf(t)
    ensures s == t
  {
    if s != [] {
      var n := |s|;
      var a, b := ValueOf(s[..n - 1]), ValueOf(t[..n - 1]);
      var x, y := DigitValue(s[n - 1]), DigitValue(t[n - 1]);
      assert ValueOf(s) == a * 10 + x && ValueOf(t) == b * 10 + y;
      assert x < 10 && y < 10;
      LastDigitSplit(a, x, b, y);
      DigitStringsEqual(s[..n - 1], t[..n - 1]);
      SameFrontAndLast(s, t);
    }
  }

  lemma SameFrontAndLast(s: string, t: string)
    requires |s| == |t| > 0 && s[..|s| - 1] == t[..|t| - 1] && s[|s| - 1] == t[|t| - 1]
    ensures s == t
  {
    assert s == s[..|s| - 1] + [s[|s| - 1]];
    assert t == t[..|t| - 1] + [t[|t| - 1]];
  }

  lemma LastDigitSplit(a: int, x: int, b: int, y: int)
    requires 0 <= x < 10 && 0 <= y < 10 && a * 10 + x == b * 10 + y
    ensures x == y && a == b
  {
    assert x == (a * 10 + x) % 10 && y == (b * 10 + y) % 10;
  }

  /** The 2024/2025 boundary of the weekly aggregation example: Monday 30 December 2024
      opens week 1 of 2025, and Tuesday 7 January 2025 is in week 2. */
  lemma IsoWeekExamples()
    ensures IsoWeek(Date(2024, 12, 30)) == WeekDate(2025, 1)
    ensures IsoWeek(Date(2024, 12, 31)) == WeekDate(2025, 1)
    ensures IsoWeek(Date(2025, 1, 2)) == WeekDate(2025, 1)
    ensures IsoWeek(Date(2025, 1, 7)) == WeekDate(2025, 2)
  {
    YearFacts();
    assert DaysBeforeMonth(2024, 12) == 335;
    assert DayNumber(Date(2024, 12, 30)) == 739249;
    assert DayNumber(Date(2024, 12, 31)) == 739250;
    assert DayNumber(Date(2025, 1, 2)) == 739252;
    assert DayNumber(Date(2025, 1, 7)) == 739257;
  }

  lemma YearFacts()
    ensures DaysBeforeYear(2024) == 738885 && DaysBeforeYear(2025) == 739251
    ensures YearEndWeekday(2023) == 0 && YearEndWeekday(2024) == 2 && YearEndWeekday(2025) == 3
    ensures WeeksInYear(2024) == 52 && WeeksInYear(2025) == 52
  {
  }

  // ---------------------------------------------------------------- date and time

  /** A DateTime: a day and the ticks elapsed since its midnight. */
  datatype DateTime = DateTime(date: DateOnly, ticksOfDay: nat)

  /** DateOnly.ToDateTime(TimeOnly.MinValue). */
  function Midnight(d: DateOnly): (t: DateTime)
    ensures t.date == d && t.ticksOfDay == 0
  {
    DateTime(d, 0)
  }
}
