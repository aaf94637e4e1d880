/** The half-open date ranges of routes/billing_records_routes.py. Today's date in Bangkok is a parameter. */
module BillingRanges {
  import opened Common
  import opened Calendar
  import opened Strings

  /** The days from `start` up to, not including, `end`; no range; or a date beyond what the date type holds. */
  datatype Range = From(start: Date, end: Date) | Unbounded | OutOfCalendar

  datatype Period = Day | Month | Year

  function ReadPeriod(period: string): Option<Period> {
    var p := Lower(period);
    if p == "day" then Some(Day) else if p == "month" then Some(Month) else if p == "year" then Some(Year) else None
  }

  /** `date` is what reading the given date string yields: None when it is missing or no date. */
  function PeriodRange(period: string, date: Option<Date>, today: Date): Range
    requires Valid(today) && (date.Some? ==> Valid(date.value))
  {
    if ReadPeriod(period).None? then Unbounded else
    var anchor := if date.Some? then date.value else today;
    match ReadPeriod(period).value
    case Day =>
      if NextDay(anchor).Some? then From(anchor, NextDay(anchor).value) else OutOfCalendar
    case Month =>
      var start := anchor.(day := 1);
      if start.month < 12 then From(start, start.(month := start.month + 1))
      else if start.year < MAX_YEAR then From(start, start.(year := start.year + 1, month := 1))
      else OutOfCalendar
    case Year =>
      var start := anchor.(month := 1, day := 1);
      if start.year < MAX_YEAR then From(start, start.(year := start.year + 1)) else OutOfCalendar
  }

  function OneMonthAgo(d: Date): Option<Date>
    requires Valid(d)
  {
    var (y, m) := if d.month == 1 then (d.year - 1, 12) else (d.year, d.month - 1);
    if y < MIN_YEAR then None
    else Some(Date(y, m, if d.day < DaysInMonth(y, m) then d.day else DaysInMonth(y, m)))
  }

  function ExplicitRange(first: Option<Date>, last: Option<Date>): Range
    requires (first.Some? ==> Valid(first.value)) && (last.Some? ==> Valid(last.value))
  {
    if first.None? || last.None? || Before(last.value, first.value) then Unbounded
    else if NextDay(last.value).None? then OutOfCalendar
    else From(first.value, NextDay(last.value).value)
  }

  function ExportRange(period: string, date: Option<Date>, today: Date): Range
    requires Valid(today) && (date.Some? ==> Valid(date.value))
  {
    match PeriodRange(period, date, today)
    case Unbounded =>
      if OneMonthAgo(today).None? || NextDay(today).None? then OutOfCalendar
      else From(OneMonthAgo(today).value, NextDay(today).value)
    case range => range
  }

  predicate Holds(r: Range, d: Date)
    requires r.From?
  {
    !Before(d, r.start) && Before(d, r.end)
  }

  predicate SamePeriod(p: Period, a: Date, b: Date) {
    match p
    case Day => a == b
    case Month => a.year == b.year && a.month == b.month
    case Year => a.year == b.year
  }

  /** A range holds exactly the days that share their day, month or year with the anchor. */
  lemma RangeIsPeriod(period: string, anchor: Date, today: Date, d: Date)
    requires Valid(anchor) && Valid(today) && Valid(d) && PeriodRange(period, Some(anchor), today).From?
    ensures Holds(PeriodRange(period, Some(anchor), today), d) <==> SamePeriod(ReadPeriod(period).value, anchor, d)
  {
    if ReadPeriod(period).value.Day? {
      var next := NextDay(anchor).value;
      NextDayIsNext(anchor);
      OrdinalOrders(d, anchor);
      OrdinalOrders(d, next);
    }
  }

  /** Ranges of one kind tile the calendar: sharing a day means being the same range. */
  lemma RangesTile(period: string, a: Date, b: Date, today: Date, shared: Date)
    requires Valid(a) && Valid(b) && Valid(today) && Valid(shared)
    requires PeriodRange(period, Some(a), today).From? && PeriodRange(period, Some(b), today).From?
    requires Holds(PeriodRange(period, Some(a), today), shared) && Holds(PeriodRange(period, Some(b), today), shared)
    ensures PeriodRange(period, Some(a), today) == PeriodRange(period, Some(b), today)
  {
    RangeIsPeriod(period, a, today, shared);
    RangeIsPeriod(period, b, today, shared);
  }

  /**
   A range has valid ends, holds its anchor (today's date when none could be read), and is missing
   only at the calendar's end.
   */
  lemma RangeHoldsAnchor(period: string, date: Option<Date>, today: Date)
    requires Valid(today) && (date.Some? ==> Valid(date.value))
    ensures var anchor := if date.Some? then date.value else today;
      match PeriodRange(period, date, today)
      case From(start, end) => Valid(start) && Valid(end) && Holds(PeriodRange(period, date, today), anchor)
      case Unbounded => ReadPeriod(period).None?
      case OutOfCalendar => ReadPeriod(period).Some? && SamePeriod(ReadPeriod(period).value, anchor, LAST_DAY)
  {
    var anchor := if date.Some? then date.value else today;
    if ReadPeriod(period) == Some(Day) {
      NextDayIsNext(anchor);
      if NextDay(anchor).Some? {
        OrdinalOrders(anchor, NextDay(anchor).value);
      }
    }
  }

  /** A month's range is as long as the month, a year's as long as the year. */
  lemma RangeLength(period: string, anchor: Date, today: Date)
    requires Valid(anchor) && Valid(today) && PeriodRange(period, Some(anchor), today).From?
    ensures var r := PeriodRange(period, Some(anchor), today);
      Ordinal(r.end) - Ordinal(r.start) == match ReadPeriod(period).value
        case Day => 1
        case Month => DaysInMonth(anchor.year, anchor.month)
        case Year => if Leap(anchor.year) then 366 else 365
  {
    match ReadPeriod(period).value
    case Day => NextDayIsNext(anchor);
    case Month => MonthLength(anchor);
    case Year => YearStep(anchor.year);
  }

  lemma MonthLength(anchor: Date)
    requires Valid(anchor)
    ensures anchor.month < 12 ==>
      Ordinal(Date(anchor.year, anchor.month + 1, 1))
        == Ordinal(anchor.(day := 1)) + DaysInMonth(anchor.year, anchor.month)
    ensures anchor.month == 12 ==> Ordinal(Date(anchor.year + 1, 1, 1)) == Ordinal(anchor.(day := 1)) + 31
  {
    if anchor.month == 12 {
      YearStep(anchor.year);
    } else {
      MonthStep(anchor.year, anchor.month, DaysBeforeYear(anchor.year));
    }
  }

  /**
   Twelve months cover their year: the first starts with it, each next one where the last ended, the
   twelfth ends with it.
   */
  lemma MonthsCoverYear(anchor: Date, today: Date, m: int)
    requires Valid(anchor) && Valid(today) && anchor.year < MAX_YEAR && 1 <= m <= 12
    ensures var year := PeriodRange("year", Some(anchor), today);
      var month := PeriodRange("month", Some(Date(anchor.year, m, 1)), today);
      && year.From? && month.From?
      && (m == 1 ==> month.start == year.start)
      && (m < 12 ==> month.end == PeriodRange("month", Some(Date(anchor.year, m + 1, 1)), today).start)
      && (m == 12 ==> month.end == year.end)
  {
    assert Lower("year") == "year" && Lower("month") == "month" by {
      PlainLower("year");
      PlainLower("month");
    }
  }

  /** A month back is as many days back as the previous month has, or the day of the month if that is more; 28 to 31. */
  lemma OneMonthAgoSteps(d: Date)
    requires Valid(d)
    ensures OneMonthAgo(d).None? <==> d.year == 1 && d.month == 1
    ensures OneMonthAgo(d).Some? ==>
      var r := OneMonthAgo(d).value;
      var length := DaysInMonth(r.year, r.month);
      && Valid(r)
      && Ordinal(d) - Ordinal(r) == (if length < d.day then d.day else length)
      && 28 <= Ordinal(d) - Ordinal(r) <= 31
      && (r.day == d.day || r.day == length < d.day)
  {
    if d.month == 1 && d.year > 1 {
      YearLength(d.year - 1);
    }
  }

  lemma OneMonthAgoMonotone(a: Date, b: Date)
    requires Valid(a) && Valid(b) && !Before(b, a) && OneMonthAgo(a).Some?
    ensures OneMonthAgo(b).Some? && !Before(OneMonthAgo(b).value, OneMonthAgo(a).value)
  {
  }

  /**
   An explicit range holds exactly the days from the first to the last, both included, and there is
   none iff either is missing or they are out of order.
   */
  lemma ExplicitIsInclusive(first: Option<Date>, last: Option<Date>, d: Date)
    requires (first.Some? ==> Valid(first.value)) && (last.Some? ==> Valid(last.value)) && Valid(d)
    ensures match ExplicitRange(first, last)
      case From(start, end) =>
        Valid(end) && (Holds(From(start, end), d) <==> !Before(d, first.value) && !Before(last.value, d))
      case Unbounded => first.None? || last.None? || Before(last.value, first.value)
      case OutOfCalendar => last == Some(LAST_DAY)
  {
    if first.Some? && last.Some? && !Before(last.value, first.value) {
      NextDayIsNext(last.value);
      OrdinalOrders(last.value, d);
      if NextDay(last.value).Some? {
        OrdinalOrders(d, NextDay(last.value).value);
      }
    }
  }

  /**
   An export is always bounded and never empty: it holds its anchor, today's date by default; one
   with no period goes 28 to 31 days back.
   */
  lemma ExportNeverEmpty(period: string, date: Option<Date>, today: Date)
    requires Valid(today) && 2 <= today.year <= 9998 && (date.Some? ==> Valid(date.value) && date.value.year <= 9998)
    ensures var r := ExportRange(period, date, today);
      && r.From? && Before(r.start, r.end)
      && Holds(r, if date.Some? && ReadPeriod(period).Some? then date.value else today)
      && (ReadPeriod(period).None? ==> 29 <= Ordinal(r.end) - Ordinal(r.start) <= 32)
  {
    RangeHoldsAnchor(period, date, today);
    NextDayIsNext(today);
    OneMonthAgoSteps(today);
    OrdinalOrders(today, OneMonthAgo(today).value);
    OrdinalOrders(today, NextDay(today).value);
    OrdinalOrders(OneMonthAgo(today).value, NextDay(today).value);
  }

  /** The three words are read in any case, and nothing else is a period. */
  lemma PeriodWords(period: string)
    ensures ReadPeriod(period) == Some(Day) <==> SameButCase("day", period)
    ensures ReadPeriod(period) == Some(Month) <==> SameButCase("month", period)
    ensures ReadPeriod(period) == Some(Year) <==> SameButCase("year", period)
  {
    LowersTo(period, "day");
    LowersTo(period, "month");
    LowersTo(period, "year");
  }

  lemma LowersTo(s: string, word: string)
    requires IsPlain(word)
    ensures Lower(s) == word <==> SameButCase(word, s)
  {
    if SameButCase(word, s) {
      LowerSame(word, s);
      PlainIsLower(word);
    }
    if Lower(s) == word {
      forall i | 0 <= i < |s| ensures CasePair(word[i], s[i]) {
        LowerBack(s, i);
      }
    }
  }

  /** An export with no period holds exactly the days from a month ago to today; any other is its period's range. */
  lemma ExportHolds(period: string, date: Option<Date>, today: Date, d: Date)
    requires Valid(today) && (date.Some? ==> Valid(date.value)) && Valid(d)
    ensures ReadPeriod(period).Some? ==> ExportRange(period, date, today) == PeriodRange(period, date, today)
    ensures ReadPeriod(period).None? ==>
      match ExportRange(period, date, today)
      case From(start, end) =>
        OneMonthAgo(today).Some? &&
        (Holds(From(start, end), d) <==> !Before(d, OneMonthAgo(today).value) && !Before(today, d))
      case Unbounded => false
      case OutOfCalendar => today == LAST_DAY || (today.year == 1 && today.month == 1)
  {
    NextDayIsNext(today);
    OneMonthAgoSteps(today);
    OrdinalOrders(today, d);
    if NextDay(today).Some? {
      OrdinalOrders(d, NextDay(today).value);
    }
  }
}
