/**
 Buddhist and Gregorian dates (core/thai_date.py). ISO strings are the
 full-dates of section 5.6 of RFC 3339. Digits are the ASCII
 ones, and a month's name is matched whatever the case of its ASCII letters.
 */
module ThaiDate {
  import opened Common
  import opened Calendar
  import opened Strings

  const ERA_OFFSET := 543
  const YEAR_FLOOR := 2400

  predicate LooksBuddhist(year: int) {
    year >= YEAR_FLOOR
  }

  function ToGregorian(year: int): int {
    if LooksBuddhist(year) then year - ERA_OFFSET else year
  }

  function Distance(a: int, b: int): nat {
    if a < b then b - a else a - b
  }

  /** The nearer to the anchor of 2000 + yy and 1957 + yy, the first one on a tie. */
  function TwoDigitYear(yy: int, anchor: int): int {
    if Distance(anchor, 2000 + yy) <= Distance(anchor, 1957 + yy) then 2000 + yy else 1957 + yy
  }

  /** No anchor, or an anchor of 0, means this year in Bangkok. */
  function Anchor(given: Option<int>, thisYear: int): int {
    if given.Some? && given.value != 0 then given.value else thisYear
  }

  // --- reading ---

  predicate IsNameChar(c: char) {
    !IsDigit(c) && !IsSpace(c) && c != ','
  }

  /** How many characters at the front satisfy `p`. */
  function Span(p: char -> bool, s: string): (n: nat)
    ensures n <= |s|
  {
    if s != "" && p(s[0]) then 1 + Span(p, s[1..]) else 0
  }

  /** What stands before and after the first separator. */
  function Cut(s: string, seps: set<char>): Option<(string, string)> {
    if s == "" then None
    else if s[0] in seps then Some(("", s[1..]))
    else match Cut(s[1..], seps)
      case None => None
      case Some((before, after)) => Some(([s[0]] + before, after))
  }

  predicate Digits(s: string, low: nat, high: nat) {
    low <= |s| <= high && forall i :: 0 <= i < |s| ==> IsDigit(s[i])
  }

  /** The year, month and day of YYYY-M-D, not yet known to be a date. */
  function IsoFields(text: string): Option<Date> {
    match Cut(Strip(text), {'-'})
    case None => None
    case Some((year, rest)) =>
      match Cut(rest, {'-'})
      case None => None
      case Some((month, day)) =>
        if Digits(year, 4, 4) && Digits(month, 1, 2) && Digits(day, 1, 2)
        then Some(Date(Number(year), Number(month), Number(day))) else None
  }

  function WrittenYear(digits: string, anchor: int): int
    requires Digits(digits, 2, 4)
  {
    if |digits| == 2 then TwoDigitYear(Number(digits), anchor) else Number(digits)
  }

  const SEPARATORS := {'/', '-', '.'}

  /** D/M/Y with any of the three separators. */
  function PrintedFields(text: string, anchor: int): Option<Date> {
    match Cut(text, SEPARATORS)
    case None => None
    case Some((day, rest)) =>
      match Cut(rest, SEPARATORS)
      case None => None
      case Some((month, year)) =>
        if Digits(day, 1, 2) && Digits(month, 1, 2) && Digits(year, 2, 4)
        then Some(Date(WrittenYear(year, anchor), Number(month), Number(day))) else None
  }

  const MONTHS_TH_FULL := ["มกราคม", "กุมภาพันธ์", "มีนาคม", "เมษายน", "พฤษภาคม", "มิถุนายน",
                           "กรกฎาคม", "สิงหาคม", "กันยายน", "ตุลาคม", "พฤศจิกายน", "ธันวาคม"]
  const MONTHS_TH_DOTTED := ["ม.ค", "ก.พ", "มี.ค", "เม.ย", "พ.ค", "มิ.ย", "ก.ค", "ส.ค", "ก.ย", "ต.ค", "พ.ย", "ธ.ค"]
  const MONTHS_TH_PLAIN := ["มค", "กพ", "มีค", "เมย", "พค", "มิย", "กค", "สค", "กย", "ตค", "พย", "ธค"]
  const MONTHS_EN_FULL := ["january", "february", "march", "april", "may", "june",
                           "july", "august", "september", "october", "november", "december"]
  const MONTHS_EN_SHORT := ["jan", "feb", "mar", "apr", "may", "jun", "jul", "aug", "sep", "oct", "nov", "dec"]

  function Position(names: seq<string>, name: string): (n: Option<nat>)
    ensures n.Some? ==> 1 <= n.value <= |names|
  {
    if names == [] then None
    else if names[0] == name then Some(1)
    else match Position(names[1..], name)
      case None => None
      case Some(n) => Some(n + 1)
  }

  function Else<T>(first: Option<T>, second: Option<T>): Option<T> {
    if first.Some? then first else second
  }

  const MONTH_TABLES := [MONTHS_TH_FULL, MONTHS_TH_DOTTED, MONTHS_TH_PLAIN, MONTHS_EN_FULL, MONTHS_EN_SHORT]

  /** A name's place in the first table that has it. */
  function FindMonth(tables: seq<seq<string>>, token: string): (n: Option<nat>)
    requires forall t :: t in tables ==> |t| == 12
    ensures n.Some? ==> 1 <= n.value <= 12
  {
    if tables == [] then None else
    assert tables[0] in tables;
    Else(Position(tables[0], token), FindMonth(tables[1..], token))
  }

  function DropLastDots(s: string): string {
    if s != "" && s[|s| - 1] == '.' then DropLastDots(s[..|s| - 1]) else s
  }

  /** A trailing dot is no part of a month's name: the aliases with one are those without. */
  function MonthNumber(name: string): (n: Option<nat>)
    ensures n.Some? ==> 1 <= n.value <= 12
  {
    Else(FindMonth(MONTH_TABLES, Lower(name)), FindMonth(MONTH_TABLES, DropLastDots(Lower(name))))
  }

  datatype Parts = Parts(day: string, spaced: bool, name: string, year: string)

  /**
   D month-name Y taken apart: the spaces after the day are needed, those around the name's optional
   comma are not.
   */
  function NamedParts(text: string): Parts {
    var n := Span(IsDigit, text);
    var named := DropSpaces(text[n..]);
    var k := Span(IsNameChar, named);
    var tail := DropSpaces(named[k..]);
    Parts(text[..n], named != text[n..], named[..k],
      DropSpaces(if tail != "" && tail[0] == ',' then tail[1..] else tail))
  }

  function NamedFields(text: string, anchor: int): Option<Date> {
    var p := NamedParts(text);
    if Digits(p.day, 1, 2) && p.spaced && p.name != "" && Digits(p.year, 2, 4) && MonthNumber(p.name).Some?
    then Some(Date(WrittenYear(p.year, anchor), MonthNumber(p.name).value, Number(p.day)))
    else None
  }

  /** The date a printed text spells, its year still as written or resolved from two digits. */
  function SpelledFields(printed: string, anchor: int): Option<Date> {
    var text := Strip(printed);
    Else(IsoFields(text), Else(PrintedFields(text, anchor), NamedFields(text, anchor)))
  }

  function InGregorian(d: Date): Date {
    d.(year := ToGregorian(d.year))
  }

  /** The ISO string of the Gregorian date a printed text spells. */
  function FromPrinted(printed: string, anchor: int): Option<string> {
    var spelled := SpelledFields(printed, anchor);
    if spelled.Some? && Valid(InGregorian(spelled.value)) then Some(IsoText(InGregorian(spelled.value))) else None
  }

  // --- writing ---

  function Digit(n: int): char
    requires 0 <= n <= 9
  {
    '0' + n as char
  }

  function Two(n: int): string
    requires 0 <= n <= 99
  {
    [Digit(n / 10), Digit(n % 10)]
  }

  function Four(n: int): string
    requires 0 <= n <= 9999
  {
    Two(n / 100) + Two(n % 100)
  }

  function IsoText(d: Date): string
    requires Valid(d)
  {
    Four(d.year) + "-" + Two(d.month) + "-" + Two(d.day)
  }

  /** Day, month and year around two separators. */
  function Separated(day: string, a: char, month: string, b: char, year: string): string {
    day + [a] + (month + [b] + year)
  }

  predicate Printable(d: Date) {
    0 <= d.year <= 9999 && 0 <= d.month <= 99 && 0 <= d.day <= 99
  }

  function ThaiText(d: Date): string
    requires Printable(d)
  {
    Separated(Two(d.day), '/', Two(d.month), '/', Four(d.year))
  }

  function InBuddhist(d: Date): Date {
    d.(year := d.year + ERA_OFFSET)
  }

  /** The printed year always has four digits, as one from 2400 on loses 543 first. */
  lemma DisplayYearFits(text: string)
    requires IsoFields(text).Some?
    ensures 0 <= IsoFields(text).value.year <= 9999
    ensures ToGregorian(IsoFields(text).value.year) + ERA_OFFSET <= 9999
  {
    NumberBelow(Cut(Strip(text), {'-'}).value.0);
  }

  function BuddhistDisplay(text: string): string {
    var fields := IsoFields(text);
    if fields.Some? && Valid(InGregorian(fields.value))
    then DisplayYearFits(text); ThaiText(InBuddhist(InGregorian(fields.value)))
    else text
  }

  function BuddhistYearOf(text: string): Option<int> {
    var fields := IsoFields(text);
    if fields.Some? && LooksBuddhist(fields.value.year) then Some(fields.value.year) else None
  }

  // --- reading what was written ---

  lemma {:induction false} NumberBelow(s: string)
    requires forall i :: 0 <= i < |s| ==> IsDigit(s[i])
    ensures |s| <= 4 ==> Number(s) < Power10(|s|)
  {
    if s != "" {
      NumberBelow(s[..|s| - 1]);
    }
  }

  function Power10(n: nat): nat {
    if n == 0 then 1 else if n == 1 then 10 else if n == 2 then 100 else if n == 3 then 1000 else 10000
  }

  lemma TwoReads(n: int)
    requires 0 <= n <= 99
    ensures Digits(Two(n), 2, 2) && Number(Two(n)) == n
  {
    var s := Two(n);
    assert s[..1] == [Digit(n / 10)] && s[..1][..0] == "";
    assert Number(s[..1]) == n / 10;
  }

  lemma FourReads(n: int)
    requires 0 <= n <= 9999
    ensures Digits(Four(n), 4, 4) && Number(Four(n)) == n
  {
    var s := Four(n);
    TwoReads(n / 100);
    assert s[..3][..2] == Two(n / 100) && s[..2] == Two(n / 100);
    assert Number(s[..3]) == 10 * (n / 100) + n % 100 / 10;
  }

  lemma {:induction false} CutAt(before: string, sep: char, after: string, seps: set<char>)
    requires sep in seps && forall i :: 0 <= i < |before| ==> before[i] !in seps
    ensures Cut(before + [sep] + after, seps) == Some((before, after))
  {
    var s := before + [sep] + after;
    if before != "" {
      CutAt(before[1..], sep, after, seps);
      assert s[1..] == before[1..] + [sep] + after && before == [before[0]] + before[1..] && s[0] == before[0];
    } else {
      assert s[1..] == after;
    }
  }

  lemma {:induction false} NoCut(s: string, seps: set<char>)
    requires forall i :: 0 <= i < |s| ==> s[i] !in seps
    ensures Cut(s, seps) == None
  {
    if s != "" {
      NoCut(s[1..], seps);
    }
  }

  lemma IsoTextReads(d: Date)
    requires Valid(d)
    ensures Strip(IsoText(d)) == IsoText(d) && IsoFields(IsoText(d)) == Some(d)
  {
    var text := IsoText(d);
    FourReads(d.year);
    TwoReads(d.month);
    TwoReads(d.day);
    StripNothing(text);
    var rest := Two(d.month) + "-" + Two(d.day);
    assert text == Four(d.year) + ['-'] + rest;
    CutAt(Four(d.year), '-', rest, {'-'});
    CutAt(Two(d.month), '-', Two(d.day), {'-'});
  }

  lemma PrintedReads(day: string, a: char, month: string, b: char, year: string, anchor: int)
    requires Digits(day, 1, 2) && Digits(month, 1, 2) && Digits(year, 2, 4) && a in SEPARATORS && b in SEPARATORS
    ensures PrintedFields(Separated(day, a, month, b, year), anchor)
      == Some(Date(WrittenYear(year, anchor), Number(month), Number(day)))
  {
    CutAt(day, a, month + [b] + year, SEPARATORS);
    CutAt(month, b, year, SEPARATORS);
  }

  /** What stands before the first '-' is the day, or holds the other separator: no year of four digits. */
  lemma SeparatedIsNotIso(day: string, a: char, month: string, b: char, year: string)
    requires Digits(day, 1, 2) && Digits(month, 1, 2) && Digits(year, 2, 4) && a in SEPARATORS && b in SEPARATORS
    ensures var text := Separated(day, a, month, b, year);
      Strip(text) == text && IsoFields(text) == None
  {
    var text := Separated(day, a, month, b, year);
    assert text[|text| - 1] == year[|year| - 1] && text[0] == day[0] && text[|day|] == a;
    StripNothing(text);
    if Cut(text, {'-'}).Some? {
      CutSplits(text, {'-'});
      var before := Cut(text, {'-'}).value.0;
      if |before| > |day| {
        assert before[|day|] == a;
      }
    }
  }

  /**
   A text that is, trimmed, day, month and year around any two separators is read as such, and never
   as an ISO date.
   */
  lemma SeparatedSpells(printed: string, day: string, a: char, month: string, b: char, year: string, anchor: int)
    requires Strip(printed) == Separated(day, a, month, b, year)
    requires Digits(day, 1, 2) && Digits(month, 1, 2) && Digits(year, 2, 4) && a in SEPARATORS && b in SEPARATORS
    ensures SpelledFields(printed, anchor) == Some(Date(WrittenYear(year, anchor), Number(month), Number(day)))
  {
    PrintedReads(day, a, month, b, year, anchor);
    SeparatedIsNotIso(day, a, month, b, year);
  }

  lemma ThaiTextReads(d: Date, anchor: int)
    requires Printable(d)
    ensures IsoFields(ThaiText(d)) == None && SpelledFields(ThaiText(d), anchor) == Some(d)
  {
    FourReads(d.year);
    TwoReads(d.month);
    TwoReads(d.day);
    SeparatedIsNotIso(Two(d.day), '/', Two(d.month), '/', Four(d.year));
    SeparatedSpells(ThaiText(d), Two(d.day), '/', Two(d.month), '/', Four(d.year), anchor);
  }

  // --- theorems ---

  /** An ISO string of a real day, its year Gregorian or Buddhist. */
  predicate NamesDay(text: string) {
    IsoFields(text).Some? && Valid(InGregorian(IsoFields(text).value))
  }

  lemma FromPrintedIso(text: string, anchor: int)
    requires IsoFields(text).Some?
    ensures SpelledFields(text, anchor) == IsoFields(text)
  {
    StripTwice(text);
  }

  /** Reading the displayed date back gives what the ISO string itself gives, exactly when its year is 1857 or later. */
  lemma DisplayReadsBack(text: string, anchor: int)
    requires NamesDay(text)
    ensures FromPrinted(BuddhistDisplay(text), anchor) == FromPrinted(text, anchor) <==>
      IsoFields(text).value.year >= YEAR_FLOOR - ERA_OFFSET
  {
    var d := InGregorian(IsoFields(text).value);
    var shown := InBuddhist(d);
    FromPrintedIso(text, anchor);
    DisplayYearFits(text);
    ThaiTextReads(shown, anchor);
    if LooksBuddhist(d.year + ERA_OFFSET) {
      assert InGregorian(shown) == d;
    } else if Valid(shown) {
      IsoTextReads(d);
      IsoTextReads(shown);
      assert IsoText(d) != IsoText(shown);
    }
  }

  /** Displaying a displayed date changes nothing, whatever the text. */
  lemma DisplayIdempotent(text: string)
    ensures BuddhistDisplay(BuddhistDisplay(text)) == BuddhistDisplay(text)
  {
    if NamesDay(text) {
      DisplayYearFits(text);
      ThaiTextReads(InBuddhist(InGregorian(IsoFields(text).value)), 0);
    }
  }

  /** Two ISO strings are displayed alike exactly when they name the same day. */
  lemma DisplayNamesDay(a: string, b: string)
    requires NamesDay(a) && NamesDay(b)
    ensures BuddhistDisplay(a) == BuddhistDisplay(b) <==>
      InGregorian(IsoFields(a).value) == InGregorian(IsoFields(b).value)
  {
    DisplayYearFits(a);
    DisplayYearFits(b);
    ThaiTextReads(InBuddhist(InGregorian(IsoFields(a).value)), 0);
    ThaiTextReads(InBuddhist(InGregorian(IsoFields(b).value)), 0);
  }

  /**
   What the parser yields is the ISO string of a real day, and the parser leaves it alone exactly
   when its year is below 2400.
   */
  lemma ParsedIsDay(printed: string, anchor: int, again: int)
    requires FromPrinted(printed, anchor).Some?
    ensures var r := FromPrinted(printed, anchor).value;
      && IsoFields(r) == Some(InGregorian(SpelledFields(printed, anchor).value))
      && Valid(IsoFields(r).value) && r == IsoText(IsoFields(r).value)
      && (FromPrinted(r, again) == Some(r) <==> !LooksBuddhist(IsoFields(r).value.year))
  {
    var d := InGregorian(SpelledFields(printed, anchor).value);
    IsoTextReads(d);
    FromPrintedIso(IsoText(d), again);
    if LooksBuddhist(d.year) && Valid(InGregorian(d)) {
      IsoTextReads(InGregorian(d));
    }
  }

  /** A parsed date still looks Buddhist exactly when the year was written as 2943 or more. */
  lemma ParsedLooksBuddhist(printed: string, anchor: int)
    requires FromPrinted(printed, anchor).Some?
    ensures BuddhistYearOf(FromPrinted(printed, anchor).value).Some? <==>
      SpelledFields(printed, anchor).value.year >= YEAR_FLOOR + ERA_OFFSET
    ensures ToGregorian(ToGregorian(SpelledFields(printed, anchor).value.year))
      == ToGregorian(SpelledFields(printed, anchor).value.year)
      <==> SpelledFields(printed, anchor).value.year < YEAR_FLOOR + ERA_OFFSET
  {
    ParsedIsDay(printed, anchor, anchor);
  }

  /** The two readings of two digits are never equally near, and the nearer is taken. */
  lemma NearestReading(yy: int, anchor: int)
    ensures var y := TwoDigitYear(yy, anchor);
      var other := 4000 - 43 + 2 * yy - y;
      {y, other} == {2000 + yy, 1957 + yy} && Distance(anchor, y) < Distance(anchor, other)
  {
  }

  /**
   The printed text is, trimmed, this day and month and two digits for the year, with any separators,
   zero-padded or not.
   */
  predicate ShortText(printed: string, d: Date, day: string, a: char, month: string, b: char, year: string) {
    && Strip(printed) == Separated(day, a, month, b, year) && a in SEPARATORS && b in SEPARATORS
    && Digits(day, 1, 2) && Digits(month, 1, 2) && Digits(year, 2, 2) && Number(day) == d.day && Number(month)
      == d.month
  }

  lemma ShortTextReads(printed: string, d: Date, day: string, a: char, month: string, b: char, year: string,
      anchor: int)
    requires ShortText(printed, d, day, a, month, b, year)
    ensures SpelledFields(printed, anchor) == Some(d.(year := TwoDigitYear(Number(year), anchor)))
  {
    SeparatedSpells(printed, day, a, month, b, year, anchor);
  }

  lemma RecoversGregorian(year: int, anchor: int)
    requires 2000 <= year <= 2099
    ensures !LooksBuddhist(TwoDigitYear(year - 2000, anchor))
    ensures TwoDigitYear(year - 2000, anchor) == year <==> anchor >= year - 21
  {
  }

  lemma RecoversBuddhist(year: int, anchor: int)
    requires 1957 <= year <= 2056
    ensures !LooksBuddhist(TwoDigitYear(year + ERA_OFFSET - 2500, anchor))
    ensures TwoDigitYear(year + ERA_OFFSET - 2500, anchor) == year <==> anchor <= year + 21
  {
  }

  lemma SameTextSameDay(a: Date, b: Date)
    requires Valid(a) && Valid(b) && IsoText(a) == IsoText(b)
    ensures a == b
  {
    IsoTextReads(a);
    IsoTextReads(b);
  }

  /**
   A date printed with the last two digits of its Gregorian year is recovered exactly when the anchor
   is at most 21 years before it.
   */
  lemma GregorianShortYear(printed: string, d: Date, day: string, a: char, month: string, b: char, year: string,
      anchor: int)
    requires Valid(d) && 2000 <= d.year <= 2099 && ShortText(printed, d, day, a, month, b, year)
    requires Number(year) == d.year - 2000
    ensures FromPrinted(printed, anchor) == Some(IsoText(d)) <==> anchor >= d.year - 21
  {
    ShortTextReads(printed, d, day, a, month, b, year, anchor);
    RecoversGregorian(d.year, anchor);
    ReadsAsDay(printed, d, TwoDigitYear(Number(year), anchor), anchor);
  }

  /**
   A date printed with the last two digits of its Buddhist year is recovered exactly when the anchor
   is at most 21 years after it.
   */
  lemma BuddhistShortYear(printed: string, d: Date, day: string, a: char, month: string, b: char, year: string,
      anchor: int)
    requires Valid(d) && 1957 <= d.year <= 2056 && ShortText(printed, d, day, a, month, b, year)
    requires Number(year) == d.year + ERA_OFFSET - 2500
    ensures FromPrinted(printed, anchor) == Some(IsoText(d)) <==> anchor <= d.year + 21
  {
    ShortTextReads(printed, d, day, a, month, b, year, anchor);
    RecoversBuddhist(d.year, anchor);
    ReadsAsDay(printed, d, TwoDigitYear(Number(year), anchor), anchor);
  }

  lemma ReadsAsDay(printed: string, d: Date, year: int, anchor: int)
    requires Valid(d) && SpelledFields(printed, anchor) == Some(d.(year := year)) && !LooksBuddhist(year)
    ensures FromPrinted(printed, anchor) == Some(IsoText(d)) <==> year == d.year
  {
    if Valid(d.(year := year)) && IsoText(d.(year := year)) == IsoText(d) {
      SameTextSameDay(d.(year := year), d);
    }
  }

  // --- dates with a month's name ---

  /** Some table gives the token as the name of month `n`. */
  predicate NamesMonth(tables: seq<seq<string>>, token: string, n: int) {
    exists t :: t in tables && 1 <= n <= |t| && t[n - 1] == token
  }

  lemma {:induction false} PositionIs(names: seq<string>, name: string)
    ensures match Position(names, name)
      case Some(n) => names[n - 1] == name
      case None => name !in names
  {
    if names != [] {
      PositionIs(names[1..], name);
    }
  }

  lemma {:induction false} FindMonthIs(tables: seq<seq<string>>, token: string)
    requires forall t :: t in tables ==> |t| == 12
    ensures match FindMonth(tables, token)
      case Some(n) => NamesMonth(tables, token, n)
      case None => forall n :: !NamesMonth(tables, token, n)
  {
    if tables != [] {
      assert tables[0] in tables;
      PositionIs(tables[0], token);
      FindMonthIs(tables[1..], token);
      forall n
        ensures NamesMonth(tables, token, n) <==>
          NamesMonth(tables[1..], token, n) || (1 <= n <= 12 && tables[0][n - 1] == token)
      {
        assert forall t :: t in tables <==> t == tables[0] || t in tables[1..];
      }
    }
  }

  /**
   A name is read as a month that one of the tables gives it, with or without its trailing dots; if
   there is none, it is not read.
   */
  lemma MonthNumberIs(name: string)
    ensures match MonthNumber(name)
      case Some(n) => NamesMonth(MONTH_TABLES, Lower(name), n) || NamesMonth(MONTH_TABLES, DropLastDots(Lower(name)), n)
      case None =>
        forall n :: !NamesMonth(MONTH_TABLES, Lower(name), n) && !NamesMonth(MONTH_TABLES, DropLastDots(Lower(name)), n)
  {
    FindMonthIs(MONTH_TABLES, Lower(name));
    FindMonthIs(MONTH_TABLES, DropLastDots(Lower(name)));
  }

  lemma {:induction false} CutSplits(s: string, seps: set<char>)
    requires Cut(s, seps).Some?
    ensures var (before, after) := Cut(s, seps).value;
      |before| < |s| && s[|before|] in seps && before == s[..|before|]
  {
    if s[0] !in seps {
      CutSplits(s[1..], seps);
    }
  }

  lemma {:induction false} SpanIs(p: char -> bool, s: string, n: nat)
    requires n <= |s| && (forall i :: 0 <= i < n ==> p(s[i])) && (n < |s| ==> !p(s[n]))
    ensures Span(p, s) == n
  {
    if n > 0 {
      SpanIs(p, s[1..], n - 1);
    }
  }

  lemma Split(a: string, b: string)
    ensures (a + b)[..|a|] == a && (a + b)[|a|..] == b
  {
  }

  predicate Spaces(s: string) {
    forall i :: 0 <= i < |s| ==> IsSpace(s[i])
  }

  lemma {:induction false} DropGap(gap: string, rest: string)
    requires Spaces(gap) && (rest != "" ==> !IsSpace(rest[0]))
    ensures DropSpaces(gap + rest) == rest
  {
    if gap == "" {
      assert gap + rest == rest;
    } else {
      DropGap(gap[1..], rest);
      assert (gap + rest)[1..] == gap[1..] + rest;
    }
  }

  /**
   The gaps of a named date: some spaces after the day, any after the name, and any after its comma,
   if there is one.
   */
  datatype Layout = Layout(afterDay: string, afterName: string, comma: bool, afterComma: string)

  predicate LayoutOk(l: Layout) {
    l.afterDay != "" && Spaces(l.afterDay) && Spaces(l.afterName) && Spaces(l.afterComma)
  }

  function YearPart(l: Layout, year: string): string {
    l.afterName + ((if l.comma then "," else "") + (l.afterComma + year))
  }

  function NamedText(l: Layout, day: string, name: string, year: string): string {
    day + (l.afterDay + (name + YearPart(l, year)))
  }

  predicate NameOk(name: string) {
    name != "" && forall i :: 0 <= i < |name| ==> IsNameChar(name[i])
  }

  /** The year comes back from behind its spaces and comma. */
  lemma YearPartReads(l: Layout, year: string)
    requires LayoutOk(l) && Digits(year, 2, 4)
    ensures YearPart(l, year) != "" && !IsNameChar(YearPart(l, year)[0])
    ensures var tail := DropSpaces(YearPart(l, year));
      DropSpaces(if tail != "" && tail[0] == ',' then tail[1..] else tail) == year
  {
    DropGap(l.afterComma, year);
    if l.comma {
      var rest := "," + (l.afterComma + year);
      DropGap(l.afterName, rest);
      assert rest[1..] == l.afterComma + year;
      assert YearPart(l, year)[0] == if l.afterName == "" then ',' else l.afterName[0];
    } else {
      assert YearPart(l, year) == (l.afterName + l.afterComma) + year;
      DropGap(l.afterName + l.afterComma, year);
      DropGap("", year);
      assert "" + year == year;
    }
  }

  lemma NamedPartsRead(l: Layout, day: string, name: string, year: string)
    requires LayoutOk(l) && Digits(day, 1, 2) && Digits(year, 2, 4) && NameOk(name)
    ensures NamedParts(NamedText(l, day, name, year)) == Parts(day, true, name, year)
  {
    var named := name + YearPart(l, year);
    YearPartReads(l, year);
    Split(day, l.afterDay + named);
    SpanIs(IsDigit, day + (l.afterDay + named), |day|);
    DropGap(l.afterDay, named);
    Split(name, YearPart(l, year));
    SpanIs(IsNameChar, named, |name|);
  }

  lemma NamedTextSpells(l: Layout, day: string, name: string, year: string, anchor: int)
    requires LayoutOk(l) && Digits(day, 1, 2) && Digits(year, 2, 4) && NameOk(name)
    ensures var text := NamedText(l, day, name, year);
      Strip(text) == text && IsoFields(text) == None && PrintedFields(text, anchor) == None
  {
    var text := NamedText(l, day, name, year);
    assert text[|text| - 1] == year[|year| - 1] && text[|day|] == l.afterDay[0] && text[0] == day[0];
    StripNothing(text);
    NoSeparatorNearFront(text, |day|, {'-'});
    NoSeparatorNearFront(text, |day|, SEPARATORS);
  }

  /**
   A text that is, trimmed, a day, a name and a year in any layout is read as such, and not at all
   when the name is no month's.
   */
  lemma NamedDateReads(printed: string, l: Layout, day: string, name: string, year: string, anchor: int)
    requires Strip(printed) == NamedText(l, day, name, year)
    requires LayoutOk(l) && Digits(day, 1, 2) && Digits(year, 2, 4) && NameOk(name)
    ensures SpelledFields(printed, anchor)
      == if MonthNumber(name).Some? then Some(Date(WrittenYear(year, anchor), MonthNumber(name).value, Number(day)))
        else None
  {
    NamedTextSpells(l, day, name, year, anchor);
    NamedPartsRead(l, day, name, year);
  }

  lemma NoSeparatorNearFront(text: string, n: nat, seps: set<char>)
    requires 1 <= n <= 2 && n < |text| && (forall i :: 0 <= i < n ==> IsDigit(text[i])) && IsSpace(text[n])
    requires seps <= SEPARATORS
    ensures Cut(text, seps).None? || !Digits(Cut(text, seps).value.0, 1, 4)
  {
    if Cut(text, seps).Some? {
      CutSplits(text, seps);
      var before := Cut(text, seps).value.0;
      if |before| > n {
        assert before[n] == text[n];
      }
    }
  }

  // --- years written in full, and what is shown ---

  /** Day and month in one or two digits and the year in four, around any separators. */
  predicate FullText(printed: string, day: string, a: char, month: string, b: char, year: string) {
    && Strip(printed) == Separated(day, a, month, b, year) && a in SEPARATORS && b in SEPARATORS
    && Digits(day, 1, 2) && Digits(month, 1, 2) && Digits(year, 4, 4)
  }

  /** Such a text is read as this day exactly when it is written in that day's Gregorian or Buddhist year. */
  lemma FullYearReads(printed: string, day: string, a: char, month: string, b: char, year: string, d: Date, anchor: int)
    requires Valid(d) && FullText(printed, day, a, month, b, year)
    ensures FromPrinted(printed, anchor) == Some(IsoText(d)) <==>
      && Number(day) == d.day && Number(month) == d.month
      && ((Number(year) == d.year && d.year < 2400) || (Number(year) == d.year + 543 && d.year >= 1857))
  {
    SeparatedSpells(printed, day, a, month, b, year, anchor);
    SpelledExactly(printed, d, anchor);
  }

  lemma SpelledExactly(printed: string, d: Date, anchor: int)
    requires Valid(d) && SpelledFields(printed, anchor).Some?
    ensures FromPrinted(printed, anchor) == Some(IsoText(d)) <==> InGregorian(SpelledFields(printed, anchor).value) == d
  {
    var read := InGregorian(SpelledFields(printed, anchor).value);
    if Valid(read) && IsoText(read) == IsoText(d) {
      SameTextSameDay(read, d);
    }
  }

  /** Year, month and day in four, two and two digits or fewer, with hyphens. */
  predicate IsoWritten(text: string, year: string, month: string, day: string) {
    && Strip(text) == year + ['-'] + (month + ['-'] + day)
    && Digits(year, 4, 4) && Digits(month, 1, 2) && Digits(day, 1, 2)
  }

  lemma IsoWrittenReads(text: string, year: string, month: string, day: string)
    requires IsoWritten(text, year, month, day)
    ensures IsoFields(text) == Some(Date(Number(year), Number(month), Number(day)))
  {
    CutAt(year, '-', month + ['-'] + day, {'-'});
    CutAt(month, '-', day, {'-'});
  }

  /** The day such a text names, whether its year is Gregorian or Buddhist. */
  predicate IsDayOf(d: Date, year: string, month: string, day: string)
    requires Digits(year, 4, 4) && Digits(month, 1, 2) && Digits(day, 1, 2)
  {
    && Number(day) == d.day && Number(month) == d.month
    && ((Number(year) == d.year && d.year < 2400) || (Number(year) == d.year + 543 && d.year >= 1857))
  }

  /** It is read as that day, and shown as two digits for day and month and four for the Buddhist year. */
  lemma IsoReadsAndShows(text: string, year: string, month: string, day: string, d: Date, anchor: int)
    requires Valid(d) && IsoWritten(text, year, month, day) && IsDayOf(d, year, month, day)
    ensures FromPrinted(text, anchor) == Some(IsoText(d))
    ensures d.year + 543 <= 9999
    ensures BuddhistDisplay(text) == Two(d.day) + "/" + Two(d.month) + "/" + Four(d.year + 543)
  {
    IsoWrittenReads(text, year, month, day);
    assert InGregorian(IsoFields(text).value) == d;
    FromPrintedIso(text, anchor);
    SpelledExactly(text, d, anchor);
    Shows(text, d);
  }

  lemma Shows(text: string, d: Date)
    requires Valid(d) && IsoFields(text).Some? && InGregorian(IsoFields(text).value) == d
    ensures d.year + 543 <= 9999
    ensures BuddhistDisplay(text) == Two(d.day) + "/" + Two(d.month) + "/" + Four(d.year + 543)
  {
    DisplayYearFits(text);
    assert InBuddhist(d) == Date(d.year + 543, d.month, d.day);
    assert Separated(Two(d.day), '/', Two(d.month), '/', Four(d.year + 543))
        == Two(d.day) + "/" + Two(d.month) + "/" + Four(d.year + 543);
  }

  /** What names no real day is shown as it is. */
  lemma OtherTextsStay(text: string)
    requires !NamesDay(text)
    ensures BuddhistDisplay(text) == text
  {
  }

  /** A text is in ISO form exactly when it can be taken apart like this. */
  lemma IsoFormExactly(text: string)
    ensures IsoFields(text).Some? <==> exists year, month, day :: IsoWritten(text, year, month, day)
  {
    if IsoFields(text).Some? {
      var (year, rest) := Cut(Strip(text), {'-'}).value;
      var (month, day) := Cut(rest, {'-'}).value;
      CutJoins(Strip(text));
      CutJoins(rest);
      assert IsoWritten(text, year, month, day);
    }
    if year, month, day :| IsoWritten(text, year, month, day) {
      IsoWrittenReads(text, year, month, day);
    }
  }

  lemma {:induction false} CutJoins(s: string)
    requires Cut(s, {'-'}).Some?
    ensures var (before, after) := Cut(s, {'-'}).value; s == before + (['-'] + after)
  {
    if s[0] == '-' {
      assert s == [s[0]] + s[1..];
    } else {
      CutJoins(s[1..]);
      assert s == [s[0]] + s[1..];
    }
  }

  /** A text in ISO form looks Buddhist exactly from year 2400 on. */
  lemma BuddhistYearExactly(text: string, year: string, month: string, day: string)
    requires IsoWritten(text, year, month, day)
    ensures BuddhistYearOf(text) == if Number(year) >= 2400 then Some(Number(year)) else None
  {
    IsoWrittenReads(text, year, month, day);
  }
}
