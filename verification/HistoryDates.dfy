/** The loop of routes/history_routes.py that keeps Buddhist years out of stored invoice dates. */
module HistoryDates {
  import opened Common
  import opened Strings
  import opened ThaiDate

  /** A JSON value: null, a string, or anything else with its printed form and truth value. */
  datatype Value = Null | Str(text: string) | Other(text: string, truthy: bool)

  datatype Page = NotADict | WithoutFields | WithFields(dateRaw: Value, date: Value)

  predicate Truthy(v: Value) {
    match v
    case Null => false
    case Str(text) => text != ""
    case Other(_, truthy) => truthy
  }

  /** `str(v or "")` */
  function Text(v: Value): string {
    if Truthy(v) then v.text else ""
  }

  datatype Action = Keep | Refuse(text: string) | Store(iso: string)

  predicate Printed(page: Page) {
    page.WithFields? && Strip(Text(page.dateRaw)) != ""
  }

  /** A printed date is converted or refused; without one, a stored Buddhist date is refused. */
  function ActionFor(page: Page, thisYear: int): Action {
    if !page.WithFields? then Keep
    else if !Printed(page) then
      (if BuddhistYearOf(Text(page.date)).Some? then Refuse(Text(page.date)) else Keep)
    else match FromPrinted(Text(page.dateRaw), thisYear)
      case None => Refuse(Text(page.dateRaw))
      case Some(iso) => Store(iso)
  }

  function Stored(page: Page, thisYear: int): Page {
    match ActionFor(page, thisYear)
    case Store(iso) => page.(date := Str(iso))
    case _ => page
  }

  function StoredAll(pages: seq<Page>, thisYear: int): (r: seq<Page>)
    ensures |r| == |pages|
    ensures forall i :: 0 <= i < |pages| ==> r[i] == Stored(pages[i], thisYear)
  {
    seq(|pages|, i requires 0 <= i < |pages| => Stored(pages[i], thisYear))
  }

  function FirstRefused(pages: seq<Page>, thisYear: int): (i: nat)
    ensures i <= |pages| && forall k :: 0 <= k < i ==> !ActionFor(pages[k], thisYear).Refuse?
    ensures i < |pages| ==> ActionFor(pages[i], thisYear).Refuse?
  {
    if pages == [] || ActionFor(pages[0], thisYear).Refuse? then 0 else 1 + FirstRefused(pages[1..], thisYear)
  }

  /** The pages afterwards and the refused text, if any: pages before the first refused one are rewritten. */
  function Derive(pages: seq<Page>, thisYear: int): (seq<Page>, Option<string>) {
    var i := FirstRefused(pages, thisYear);
    (StoredAll(pages[..i], thisYear) + pages[i..],
     if i < |pages| then Some(ActionFor(pages[i], thisYear).text) else None)
  }

  /** One turn of the loop: the page as it is left, and the text refused. */
  method DerivePage(page: Page, thisYear: int) returns (now: Page, bad: Option<string>)
    ensures now == Stored(page, thisYear)
    ensures bad == if ActionFor(page, thisYear).Refuse? then Some(ActionFor(page, thisYear).text) else None
  {
    now, bad := page, None;
    if page.WithFields? {
      var printed := page.dateRaw;
      if Strip(Text(printed)) == "" {
        if BuddhistYearOf(Text(page.date)).Some? {
          bad := Some(Text(page.date));
        }
      } else {
        var derived := FromPrinted(Text(printed), Anchor(None, thisYear));
        if derived.None? {
          bad := Some(Text(printed));
        } else {
          now := page.(date := Str(derived.value));
        }
      }
    }
  }

  method DeriveDatesFromPrinted(pages: array<Page>, thisYear: int) returns (bad: Option<string>)
    modifies pages
    ensures (pages[..], bad) == Derive(old(pages[..]), thisYear)
  {
    ghost var was := pages[..];
    for i := 0 to pages.Length
      invariant forall k :: 0 <= k < i ==> !ActionFor(was[k], thisYear).Refuse? && pages[k] == Stored(was[k], thisYear)
      invariant forall k :: i <= k < pages.Length ==> pages[k] == was[k]
    {
      pages[i], bad := DerivePage(pages[i], thisYear);
      if bad.Some? {
        StoppedIsDerived(was, pages[..], i, thisYear);
        return;
      }
    }
    bad := None;
    FinishedIsDerived(was, pages[..], thisYear);
  }

  lemma StoppedIsDerived(was: seq<Page>, now: seq<Page>, i: nat, thisYear: int)
    requires i < |was| == |now| && ActionFor(was[i], thisYear).Refuse? && now[i..] == was[i..]
    requires forall k :: 0 <= k < i ==> !ActionFor(was[k], thisYear).Refuse? && now[k] == Stored(was[k], thisYear)
    ensures Derive(was, thisYear) == (now, Some(ActionFor(was[i], thisYear).text))
  {
    assert FirstRefused(was, thisYear) == i;
    assert now == StoredAll(was[..i], thisYear) + was[i..];
  }

  lemma FinishedIsDerived(was: seq<Page>, now: seq<Page>, thisYear: int)
    requires |was| == |now|
    requires forall k :: 0 <= k < |was| ==> !ActionFor(was[k], thisYear).Refuse? && now[k] == Stored(was[k], thisYear)
    ensures Derive(was, thisYear) == (now, None)
  {
    assert FirstRefused(was, thisYear) == |was|;
    assert now == StoredAll(was[..|was|], thisYear) + was[|was|..];
  }

  /** A page as it must be for storing: its printed date, when there is one, in ISO form; otherwise no Buddhist date. */
  predicate Settled(was: Page, now: Page, thisYear: int) {
    if Printed(was) then
      && now.WithFields? && now.dateRaw == was.dateRaw
      && FromPrinted(Text(was.dateRaw), thisYear).Some?
      && now.date == Str(FromPrinted(Text(was.dateRaw), thisYear).value)
    else now == was && (was.WithFields? ==> BuddhistYearOf(Text(was.date)).None?)
  }

  /** The pages are let through exactly when every page can be settled, and then every page is. */
  lemma LetThroughSettles(pages: seq<Page>, thisYear: int)
    ensures Derive(pages, thisYear).1.None? <==>
      forall i :: 0 <= i < |pages| ==> Settled(pages[i], Stored(pages[i], thisYear), thisYear)
    ensures |Derive(pages, thisYear).0| == |pages|
    ensures Derive(pages, thisYear).1.None? ==>
      forall i :: 0 <= i < |pages| ==> Settled(pages[i], Derive(pages, thisYear).0[i], thisYear)
  {
    var i := FirstRefused(pages, thisYear);
    if i < |pages| {
      assert !Settled(pages[i], Stored(pages[i], thisYear), thisYear);
    }
  }

  /**
   Otherwise the refused text is that of the first page that cannot be settled; the pages before it
   are rewritten, the rest are not.
   */
  lemma RefusedIsFirst(pages: seq<Page>, thisYear: int)
    requires Derive(pages, thisYear).1.Some?
    ensures exists i :: 0 <= i < |pages| && RefusedAt(pages, i, thisYear)
  {
    assert RefusedAt(pages, FirstRefused(pages, thisYear), thisYear);
  }

  predicate RefusedAt(pages: seq<Page>, i: nat, thisYear: int)
    requires i < |pages|
  {
    var (now, bad) := Derive(pages, thisYear);
    && |now| == |pages| && now[i..] == pages[i..]
    && (forall k :: 0 <= k < i ==> Settled(pages[k], now[k], thisYear))
    && pages[i].WithFields?
    && bad == Some(Text(if Printed(pages[i]) then pages[i].dateRaw else pages[i].date))
    && (if Printed(pages[i]) then FromPrinted(Text(pages[i].dateRaw), thisYear).None?
      else BuddhistYearOf(Text(pages[i].date)).Some?)
  }

  /** Running it again over pages it let through changes nothing and lets them through. */
  lemma SecondRunKeeps(pages: seq<Page>, thisYear: int)
    requires Derive(pages, thisYear).1.None?
    ensures Derive(Derive(pages, thisYear).0, thisYear) == Derive(pages, thisYear)
  {
    LetThroughSettles(pages, thisYear);
    var now := Derive(pages, thisYear).0;
    forall k | 0 <= k < |now| ensures !ActionFor(now[k], thisYear).Refuse? && Stored(now[k], thisYear) == now[k] {
      assert Settled(pages[k], now[k], thisYear);
    }
    assert FirstRefused(now, thisYear) == |now|;
    assert StoredAll(now[..|now|], thisYear) + now[|now|..] == now;
  }

  /** The year printed on the page, two digits resolved. */
  function PrintedYear(page: Page, thisYear: int): int {
    if Printed(page) && SpelledFields(Text(page.dateRaw), thisYear).Some?
    then SpelledFields(Text(page.dateRaw), thisYear).value.year else 0
  }

  predicate StoredBuddhist(page: Page) {
    page.WithFields? && BuddhistYearOf(Text(page.date)).Some?
  }

  /** Of the pages let through, a date looks Buddhist exactly where a year of 2943 or more is printed. */
  lemma BuddhistOnlyFrom2943(pages: seq<Page>, thisYear: int, i: nat)
    requires Derive(pages, thisYear).1.None? && i < |pages|
    ensures |Derive(pages, thisYear).0| == |pages|
    ensures StoredBuddhist(Derive(pages, thisYear).0[i]) <==> PrintedYear(pages[i], thisYear) >= YEAR_FLOOR + ERA_OFFSET
  {
    LetThroughSettles(pages, thisYear);
    assert Settled(pages[i], Derive(pages, thisYear).0[i], thisYear);
    if Printed(pages[i]) {
      ParsedLooksBuddhist(Text(pages[i].dateRaw), thisYear);
    }
  }

  /** A page has a printed date when its raw date is a truthy value whose text is not all spaces. */
  lemma PrintedExactly(page: Page)
    ensures Printed(page) <==>
      && page.WithFields? && page.dateRaw != Null && (page.dateRaw.Other? ==> page.dateRaw.truthy)
      && exists i :: 0 <= i < |page.dateRaw.text| && !IsSpace(page.dateRaw.text[i])
  {
    if page.WithFields? && page.dateRaw != Null {
      StripsToNothing(page.dateRaw.text);
    }
    StripsToNothing("");
  }
}
