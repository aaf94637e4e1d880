/** A tenant's default workspace and its per-process cache (core/workspace_context.py). Times are in milliseconds. */
module WorkspaceCache {
  import opened Common
  import opened Strings

  /** A row of `workspace_clients`. */
  datatype Workspace = Workspace(id: nat, tenant: string, createdAt: int)

  /** The table as it was from `at` on. */
  datatype Version = Version(at: int, rows: seq<Workspace>)

  datatype Entry = Entry(expires: int, id: nat)

  const TTL := 60_000

  /** Every version the table ever had, the last one being current, and the cache of one process. */
  datatype World = World(now: int, log: seq<Version>, cache: map<string, Entry>)

  predicate Earlier(a: Workspace, b: Workspace) {
    a.createdAt < b.createdAt || (a.createdAt == b.createdAt && a.id < b.id)
  }

  /** The first row of this tenant in order of creation and id. */
  function First(rows: seq<Workspace>, tenant: string): Option<Workspace> {
    if rows == [] then None else
    var last := rows[|rows| - 1];
    var first := First(rows[..|rows| - 1], tenant);
    if last.tenant == tenant && (first.None? || Earlier(last, first.value)) then Some(last) else first
  }

  /** The uncached query. */
  function Query(rows: seq<Workspace>, tenant: string): Option<nat> {
    var first := First(rows, tenant);
    if first.Some? then Some(first.value.id) else None
  }

  function Current(w: World): seq<Workspace> {
    if w.log == [] then [] else w.log[|w.log| - 1].rows
  }

  predicate Fresh(w: World, tenant: string) {
    tenant in w.cache && w.now < w.cache[tenant].expires
  }

  function DefaultId(w: World, tenant: string): (World, Option<nat>) {
    if Fresh(w, tenant) then (w, Some(w.cache[tenant].id)) else
    var id := Query(Current(w), tenant);
    (if id.Some? then w.(cache := w.cache[tenant := Entry(w.now + TTL, id.value)]) else w, id)
  }

  /** The workspace id in a request's header, if it is there and a number. */
  function ReadHeader(header: Option<string>): Option<nat> {
    if header.None? then None else
    var raw := Strip(header.value);
    if raw != "" && forall i :: 0 <= i < |raw| ==> IsDigit(raw[i]) then Some(Number(raw)) else None
  }

  predicate InTenant(rows: seq<Workspace>, id: nat, tenant: string) {
    exists i :: 0 <= i < |rows| && rows[i].id == id && rows[i].tenant == tenant
  }

  datatype Resolved = Chosen(id: nat) | Forbidden | Required | OutOfScope

  /** `inScope` is what the caller's own scope allows. */
  function Resolve(w: World, header: Option<string>, tenant: string, inScope: nat -> bool): (World, Resolved) {
    var given := ReadHeader(header);
    if given.Some? then
      (w, if !InTenant(Current(w), given.value, tenant) then Forbidden
          else if inScope(given.value) then Chosen(given.value) else OutOfScope)
    else
      var (after, id) := DefaultId(w, tenant);
      (after, if id.None? then Required else if inScope(id.value) then Chosen(id.value) else OutOfScope)
  }

  datatype Event =
    | Tick(time: nat)
    | Change(rows: seq<Workspace>)
    | Request(header: Option<string>, tenant: string)
    | SlowFill(tenant: string, started: int, version: nat)

  /** A lookup that read the clock at `started` and the table no earlier, and only now fills the cache. */
  predicate CanFill(w: World, started: int, version: nat) {
    && started <= w.now && version < |w.log|
    && (version + 1 < |w.log| ==> started <= w.log[version + 1].at)
  }

  function Filled(w: World, tenant: string, started: int, version: nat): World
    requires version < |w.log|
  {
    var id := Query(w.log[version].rows, tenant);
    if id.Some? then w.(cache := w.cache[tenant := Entry(started + TTL, id.value)]) else w
  }

  function Step(w: World, e: Event): World {
    match e
    case Tick(time) => w.(now := w.now + time)
    case Change(rows) => w.(log := w.log + [Version(w.now, rows)])
    case Request(header, tenant) => if ReadHeader(header).Some? then w else DefaultId(w, tenant).0
    case SlowFill(tenant, started, version) =>
      if CanFill(w, started, version) then Filled(w, tenant, started, version) else w
  }

  function Run(w: World, events: seq<Event>): World
    decreases |events|
  {
    if events == [] then w else Run(Step(w, events[0]), events[1..])
  }

  class WorkspaceContext {
    var now: int
    var log: seq<Version>
    var cache: map<string, Entry>

    function Now(): World
      reads this
    {
      World(now, log, cache)
    }

    method DefaultWorkspaceId(tenant: string) returns (id: Option<nat>)
      modifies this`cache
      ensures (Now(), id) == DefaultId(old(Now()), tenant)
    {
      if tenant in cache {
        var entry := cache[tenant];
        if entry.expires > now {
          return Some(entry.id);
        }
      }
      id := Query(Current(Now()), tenant);
      if id.Some? {
        cache := cache[tenant := Entry(now + TTL, id.value)];
      }
    }

    method ResolveActiveWorkspaceId(header: Option<string>, tenant: string,
        inScope: nat -> bool) returns (resolved: Resolved)
      modifies this`cache
      ensures (Now(), resolved) == Resolve(old(Now()), header, tenant, inScope)
    {
      var id := ReadHeader(header);
      if id.Some? {
        if !InTenant(Current(Now()), id.value, tenant) {
          return Forbidden;
        }
      } else {
        id := DefaultWorkspaceId(tenant);
        if id.None? {
          return Required;
        }
      }
      resolved := if inScope(id.value) then Chosen(id.value) else OutOfScope;
    }
  }

  // --- the query ---

  predicate IsFirst(rows: seq<Workspace>, first: Workspace, tenant: string) {
    && first in rows && first.tenant == tenant
    && forall i :: 0 <= i < |rows| && rows[i].tenant == tenant ==>
      first.createdAt < rows[i].createdAt || (first.createdAt == rows[i].createdAt && first.id <= rows[i].id)
  }

  /** The query gives the earliest workspace of the tenant, and nothing exactly when it has none. */
  lemma {:induction false} FirstIsEarliest(rows: seq<Workspace>, tenant: string)
    ensures match First(rows, tenant)
      case Some(first) => IsFirst(rows, first, tenant)
      case None => forall i :: 0 <= i < |rows| ==> rows[i].tenant != tenant
  {
    if rows != [] {
      FirstIsEarliest(rows[..|rows| - 1], tenant);
    }
  }

  /**
   This tenant lost no row, and its new rows all come later than those it had; other tenants' rows
   may change in any way.
   */
  predicate AddsOnlyLater(was: seq<Workspace>, rows: seq<Workspace>, tenant: string) {
    && (forall r :: r in was && r.tenant == tenant ==> r in rows)
    && (forall q, r :: q in was && q.tenant == tenant && r in rows && r.tenant == tenant && r !in was ==> Earlier(q, r))
  }

  lemma QueryStays(was: seq<Workspace>, rows: seq<Workspace>, tenant: string)
    requires AddsOnlyLater(was, rows, tenant) && Query(was, tenant).Some?
    ensures Query(rows, tenant) == Query(was, tenant)
  {
    FirstIsEarliest(was, tenant);
    FirstIsEarliest(rows, tenant);
    var first := First(was, tenant).value;
    assert first in rows && First(rows, tenant).Some?;
    var now := First(rows, tenant).value;
    assert !Earlier(first, now);
    assert now in was ==> !Earlier(now, first);
  }

  // --- what holds in every reachable state ---

  /** Version `v` gave this id, and was still current at `since` or later. */
  predicate Gave(log: seq<Version>, v: nat, tenant: string, id: nat, since: int) {
    v < |log| && Query(log[v].rows, tenant) == Some(id) && (v + 1 < |log| ==> since <= log[v + 1].at)
  }

  /** This id was the earliest at some moment from `since` on. */
  ghost predicate WasEarliest(log: seq<Version>, tenant: string, id: nat, since: int) {
    exists v: nat :: Gave(log, v, tenant, id, since)
  }

  ghost predicate CacheOk(w: World) {
    forall tenant :: tenant in w.cache ==>
      && w.cache[tenant].expires <= w.now + TTL
      && WasEarliest(w.log, tenant, w.cache[tenant].id, w.cache[tenant].expires - TTL)
  }

  predicate Timed(w: World) {
    && (forall i :: 0 <= i < |w.log| ==> w.log[i].at <= w.now)
    && (forall i, j :: 0 <= i <= j < |w.log| ==> w.log[i].at <= w.log[j].at)
  }

  ghost predicate Inv(w: World) {
    w.log != [] && Timed(w) && CacheOk(w)
  }

  lemma ChangeInv(w: World, rows: seq<Workspace>)
    requires Inv(w)
    ensures Inv(Step(w, Change(rows)))
  {
    var log := w.log + [Version(w.now, rows)];
    forall tenant | tenant in w.cache
      ensures WasEarliest(log, tenant, w.cache[tenant].id, w.cache[tenant].expires - TTL)
    {
      var v: nat :| Gave(w.log, v, tenant, w.cache[tenant].id, w.cache[tenant].expires - TTL);
      assert Gave(log, v, tenant, w.cache[tenant].id, w.cache[tenant].expires - TTL);
    }
  }

  lemma FilledInv(w: World, tenant: string, started: int, version: nat)
    requires Inv(w) && CanFill(w, started, version)
    ensures Inv(Filled(w, tenant, started, version))
  {
    var id := Query(w.log[version].rows, tenant);
    assert id.Some? ==> Gave(w.log, version, tenant, id.value, started);
  }

  lemma RequestInv(w: World, tenant: string)
    requires Inv(w)
    ensures Inv(DefaultId(w, tenant).0)
  {
    RequestFills(w, tenant);
    FilledInv(w, tenant, w.now, |w.log| - 1);
  }

  lemma RequestFills(w: World, tenant: string)
    requires w.log != []
    ensures DefaultId(w, tenant).0 == if Fresh(w, tenant) then w else Filled(w, tenant, w.now, |w.log| - 1)
  {
  }

  lemma StepInv(w: World, e: Event)
    requires Inv(w)
    ensures Inv(Step(w, e))
  {
    match e
    case Tick(_) =>
    case Change(rows) => ChangeInv(w, rows);
    case Request(_, tenant) => RequestInv(w, tenant);
    case SlowFill(tenant, started, version) =>
      if CanFill(w, started, version) { FilledInv(w, tenant, started, version); }
  }

  lemma {:induction false} RunInv(w: World, events: seq<Event>)
    requires Inv(w)
    ensures Inv(Run(w, events))
    decreases |events|
  {
    if events != [] {
      StepInv(w, events[0]);
      RunInv(Step(w, events[0]), events[1..]);
    }
  }

  /** Reached by some run from a table and an empty cache. */
  ghost predicate Reachable(w: World) {
    exists now, rows, events :: Run(World(now, [Version(now, rows)], map[]), events) == w
  }

  lemma ReachableInv(w: World)
    requires Reachable(w)
    ensures Inv(w)
  {
    var now, rows, events :| Run(World(now, [Version(now, rows)], map[]), events) == w;
    RunInv(World(now, [Version(now, rows)], map[]), events);
  }

  /**
   Whatever happens to the table, a default served now was the tenant's earliest workspace at some
   moment in the last minute; and none is served only when there is none.
   */
  lemma ServedWasEarliest(w: World, tenant: string)
    requires Reachable(w)
    ensures match DefaultId(w, tenant).1
      case Some(id) => WasEarliest(w.log, tenant, id, w.now - TTL)
      case None => Query(Current(w), tenant) == None
  {
    ReachableInv(w);
    if Fresh(w, tenant) {
      var e := w.cache[tenant];
      var v: nat :| Gave(w.log, v, tenant, e.id, e.expires - TTL);
      assert Gave(w.log, v, tenant, e.id, w.now - TTL);
    } else if Query(Current(w), tenant).Some? {
      assert Gave(w.log, |w.log| - 1, tenant, Query(Current(w), tenant).value, w.now - TTL);
    }
  }

  /** Every change of the table only added later rows to this tenant. */
  predicate OnlyLaterAdded(log: seq<Version>, tenant: string) {
    forall k :: 0 <= k < |log| - 1 ==> AddsOnlyLater(log[k].rows, log[k + 1].rows, tenant)
  }

  lemma {:induction false} AddedSince(log: seq<Version>, tenant: string, i: nat, j: nat)
    requires OnlyLaterAdded(log, tenant) && i <= j < |log|
    ensures AddsOnlyLater(log[i].rows, log[j].rows, tenant)
    decreases j
  {
    if i < j {
      AddedSince(log, tenant, i, j - 1);
      assert AddsOnlyLater(log[j - 1].rows, log[j - 1 + 1].rows, tenant);
    }
  }

  /**
   While a tenant's workspaces are only ever added later, its cached default is what the query would
   give, at every moment; so once it has one, a default is always served.
   */
  lemma CacheIsQuery(w: World, tenant: string)
    requires Reachable(w) && OnlyLaterAdded(w.log, tenant)
    ensures DefaultId(w, tenant).1 == Query(Current(w), tenant)
  {
    ReachableInv(w);
    ServedWasEarliest(w, tenant);
    if DefaultId(w, tenant).1.Some? {
      var v: nat :| Gave(w.log, v, tenant, DefaultId(w, tenant).1.value, w.now - TTL);
      AddedSince(w.log, tenant, v, |w.log| - 1);
      QueryStays(w.log[v].rows, Current(w), tenant);
    }
  }

  predicate HadWorkspace(log: seq<Version>, v: nat, tenant: string, id: nat, since: int) {
    v < |log| && (v + 1 < |log| ==> since <= log[v + 1].at) && InTenant(log[v].rows, id, tenant)
  }

  ghost predicate WasInTenant(log: seq<Version>, tenant: string, id: nat, since: int) {
    exists v: nat :: HadWorkspace(log, v, tenant, id, since)
  }

  /**
   The workspace a request gets is one of its tenant's: in the table now when named in the header,
   else at some moment in the last minute.
   */
  lemma ResolvedBelongs(w: World, header: Option<string>, tenant: string, inScope: nat -> bool, id: nat)
    requires Reachable(w) && Resolve(w, header, tenant, inScope).1 == Chosen(id)
    ensures inScope(id)
    ensures if ReadHeader(header).Some? then ReadHeader(header) == Some(id) && InTenant(Current(w), id, tenant)
            else WasInTenant(w.log, tenant, id, w.now - TTL)
  {
    if ReadHeader(header).None? {
      ServedWasEarliest(w, tenant);
      var v: nat :| Gave(w.log, v, tenant, id, w.now - TTL);
      FirstIsEarliest(w.log[v].rows, tenant);
      assert HadWorkspace(w.log, v, tenant, id, w.now - TTL);
    }
  }

  // --- what each answer means ---

  /** A header that names a workspace by its number, spaces around it or not. */
  ghost predicate Names(header: Option<string>, id: nat) {
    header.Some? && exists before, after :: Padded(header.value, before, Decimal(id), after)
  }

  lemma HeaderReads(header: Option<string>, id: nat)
    requires Names(header, id)
    ensures ReadHeader(header) == Some(id)
  {
    var before, after :| Padded(header.value, before, Decimal(id), after);
    DecimalDigits(id);
    NumberReads(id);
    StripPadded(before, Decimal(id), after);
    StripNothing(Decimal(id));
  }

  /** Missing, or empty or not a number once trimmed. */
  predicate NamesNone(header: Option<string>) {
    header.Some? && Strip(header.value) != "" ==>
      exists i :: 0 <= i < |Strip(header.value)| && !('0' <= Strip(header.value)[i] <= '9')
  }

  /** A workspace named in the header is given if it is the tenant's and in scope, and nothing else ever is. */
  lemma NamedExactly(w: World, header: Option<string>, tenant: string, inScope: nat -> bool, id: nat)
    requires Names(header, id)
    ensures var (after, resolved) := Resolve(w, header, tenant, inScope);
      var its := exists i :: 0 <= i < |Current(w)| && Current(w)[i].id == id && Current(w)[i].tenant == tenant;
      && after == w && resolved in {Chosen(id), Forbidden, OutOfScope}
      && (resolved == Chosen(id) <==> its && inScope(id))
      && (resolved == Forbidden <==> !its)
      && (resolved == OutOfScope <==> its && !inScope(id))
  {
    HeaderReads(header, id);
  }

  /** Without one the default is given if there is one and it is in scope. */
  lemma UnnamedExactly(w: World, header: Option<string>, tenant: string, inScope: nat -> bool)
    requires NamesNone(header)
    ensures var (after, resolved) := Resolve(w, header, tenant, inScope);
      var default := DefaultId(w, tenant).1;
      && after == DefaultId(w, tenant).0
      && (resolved == Required <==> default == None)
      && (resolved == OutOfScope <==> default.Some? && !inScope(default.value))
      && (forall id: nat :: resolved == Chosen(id) <==> default == Some(id) && inScope(id))
  {
  }

  /** A default looked up is kept a minute, a missing one not at all; other tenants' defaults are left alone. */
  lemma DefaultIsKept(w: World, tenant: string)
    requires !Fresh(w, tenant)
    ensures var (after, default) := DefaultId(w, tenant);
      && after.now == w.now && after.log == w.log
      && default == Query(Current(w), tenant)
      && (forall other :: other in w.cache && other != tenant ==>
        other in after.cache && after.cache[other] == w.cache[other])
      && (forall other :: other in after.cache && other != tenant ==> other in w.cache)
      && (default.Some? ==> tenant in after.cache && after.cache[tenant] == Entry(w.now + 60000, default.value))
      && (default.None? ==> after == w)
  {
  }

  /** A default that was looked up is served for a minute, whatever happens to the table. */
  lemma {:induction false} KeptForAMinute(w: World, events: seq<Event>, tenant: string, id: nat, until: int)
    requires tenant in w.cache && w.cache[tenant] == Entry(until, id)
    requires Run(w, events).now < until && forall e :: e in events ==> !e.SlowFill?
    ensures DefaultId(Run(w, events), tenant) == (Run(w, events), Some(id))
    decreases |events|
  {
    if events != [] {
      TimeGoesOn(Step(w, events[0]), events[1..]);
      KeptForAMinute(Step(w, events[0]), events[1..], tenant, id, until);
    }
  }

  lemma {:induction false} TimeGoesOn(w: World, events: seq<Event>)
    ensures w.now <= Run(w, events).now
    decreases |events|
  {
    if events != [] {
      TimeGoesOn(Step(w, events[0]), events[1..]);
    }
  }
}
