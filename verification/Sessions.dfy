/**
 One device per account (core/auth.py) over the per-process row caches of
 services/auth/user_lookup.py. Times are in milliseconds; `iat` and `exp`
 (sections 4.1.6 and 4.1.4 of RFC 7519) are whole seconds.
 */
module Sessions {
  import opened Common

  datatype UserRow = UserRow(activeJti: Option<nat>, passwordAt: Option<nat>, isActive: bool)

  /** A token from before session control carries no `jti`. */
  datatype Token = Token(sub: string, jti: Option<nat>, iat: nat, exp: nat)

  datatype Cause = Created | LoggedIn(jti: nat) | LoggedOut | PasswordSet | Edited

  datatype Version = Version(at: nat, row: UserRow, cause: Cause)

  /** A cached copy of a user row, good while `expires` lies ahead. */
  datatype Entry = Entry(expires: nat, row: UserRow)

  const CACHE_TTL := 8000
  const EXPIRE_HOURS := 12
  const REMEMBER_DAYS := 7

  /**
   The users table with every version its rows ever had, the last one being current; and the caches
   of all processes.
   */
  datatype World = World(now: nat, log: map<string, seq<Version>>, caches: map<(nat, string), Entry>, nextJti: nat)

  function Current(w: World, user: string): Option<UserRow> {
    if user in w.log && w.log[user] != [] then Some(w.log[user][|w.log[user]| - 1].row) else None
  }

  function Put(w: World, user: string, row: UserRow, cause: Cause): World
    requires user in w.log
  {
    w.(log := w.log[user := w.log[user] + [Version(w.now, row, cause)]])
  }

  function Evict(w: World, proc: nat, user: string): World {
    w.(caches := w.caches - {(proc, user)})
  }

  /** `signedAt` is when the claims were made, a little before the row is updated; a failed update is let pass. */
  function CreateToken(w: World, proc: nat, user: string, remember: bool, signedAt: nat, dbOk: bool): (World, Token) {
    var jti := w.nextJti;
    var token := Token(user, Some(jti), signedAt / 1000,
                       signedAt / 1000 + 3600 * (if remember then 24 * REMEMBER_DAYS else EXPIRE_HOURS));
    var w1 := w.(nextJti := jti + 1);
    if dbOk && Current(w, user).Some?
    then (Evict(Put(w1, user, Current(w, user).value.(activeJti := Some(jti)), LoggedIn(jti)), proc, user), token)
    else if dbOk then (Evict(w1, proc, user), token)
    else (w1, token)
  }

  predicate Decodes(w: World, token: Token) {
    w.now < token.exp * 1000 && token.iat * 1000 <= w.now
  }

  /** Logging out clears `active_jti` only if it is still this token's; a failed update leaves everything as it was. */
  function Revoke(w: World, proc: nat, token: Token, dbOk: bool): World {
    if !Decodes(w, token) || token.jti.None? || !dbOk then w else
    var row := Current(w, token.sub);
    var w1 := if row.Some? && row.value.activeJti == token.jti
              then Put(w, token.sub, row.value.(activeJti := None), LoggedOut) else w;
    Evict(w1, proc, token.sub)
  }

  /** The cached row while it is good, else the current one, which is then cached. */
  function Lookup(w: World, proc: nat, user: string, dbOk: bool): (World, Option<UserRow>) {
    if (proc, user) in w.caches && w.now < w.caches[(proc, user)].expires then (w, Some(w.caches[(proc, user)].row))
    else if !dbOk || Current(w, user).None? then (w, None)
    else (w.(caches := w.caches[(proc, user) := Entry(w.now + CACHE_TTL, Current(w, user).value)]), Current(w, user))
  }

  datatype Verdict = Accepted | InvalidToken | UserNotFound | Disabled | PasswordChanged | Revoked

  predicate OtherDevice(row: UserRow, token: Token) {
    token.jti.Some? && row.activeJti.Some? && token.jti != row.activeJti
  }

  predicate BeforePassword(row: UserRow, token: Token) {
    row.passwordAt.Some? && token.iat < row.passwordAt.value / 1000
  }

  /** The checks of `get_current_user_from_request`; `again` is what a second look at the table returns. */
  function Judge(row: UserRow, token: Token, again: Option<UserRow>): Verdict {
    if !row.isActive then Disabled
    else if BeforePassword(row, token) then PasswordChanged
    else if OtherDevice(row, token) && OtherDevice(if again.Some? then again.value else row, token) then Revoked
    else Accepted
  }

  function Authenticate(w: World, proc: nat, token: Token, dbOk: bool, againOk: bool): (World, Verdict) {
    if !Decodes(w, token) then (w, InvalidToken) else
    var (w1, row) := Lookup(w, proc, token.sub, dbOk);
    if row.None? then (w1, UserNotFound)
    else (w1, Judge(row.value, token, if againOk then Current(w1, token.sub) else None))
  }

  datatype Event =
    | Tick(ms: nat)
    | SignUp(user: string)
    | Login(proc: nat, user: string, remember: bool, signedAt: nat, dbOk: bool)
    | Logout(proc: nat, token: Token, dbOk: bool)
    | SetPassword(user: string)
    | SetActive(user: string, isActive: bool)
    | Request(proc: nat, token: Token, dbOk: bool, againOk: bool)
    | SlowFill(proc: nat, user: string, started: nat, version: nat)

  /**
   A lookup that began at `started`, read `version`, and only now stores it: another request may have
   come between.
   */
  predicate CanFill(w: World, user: string, started: nat, version: nat) {
    && started <= w.now && user in w.log && version < |w.log[user]|
    && (version + 1 < |w.log[user]| ==> started <= w.log[user][version + 1].at)
  }

  function Step(w: World, e: Event): World {
    match e
    case Tick(ms) => w.(now := w.now + ms)
    case SignUp(user) =>
      if user in w.log then w else w.(log := w.log[user := [Version(w.now, UserRow(None, None, true), Created)]])
    case Login(proc, user, remember, signedAt, dbOk) =>
      if signedAt <= w.now then CreateToken(w, proc, user, remember, signedAt, dbOk).0 else w
    case Logout(proc, token, dbOk) => Revoke(w, proc, token, dbOk)
    case SetPassword(user) =>
      if Current(w, user).None? then w
        else Put(w, user, Current(w, user).value.(passwordAt := Some(w.now)), PasswordSet)
    case SetActive(user, isActive) =>
      if Current(w, user).None? then w else Put(w, user, Current(w, user).value.(isActive := isActive), Edited)
    case Request(proc, token, dbOk, againOk) => Authenticate(w, proc, token, dbOk, againOk).0
    case SlowFill(proc, user, started, version) =>
      if CanFill(w, user, started, version)
      then w.(caches := w.caches[(proc, user) := Entry(started + CACHE_TTL, w.log[user][version].row)]) else w
  }

  function Run(w: World, events: seq<Event>): World
    decreases |events|
  {
    if events == [] then w else Run(Step(w, events[0]), events[1..])
  }

  class AuthServer {
    var now: nat
    var log: map<string, seq<Version>>
    var caches: map<(nat, string), Entry>
    var nextJti: nat

    function Now(): World
      reads this
    {
      World(now, log, caches, nextJti)
    }

    constructor ()
      ensures Now() == World(0, map[], map[], 0)
    {
      now, log, caches, nextJti := 0, map[], map[], 0;
    }

    method CreateAccessToken(proc: nat, user: string, remember: bool, signedAt: nat, dbOk: bool) returns (token: Token)
      modifies this
      ensures (Now(), token) == CreateToken(old(Now()), proc, user, remember, signedAt, dbOk)
    {
      var jti := nextJti;
      nextJti := nextJti + 1;
      var iat := signedAt / 1000;
      var exp := iat + 3600 * EXPIRE_HOURS;
      if remember {
        exp := iat + 3600 * 24 * REMEMBER_DAYS;
      }
      token := Token(user, Some(jti), iat, exp);
      if dbOk {
        if user in log && log[user] != [] {
          var row := log[user][|log[user]| - 1].row;
          log := log[user := log[user] + [Version(now, row.(activeJti := Some(jti)), LoggedIn(jti))]];
        }
        caches := caches - {(proc, user)};
      }
    }

    method RevokeCurrentToken(proc: nat, token: Token, dbOk: bool) returns (done: bool)
      modifies this
      ensures Now() == Revoke(old(Now()), proc, token, dbOk)
      ensures done == (Decodes(old(Now()), token) && token.jti.Some? && dbOk)
    {
      if !Decodes(Now(), token) || token.jti.None? || !dbOk {
        return false;
      }
      if token.sub in log && log[token.sub] != [] {
        var row := log[token.sub][|log[token.sub]| - 1].row;
        if row.activeJti == token.jti {
          log := log[token.sub := log[token.sub] + [Version(now, row.(activeJti := None), LoggedOut)]];
        }
      }
      caches := caches - {(proc, token.sub)};
      done := true;
    }

    method FindUserByIdCached(proc: nat, user: string, dbOk: bool) returns (row: Option<UserRow>)
      modifies this`caches
      ensures (Now(), row) == Lookup(old(Now()), proc, user, dbOk)
    {
      if (proc, user) in caches {
        var entry := caches[(proc, user)];
        if now < entry.expires {
          return Some(entry.row);
        }
      }
      row := None;
      if dbOk && user in log && log[user] != [] {
        row := Some(log[user][|log[user]| - 1].row);
        caches := caches[(proc, user) := Entry(now + CACHE_TTL, row.value)];
      }
    }

    method GetCurrentUser(proc: nat, token: Token, dbOk: bool, againOk: bool) returns (verdict: Verdict)
      modifies this`caches
      ensures (Now(), verdict) == Authenticate(old(Now()), proc, token, dbOk, againOk)
    {
      if !Decodes(Now(), token) {
        return InvalidToken;
      }
      var found := FindUserByIdCached(proc, token.sub, dbOk);
      if found.None? {
        return UserNotFound;
      }
      var user := found.value;
      if !user.isActive {
        return Disabled;
      }
      if user.passwordAt.Some? && token.iat < user.passwordAt.value / 1000 {
        return PasswordChanged;
      }
      if token.jti.Some? && user.activeJti.Some? && token.jti != user.activeJti {
        if againOk && token.sub in log && log[token.sub] != [] {
          user := log[token.sub][|log[token.sub]| - 1].row;
        }
        if token.jti.Some? && user.activeJti.Some? && token.jti != user.activeJti {
          return Revoked;
        }
      }
      verdict := Accepted;
    }
  }

  // --- the invariant of every run ---

  /** The `jti` of the newest login whose registration succeeded. */
  function Newest(log: seq<Version>): Option<nat> {
    if log == [] then None
    else if log[|log| - 1].cause.LoggedIn? then Some(log[|log| - 1].cause.jti)
    else Newest(log[..|log| - 1])
  }

  ghost predicate Timed(log: seq<Version>, now: nat) {
    && (forall i :: 0 <= i < |log| ==> log[i].at <= now)
    && (forall i, j :: 0 <= i <= j < |log| ==> log[i].at <= log[j].at)
  }

  /** What each row says about the session is what the writes up to it say. */
  ghost predicate ActiveOk(log: seq<Version>) {
    && (forall i {:trigger log[i]} :: 0 <= i < |log| ==>
      log[i].row.activeJti == None || log[i].row.activeJti == Newest(log[..i + 1]))
    && (forall i :: 0 <= i < |log| && log[i].cause.LoggedIn? ==> log[i].row.activeJti == Some(log[i].cause.jti))
    && (forall i {:trigger log[i].cause} :: 0 < i < |log| && !log[i].cause.LoggedIn? && !log[i].cause.LoggedOut? ==>
          log[i].row.activeJti == log[i - 1].row.activeJti)
  }

  /** No two logins share a `jti`. */
  ghost predicate LoginsOk(log: seq<Version>, nextJti: nat) {
    && (forall i :: 0 <= i < |log| && log[i].cause.LoggedIn? ==> log[i].cause.jti < nextJti)
    && (forall i, j :: 0 <= i < j < |log| && log[i].cause.LoggedIn? && log[j].cause.LoggedIn? ==>
      log[i].cause.jti != log[j].cause.jti)
  }

  predicate PasswordNoLater(a: UserRow, b: UserRow) {
    a.passwordAt.Some? ==> b.passwordAt.Some? && a.passwordAt.value <= b.passwordAt.value
  }

  /** A password time never goes back, and shows when it was set. */
  ghost predicate PasswordsOk(log: seq<Version>) {
    && (forall i, j :: 0 <= i <= j < |log| ==> PasswordNoLater(log[i].row, log[j].row))
    && (forall i :: 0 <= i < |log| && log[i].row.passwordAt.Some? ==> log[i].row.passwordAt.value <= log[i].at)
    && (forall i :: 0 <= i < |log| && log[i].cause.PasswordSet? ==> log[i].row.passwordAt == Some(log[i].at))
  }

  ghost predicate LogOk(log: seq<Version>, now: nat, nextJti: nat) {
    log != [] && Timed(log, now) && ActiveOk(log) && LoginsOk(log, nextJti) && PasswordsOk(log)
  }

  /** At `since` or later, row `v` of the log was still the current one. */
  predicate WasCurrent(log: seq<Version>, v: nat, row: UserRow, since: int) {
    v < |log| && log[v].row == row && (v + 1 < |log| ==> since <= log[v + 1].at)
  }

  ghost predicate CurrentSince(log: seq<Version>, row: UserRow, since: int) {
    exists v: nat :: WasCurrent(log, v, row, since)
  }

  ghost predicate EntryOk(log: map<string, seq<Version>>, now: nat, user: string, e: Entry) {
    user in log && e.expires <= now + CACHE_TTL && CurrentSince(log[user], e.row, e.expires - CACHE_TTL)
  }

  ghost predicate LogsOk(log: map<string, seq<Version>>, now: nat, nextJti: nat) {
    forall user :: user in log ==> LogOk(log[user], now, nextJti)
  }

  ghost predicate CachesOk(caches: map<(nat, string), Entry>, log: map<string, seq<Version>>, now: nat) {
    forall key :: key in caches ==> EntryOk(log, now, key.1, caches[key])
  }

  ghost predicate Inv(w: World) {
    LogsOk(w.log, w.now, w.nextJti) && CachesOk(w.caches, w.log, w.now)
  }

  /** How a write makes the next row from the last one. */
  predicate Follows(prev: UserRow, row: UserRow, cause: Cause, now: nat, nextJti: nat) {
    match cause
    case Created => false
    case LoggedIn(jti) => jti == nextJti && row == prev.(activeJti := Some(jti))
    case LoggedOut => row == prev.(activeJti := None)
    case PasswordSet => row == prev.(passwordAt := Some(now))
    case Edited => row.activeJti == prev.activeJti && row.passwordAt == prev.passwordAt
  }

  lemma ActiveGrows(log: seq<Version>, next: Version, nextJti: nat)
    requires log != [] && ActiveOk(log) && Follows(log[|log| - 1].row, next.row, next.cause, next.at, nextJti)
    ensures ActiveOk(log + [next])
  {
    var log' := log + [next];
    forall i {:trigger log'[i]} | 0 <= i < |log'|
      ensures log'[i].row.activeJti == None || log'[i].row.activeJti == Newest(log'[..i + 1])
    {
      if i < |log| {
        assert log'[..i + 1] == log[..i + 1];
        assert log[i].row.activeJti == None || log[i].row.activeJti == Newest(log[..i + 1]);
      } else {
        assert log'[..i + 1] == log' && log'[..|log'| - 1] == log && log[..|log|] == log;
        assert log[|log| - 1].row.activeJti == None || log[|log| - 1].row.activeJti == Newest(log[..|log|]);
      }
    }
  }

  lemma PasswordsGrow(log: seq<Version>, next: Version, nextJti: nat)
    requires log != [] && Timed(log, next.at) && PasswordsOk(log)
    requires Follows(log[|log| - 1].row, next.row, next.cause, next.at, nextJti)
    ensures PasswordsOk(log + [next])
  {
    var log' := log + [next];
    forall i, j | 0 <= i <= j < |log'| ensures PasswordNoLater(log'[i].row, log'[j].row) {
      if i < |log| && j == |log| {
        assert PasswordNoLater(log[i].row, log[|log| - 1].row);
        assert log[i].at <= next.at;
      }
    }
  }

  lemma LogGrows(log: seq<Version>, now: nat, nextJti: nat, row: UserRow, cause: Cause, nextJti': nat)
    requires LogOk(log, now, nextJti) && Follows(log[|log| - 1].row, row, cause, now, nextJti)
    requires nextJti <= nextJti' && (cause.LoggedIn? ==> nextJti < nextJti')
    ensures LogOk(log + [Version(now, row, cause)], now, nextJti')
  {
    ActiveGrows(log, Version(now, row, cause), nextJti);
    PasswordsGrow(log, Version(now, row, cause), nextJti);
  }

  lemma EntryStays(log: map<string, seq<Version>>, now: nat, user: string, e: Entry, changed: string, next: Version)
    requires EntryOk(log, now, user, e) && changed in log && next.at == now
    ensures EntryOk(log[changed := log[changed] + [next]], now, user, e)
  {
    var v: nat :| WasCurrent(log[user], v, e.row, e.expires - CACHE_TTL);
    assert WasCurrent(log[changed := log[changed] + [next]][user], v, e.row, e.expires - CACHE_TTL);
  }

  lemma PutInv(w: World, user: string, row: UserRow, cause: Cause, nextJti: nat)
    requires Inv(w) && user in w.log && w.log[user] != []
    requires Follows(w.log[user][|w.log[user]| - 1].row, row, cause, w.now, w.nextJti)
    requires w.nextJti <= nextJti && (cause.LoggedIn? ==> w.nextJti < nextJti)
    ensures Inv(Put(w.(nextJti := nextJti), user, row, cause))
  {
    LogGrows(w.log[user], w.now, w.nextJti, row, cause, nextJti);
    forall key | key in w.caches
      ensures EntryOk(w.log[user := w.log[user] + [Version(w.now, row, cause)]], w.now, key.1, w.caches[key])
    {
      EntryStays(w.log, w.now, key.1, w.caches[key], user, Version(w.now, row, cause));
    }
  }

  lemma LaterInv(w: World, now: nat, nextJti: nat)
    requires Inv(w) && w.now <= now && w.nextJti <= nextJti
    ensures Inv(w.(now := now, nextJti := nextJti))
  {
  }

  lemma EvictInv(w: World, proc: nat, user: string)
    requires Inv(w)
    ensures Inv(Evict(w, proc, user))
  {
  }

  lemma CacheInv(w: World, proc: nat, user: string, v: nat, since: nat)
    requires Inv(w) && user in w.log && v < |w.log[user]| && since <= w.now
    requires WasCurrent(w.log[user], v, w.log[user][v].row, since)
    ensures Inv(w.(caches := w.caches[(proc, user) := Entry(since + CACHE_TTL, w.log[user][v].row)]))
  {
    var e := Entry(since + CACHE_TTL, w.log[user][v].row);
    assert EntryOk(w.log, w.now, user, e);
  }

  lemma LookupInv(w: World, proc: nat, user: string, dbOk: bool)
    requires Inv(w)
    ensures Inv(Lookup(w, proc, user, dbOk).0)
  {
    if !((proc, user) in w.caches && w.now < w.caches[(proc, user)].expires) && dbOk && Current(w, user).Some? {
      CacheInv(w, proc, user, |w.log[user]| - 1, w.now);
    }
  }

  lemma SignUpInv(w: World, user: string)
    requires Inv(w) && user !in w.log
    ensures Inv(Step(w, SignUp(user)))
  {
    var log' := w.log[user := [Version(w.now, UserRow(None, None, true), Created)]];
    FirstLogOk(w.now, w.nextJti);
    forall key | key in w.caches ensures EntryOk(log', w.now, key.1, w.caches[key]) {
      assert EntryOk(w.log, w.now, key.1, w.caches[key]) && log'[key.1] == w.log[key.1];
    }
  }

  lemma FirstLogOk(now: nat, nextJti: nat)
    ensures LogOk([Version(now, UserRow(None, None, true), Created)], now, nextJti)
  {
  }

  lemma LoginWriteInv(w: World, proc: nat, user: string)
    requires Inv(w) && Current(w, user).Some?
    ensures Inv(Evict(Put(w.(nextJti := w.nextJti + 1), user, Current(w, user).value.(activeJti := Some(w.nextJti)),
      LoggedIn(w.nextJti)), proc, user))
  {
    var row := Current(w, user).value.(activeJti := Some(w.nextJti));
    PutInv(w, user, row, LoggedIn(w.nextJti), w.nextJti + 1);
    EvictInv(Put(w.(nextJti := w.nextJti + 1), user, row, LoggedIn(w.nextJti)), proc, user);
  }

  lemma LoginInv(w: World, proc: nat, user: string, remember: bool, signedAt: nat, dbOk: bool)
    requires Inv(w)
    ensures Inv(CreateToken(w, proc, user, remember, signedAt, dbOk).0)
  {
    if dbOk && Current(w, user).Some? {
      LoginWriteInv(w, proc, user);
    } else {
      LaterInv(w, w.now, w.nextJti + 1);
      EvictInv(w.(now := w.now, nextJti := w.nextJti + 1), proc, user);
    }
  }

  lemma LogoutInv(w: World, proc: nat, token: Token, dbOk: bool)
    requires Inv(w)
    ensures Inv(Revoke(w, proc, token, dbOk))
  {
    if Current(w, token.sub).Some? {
      PutInv(w, token.sub, Current(w, token.sub).value.(activeJti := None), LoggedOut, w.nextJti);
    }
  }

  lemma StepInv(w: World, e: Event)
    requires Inv(w)
    ensures Inv(Step(w, e))
  {
    match e {
      case Tick(ms) => LaterInv(w, w.now + ms, w.nextJti);
      case SignUp(user) => if user !in w.log { SignUpInv(w, user); }
      case Login(proc, user, remember, signedAt, dbOk) => LoginInv(w, proc, user, remember, signedAt, dbOk);
      case Logout(proc, token, dbOk) => LogoutInv(w, proc, token, dbOk);
      case SetPassword(user) =>
        if Current(w, user).Some? {
          PutInv(w, user, Current(w, user).value.(passwordAt := Some(w.now)), PasswordSet, w.nextJti);
        }
      case SetActive(user, isActive) =>
        if Current(w, user).Some? { PutInv(w, user, Current(w, user).value.(isActive := isActive), Edited, w.nextJti); }
      case Request(proc, token, dbOk, _) => LookupInv(w, proc, token.sub, dbOk);
      case SlowFill(proc, user, started, version) =>
        if CanFill(w, user, started, version) { CacheInv(w, proc, user, version, started); }
    }
  }

  lemma {:induction false} RunInv(w: World, events: seq<Event>)
    requires Inv(w)
    ensures Inv(Run(w, events))
    decreases |events|
  {
    if events != [] {
      StepInv(w, events[0]);
      RunInv(Step(w, events[0]), events[1..]);
    }
  }

  function Start(): World {
    World(0, map[], map[], 0)
  }

  /** Reached from the empty system by some run. */
  ghost predicate Reachable(w: World) {
    exists events :: Run(Start(), events) == w
  }

  lemma ReachableInv(w: World)
    requires Reachable(w)
    ensures Inv(w)
  {
    var events :| Run(Start(), events) == w;
    RunInv(Start(), events);
  }

  // --- what holds in every reachable state ---

  /** `active_jti` is NULL or the newest one. */
  lemma ActiveIsNewest(w: World, user: string)
    requires Reachable(w) && Current(w, user).Some?
    ensures Current(w, user).value.activeJti == None || Current(w, user).value.activeJti == Newest(w.log[user])
  {
    ReachableInv(w);
    var log := w.log[user];
    assert ActiveOk(log) && log[..|log|] == log && log[|log| - 1].row == Current(w, user).value;
  }

  /** Logging out with any token but the newest one changes no row, so it never ends a newer session. */
  lemma OldLogoutIsHarmless(w: World, proc: nat, token: Token, dbOk: bool)
    requires Reachable(w) && token.sub in w.log && token.jti != Newest(w.log[token.sub])
    ensures Revoke(w, proc, token, dbOk).log == w.log
  {
    if Current(w, token.sub).Some? {
      ActiveIsNewest(w, token.sub);
    }
  }

  /** The process holds a good, active copy of the row that names another device and passes the password rule. */
  predicate HoldsOtherDevice(w: World, proc: nat, token: Token) {
    && (proc, token.sub) in w.caches && w.now < w.caches[(proc, token.sub)].expires
    && var row := w.caches[(proc, token.sub)].row;
    row.isActive && !BeforePassword(row, token) && OtherDevice(row, token)
  }

  /**
   The newest token is turned away as revoked only by a process that holds a stale row naming another device
   and cannot look again; `againOk` is false when the second look finds no row.
   */
  lemma NewestRevokedExactly(w: World, proc: nat, token: Token, dbOk: bool, againOk: bool)
    requires Reachable(w) && token.sub in w.log && token.jti.Some? && token.jti == Newest(w.log[token.sub])
    ensures Authenticate(w, proc, token, dbOk, againOk).1 == Revoked <==>
      Decodes(w, token) && !againOk && HoldsOtherDevice(w, proc, token)
  {
    assert Lookup(w, proc, token.sub, dbOk).0.log == w.log;
    ActiveIsNewest(w, token.sub);
  }

  /** Version `login` is the newest login of this user, and nothing has logged the user out since. */
  predicate InSession(log: seq<Version>, login: nat) {
    login < |log| && log[login].cause.LoggedIn?
    && forall i :: login < i < |log| ==> !log[i].cause.LoggedIn? && !log[i].cause.LoggedOut?
  }

  lemma {:induction false} SessionRows(log: seq<Version>, login: nat, i: nat)
    requires ActiveOk(log) && InSession(log, login) && login <= i < |log|
    ensures log[i].row.activeJti == Some(log[login].cause.jti)
    decreases i
  {
    if login < i {
      SessionRows(log, login, i - 1);
      assert !log[i].cause.LoggedIn? && !log[i].cause.LoggedOut?;
    }
  }

  /**
   A row that is version `v` and was cached while current is good for one cache lifetime after any
   `later` version at most.
   */
  lemma StaleUntil(log: seq<Version>, now: nat, v: nat, row: UserRow, expires: nat, later: nat)
    requires Timed(log, now) && WasCurrent(log, v, row, expires - CACHE_TTL) && v < later < |log|
    ensures expires <= log[later].at + CACHE_TTL
  {
    assert log[v + 1].at <= log[later].at;
  }

  ghost predicate CurrentBefore(log: seq<Version>, later: nat, row: UserRow, since: int) {
    exists v: nat :: v < later && WasCurrent(log, v, row, since)
  }

  /** A token that every version from `later` on turns away is accepted only from a cached row of before. */
  lemma OnlyWhereStale(w: World, proc: nat, token: Token, dbOk: bool, againOk: bool, later: nat,
      turnedAway: UserRow -> bool)
    requires Inv(w) && token.sub in w.log && later < |w.log[token.sub]|
    requires forall i :: later <= i < |w.log[token.sub]| ==> turnedAway(w.log[token.sub][i].row)
    requires forall row, again :: turnedAway(row) && (again == None || again == Current(w, token.sub)) ==>
      Judge(row, token, again) != Accepted
    requires Authenticate(w, proc, token, dbOk, againOk).1 == Accepted
    ensures HoldsRowFromBefore(w, proc, token.sub, later)
    ensures w.now < w.log[token.sub][later].at + CACHE_TTL
  {
    var log := w.log[token.sub];
    assert Lookup(w, proc, token.sub, dbOk).0.log == w.log;
    assert turnedAway(log[|log| - 1].row);
    var e := w.caches[(proc, token.sub)];
    assert EntryOk(w.log, w.now, token.sub, e);
    var v: nat :| WasCurrent(log, v, e.row, e.expires - CACHE_TTL);
    assert LogOk(log, w.now, w.nextJti);
    StaleUntil(log, w.now, v, e.row, e.expires, later);
  }

  /** The process still holds a copy of the user's row from before version `later`, and that copy has not run out. */
  ghost predicate HoldsRowFromBefore(w: World, proc: nat, user: string, later: nat)
    requires user in w.log
  {
    && (proc, user) in w.caches && w.now < w.caches[(proc, user)].expires
    && CurrentBefore(w.log[user], later, w.caches[(proc, user)].row, w.caches[(proc, user)].expires - CACHE_TTL)
  }

  /**
   While a login's session lasts, every other token of that user is accepted only
   by a process holding a row from before that login, so by none once the
   cache lifetime has passed since.
   */
  lemma OldTokenOnlyWhereStale(w: World, proc: nat, token: Token, dbOk: bool, againOk: bool, login: nat)
    requires Reachable(w) && token.sub in w.log && token.jti.Some?
    requires InSession(w.log[token.sub], login) && token.jti != Some(w.log[token.sub][login].cause.jti)
    requires Authenticate(w, proc, token, dbOk, againOk).1 == Accepted
    ensures HoldsRowFromBefore(w, proc, token.sub, login)
    ensures w.now < w.log[token.sub][login].at + CACHE_TTL
  {
    ReachableInv(w);
    var log := w.log[token.sub];
    assert LogOk(log, w.now, w.nextJti);
    var newest := Some(log[login].cause.jti);
    forall i | login <= i < |log| ensures log[i].row.activeJti == newest {
      SessionRows(log, login, i);
    }
    OnlyWhereStale(w, proc, token, dbOk, againOk, login, (row: UserRow) => row.activeJti == newest);
  }

  /**
   A token signed before the second in which a password was set is accepted only by a process holding
   an older row, for one cache lifetime.
   */
  lemma PasswordEndsOldTokens(w: World, proc: nat, token: Token, dbOk: bool, againOk: bool, change: nat)
    requires Reachable(w) && token.sub in w.log && change < |w.log[token.sub]|
    requires w.log[token.sub][change].cause.PasswordSet? && token.iat < w.log[token.sub][change].at / 1000
    requires Authenticate(w, proc, token, dbOk, againOk).1 == Accepted
    ensures HoldsRowFromBefore(w, proc, token.sub, change)
    ensures w.now < w.log[token.sub][change].at + CACHE_TTL
  {
    ReachableInv(w);
    var log := w.log[token.sub];
    assert LogOk(log, w.now, w.nextJti);
    forall i | change <= i < |log| ensures BeforePassword(log[i].row, token) {
      BeforeLaterRows(log, token, change, i);
    }
    OnlyWhereStale(w, proc, token, dbOk, againOk, change, (row: UserRow) => BeforePassword(row, token));
  }

  lemma BeforeLaterRows(log: seq<Version>, token: Token, change: nat, i: nat)
    requires PasswordsOk(log) && change <= i < |log| && log[change].cause.PasswordSet?
    requires token.iat < log[change].at / 1000
    ensures BeforePassword(log[i].row, token)
  {
    assert PasswordNoLater(log[change].row, log[i].row);
  }

  /**
   A token signed in the second of the last password change or later passes that rule at every
   process, stale or not.
   */
  lemma PasswordSparesNewTokens(w: World, proc: nat, token: Token, dbOk: bool, againOk: bool)
    requires Reachable(w) && Current(w, token.sub).Some? && !BeforePassword(Current(w, token.sub).value, token)
    ensures Authenticate(w, proc, token, dbOk, againOk).1 != PasswordChanged
  {
    ReachableInv(w);
    var log := w.log[token.sub];
    assert LogOk(log, w.now, w.nextJti);
    if (proc, token.sub) in w.caches {
      var e := w.caches[(proc, token.sub)];
      assert EntryOk(w.log, w.now, token.sub, e);
      var v: nat :| WasCurrent(log, v, e.row, e.expires - CACHE_TTL);
      assert PasswordNoLater(log[v].row, log[|log| - 1].row);
    }
  }
}
