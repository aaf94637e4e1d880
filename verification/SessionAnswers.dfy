/** What each answer to a token means, and what disabling an account, a login and a logout bring about. */
module SessionAnswers {
  import opened Common
  import opened Sessions

  // --- one request ---

  /** The row this process goes by: its copy while that is good, else the table's row if it can be read. */
  predicate GoesBy(w: World, proc: nat, user: string, dbOk: bool, row: UserRow) {
    if (proc, user) in w.caches && w.now < w.caches[(proc, user)].expires then row == w.caches[(proc, user)].row
    else dbOk && user in w.log && w.log[user] != [] && row == w.log[user][|w.log[user]| - 1].row
  }

  predicate Unexpired(w: World, token: Token) {
    token.iat * 1000 <= w.now && w.now < token.exp * 1000
  }

  predicate SignedSincePassword(row: UserRow, token: Token) {
    row.passwordAt == None || row.passwordAt.value / 1000 <= token.iat
  }

  /** The row names this token's device; a token or a row without a `jti` goes with any. */
  predicate AdmitsDevice(row: UserRow, token: Token) {
    token.jti == None || row.activeJti == None || row.activeJti == token.jti
  }

  /** A second look at the table finds a row that admits the device. */
  predicate AdmittedAgain(w: World, token: Token, againOk: bool) {
    againOk && token.sub in w.log && w.log[token.sub] != []
    && AdmitsDevice(w.log[token.sub][|w.log[token.sub]| - 1].row, token)
  }

  lemma NoRowExactly(w: World, proc: nat, token: Token, dbOk: bool, againOk: bool)
    ensures Authenticate(w, proc, token, dbOk, againOk).1 == InvalidToken <==> !Unexpired(w, token)
    ensures Authenticate(w, proc, token, dbOk, againOk).1 == UserNotFound <==>
      Unexpired(w, token) && forall row :: !GoesBy(w, proc, token.sub, dbOk, row)
  {
    if (proc, token.sub) in w.caches && w.now < w.caches[(proc, token.sub)].expires {
      assert GoesBy(w, proc, token.sub, dbOk, w.caches[(proc, token.sub)].row);
    } else if dbOk && Current(w, token.sub).Some? {
      assert GoesBy(w, proc, token.sub, dbOk, Current(w, token.sub).value);
    }
  }

  /** An unexpired token is answered by the row gone by: account first, then password, then device. */
  lemma AnswerExactly(w: World, proc: nat, token: Token, dbOk: bool, againOk: bool, row: UserRow)
    requires Unexpired(w, token) && GoesBy(w, proc, token.sub, dbOk, row)
    ensures var verdict := Authenticate(w, proc, token, dbOk, againOk).1;
      && (verdict == Disabled <==> !row.isActive)
      && (verdict == PasswordChanged <==> row.isActive && !SignedSincePassword(row, token))
      && (verdict == Accepted <==> (row.isActive && SignedSincePassword(row, token)
                                    && (AdmitsDevice(row, token) || AdmittedAgain(w, token, againOk))))
      && (verdict == Revoked <==> (row.isActive && SignedSincePassword(row, token)
                                   && !AdmitsDevice(row, token) && !AdmittedAgain(w, token, againOk)))
  {
    assert Lookup(w, proc, token.sub, dbOk).1 == Some(row);
    assert Lookup(w, proc, token.sub, dbOk).0.log == w.log;
  }

  /** A request that has to read the row keeps a copy for eight seconds; one that has a good copy changes nothing. */
  lemma CopyIsKept(w: World, proc: nat, token: Token, dbOk: bool, againOk: bool, row: UserRow)
    requires Unexpired(w, token) && GoesBy(w, proc, token.sub, dbOk, row)
    ensures var (key, after) := ((proc, token.sub), Authenticate(w, proc, token, dbOk, againOk).0);
      && after.now == w.now && after.log == w.log && after.nextJti == w.nextJti
      && (if key in w.caches && w.now < w.caches[key].expires then after.caches == w.caches
          else after.caches == w.caches[key := Entry(w.now + 8000, row)])
  {
  }

  // --- a disabled account ---

  /** From version `off` on, at time `at`, every row of this user says disabled. */
  ghost predicate OffSince(w: World, user: string, off: nat, at: nat) {
    && user in w.log && off < |w.log[user]| && w.log[user][off].at == at
    && forall i :: off <= i < |w.log[user]| ==> !w.log[user][i].row.isActive
  }

  predicate Enables(e: Event, user: string) {
    e == SetActive(user, true)
  }

  lemma OffStays(w: World, e: Event, user: string, off: nat, at: nat)
    requires OffSince(w, user, off, at) && !Enables(e, user)
    ensures OffSince(Step(w, e), user, off, at)
  {
    assert !w.log[user][|w.log[user]| - 1].row.isActive;
  }

  lemma {:induction false} OffOverRun(w: World, events: seq<Event>, user: string, off: nat, at: nat)
    requires OffSince(w, user, off, at) && forall i :: 0 <= i < |events| ==> !Enables(events[i], user)
    ensures OffSince(Run(w, events), user, off, at)
    decreases |events|
  {
    if events != [] {
      OffStays(w, events[0], user, off, at);
      OffOverRun(Step(w, events[0]), events[1..], user, off, at);
    }
  }

  lemma {:induction false} RunJoins(w: World, first: seq<Event>, second: seq<Event>)
    ensures Run(w, first + second) == Run(Run(w, first), second)
    decreases |first|
  {
    if first == [] {
      assert first + second == second;
    } else {
      assert (first + second)[0] == first[0] && (first + second)[1..] == first[1..] + second;
      RunJoins(Step(w, first[0]), first[1..], second);
    }
  }

  lemma ReachableOn(w: World, events: seq<Event>)
    requires Reachable(w)
    ensures Reachable(Run(w, events))
  {
    var before :| Run(Start(), before) == w;
    RunJoins(Start(), before, events);
  }

  /**
   Once an account is disabled, and whatever happens next short of enabling it, a token of its user is
   accepted only by a process that still holds a row from before, so for one cache lifetime at most.
   */
  lemma DisabledStaysOut(w: World, user: string, events: seq<Event>, proc: nat, token: Token, dbOk: bool, againOk: bool)
    requires Reachable(w) && Current(w, user).Some? && token.sub == user
    requires forall i :: 0 <= i < |events| ==> !Enables(events[i], user)
    requires Authenticate(Run(Step(w, SetActive(user, false)), events), proc, token, dbOk, againOk).1 == Accepted
    ensures var later := Run(Step(w, SetActive(user, false)), events);
      user in later.log && HoldsRowFromBefore(later, proc, user, |w.log[user]|) && later.now < w.now + 8000
  {
    var disabled := [SetActive(user, false)] + events;
    assert disabled[0] == SetActive(user, false) && disabled[1..] == events;
    ReachableOn(w, disabled);
    OffAtOnce(w, user);
    OffOverRun(Step(w, SetActive(user, false)), events, user, |w.log[user]|, w.now);
    OffOnlyWhereStale(Run(Step(w, SetActive(user, false)), events), proc, token, dbOk, againOk, |w.log[user]|, w.now);
  }

  lemma OffAtOnce(w: World, user: string)
    requires Current(w, user).Some?
    ensures OffSince(Step(w, SetActive(user, false)), user, |w.log[user]|, w.now)
  {
  }

  lemma OffOnlyWhereStale(w: World, proc: nat, token: Token, dbOk: bool, againOk: bool, off: nat, at: nat)
    requires Reachable(w) && OffSince(w, token.sub, off, at)
    requires Authenticate(w, proc, token, dbOk, againOk).1 == Accepted
    ensures HoldsRowFromBefore(w, proc, token.sub, off) && w.now < at + CACHE_TTL
  {
    ReachableInv(w);
    OnlyWhereStale(w, proc, token, dbOk, againOk, off, (row: UserRow) => !row.isActive);
  }

  // --- a changed password ---

  lemma VersionStays(w: World, e: Event, user: string, v: nat)
    requires user in w.log && v < |w.log[user]|
    ensures user in Step(w, e).log && v < |Step(w, e).log[user]| && Step(w, e).log[user][v] == w.log[user][v]
  {
  }

  lemma {:induction false} VersionsStay(w: World, events: seq<Event>, user: string, v: nat)
    requires user in w.log && v < |w.log[user]|
    ensures user in Run(w, events).log && v < |Run(w, events).log[user]|
    ensures Run(w, events).log[user][v] == w.log[user][v]
    decreases |events|
  {
    if events != [] {
      VersionStays(w, events[0], user, v);
      VersionsStay(Step(w, events[0]), events[1..], user, v);
    }
  }

  /**
   Whatever happens after a password change, a token signed before its second is accepted only by a process
   that still holds a row from before, so for one cache lifetime at most.
   */
  lemma PasswordShutsOut(w: World, user: string, events: seq<Event>, proc: nat, token: Token, dbOk: bool, againOk: bool)
    requires Reachable(w) && Current(w, user).Some? && token.sub == user && token.iat < w.now / 1000
    requires Authenticate(Run(Step(w, SetPassword(user)), events), proc, token, dbOk, againOk).1 == Accepted
    ensures var later := Run(Step(w, SetPassword(user)), events);
      user in later.log && HoldsRowFromBefore(later, proc, user, |w.log[user]|) && later.now < w.now + 8000
  {
    var changed := [SetPassword(user)] + events;
    assert changed[0] == SetPassword(user) && changed[1..] == events;
    ReachableOn(w, changed);
    VersionsStay(Step(w, SetPassword(user)), events, user, |w.log[user]|);
    PasswordEndsOldTokens(Run(Step(w, SetPassword(user)), events), proc, token, dbOk, againOk, |w.log[user]|);
  }

  // --- a login ---

  /** Nothing is different but this user's rows and this process's copy of them. */
  ghost predicate OnlyTouches(was: World, now: World, proc: nat, user: string) {
    && now.now == was.now && now.log.Keys == was.log.Keys
    && (forall other :: other in was.log && other != user ==> now.log[other] == was.log[other])
    && (forall key :: key != (proc, user) ==>
      (key in now.caches <==> key in was.caches) && (key in was.caches ==> now.caches[key] == was.caches[key]))
  }

  /** A login hands out a `jti` never used before, for twelve hours or seven days, and registers it. */
  lemma LoginRegisters(w: World, proc: nat, user: string, remember: bool, signedAt: nat, dbOk: bool)
    ensures var (after, token) := CreateToken(w, proc, user, remember, signedAt, dbOk);
      && OnlyTouches(w, after, proc, user)
      && token.sub == user && token.jti == Some(w.nextJti) && after.nextJti == w.nextJti + 1
      && token.iat == signedAt / 1000 && token.exp == token.iat + (if remember then 604800 else 43200)
      && (dbOk ==> (proc, user) !in after.caches)
      && (if dbOk && Current(w, user).Some?
          then Current(after, user) == Some(Current(w, user).value.(activeJti := token.jti)) else after.log == w.log)
  {
  }

  /**
   A registered login decides at this process at once: its token is accepted, and every other token of the
   user that has a `jti` is not.
   */
  lemma LoginDecidesHere(w: World, proc: nat, user: string, remember: bool, signedAt: nat, token: Token, againOk: bool)
    requires Current(w, user).Some? && Current(w, user).value.isActive
    requires token.sub == user && token.jti.Some?
    ensures var (after, issued) := CreateToken(w, proc, user, remember, signedAt, true);
      Authenticate(after, proc, token, true, againOk).1 == Accepted <==>
        (token.jti == issued.jti && Unexpired(after, token) && SignedSincePassword(Current(w, user).value, token))
  {
    var (after, issued) := CreateToken(w, proc, user, remember, signedAt, true);
    if Unexpired(after, token) {
      AnswerExactly(after, proc, token, true, againOk, Current(w, user).value.(activeJti := issued.jti));
    } else {
      NoRowExactly(after, proc, token, true, againOk);
    }
  }

  /** Version `login`, made at time `at`, registered `jti`, which every row since then still names. */
  ghost predicate SessionSince(w: World, user: string, login: nat, jti: nat, at: nat) {
    && user in w.log && login < |w.log[user]|
    && w.log[user][login].cause == LoggedIn(jti) && w.log[user][login].at == at
    && InSession(w.log[user], login)
    && forall i :: login <= i < |w.log[user]| ==> w.log[user][i].row.activeJti == Some(jti)
  }

  /** Another login of this user, or a logout with this very token. */
  predicate EndsSession(e: Event, user: string, jti: nat) {
    (e.Login? && e.user == user) || (e.Logout? && e.token.sub == user && e.token.jti == Some(jti))
  }

  lemma SessionStays(w: World, e: Event, user: string, login: nat, jti: nat, at: nat)
    requires SessionSince(w, user, login, jti, at) && !EndsSession(e, user, jti)
    ensures SessionSince(Step(w, e), user, login, jti, at)
  {
    assert w.log[user][|w.log[user]| - 1].row.activeJti == Some(jti);
  }

  lemma {:induction false} SessionOverRun(w: World, events: seq<Event>, user: string, login: nat, jti: nat, at: nat)
    requires SessionSince(w, user, login, jti, at)
    requires forall i :: 0 <= i < |events| ==> !EndsSession(events[i], user, jti)
    ensures SessionSince(Run(w, events), user, login, jti, at)
    decreases |events|
  {
    if events != [] {
      SessionStays(w, events[0], user, login, jti, at);
      SessionOverRun(Step(w, events[0]), events[1..], user, login, jti, at);
    }
  }

  lemma SessionBegins(w: World, proc: nat, user: string, remember: bool, signedAt: nat)
    requires Current(w, user).Some? && signedAt <= w.now
    ensures SessionSince(Step(w, Login(proc, user, remember, signedAt, true)), user, |w.log[user]|, w.nextJti, w.now)
  {
  }

  /**
   From a registered login on, until the user logs in again or logs out with its token, every other token
   that has a `jti` is accepted only by a process that still holds a row from before, so for one cache
   lifetime at most.
   */
  lemma LoginShutsOut(w: World, proc: nat, user: string, remember: bool, signedAt: nat, events: seq<Event>,
                      at: nat, token: Token, dbOk: bool, againOk: bool)
    requires Reachable(w) && Current(w, user).Some? && signedAt <= w.now
    requires token.sub == user && token.jti.Some? && token.jti != Some(w.nextJti)
    requires forall i :: 0 <= i < |events| ==> !EndsSession(events[i], user, w.nextJti)
    requires Authenticate(Run(Step(w, Login(proc, user, remember, signedAt, true)), events), at, token,
                          dbOk, againOk).1 == Accepted
    ensures var later := Run(Step(w, Login(proc, user, remember, signedAt, true)), events);
      user in later.log && HoldsRowFromBefore(later, at, user, |w.log[user]|) && later.now < w.now + 8000
  {
    var login := Login(proc, user, remember, signedAt, true);
    var since := [login] + events;
    assert since[0] == login && since[1..] == events;
    ReachableOn(w, since);
    SessionBegins(w, proc, user, remember, signedAt);
    SessionOverRun(Step(w, login), events, user, |w.log[user]|, w.nextJti, w.now);
    OldTokenOnlyWhereStale(Run(Step(w, login), events), at, token, dbOk, againOk, |w.log[user]|);
  }

  // --- a logout ---

  /** A logout with the active token clears it and drops this process's copy; with any other it only drops the copy. */
  lemma LogoutClears(w: World, proc: nat, token: Token)
    requires Unexpired(w, token) && token.jti.Some?
    ensures var after := Revoke(w, proc, token, true);
      && OnlyTouches(w, after, proc, token.sub) && (proc, token.sub) !in after.caches && after.nextJti == w.nextJti
      && (if Current(w, token.sub).Some? && Current(w, token.sub).value.activeJti == token.jti
          then Current(after, token.sub) == Some(Current(w, token.sub).value.(activeJti := None))
          else after.log == w.log)
  {
  }

  /** An expired token, one without a `jti`, or a failed write logs nobody out. */
  lemma LogoutIdle(w: World, proc: nat, token: Token, dbOk: bool)
    requires !Unexpired(w, token) || token.jti == None || !dbOk
    ensures Revoke(w, proc, token, dbOk) == w
  {
  }

  /** After it no device is named, so the process goes on to accept every token that passes the other checks. */
  lemma LogoutLetsAllThrough(w: World, proc: nat, out: Token, token: Token, againOk: bool)
    requires Unexpired(w, out) && out.jti.Some? && token.sub == out.sub
    requires Current(w, out.sub).Some? && Current(w, out.sub).value.activeJti == out.jti
    ensures Authenticate(Revoke(w, proc, out, true), proc, token, true, againOk).1 == Accepted <==>
      (Unexpired(w, token) && Current(w, out.sub).value.isActive
       && SignedSincePassword(Current(w, out.sub).value, token))
  {
    var after := Revoke(w, proc, out, true);
    if Unexpired(after, token) {
      AnswerExactly(after, proc, token, true, againOk, Current(w, out.sub).value.(activeJti := None));
    } else {
      NoRowExactly(after, proc, token, true, againOk);
    }
  }
}
