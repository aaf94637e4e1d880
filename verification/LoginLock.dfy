/** Five failures in thirty minutes lock a login name (routes/login_routes.py). */
module LoginLock {
  import opened Common
  import opened Strings
  import opened SlidingWindow

  const WINDOW := 30 * MINUTE
  const LIMIT := 5

  /** A row of `login_failure_log`. */
  datatype Failure = Failure(key: string, at: int)

  datatype State = State(now: int, log: seq<Failure>)

  /** What a login reads of the account that has this name. */
  datatype Account = Account(passwordMatches: bool, isActive: bool, isExpired: bool, maySignInHere: bool)

  datatype Finding = UnknownUser | WrongPassword | Disabled | Expired | WrongDoor | Success

  datatype Outcome = AccountLocked | InvalidCredentials | AccountDisabled | AccountExpired | LoggedIn

  function Key(username: string): string {
    Strip(Lower(username))
  }

  /** When this name failed, as far as the log remembers. */
  function Failures(log: seq<Failure>, key: string): seq<int> {
    if log == [] then [] else
    var last := log[|log| - 1];
    Failures(log[..|log| - 1], key) + (if last.key == key then [last.at] else [])
  }

  predicate Locked(s: State, key: string) {
    Since(Failures(s.log, key), s.now - WINDOW) >= LIMIT
  }

  /** The log without the rows of these keys. */
  function Cleared(log: seq<Failure>, keys: set<string>): seq<Failure> {
    if log == [] then [] else
    var last := log[|log| - 1];
    Cleared(log[..|log| - 1], keys) + (if last.key in keys then [] else [last])
  }

  /** The checks in their order; an account at the wrong door is turned away like a wrong password. */
  function Find(user: Option<Account>): Finding {
    if user.None? then UnknownUser
    else if !user.value.passwordMatches then WrongPassword
    else if !user.value.isActive then Disabled
    else if user.value.isExpired then Expired
    else if !user.value.maySignInHere then WrongDoor
    else Success
  }

  function Answer(finding: Finding): Outcome {
    match finding
    case UnknownUser => InvalidCredentials
    case WrongPassword => InvalidCredentials
    case Disabled => AccountDisabled
    case Expired => AccountExpired
    case WrongDoor => InvalidCredentials
    case Success => LoggedIn
  }

  predicate Recorded(finding: Finding) {
    finding.UnknownUser? || finding.WrongPassword?
  }

  /** The log after a login that was not refused as locked. */
  function Logged(log: seq<Failure>, key: string, finding: Finding, at: int): seq<Failure> {
    if Recorded(finding) then log + [Failure(key, at)]
    else if finding.Success? then Cleared(log, {key})
    else log
  }

  /** `took` lies between the lock check and the write to the log, and `logOk` says whether that write succeeds. */
  function Login(s: State, username: string, user: Option<Account>, took: nat, logOk: bool): (State, Outcome) {
    var key, finding := Key(username), Find(user);
    if Locked(s, key) then (s, AccountLocked) else
    var at := s.now + took;
    (State(at, if logOk then Logged(s.log, key, finding, at) else s.log), Answer(finding))
  }

  datatype Event =
    | Tick(time: nat)
    | LoginTry(username: string, user: Option<Account>, took: nat, logOk: bool)
    | PasswordReset(keys: set<string>)

  function Step(s: State, e: Event): State {
    match e
    case Tick(time) => s.(now := s.now + time)
    case LoginTry(username, user, took, logOk) => Login(s, username, user, took, logOk).0
    case PasswordReset(keys) => s.(log := Cleared(s.log, keys))
  }

  function Run(s: State, events: seq<Event>): State
    decreases |events|
  {
    if events == [] then s else Run(Step(s, events[0]), events[1..])
  }

  class LoginRoutes {
    var now: int
    var log: seq<Failure>

    function Now(): State
      reads this
    {
      State(now, log)
    }

    method RecordLoginFailure(username: string, logOk: bool)
      modifies this`log
      ensures log == if logOk then old(log) + [Failure(Key(username), now)] else old(log)
    {
      if logOk {
        log := log + [Failure(Strip(Lower(username)), now)];
      }
    }

    method LogIn(username: string, user: Option<Account>, took: nat, logOk: bool) returns (outcome: Outcome)
      modifies this
      ensures (Now(), outcome) == Login(old(Now()), username, user, took, logOk)
    {
      if Since(Failures(log, Strip(Lower(username))), now - WINDOW) >= LIMIT {
        return AccountLocked;
      }
      now := now + took;
      if user.None? {
        RecordLoginFailure(username, logOk);
        return InvalidCredentials;
      }
      var account := user.value;
      if !account.passwordMatches {
        RecordLoginFailure(username, logOk);
        return InvalidCredentials;
      }
      if !account.isActive {
        return AccountDisabled;
      }
      if account.isExpired {
        return AccountExpired;
      }
      if !account.maySignInHere {
        return InvalidCredentials;
      }
      if logOk {
        log := Cleared(log, {Strip(Lower(username))});
      }
      outcome := LoggedIn;
    }
  }

  // --- the invariant of every run ---

  ghost predicate TimesOk(times: seq<int>, now: int) {
    UpTo(times, now) && Sorted(times) && Limited(times, WINDOW, LIMIT)
  }

  ghost predicate Inv(s: State) {
    forall key :: TimesOk(Failures(s.log, key), s.now)
  }

  lemma {:induction false} ClearedFailures(log: seq<Failure>, keys: set<string>, key: string)
    ensures Failures(Cleared(log, keys), key) == if key in keys then [] else Failures(log, key)
  {
    if log != [] {
      var rest, last := log[..|log| - 1], log[|log| - 1];
      ClearedFailures(rest, keys, key);
      if last.key !in keys {
        FailuresGrow(Cleared(rest, keys), last, key);
      } else {
        assert Cleared(log, keys) == Cleared(rest, keys);
      }
    }
  }

  lemma FailuresGrow(log: seq<Failure>, failure: Failure, key: string)
    ensures Failures(log + [failure], key) == Failures(log, key) + (if failure.key == key then [failure.at] else [])
  {
    assert (log + [failure])[..|log|] == log;
  }

  lemma ClearedInv(s: State, keys: set<string>)
    requires Inv(s)
    ensures Inv(s.(log := Cleared(s.log, keys)))
  {
    forall key ensures TimesOk(Failures(Cleared(s.log, keys), key), s.now) {
      ClearedFailures(s.log, keys, key);
      assert TimesOk(Failures(s.log, key), s.now);
    }
  }

  lemma LaterInv(s: State, now: int)
    requires Inv(s) && s.now <= now
    ensures Inv(s.(now := now))
  {
    forall key ensures TimesOk(Failures(s.log, key), now) {
      assert TimesOk(Failures(s.log, key), s.now);
    }
  }

  lemma TimesGrow(times: seq<int>, now: int, at: int)
    requires TimesOk(times, now) && now <= at && Since(times, now - WINDOW) < LIMIT
    ensures TimesOk(times + [at], at)
  {
    Admit(times, WINDOW, LIMIT, now, at);
  }

  /** What one login adds to or takes from the failures of each name. */
  lemma LoggedFailures(log: seq<Failure>, name: string, finding: Finding, at: int, key: string)
    ensures Failures(Logged(log, name, finding, at), key)
      == if key == name && Recorded(finding) then Failures(log, key) + [at]
         else if key == name && finding.Success? then []
         else Failures(log, key)
  {
    if Recorded(finding) {
      FailuresGrow(log, Failure(name, at), key);
      assert Failures(log, key) + [] == Failures(log, key);
    } else if finding.Success? {
      ClearedFailures(log, {name}, key);
    }
  }

  lemma LoggedInv(s: State, name: string, finding: Finding, at: int)
    requires Inv(s) && !Locked(s, name) && s.now <= at
    ensures Inv(State(at, Logged(s.log, name, finding, at)))
  {
    forall key ensures TimesOk(Failures(Logged(s.log, name, finding, at), key), at) {
      assert TimesOk(Failures(s.log, key), s.now);
      LoggedFailures(s.log, name, finding, at, key);
      if key == name && Recorded(finding) {
        TimesGrow(Failures(s.log, key), s.now, at);
      }
    }
  }

  lemma LockedLogin(s: State, username: string, user: Option<Account>, took: nat, logOk: bool)
    requires Locked(s, Key(username))
    ensures Login(s, username, user, took, logOk) == (s, AccountLocked)
  {
  }

  lemma UnlockedLogin(s: State, username: string, user: Option<Account>, took: nat, logOk: bool)
    requires !Locked(s, Key(username))
    ensures Login(s, username, user, took, logOk).0
      == State(s.now + took, if logOk then Logged(s.log, Key(username), Find(user), s.now + took) else s.log)
  {
  }

  lemma LoginInv(s: State, username: string, user: Option<Account>, took: nat, logOk: bool)
    requires Inv(s)
    ensures Inv(Login(s, username, user, took, logOk).0)
  {
    if Locked(s, Key(username)) {
      LockedLogin(s, username, user, took, logOk);
    } else {
      UnlockedLogin(s, username, user, took, logOk);
      if logOk {
        LoggedInv(s, Key(username), Find(user), s.now + took);
      } else {
        LaterInv(s, s.now + took);
      }
    }
  }

  lemma {:induction false} RunInv(s: State, events: seq<Event>)
    requires Inv(s)
    ensures Inv(Run(s, events))
    decreases |events|
  {
    if events != [] {
      match events[0] {
        case Tick(time) => LaterInv(s, s.now + time);
        case LoginTry(username, user, took, logOk) => LoginInv(s, username, user, took, logOk);
        case PasswordReset(keys) => ClearedInv(s, keys);
      }
      RunInv(Step(s, events[0]), events[1..]);
    }
  }

  /** Reached from an empty log by some run. */
  ghost predicate Reachable(s: State) {
    exists now, events :: Run(State(now, []), events) == s
  }

  lemma ReachableInv(s: State)
    requires Reachable(s)
    ensures Inv(s)
  {
    var now, events :| Run(State(now, []), events) == s;
    RunInv(State(now, []), events);
  }

  // --- what holds in every reachable state ---

  /** At most five failures of one name in any thirty minutes stand in the log. */
  lemma FailuresAreLimited(s: State, key: string)
    requires Reachable(s)
    ensures Limited(Failures(s.log, key), 1800 * SECOND, 5)
  {
    ReachableInv(s);
    assert TimesOk(Failures(s.log, key), s.now);
  }

  /** A name is locked exactly until its fifth last failure is thirty minutes old. */
  lemma LockedUntil(s: State, key: string)
    requires Reachable(s)
    ensures Locked(s, key) <==>
      var times := Failures(s.log, key);
      |times| >= 5 && s.now < times[|times| - 5] + 1800 * SECOND
  {
    ReachableInv(s);
    assert TimesOk(Failures(s.log, key), s.now);
    ReachedBy(Failures(s.log, key), s.now - WINDOW, LIMIT);
  }

  /** The account is there, its password matches, it is active and not expired, and this is its door. */
  predicate MayComeIn(user: Option<Account>) {
    user.Some? && user.value.passwordMatches && user.value.isActive && !user.value.isExpired && user.value.maySignInHere
  }

  /** Who gets in, and what the others are told. */
  lemma OutcomeExactly(s: State, username: string, user: Option<Account>, took: nat, logOk: bool)
    ensures var outcome := Login(s, username, user, took, logOk).1;
      && (outcome == LoggedIn <==> !Locked(s, Key(username)) && MayComeIn(user))
      && (outcome == AccountLocked <==> Locked(s, Key(username)))
      && (outcome == AccountDisabled <==> (!Locked(s, Key(username)) && user.Some? && user.value.passwordMatches
                                           && !user.value.isActive))
      && (outcome == AccountExpired <==> (!Locked(s, Key(username)) && user.Some? && user.value.passwordMatches
                                          && user.value.isActive && user.value.isExpired))
  {
  }

  /** Without the password the answer does not tell whether there is such an account, nor anything about it. */
  lemma AnswerHidesAccount(s: State, username: string, a: Option<Account>, b: Option<Account>, took: nat, logOk: bool)
    requires a.None? || !a.value.passwordMatches
    requires b.None? || !b.value.passwordMatches
    ensures Login(s, username, a, took, logOk) == Login(s, username, b, took, logOk)
    ensures !Locked(s, Key(username)) ==> Login(s, username, a, took, logOk).1 == InvalidCredentials
  {
  }

  /** An account at the wrong door gets the very answer of a wrong password, and its name is not counted. */
  lemma WrongDoorLooksAlike(s: State, username: string, account: Account, took: nat, logOk: bool)
    requires account.passwordMatches && account.isActive && !account.isExpired && !account.maySignInHere
    ensures Login(s, username, Some(account), took, logOk).1 == Login(s, username, None, took, logOk).1
    ensures Login(s, username, Some(account), took, logOk).0.log == s.log
  {
  }

  /**
   One login: a locked name is refused whatever the password and nothing changes; success forgets
   this name's failures and no others; only an unknown name and a wrong password are counted.
   */
  lemma LoginCounts(s: State, username: string, user: Option<Account>, took: nat, logOk: bool, key: string)
    ensures var (after, outcome) := Login(s, username, user, took, logOk);
      var (was, now) := (Failures(s.log, key), Failures(after.log, key));
      if Locked(s, Key(username)) then outcome == AccountLocked && after == s
      else now == (if key != Key(username) || !logOk then was
                   else if MayComeIn(user) then []
                   else if user.None? || !user.value.passwordMatches then was + [s.now + took]
                   else was)
  {
    if Locked(s, Key(username)) {
      LockedLogin(s, username, user, took, logOk);
    } else {
      UnlockedLogin(s, username, user, took, logOk);
      LoggedFailures(s.log, Key(username), Find(user), s.now + took, key);
      FindExactly(user);
    }
  }

  lemma FindExactly(user: Option<Account>)
    ensures Find(user).Success? <==> MayComeIn(user)
    ensures Recorded(Find(user)) <==> user.None? || !user.value.passwordMatches
  {
  }

  /** Spaces around a name and the case of its letters make no difference. */
  lemma KeyIgnores(before: string, name: string, after: string, again: string)
    requires AllSpaces(before) && AllSpaces(after) && SameButCase(name, again)
    ensures Key(before + again + after) == Key(name)
  {
    FoldIgnores(before, name, after, again);
  }

  /** A plain name is its own key, so no two plain names share one. */
  lemma PlainKey(name: string)
    requires forall i :: 0 <= i < |name| ==> !('A' <= name[i] <= 'Z')
    requires name != "" ==> !IsSpace(name[0]) && !IsSpace(name[|name| - 1])
    ensures Key(name) == name
  {
    PlainLower(name);
    StripNothing(name);
  }
}
