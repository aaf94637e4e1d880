/**
 Password reset tokens (routes/auth_password_routes.py). A reset reads and
 checks its token in one transaction and writes in a second one, so resets may
 overlap; every transaction is one step of the run.
 */
module PasswordReset {
  import opened Common
  import opened Strings
  import opened SlidingWindow
  import LoginLock

  /** A row of `password_reset_log`. */
  datatype Row = Row(token: string, user: nat, email: string, issuedAt: int, expiresAt: int, used: bool)

  datatype Account = Account(username: string, password: string, changedAt: Option<int>)

  /** A reset between its two transactions: what it read, and at which step. */
  datatype Reading = Reading(token: string, user: nat, email: string, password: string, step: nat)

  /** A password change by token: the steps at which the token was read and the password written. */
  datatype Change = Change(token: string, read: nat, written: nat)

  const TOKEN_LIFE := 15 * MINUTE

  datatype State = State(
    step: nat, now: int, rows: seq<Row>, accounts: map<nat, Account>, failures: seq<LoginLock.Failure>,
    readings: map<nat, Reading>, changes: seq<Change>)

  datatype Answer = InvalidToken | PasswordTooShort | PasswordTooWeak | TokenUsed | TokenExpired | Usable(row: Row)

  predicate IsLetter(c: char) {
    'a' <= c <= 'z' || 'A' <= c <= 'Z'
  }

  predicate HasLetterAndDigit(password: string) {
    (exists i :: 0 <= i < |password| && IsLetter(password[i]))
      && (exists i :: 0 <= i < |password| && IsDigit(password[i]))
  }

  function Find(rows: seq<Row>, token: string): (i: Option<nat>)
    ensures i.Some? ==> i.value < |rows| && rows[i.value].token == token
    ensures i.None? ==> forall j :: 0 <= j < |rows| ==> rows[j].token != token
  {
    if rows == [] then None
    else if rows[|rows| - 1].token == token then Some(|rows| - 1)
    else Find(rows[..|rows| - 1], token)
  }

  /** The checks of a reset, in their order. */
  function Check(rows: seq<Row>, now: int, token: string, password: string): Answer {
    if |token| < 16 then InvalidToken
    else if |password| < 8 then PasswordTooShort
    else if !HasLetterAndDigit(password) then PasswordTooWeak
    else
      var i := Find(rows, token);
      if i.None? then InvalidToken
      else if rows[i.value].used then TokenUsed
      else if rows[i.value].expiresAt < now then TokenExpired
      else Usable(rows[i.value])
  }

  /** The rows once this token and every token of this address are used. */
  function Spent(rows: seq<Row>, token: string, email: string): (r: seq<Row>)
    ensures |r| == |rows|
    ensures forall i :: 0 <= i < |rows| ==>
      r[i] == if rows[i].token == token || rows[i].email == email then rows[i].(used := true) else rows[i]
  {
    seq(|rows|, i requires 0 <= i < |rows| =>
      if rows[i].token == token || rows[i].email == email then rows[i].(used := true) else rows[i])
  }

  function WithPassword(accounts: map<nat, Account>, user: nat, password: string, now: int): map<nat, Account> {
    if user in accounts then accounts[user := accounts[user].(password := password, changedAt := Some(now))]
      else accounts
  }

  /** The login names whose failures a reset forgets. */
  function NamesOf(accounts: map<nat, Account>, user: nat, email: string): set<string> {
    {Lower(email)} + (if user in accounts then {Lower(accounts[user].username)} else {})
  }

  function Write(s: State, r: Reading): State {
    s.(rows := Spent(s.rows, r.token, r.email),
       accounts := WithPassword(s.accounts, r.user, r.password, s.now),
       failures := LoginLock.Cleared(s.failures, NamesOf(s.accounts, r.user, r.email)),
       changes := s.changes + [Change(r.token, r.step, s.step)])
  }

  datatype Event =
    | Tick(time: nat)
    | Issue(token: string, user: nat, email: string)
    | Begin(handler: nat, token: string, password: string)
    | Finish(handler: nat)
    | ChangePassword(user: nat, oldOk: bool, password: string)
    | FailLogin(key: string)

  /** A handler serves one reset at a time: it begins another only after it finished. */
  function Act(s: State, e: Event): State {
    match e
    case Tick(time) => s.(now := s.now + time)
    case Issue(token, user, email) =>
      if Find(s.rows, token).Some? then s
      else s.(rows := s.rows + [Row(token, user, email, s.now, s.now + TOKEN_LIFE, false)])
    case Begin(handler, token, password) =>
      if handler in s.readings then s else
      match Check(s.rows, s.now, token, password) {
        case Usable(row) => s.(readings := s.readings[handler := Reading(token, row.user, row.email, password, s.step)])
        case _ => s
      }
    case Finish(handler) =>
      if handler in s.readings then Write(s, s.readings[handler]).(readings := s.readings - {handler}) else s
    case ChangePassword(user, oldOk, password) =>
      if oldOk && |password| >= 8 && HasLetterAndDigit(password)
      then s.(accounts := WithPassword(s.accounts, user, password, s.now)) else s
    case FailLogin(key) => s.(failures := s.failures + [LoginLock.Failure(key, s.now)])
  }

  function Step(s: State, e: Event): State {
    Act(s, e).(step := s.step + 1)
  }

  function Run(s: State, events: seq<Event>): State
    decreases |events|
  {
    if events == [] then s else Run(Step(s, events[0]), events[1..])
  }

  class PasswordRoutes {
    var now: int
    var rows: seq<Row>
    var accounts: map<nat, Account>
    var failures: seq<LoginLock.Failure>

    /** The whole handler, nothing coming in between. */
    method ResetPassword(token: string, password: string) returns (answer: Answer)
      modifies this`rows, this`accounts, this`failures
      ensures answer == Check(old(rows), now, token, password)
      ensures if !answer.Usable? then rows == old(rows) && accounts == old(accounts) && failures == old(failures)
        else
          && rows == Spent(old(rows), token, answer.row.email)
          && accounts == WithPassword(old(accounts), answer.row.user, password, now)
          && failures == LoginLock.Cleared(old(failures), NamesOf(old(accounts), answer.row.user, answer.row.email))
    {
      if |token| < 16 {
        return InvalidToken;
      }
      if |password| < 8 {
        return PasswordTooShort;
      }
      if !HasLetterAndDigit(password) {
        return PasswordTooWeak;
      }
      var i := Find(rows, token);
      if i.None? {
        return InvalidToken;
      }
      var row := rows[i.value];
      if row.used {
        return TokenUsed;
      }
      if row.expiresAt < now {
        return TokenExpired;
      }
      if row.user in accounts {
        accounts := accounts[row.user := accounts[row.user].(password := password, changedAt := Some(now))];
      }
      rows := Spent(rows, token, row.email);
      var names := {Lower(row.email)};
      if row.user in accounts {
        names := names + {Lower(accounts[row.user].username)};
      }
      assert names == NamesOf(old(accounts), row.user, row.email);
      failures := LoginLock.Cleared(failures, names);
      answer := Usable(row);
    }

    method ChangePassword(user: nat, oldOk: bool, password: string) returns (done: bool)
      modifies this`accounts
      ensures done == (oldOk && |password| >= 8 && HasLetterAndDigit(password))
      ensures accounts == if done then WithPassword(old(accounts), user, password, now) else old(accounts)
    {
      if !oldOk || |password| < 8 || !HasLetterAndDigit(password) {
        return false;
      }
      if user in accounts {
        accounts := accounts[user := accounts[user].(password := password, changedAt := Some(now))];
      }
      done := true;
    }
  }

  // --- the invariant of every run ---

  predicate RowsOk(rows: seq<Row>, now: int) {
    && (forall i, j :: 0 <= i < j < |rows| ==> rows[i].token != rows[j].token)
    && (forall i :: 0 <= i < |rows| ==> rows[i].issuedAt <= now && rows[i].expiresAt == rows[i].issuedAt + TOKEN_LIFE)
  }

  /** A token a password was changed with stays used. */
  predicate SpentTokens(s: State) {
    forall i, j :: 0 <= i < |s.changes| && 0 <= j < |s.rows| && s.changes[i].token == s.rows[j].token ==> s.rows[j].used
  }

  predicate Known(rows: seq<Row>, token: string) {
    exists j :: 0 <= j < |rows| && rows[j].token == token
  }

  predicate AllKnown(s: State) {
    && (forall h :: h in s.readings ==> Known(s.rows, s.readings[h].token))
    && (forall i :: 0 <= i < |s.changes| ==> Known(s.rows, s.changes[i].token))
  }

  /** A token that is being used was read before any change made with it was written. */
  predicate ReadBeforeWritten(s: State) {
    && (forall i :: 0 <= i < |s.changes| ==> s.changes[i].read < s.changes[i].written < s.step)
    && (forall h :: h in s.readings ==> s.readings[h].step < s.step)
    && (forall i, h :: 0 <= i < |s.changes| && h in s.readings && s.changes[i].token == s.readings[h].token ==>
          s.readings[h].step < s.changes[i].written)
    && (forall i, j :: 0 <= i < j < |s.changes| && s.changes[i].token == s.changes[j].token ==>
          s.changes[j].read < s.changes[i].written < s.changes[j].written)
  }

  predicate Inv(s: State) {
    RowsOk(s.rows, s.now) && SpentTokens(s) && AllKnown(s) && ReadBeforeWritten(s)
  }

  lemma IssueInv(s: State, token: string, user: nat, email: string)
    requires Inv(s)
    ensures Inv(Step(s, Issue(token, user, email)))
  {
    if Find(s.rows, token).None? {
      var rows := Act(s, Issue(token, user, email)).rows;
      forall t | Known(s.rows, t) ensures Known(rows, t) {
        var j :| 0 <= j < |s.rows| && s.rows[j].token == t;
        assert rows[j].token == t;
      }
    }
  }

  lemma BeginReads(s: State, handler: nat, token: string, password: string)
    requires Check(s.rows, s.now, token, password).Usable? && handler !in s.readings
    ensures var after := Step(s, Begin(handler, token, password));
      var row := Check(s.rows, s.now, token, password).row;
      && row in s.rows && row.token == token && !row.used
      && after == s.(step := s.step + 1,
                     readings := s.readings[handler := Reading(token, row.user, row.email, password, s.step)])
  {
    assert s.rows[Find(s.rows, token).value] in s.rows;
  }

  lemma BeginInv(s: State, handler: nat, token: string, password: string)
    requires Inv(s)
    ensures Inv(Step(s, Begin(handler, token, password)))
  {
    if Check(s.rows, s.now, token, password).Usable? && handler !in s.readings {
      BeginReads(s, handler, token, password);
      ReadingInv(s, handler, Step(s, Begin(handler, token, password)).readings[handler],
                 Check(s.rows, s.now, token, password).row);
    }
  }

  lemma ReadingInv(s: State, handler: nat, r: Reading, row: Row)
    requires Inv(s) && row in s.rows && row.token == r.token && !row.used && r.step == s.step
    ensures Inv(s.(step := s.step + 1, readings := s.readings[handler := r]))
  {
    assert forall i :: 0 <= i < |s.changes| ==> s.changes[i].token != r.token;
    assert Known(s.rows, r.token);
  }

  lemma FinishRows(s: State, r: Reading)
    requires RowsOk(s.rows, s.now) && SpentTokens(s)
    ensures RowsOk(Write(s, r).rows, s.now) && SpentTokens(Write(s, r))
  {
  }

  lemma FinishKnown(s: State, r: Reading)
    requires AllKnown(s) && Known(s.rows, r.token)
    ensures AllKnown(Write(s, r))
  {
    forall t | Known(s.rows, t) ensures Known(Write(s, r).rows, t) {
      var j :| 0 <= j < |s.rows| && s.rows[j].token == t;
      assert Write(s, r).rows[j].token == t;
    }
  }

  lemma FinishOrder(s: State, handler: nat)
    requires ReadBeforeWritten(s) && handler in s.readings
    ensures ReadBeforeWritten(Step(s, Finish(handler)))
  {
  }

  lemma FinishInv(s: State, handler: nat)
    requires Inv(s) && handler in s.readings
    ensures Inv(Step(s, Finish(handler)))
  {
    FinishRows(s, s.readings[handler]);
    FinishKnown(s, s.readings[handler]);
    FinishOrder(s, handler);
  }

  lemma StepInv(s: State, e: Event)
    requires Inv(s)
    ensures Inv(Step(s, e))
  {
    match e
    case Tick(_) =>
    case Issue(token, user, email) => IssueInv(s, token, user, email);
    case Begin(handler, token, password) => BeginInv(s, handler, token, password);
    case Finish(handler) => if handler in s.readings { FinishInv(s, handler); }
    case ChangePassword(_, _, _) =>
    case FailLogin(_) =>
  }

  lemma {:induction false} RunInv(s: State, events: seq<Event>)
    requires Inv(s)
    ensures Inv(Run(s, events))
    decreases |events|
  {
    if events != [] {
      StepInv(s, events[0]);
      RunInv(Step(s, events[0]), events[1..]);
    }
  }

  function Start(now: int, accounts: map<nat, Account>): State {
    State(0, now, [], accounts, [], map[], [])
  }

  ghost predicate Reachable(s: State) {
    exists now, accounts, events :: Run(Start(now, accounts), events) == s
  }

  lemma ReachableInv(s: State)
    requires Reachable(s)
    ensures Inv(s)
  {
    var now, accounts, events :| Run(Start(now, accounts), events) == s;
    RunInv(Start(now, accounts), events);
  }

  // --- what holds in every reachable state ---

  /** Two changes with one token overlapped: the second read the token before the first wrote. */
  lemma SecondUseOverlapped(s: State, i: nat, j: nat)
    requires Reachable(s) && i < j < |s.changes| && s.changes[i].token == s.changes[j].token
    ensures s.changes[j].read < s.changes[i].written < s.changes[j].written
  {
    ReachableInv(s);
  }

  /** So a token changes a password at most once when every reset writes right after it reads. */
  lemma OnceIfAtomic(s: State)
    requires Reachable(s) && forall i :: 0 <= i < |s.changes| ==> s.changes[i].written == s.changes[i].read + 1
    ensures forall i, j :: 0 <= i < j < |s.changes| ==> s.changes[i].token != s.changes[j].token
  {
    ReachableInv(s);
  }

  // --- exactly when a token is used twice ---

  /** How many passwords were changed with this token. */
  function Uses(changes: seq<Change>, token: string): nat {
    if changes == [] then 0
    else Uses(changes[..|changes| - 1], token) + (if changes[|changes| - 1].token == token then 1 else 0)
  }

  /** The handlers that have read this token and are still to write. */
  function Pending(s: State, events: seq<Event>, token: string): set<nat> {
    set h | h in s.readings && s.readings[h].token == token && Finish(h) in events
  }

  /** At some moment of the run two handlers have read this token, and both go on to write. */
  predicate OpenTogether(s: State, events: seq<Event>, token: string)
    decreases |events|
  {
    || (exists a, b :: a in Pending(s, events, token) && b in Pending(s, events, token) && a != b)
    || (events != [] && OpenTogether(Step(s, events[0]), events[1..], token))
  }

  /** The token is in the table, and used. */
  predicate IsSpent(s: State, token: string) {
    Known(s.rows, token) && forall j :: 0 <= j < |s.rows| && s.rows[j].token == token ==> s.rows[j].used
  }

  predicate Writes(s: State, e: Event, token: string) {
    e.Finish? && e.handler in s.readings && s.readings[e.handler].token == token
  }

  lemma UsesMore(s: State, e: Event, token: string)
    ensures Uses(Step(s, e).changes, token) == Uses(s.changes, token) + (if Writes(s, e, token) then 1 else 0)
  {
    if e.Finish? && e.handler in s.readings {
      FinishAdds(s, e.handler);
      assert Step(s, e).changes[..|s.changes|] == s.changes;
    }
  }

  lemma {:induction false} SmallerSet(a: set<nat>, b: set<nat>)
    requires a <= b
    ensures |a| <= |b|
  {
    if a != {} {
      var x :| x in a;
      SmallerSet(a - {x}, b - {x});
    }
  }

  /** No step takes a reading of this token away but its own write. */
  lemma PendingStays(s: State, events: seq<Event>, token: string)
    requires events != []
    ensures var rest := Pending(Step(s, events[0]), events[1..], token);
      if Writes(s, events[0], token)
      then events[0].handler in Pending(s, events, token) && Pending(s, events, token) - {events[0].handler} <= rest
      else Pending(s, events, token) <= rest
  {
    assert forall e :: e in events <==> e == events[0] || e in events[1..];
    if events[0].Finish? && events[0].handler in s.readings {
      FinishAdds(s, events[0].handler);
    }
  }

  lemma {:induction false} PendingWrite(s: State, events: seq<Event>, token: string)
    ensures Uses(Run(s, events).changes, token) >= Uses(s.changes, token) + |Pending(s, events, token)|
    decreases |events|
  {
    if events != [] {
      var p, rest := Pending(s, events, token), Pending(Step(s, events[0]), events[1..], token);
      PendingWrite(Step(s, events[0]), events[1..], token);
      UsesMore(s, events[0], token);
      PendingStays(s, events, token);
      SmallerSet(if Writes(s, events[0], token) then p - {events[0].handler} else p, rest);
    }
  }

  lemma SpentStays(s: State, e: Event, token: string)
    requires IsSpent(s, token)
    ensures IsSpent(Step(s, e), token)
    ensures forall h :: h in Step(s, e).readings && Step(s, e).readings[h].token == token ==>
      h in s.readings && s.readings[h].token == token
  {
    var j :| 0 <= j < |s.rows| && s.rows[j].token == token;
    assert Step(s, e).rows[j].token == token;
    if e.Begin? && e.handler !in s.readings && Check(s.rows, s.now, e.token, e.password).Usable? {
      BeginReads(s, e.handler, e.token, e.password);
    }
  }

  /** Once a token is spent, only those who read it before still write. */
  lemma {:induction false} SpentUses(s: State, events: seq<Event>, token: string)
    requires IsSpent(s, token)
    ensures Uses(Run(s, events).changes, token) <= Uses(s.changes, token) + |Pending(s, events, token)|
    decreases |events|
  {
    if events != [] {
      var p, rest := Pending(s, events, token), Pending(Step(s, events[0]), events[1..], token);
      SpentStays(s, events[0], token);
      SpentUses(Step(s, events[0]), events[1..], token);
      UsesMore(s, events[0], token);
      SpentPending(s, events, token);
      SmallerSet(rest, if Writes(s, events[0], token) then p - {events[0].handler} else p);
    }
  }

  lemma SpentPending(s: State, events: seq<Event>, token: string)
    requires events != [] && IsSpent(s, token)
    ensures var rest := Pending(Step(s, events[0]), events[1..], token);
      if Writes(s, events[0], token)
      then events[0].handler in Pending(s, events, token) && rest <= Pending(s, events, token) - {events[0].handler}
      else rest <= Pending(s, events, token)
  {
    SpentStays(s, events[0], token);
    if events[0].Finish? && events[0].handler in s.readings {
      FinishAdds(s, events[0].handler);
    }
  }

  lemma WriteSpends(s: State, e: Event, token: string)
    requires AllKnown(s) && Writes(s, e, token)
    ensures IsSpent(Step(s, e), token)
  {
    var j :| 0 <= j < |s.rows| && s.rows[j].token == token;
    assert Step(s, e).rows[j].token == token;
  }

  lemma {:induction false} OpenMeansTwice(s: State, events: seq<Event>, token: string)
    requires OpenTogether(s, events, token)
    ensures Uses(Run(s, events).changes, token) >= 2
    decreases |events|
  {
    if a, b :| a in Pending(s, events, token) && b in Pending(s, events, token) && a != b {
      SmallerSet({a, b}, Pending(s, events, token));
      PendingWrite(s, events, token);
    } else {
      OpenMeansTwice(Step(s, events[0]), events[1..], token);
    }
  }

  /** The first write leaves the token spent, so a second one was already open beside it. */
  lemma FirstWrite(s: State, events: seq<Event>, token: string)
    requires AllKnown(s) && events != [] && Writes(s, events[0], token) && Uses(s.changes, token) == 0
    requires Uses(Run(s, events).changes, token) >= 2
    ensures OpenTogether(s, events, token)
  {
    var t, a := Step(s, events[0]), events[0].handler;
    WriteSpends(s, events[0], token);
    UsesMore(s, events[0], token);
    SpentUses(t, events[1..], token);
    FinishAdds(s, a);
    var b :| b in Pending(t, events[1..], token);
    assert a in Pending(s, events, token) && b in Pending(s, events, token) && a != b;
  }

  lemma {:induction false} TwiceMeansOpen(s: State, events: seq<Event>, token: string)
    requires Inv(s) && Uses(s.changes, token) == 0 && Uses(Run(s, events).changes, token) >= 2
    ensures OpenTogether(s, events, token)
    decreases |events|
  {
    if Writes(s, events[0], token) {
      FirstWrite(s, events, token);
    } else {
      UsesMore(s, events[0], token);
      StepInv(s, events[0]);
      TwiceMeansOpen(Step(s, events[0]), events[1..], token);
    }
  }

  /**
   A token not used so far changes more than one password exactly when two resets have it open at
   once and both write.
   */
  lemma UsedTwiceExactly(s: State, events: seq<Event>, token: string)
    requires Reachable(s) && Uses(s.changes, token) == 0
    ensures Uses(Run(s, events).changes, token) >= 2 <==> OpenTogether(s, events, token)
  {
    ReachableInv(s);
    if OpenTogether(s, events, token) {
      OpenMeansTwice(s, events, token);
    } else if Uses(Run(s, events).changes, token) >= 2 {
      TwiceMeansOpen(s, events, token);
    }
  }

  /** Every reset that begins is the next to finish. */
  predicate OneAfterAnother(events: seq<Event>) {
    forall i :: 0 <= i < |events| && events[i].Begin? ==> i + 1 < |events| && events[i + 1] == Finish(events[i].handler)
  }

  lemma {:induction false} NeverOpenTogether(s: State, events: seq<Event>, token: string)
    requires OneAfterAnother(events) && s.readings == map[]
    ensures !OpenTogether(s, events, token)
    decreases |events|
  {
    if events != [] {
      var t := Step(s, events[0]);
      if events[0].Begin? {
        var rest := events[1..];
        assert rest[0] == events[1];
        assert forall h :: h in t.readings ==> h == events[0].handler;
        assert Step(t, rest[0]).readings == map[];
        NeverOpenTogether(Step(t, rest[0]), rest[1..], token);
      } else {
        NeverOpenTogether(t, events[1..], token);
      }
    }
  }

  /** So resets that run one after another use each token at most once. */
  lemma OnceIfOneAfterAnother(s: State, events: seq<Event>, token: string)
    requires Reachable(s) && s.readings == map[] && OneAfterAnother(events) && Uses(s.changes, token) == 0
    ensures Uses(Run(s, events).changes, token) <= 1
  {
    NeverOpenTogether(s, events, token);
    UsedTwiceExactly(s, events, token);
  }

  /** Overlapping resets can be had for any usable token. */
  lemma OverlapUsesTwice(s: State, token: string, first: string, second: string, a: nat, b: nat)
    requires Check(s.rows, s.now, token, first).Usable? && Check(s.rows, s.now, token, second).Usable?
    requires a != b && a !in s.readings && b !in s.readings
    ensures Uses(Run(s, [Begin(a, token, first), Begin(b, token, second)] + [Finish(a), Finish(b)]).changes, token) >= 2
  {
    var open, close := [Begin(a, token, first), Begin(b, token, second)], [Finish(a), Finish(b)];
    BeginReads(s, a, token, first);
    var s1 := Step(s, Begin(a, token, first));
    BeginReads(s1, b, token, second);
    var s2 := Step(s1, Begin(b, token, second));
    assert open + close == [Begin(a, token, first)] + ([Begin(b, token, second)] + close);
    RunOne(s, Begin(a, token, first), [Begin(b, token, second)] + close);
    RunOne(s1, Begin(b, token, second), close);
    assert Finish(a) in close && Finish(b) in close;
    assert a in Pending(s2, close, token) && b in Pending(s2, close, token);
    OpenMeansTwice(s2, close, token);
  }

  lemma RunOne(s: State, e: Event, rest: seq<Event>)
    ensures Run(s, [e] + rest) == Run(Step(s, e), rest)
  {
    assert ([e] + rest)[1..] == rest;
  }

  lemma FinishAdds(s: State, handler: nat)
    requires handler in s.readings
    ensures Step(s, Finish(handler)).changes
      == s.changes + [Change(s.readings[handler].token, s.readings[handler].step, s.step)]
    ensures Step(s, Finish(handler)).readings == s.readings - {handler}
  {
  }

  /** Right after a reset no token issued so far for that address is usable, with whatever password. */
  lemma NoTokenLeft(s: State, handler: nat, token: string, password: string)
    requires handler in s.readings
    requires Check(Step(s, Finish(handler)).rows, s.now, token, password).Usable?
    ensures Check(Step(s, Finish(handler)).rows, s.now, token, password).row.email != s.readings[handler].email
    ensures token != s.readings[handler].token
  {
  }

  /**
   A token is usable exactly when it was issued, no more than fifteen minutes ago, and is unused;
   whose it is and how good the new password is decides the rest.
   */
  lemma UsableExactly(s: State, token: string, password: string, i: nat)
    requires Reachable(s) && i < |s.rows| && s.rows[i].token == token && |token| >= 16
    ensures Check(s.rows, s.now, token, password) == Usable(s.rows[i]) <==>
      && |password| >= 8 && HasLetterAndDigit(password)
      && !s.rows[i].used && s.now <= s.rows[i].issuedAt + TOKEN_LIFE
  {
    ReachableInv(s);
  }

  /**
   A reset sets the password of the token's user at this moment, touches no other account, and
   unlocks the logins by address and by user name.
   */
  lemma ResetChangesOneAccount(s: State, handler: nat, user: nat)
    requires handler in s.readings && user in s.accounts
    ensures var r := s.readings[handler];
      var after := Step(s, Finish(handler));
      && after.accounts.Keys == s.accounts.Keys
      && after.accounts[user] == (if user == r.user
           then Account(s.accounts[user].username, r.password, Some(s.now)) else s.accounts[user])
      && LoginLock.Failures(after.failures, Lower(r.email)) == []
      && (user == r.user ==> LoginLock.Failures(after.failures, Lower(s.accounts[user].username)) == [])
  {
    var r := s.readings[handler];
    var names := NamesOf(s.accounts, r.user, r.email);
    LoginLock.ClearedFailures(s.failures, names, Lower(r.email));
    LoginLock.ClearedFailures(s.failures, names, Lower(s.accounts[user].username));
  }

  // --- what the answers mean ---

  /** At least eight characters, a letter and a digit among them. */
  predicate IsStrong(password: string) {
    && |password| >= 8
    && (exists i :: 0 <= i < |password| && ('a' <= password[i] <= 'z' || 'A' <= password[i] <= 'Z'))
    && (exists i :: 0 <= i < |password| && '0' <= password[i] <= '9')
  }

  lemma StrongExactly(password: string)
    ensures |password| >= 8 && HasLetterAndDigit(password) <==> IsStrong(password)
  {
    forall i | 0 <= i < |password|
      ensures IsLetter(password[i]) <==> 'a' <= password[i] <= 'z' || 'A' <= password[i] <= 'Z'
      ensures IsDigit(password[i]) <==> '0' <= password[i] <= '9'
    {
    }
  }

  /** What a reset is told about a token that was issued. */
  lemma AnswersExactly(s: State, token: string, password: string, i: nat)
    requires Reachable(s) && i < |s.rows| && s.rows[i].token == token && |token| >= 16
    ensures var answer := Check(s.rows, s.now, token, password);
      var late := s.rows[i].issuedAt + 15 * 60 * SECOND < s.now;
      && (answer.Usable? <==> IsStrong(password) && !s.rows[i].used && !late)
      && (answer.Usable? ==> answer.row == s.rows[i])
      && (answer == TokenUsed <==> IsStrong(password) && s.rows[i].used)
      && (answer == TokenExpired <==> IsStrong(password) && !s.rows[i].used && late)
      && (answer == PasswordTooShort <==> |password| < 8)
  {
    ReachableInv(s);
    StrongExactly(password);
  }

  /** No other string is ever usable. */
  lemma UnknownIsRefused(s: State, token: string, password: string)
    requires |token| < 16 || !Known(s.rows, token)
    ensures !Check(s.rows, s.now, token, password).Usable?
    ensures |token| < 16 || IsStrong(password) ==> Check(s.rows, s.now, token, password) == InvalidToken
  {
    StrongExactly(password);
  }

  /** A reset begins with what its token's row says, and only with a usable one. */
  lemma BeginExactly(s: State, handler: nat, token: string, password: string)
    requires handler !in s.readings
    ensures var after := Step(s, Begin(handler, token, password));
      && (handler in after.readings <==> Check(s.rows, s.now, token, password).Usable?)
      && after == s.(step := s.step + 1, readings := after.readings)
      && (handler !in after.readings ==> after.readings == s.readings)
  {
  }

  /** A reset leaves every other address's tokens and every other name's failures as they were. */
  lemma ResetSparesOthers(s: State, handler: nat, i: nat, name: string)
    requires handler in s.readings && i < |s.rows|
    ensures var r := s.readings[handler];
      var after := Step(s, Finish(handler));
      && |after.rows| == |s.rows|
      && (s.rows[i].token != r.token && s.rows[i].email != r.email ==> after.rows[i] == s.rows[i])
      && after.rows[i].(used := s.rows[i].used) == s.rows[i]
      && (name != Lower(r.email) && (r.user in s.accounts ==> name != Lower(s.accounts[r.user].username)) ==>
        LoginLock.Failures(after.failures, name) == LoginLock.Failures(s.failures, name))
  {
    var r := s.readings[handler];
    LoginLock.ClearedFailures(s.failures, NamesOf(s.accounts, r.user, r.email), name);
  }

  /** Changing a password takes the old one and a strong new one, and touches this account only. */
  lemma ChangeExactly(s: State, user: nat, oldOk: bool, password: string, other: nat)
    requires user in s.accounts && other in s.accounts
    ensures var after := Step(s, ChangePassword(user, oldOk, password)).accounts;
      && after.Keys == s.accounts.Keys
      && after[other] == (if other == user && oldOk && IsStrong(password)
                          then Account(s.accounts[user].username, password, Some(s.now)) else s.accounts[other])
  {
    StrongExactly(password);
  }

  // --- how long a token lives ---

  /** In the run a reset writes that read this token, or another one of its address. */
  predicate WrittenFor(s: State, events: seq<Event>, token: string, email: string)
    decreases |events|
  {
    events != [] &&
    (Spends(s, events[0], token, email) || WrittenFor(Step(s, events[0]), events[1..], token, email))
  }

  predicate Spends(s: State, e: Event, token: string, email: string) {
    && e.Finish? && e.handler in s.readings
    && (s.readings[e.handler].token == token || s.readings[e.handler].email == email)
  }

  lemma RowStep(s: State, e: Event, i: nat)
    requires i < |s.rows|
    ensures i < |Step(s, e).rows|
    ensures Step(s, e).rows[i]
      == if Spends(s, e, s.rows[i].token, s.rows[i].email) then s.rows[i].(used := true) else s.rows[i]
  {
  }

  lemma {:induction false} RowOverRun(s: State, events: seq<Event>, i: nat)
    requires i < |s.rows|
    ensures i < |Run(s, events).rows|
    ensures Run(s, events).rows[i]
      == if WrittenFor(s, events, s.rows[i].token, s.rows[i].email) then s.rows[i].(used := true) else s.rows[i]
    decreases |events|
  {
    if events != [] {
      RowStep(s, events[0], i);
      RowOverRun(Step(s, events[0]), events[1..], i);
    }
  }

  lemma {:induction false} RunJoins(s: State, first: seq<Event>, second: seq<Event>)
    ensures Run(s, first + second) == Run(Run(s, first), second)
    decreases |first|
  {
    if first == [] {
      assert first + second == second;
    } else {
      assert (first + second)[0] == first[0] && (first + second)[1..] == first[1..] + second;
      RunJoins(Step(s, first[0]), first[1..], second);
    }
  }

  /**
   Whatever happens after it was issued, a token is usable with a strong password exactly for fifteen
   minutes and until a reset for its address writes.
   */
  lemma TokenLives(s: State, token: string, user: nat, email: string, events: seq<Event>, password: string)
    requires Reachable(s) && !Known(s.rows, token) && |token| >= 16 && IsStrong(password)
    ensures var issued := Step(s, Issue(token, user, email));
      var later := Run(issued, events);
      Check(later.rows, later.now, token, password).Usable? <==>
        !WrittenFor(issued, events, token, email) && later.now <= s.now + 15 * 60 * SECOND
  {
    var issued := Step(s, Issue(token, user, email));
    assert issued.rows == s.rows + [Row(token, user, email, s.now, s.now + TOKEN_LIFE, false)];
    RowOverRun(issued, events, |s.rows|);
    var now, accounts, before :| Run(Start(now, accounts), before) == s;
    RunJoins(Start(now, accounts), before, [Issue(token, user, email)] + events);
    RunOne(s, Issue(token, user, email), events);
    assert Run(Start(now, accounts), before + ([Issue(token, user, email)] + events)) == Run(issued, events);
    AnswersExactly(Run(issued, events), token, password, |s.rows|);
  }
}
