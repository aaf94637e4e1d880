/**
 Sign-up codes sent by email (routes/auth_email_code_routes.py) and consumed at sign-up
 (services/auth/auth_signup.py).
 */
module EmailCodes {
  import opened Common
  import opened Strings
  import opened SlidingWindow

  predicate SixDigits(code: string) {
    |code| == 6 && forall i :: 0 <= i < 6 ==> IsDigit(code[i])
  }

  /** What the code generator makes. */
  type Code = code: string | SixDigits(code) witness "000000"

  /** A row of `email_codes`; its place in the table is its id. */
  datatype Row = Row(email: string, purpose: string, code: string, sentAt: int, expiresAt: int, used: bool)

  const CODE_LIFE := 10 * MINUTE
  const RESEND_GAP := 60 * SECOND
  const HOURLY_LIMIT := 5

  datatype State = State(now: int, rows: seq<Row>)

  predicate IsFor(row: Row, email: string, purpose: string) {
    row.email == email && row.purpose == purpose
  }

  /** When codes were sent to this address for this purpose. */
  function Sent(rows: seq<Row>, email: string, purpose: string): seq<int> {
    if rows == [] then [] else
    var last := rows[|rows| - 1];
    Sent(rows[..|rows| - 1], email, purpose) + (if IsFor(last, email, purpose) then [last.sentAt] else [])
  }

  function Marked(rows: seq<Row>, which: Row -> bool): (r: seq<Row>)
    ensures |r| == |rows|
    ensures forall i :: 0 <= i < |rows| ==> r[i] == if which(rows[i]) then rows[i].(used := true) else rows[i]
  {
    seq(|rows|, i requires 0 <= i < |rows| => if which(rows[i]) then rows[i].(used := true) else rows[i])
  }

  function UnusedFor(email: string, purpose: string): Row -> bool {
    (row: Row) => IsFor(row, email, purpose) && !row.used
  }

  function WithCode(email: string, purpose: string, code: string): Row -> bool {
    (row: Row) => IsFor(row, email, purpose) && row.code == code
  }

  datatype Mail = Delivered | Failed(marked: bool)

  datatype SendOutcome =
    | EmailInvalid | PurposeInvalid | AlreadyRegistered | TooFast | HourlyLimit | CodeSent | DeliveryFailed

  function Normalised(email: string): string {
    Lower(Strip(email))
  }

  function Refusal(s: State, email: string, purpose: string, wellFormed: bool, registered: bool): Option<SendOutcome> {
    if email == "" || !wellFormed then Some(EmailInvalid)
    else if purpose != "signup" then Some(PurposeInvalid)
    else if registered then Some(AlreadyRegistered)
    else if Since(Sent(s.rows, email, purpose), s.now - RESEND_GAP) > 0 then Some(TooFast)
    else if Since(Sent(s.rows, email, purpose), s.now - HOUR) >= HOURLY_LIMIT then Some(HourlyLimit)
    else None
  }

  /** The rows once the older codes are voided and the new one is stored. */
  function Replaced(rows: seq<Row>, email: string, purpose: string, code: Code, at: int): seq<Row> {
    Marked(rows, UnusedFor(email, purpose)) + [Row(email, purpose, code, at, at + CODE_LIFE, false)]
  }

  /** A code whose mail failed is marked used, if that write succeeds. */
  function Mailed(rows: seq<Row>, email: string, purpose: string, code: Code, at: int, mail: Mail): State {
    State(at, if mail == Failed(true) then Marked(rows, WithCode(email, purpose, code)) else rows)
  }

  /**
   `took` is the time between the limit checks and the insertion; whether the address looks like one
   and is registered, and what becomes of the mail, is given.
   */
  function Send(s: State, rawEmail: string, purpose: string, wellFormed: bool, registered: bool, code: Code, took: nat,
      mail: Mail): (State, SendOutcome) {
    var email := Normalised(rawEmail);
    var refusal := Refusal(s, email, purpose, wellFormed, registered);
    if refusal.Some? then (s, refusal.value) else
    (Mailed(Replaced(s.rows, email, purpose, code, s.now + took), email, purpose, code, s.now + took, mail),
     if mail.Delivered? then CodeSent else DeliveryFailed)
  }

  /** The newest row with this code. */
  function Newest(rows: seq<Row>, email: string, purpose: string, code: string): (i: Option<nat>)
    ensures i.Some? ==> i.value < |rows| && WithCode(email, purpose, code)(rows[i.value])
    ensures i.Some? ==> forall j :: i.value < j < |rows| ==> !WithCode(email, purpose, code)(rows[j])
    ensures i.None? ==> forall j :: 0 <= j < |rows| ==> !WithCode(email, purpose, code)(rows[j])
  {
    if rows == [] then None
    else if WithCode(email, purpose, code)(rows[|rows| - 1]) then Some(|rows| - 1)
    else Newest(rows[..|rows| - 1], email, purpose, code)
  }

  predicate LooksLikeCode(code: string) {
    4 <= |code| <= 8 && forall i :: 0 <= i < |code| ==> IsDigit(code[i])
  }

  datatype Verdict = Good(row: nat) | MissingFields | CodeInvalid | CodeUsed | CodeExpired

  function Check(s: State, email: string, purpose: string, code: string): Verdict {
    if !LooksLikeCode(code) then CodeInvalid else
    var i := Newest(s.rows, email, purpose, code);
    if i.None? then CodeInvalid
    else if s.rows[i.value].used then CodeUsed
    else if s.now > s.rows[i.value].expiresAt then CodeExpired
    else Good(i.value)
  }

  function Verify(s: State, rawEmail: string, purpose: string, rawCode: string): Verdict {
    var email, code := Normalised(rawEmail), Strip(rawCode);
    if email == "" || code == "" then MissingFields else Check(s, email, purpose, code)
  }

  /** Signing up uses the code up. */
  function Consume(s: State, email: string, rawCode: string): (State, Verdict) {
    var verdict := Check(s, email, "signup", Strip(rawCode));
    if verdict.Good? && verdict.row < |s.rows|
    then (s.(rows := s.rows[verdict.row := s.rows[verdict.row].(used := true)]), verdict) else (s, verdict)
  }

  datatype Event =
    | Tick(time: nat)
    | Sending(email: string, purpose: string, wellFormed: bool, registered: bool, code: Code, took: nat, mail: Mail)
    | SigningUp(email: string, attempt: string)

  function Step(s: State, e: Event): State {
    match e
    case Tick(time) => s.(now := s.now + time)
    case Sending(email, purpose, wellFormed, registered, code, took, mail) =>
      Send(s, email, purpose, wellFormed, registered, code, took, mail).0
    case SigningUp(email, attempt) => Consume(s, email, attempt).0
  }

  function Run(s: State, events: seq<Event>): State
    decreases |events|
  {
    if events == [] then s else Run(Step(s, events[0]), events[1..])
  }

  class EmailCodeRoutes {
    var now: int
    var rows: seq<Row>

    function Now(): State
      reads this
    {
      State(now, rows)
    }

    method SendEmailCode(rawEmail: string, purpose: string, wellFormed: bool, registered: bool, code: Code, took: nat,
        mail: Mail)
      returns (outcome: SendOutcome)
      modifies this
      ensures (Now(), outcome) == Send(old(Now()), rawEmail, purpose, wellFormed, registered, code, took, mail)
    {
      var email := Lower(Strip(rawEmail));
      if email == "" || !wellFormed {
        return EmailInvalid;
      }
      if purpose != "signup" {
        return PurposeInvalid;
      }
      if registered {
        return AlreadyRegistered;
      }
      var sent := Sent(rows, email, purpose);
      if Since(sent, now - RESEND_GAP) > 0 {
        return TooFast;
      }
      if Since(sent, now - HOUR) >= HOURLY_LIMIT {
        return HourlyLimit;
      }
      now := now + took;
      rows := Marked(rows, UnusedFor(email, purpose));
      rows := rows + [Row(email, purpose, code, now, now + CODE_LIFE, false)];
      if mail.Delivered? {
        return CodeSent;
      }
      if mail.marked {
        rows := Marked(rows, WithCode(email, purpose, code));
      }
      outcome := DeliveryFailed;
    }

    method VerifyEmailCode(rawEmail: string, purpose: string, rawCode: string) returns (verdict: Verdict)
      ensures verdict == Verify(Now(), rawEmail, purpose, rawCode)
    {
      var email, code := Lower(Strip(rawEmail)), Strip(rawCode);
      if email == "" || code == "" {
        return MissingFields;
      }
      if !LooksLikeCode(code) {
        return CodeInvalid;
      }
      var i := Newest(rows, email, purpose, code);
      if i.None? {
        return CodeInvalid;
      }
      if rows[i.value].used {
        return CodeUsed;
      }
      if now > rows[i.value].expiresAt {
        return CodeExpired;
      }
      verdict := Good(i.value);
    }
  }

  // --- the invariant of every run ---

  /** An unused code is the newest one sent to its address for its purpose. */
  predicate NewestUnused(rows: seq<Row>) {
    forall i, j :: 0 <= i < j < |rows| && !rows[i].used ==> !IsFor(rows[j], rows[i].email, rows[i].purpose)
  }

  predicate RowsOk(rows: seq<Row>, now: int) {
    forall i :: 0 <= i < |rows| ==>
      SixDigits(rows[i].code) && rows[i].sentAt <= now && rows[i].expiresAt == rows[i].sentAt + CODE_LIFE
  }

  predicate Spaced(times: seq<int>) {
    forall i, j :: 0 <= i < j < |times| ==> times[i] + RESEND_GAP <= times[j]
  }

  ghost predicate TimesOk(times: seq<int>, now: int) {
    UpTo(times, now) && Spaced(times) && Limited(times, HOUR, HOURLY_LIMIT)
  }

  ghost predicate Inv(s: State) {
    NewestUnused(s.rows) && RowsOk(s.rows, s.now)
      && forall email, purpose :: TimesOk(Sent(s.rows, email, purpose), s.now)
  }

  /** Marking rows used neither adds nor moves any. */
  predicate OnlyMarks(was: seq<Row>, rows: seq<Row>) {
    |rows| == |was| && forall i :: 0 <= i < |was| ==> rows[i] == was[i] || rows[i] == was[i].(used := true)
  }

  lemma {:induction false} MarksKeepSent(was: seq<Row>, rows: seq<Row>, email: string, purpose: string)
    requires OnlyMarks(was, rows)
    ensures Sent(rows, email, purpose) == Sent(was, email, purpose)
  {
    if was != [] {
      MarksKeepSent(was[..|was| - 1], rows[..|rows| - 1], email, purpose);
    }
  }

  lemma MarksKeepInv(s: State, rows: seq<Row>)
    requires Inv(s) && OnlyMarks(s.rows, rows)
    ensures Inv(s.(rows := rows))
  {
    forall email, purpose ensures TimesOk(Sent(rows, email, purpose), s.now) {
      MarksKeepSent(s.rows, rows, email, purpose);
    }
  }

  lemma LaterInv(s: State, now: int)
    requires Inv(s) && s.now <= now
    ensures Inv(s.(now := now))
  {
    forall email, purpose ensures TimesOk(Sent(s.rows, email, purpose), now) {
      assert TimesOk(Sent(s.rows, email, purpose), s.now);
    }
  }

  lemma SentGrows(rows: seq<Row>, row: Row, email: string, purpose: string)
    ensures Sent(rows + [row], email, purpose)
      == Sent(rows, email, purpose) + (if IsFor(row, email, purpose) then [row.sentAt] else [])
  {
    assert (rows + [row])[..|rows|] == rows;
  }

  lemma TimesGrow(times: seq<int>, now: int, at: int)
    requires TimesOk(times, now) && now <= at
    requires Since(times, now - RESEND_GAP) == 0 && Since(times, now - HOUR) < HOURLY_LIMIT
    ensures TimesOk(times + [at], at)
  {
    Admit(times, HOUR, HOURLY_LIMIT, now, at);
    NoneSince(times, now - RESEND_GAP);
  }

  lemma ReplacedInv(s: State, email: string, purpose: string, code: Code, at: int)
    requires Inv(s) && Refusal(s, email, purpose, true, false).None? && s.now <= at
    ensures Inv(State(at, Replaced(s.rows, email, purpose, code, at)))
  {
    forall e, p ensures TimesOk(Sent(Replaced(s.rows, email, purpose, code, at), e, p), at) {
      ReplacedTimes(s, email, purpose, code, at, e, p);
    }
    ReplacedRows(s, email, purpose, code, at);
  }

  lemma ReplacedRows(s: State, email: string, purpose: string, code: Code, at: int)
    requires NewestUnused(s.rows) && RowsOk(s.rows, s.now) && s.now <= at
    ensures NewestUnused(Replaced(s.rows, email, purpose, code, at))
    ensures RowsOk(Replaced(s.rows, email, purpose, code, at), at)
  {
  }

  lemma ReplacedTimes(s: State, email: string, purpose: string, code: Code, at: int, e: string, p: string)
    requires TimesOk(Sent(s.rows, e, p), s.now) && s.now <= at && Refusal(s, email, purpose, true, false).None?
    ensures TimesOk(Sent(Replaced(s.rows, email, purpose, code, at), e, p), at)
  {
    var marked := Marked(s.rows, UnusedFor(email, purpose));
    MarksKeepSent(s.rows, marked, e, p);
    SentGrows(marked, Row(email, purpose, code, at, at + CODE_LIFE, false), e, p);
    if e == email && p == purpose {
      TimesGrow(Sent(s.rows, e, p), s.now, at);
    } else {
      assert Sent(marked, e, p) + [] == Sent(marked, e, p);
    }
  }

  lemma SendInv(s: State, rawEmail: string, purpose: string, wellFormed: bool, registered: bool, code: Code, took: nat,
      mail: Mail)
    requires Inv(s)
    ensures Inv(Send(s, rawEmail, purpose, wellFormed, registered, code, took, mail).0)
  {
    var email, at := Normalised(rawEmail), s.now + took;
    if Refusal(s, email, purpose, wellFormed, registered).None? {
      var rows := Replaced(s.rows, email, purpose, code, at);
      ReplacedInv(s, email, purpose, code, at);
      MailedInv(rows, email, purpose, code, at, mail);
      assert Send(s, rawEmail, purpose, wellFormed, registered, code, took, mail).0
        == Mailed(rows, email, purpose, code, at, mail);
    } else {
      assert Send(s, rawEmail, purpose, wellFormed, registered, code, took, mail).0 == s;
    }
  }

  lemma MailedInv(rows: seq<Row>, email: string, purpose: string, code: Code, at: int, mail: Mail)
    requires Inv(State(at, rows))
    ensures Inv(Mailed(rows, email, purpose, code, at, mail))
  {
    MarksKeepInv(State(at, rows), Marked(rows, WithCode(email, purpose, code)));
  }

  lemma StepInv(s: State, e: Event)
    requires Inv(s)
    ensures Inv(Step(s, e))
  {
    match e {
      case Tick(time) => LaterInv(s, s.now + time);
      case Sending(rawEmail, purpose, wellFormed, registered, code, took, mail) =>
        SendInv(s, rawEmail, purpose, wellFormed, registered, code, took, mail);
      case SigningUp(email, attempt) => MarksKeepInv(s, Consume(s, email, attempt).0.rows);
    }
  }

  lemma {:induction false} RunInv(s: State, events: seq<Event>)
    requires Inv(s)
    ensures Inv(Run(s, events))
    decreases |events|
  {
    if events != [] {
      StepInv(s, events[0]);
      RunInv(Step(s, events[0]), events[1..]);
    }
  }

  /** Reached from an empty table by some run. */
  ghost predicate Reachable(s: State) {
    exists now, events :: Run(State(now, []), events) == s
  }

  lemma ReachableInv(s: State)
    requires Reachable(s)
    ensures Inv(s)
  {
    var now, events :| Run(State(now, []), events) == s;
    RunInv(State(now, []), events);
  }

  // --- what holds in every reachable state ---

  /** The place of the newest row sent to this address for this purpose. */
  function NewestFor(rows: seq<Row>, email: string, purpose: string): (i: Option<nat>)
    ensures i.Some? ==> i.value < |rows| && IsFor(rows[i.value], email, purpose)
    ensures i.Some? ==> forall j :: i.value < j < |rows| ==> !IsFor(rows[j], email, purpose)
    ensures i.None? ==> forall j :: 0 <= j < |rows| ==> !IsFor(rows[j], email, purpose)
  {
    if rows == [] then None
    else if IsFor(rows[|rows| - 1], email, purpose) then Some(|rows| - 1)
    else NewestFor(rows[..|rows| - 1], email, purpose)
  }

  /** At most one code is unused for each address and purpose, and it is the newest. */
  lemma OneUnusedCode(s: State, i: nat)
    requires Reachable(s) && i < |s.rows| && !s.rows[i].used
    ensures NewestFor(s.rows, s.rows[i].email, s.rows[i].purpose) == Some(i)
  {
    ReachableInv(s);
    var newest := NewestFor(s.rows, s.rows[i].email, s.rows[i].purpose);
    assert IsFor(s.rows[i], s.rows[i].email, s.rows[i].purpose);
  }

  /** A code verifies exactly when it is that of the newest row, unused, and at most ten minutes old. */
  lemma VerifiesOnlyNewest(s: State, rawEmail: string, purpose: string, rawCode: string)
    requires Reachable(s) && Normalised(rawEmail) != ""
    ensures Verify(s, rawEmail, purpose, rawCode).Good? <==>
      var newest := NewestFor(s.rows, Normalised(rawEmail), purpose);
      newest.Some? && var row := s.rows[newest.value];
      row.code == Strip(rawCode) && !row.used && s.now <= row.sentAt + CODE_LIFE
  {
    ReachableInv(s);
    var email, code := Normalised(rawEmail), Strip(rawCode);
    var newest := NewestFor(s.rows, email, purpose);
    var found := Newest(s.rows, email, purpose, code);
    if Verify(s, rawEmail, purpose, rawCode).Good? {
      assert IsFor(s.rows[found.value], email, purpose) && !s.rows[found.value].used;
      assert found == newest;
    } else if newest.Some? && s.rows[newest.value].code == code {
      assert WithCode(email, purpose, code)(s.rows[newest.value]);
      assert SixDigits(s.rows[newest.value].code);
      assert found == newest;
    }
  }

  /** Once a mail could not be delivered, its address has a live code exactly when marking it used failed too. */
  lemma FailureLeavesNoCode(s: State, rawEmail: string, purpose: string, code: Code, took: nat, marked: bool)
    requires Reachable(s) && Refusal(s, Normalised(rawEmail), purpose, true, false).None? && Normalised(rawEmail) != ""
    ensures var after := Send(s, rawEmail, purpose, true, false, code, took, Failed(marked)).0;
      !marked <==>
        exists i :: 0 <= i < |after.rows| && IsFor(after.rows[i], Normalised(rawEmail), purpose) && !after.rows[i].used
  {
    var email := Normalised(rawEmail);
    var rows := Replaced(s.rows, email, purpose, code, s.now + took);
    assert IsFor(rows[|s.rows|], email, purpose) && !rows[|s.rows|].used;
  }

  /** Codes for one address are at least a minute apart, at most five in any hour. */
  lemma CodesAreLimited(s: State, email: string, purpose: string)
    requires Reachable(s)
    ensures Spaced(Sent(s.rows, email, purpose)) && Limited(Sent(s.rows, email, purpose), HOUR, HOURLY_LIMIT)
  {
    ReachableInv(s);
    assert TimesOk(Sent(s.rows, email, purpose), s.now);
  }
}
