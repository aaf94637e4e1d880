/** What the answers of the sign-up code handlers mean, and how long a code lives. */
module EmailCodeAnswers {
  import opened Common
  import opened Strings
  import opened SlidingWindow
  import opened EmailCodes

  // --- who is sent a code ---

  /** The rows for this address and purpose that were sent after `low`. */
  function SentAfter(rows: seq<Row>, email: string, purpose: string, low: int): set<nat> {
    set i: nat | i < |rows| && rows[i].email == email && rows[i].purpose == purpose && low < rows[i].sentAt
  }

  lemma {:induction false} SinceCounts(rows: seq<Row>, email: string, purpose: string, low: int)
    ensures Since(Sent(rows, email, purpose), low) == |SentAfter(rows, email, purpose, low)|
  {
    if rows != [] {
      var rest, last := rows[..|rows| - 1], rows[|rows| - 1];
      SinceCounts(rest, email, purpose, low);
      SinceStep(Sent(rest, email, purpose), last.sentAt, low);
      SentAfterStep(rest, last, email, purpose, low);
      assert rows == rest + [last];
    }
  }

  lemma SinceStep(times: seq<int>, at: int, low: int)
    ensures Since(times + [at], low) == Since(times, low) + (if low < at then 1 else 0)
    ensures times + [] == times
  {
    assert (times + [at])[..|times|] == times;
  }

  lemma SentAfterStep(rows: seq<Row>, row: Row, email: string, purpose: string, low: int)
    ensures |SentAfter(rows + [row], email, purpose, low)|
      == |SentAfter(rows, email, purpose, low)| + (if IsFor(row, email, purpose) && low < row.sentAt then 1 else 0)
  {
    var more := if IsFor(row, email, purpose) && low < row.sentAt then {|rows|} else {};
    assert SentAfter(rows + [row], email, purpose, low) == SentAfter(rows, email, purpose, low) + more;
  }

  /** A new address that may be written to. */
  predicate MayHaveCode(email: string, purpose: string, wellFormed: bool, registered: bool) {
    email != "" && wellFormed && purpose == "signup" && !registered
  }

  /** None sent in the last minute, and fewer than five in the last hour. */
  predicate NotTooMany(s: State, email: string, purpose: string) {
    && SentAfter(s.rows, email, purpose, s.now - 60 * SECOND) == {}
    && |SentAfter(s.rows, email, purpose, s.now - 3600 * SECOND)| < 5
  }

  lemma SendExactly(s: State, rawEmail: string, purpose: string, wellFormed: bool, registered: bool, code: Code,
                    took: nat, mail: Mail)
    ensures var (after, outcome) := Send(s, rawEmail, purpose, wellFormed, registered, code, took, mail);
      var email := Normalised(rawEmail);
      var goes := MayHaveCode(email, purpose, wellFormed, registered) && NotTooMany(s, email, purpose);
      && (outcome == CodeSent <==> goes && mail == Delivered)
      && (outcome == DeliveryFailed <==> goes && mail != Delivered)
      && (!goes ==> after == s)
      && (outcome == AlreadyRegistered <==> (email != "" && wellFormed && purpose == "signup" && registered))
      && (outcome in {TooFast, HourlyLimit} <==>
          (MayHaveCode(email, purpose, wellFormed, registered) && !NotTooMany(s, email, purpose)))
  {
    RefusalExactly(s, Normalised(rawEmail), purpose, wellFormed, registered);
  }

  lemma RefusalExactly(s: State, email: string, purpose: string, wellFormed: bool, registered: bool)
    ensures var refusal := Refusal(s, email, purpose, wellFormed, registered);
      var may := MayHaveCode(email, purpose, wellFormed, registered);
      && refusal !in {Some(CodeSent), Some(DeliveryFailed)}
      && (refusal == None <==> may && NotTooMany(s, email, purpose))
      && (refusal in {Some(TooFast), Some(HourlyLimit)} <==> may && !NotTooMany(s, email, purpose))
      && (refusal == Some(AlreadyRegistered) <==> (email != "" && wellFormed && purpose == "signup" && registered))
  {
    SinceCounts(s.rows, email, purpose, s.now - 60 * SECOND);
    SinceCounts(s.rows, email, purpose, s.now - 3600 * SECOND);
    assert |SentAfter(s.rows, email, purpose, s.now - 60 * SECOND)| == 0
      <==> SentAfter(s.rows, email, purpose, s.now - 60 * SECOND) == {};
  }

  /** Spaces around an address and the case of its letters make no difference. */
  lemma NormalisedIgnores(before: string, email: string, after: string, again: string)
    requires AllSpaces(before) && AllSpaces(after) && SameButCase(email, again)
    ensures Normalised(before + again + after) == Normalised(email)
  {
    LowerStrips(before + again + after);
    LowerStrips(email);
    FoldIgnores(before, email, after, again);
  }

  lemma PlainNormalised(email: string)
    requires forall i :: 0 <= i < |email| ==> !('A' <= email[i] <= 'Z')
    requires email != "" ==> !IsSpace(email[0]) && !IsSpace(email[|email| - 1])
    ensures Normalised(email) == email
  {
    StripNothing(email);
    PlainLower(email);
  }

  // --- how long a code lives ---

  /** Row `k` is an unused row for this address, with this code, and the newest for it. */
  predicate Live(s: State, k: nat, email: string, code: string, sentAt: int) {
    && k < |s.rows| && s.rows[k] == Row(email, "signup", code, sentAt, sentAt + 600 * SECOND, false)
    && forall j :: k < j < |s.rows| ==> !IsFor(s.rows[j], email, "signup")
  }

  lemma SendMakesLive(s: State, rawEmail: string, purpose: string, wellFormed: bool, registered: bool, code: Code,
                      took: nat)
    requires Send(s, rawEmail, purpose, wellFormed, registered, code, took, Delivered).1 == CodeSent
    ensures var after := Send(s, rawEmail, purpose, wellFormed, registered, code, took, Delivered).0;
      && Live(after, |s.rows|, Normalised(rawEmail), code, s.now + took) && after.now == s.now + took
      && forall i :: 0 <= i < |s.rows| ==>
        after.rows[i] == if IsFor(s.rows[i], Normalised(rawEmail), purpose) then s.rows[i].(used := true) else s.rows[i]
  {
  }

  /** A code for this address is asked for, or its code is used to sign up. */
  predicate Touches(e: Event, email: string, code: string) {
    || (e.Sending? && Normalised(e.email) == email)
    || (e.SigningUp? && e.email == email && Strip(e.attempt) == code)
  }

  lemma SendSparesOthers(s: State, rawEmail: string, purpose: string, wellFormed: bool, registered: bool, code: Code,
                         took: nat, mail: Mail)
    ensures var after := Send(s, rawEmail, purpose, wellFormed, registered, code, took, mail).0;
      && |s.rows| <= |after.rows|
      && (forall i :: 0 <= i < |s.rows| && s.rows[i].email != Normalised(rawEmail) ==> after.rows[i] == s.rows[i])
      && (forall i :: |s.rows| <= i < |after.rows| ==> after.rows[i].email == Normalised(rawEmail))
  {
  }

  lemma StaysLive(s: State, e: Event, k: nat, email: string, code: string, sentAt: int)
    requires Live(s, k, email, code, sentAt) && !Touches(e, email, code)
    ensures Live(Step(s, e), k, email, code, sentAt)
  {
    if e.Sending? {
      SendSparesOthers(s, e.email, e.purpose, e.wellFormed, e.registered, e.code, e.took, e.mail);
    }
  }

  lemma {:induction false} LiveOverRun(s: State, events: seq<Event>, k: nat, email: string, code: string, sentAt: int)
    requires Live(s, k, email, code, sentAt) && forall i :: 0 <= i < |events| ==> !Touches(events[i], email, code)
    ensures Live(Run(s, events), k, email, code, sentAt)
    decreases |events|
  {
    if events != [] {
      StaysLive(s, events[0], k, email, code, sentAt);
      LiveOverRun(Step(s, events[0]), events[1..], k, email, code, sentAt);
    }
  }

  lemma LiveVerifies(s: State, k: nat, rawEmail: string, code: Code, rawCode: string, sentAt: int)
    requires Live(s, k, Normalised(rawEmail), code, sentAt) && Normalised(rawEmail) != "" && Strip(rawCode) == code
    ensures Verify(s, rawEmail, "signup", rawCode) == if s.now <= sentAt + 600 * SECOND then Good(k) else CodeExpired
  {
    var email := Normalised(rawEmail);
    assert WithCode(email, "signup", code)(s.rows[k]);
    assert forall j :: k < j < |s.rows| ==> !WithCode(email, "signup", code)(s.rows[j]);
    assert Newest(s.rows, email, "signup", code) == Some(k);
  }

  /**
   A code that was sent verifies for ten minutes, whatever else happens, until another is asked for its
   address or it is used to sign up; after that time it is answered as expired.
   */
  lemma SentCodeVerifies(s: State, rawEmail: string, purpose: string, wellFormed: bool, registered: bool, code: Code,
                         took: nat, events: seq<Event>, again: string, rawCode: string)
    requires Send(s, rawEmail, purpose, wellFormed, registered, code, took, Delivered).1 == CodeSent
    requires forall i :: 0 <= i < |events| ==> !Touches(events[i], Normalised(rawEmail), code)
    requires Normalised(again) == Normalised(rawEmail) && Strip(rawCode) == code
    ensures var sent := Send(s, rawEmail, purpose, wellFormed, registered, code, took, Delivered).0;
      var later := Run(sent, events);
      Verify(later, again, "signup", rawCode)
      == if later.now <= sent.now + 600 * SECOND then Good(|s.rows|) else CodeExpired
  {
    var sent := Send(s, rawEmail, purpose, wellFormed, registered, code, took, Delivered).0;
    SendMakesLive(s, rawEmail, purpose, wellFormed, registered, code, took);
    LiveOverRun(sent, events, |s.rows|, Normalised(rawEmail), code, sent.now);
    LiveVerifies(Run(sent, events), |s.rows|, again, code, rawCode, sent.now);
  }

  // --- one sign-up per code ---

  predicate IsSpent(s: State, k: nat) {
    k < |s.rows| && s.rows[k].used
  }

  /** How often this row let somebody sign up. */
  function SignUps(s: State, events: seq<Event>, k: nat): nat
    decreases |events|
  {
    if events == [] then 0 else
    (if events[0].SigningUp? && Consume(s, events[0].email, events[0].attempt).1 == Good(k) then 1 else 0)
      + SignUps(Step(s, events[0]), events[1..], k)
  }

  lemma StaysSpent(s: State, e: Event, k: nat)
    requires IsSpent(s, k)
    ensures IsSpent(Step(s, e), k)
    ensures e.SigningUp? ==> Consume(s, e.email, e.attempt).1 != Good(k)
  {
  }

  lemma {:induction false} SpentNeverAgain(s: State, events: seq<Event>, k: nat)
    requires IsSpent(s, k)
    ensures SignUps(s, events, k) == 0
    decreases |events|
  {
    if events != [] {
      StaysSpent(s, events[0], k);
      SpentNeverAgain(Step(s, events[0]), events[1..], k);
    }
  }

  /** Over any run a code that was sent lets one person sign up at most. */
  lemma {:induction false} SignsUpOnce(s: State, events: seq<Event>, k: nat)
    ensures SignUps(s, events, k) <= 1
    decreases |events|
  {
    if events != [] {
      if events[0].SigningUp? && Consume(s, events[0].email, events[0].attempt).1 == Good(k) {
        ConsumeSpends(s, events[0].email, events[0].attempt, k);
        SpentNeverAgain(Step(s, events[0]), events[1..], k);
      } else {
        SignsUpOnce(Step(s, events[0]), events[1..], k);
      }
    }
  }

  /** Signing up marks exactly the row that let it through. */
  lemma ConsumeSpends(s: State, email: string, attempt: string, k: nat)
    requires Consume(s, email, attempt).1 == Good(k)
    ensures k < |s.rows| && IsFor(s.rows[k], email, "signup") && s.rows[k].code == Strip(attempt)
    ensures !s.rows[k].used && s.now <= s.rows[k].expiresAt
    ensures Consume(s, email, attempt).0 == s.(rows := s.rows[k := s.rows[k].(used := true)])
  {
  }
}
