/**
 Admin approve and reject (routes/billing_topup_routes.py) as they interleave in
 the database at READ COMMITTED: approve reads its request under a row lock,
 reject reads without one and meets the lock only at its UPDATE.
 */
module TopupInterleaving {
  import opened Common
  import opened Topup

  datatype Kind = Approver(amount: int) | Rejecter

  /** `SawPending` is the rejecter between its plain SELECT and its UPDATE. */
  datatype Phase = Started | SawPending | HoldsLock | Wrote | Committed | Aborted

  datatype Admin = Admin(kind: Kind, req: nat, phase: Phase)

  datatype CreditRow = CreditRow(req: nat, amount: int, admin: nat)

  /** Committed statuses, row locks, committed credits and the transactions in flight. */
  datatype State = State(status: map<nat, Status>, lock: map<nat, nat>, credits: seq<CreditRow>, admins: map<nat,
      Admin>)

  datatype Action = Begin(kind: Kind, req: nat) | Read | Write | Commit | Crash

  function Free(s: State, req: nat): State { s.(lock := s.lock - {req}) }

  function Goto(s: State, tx: nat, phase: Phase): State
    requires tx in s.admins
  {
    s.(admins := s.admins[tx := s.admins[tx].(phase := phase)])
  }

  function Take(s: State, tx: nat, req: nat): State { s.(lock := s.lock[req := tx]) }

  /** One step of one transaction; a step that has to wait, or makes no sense, changes nothing. */
  function Act(s: State, tx: nat, a: Action): State {
    if a.Begin? then
      (if tx in s.admins then s else s.(admins := s.admins[tx := Admin(a.kind, a.req, Started)]))
    else if tx !in s.admins then s
    else
      var me := s.admins[tx];
      match a
      case Read =>
        if me.phase != Started then s
        else if me.req !in s.status then Goto(s, tx, Aborted)
        else if me.kind.Rejecter? then Goto(s, tx, if s.status[me.req] == Pending then SawPending else Aborted)
        else if me.req in s.lock then s
        else if s.status[me.req] == Pending then Goto(Take(s, tx, me.req), tx, HoldsLock)
        else Goto(s, tx, Aborted)
      case Write =>
        if me.phase == HoldsLock then Goto(s, tx, Wrote)
        else if me.phase == SawPending && me.req !in s.lock then Goto(Take(s, tx, me.req), tx, Wrote)
        else s
      case Commit =>
        if me.phase != Wrote then s
        else if me.kind.Rejecter? then Goto(Free(s.(status := s.status[me.req := Rejected]), me.req), tx, Committed)
        else Goto(Free(s.(status := s.status[me.req := Approved],
                          credits := s.credits + [CreditRow(me.req, me.kind.amount, tx)]), me.req), tx, Committed)
      case Crash =>
        if me.phase == Committed || me.phase == Aborted then s
        else Goto(if me.phase == HoldsLock || me.phase == Wrote then Free(s, me.req) else s, tx, Aborted)
  }

  type Schedule = seq<(nat, Action)>

  function Play(s: State, run: Schedule): State
    decreases |run|
  {
    if run == [] then s else Play(Act(s, run[0].0, run[0].1), run[1..])
  }

  predicate IsCredit(s: State, i: int, req: nat) {
    0 <= i < |s.credits| && s.credits[i].req == req
  }

  ghost predicate IsCredited(s: State, req: nat) {
    exists i :: IsCredit(s, i, req)
  }

  predicate Holding(a: Admin) { a.phase == HoldsLock || a.phase == Wrote }

  /** A lock and its holder agree, and an approver inside its lock still faces a pending request. */
  ghost predicate LocksOk(s: State) {
    forall tx {:trigger s.admins[tx]} :: tx in s.admins ==> AdminOk(s, tx, s.admins[tx])
  }

  predicate AdminOk(s: State, tx: nat, me: Admin) {
    && (Holding(me) ==> me.req in s.lock && s.lock[me.req] == tx && me.req in s.status)
    && (Holding(me) && me.kind.Approver? ==> s.status[me.req] == Pending)
    && (me.phase == SawPending ==> me.kind.Rejecter? && me.req in s.status)
    && (me.phase == HoldsLock ==> me.kind.Approver?)
  }

  /** No credit while pending, at most one ever, and one for every approved request. */
  ghost predicate CreditsOk(s: State) {
    && (forall i {:trigger s.credits[i]} :: 0 <= i < |s.credits| ==>
      s.credits[i].req in s.status && s.status[s.credits[i].req] != Pending)
    && (forall i, j, req :: IsCredit(s, i, req) && IsCredit(s, j, req) ==> i == j)
    && (forall req :: req in s.status && s.status[req] == Approved ==> IsCredited(s, req))
  }

  ghost predicate Sane(s: State) { LocksOk(s) && CreditsOk(s) }

  lemma ActKeepsLocks(s: State, tx: nat, a: Action)
    requires LocksOk(s)
    ensures LocksOk(Act(s, tx, a))
  {
    var t := Act(s, tx, a);
    forall x | x in t.admins ensures AdminOk(t, x, t.admins[x]) {
      if x in s.admins {
        assert AdminOk(s, x, s.admins[x]);
      }
      if tx in s.admins {
        assert AdminOk(s, tx, s.admins[tx]);
      }
    }
  }

  predicate Approves(s: State, tx: nat, a: Action) {
    a.Commit? && tx in s.admins && s.admins[tx].phase == Wrote && s.admins[tx].kind.Approver?
  }

  lemma ActKeepsCredits(s: State, tx: nat, a: Action)
    requires LocksOk(s) && CreditsOk(s)
    ensures CreditsOk(Act(s, tx, a))
  {
    var t := Act(s, tx, a);
    if Approves(s, tx, a) {
      var req := s.admins[tx].req;
      assert AdminOk(s, tx, s.admins[tx]);
      forall i | 0 <= i < |s.credits| ensures s.credits[i].req != req && t.credits[i] == s.credits[i] {}
      forall r | r in t.status && t.status[r] == Approved ensures IsCredited(t, r) {
        if r == req {
          assert IsCredit(t, |s.credits|, r);
        } else {
          var i :| IsCredit(s, i, r);
          assert IsCredit(t, i, r);
        }
      }
      forall i, j, r | IsCredit(t, i, r) && IsCredit(t, j, r) ensures i == j {
        assert i < |s.credits| ==> IsCredit(s, i, r);
        assert j < |s.credits| ==> IsCredit(s, j, r);
      }
    } else {
      assert t.credits == s.credits;
      forall i, r ensures IsCredit(t, i, r) == IsCredit(s, i, r) {}
      forall r | IsCredited(s, r) ensures IsCredited(t, r) {
        var i :| IsCredit(s, i, r);
        assert IsCredit(t, i, r);
      }
    }
  }

  lemma ActSane(s: State, tx: nat, a: Action)
    requires Sane(s)
    ensures Sane(Act(s, tx, a))
    ensures forall req :: req in s.status ==>
      req in Act(s, tx, a).status && (s.status[req] != Pending ==> Act(s, tx, a).status[req] != Pending)
  {
    ActKeepsLocks(s, tx, a);
    ActKeepsCredits(s, tx, a);
  }

  /** In every interleaving, crashes included, a request is credited at most once and never pending again. */
  lemma {:induction false} CreditedAtMostOnce(s: State, run: Schedule)
    requires Sane(s)
    ensures Sane(Play(s, run))
    ensures forall i, j :: 0 <= i < j < |Play(s, run).credits| ==>
      Play(s, run).credits[i].req != Play(s, run).credits[j].req
    ensures forall req :: req in s.status && s.status[req] != Pending ==>
      req in Play(s, run).status && Play(s, run).status[req] != Pending
    decreases |run|
  {
    if run != [] {
      ActSane(s, run[0].0, run[0].1);
      CreditedAtMostOnce(Act(s, run[0].0, run[0].1), run[1..]);
    } else {
      forall i, j | 0 <= i < j < |s.credits| ensures s.credits[i].req != s.credits[j].req {
        assert IsCredit(s, i, s.credits[i].req);
        assert IsCredit(s, j, s.credits[j].req);
      }
    }
  }

  /** Requests that nobody has credited yet, and nobody is working on. */
  lemma FreshIsSane(status: map<nat, Status>)
    requires forall req :: req in status ==> status[req] != Approved
    ensures Sane(State(status, map[], [], map[]))
  {
  }

  // --- when status and ledger part ways ---

  /** A rejecter commits over a request that was approved after it looked. */
  predicate RejectsApproved(s: State, tx: nat, a: Action, req: nat) {
    && a.Commit? && tx in s.admins && s.admins[tx].kind.Rejecter? && s.admins[tx].phase == Wrote
    && s.admins[tx].req == req && req in s.status && s.status[req] == Approved
  }

  predicate EverRejectsApproved(s: State, run: Schedule, req: nat)
    decreases |run|
  {
    run != []
      && (RejectsApproved(s, run[0].0, run[0].1, req) || EverRejectsApproved(Act(s, run[0].0, run[0].1), run[1..], req))
  }

  /** The ledger has the credit while the request says something else. */
  ghost predicate Contradicted(s: State, req: nat) {
    IsCredited(s, req) && !(req in s.status && s.status[req] == Approved)
  }

  lemma ActContradicts(s: State, tx: nat, a: Action, req: nat)
    requires Sane(s)
    ensures Contradicted(Act(s, tx, a), req) <==> Contradicted(s, req) || RejectsApproved(s, tx, a, req)
  {
    var t := Act(s, tx, a);
    if Approves(s, tx, a) {
      assert AdminOk(s, tx, s.admins[tx]);
      forall r ensures IsCredited(t, r) <==> IsCredited(s, r) || r == s.admins[tx].req {
        assert r == s.admins[tx].req ==> IsCredit(t, |s.credits|, r);
        forall i ensures IsCredit(s, i, r) ==> IsCredit(t, i, r) {}
        forall i ensures IsCredit(t, i, r) && i < |s.credits| ==> IsCredit(s, i, r) {}
      }
    } else {
      assert t.credits == s.credits;
      forall i, r ensures IsCredit(t, i, r) == IsCredit(s, i, r) {}
      assert IsCredited(t, req) <==> IsCredited(s, req);
    }
  }

  /**
   A credited request ends up not approved exactly when some reject committed over its approval:
   the reject's unlocked read is the one way in, and there is no way back.
   */
  lemma {:induction false} ContradictedExactlyWhen(s: State, run: Schedule, req: nat)
    requires Sane(s)
    ensures Contradicted(Play(s, run), req) <==> Contradicted(s, req) || EverRejectsApproved(s, run, req)
    decreases |run|
  {
    if run != [] {
      ActSane(s, run[0].0, run[0].1);
      ActContradicts(s, run[0].0, run[0].1, req);
      ContradictedExactlyWhen(Act(s, run[0].0, run[0].1), run[1..], req);
    }
  }

  // --- the overlap that leads there ---

  predicate Rejecting(s: State, tx: nat, req: nat) {
    tx in s.admins && s.admins[tx].kind.Rejecter? && s.admins[tx].req == req
  }

  /** Between its look at the request and its write. */
  predicate Looking(s: State, tx: nat, req: nat) {
    Rejecting(s, tx, req) && s.admins[tx].phase == SawPending
  }

  /** At some later step of the schedule the transaction commits. */
  predicate CommitsIn(s: State, run: Schedule, tx: nat)
    decreases |run|
  {
    run != [] &&
    ((run[0] == (tx, Commit) && tx in s.admins && s.admins[tx].phase
      == Wrote) || CommitsIn(Act(s, run[0].0, run[0].1), run[1..], tx))
  }

  /**
   An approval of the request commits while a reject of it stands between look and write, and that
   reject later commits.
   */
  predicate ApprovedUnderLook(s: State, run: Schedule, req: nat)
    decreases |run|
  {
    run != [] &&
    var (tx, a) := run[0];
    var t := Act(s, tx, a);
    || (Approves(s, tx, a) && s.admins[tx].req
      == req && exists r :: r in s.admins && Looking(s, r, req) && CommitsIn(t, run[1..], r))
    || ApprovedUnderLook(t, run[1..], req)
  }

  /** A reject that looked at the request when it was pending, and faces it approved. */
  predicate Stale(s: State, r: nat, req: nat) {
    && Rejecting(s, r, req) && (s.admins[r].phase == SawPending || s.admins[r].phase == Wrote)
    && req in s.status && s.status[req] == Approved
  }

  lemma {:induction false} OverNeverCommits(s: State, run: Schedule, tx: nat)
    requires tx in s.admins && s.admins[tx].phase in {Aborted, Committed}
    ensures !CommitsIn(s, run, tx)
    decreases |run|
  {
    if run != [] {
      OverNeverCommits(Act(s, run[0].0, run[0].1), run[1..], tx);
    }
  }

  /** A stale reject stays stale until it commits or gives up, or another reject commits over the approval. */
  lemma StaleStays(s: State, tx: nat, a: Action, r: nat, req: nat)
    requires Sane(s) && Stale(s, r, req) && !RejectsApproved(s, tx, a, req)
    ensures var t := Act(s, tx, a);
      Stale(t, r, req) || (r in t.admins && t.admins[r].phase == Aborted)
  {
    if tx in s.admins {
      assert AdminOk(s, tx, s.admins[tx]);
    }
  }

  lemma {:induction false} StaleRejects(s: State, run: Schedule, r: nat, req: nat)
    requires Sane(s) && Stale(s, r, req) && CommitsIn(s, run, r)
    ensures EverRejectsApproved(s, run, req)
    decreases |run|
  {
    var (tx, a) := run[0];
    if !RejectsApproved(s, tx, a, req) {
      ActSane(s, tx, a);
      StaleStays(s, tx, a, r, req);
      if Stale(Act(s, tx, a), r, req) {
        StaleRejects(Act(s, tx, a), run[1..], r, req);
      } else {
        OverNeverCommits(Act(s, tx, a), run[1..], r);
      }
    }
  }

  lemma ApprovalMakesStale(s: State, tx: nat, a: Action, r: nat, req: nat)
    requires Sane(s) && Approves(s, tx, a) && s.admins[tx].req == req && Looking(s, r, req)
    ensures Stale(Act(s, tx, a), r, req)
  {
    assert AdminOk(s, tx, s.admins[tx]);
  }

  lemma {:induction false} LookLeadsToContradiction(s: State, run: Schedule, req: nat)
    requires Sane(s) && ApprovedUnderLook(s, run, req)
    ensures EverRejectsApproved(s, run, req)
    decreases |run|
  {
    var (tx, a) := run[0];
    ActSane(s, tx, a);
    if ApprovedUnderLook(Act(s, tx, a), run[1..], req) {
      LookLeadsToContradiction(Act(s, tx, a), run[1..], req);
    } else {
      var r :| r in s.admins && Looking(s, r, req) && CommitsIn(Act(s, tx, a), run[1..], r);
      ApprovalMakesStale(s, tx, a, r, req);
      StaleRejects(Act(s, tx, a), run[1..], r, req);
    }
  }

  /** A reject that is stale after a step was so before, or was looking when this step approved. */
  lemma StaleFrom(s: State, tx: nat, a: Action, r: nat, req: nat)
    requires Sane(s) && Stale(Act(s, tx, a), r, req)
    ensures Stale(s, r, req) || (Approves(s, tx, a) && s.admins[tx].req == req && Looking(s, r, req))
  {
    if tx in s.admins {
      assert AdminOk(s, tx, s.admins[tx]);
    }
    if r in s.admins {
      assert AdminOk(s, r, s.admins[r]);
    }
  }

  ghost predicate StaleCommits(s: State, run: Schedule, req: nat) {
    exists r :: Stale(s, r, req) && CommitsIn(s, run, r)
  }

  lemma {:induction false} ContradictionComesFromLook(s: State, run: Schedule, req: nat)
    requires Sane(s) && EverRejectsApproved(s, run, req)
    ensures ApprovedUnderLook(s, run, req) || StaleCommits(s, run, req)
    decreases |run|
  {
    var (tx, a) := run[0];
    if RejectsApproved(s, tx, a, req) {
      assert Stale(s, tx, req) && CommitsIn(s, run, tx);
    } else {
      var t := Act(s, tx, a);
      ActSane(s, tx, a);
      ContradictionComesFromLook(t, run[1..], req);
      if StaleCommits(t, run[1..], req) {
        var r :| Stale(t, r, req) && CommitsIn(t, run[1..], r);
        StaleFrom(s, tx, a, r, req);
        assert CommitsIn(s, run, r);
      }
    }
  }

  /**
   From a state in which no reject is stale yet, a credited request ends up not approved exactly when an
   approval of it commits between the look and the write of a reject that commits later.
   */
  lemma ContradictedByOverlap(s: State, run: Schedule, req: nat)
    requires Sane(s) && !Contradicted(s, req) && forall r :: !Stale(s, r, req)
    ensures Contradicted(Play(s, run), req) <==> ApprovedUnderLook(s, run, req)
  {
    ContradictedExactlyWhen(s, run, req);
    if EverRejectsApproved(s, run, req) {
      ContradictionComesFromLook(s, run, req);
    }
    if ApprovedUnderLook(s, run, req) {
      LookLeadsToContradiction(s, run, req);
    }
  }

  predicate NobodyLooks(s: State) {
    forall tx :: tx in s.admins ==> s.admins[tx].phase != SawPending
  }

  predicate StartsLook(s: State, tx: nat, a: Action) {
    a.Read? && tx in s.admins && Looking(Act(s, tx, a), tx, s.admins[tx].req)
  }

  /** Every reject that looks finds the request unlocked, and writes in the very next step. */
  predicate Undisturbed(s: State, run: Schedule)
    decreases |run|
  {
    run == [] ||
    var (tx, a) := run[0];
    && (StartsLook(s, tx, a) ==> s.admins[tx].req !in s.lock && |run| > 1 && run[1] == (tx, Write))
    && Undisturbed(Act(s, tx, a), run[1..])
  }

  lemma {:induction false} UndisturbedNeverUnderLook(s: State, run: Schedule, req: nat)
    requires NobodyLooks(s) && Undisturbed(s, run)
    ensures !ApprovedUnderLook(s, run, req)
    decreases |run|
  {
    if run != [] {
      var (tx, a) := run[0];
      var t := Act(s, tx, a);
      if StartsLook(s, tx, a) {
        var rest := run[1..];
        assert rest[0] == run[1];
        assert t.admins[tx].phase == SawPending && t.admins[tx].req !in t.lock;
        assert NobodyLooks(Act(t, tx, Write));
        UndisturbedNeverUnderLook(Act(t, tx, Write), rest[1..], req);
      } else {
        UndisturbedNeverUnderLook(t, run[1..], req);
      }
    }
  }

  /** So rejects whose look and write nothing comes between never contradict a credit. */
  lemma UndisturbedNeverContradicts(s: State, run: Schedule, req: nat)
    requires Sane(s) && !Contradicted(s, req) && s.admins == map[] && Undisturbed(s, run)
    ensures !Contradicted(Play(s, run), req)
  {
    UndisturbedNeverUnderLook(s, run, req);
    ContradictedByOverlap(s, run, req);
  }

  // --- and that it happens ---

  lemma PlayCons(s: State, tx: nat, a: Action, rest: Schedule)
    ensures Play(s, [(tx, a)] + rest) == Play(Act(s, tx, a), rest)
  {
    assert ([(tx, a)] + rest)[1..] == rest;
  }

  function Looked(s: State, req: nat, approver: nat, rejecter: nat, amount: int): State {
    s.(admins := s.admins[approver := Admin(Approver(amount), req, Started)][rejecter := Admin(Rejecter, req,
      SawPending)])
  }

  function ApprovedBy(s: State, req: nat, approver: nat, amount: int): State {
    s.(status := s.status[req := Approved], credits := s.credits + [CreditRow(req, amount, approver)],
       admins := s.admins[approver := Admin(Approver(amount), req, Committed)])
  }

  function RejectedBy(s: State, req: nat, rejecter: nat): State {
    s.(status := s.status[req := Rejected], admins := s.admins[rejecter := Admin(Rejecter, req, Committed)])
  }

  lemma BothBegin(s: State, req: nat, approver: nat, rejecter: nat, amount: int)
    requires req in s.status && s.status[req] == Pending && approver != rejecter && approver !in s.admins
    requires rejecter !in s.admins
    ensures Play(s, [(approver, Begin(Approver(amount), req)), (rejecter, Begin(Rejecter, req)), (rejecter, Read)])
      == Looked(s, req, approver, rejecter, amount)
  {
    PlayThree(s, (approver, Begin(Approver(amount), req)), (rejecter, Begin(Rejecter, req)), (rejecter, Read));
  }

  lemma ApproveThrough(s: State, req: nat, approver: nat, amount: int)
    requires approver in s.admins && s.admins[approver] == Admin(Approver(amount), req, Started)
    requires req in s.status && s.status[req] == Pending && req !in s.lock
    ensures Play(s, [(approver, Read), (approver, Write), (approver, Commit)]) == ApprovedBy(s, req, approver, amount)
  {
    PlayThree(s, (approver, Read), (approver, Write), (approver, Commit));
    assert s.lock[req := approver] - {req} == s.lock;
  }

  lemma RejectThrough(s: State, req: nat, rejecter: nat)
    requires rejecter in s.admins && s.admins[rejecter] == Admin(Rejecter, req, SawPending) && req in s.status
    requires req !in s.lock
    ensures Play(s, [(rejecter, Write), (rejecter, Commit), (rejecter, Crash)]) == RejectedBy(s, req, rejecter)
  {
    PlayThree(s, (rejecter, Write), (rejecter, Commit), (rejecter, Crash));
    assert s.lock[req := rejecter] - {req} == s.lock;
  }

  lemma PlayThree(s: State, a: (nat, Action), b: (nat, Action), c: (nat, Action))
    ensures Play(s, [a, b, c]) == Act(Act(Act(s, a.0, a.1), b.0, b.1), c.0, c.1)
  {
    assert [a, b, c] == [a] + ([b] + ([c] + []));
    PlayCons(s, a.0, a.1, [b] + ([c] + []));
    PlayCons(Act(s, a.0, a.1), b.0, b.1, [c] + []);
    PlayCons(Act(Act(s, a.0, a.1), b.0, b.1), c.0, c.1, []);
  }

  lemma {:induction false} PlayAppend(s: State, a: Schedule, b: Schedule)
    ensures Play(s, a + b) == Play(Play(s, a), b)
    decreases |a|
  {
    if a == [] {
      assert a + b == b;
    } else {
      PlayAppend(Act(s, a[0].0, a[0].1), a[1..], b);
      assert (a + b)[1..] == a[1..] + b;
    }
  }

  lemma InTurn(s: State, a: Schedule, s1: State, b: Schedule, s2: State, c: Schedule, s3: State)
    requires Play(s, a) == s1 && Play(s1, b) == s2 && Play(s2, c) == s3
    ensures Play(s, a + b + c) == s3
  {
    PlayAppend(s, a, b);
    PlayAppend(s, a + b, c);
  }

  function Look(req: nat, approver: nat, rejecter: nat, amount: int): Schedule {
    [(approver, Begin(Approver(amount), req)), (rejecter, Begin(Rejecter, req)), (rejecter, Read)]
  }

  function Race(req: nat, approver: nat, rejecter: nat, amount: int): Schedule {
    Look(req, approver, rejecter, amount)
    + [(approver, Read), (approver, Write), (approver, Commit)]
      + [(rejecter, Write), (rejecter, Commit), (rejecter, Crash)]
  }

  function RaceEnd(s: State, req: nat, approver: nat, rejecter: nat, amount: int): State {
    RejectedBy(ApprovedBy(Looked(s, req, approver, rejecter, amount), req, approver, amount), req, rejecter)
  }

  lemma RaceRuns(s: State, req: nat, approver: nat, rejecter: nat, amount: int)
    requires req in s.status && s.status[req] == Pending && req !in s.lock
    requires approver != rejecter && approver !in s.admins && rejecter !in s.admins
    ensures Play(s, Race(req, approver, rejecter, amount)) == RaceEnd(s, req, approver, rejecter, amount)
  {
    var s1 := Looked(s, req, approver, rejecter, amount);
    var s2 := ApprovedBy(s1, req, approver, amount);
    BothBegin(s, req, approver, rejecter, amount);
    ApproveThrough(s1, req, approver, amount);
    RejectThrough(s2, req, rejecter);
    InTurn(s, Look(req, approver, rejecter, amount), s1, [(approver, Read), (approver, Write), (approver, Commit)], s2,
           [(rejecter, Write), (rejecter, Commit), (rejecter, Crash)], RejectedBy(s2, req, rejecter));
  }

  /** From `s` to `t` the request was credited and then rejected. */
  ghost predicate CreditedThenRejected(s: State, t: State, req: nat, approver: nat, amount: int) {
    Contradicted(t, req) && t.credits == s.credits + [CreditRow(req, amount, approver)] && t.status
      == s.status[req := Rejected]
  }

  /** It can happen, to any pending request: the rejecter looks, the approver credits, the rejecter writes. */
  lemma RejectAfterCredit(s: State, req: nat, approver: nat, rejecter: nat, amount: int)
    requires req in s.status && s.status[req] == Pending && req !in s.lock
    requires approver != rejecter && approver !in s.admins && rejecter !in s.admins
    ensures CreditedThenRejected(s, Play(s, Race(req, approver, rejecter, amount)), req, approver, amount)
  {
    RaceRuns(s, req, approver, rejecter, amount);
    var t := RaceEnd(s, req, approver, rejecter, amount);
    assert t.status == s.status[req := Rejected];
    assert IsCredit(t, |s.credits|, req);
  }

  // --- what was credited ---

  predicate CreditFits(s: State, c: CreditRow) {
    c.admin in s.admins && s.admins[c.admin] == Admin(Approver(c.amount), c.req, Committed)
  }

  predicate HasApproved(a: Admin) { a.kind.Approver? && a.phase == Committed }

  ghost predicate IsCreditBy(s: State, i: int, tx: nat) {
    0 <= i < |s.credits| && s.credits[i].admin == tx
  }

  /** Credits and committed approvals match one to one, at the amount the admin gave. */
  ghost predicate CreditsMatch(s: State) {
    && (forall i {:trigger s.credits[i]} :: 0 <= i < |s.credits| ==> CreditFits(s, s.credits[i]))
    && (forall i, j, tx :: IsCreditBy(s, i, tx) && IsCreditBy(s, j, tx) ==> i == j)
    && (forall tx {:trigger s.admins[tx]} :: tx in s.admins && HasApproved(s.admins[tx]) ==>
      exists i :: IsCreditBy(s, i, tx))
  }

  /** No step but an approver's commit adds a credit or makes a transaction one that approved. */
  lemma ActAdds(s: State, tx: nat, a: Action)
    ensures var t := Act(s, tx, a);
      && t.credits == s.credits + (if Approves(s, tx, a)
                                   then [CreditRow(s.admins[tx].req, s.admins[tx].kind.amount, tx)] else [])
      && (forall x :: x in s.admins && HasApproved(s.admins[x]) ==> x in t.admins && t.admins[x] == s.admins[x])
      && (forall x :: x in t.admins && HasApproved(t.admins[x]) ==>
        (x in s.admins && HasApproved(s.admins[x])) || (x == tx && Approves(s, tx, a)))
      && (Approves(s, tx, a) ==> tx in t.admins && t.admins[tx] == s.admins[tx].(phase := Committed))
  {
  }

  lemma ActMatches(s: State, tx: nat, a: Action)
    requires CreditsMatch(s)
    ensures CreditsMatch(Act(s, tx, a))
  {
    var t := Act(s, tx, a);
    ActAdds(s, tx, a);
    forall i | 0 <= i < |s.credits| ensures t.credits[i] == s.credits[i] && CreditFits(t, s.credits[i]) {
      assert CreditFits(s, s.credits[i]);
    }
    forall i, j, x | IsCreditBy(t, i, x) && IsCreditBy(t, j, x) ensures i == j {
      assert i < |s.credits| ==> IsCreditBy(s, i, x) && CreditFits(s, s.credits[i]);
      assert j < |s.credits| ==> IsCreditBy(s, j, x) && CreditFits(s, s.credits[j]);
    }
    forall x | x in t.admins && HasApproved(t.admins[x]) ensures exists i :: IsCreditBy(t, i, x) {
      if x in s.admins && HasApproved(s.admins[x]) {
        var i :| IsCreditBy(s, i, x);
        assert IsCreditBy(t, i, x);
      } else {
        assert IsCreditBy(t, |s.credits|, x);
      }
    }
  }

  /** So it stays in every schedule. */
  lemma {:induction false} CreditsAreApprovals(s: State, run: Schedule)
    requires CreditsMatch(s)
    ensures CreditsMatch(Play(s, run))
    decreases |run|
  {
    if run != [] {
      ActMatches(s, run[0].0, run[0].1);
      CreditsAreApprovals(Act(s, run[0].0, run[0].1), run[1..]);
    }
  }
}
