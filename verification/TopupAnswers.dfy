/** What each answer of the top-up handlers means for requests, wallets and the ledger. */
module TopupAnswers {
  import opened Common
  import opened Topup

  /** One ledger row and one wallet show `amount` more; every other wallet is as it was. */
  ghost predicate Moves(b: Books, c: Books, tenant: string, amount: int, request: Option<nat>) {
    && tenant in c.balances
    && c.balances[tenant] == (if tenant in b.balances then b.balances[tenant] else 0) + amount
    && c.ledger == b.ledger + [Txn(tenant, amount, c.balances[tenant], request)]
    && forall t :: t != tenant ==>
      (t in c.balances <==> t in b.balances) && (t in b.balances ==> c.balances[t] == b.balances[t])
  }

  predicate MovesNothing(b: Books, c: Books) {
    c.balances == b.balances && c.ledger == b.ledger
  }

  /** Request `id` became `r`, and no other changed. */
  predicate Becomes(b: Books, c: Books, id: nat, r: Request) {
    c.nextId == b.nextId && c.requests == b.requests[id := r]
  }

  predicate IsPending(b: Books, id: nat) {
    id in b.requests && b.requests[id].status == Pending
  }

  /** A pending request is approved at the admin's amount, which its tenant gets; any other is refused. */
  lemma ApproveCredits(b: Books, id: nat, amount: int, note: string)
    ensures var (c, answer) := Step(b, Approve(id, amount, note));
      && (answer.Done? <==> amount > 0 && IsPending(b, id))
      && (!answer.Done? ==> c == b)
      && (answer.Done? ==>
        && var r := b.requests[id];
        && Becomes(b, c, id, Request(r.tenant, amount, Approved, r.payer, r.note, r.slip))
        && Moves(b, c, r.tenant, amount, Some(id)) && answer == Done(c.balances[r.tenant])
        && Credited(c.ledger, r.tenant) == Credited(b.ledger, r.tenant) + amount)
  {
    var c := Step(b, Approve(id, amount, note)).0;
    if amount > 0 && IsPending(b, id) {
      Appended(b.ledger, c.ledger[|c.ledger| - 1], b.requests[id].tenant);
    }
  }

  /** A slip counts on a pending request of the uploader's own tenant, in a file that is not too large. */
  predicate SlipCounts(b: Books, id: nat, tenant: string, tooLarge: bool) {
    IsPending(b, id) && b.requests[id].tenant == tenant && !tooLarge
  }

  /** The transfer was found, and within a baht of what was asked. */
  predicate Matches(slip: SlipReply, asked: int) {
    slip.Transfer? && asked - 100 <= slip.amount && slip.amount <= asked + 100
  }

  predicate Noted(was: Request, now: Request, path: string, payer: string, note: string) {
    && now.tenant == was.tenant && now.slip == Some(path)
    && (payer == "" ==> now.payer == was.payer) && (payer != "" ==> now.payer == payer)
    && (note == "" ==> now.note == was.note) && (note != "" ==> now.note == note)
  }

  /** A slip that counts is stored; it credits the amount transferred exactly when that matches and can be booked. */
  lemma SlipCredits(b: Books, id: nat, tenant: string, tooLarge: bool, path: string, payer: string, note: string,
                    slip: SlipReply, dbOk: bool)
    ensures var (c, answer) := Step(b, Upload(id, tenant, tooLarge, path, payer, note, slip, dbOk));
      && (answer.Uploaded? <==> SlipCounts(b, id, tenant, tooLarge))
      && (!answer.Uploaded? ==> c == b)
      && (answer.Uploaded? ==>
        && id in c.requests && Becomes(b, c, id, c.requests[id])
        && Noted(b.requests[id], c.requests[id], path, payer, note)
        && (answer.autoApproved <==> dbOk && Matches(slip, b.requests[id].amount)))
      && (answer == Uploaded(true) ==>
        && c.requests[id].status == Approved && c.requests[id].amount == slip.amount
        && Moves(b, c, tenant, slip.amount, Some(id)))
      && (answer == Uploaded(false) ==>
        c.requests[id].status == Pending && c.requests[id].amount == b.requests[id].amount && MovesNothing(b, c))
  {
  }

  /** A pending request is rejected and nothing else changes. */
  lemma RejectMovesNothing(b: Books, id: nat, note: string)
    ensures var (c, answer) := Step(b, Reject(id, note));
      && MovesNothing(b, c)
      && (answer.Done? <==> IsPending(b, id))
      && (!answer.Done? ==> c == b)
      && (answer.Done? ==>
        && var r := b.requests[id];
        Becomes(b, c, id, Request(r.tenant, r.amount, Rejected, r.payer, r.note, r.slip)))
  {
  }

  /** An owner of a tenant opens a pending request for up to 500000 baht under a new number. */
  lemma AskOpens(b: Books, owner: bool, asker: Option<string>, amount: int, payer: string, note: string)
    ensures var (c, answer) := Step(b, Ask(owner, asker, amount, payer, note));
      && MovesNothing(b, c)
      && (answer.Created? <==> owner && asker.Some? && asker.value != "" && 1 <= amount <= 50000000)
      && (!answer.Created? ==> c == b)
      && (answer.Created? ==>
        && answer.id == b.nextId && c.nextId == b.nextId + 1
        && c.requests == b.requests[answer.id := Request(asker.value, amount, Pending, payer, note, None)])
  {
  }

  lemma ChargeDebits(b: Books, tenant: string, cost: int)
    ensures var (c, answer) := Step(b, Charge(tenant, cost));
      && c.requests == b.requests && c.nextId == b.nextId
      && (cost <= 0 ==> c == b)
      && (cost > 0 ==> Moves(b, c, tenant, -cost, None) && answer == Done(c.balances[tenant]))
  {
  }

  // --- whole runs, read off the answers ---

  /** An answer that says request `id` was credited. */
  predicate SaysCredited(e: Event, answer: Response, id: nat) {
    (e.Approve? && e.id == id && answer.Done?) || (e.Upload? && e.id == id && answer == Uploaded(true))
  }

  /** The amount that an answer says moved for this tenant. */
  function SaysMoved(b: Books, e: Event, answer: Response, tenant: string): int {
    match e
    case Approve(id, amount, _) =>
      if answer.Done? && id in b.requests && b.requests[id].tenant == tenant then amount else 0
    case Upload(_, uploader, _, _, _, _, slip, _) =>
      if answer == Uploaded(true) && uploader == tenant && slip.Transfer? then slip.amount else 0
    case Charge(payer, cost) => if payer == tenant && cost > 0 then -cost else 0
    case _ => 0
  }

  function MovedOver(b: Books, events: seq<Event>, tenant: string): int
    decreases |events|
  {
    if events == [] then 0 else
    var (c, answer) := Step(b, events[0]);
    SaysMoved(b, events[0], answer, tenant) + MovedOver(c, events[1..], tenant)
  }

  function TimesCredited(b: Books, events: seq<Event>, id: nat): nat
    decreases |events|
  {
    if events == [] then 0 else
    var (c, answer) := Step(b, events[0]);
    (if SaysCredited(events[0], answer, id) then 1 else 0) + TimesCredited(c, events[1..], id)
  }

  lemma StepMoves(b: Books, e: Event, tenant: string)
    ensures Balance(Step(b, e).0, tenant) == Balance(b, tenant) + SaysMoved(b, e, Step(b, e).1, tenant)
  {
    match e {
      case Ask(owner, asker, amount, payer, note) => AskOpens(b, owner, asker, amount, payer, note);
      case Upload(id, uploader, tooLarge, path, payer, note, slip, dbOk) =>
        SlipCredits(b, id, uploader, tooLarge, path, payer, note, slip, dbOk);
      case Approve(id, amount, note) => ApproveCredits(b, id, amount, note);
      case Reject(id, note) => RejectMovesNothing(b, id, note);
      case Charge(payer, cost) => ChargeDebits(b, payer, cost);
    }
  }

  /** Over any run a wallet changes by exactly what the answers say was credited and charged. */
  lemma {:induction false} WalletFollowsAnswers(b: Books, events: seq<Event>, tenant: string)
    ensures Balance(Run(b, events), tenant) == Balance(b, tenant) + MovedOver(b, events, tenant)
    decreases |events|
  {
    if events != [] {
      StepMoves(b, events[0], tenant);
      WalletFollowsAnswers(Step(b, events[0]).0, events[1..], tenant);
    }
  }

  /** A request is said to be credited once at most, and never when it is not pending at the start. */
  lemma {:induction false} CreditedOnce(b: Books, events: seq<Event>, id: nat)
    requires Sound(b)
    ensures TimesCredited(b, events, id) <= 1
    ensures id in b.requests && !IsPending(b, id) ==> TimesCredited(b, events, id) == 0
    decreases |events|
  {
    if events != [] {
      var c := Step(b, events[0]).0;
      StepSound(b, events[0]);
      CreditedOnce(c, events[1..], id);
      if id in b.requests {
        StepEvolves(b, events[0], id);
      }
    }
  }
}
