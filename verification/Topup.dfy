/**
 Credit top-ups (routes/billing_topup_routes.py) with handlers as atomic steps,
 and the two ledger writes they meet in services/billing/charge.py. Amounts are
 in satang, a hundredth of a baht.
 */
module Topup {
  import opened Common

  datatype Status = Pending | Approved | Rejected

  datatype Request = Request(tenant: string, amount: int, status: Status, payer: string, note: string,
      slip: Option<string>)

  /** A row of `credit_transactions`; a top-up row names its request in the description. */
  datatype Txn = Txn(tenant: string, amount: int, balanceAfter: int, request: Option<nat>)

  datatype Books = Books(requests: map<nat, Request>, balances: map<string, int>, ledger: seq<Txn>, nextId: nat)

  const EMPTY := Books(map[], map[], [], 0)

  function Balance(b: Books, tenant: string): int {
    if tenant in b.balances then b.balances[tenant] else 0
  }

  const ONE_BAHT := 100
  const MAX_REQUEST := 500000 * ONE_BAHT

  /** What the slip service answered: not reachable, not a valid slip, or a transfer of some amount. */
  datatype SlipReply = NoAnswer | Invalid | Transfer(amount: int)

  /** The verified amount counts when it is within one baht of the requested one. */
  function VerifiedAmount(reply: SlipReply, expected: int): Option<int> {
    if reply.Transfer? && -ONE_BAHT <= reply.amount - expected <= ONE_BAHT then Some(reply.amount) else None
  }

  datatype Response =
    | Created(id: nat) | Uploaded(autoApproved: bool) | Done(balance: int)
    | OwnerOnly | NoTenant | BadAmount | NotFound | OtherTenant | AlreadyReviewed | FileTooLarge

  datatype Event =
    | Ask(owner: bool, asker: Option<string>, amount: int, payer: string, note: string)
    | Upload(id: nat, tenant: string, tooLarge: bool, path: string, payer: string, note: string, slip: SlipReply,
      dbOk: bool)
    | Approve(id: nat, amount: int, note: string)
    | Reject(id: nat, note: string)
    | Charge(tenant: string, cost: int)

  /** Adds to the balance, creating the wallet row if need be, and appends one ledger row. */
  function Grant(b: Books, tenant: string, amount: int, id: nat): Books {
    var after := Balance(b, tenant) + amount;
    b.(balances := b.balances[tenant := after], ledger := b.ledger + [Txn(tenant, amount, after, Some(id))])
  }

  function Debit(b: Books, tenant: string, cost: int): Books {
    var after := Balance(b, tenant) - cost;
    b.(balances := b.balances[tenant := after], ledger := b.ledger + [Txn(tenant, -cost, after, None)])
  }

  function Credit(b: Books, id: nat, amount: int): Books
    requires id in b.requests
  {
    var r := b.requests[id];
    Grant(b.(requests := b.requests[id := r.(status := Approved, amount := amount)]), r.tenant, amount, id)
  }

  function WithSlip(r: Request, path: string, payer: string, note: string): Request {
    r.(slip := Some(path), payer := if payer != "" then payer else r.payer, note := if note != "" then note else r.note)
  }

  function Step(b: Books, e: Event): (Books, Response) {
    match e
    case Ask(owner, tenant, amount, payer, note) =>
      if !(0 < amount <= MAX_REQUEST) then (b, BadAmount)
      else if !owner then (b, OwnerOnly)
      else if tenant.None? || tenant.value == "" then (b, NoTenant)
      else (b.(requests := b.requests[b.nextId := Request(tenant.value, amount, Pending, payer, note, None)],
        nextId := b.nextId + 1),
            Created(b.nextId))
    case Upload(id, tenant, tooLarge, path, payer, note, slip, dbOk) =>
      if id !in b.requests then (b, NotFound)
      else if b.requests[id].tenant != tenant then (b, OtherTenant)
      else if b.requests[id].status != Pending then (b, AlreadyReviewed)
      else if tooLarge then (b, FileTooLarge)
      else
        var b1 := b.(requests := b.requests[id := WithSlip(b.requests[id], path, payer, note)]);
        var verified := VerifiedAmount(slip, b.requests[id].amount);
        if verified.Some? && dbOk then (Credit(b1, id, verified.value), Uploaded(true)) else (b1, Uploaded(false))
    case Approve(id, amount, note) =>
      if amount <= 0 then (b, BadAmount)
      else if id !in b.requests then (b, NotFound)
      else if b.requests[id].status != Pending then (b, AlreadyReviewed)
      else var b1 := Credit(b, id, amount); (b1, Done(Balance(b1, b.requests[id].tenant)))
    case Reject(id, note) =>
      if id !in b.requests then (b, NotFound)
      else if b.requests[id].status != Pending then (b, AlreadyReviewed)
      else (b.(requests := b.requests[id := b.requests[id].(status := Rejected)]),
        Done(Balance(b, b.requests[id].tenant)))
    case Charge(tenant, cost) =>
      if cost <= 0 then (b, Done(Balance(b, tenant))) else (Debit(b, tenant, cost), Done(Balance(b, tenant) - cost))
  }

  function Run(b: Books, events: seq<Event>): Books
    decreases |events|
  {
    if events == [] then b else Run(Step(b, events[0]).0, events[1..])
  }

  class Billing {
    var requests: map<nat, Request>
    var balances: map<string, int>
    var ledger: seq<Txn>
    var nextId: nat

    function Now(): Books
      reads this
    {
      Books(requests, balances, ledger, nextId)
    }

    constructor ()
      ensures Now() == EMPTY
    {
      requests, balances, ledger, nextId := map[], map[], [], 0;
    }

    method GrantCredits(tenant: string, amount: int, id: nat) returns (balance: int)
      modifies this`balances, this`ledger
      ensures Now() == Grant(old(Now()), tenant, amount, id) && balance == Balance(Now(), tenant)
    {
      if tenant in balances {
        balances := balances[tenant := balances[tenant] + amount];
      } else {
        balances := balances[tenant := amount];
      }
      balance := balances[tenant];
      ledger := ledger + [Txn(tenant, amount, balance, Some(id))];
    }

    method TopupRequest(owner: bool, tenant: Option<string>, amount: int, payer: string,
        note: string) returns (r: Response)
      modifies this
      ensures (Now(), r) == Step(old(Now()), Ask(owner, tenant, amount, payer, note))
    {
      if !(0 < amount <= MAX_REQUEST) {
        return BadAmount;
      }
      if !owner {
        return OwnerOnly;
      }
      if tenant.None? || tenant.value == "" {
        return NoTenant;
      }
      requests := requests[nextId := Request(tenant.value, amount, Pending, payer, note, None)];
      r := Created(nextId);
      nextId := nextId + 1;
    }

    method UploadSlip(id: nat, tenant: string, tooLarge: bool, path: string, payer: string, note: string,
                      slip: SlipReply, dbOk: bool) returns (r: Response)
      modifies this
      ensures (Now(), r) == Step(old(Now()), Upload(id, tenant, tooLarge, path, payer, note, slip, dbOk))
    {
      if id !in requests {
        return NotFound;
      }
      var row := requests[id];
      if row.tenant != tenant {
        return OtherTenant;
      }
      if row.status != Pending {
        return AlreadyReviewed;
      }
      if tooLarge {
        return FileTooLarge;
      }
      requests := requests[id := WithSlip(row, path, payer, note)];
      var verified := VerifiedAmount(slip, row.amount);
      if verified.Some? && dbOk {
        requests := requests[id := requests[id].(status := Approved, amount := verified.value)];
        var _ := GrantCredits(tenant, verified.value, id);
        return Uploaded(true);
      }
      r := Uploaded(false);
    }

    method AdminApprove(id: nat, amount: int, note: string) returns (r: Response)
      modifies this
      ensures (Now(), r) == Step(old(Now()), Approve(id, amount, note))
    {
      if amount <= 0 {
        return BadAmount;
      }
      if id !in requests {
        return NotFound;
      }
      if requests[id].status != Pending {
        return AlreadyReviewed;
      }
      requests := requests[id := requests[id].(status := Approved, amount := amount)];
      var balance := GrantCredits(requests[id].tenant, amount, id);
      r := Done(balance);
    }

    method AdminReject(id: nat, note: string) returns (r: Response)
      modifies this
      ensures (Now(), r) == Step(old(Now()), Reject(id, note))
    {
      if id !in requests {
        return NotFound;
      }
      if requests[id].status != Pending {
        return AlreadyReviewed;
      }
      requests := requests[id := requests[id].(status := Rejected)];
      r := Done(Balance(Now(), requests[id].tenant));
    }

    /** Usage is charged after the fact: the balance may go below zero. */
    method DebitUsage(tenant: string, cost: int) returns (r: Response)
      modifies this
      ensures (Now(), r) == Step(old(Now()), Charge(tenant, cost))
    {
      var balance := if tenant in balances then balances[tenant] else 0;
      if cost <= 0 {
        return Done(balance);
      }
      balances := balances[tenant := balance - cost];
      ledger := ledger + [Txn(tenant, -cost, balance - cost, None)];
      r := Done(balance - cost);
    }
  }

  // --- conservation over every run ---

  function Posted(ledger: seq<Txn>, tenant: string): int {
    if ledger == [] then 0 else
    Posted(ledger[..|ledger| - 1], tenant)
      + (if ledger[|ledger| - 1].tenant == tenant then ledger[|ledger| - 1].amount else 0)
  }

  /** What top-ups alone brought in. */
  function Credited(ledger: seq<Txn>, tenant: string): int {
    if ledger == [] then 0 else
    var last := ledger[|ledger| - 1];
    Credited(ledger[..|ledger| - 1], tenant) + (if last.tenant == tenant && last.request.Some? then last.amount else 0)
  }

  predicate IsApproved(requests: map<nat, Request>, id: nat, tenant: string) {
    id in requests && requests[id].status == Approved && requests[id].tenant == tenant
  }

  /** The approved amounts among the first `n` requests. */
  function ApprovedTotal(requests: map<nat, Request>, n: nat, tenant: string): int {
    if n == 0 then 0 else
    ApprovedTotal(requests, n - 1, tenant) + (if IsApproved(requests, n - 1, tenant) then requests[n - 1].amount else 0)
  }

  /** Ledger row `i` is the credit of an approved request, at the same amount and tenant. */
  predicate Backed(b: Books, i: nat)
    requires i < |b.ledger| && b.ledger[i].request.Some?
  {
    var id := b.ledger[i].request.value;
    IsApproved(b.requests, id, b.ledger[i].tenant) && b.requests[id].amount == b.ledger[i].amount
  }

  predicate IsCreditOf(ledger: seq<Txn>, i: int, id: nat) {
    0 <= i < |ledger| && ledger[i].request == Some(id)
  }

  /** Every ledger row shows the balance it led to, and the wallet holds the latest. */
  ghost predicate WalletsMatch(b: Books) {
    && (forall t {:trigger Posted(b.ledger, t)} :: Balance(b, t) == Posted(b.ledger, t))
    && (forall i {:trigger b.ledger[i].balanceAfter} :: 0 <= i < |b.ledger| ==>
      b.ledger[i].balanceAfter == Posted(b.ledger[..i + 1], b.ledger[i].tenant))
  }

  /** Approved requests and top-up rows match one to one. */
  ghost predicate OneToOne(b: Books) {
    && (forall i {:trigger b.ledger[i]} :: 0 <= i < |b.ledger| && b.ledger[i].request.Some? ==> Backed(b, i))
    && (forall i, j, id :: IsCreditOf(b.ledger, i, id) && IsCreditOf(b.ledger, j, id) ==> i == j)
    && (forall id :: id in b.requests && b.requests[id].status == Approved ==> exists i :: IsCreditOf(b.ledger, i, id))
  }

  ghost predicate TotalsAgree(b: Books) {
    forall t {:trigger Credited(b.ledger, t)} :: Credited(b.ledger, t) == ApprovedTotal(b.requests, b.nextId, t)
  }

  ghost predicate Sound(b: Books) {
    && (forall id :: id in b.requests ==> id < b.nextId)
    && WalletsMatch(b) && OneToOne(b) && TotalsAgree(b)
  }

  lemma Appended(ledger: seq<Txn>, x: Txn, t: string)
    ensures Posted(ledger + [x], t) == Posted(ledger, t) + (if x.tenant == t then x.amount else 0)
    ensures Credited(ledger + [x], t)
      == Credited(ledger, t) + (if x.tenant == t && x.request.Some? then x.amount else 0)
  {
    assert (ledger + [x])[..|ledger|] == ledger;
  }

  lemma {:induction false} ApprovedTotalUpdate(requests: map<nat, Request>, n: nat, t: string, id: nat, r: Request)
    requires !IsApproved(requests, id, t)
    ensures ApprovedTotal(requests[id := r], n, t)
         == ApprovedTotal(requests, n, t) + (if id < n && r.status == Approved && r.tenant == t then r.amount else 0)
  {
    if n != 0 {
      ApprovedTotalUpdate(requests, n - 1, t, id, r);
    }
  }

  lemma BookedMatch(b: Books, c: Books, x: Txn)
    requires WalletsMatch(b) && x.balanceAfter == Balance(b, x.tenant) + x.amount
    requires c.ledger == b.ledger + [x] && c.balances == b.balances[x.tenant := x.balanceAfter]
    ensures WalletsMatch(c)
  {
    forall t ensures Balance(c, t) == Posted(c.ledger, t) {
      Appended(b.ledger, x, t);
      assert Balance(b, t) == Posted(b.ledger, t);
    }
    forall i | 0 <= i < |c.ledger| ensures c.ledger[i].balanceAfter == Posted(c.ledger[..i + 1], c.ledger[i].tenant) {
      if i < |b.ledger| {
        assert c.ledger[..i + 1] == b.ledger[..i + 1];
        assert b.ledger[i].balanceAfter == Posted(b.ledger[..i + 1], b.ledger[i].tenant);
      } else {
        assert c.ledger[..i + 1] == c.ledger;
      }
    }
  }

  lemma CreditOneToOne(b: Books, c: Books, x: Txn, id: nat)
    requires OneToOne(b) && id in b.requests && b.requests[id].status == Pending && x.request == Some(id)
    requires c.ledger == b.ledger + [x]
    requires c.requests == b.requests[id := b.requests[id].(status := Approved, amount := x.amount)]
    requires x.tenant == b.requests[id].tenant
    ensures OneToOne(c)
  {
    forall i | 0 <= i < |b.ledger| && b.ledger[i].request.Some?
      ensures b.ledger[i].request.value != id && Backed(c, i)
    {
      assert Backed(b, i);
    }
    forall i, j, k | IsCreditOf(c.ledger, i, k) && IsCreditOf(c.ledger, j, k) ensures i == j {
      assert i < |b.ledger| ==> IsCreditOf(b.ledger, i, k);
      assert j < |b.ledger| ==> IsCreditOf(b.ledger, j, k);
    }
    forall k | k in c.requests && c.requests[k].status == Approved ensures exists i :: IsCreditOf(c.ledger, i, k) {
      if k == id {
        assert IsCreditOf(c.ledger, |b.ledger|, k);
      } else {
        var i :| IsCreditOf(b.ledger, i, k);
        assert IsCreditOf(c.ledger, i, k);
      }
    }
  }

  lemma CreditSound(b: Books, id: nat, amount: int)
    requires Sound(b) && id in b.requests && b.requests[id].status == Pending
    ensures Sound(Credit(b, id, amount))
  {
    var c := Credit(b, id, amount);
    var tenant := b.requests[id].tenant;
    var x := Txn(tenant, amount, Balance(b, tenant) + amount, Some(id));
    assert Balance(b.(requests := c.requests), tenant) == Balance(b, tenant);
    BookedMatch(b, c, x);
    CreditOneToOne(b, c, x, id);
    forall t ensures Credited(c.ledger, t) == ApprovedTotal(c.requests, c.nextId, t) {
      Appended(b.ledger, x, t);
      ApprovedTotalUpdate(b.requests, b.nextId, t, id, c.requests[id]);
      assert Credited(b.ledger, t) == ApprovedTotal(b.requests, b.nextId, t);
    }
  }

  /** Touching a request that is not approved, without approving it, books nothing. */
  lemma EditSound(b: Books, id: nat, r: Request, nextId: nat)
    requires Sound(b) && r.status != Approved && (id in b.requests ==> b.requests[id].status != Approved)
    requires b.nextId <= nextId <= b.nextId + 1 && id < nextId && (nextId > b.nextId ==> id == b.nextId)
    ensures Sound(b.(requests := b.requests[id := r], nextId := nextId))
  {
    var c := b.(requests := b.requests[id := r], nextId := nextId);
    forall t
      ensures Credited(c.ledger, t) == ApprovedTotal(c.requests, c.nextId, t) && Balance(c, t) == Posted(c.ledger, t)
    {
      ApprovedTotalUpdate(b.requests, b.nextId, t, id, r);
      assert Credited(b.ledger, t) == ApprovedTotal(b.requests, b.nextId, t);
      assert Balance(b, t) == Posted(b.ledger, t);
    }
    forall i | 0 <= i < |c.ledger| && c.ledger[i].request.Some? ensures Backed(c, i) {
      assert Backed(b, i);
    }
  }

  lemma DebitSound(b: Books, tenant: string, cost: int)
    requires Sound(b)
    ensures Sound(Debit(b, tenant, cost))
  {
    var c := Debit(b, tenant, cost);
    var x := Txn(tenant, -cost, Balance(b, tenant) - cost, None);
    BookedMatch(b, c, x);
    forall t ensures Credited(c.ledger, t) == ApprovedTotal(c.requests, c.nextId, t) {
      Appended(b.ledger, x, t);
      assert Credited(b.ledger, t) == ApprovedTotal(b.requests, b.nextId, t);
    }
    forall i | 0 <= i < |b.ledger| && b.ledger[i].request.Some? ensures Backed(c, i) {
      assert Backed(b, i);
    }
    forall i, j, k | IsCreditOf(c.ledger, i, k) && IsCreditOf(c.ledger, j, k) ensures i == j {
      assert IsCreditOf(b.ledger, i, k) && IsCreditOf(b.ledger, j, k);
    }
    forall k | k in c.requests && c.requests[k].status == Approved ensures exists i :: IsCreditOf(c.ledger, i, k) {
      var i :| IsCreditOf(b.ledger, i, k);
      assert IsCreditOf(c.ledger, i, k);
    }
  }

  lemma StepSound(b: Books, e: Event)
    requires Sound(b)
    ensures Sound(Step(b, e).0)
  {
    match e {
      case Ask(_, tenant, amount, payer, note) =>
        if Step(b, e).1.Created? {
          EditSound(b, b.nextId, Request(tenant.value, amount, Pending, payer, note, None), b.nextId + 1);
        }
      case Upload(id, _, _, path, payer, note, slip, _) =>
        if Step(b, e).1.Uploaded? {
          EditSound(b, id, WithSlip(b.requests[id], path, payer, note), b.nextId);
          var b1 := b.(requests := b.requests[id := WithSlip(b.requests[id], path, payer, note)]);
          if Step(b, e).1.autoApproved {
            CreditSound(b1, id, VerifiedAmount(slip, b.requests[id].amount).value);
          }
        }
      case Approve(id, amount, _) =>
        if Step(b, e).1.Done? {
          CreditSound(b, id, amount);
        }
      case Reject(id, _) =>
        if Step(b, e).1.Done? {
          EditSound(b, id, b.requests[id].(status := Rejected), b.nextId);
        }
      case Charge(tenant, cost) =>
        DebitSound(b, tenant, cost);
    }
  }

  /**
   Whatever users, slips, admins and charges do: wallets equal their ledgers, approved requests and
   top-up rows match one to one, and a tenant's credited total is the sum over its approved requests.
   */
  lemma {:induction false} BooksBalance(b: Books, events: seq<Event>)
    requires Sound(b)
    ensures Sound(Run(b, events))
    decreases |events|
  {
    if events != [] {
      StepSound(b, events[0]);
      BooksBalance(Step(b, events[0]).0, events[1..]);
    }
  }

  lemma EmptyIsSound()
    ensures Sound(EMPTY)
  {
  }

  /** A reviewed request is final, and until then its tenant and amount stay as asked. */
  ghost predicate Evolves(r: Request, r': Request) {
    r'.tenant == r.tenant && (r.status != Pending ==> r' == r) && (r'.status == Pending ==> r'.amount == r.amount)
  }

  lemma StepEvolves(b: Books, e: Event, id: nat)
    requires Sound(b) && id in b.requests
    ensures id in Step(b, e).0.requests && Evolves(b.requests[id], Step(b, e).0.requests[id])
  {
  }

  lemma {:induction false} RequestsEvolve(b: Books, events: seq<Event>, id: nat)
    requires Sound(b) && id in b.requests
    ensures id in Run(b, events).requests && Evolves(b.requests[id], Run(b, events).requests[id])
    decreases |events|
  {
    if events != [] {
      StepSound(b, events[0]);
      StepEvolves(b, events[0], id);
      RequestsEvolve(Step(b, events[0]).0, events[1..], id);
    }
  }

  /** However long it waited, a request approved by its slip is credited within one baht of what was asked. */
  lemma AutoApprovedIsClose(b: Books, events: seq<Event>, e: Event, id: nat)
    requires Sound(b) && id in b.requests && b.requests[id].status == Pending
    requires e.Upload? && id in Run(b, events).requests && Run(b, events).requests[id].status == Pending
    requires id in Step(Run(b, events), e).0.requests && Step(Run(b, events), e).0.requests[id].status == Approved
    ensures -ONE_BAHT <= Step(Run(b, events), e).0.requests[id].amount - b.requests[id].amount <= ONE_BAHT
    ensures Credited(Step(Run(b, events), e).0.ledger, b.requests[id].tenant)
         == Credited(Run(b, events).ledger, b.requests[id].tenant) + Step(Run(b, events), e).0.requests[id].amount
  {
    RequestsEvolve(b, events, id);
    var c := Run(b, events);
    var after := Step(c, e).0;
    Appended(c.ledger, after.ledger[|after.ledger| - 1], b.requests[id].tenant);
  }
}
