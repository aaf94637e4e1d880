/** The theorems about runs of pooled `get_cursor_rls` transactions under the app role. */
module NonInterference {
  import opened Common
  import opened RlsPolicy
  import opened PooledCursor
  import opened RlsIsolation
  import opened RlsRuns

  /** A call made for the observer: its tenant or none, one of its users or none. */
  predicate Serves(o: Observer, tx: Tx) {
    && !tx.bypass
    && (tx.tenant == None || tx.tenant.value == "" || tx.tenant.value == o.tenant)
    && (tx.user == None || tx.user.value == "" || tx.user.value in o.users)
  }

  lemma InstalledWithin(o: Observer, conn: Conn, tx: Tx)
    requires Serves(o, tx)
    ensures Within(o, Install(Idle(conn), tx))
  {
  }

  /** Which pooled connection was borrowed, and what it did before, does not matter. */
  lemma InstalledSimilar(c1: Conn, tx1: Tx, c2: Conn, tx2: Tx)
    requires tx1.(conn := tx2.conn) == tx2
    ensures Similar(Install(Idle(c1), tx1), Install(Idle(c2), tx2))
  {
    var s1, s2 := Install(Idle(c1), tx1), Install(Idle(c2), tx2);
    forall g: Guc ensures OrEmpty(s1, g) == OrEmpty(s2, g) {}
  }

  // --- bodies, over any executor that behaves statement by statement ---

  ghost predicate KeepsForeign(w: World, exec: Executor) {
    forall d, s, tag: nat, n: nat, stmt :: Within(w.o, s) && Inv(w.kinds, d, tag, n) ==>
      StepKeeps(w, d, stmt, exec(d, s, RowKey(tag, n), stmt), tag, n)
  }

  ghost predicate RepliesAlike(w: World, exec: Executor) {
    forall d1, s1, d2, s2, tag: nat, n: nat, stmt :: Twin(w, d1, s1, d2, s2, tag, n) ==>
      SameEnd(w, exec(d1, s1, RowKey(tag, n), stmt), exec(d2, s2, RowKey(tag, n), stmt), tag, n + 1)
  }

  lemma ServerIsSafe(w: World)
    requires Ok(w) && (w.shared ==> ErpEndpoints in w.kinds)
    ensures RepliesAlike(w, Server(w.cat, App))
  {
    forall d1, s1, d2, s2, tag: nat, n: nat, stmt | Twin(w, d1, s1, d2, s2, tag, n)
      ensures SameEnd(w, Server(w.cat, App)(d1, s1, RowKey(tag, n), stmt),
        Server(w.cat, App)(d2, s2, RowKey(tag, n), stmt), tag, n + 1)
    {
      ExecSame(w, d1, s1, d2, s2, tag, n, stmt);
    }
  }

  lemma ServerKeeps(w: World)
    requires Ok(w)
    ensures KeepsForeign(w, Server(w.cat, App))
  {
    forall d, s, tag: nat, n: nat, stmt | Within(w.o, s) && Inv(w.kinds, d, tag, n)
      ensures StepKeeps(w, d, stmt, Server(w.cat, App)(d, s, RowKey(tag, n), stmt), tag, n)
    {
      ExecKeeps(w, d, s, tag, n, stmt);
    }
  }

  /** Every statement the body gets to execute returns own rows only. */
  ghost predicate NeverForeign(w: World, exec: Executor, d: Data, s: Settings, tag: nat, n: nat, body: Program,
      replies: seq<Reply>, steps: nat)
    decreases steps
  {
    body(replies).Do? && steps > 0 ==>
      var stmt := body(replies).stmt;
      var e := exec(d, s, RowKey(tag, n), stmt);
      && OnlyOwn(w, d, stmt, e.reply)
      && (e.reply.Failed? || NeverForeign(w, exec, e.data, e.s, tag, n + 1, body, replies + [e.reply], steps - 1))
  }

  lemma {:induction false} BodyKeeps(w: World, exec: Executor, d: Data, s: Settings, tag: nat, n: nat, body: Program,
      replies: seq<Reply>, steps: nat)
    requires KeepsForeign(w, exec) && Within(w.o, s) && Inv(w.kinds, d, tag, n)
    ensures var b := RunBody(exec, d, s, tag, n, body, replies, steps);
      ForeignKept(w, d, b.data) && Inv(w.kinds, b.data, tag + 1, 0)
    ensures NeverForeign(w, exec, d, s, tag, n, body, replies, steps)
    decreases steps
  {
    InvLater(w.kinds, d, tag, n, tag + 1, 0);
    if body(replies).Do? && steps > 0 {
      var stmt := body(replies).stmt;
      var e := exec(d, s, RowKey(tag, n), stmt);
      assert StepKeeps(w, d, stmt, e, tag, n);
      InvLater(w.kinds, e.data, tag, n + 1, tag + 1, 0);
      if !e.reply.Failed? {
        BodyKeeps(w, exec, e.data, e.s, tag, n + 1, body, replies + [e.reply], steps - 1);
      }
    }
  }

  ghost predicate SameBodies(w: World, b1: BodyEnd, b2: BodyEnd) {
    b1.replies == b2.replies && b1.returned == b2.returned && SameFor(w, b1.data, b2.data)
  }

  lemma {:induction false} BodySame(w: World, exec: Executor, d1: Data, s1: Settings, d2: Data, s2: Settings,
      tag: nat, n: nat, body: Program, replies: seq<Reply>, steps: nat)
    requires Twin(w, d1, s1, d2, s2, tag, n) && RepliesAlike(w, exec)
    ensures SameBodies(w, RunBody(exec, d1, s1, tag, n, body, replies, steps),
                          RunBody(exec, d2, s2, tag, n, body, replies, steps))
    decreases steps
  {
    if body(replies).Do? && steps > 0 {
      var stmt := body(replies).stmt;
      var e1, e2 := exec(d1, s1, RowKey(tag, n), stmt), exec(d2, s2, RowKey(tag, n), stmt);
      assert SameEnd(w, e1, e2, tag, n + 1);
      if !e1.reply.Failed? {
        BodySame(w, exec, e1.data, e1.s, e2.data, e2.s, tag, n + 1, body, replies + [e1.reply], steps - 1);
      }
    }
  }

  /** One transaction leaves every foreign row as it was. */
  lemma TxKeeps(w: World, d: Data, conn: Conn, tx: Tx)
    requires Ok(w) && Serves(w.o, tx) && Inv(w.kinds, d, tx.tag, 0)
    ensures var e := RunTx(w.cat, true, d, conn, tx); ForeignKept(w, d, e.data) && Inv(w.kinds, e.data, tx.tag + 1, 0)
    ensures NeverForeign(w, Server(w.cat, App), d, Install(Idle(conn), tx), tx.tag, 0, tx.body, [], tx.steps)
  {
    InstalledWithin(w.o, conn, tx);
    BodyStaysOwn(w, d, Install(Idle(conn), tx), tx);
    InvLater(w.kinds, d, tx.tag, 0, tx.tag + 1, 0);
  }

  lemma BodyStaysOwn(w: World, d: Data, s: Settings, tx: Tx)
    requires Ok(w) && Within(w.o, s) && Inv(w.kinds, d, tx.tag, 0)
    ensures var b := RunBody(Server(w.cat, App), d, s, tx.tag, 0, tx.body, [], tx.steps);
      ForeignKept(w, d, b.data) && Inv(w.kinds, b.data, tx.tag + 1, 0)
    ensures NeverForeign(w, Server(w.cat, App), d, s, tx.tag, 0, tx.body, [], tx.steps)
  {
    ServerKeeps(w);
    BodyKeeps(w, Server(w.cat, App), d, s, tx.tag, 0, tx.body, [], tx.steps);
  }

  lemma TxSame(w: World, d1: Data, c1: Conn, tx1: Tx, d2: Data, c2: Conn, tx2: Tx)
    requires Ok(w) && (w.shared ==> ErpEndpoints in w.kinds)
    requires Serves(w.o, tx1) && tx1.(conn := tx2.conn) == tx2
    requires Inv(w.kinds, d1, tx1.tag, 0) && Inv(w.kinds, d2, tx1.tag, 0) && SameFor(w, d1, d2)
    ensures var e1, e2 := RunTx(w.cat, true, d1, c1, tx1), RunTx(w.cat, true, d2, c2, tx2);
      e1.replies == e2.replies && e1.returned == e2.returned && SameFor(w, e1.data, e2.data)
  {
    InstalledWithin(w.o, c1, tx1);
    InstalledWithin(w.o, c2, tx2);
    InstalledSimilar(c1, tx1, c2, tx2);
    ServerIsSafe(w);
    BodySame(w, Server(w.cat, App), d1, Install(Idle(c1), tx1), d2, Install(Idle(c2), tx2),
             tx1.tag, 0, tx1.body, [], tx1.steps);
  }

  // --- runs ---

  datatype Out = Out(replies: seq<Reply>, returned: bool)

  datatype RunEnd = RunEnd(data: Data, conns: seq<Conn>, outs: seq<Out>)

  predicate Borrowable(txs: seq<Tx>, size: nat) {
    forall i :: 0 <= i < |txs| ==> txs[i].conn < size
  }

  type Runner = (Data, Conn, Tx) -> TxEnd

  /** What runs a transaction on a pool whose RLS_ROLE is configured, or not. */
  function PoolRunner(cat: Catalogue, roleConfigured: bool): Runner {
    (data: Data, conn: Conn, tx: Tx) => RunTx(cat, roleConfigured, data, conn, tx)
  }

  function RunAll(run: Runner, data: Data, conns: seq<Conn>, txs: seq<Tx>): (e: RunEnd)
    requires Borrowable(txs, |conns|)
    decreases |txs|
  {
    if txs == [] then RunEnd(data, conns, []) else
    var tx := txs[0];
    var x := run(data, conns[tx.conn], tx);
    var rest := RunAll(run, x.data, conns[tx.conn := x.conn], txs[1..]);
    rest.(outs := [Out(x.replies, x.returned)] + rest.outs)
  }

  /** Later transactions make later keys. */
  predicate Tagged(txs: seq<Tx>, from: nat) {
    txs == [] || (txs[0].tag >= from && Tagged(txs[1..], txs[0].tag + 1))
  }

  ghost predicate KeepingRunner(w: World, run: Runner) {
    forall d, c, tx :: Serves(w.o, tx) && Inv(w.kinds, d, tx.tag, 0) ==> RunnerKeeps(w, d, run(d, c, tx), tx)
  }

  ghost predicate AlikeRunner(w: World, run: Runner) {
    forall d1, c1, tx1, d2, c2, tx2 :: AlikeTxs(w, d1, tx1, d2, tx2) ==>
      AlikeEnds(w, run(d1, c1, tx1), run(d2, c2, tx2))
  }

  ghost predicate SafeRunner(w: World, run: Runner) { KeepingRunner(w, run) && AlikeRunner(w, run) }

  ghost predicate RunnerKeeps(w: World, d: Data, e: TxEnd, tx: Tx) {
    ForeignKept(w, d, e.data) && Inv(w.kinds, e.data, tx.tag + 1, 0)
  }

  ghost predicate AlikeTxs(w: World, d1: Data, tx1: Tx, d2: Data, tx2: Tx) {
    && Serves(w.o, tx1) && tx1.(conn := tx2.conn) == tx2
    && Inv(w.kinds, d1, tx1.tag, 0) && Inv(w.kinds, d2, tx1.tag, 0) && SameFor(w, d1, d2)
  }

  ghost predicate AlikeEnds(w: World, e1: TxEnd, e2: TxEnd) {
    e1.replies == e2.replies && e1.returned == e2.returned && SameFor(w, e1.data, e2.data)
  }

  lemma PoolIsSafe(w: World)
    requires Ok(w) && (w.shared ==> ErpEndpoints in w.kinds)
    ensures SafeRunner(w, PoolRunner(w.cat, true))
  {
    var run := PoolRunner(w.cat, true);
    forall d, c, tx | Serves(w.o, tx) && Inv(w.kinds, d, tx.tag, 0) ensures RunnerKeeps(w, d, run(d, c, tx), tx) {
      TxKeeps(w, d, c, tx);
    }
    forall d1, c1, tx1, d2, c2, tx2 | AlikeTxs(w, d1, tx1, d2, tx2)
      ensures AlikeEnds(w, run(d1, c1, tx1), run(d2, c2, tx2))
    {
      TxSame(w, d1, c1, tx1, d2, c2, tx2);
    }
  }

  /** The same calls, up to the connection each one happens to borrow. */
  ghost predicate SameCalls(o: Observer, txs1: seq<Tx>, txs2: seq<Tx>) {
    |txs1| == |txs2| && forall i :: 0 <= i < |txs1| ==> Serves(o, txs1[i]) && txs1[i].(conn := txs2[i].conn) == txs2[i]
  }

  ghost predicate SameRuns(w: World, d1: Data, e1: RunEnd, d2: Data, e2: RunEnd) {
    e1.outs == e2.outs && SameFor(w, e1.data, e2.data) && ForeignKept(w, d1, e1.data) && ForeignKept(w, d2, e2.data)
  }

  /** Two databases before a run: sound, and alike for the observer. */
  ghost predicate Ready(w: World, d1: Data, d2: Data, from: nat) {
    Inv(w.kinds, d1, from, 0) && Inv(w.kinds, d2, from, 0) && SameFor(w, d1, d2)
  }

  lemma ReadyLater(w: World, d1: Data, d2: Data, from: nat, from': nat)
    requires Ready(w, d1, d2, from) && from <= from'
    ensures Ready(w, d1, d2, from')
  {
    InvLater(w.kinds, d1, from, 0, from', 0);
    InvLater(w.kinds, d2, from, 0, from', 0);
  }

  /** One of the observer's own calls, made on both sides. */
  lemma ServeBoth(w: World, run: Runner, d1: Data, c1: Conn, tx1: Tx, d2: Data, c2: Conn, tx2: Tx)
    requires SafeRunner(w, run) && Ready(w, d1, d2, tx1.tag) && Serves(w.o, tx1) && tx1.(conn := tx2.conn) == tx2
    ensures ServedBoth(w, d1, run(d1, c1, tx1), d2, run(d2, c2, tx2), tx1.tag + 1)
  {
    ServeOne(w, run, d1, c1, tx1);
    ServeOne(w, run, d2, c2, tx2);
    ServeAlike(w, run, d1, c1, tx1, d2, c2, tx2);
  }

  ghost predicate ServedBoth(w: World, d1: Data, x1: TxEnd, d2: Data, x2: TxEnd, from: nat) {
    && x1.replies == x2.replies && x1.returned == x2.returned && Ready(w, x1.data, x2.data, from)
    && ForeignKept(w, d1, x1.data) && ForeignKept(w, d2, x2.data)
  }

  lemma ServeOne(w: World, run: Runner, d: Data, c: Conn, tx: Tx)
    requires KeepingRunner(w, run) && Serves(w.o, tx) && Inv(w.kinds, d, tx.tag, 0)
    ensures RunnerKeeps(w, d, run(d, c, tx), tx)
  {
  }

  lemma ServeAlike(w: World, run: Runner, d1: Data, c1: Conn, tx1: Tx, d2: Data, c2: Conn, tx2: Tx)
    requires AlikeRunner(w, run) && AlikeTxs(w, d1, tx1, d2, tx2)
    ensures AlikeEnds(w, run(d1, c1, tx1), run(d2, c2, tx2))
  {
  }

  /** Somebody else's call, made on one side only. */
  lemma ServeElsewhere(w: World, run: Runner, d1: Data, c1: Conn, tx: Tx, d2: Data)
    requires Ok(w) && SharedByTenant(w.kinds, w.shared) && SafeForAll(w, run) && Ready(w, d1, d2, tx.tag)
    requires Elsewhere(w.o, tx)
    ensures Ready(w, run(d1, c1, tx).data, d2, tx.tag + 1)
  {
    var x1 := run(d1, c1, tx);
    var o' :| Apart(w.o, o') && Serves(o', tx);
    ServeOne(w.(o := o'), run, d1, c1, tx);
    ElsewhereKeepsMine(w, o', d1, x1.data);
    SameForTrans(w, x1.data, d1, d2);
    InvLater(w.kinds, d2, tx.tag, 0, tx.tag + 1, 0);
  }

  /** Calls that can be made on both sides from key `from` on. */
  ghost predicate CallsOk(o: Observer, txs1: seq<Tx>, size1: nat, txs2: seq<Tx>, size2: nat, from: nat) {
    SameCalls(o, txs1, txs2) && Tagged(txs1, from) && Borrowable(txs1, size1) && Borrowable(txs2, size2)
  }

  lemma CallsGoOn(o: Observer, txs1: seq<Tx>, size1: nat, txs2: seq<Tx>, size2: nat, from: nat)
    requires txs1 != [] && CallsOk(o, txs1, size1, txs2, size2, from)
    ensures |txs1| == |txs2| && txs1[0].conn < size1 && txs2[0].conn < size2 && txs1[0].tag >= from
    ensures Serves(o, txs1[0]) && txs1[0].(conn := txs2[0].conn) == txs2[0]
    ensures CallsOk(o, txs1[1..], size1, txs2[1..], size2, txs1[0].tag + 1)
  {
  }

  lemma {:induction false} RunsAlike(w: World, run: Runner, d1: Data, conns1: seq<Conn>, txs1: seq<Tx>,
                                     d2: Data, conns2: seq<Conn>, txs2: seq<Tx>, from: nat)
    requires SafeRunner(w, run) && CallsOk(w.o, txs1, |conns1|, txs2, |conns2|, from) && Ready(w, d1, d2, from)
    ensures SameRuns(w, d1, RunAll(run, d1, conns1, txs1), d2, RunAll(run, d2, conns2, txs2))
    decreases |txs1|
  {
    if txs1 != [] {
      CallsGoOn(w.o, txs1, |conns1|, txs2, |conns2|, from);
      ReadyLater(w, d1, d2, from, txs1[0].tag);
      FirstThenRest(w, run, d1, conns1, txs1[0], txs1[1..], d2, conns2, txs2[0], txs2[1..]);
      assert txs1 == [txs1[0]] + txs1[1..] && txs2 == [txs2[0]] + txs2[1..];
    }
  }

  lemma {:induction false} FirstThenRest(w: World, run: Runner, d1: Data, conns1: seq<Conn>, tx1: Tx, rest1: seq<Tx>,
                                         d2: Data, conns2: seq<Conn>, tx2: Tx, rest2: seq<Tx>)
    requires SafeRunner(w, run) && CallsOk(w.o, rest1, |conns1|, rest2, |conns2|, tx1.tag + 1)
    requires Ready(w, d1, d2, tx1.tag)
    requires tx1.conn < |conns1| && tx2.conn < |conns2| && Serves(w.o, tx1) && tx1.(conn := tx2.conn) == tx2
    requires Borrowable([tx1] + rest1, |conns1|) && Borrowable([tx2] + rest2, |conns2|)
    ensures SameRuns(w, d1, RunAll(run, d1, conns1, [tx1] + rest1), d2, RunAll(run, d2, conns2, [tx2] + rest2))
    decreases |rest1| + 1, 0
  {
    var x1, x2 := run(d1, conns1[tx1.conn], tx1), run(d2, conns2[tx2.conn], tx2);
    ServeBoth(w, run, d1, conns1[tx1.conn], tx1, d2, conns2[tx2.conn], tx2);
    var next1, next2 := conns1[tx1.conn := x1.conn], conns2[tx2.conn := x2.conn];
    RunsAlike(w, run, x1.data, next1, rest1, x2.data, next2, rest2, tx1.tag + 1);
    AlikeOnceMore(w, d1, x1, RunAll(run, x1.data, next1, rest1), d2, x2, RunAll(run, x2.data, next2, rest2));
    RunAllStep(run, d1, conns1, tx1, rest1);
    RunAllStep(run, d2, conns2, tx2, rest2);
  }

  lemma RunAllStep(run: Runner, data: Data, conns: seq<Conn>, tx: Tx, rest: seq<Tx>)
    requires Borrowable([tx] + rest, |conns|) && Borrowable(rest, |conns|) && tx.conn < |conns|
    ensures var x := run(data, conns[tx.conn], tx);
      var e := RunAll(run, x.data, conns[tx.conn := x.conn], rest);
      RunAll(run, data, conns, [tx] + rest) == e.(outs := [Out(x.replies, x.returned)] + e.outs)
  {
    assert ([tx] + rest)[1..] == rest;
  }

  lemma AlikeOnceMore(w: World, d1: Data, x1: TxEnd, e1: RunEnd, d2: Data, x2: TxEnd, e2: RunEnd)
    requires x1.replies == x2.replies && x1.returned == x2.returned && ForeignKept(w, d1, x1.data)
    requires ForeignKept(w, d2, x2.data)
    requires SameRuns(w, x1.data, e1, x2.data, e2)
    ensures SameRuns(w, d1, e1.(outs := [Out(x1.replies, x1.returned)] + e1.outs), d2,
      e2.(outs := [Out(x2.replies, x2.returned)] + e2.outs))
  {
  }

  /**
   Over any run for one tenant, with bodies that commit, fail or leave without commit, on any
   connections in any state: what the tenant is told depends on its own rows alone, and every
   row of anyone else stays where and what it was.
   */
  lemma TenantIsolation(w: World, d1: Data, conns1: seq<Conn>, txs1: seq<Tx>, d2: Data, conns2: seq<Conn>,
      txs2: seq<Tx>, from: nat)
    requires Ok(w) && (w.shared ==> ErpEndpoints in w.kinds)
    requires SameCalls(w.o, txs1, txs2) && Tagged(txs1, from)
    requires Borrowable(txs1, |conns1|) && Borrowable(txs2, |conns2|)
    requires Inv(w.kinds, d1, from, 0) && Inv(w.kinds, d2, from, 0) && SameFor(w, d1, d2)
    ensures var e1, e2 := RunAll(PoolRunner(w.cat, true), d1, conns1, txs1),
      RunAll(PoolRunner(w.cat, true), d2, conns2, txs2);
      e1.outs == e2.outs && SameFor(w, e1.data, e2.data) && ForeignKept(w, d1, e1.data) && ForeignKept(w, d2, e2.data)
  {
    PoolIsSafe(w);
    RunsAlike(w, PoolRunner(w.cat, true), d1, conns1, txs1, d2, conns2, txs2, from);
  }

  // --- many tenants on one pool ---

  predicate Apart(o: Observer, o': Observer) {
    o'.tenant != "" && "" !in o'.users && o.tenant != o'.tenant && o.users !! o'.users
  }

  /** A transaction of some other tenant, whose users are not the observer's. */
  ghost predicate Elsewhere(o: Observer, tx: Tx) {
    exists o' :: Apart(o, o') && Serves(o', tx)
  }

  /** Every transaction is the observer's, or that of a tenant apart from it. */
  ghost predicate Populated(o: Observer, txs: seq<Tx>) {
    txs == [] || ((Serves(o, txs[0]) || Elsewhere(o, txs[0])) && Populated(o, txs[1..]))
  }

  function Mine(o: Observer, txs: seq<Tx>): seq<Tx> {
    if txs == [] then [] else (if Serves(o, txs[0]) then [txs[0]] else []) + Mine(o, txs[1..])
  }

  function MyOuts(o: Observer, txs: seq<Tx>, outs: seq<Out>): seq<Out>
    requires |txs| == |outs|
  {
    if txs == [] then [] else (if Serves(o, txs[0]) then [outs[0]] else []) + MyOuts(o, txs[1..], outs[1..])
  }

  /** No table with a shared-Express policy is written by user alone. */
  predicate SharedByTenant(kinds: Kinds, shared: bool) {
    shared ==> forall t :: t in kinds && IsSharedTable(t) ==> !kinds[t].UserIso?
  }

  /** What is mine is foreign to everyone apart from me. */
  lemma OwnIsForeignElsewhere(w: World, o': Observer, d: Data, t: TableName, r: Row)
    requires Ok(w) && SharedByTenant(w.kinds, w.shared) && Apart(w.o, o') && t in w.kinds && Own(w, d, t, r)
    ensures Foreign(w.(o := o'), d, t, r)
  {
    if w.kinds[t].ViaParent? {
      assert ChildOk(w.kinds, t);
      var parent := w.kinds[t].parent;
      var p :| p in Rows(d, parent) && OwnBase(w, parent, p) && p.id == r.Get(w.kinds[t].fk).k;
      assert !OwnBase(w.(o := o'), parent, p);
    }
  }

  /** So a step of someone else, which keeps what is foreign to them, keeps what is mine. */
  lemma ElsewhereKeepsMine(w: World, o': Observer, d: Data, d': Data)
    requires Ok(w) && SharedByTenant(w.kinds, w.shared) && Apart(w.o, o') && ForeignKept(w.(o := o'), d, d')
    ensures SameFor(w, d, d')
  {
    forall t | t in w.kinds && !w.kinds[t].ViaParent? ensures OwnRows(w, d, t) == OwnRows(w, d', t) {
      MineFromForeign(w, o', d, t);
      MineFromForeign(w, o', d', t);
      FilterCong(IsOwn(w, d, t), IsOwn(w, d', t), ForeignRows(w.(o := o'), d, t));
    }
    forall t | t in w.kinds && w.kinds[t].ViaParent? ensures OwnRows(w, d, t) == OwnRows(w, d', t) {
      assert ChildOk(w.kinds, t);
      OwnKeysShared(w, d, d', w.kinds[t].parent);
      MineFromForeign(w, o', d, t);
      MineFromForeign(w, o', d', t);
      FilterCong(IsOwn(w, d, t), IsOwn(w, d', t), ForeignRows(w.(o := o'), d, t));
    }
  }

  lemma MineFromForeign(w: World, o': Observer, d: Data, t: TableName)
    requires Ok(w) && SharedByTenant(w.kinds, w.shared) && Apart(w.o, o') && t in w.kinds
    ensures OwnRows(w, d, t) == Filter(IsOwn(w, d, t), ForeignRows(w.(o := o'), d, t))
  {
    forall r | Own(w, d, t, r) ensures Foreign(w.(o := o'), d, t, r) {
      OwnIsForeignElsewhere(w, o', d, t, r);
    }
    FilterNarrow(IsOwn(w, d, t), IsForeign(w.(o := o'), d, t), Rows(d, t));
  }

  lemma SameForTrans(w: World, d1: Data, d2: Data, d3: Data)
    requires SameFor(w, d1, d2) && SameFor(w, d2, d3)
    ensures SameFor(w, d1, d3) && SameFor(w, d3, d1)
  {
  }

  ghost predicate SafeForAll(w: World, run: Runner) {
    SafeRunner(w, run) && forall o' :: Apart(w.o, o') ==> SafeRunner(w.(o := o'), run)
  }

  ghost predicate PurgePre(w: World, run: Runner, d1: Data, conns1: seq<Conn>, txs: seq<Tx>, d2: Data,
      conns2: seq<Conn>, from: nat) {
    && Ok(w) && SharedByTenant(w.kinds, w.shared) && SafeForAll(w, run) && Tagged(txs, from) && Populated(w.o, txs)
      && Ready(w, d1, d2, from)
    && Borrowable(txs, |conns1|) && Borrowable(Mine(w.o, txs), |conns2|)
  }

  ghost predicate Purged(w: World, run: Runner, d1: Data, conns1: seq<Conn>, txs: seq<Tx>, d2: Data, conns2: seq<Conn>)
    requires Borrowable(txs, |conns1|) && Borrowable(Mine(w.o, txs), |conns2|)
  {
    && |RunAll(run, d1, conns1, txs).outs| == |txs|
    && MyOuts(w.o, txs, RunAll(run, d1, conns1, txs).outs) == RunAll(run, d2, conns2, Mine(w.o, txs)).outs
  }

  lemma {:induction false} Purge(w: World, run: Runner, d1: Data, conns1: seq<Conn>, txs: seq<Tx>, d2: Data,
      conns2: seq<Conn>, from: nat)
    requires PurgePre(w, run, d1, conns1, txs, d2, conns2, from)
    ensures Purged(w, run, d1, conns1, txs, d2, conns2)
    decreases |txs|, 1
  {
    if txs != [] {
      if Serves(w.o, txs[0]) {
        PurgeServed(w, run, d1, conns1, txs, d2, conns2, from);
      } else {
        PurgeElsewhere(w, run, d1, conns1, txs, d2, conns2, from);
      }
    }
  }

  lemma {:induction false} PurgeServed(w: World, run: Runner, d1: Data, conns1: seq<Conn>, txs: seq<Tx>, d2: Data,
      conns2: seq<Conn>, from: nat)
    requires PurgePre(w, run, d1, conns1, txs, d2, conns2, from) && txs != [] && Serves(w.o, txs[0])
    ensures Purged(w, run, d1, conns1, txs, d2, conns2)
    decreases |txs|, 0
  {
    var tx := txs[0];
    ReadyLater(w, d1, d2, from, tx.tag);
    assert Mine(w.o, txs)[0] == tx && Mine(w.o, txs)[1..] == Mine(w.o, txs[1..]);
    var x1, x2 := run(d1, conns1[tx.conn], tx), run(d2, conns2[tx.conn], tx);
    ServeBoth(w, run, d1, conns1[tx.conn], tx, d2, conns2[tx.conn], tx);
    Purge(w, run, x1.data, conns1[tx.conn := x1.conn], txs[1..], x2.data, conns2[tx.conn := x2.conn], tx.tag + 1);
  }

  lemma {:induction false} PurgeElsewhere(w: World, run: Runner, d1: Data, conns1: seq<Conn>, txs: seq<Tx>, d2: Data,
      conns2: seq<Conn>, from: nat)
    requires PurgePre(w, run, d1, conns1, txs, d2, conns2, from) && txs != [] && !Serves(w.o, txs[0])
    ensures Purged(w, run, d1, conns1, txs, d2, conns2)
    decreases |txs|, 0
  {
    var tx := txs[0];
    ReadyLater(w, d1, d2, from, tx.tag);
    assert Mine(w.o, txs) == Mine(w.o, txs[1..]);
    var x1 := run(d1, conns1[tx.conn], tx);
    ServeElsewhere(w, run, d1, conns1[tx.conn], tx, d2);
    Purge(w, run, x1.data, conns1[tx.conn := x1.conn], txs[1..], d2, conns2, tx.tag + 1);
  }

  /** A run for many tenants on one pool, and a second database and pool to run the observer's calls alone on. */
  ghost predicate ManyTenants(w: World, d1: Data, conns1: seq<Conn>, txs: seq<Tx>, d2: Data, conns2: seq<Conn>,
      from: nat) {
    && Ok(w) && Tagged(txs, from) && Populated(w.o, txs)
    && Borrowable(txs, |conns1|) && Borrowable(Mine(w.o, txs), |conns2|)
    && Inv(w.kinds, d1, from, 0) && Inv(w.kinds, d2, from, 0) && SameFor(w, d1, d2)
  }

  /**
   Tenants sharing one pool: strike every other tenant's transactions from the run, start from any
   database with the same own rows and any connections, and the tenant is told exactly the same.
   */
  lemma OthersDoNotMatter(w: World, d1: Data, conns1: seq<Conn>, txs: seq<Tx>, d2: Data, conns2: seq<Conn>, from: nat)
    requires ManyTenants(w, d1, conns1, txs, d2, conns2, from)
    requires SharedByTenant(w.kinds, w.shared) && (w.shared ==> ErpEndpoints in w.kinds)
    ensures |RunAll(PoolRunner(w.cat, true), d1, conns1, txs).outs| == |txs|
    ensures MyOuts(w.o, txs, RunAll(PoolRunner(w.cat, true), d1, conns1, txs).outs)
         == RunAll(PoolRunner(w.cat, true), d2, conns2, Mine(w.o, txs)).outs
  {
    PoolIsSafe(w);
    forall o' | Apart(w.o, o') ensures SafeRunner(w.(o := o'), PoolRunner(w.cat, true)) {
      PoolIsSafe(w.(o := o'));
    }
    Purge(w, PoolRunner(w.cat, true), d1, conns1, txs, d2, conns2, from);
  }

  // --- where the sound databases come from ---

  function EmptyData(kinds: Kinds): Data {
    map t | t in kinds :: []
  }

  /** The observer that a call without bypass serves. */
  function ServedBy(tx: Tx): Observer {
    Observer(if tx.tenant.Some? && tx.tenant.value != "" then tx.tenant.value else "nobody",
             if tx.user.Some? && tx.user.value != "" then {tx.user.value} else {})
  }

  /** The key from which everything after the run is new. */
  function After(txs: seq<Tx>, from: nat): nat {
    if txs == [] then from else After(txs[1..], txs[0].tag + 1)
  }

  lemma CallKeepsInv(cat: Catalogue, kinds: Kinds, shared: bool, d: Data, conn: Conn, tx: Tx, from: nat)
    requires Enrolled(cat, kinds, shared) && Inv(kinds, d, from, 0) && from <= tx.tag && !tx.bypass
    ensures Inv(kinds, PoolRunner(cat, true)(d, conn, tx).data, tx.tag + 1, 0)
  {
    InvLater(kinds, d, from, 0, tx.tag, 0);
    TxKeeps(World(ServedBy(tx), cat, kinds, shared), d, conn, tx);
  }

  /**
   Typed ids, unique keys and no reference to a key not yet made: every run of calls without bypass
   keeps them, whoever calls.
   */
  lemma {:induction false} RunsKeepInv(cat: Catalogue, kinds: Kinds, shared: bool, d: Data, conns: seq<Conn>,
      txs: seq<Tx>, from: nat)
    requires Enrolled(cat, kinds, shared) && Inv(kinds, d, from, 0) && Tagged(txs, from) && Borrowable(txs, |conns|)
    requires forall i :: 0 <= i < |txs| ==> !txs[i].bypass
    ensures Inv(kinds, RunAll(PoolRunner(cat, true), d, conns, txs).data, After(txs, from), 0)
    decreases |txs|
  {
    if txs != [] {
      var x := PoolRunner(cat, true)(d, conns[txs[0].conn], txs[0]);
      CallKeepsInv(cat, kinds, shared, d, conns[txs[0].conn], txs[0], from);
      RunsKeepInv(cat, kinds, shared, x.data, conns[txs[0].conn := x.conn], txs[1..], txs[0].tag + 1);
    }
  }

  /** So does every run from the empty database. */
  lemma ReachableIsSound(cat: Catalogue, kinds: Kinds, shared: bool, conns: seq<Conn>, txs: seq<Tx>)
    requires Enrolled(cat, kinds, shared) && Tagged(txs, 0) && Borrowable(txs, |conns|)
    requires forall i :: 0 <= i < |txs| ==> !txs[i].bypass
    ensures Inv(kinds, RunAll(PoolRunner(cat, true), EmptyData(kinds), conns, txs).data, After(txs, 0), 0)
  {
    RunsKeepInv(cat, kinds, shared, EmptyData(kinds), conns, txs, 0);
  }

  lemma KeysStay(w: World, d: Data, t: TableName, key: RowKey)
    requires t in w.kinds && t in d
    ensures KeysFrom(w, d, t, d[t], key)
  {
  }

  lemma ForeignRowFiltered(w: World, d: Data, t: TableName, r: Row)
    requires t in w.kinds && t in d && !Own(w, d, t, r)
    ensures Filter(IsOwn(w, d, t), d[t] + [r]) == Filter(IsOwn(w, d, t), d[t])
  {
    FilterAppend(IsOwn(w, d, t), d[t], [r]);
    FilterNone(IsOwn(w, d, t), [r]);
  }

  lemma OneSidedChange(w: World, d: Data, t: TableName, rows: seq<Row>, tag: nat)
    requires Ok(w) && Inv(w.kinds, d, tag, 0) && t in w.kinds && SameFor(w, d, d)
    requires Filter(IsOwn(w, d, t), d[t]) == Filter(IsOwn(w, d, t), rows)
    requires KeysFrom(w, d, t, d[t], RowKey(tag, 0)) && KeysFrom(w, d, t, rows, RowKey(tag, 0))
    ensures SameFor(w, d[t := d[t]], d[t := rows])
  {
    SameAfter(w, d, d[t], d, rows, t, tag, 0);
  }

  function Plus(d: Data, t: TableName, r: Row): Data
    requires t in d
  {
    d[t := d[t] + [r]]
  }

  lemma ForeignRowLooksSame(w: World, d: Data, t: TableName, r: Row, tag: nat)
    requires Ok(w) && Inv(w.kinds, d, tag, 0) && t in w.kinds && !Own(w, d, t, r)
    requires KeysFrom(w, d, t, d[t] + [r], RowKey(tag, 0))
    ensures SameFor(w, d[t := d[t]], Plus(d, t, r))
  {
    ForeignRowFiltered(w, d, t, r);
    KeysStay(w, d, t, RowKey(tag, 0));
    SameForSelf(w, d);
    OneSidedChange(w, d, t, d[t] + [r], tag);
  }

  lemma SameForSelf(w: World, d: Data)
    ensures SameFor(w, d, d)
  {
  }

  /** A row as an INSERT of transaction `tag` makes it: typed, with a new key, and pointing at no key not yet made. */
  predicate NewRow(kinds: Kinds, t: TableName, r: Row, tag: nat)
    requires t in kinds
  {
    && Typed(r) && r.id == RowKey(tag, 0)
    && (kinds[t].ViaParent? && r.Get(kinds[t].fk).Key? ==> Before(r.Get(kinds[t].fk).k, tag, 0))
  }

  lemma ForeignRowSound(w: World, d: Data, t: TableName, r: Row, tag: nat)
    requires Ok(w) && Inv(w.kinds, d, tag, 0) && t in w.kinds && NewRow(w.kinds, t, r, tag)
    ensures Inv(w.kinds, d, tag + 1, 0) && Inv(w.kinds, Plus(d, t, r), tag + 1, 0)
  {
    AddedKeeps(w, d, t, r, tag, 0);
    InvLater(w.kinds, d, tag, 0, tag + 1, 0);
    InvLater(w.kinds, Plus(d, t, r), tag, 1, tag + 1, 0);
  }

  lemma ForeignRowAlike(w: World, d: Data, t: TableName, r: Row, tag: nat)
    requires Ok(w) && Inv(w.kinds, d, tag, 0) && t in w.kinds && NewRow(w.kinds, t, r, tag) && !Own(w, d, t, r)
    ensures SameFor(w, d[t := d[t]], Plus(d, t, r))
  {
    AddedKeeps(w, d, t, r, tag, 0);
    ForeignRowLooksSame(w, d, t, r, tag);
  }

  lemma SelfUpdate(d: Data, t: TableName)
    requires t in d
    ensures d[t := d[t]] == d
  {
  }

  /**
   Any new row that is not the observer's, a child of someone else's or of nobody's included, may be added to any
   sound database: the result is sound, and alike for the observer.
   */
  lemma ForeignRowGoesUnseen(w: World, d: Data, t: TableName, r: Row, tag: nat)
    requires Ok(w) && Inv(w.kinds, d, tag, 0) && t in w.kinds && NewRow(w.kinds, t, r, tag) && !Own(w, d, t, r)
    ensures Ready(w, d, Plus(d, t, r), tag + 1)
  {
    ForeignRowSound(w, d, t, r, tag);
    ForeignRowAlike(w, d, t, r, tag);
    SelfUpdate(d, t);
  }

  // --- no context at all ---

  predicate Blind(s: Settings) {
    OrEmpty(s, BypassRls) != "on" && OrEmpty(s, CurrentTenant) == "" && OrEmpty(s, CurrentUser) == ""
  }

  lemma BlindSeesNothing(w: World, d: Data, s: Settings, t: TableName, r: Row, tag: nat, n: nat)
    requires Ok(w) && Blind(s) && Inv(w.kinds, d, tag, n) && t in w.kinds && Typed(r)
    ensures !Visible(w.cat, d, s, NESTING, t, r) && !Writable(w.cat, d, s, t, r)
  {
    var none := w.(o := Observer(w.o.tenant, {}));
    var other := w.(o := Observer(w.o.tenant + "'", {}));
    if Visible(w.cat, d, s, NESTING, t, r) {
      VisibleIsOwn(none, d, s, t, r, tag, n);
      VisibleIsOwn(other, d, s, t, r, tag, n);
      NotBoth(none, other, d, t, r, tag, n);
    }
    if Writable(w.cat, d, s, t, r) {
      WritableIsOwn(none, d, s, t, r, tag, n);
      WritableIsOwn(other, d, s, t, r, tag, n);
      NotBoth(none, other, d, t, r, tag, n);
    }
  }

  lemma NotBoth(a: World, b: World, d: Data, t: TableName, r: Row, tag: nat, n: nat)
    requires Ok(a) && a.o.users == {} && b.o.users == {} && a.o.tenant != b.o.tenant && b == a.(o := b.o)
    requires t in a.kinds && Inv(a.kinds, d, tag, n)
    ensures !(Own(a, d, t, r) && Own(b, d, t, r))
  {
  }

  predicate SaysNothing(reply: Reply) {
    reply.Failed? || reply.Flag? || reply == Selected([]) || reply == Affected(0)
  }

  ghost predicate BlindEnd(d: Data, e: ExecEnd) {
    e.data == d && Blind(e.s) && SaysNothing(e.reply)
  }

  lemma BlindPicksNothing(w: World, d: Data, s: Settings, tag: nat, n: nat, t: TableName, where: Row -> bool)
    requires Ok(w) && Blind(s) && Inv(w.kinds, d, tag, n) && t in d
    ensures Filter(Seen(w.cat, App, d, s, t, where), d[t]) == [] && Filter(Hit(w.cat, App, d, s, t, where), d[t]) == []
    ensures forall r :: r in d[t] ==> !Hit(w.cat, App, d, s, t, where)(r)
  {
    forall r | r in d[t] ensures !Visible(w.cat, d, s, NESTING, t, r) {
      assert RowOk(w.kinds, t, r, tag, n);
      BlindSeesNothing(w, d, s, t, r, tag, n);
    }
    FilterNone(Seen(w.cat, App, d, s, t, where), d[t]);
    FilterNone(Hit(w.cat, App, d, s, t, where), d[t]);
  }

  lemma BlindUpdate(w: World, d: Data, s: Settings, tag: nat, n: nat, t: TableName, where: Row -> bool,
      assign: Assignment)
    requires Ok(w) && Blind(s) && Inv(w.kinds, d, tag, n) && t in d
    ensures BlindEnd(d, UpdateExec(w, d, s, t, where, assign))
  {
    var hit := Hit(w.cat, App, d, s, t, where);
    BlindPicksNothing(w, d, s, tag, n, t, where);
    MapId(Rewrite(hit, assign), d[t]);
    assert d[t := d[t]] == d;
  }

  lemma BlindDelete(w: World, d: Data, s: Settings, tag: nat, n: nat, t: TableName, where: Row -> bool)
    requires Ok(w) && Blind(s) && Inv(w.kinds, d, tag, n) && t in d
    ensures BlindEnd(d, Exec(w.cat, App, d, s, RowKey(tag, n), Delete(t, where)))
  {
    BlindPicksNothing(w, d, s, tag, n, t, where);
    FilterAll(Not(Hit(w.cat, App, d, s, t, where)), d[t]);
    assert d[t := d[t]] == d;
  }

  lemma BlindExec(w: World, d: Data, s: Settings, tag: nat, n: nat, stmt: Stmt)
    requires Ok(w) && Blind(s) && Inv(w.kinds, d, tag, n)
    ensures BlindEnd(d, Exec(w.cat, App, d, s, RowKey(tag, n), stmt))
  {
    if !stmt.EnableShared? && stmt.table in d {
      match stmt {
        case Select(t, where) => BlindPicksNothing(w, d, s, tag, n, t, where);
        case Insert(t, cols) =>
          if Typed(Row(RowKey(tag, n), cols)) {
            BlindSeesNothing(w, d, s, t, Row(RowKey(tag, n), cols), tag, n);
          }
        case Update(t, where, assign) =>
          UpdateIsExec(w, d, s, RowKey(tag, n), t, where, assign);
          BlindUpdate(w, d, s, tag, n, t, where, assign);
        case Delete(t, where) => BlindDelete(w, d, s, tag, n, t, where);
      }
    }
  }

  lemma {:induction false} BlindBody(w: World, d: Data, s: Settings, tag: nat, n: nat, body: Program,
      replies: seq<Reply>, steps: nat)
    requires Ok(w) && Blind(s) && Inv(w.kinds, d, tag, n)
    requires forall i :: 0 <= i < |replies| ==> SaysNothing(replies[i])
    ensures var b := RunBody(Server(w.cat, App), d, s, tag, n, body, replies, steps);
      b.data == d && forall i :: 0 <= i < |b.replies| ==> SaysNothing(b.replies[i])
    decreases steps
  {
    if body(replies).Do? && steps > 0 {
      var e := Exec(w.cat, App, d, s, RowKey(tag, n), body(replies).stmt);
      BlindExec(w, d, s, tag, n, body(replies).stmt);
      if !e.reply.Failed? {
        InvLater(w.kinds, d, tag, n, tag, n + 1);
        BlindBody(w, d, e.s, tag, n + 1, body, replies + [e.reply], steps - 1);
      }
    }
  }

  /** Forgetting the context, on any connection whatever it served before, reads zero rows and writes none. */
  lemma NoContextReadsNothing(w: World, d: Data, conn: Conn, tx: Tx)
    requires Ok(w) && Inv(w.kinds, d, tx.tag, 0)
    requires !tx.bypass && (tx.tenant == None || tx.tenant.value == "") && (tx.user == None || tx.user.value == "")
    ensures var e := RunTx(w.cat, true, d, conn, tx);
      e.data == d && forall i :: 0 <= i < |e.replies| ==> SaysNothing(e.replies[i])
  {
    BlindBody(w, d, Install(Idle(conn), tx), tx.tag, 0, tx.body, [], tx.steps);
  }

  // --- what the installed context admits, exactly ---

  /** The rows of a base table that a call with this tenant, workspace and user is entitled to. */
  predicate Entitled(kind: Body, tx: Tx, r: Row) {
    var mine := tx.tenant.Some? && tx.tenant.value != "" && r.Get(TenantId) == Text(tx.tenant.value);
    var user := tx.user.Some? && r.Get(UserId) == Text(tx.user.value);
    match kind
    case TenantIso => mine
    case TenantWsIso =>
      mine && (tx.workspace == None || tx.workspace.value == "" || r.Get(WorkspaceClientId) == Text(tx.workspace.value))
    case TenantOrUserIso => mine || (r.Get(TenantId) == Null && user)
    case _ => user
  }

  /** Whatever the connection served before, the policies admit exactly the entitled rows. */
  lemma ContextDecides(cat: Catalogue, kinds: Kinds, data: Data, conn: Conn, tx: Tx, t: TableName, r: Row)
    requires Enrolled(cat, kinds, false) && t in kinds && IsBase(kinds[t]) && !tx.bypass && Typed(r)
    ensures CanSee(cat, RoleOf(true, tx), data, Install(Idle(conn), tx), t, r) <==> Entitled(kinds[t], tx, r)
    ensures CanWrite(cat, RoleOf(true, tx), data, Install(Idle(conn), tx), t, r) <==> Entitled(kinds[t], tx, r)
  {
    var s := Install(Idle(conn), tx);
    FlatVisible(cat, kinds, false, data, s, NESTING, t, r);
    EnrolledWritable(cat, kinds, false, data, s, t, r);
    assert TenantId in {TenantId, WorkspaceClientId, UserId} && UserId in {TenantId, WorkspaceClientId, UserId}
      && WorkspaceClientId in {TenantId, WorkspaceClientId, UserId};
    EntitledHolds(kinds[t], conn, tx, r);
  }

  /** What the settings are after the context was installed on a connection that may have been used before. */
  lemma InstalledSettings(conn: Conn, tx: Tx)
    requires !tx.bypass
    ensures var s := Install(Idle(conn), tx);
      && Bypass(s) != True
      && Setting(s, CurrentTenant) == (if tx.tenant.Some? && tx.tenant.value != "" then Text(tx.tenant.value)
                                       else if CurrentTenant in conn then Text("") else Null)
      && Setting(s, CurrentWorkspace) == (if tx.workspace.Some? then Text(tx.workspace.value)
                                          else if CurrentWorkspace in conn then Text("") else Null)
      && Setting(s, CurrentUser) == (if tx.user.Some? then Text(tx.user.value)
                                     else if CurrentUser in conn then Text("") else Null)
  {
  }

  lemma EntitledHolds(kind: Body, conn: Conn, tx: Tx, r: Row)
    requires IsBase(kind) && !tx.bypass && Typed(r)
    ensures BaseHolds(Install(Idle(conn), tx), kind, r) == True <==> Entitled(kind, tx, r)
  {
    assert TenantId in {TenantId, WorkspaceClientId, UserId} && UserId in {TenantId, WorkspaceClientId, UserId}
      && WorkspaceClientId in {TenantId, WorkspaceClientId, UserId};
    InstalledSettings(conn, tx);
  }

  /** Without RLS_ROLE, or with bypass, the policies bind nobody: a SELECT returns every row. */
  lemma OwnerReadsAll(cat: Catalogue, data: Data, s: Settings, key: RowKey, t: TableName, where: Row -> bool, tx: Tx,
      roleConfigured: bool)
    requires t in data && (!roleConfigured || tx.bypass)
    ensures Exec(cat, RoleOf(roleConfigured, tx), data, s, key, Select(t, where)).reply
      == Selected(Filter(where, data[t]))
  {
    FilterCong(Seen(cat, Owner, data, s, t, where), where, data[t]);
  }
}
