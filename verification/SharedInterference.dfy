/**
 When other tenants do matter: a shared-Express policy on a table that is written by user alone.
 services/erp/push_schema.py enrols `erp_push_logs` so, and its check does not look at the tenant.
 */
module SharedInterference {
  import opened Common
  import opened RlsPolicy
  import opened PooledCursor
  import opened RlsIsolation
  import opened NonInterference

  const ME := "a"
  const OTHER := "b"
  const THEIR_USER := "u"
  const WORKSPACE := "1"

  /**
   A row in my name and workspace, made by a user of theirs; as an endpoint it is shared, as a log it
   belongs to the first one.
   */
  const COLS := map[TenantId := Text(ME), WorkspaceClientId := Text(WORKSPACE), UserId := Text(THEIR_USER),
                    Adapter := Text("express"), Enabled := Text("true"), SharedScope := Text("true"),
                    EndpointId := Key(RowKey(0, 0))]

  /** The database before: one shared endpoint of mine. */
  function DataBefore(kinds: Kinds): Data {
    EmptyData(kinds)[ErpEndpoints := [Row(RowKey(0, 0), COLS)]]
  }

  const THEIR_ROW := Row(RowKey(1, 0), COLS)

  function InsertBody(t: TableName): Program {
    (replies: seq<Reply>) => if replies == [] then Do(Insert(t, COLS)) else Return
  }

  function LookBody(t: TableName): Program {
    (replies: seq<Reply>) =>
      if |replies| == 0 then Do(EnableShared(true, ME, WORKSPACE))
      else if |replies| == 1 then Do(Select(t, Any())) else Return
  }

  function Any(): Row -> bool {
    (r: Row) => true
  }

  function TheirTx(t: TableName): Tx {
    Tx(1, 0, Some(OTHER), false, true, None, Some(THEIR_USER), 1, InsertBody(t))
  }

  function MyTx(t: TableName): Tx {
    Tx(2, 1, Some(ME), false, false, Some(WORKSPACE), None, 2, LookBody(t))
  }

  function MyWorld(cat: Catalogue, kinds: Kinds): World {
    World(Observer(ME, {}), cat, kinds, true)
  }

  const THEIR_SETTINGS: Settings := map[CurrentTenant := OTHER, CurrentUser := THEIR_USER]
  const MY_SETTINGS: Settings := map[CurrentTenant := ME, CurrentWorkspace := WORKSPACE]

  function MySettings(): Settings {
    SharedOn(MY_SETTINGS, true, ME, WORKSPACE)
  }

  /** Some shared table of the catalogue is written by user alone. */
  predicate WrittenByUser(cat: Catalogue, kinds: Kinds, t: TableName) {
    Enrolled(cat, kinds, true) && ErpEndpoints in kinds && t in kinds && IsSharedTable(t) && kinds[t].UserIso?
  }

  lemma BeforeIsSound(cat: Catalogue, kinds: Kinds)
    requires Enrolled(cat, kinds, true) && ErpEndpoints in kinds
    ensures Inv(kinds, DataBefore(kinds), 1, 0)
  {
    SharedIsBase(kinds, ErpEndpoints);
    assert RowOk(kinds, ErpEndpoints, Row(RowKey(0, 0), COLS), 1, 0);
  }

  lemma RunStatement(exec: Executor, d: Data, s: Settings, tag: nat, n: nat, body: Program, replies: seq<Reply>,
      steps: nat)
    requires steps > 0 && body(replies).Do? && !exec(d, s, RowKey(tag, n), body(replies).stmt).reply.Failed?
    ensures var e := exec(d, s, RowKey(tag, n), body(replies).stmt);
      RunBody(exec, d, s, tag, n, body, replies, steps)
      == RunBody(exec, e.data, e.s, tag, n + 1, body, replies + [e.reply], steps - 1)
  {
  }

  // --- their transaction ---

  function DataAfter(kinds: Kinds, t: TableName): Data
    requires t in kinds
  {
    Plus(DataBefore(kinds), t, THEIR_ROW)
  }

  lemma TheyMayInsert(cat: Catalogue, kinds: Kinds, data: Data, t: TableName)
    requires WrittenByUser(cat, kinds, t)
    ensures Acceptable(cat, App, data, THEIR_SETTINGS, t, THEIR_ROW)
  {
    EnrolledWritable(cat, kinds, true, data, THEIR_SETTINGS, t, THEIR_ROW);
  }

  lemma TheirBody(cat: Catalogue, kinds: Kinds, d: Data, t: TableName)
    requires WrittenByUser(cat, kinds, t) && t in d
    ensures var b := RunBody(Server(cat, App), d, THEIR_SETTINGS, 1, 0, InsertBody(t), [], 1);
      b.data == Plus(d, t, THEIR_ROW) && b.returned
  {
    TheyMayInsert(cat, kinds, d, t);
    assert InsertBody(t)([]) == Do(Insert(t, COLS));
    RunStatement(Server(cat, App), d, THEIR_SETTINGS, 1, 0, InsertBody(t), [], 1);
  }

  lemma TheirTxInserts(cat: Catalogue, kinds: Kinds, t: TableName)
    requires WrittenByUser(cat, kinds, t)
    ensures RunTx(cat, true, DataBefore(kinds), {}, TheirTx(t)).data == DataAfter(kinds, t)
  {
    TheirContext(t);
    TheirBody(cat, kinds, DataBefore(kinds), t);
  }

  lemma TheirContext(t: TableName)
    ensures Install(Idle({}), TheirTx(t)) == THEIR_SETTINGS
  {
  }

  // --- what I am told ---

  lemma MyBody(cat: Catalogue, d: Data, t: TableName)
    requires t in d
    ensures RunBody(Server(cat, App), d, MY_SETTINGS, 2, 0, LookBody(t), [], 2).replies
      == [Flag(true), Selected(Filter(Seen(cat, App, d, MySettings(), t, Any()), d[t]))]
  {
    var exec, body := Server(cat, App), LookBody(t);
    assert exec(d, MY_SETTINGS, RowKey(2, 0), body([]).stmt) == ExecEnd(d, MySettings(), Flag(true));
    RunStatement(exec, d, MY_SETTINGS, 2, 0, body, [], 2);
    assert [] + [Flag(true)] == [Flag(true)];
    RunStatement(exec, d, MySettings(), 2, 1, body, [Flag(true)], 1);
  }

  lemma LookReplies(cat: Catalogue, d: Data, t: TableName)
    requires t in d
    ensures RunTx(cat, true, d, {}, MyTx(t)).replies
      == [Flag(true), Selected(Filter(Seen(cat, App, d, MySettings(), t, Any()), d[t]))]
  {
    assert Install(Idle({}), MyTx(t)) == MY_SETTINGS;
    MyBody(cat, d, t);
  }

  lemma GateIsOpen(id: RowKey)
    ensures SharedGate(MySettings(), Row(id, COLS)) == True && IsSharedExpress(Row(id, COLS)) == True
  {
  }

  lemma EndpointIsSeen(cat: Catalogue, kinds: Kinds, d: Data, e: Row)
    requires Enrolled(cat, kinds, true) && ErpEndpoints in kinds && e.cols == COLS
    ensures Visible(cat, d, MySettings(), 0, ErpEndpoints, e)
  {
    SharedIsBase(kinds, ErpEndpoints);
    GateIsOpen(e.id);
    EndpointMeans(MyWorld(cat, kinds), d, MySettings(), e);
    EnrolledVisible(cat, kinds, true, d, MySettings(), 0, ErpEndpoints, e);
  }

  lemma TheirRowIsSeen(cat: Catalogue, kinds: Kinds, d: Data, t: TableName)
    requires WrittenByUser(cat, kinds, t) && Row(RowKey(0, 0), COLS) in Rows(d, ErpEndpoints)
    ensures Visible(cat, d, MySettings(), NESTING, t, THEIR_ROW)
  {
    var e := Row(RowKey(0, 0), COLS);
    GateIsOpen(THEIR_ROW.id);
    GateIsOpen(e.id);
    EndpointIsSeen(cat, kinds, d, e);
    assert EndpointOfLog(e, THEIR_ROW) == True;
    assert HasEndpoint(cat, d, MySettings(), NESTING, THEIR_ROW);
    SharedMeans(MyWorld(cat, kinds), d, MySettings(), t, THEIR_ROW);
    EnrolledVisible(cat, kinds, true, d, MySettings(), NESTING, t, THEIR_ROW);
  }

  /** The same call is answered with their row after their transaction, and without it before. */
  lemma AnswersDiffer(cat: Catalogue, kinds: Kinds, t: TableName)
    requires WrittenByUser(cat, kinds, t)
    ensures RunTx(cat, true, DataAfter(kinds, t), {}, MyTx(t)).replies != RunTx(cat, true, DataBefore(kinds), {},
      MyTx(t)).replies
  {
    var d, d' := DataBefore(kinds), DataAfter(kinds, t);
    LookReplies(cat, d, t);
    LookReplies(cat, d', t);
    assert d'[t] == d[t] + [THEIR_ROW];
    assert Row(RowKey(0, 0), COLS) in Rows(d', ErpEndpoints);
    TheirRowIsSeen(cat, kinds, d', t);
    FilterMember(Seen(cat, App, d', MySettings(), t, Any()), d'[t], THEIR_ROW);
    FilterMember(Seen(cat, App, d, MySettings(), t, Any()), d[t], THEIR_ROW);
  }

  // --- the run ---

  function Both(t: TableName): seq<Tx> {
    [TheirTx(t)] + ([MyTx(t)] + [])
  }

  lemma TwoCalls(t: TableName)
    ensures Mine(Observer(ME, {}), Both(t)) == [MyTx(t)] + [] && Populated(Observer(ME, {}), Both(t))
    ensures Tagged(Both(t), 1) && Borrowable(Both(t), 2) && Borrowable([MyTx(t)] + [], 2)
  {
    var o := Observer(ME, {});
    assert Both(t)[1..] == [MyTx(t)] && [MyTx(t)][1..] == [] && [MyTx(t)] + [] == [MyTx(t)];
    assert Apart(o, Observer(OTHER, {THEIR_USER})) && Serves(Observer(OTHER, {THEIR_USER}), TheirTx(t));
    assert !Serves(o, TheirTx(t)) && Serves(o, MyTx(t));
    assert Mine(o, [MyTx(t)]) == [MyTx(t)];
    assert Populated(o, [MyTx(t)]) && Populated(o, Both(t));
    assert Tagged([MyTx(t)], 2);
  }

  lemma MyAnswer(t: TableName, outs: seq<Out>)
    requires |outs| == 2
    ensures |Both(t)| == 2 && MyOuts(Observer(ME, {}), Both(t), outs) == [outs[1]]
  {
    assert Both(t)[1..] == [MyTx(t)] && [MyTx(t)][1..] == [];
    assert !Serves(Observer(ME, {}), TheirTx(t)) && Serves(Observer(ME, {}), MyTx(t));
    assert MyOuts(Observer(ME, {}), [MyTx(t)], outs[1..]) == [outs[1]];
  }

  const IDLE_PAIR: seq<Conn> := [{}, {}]

  lemma TwoTenants(cat: Catalogue, kinds: Kinds, t: TableName)
    requires WrittenByUser(cat, kinds, t)
    ensures ManyTenants(MyWorld(cat, kinds), DataBefore(kinds), IDLE_PAIR, Both(t), DataBefore(kinds), IDLE_PAIR, 1)
  {
    TwoCalls(t);
    BeforeIsSound(cat, kinds);
    SameForSelf(MyWorld(cat, kinds), DataBefore(kinds));
  }

  lemma AloneRun(cat: Catalogue, d: Data, conns: seq<Conn>, t: TableName)
    requires |conns| == 2 && conns[1] == {}
    ensures var outs := RunAll(PoolRunner(cat, true), d, conns, [MyTx(t)] + []).outs;
      |outs| == 1 && outs[0].replies == RunTx(cat, true, d, {}, MyTx(t)).replies
  {
    RunAllStep(PoolRunner(cat, true), d, conns, MyTx(t), []);
  }

  lemma BothRun(cat: Catalogue, kinds: Kinds, t: TableName)
    requires WrittenByUser(cat, kinds, t)
    ensures Borrowable(Both(t), 2)
    ensures var outs := RunAll(PoolRunner(cat, true), DataBefore(kinds), IDLE_PAIR, Both(t)).outs;
      |outs| == 2 && outs[1].replies == RunTx(cat, true, DataAfter(kinds, t), {}, MyTx(t)).replies
  {
    TwoCalls(t);
    TheirTxInserts(cat, kinds, t);
    var x := PoolRunner(cat, true)(DataBefore(kinds), {}, TheirTx(t));
    RunAllStep(PoolRunner(cat, true), DataBefore(kinds), IDLE_PAIR, TheirTx(t), [MyTx(t)] + []);
    AloneRun(cat, DataAfter(kinds, t), IDLE_PAIR[0 := x.conn], t);
  }

  /** Two transactions on one pool: theirs writes a row in my name, and mine is told of it. */
  lemma TheyAreSeen(cat: Catalogue, kinds: Kinds, t: TableName)
    requires WrittenByUser(cat, kinds, t)
    ensures Borrowable(Both(t), 2) && Borrowable(Mine(Observer(ME, {}), Both(t)), 2)
    ensures !Purged(MyWorld(cat, kinds), PoolRunner(cat, true), DataBefore(kinds), IDLE_PAIR, Both(t),
      DataBefore(kinds), IDLE_PAIR)
  {
    TwoCalls(t);
    BothRun(cat, kinds, t);
    AloneRun(cat, DataBefore(kinds), IDLE_PAIR, t);
    MyAnswer(t, RunAll(PoolRunner(cat, true), DataBefore(kinds), IDLE_PAIR, Both(t)).outs);
    AnswersDiffer(cat, kinds, t);
  }

  // --- exactly when ---

  /**
   Whatever the tenants, databases, pools and calls, striking out the others' transactions changes
   nothing a tenant is told.
   */
  ghost predicate OthersNeverMatter(cat: Catalogue, kinds: Kinds, shared: bool) {
    forall o, d1, conns1, txs, d2, conns2, from: nat ::
      ManyTenants(World(o, cat, kinds, shared), d1, conns1, txs, d2, conns2, from) ==>
        Purged(World(o, cat, kinds, shared), PoolRunner(cat, true), d1, conns1, txs, d2, conns2)
  }

  /**
   Other tenants never matter exactly when the shared-Express policies are off, or both their tables
   are written by tenant.
   */
  lemma OthersMatterExactly(cat: Catalogue, kinds: Kinds, shared: bool)
    requires Enrolled(cat, kinds, shared) && (shared ==> ErpEndpoints in kinds)
    ensures OthersNeverMatter(cat, kinds, shared) <==> SharedByTenant(kinds, shared)
  {
    if SharedByTenant(kinds, shared) {
      AllKept(cat, kinds, shared);
    } else {
      var t :| t in kinds && IsSharedTable(t) && kinds[t].UserIso?;
      TwoTenants(cat, kinds, t);
      TheyAreSeen(cat, kinds, t);
    }
  }

  lemma AllKept(cat: Catalogue, kinds: Kinds, shared: bool)
    requires Enrolled(cat, kinds, shared) && (shared ==> ErpEndpoints in kinds) && SharedByTenant(kinds, shared)
    ensures OthersNeverMatter(cat, kinds, shared)
  {
    forall o, d1, conns1, txs, d2, conns2, from: nat
      | ManyTenants(World(o, cat, kinds, shared), d1, conns1, txs, d2, conns2, from)
      ensures Purged(World(o, cat, kinds, shared), PoolRunner(cat, true), d1, conns1, txs, d2, conns2)
    {
      OthersDoNotMatter(World(o, cat, kinds, shared), d1, conns1, txs, d2, conns2, from);
    }
  }
}
