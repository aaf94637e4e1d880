/** What a transaction leaves behind, and what each statement does, said without the functions that do it. */
module StatementEffects {
  import opened Common
  import opened RlsPolicy
  import opened PooledCursor
  import opened RlsIsolation
  import opened RlsRuns
  import opened NonInterference

  // --- what a transaction leaves behind ---

  /** Unless the block returned cleanly and asked for commit, the database is what it was. */
  lemma TxRollsBack(cat: Catalogue, roleConfigured: bool, data: Data, conn: Conn, tx: Tx)
    ensures var e := RunTx(cat, roleConfigured, data, conn, tx);
      !(e.returned && tx.commit) ==> e.data == data
  {
  }

  /** Statements one after the other, whoever asked for them: the database they leave, and their replies. */
  function InTurn(exec: Executor, data: Data, s: Settings, tag: nat, n: nat, stmts: seq<Stmt>): (Data, seq<Reply>)
    decreases |stmts|
  {
    if stmts == [] then (data, []) else
    var e := exec(data, s, RowKey(tag, n), stmts[0]);
    var rest := InTurn(exec, e.data, e.s, tag, n + 1, stmts[1..]);
    (rest.0, [e.reply] + rest.1)
  }

  /** The body asks for these statements, each after the replies so far, none fails, and then it returns. */
  ghost predicate Asked(body: Program, replies: seq<Reply>, stmts: seq<Stmt>, got: seq<Reply>)
    decreases |stmts|
  {
    if stmts == [] then got == [] && body(replies) == Return else
    && got != [] && body(replies) == Do(stmts[0]) && !got[0].Failed?
    && Asked(body, replies + [got[0]], stmts[1..], got[1..])
  }

  ghost predicate DidWhatWasAsked(exec: Executor, data: Data, s: Settings, tag: nat, n: nat, body: Program,
                                  replies: seq<Reply>, stmts: seq<Stmt>, b: BodyEnd) {
    var t := InTurn(exec, data, s, tag, n, stmts);
    b.data == t.0 && b.replies == replies + t.1 && Asked(body, replies, stmts, t.1)
  }

  lemma {:induction false} BodyDidWhatWasAsked(exec: Executor, data: Data, s: Settings, tag: nat, n: nat, body: Program,
                                               replies: seq<Reply>, steps: nat) returns (stmts: seq<Stmt>)
    requires RunBody(exec, data, s, tag, n, body, replies, steps).returned
    ensures DidWhatWasAsked(exec, data, s, tag, n, body, replies, stmts,
                            RunBody(exec, data, s, tag, n, body, replies, steps))
    ensures |stmts| <= steps
    decreases steps
  {
    stmts := [];
    if body(replies).Do? {
      var e := exec(data, s, RowKey(tag, n), body(replies).stmt);
      var b := RunBody(exec, e.data, e.s, tag, n + 1, body, replies + [e.reply], steps - 1);
      var rest := BodyDidWhatWasAsked(exec, e.data, e.s, tag, n + 1, body, replies + [e.reply], steps - 1);
      stmts := [body(replies).stmt] + rest;
      AskedFirst(exec, data, s, tag, n, body, replies, rest, b);
    }
  }

  lemma AskedFirst(exec: Executor, data: Data, s: Settings, tag: nat, n: nat, body: Program, replies: seq<Reply>,
                   rest: seq<Stmt>, b: BodyEnd)
    requires body(replies).Do?
    requires var e := exec(data, s, RowKey(tag, n), body(replies).stmt);
      !e.reply.Failed? && DidWhatWasAsked(exec, e.data, e.s, tag, n + 1, body, replies + [e.reply], rest, b)
    ensures DidWhatWasAsked(exec, data, s, tag, n, body, replies, [body(replies).stmt] + rest, b)
  {
    var stmt := body(replies).stmt;
    var e := exec(data, s, RowKey(tag, n), stmt);
    var stmts := [stmt] + rest;
    assert stmts[0] == stmt && stmts[1..] == rest;
    var t := InTurn(exec, e.data, e.s, tag, n + 1, rest);
    assert InTurn(exec, data, s, tag, n, stmts) == (t.0, [e.reply] + t.1);
    assert ([e.reply] + t.1)[1..] == t.1;
    assert replies + [e.reply] + t.1 == replies + ([e.reply] + t.1);
    assert Asked(body, replies, stmts, [e.reply] + t.1);
  }

  /** A clean return with commit leaves exactly what the statements asked for did, in their order. */
  lemma TxCommits(cat: Catalogue, roleConfigured: bool, data: Data, conn: Conn, tx: Tx)
    requires RunTx(cat, roleConfigured, data, conn, tx).returned && tx.commit
    ensures var e := RunTx(cat, roleConfigured, data, conn, tx);
      exists stmts :: Asked(tx.body, [], stmts, e.replies)
        && (e.data, e.replies)
        == InTurn(Server(cat, RoleOf(roleConfigured, tx)), data, Install(Idle(conn), tx), tx.tag, 0, stmts)
  {
    var exec := Server(cat, RoleOf(roleConfigured, tx));
    var stmts := BodyDidWhatWasAsked(exec, data, Install(Idle(conn), tx), tx.tag, 0, tx.body, [], tx.steps);
    var t := InTurn(exec, data, Install(Idle(conn), tx), tx.tag, 0, stmts);
    assert [] + t.1 == t.1;
    assert Asked(tx.body, [], stmts, RunTx(cat, roleConfigured, data, conn, tx).replies);
  }

  /**
   A transaction returns cleanly exactly when its body asks for statements that all succeed, no more than it
   is given time for, and then returns.
   */
  lemma TxReturnsExactly(cat: Catalogue, roleConfigured: bool, data: Data, conn: Conn, tx: Tx)
    ensures RunTx(cat, roleConfigured, data, conn, tx).returned <==>
      exists stmts :: |stmts| <= tx.steps && AskedInTurn(cat, roleConfigured, data, conn, tx, stmts)
  {
    if RunTx(cat, roleConfigured, data, conn, tx).returned {
      ReturnedAsked(cat, roleConfigured, data, conn, tx);
    }
    if stmts :| |stmts| <= tx.steps && AskedInTurn(cat, roleConfigured, data, conn, tx, stmts) {
      AskedReturns(Server(cat, RoleOf(roleConfigured, tx)), data, Install(Idle(conn), tx), tx.tag, 0, tx.body, [],
                   tx.steps, stmts);
    }
  }

  lemma ReturnedAsked(cat: Catalogue, roleConfigured: bool, data: Data, conn: Conn, tx: Tx)
    requires RunTx(cat, roleConfigured, data, conn, tx).returned
    ensures exists stmts :: |stmts| <= tx.steps && AskedInTurn(cat, roleConfigured, data, conn, tx, stmts)
  {
    var stmts := BodyDidWhatWasAsked(Server(cat, RoleOf(roleConfigured, tx)), data, Install(Idle(conn), tx), tx.tag, 0,
                                     tx.body, [], tx.steps);
    assert AskedInTurn(cat, roleConfigured, data, conn, tx, stmts);
  }

  ghost predicate AskedInTurn(cat: Catalogue, roleConfigured: bool, data: Data, conn: Conn, tx: Tx, stmts: seq<Stmt>) {
    var exec := Server(cat, RoleOf(roleConfigured, tx));
    Asked(tx.body, [], stmts, InTurn(exec, data, Install(Idle(conn), tx), tx.tag, 0, stmts).1)
  }

  lemma {:induction false} AskedReturns(exec: Executor, data: Data, s: Settings, tag: nat, n: nat, body: Program,
                                        replies: seq<Reply>, steps: nat, stmts: seq<Stmt>)
    requires |stmts| <= steps && Asked(body, replies, stmts, InTurn(exec, data, s, tag, n, stmts).1)
    ensures RunBody(exec, data, s, tag, n, body, replies, steps).returned
    decreases |stmts|
  {
    if stmts != [] {
      var e := exec(data, s, RowKey(tag, n), stmts[0]);
      AskedReturns(exec, e.data, e.s, tag, n + 1, body, replies + [e.reply], steps - 1, stmts[1..]);
    }
  }

  /** Every setting a transaction used, and nothing it forgot, is known to the connection afterwards. */
  lemma ConnectionRemembers(cat: Catalogue, roleConfigured: bool, data: Data, conn: Conn, tx: Tx)
    ensures conn + Install(map[], tx).Keys <= RunTx(cat, roleConfigured, data, conn, tx).conn
  {
    var exec := Server(cat, RoleOf(roleConfigured, tx));
    SettingsGrow(cat, RoleOf(roleConfigured, tx), data, Install(Idle(conn), tx), tx.tag, 0, tx.body, [], tx.steps);
  }

  lemma {:induction false} SettingsGrow(cat: Catalogue, role: Role, data: Data, s: Settings, tag: nat, n: nat,
      body: Program, replies: seq<Reply>, steps: nat)
    ensures s.Keys <= RunBody(Server(cat, role), data, s, tag, n, body, replies, steps).s.Keys
    decreases steps
  {
    if body(replies).Do? && steps > 0 {
      var e := Exec(cat, role, data, s, RowKey(tag, n), body(replies).stmt);
      if !e.reply.Failed? {
        SettingsGrow(cat, role, e.data, e.s, tag, n + 1, body, replies + [e.reply], steps - 1);
      }
    }
  }

  // --- what one statement does to a table of the four templates ---

  /** The rows that the installed tenant, workspace and user are entitled to and the condition picks. */
  function Picked(kind: Body, tx: Tx, where: Row -> bool): Row -> bool {
    (r: Row) => Entitled(kind, tx, r) && where(r)
  }

  predicate Context(cat: Catalogue, kinds: Kinds, d: Data, t: TableName, tx: Tx) {
    && Enrolled(cat, kinds, false) && t in kinds && IsBase(kinds[t]) && t in d && !tx.bypass
    && forall r :: r in d[t] ==> Typed(r)
  }

  lemma PicksMine(cat: Catalogue, kinds: Kinds, d: Data, conn: Conn, tx: Tx, t: TableName, where: Row -> bool)
    requires Context(cat, kinds, d, t, tx)
    ensures forall r :: r in d[t] ==>
      Seen(cat, App, d, Install(Idle(conn), tx), t, where)(r) == Picked(kinds[t], tx, where)(r)
    ensures forall r :: r in d[t] ==>
      Hit(cat, App, d, Install(Idle(conn), tx), t, where)(r) == Picked(kinds[t], tx, where)(r)
  {
    var s := Install(Idle(conn), tx);
    forall r | r in d[t]
      ensures Seen(cat, App, d, s, t, where)(r) == Picked(kinds[t], tx, where)(r)
      ensures Hit(cat, App, d, s, t, where)(r) == Picked(kinds[t], tx, where)(r)
    {
      ContextDecides(cat, kinds, d, conn, tx, t, r);
    }
  }

  /** A SELECT returns exactly the entitled rows that its condition picks, in order, and changes nothing. */
  lemma SelectReturnsMine(cat: Catalogue, kinds: Kinds, d: Data, conn: Conn, tx: Tx, t: TableName,
                          where: Row -> bool, n: nat)
    requires Context(cat, kinds, d, t, tx)
    ensures Exec(cat, App, d, Install(Idle(conn), tx), RowKey(tx.tag, n), Select(t, where))
      == ExecEnd(d, Install(Idle(conn), tx), Selected(Filter(Picked(kinds[t], tx, where), d[t])))
  {
    PicksMine(cat, kinds, d, conn, tx, t, where);
    FilterCong(Seen(cat, App, d, Install(Idle(conn), tx), t, where), Picked(kinds[t], tx, where), d[t]);
  }

  /** A DELETE removes exactly those rows, and counts them. */
  lemma DeleteRemovesMine(cat: Catalogue, kinds: Kinds, d: Data, conn: Conn, tx: Tx, t: TableName,
                          where: Row -> bool, n: nat)
    requires Context(cat, kinds, d, t, tx)
    ensures var mine := Picked(kinds[t], tx, where);
      Exec(cat, App, d, Install(Idle(conn), tx), RowKey(tx.tag, n), Delete(t, where))
      == ExecEnd(d[t := Filter(Not(mine), d[t])], Install(Idle(conn), tx), Affected(|Filter(mine, d[t])|))
  {
    var hit, mine := Hit(cat, App, d, Install(Idle(conn), tx), t, where), Picked(kinds[t], tx, where);
    PicksMine(cat, kinds, d, conn, tx, t, where);
    FilterCong(hit, mine, d[t]);
    FilterCong(Not(hit), Not(mine), d[t]);
  }

  /** An INSERT appends the row under the new key exactly when the context is entitled to it, and fails otherwise. */
  lemma InsertAddsMine(cat: Catalogue, kinds: Kinds, d: Data, conn: Conn, tx: Tx, t: TableName,
                       cols: map<Column, Value>, n: nat)
    requires Context(cat, kinds, d, t, tx)
    ensures var r := Row(RowKey(tx.tag, n), cols);
      Exec(cat, App, d, Install(Idle(conn), tx), RowKey(tx.tag, n), Insert(t, cols))
      == if Typed(r) && Entitled(kinds[t], tx, r)
         then ExecEnd(d[t := d[t] + [r]], Install(Idle(conn), tx), NewKey(r.id))
         else ExecEnd(d, Install(Idle(conn), tx), Failed)
  {
    var r := Row(RowKey(tx.tag, n), cols);
    if Typed(r) {
      ContextDecides(cat, kinds, d, conn, tx, t, r);
    }
  }

  /** A row after the assignment keeps its key; the columns assigned change, the others do not. */
  predicate Assigned(was: Row, now: Row, assign: Assignment) {
    && now.id == was.id && now.cols.Keys == was.cols.Keys + assign(was).Keys
    && (forall c :: c in assign(was) ==> now.cols[c] == assign(was)[c])
    && (forall c :: c in was.cols && c !in assign(was) ==> now.cols[c] == was.cols[c])
  }

  /** Exactly the rows picked were assigned to, each in its place. */
  predicate Updated(mine: Row -> bool, assign: Assignment, was: seq<Row>, now: seq<Row>) {
    && |now| == |was|
    && forall i :: 0 <= i < |was| ==> (if mine(was[i]) then Assigned(was[i], now[i], assign) else now[i] == was[i])
  }

  /** An UPDATE assigns to exactly those rows if every one of them stays typed and entitled; otherwise it fails. */
  lemma UpdateChangesMine(cat: Catalogue, kinds: Kinds, d: Data, conn: Conn, tx: Tx, t: TableName, where: Row -> bool,
                          assign: Assignment, n: nat)
    requires Context(cat, kinds, d, t, tx)
    ensures var mine := Picked(kinds[t], tx, where);
      var e := Exec(cat, App, d, Install(Idle(conn), tx), RowKey(tx.tag, n), Update(t, where, assign));
      && e.s == Install(Idle(conn), tx) && t in e.data
      && (if exists r :: r in d[t] && mine(r) && !StaysMine(kinds[t], tx, assign, r)
          then e.data == d && e.reply == Failed
          else e.data == d[t := e.data[t]] && Updated(mine, assign, d[t], e.data[t])
               && e.reply == Affected(|Filter(mine, d[t])|))
  {
    var s, mine := Install(Idle(conn), tx), Picked(kinds[t], tx, where);
    var hit := Hit(cat, App, d, s, t, where);
    PicksMine(cat, kinds, d, conn, tx, t, where);
    FilterCong(hit, mine, d[t]);
    forall r | r in d[t]
      ensures Acceptable(cat, App, d, s, t, Changed(assign, r)) == StaysMine(kinds[t], tx, assign, r)
    {
      AcceptsMine(cat, kinds, d, conn, tx, t, assign, r);
    }
    if exists r :: r in d[t] && mine(r) && !StaysMine(kinds[t], tx, assign, r) {
      UpdateRefuses(cat, d, s, RowKey(tx.tag, n), t, where, assign);
    } else {
      UpdateRewrites(cat, d, s, RowKey(tx.tag, n), t, where, assign);
      RewritesMine(hit, mine, assign, d[t]);
    }
  }

  lemma UpdateRefuses(cat: Catalogue, d: Data, s: Settings, key: RowKey, t: TableName, where: Row -> bool,
                      assign: Assignment)
    requires t in d
    requires exists r :: r in d[t] && Hit(cat, App, d, s, t, where)(r)
                         && !Acceptable(cat, App, d, s, t, Changed(assign, r))
    ensures Exec(cat, App, d, s, key, Update(t, where, assign)) == ExecEnd(d, s, Failed)
  {
  }

  lemma UpdateRewrites(cat: Catalogue, d: Data, s: Settings, key: RowKey, t: TableName, where: Row -> bool,
                       assign: Assignment)
    requires t in d
    requires forall r :: r in d[t] && Hit(cat, App, d, s, t, where)(r)
                         ==> Acceptable(cat, App, d, s, t, Changed(assign, r))
    ensures var hit := Hit(cat, App, d, s, t, where);
      Exec(cat, App, d, s, key, Update(t, where, assign))
      == ExecEnd(d[t := Map(Rewrite(hit, assign), d[t])], s, Affected(|Filter(hit, d[t])|))
  {
  }

  lemma AcceptsMine(cat: Catalogue, kinds: Kinds, d: Data, conn: Conn, tx: Tx, t: TableName, assign: Assignment, r: Row)
    requires Context(cat, kinds, d, t, tx)
    ensures Acceptable(cat, App, d, Install(Idle(conn), tx), t, Changed(assign, r))
         == StaysMine(kinds[t], tx, assign, r)
  {
    if Typed(Changed(assign, r)) {
      ContextDecides(cat, kinds, d, conn, tx, t, Changed(assign, r));
    }
  }

  lemma RewritesMine(hit: Row -> bool, mine: Row -> bool, assign: Assignment, rows: seq<Row>)
    requires forall r :: r in rows ==> hit(r) == mine(r)
    ensures Updated(mine, assign, rows, Map(Rewrite(hit, assign), rows))
  {
  }

  predicate StaysMine(kind: Body, tx: Tx, assign: Assignment, r: Row) {
    var now := Row(r.id, r.cols + assign(r));
    Typed(now) && Entitled(kind, tx, now)
  }

  // --- without a role, or with bypass ---

  /** Nothing but the column types binds the owner: every row may be added, and every row picked is deleted. */
  lemma OwnerWritesAll(cat: Catalogue, d: Data, s: Settings, key: RowKey, t: TableName, cols: map<Column, Value>,
                       where: Row -> bool, tx: Tx, roleConfigured: bool)
    requires t in d && (!roleConfigured || tx.bypass) && Typed(Row(key, cols))
    ensures var role := RoleOf(roleConfigured, tx);
      && Exec(cat, role, d, s, key, Insert(t, cols)) == ExecEnd(d[t := d[t] + [Row(key, cols)]], s, NewKey(key))
      && Exec(cat, role, d, s, key, Delete(t, where))
        == ExecEnd(d[t := Filter(Not(where), d[t])], s, Affected(|Filter(where, d[t])|))
  {
    FilterCong(Hit(cat, Owner, d, s, t, where), where, d[t]);
    FilterCong(Not(Hit(cat, Owner, d, s, t, where)), Not(where), d[t]);
  }

  /** With `app.bypass_rls` on the policies themselves admit every row. */
  lemma BypassAdmitsAll(cat: Catalogue, kinds: Kinds, shared: bool, d: Data, s: Settings, t: TableName, r: Row)
    requires Enrolled(cat, kinds, shared) && t in kinds && BypassRls in s && s[BypassRls] == "on"
    ensures Visible(cat, d, s, NESTING, t, r) && Writable(cat, d, s, t, r)
  {
    EnrolledVisible(cat, kinds, shared, d, s, NESTING, t, r);
    EnrolledWritable(cat, kinds, shared, d, s, t, r);
  }

  // --- the shared-Express gate ---

  /** The flag goes up exactly when sharing is ready and the pair named is the pair installed, neither of them empty. */
  lemma SharingTurnsOnExactly(cat: Catalogue, role: Role, d: Data, s: Settings, key: RowKey, ready: bool,
                             tenant: string, workspace: string)
    ensures var e := Exec(cat, role, d, s, key, EnableShared(ready, tenant, workspace));
      && e.data == d && e.reply.Flag?
      && (e.reply.on <==> (ready && tenant != "" && workspace != ""
                           && OrEmpty(s, CurrentTenant) == tenant && OrEmpty(s, CurrentWorkspace) == workspace))
      && (e.reply.on <==> Setting(e.s, SharedFlag) == Text("on"))
      && (forall g :: g in {CurrentTenant, CurrentWorkspace, CurrentUser, BypassRls}
            ==> Setting(e.s, g) == Setting(s, g))
  {
  }

  /** The columns of a row of this tenant and workspace. */
  predicate OwnColumns(r: Row, tenant: string, workspace: string) {
    r.Get(TenantId) == Text(tenant) && r.Get(WorkspaceClientId) == Text(workspace)
  }

  predicate OpenEndpoint(e: Row) {
    e.Get(Adapter) == Text("express") && e.Get(Enabled) == Text("true") && e.Get(SharedScope) == Text("true")
  }

  /** The flag is on, and the shared pair and the current pair are both this one. */
  predicate GateSet(s: Settings, tenant: string, workspace: string) {
    && SharedFlag in s && s[SharedFlag] == "on"
    && CurrentTenant in s && s[CurrentTenant] == tenant && SharedTenant in s && s[SharedTenant] == tenant
    && CurrentWorkspace in s && s[CurrentWorkspace] == workspace
    && SharedWorkspace in s && s[SharedWorkspace] == workspace
  }

  /** The shared endpoint policy shows exactly the enabled, shared express endpoints of the pair installed. */
  lemma SharedEndpointExactly(cat: Catalogue, d: Data, s: Settings, depth: nat, e: Row)
    ensures Holds(cat, d, s, depth, SharedPolicy(ErpEndpoints).body, e) == True <==>
      CurrentTenant in s && CurrentWorkspace in s && OpenEndpoint(e)
      && GateSet(s, s[CurrentTenant], s[CurrentWorkspace])
      && OwnColumns(e, s[CurrentTenant], s[CurrentWorkspace])
  {
  }

  /** The endpoint that the log names is such a one. */
  predicate Behind(e: Row, log: Row, tenant: string, workspace: string) {
    log.Get(EndpointId) == Key(e.id) && OpenEndpoint(e) && OwnColumns(e, tenant, workspace)
  }

  /** The shared log policy shows exactly the logs of the pair installed whose endpoint is such a one. */
  lemma SharedLogExactly(cat: Catalogue, kinds: Kinds, d: Data, s: Settings, log: Row)
    requires Enrolled(cat, kinds, true) && ErpEndpoints in kinds
    ensures Holds(cat, d, s, NESTING, SharedPolicy(ErpPushLogs).body, log) == True <==>
      CurrentTenant in s && CurrentWorkspace in s && GateSet(s, s[CurrentTenant], s[CurrentWorkspace])
      && OwnColumns(log, s[CurrentTenant], s[CurrentWorkspace])
      && exists e :: e in Rows(d, ErpEndpoints) && Behind(e, log, s[CurrentTenant], s[CurrentWorkspace])
  {
    if SharedGate(s, log) == True {
      GateMeans(s, log);
      EndpointBehindExactly(cat, kinds, d, s, log);
    }
  }

  lemma EndpointBehindExactly(cat: Catalogue, kinds: Kinds, d: Data, s: Settings, log: Row)
    requires Enrolled(cat, kinds, true) && ErpEndpoints in kinds && SharedGate(s, log) == True
    ensures CurrentTenant in s && CurrentWorkspace in s
    ensures HasEndpoint(cat, d, s, NESTING, log) <==>
      exists e :: e in Rows(d, ErpEndpoints) && Behind(e, log, s[CurrentTenant], s[CurrentWorkspace])
  {
    if HasEndpoint(cat, d, s, NESTING, log) {
      var e :| e in Rows(d, ErpEndpoints) && Visible(cat, d, s, 0, ErpEndpoints, e) && EndpointOfLog(e, log) == True;
      assert Behind(e, log, s[CurrentTenant], s[CurrentWorkspace]);
    }
    if e :| e in Rows(d, ErpEndpoints) && Behind(e, log, s[CurrentTenant], s[CurrentWorkspace]) {
      SharedEndpointExactly(cat, d, s, 0, e);
      EnrolledVisible(cat, kinds, true, d, s, 0, ErpEndpoints, e);
      assert EndpointOfLog(e, log) == True;
    }
  }
}
