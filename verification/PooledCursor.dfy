/**
 core/db.py's `get_cursor_rls`: one transaction on a pooled connection, with
 the tenant, workspace and user installed as transaction-local settings. The
 caller's body is any program that chooses its next statement from the replies
 it has had so far.
 */
module PooledCursor {
  import opened Common
  import opened RlsPolicy

  /** The columns that an UPDATE sets, and to what, for each row. */
  type Assignment = Row -> map<Column, Value>

  /** Conditions and assignments are arbitrary functions of the row. */
  datatype Stmt =
    | Select(table: TableName, where: Row -> bool)
    | Insert(table: TableName, cols: map<Column, Value>)
    | Update(table: TableName, where: Row -> bool, assign: Assignment)
    | Delete(table: TableName, where: Row -> bool)
    | EnableShared(ready: bool, tenant: string, workspace: string)

  datatype Reply = Selected(rows: seq<Row>) | Affected(count: nat) | NewKey(key: RowKey) | Flag(on: bool) | Failed

  datatype Step = Do(stmt: Stmt) | Return | Raise

  type Program = seq<Reply> -> Step

  datatype ExecEnd = ExecEnd(data: Data, s: Settings, reply: Reply)

  function Changed(assign: Assignment, r: Row): Row {
    r.(cols := r.cols + assign(r))
  }

  /** An UPDATE or DELETE reaches the rows that its WHERE picks among those it may see and write. */
  predicate Target(cat: Catalogue, role: Role, data: Data, s: Settings, t: TableName, where: Row -> bool, r: Row) {
    CanSee(cat, role, data, s, t, r) && CanWrite(cat, role, data, s, t, r) && where(r)
  }

  function Seen(cat: Catalogue, role: Role, data: Data, s: Settings, t: TableName, where: Row -> bool): Row -> bool {
    (r: Row) => CanSee(cat, role, data, s, t, r) && where(r)
  }

  function Hit(cat: Catalogue, role: Role, data: Data, s: Settings, t: TableName, where: Row -> bool): Row -> bool {
    (r: Row) => Target(cat, role, data, s, t, where, r)
  }

  function Not(f: Row -> bool): Row -> bool {
    (r: Row) => !f(r)
  }

  function Rewrite(hit: Row -> bool, assign: Assignment): Row -> Row {
    (r: Row) => if hit(r) then Changed(assign, r) else r
  }

  predicate Acceptable(cat: Catalogue, role: Role, data: Data, s: Settings, t: TableName, r: Row) {
    Typed(r) && CanWrite(cat, role, data, s, t, r)
  }

  /** services/erp's gate: the flag goes up only for the tenant and workspace already installed. */
  function SharedOn(s: Settings, ready: bool, tenant: string, workspace: string): Settings {
    var off := s[SharedFlag := "off"];
    if ready && tenant != "" && workspace != ""
       && Setting(s, CurrentTenant) == Text(tenant) && Setting(s, CurrentWorkspace) == Text(workspace)
    then off[SharedTenant := tenant][SharedWorkspace := workspace][SharedFlag := "on"]
    else off
  }

  function Exec(cat: Catalogue, role: Role, data: Data, s: Settings, key: RowKey, stmt: Stmt): (e: ExecEnd) {
    match stmt
    case EnableShared(ready, tenant, workspace) =>
      var s' := SharedOn(s, ready, tenant, workspace);
      ExecEnd(data, s', Flag(s'[SharedFlag] == "on"))
    case _ =>
      if stmt.table !in data then ExecEnd(data, s, Failed) else
      ExecOn(cat, role, data, s, key, stmt)
  }

  function ExecOn(cat: Catalogue, role: Role, data: Data, s: Settings, key: RowKey, stmt: Stmt): (e: ExecEnd)
    requires !stmt.EnableShared? && stmt.table in data
  {
    var t, rows := stmt.table, data[stmt.table];
    match stmt
    case Select(_, where) =>
      ExecEnd(data, s, Selected(Filter(Seen(cat, role, data, s, t, where), rows)))
    case Insert(_, cols) =>
      var r := Row(key, cols);
      if Acceptable(cat, role, data, s, t, r) then ExecEnd(data[t := rows + [r]], s, NewKey(key))
      else ExecEnd(data, s, Failed)
    case Update(_, where, assign) =>
      var hit := Hit(cat, role, data, s, t, where);
      if exists r :: r in rows && hit(r) && !Acceptable(cat, role, data, s, t, Changed(assign, r))
      then ExecEnd(data, s, Failed)
      else ExecEnd(data[t := Map(Rewrite(hit, assign), rows)], s, Affected(|Filter(hit, rows)|))
    case Delete(_, where) =>
      var hit := Hit(cat, role, data, s, t, where);
      ExecEnd(data[t := Filter(Not(hit), rows)], s, Affected(|Filter(hit, rows)|))
  }

  datatype BodyEnd = BodyEnd(data: Data, s: Settings, replies: seq<Reply>, returned: bool)

  type Executor = (Data, Settings, RowKey, Stmt) -> ExecEnd

  /** What executes a statement for a session of the given role. */
  function Server(cat: Catalogue, role: Role): Executor {
    (data: Data, s: Settings, key: RowKey, stmt: Stmt) => Exec(cat, role, data, s, key, stmt)
  }

  /** The first failing statement aborts the transaction; a body that runs too long is cut off. */
  function RunBody(exec: Executor, data: Data, s: Settings, tag: nat, n: nat,
                   body: Program, replies: seq<Reply>, steps: nat): (e: BodyEnd)
    decreases steps
  {
    match body(replies)
    case Return => BodyEnd(data, s, replies, true)
    case Raise => BodyEnd(data, s, replies, false)
    case Do(stmt) =>
      if steps == 0 then BodyEnd(data, s, replies, false) else
      var e := exec(data, s, RowKey(tag, n), stmt);
      if e.reply.Failed? then BodyEnd(e.data, e.s, replies + [e.reply], false)
      else RunBody(exec, e.data, e.s, tag, n + 1, body, replies + [e.reply], steps - 1)
  }

  datatype Tx = Tx(tag: nat, conn: nat, tenant: Option<string>, bypass: bool, commit: bool,
                   workspace: Option<string>, user: Option<string>, steps: nat, body: Program)

  /** Between transactions a connection remembers only which settings were ever used on it. */
  type Conn = set<Guc>

  /** A setting that was used and undone reads as the empty string. */
  function Idle(conn: Conn): Settings {
    map g | g in conn :: ""
  }

  function Install(s: Settings, tx: Tx): Settings {
    if tx.bypass then s[BypassRls := "on"] else
    var s1 := if tx.tenant.Some? && tx.tenant.value != "" then s[CurrentTenant := tx.tenant.value] else s;
    var s2 := if tx.workspace.Some? then s1[CurrentWorkspace := tx.workspace.value] else s1;
    if tx.user.Some? then s2[CurrentUser := tx.user.value] else s2
  }

  /** `SET LOCAL ROLE` happens when RLS_ROLE names a role and the caller did not ask for bypass. */
  function RoleOf(roleConfigured: bool, tx: Tx): Role {
    if roleConfigured && !tx.bypass then App else Owner
  }

  datatype TxEnd = TxEnd(data: Data, conn: Conn, replies: seq<Reply>, returned: bool)

  function RunTx(cat: Catalogue, roleConfigured: bool, data: Data, conn: Conn, tx: Tx): (e: TxEnd) {
    var b := RunBody(Server(cat, RoleOf(roleConfigured, tx)), data, Install(Idle(conn), tx),
                     tx.tag, 0, tx.body, [], tx.steps);
    TxEnd(if b.returned && tx.commit then b.data else data, conn + b.s.Keys, b.replies, b.returned)
  }

  class Pool {
    const cat: Catalogue
    const roleConfigured: bool
    var data: Data
    var conns: seq<Conn>

    constructor (cat: Catalogue, roleConfigured: bool, data: Data, size: nat)
      ensures this.cat == cat && this.roleConfigured == roleConfigured && this.data == data
      ensures conns == seq(size, i => {})
    {
      this.cat, this.roleConfigured, this.data := cat, roleConfigured, data;
      conns := seq(size, i => {});
    }

    /** Borrow, install the context, run the body, commit or roll back, hand back. */
    method GetCursorRls(tx: Tx) returns (replies: seq<Reply>, returned: bool)
      requires tx.conn < |conns|
      modifies this
      ensures var e := RunTx(cat, roleConfigured, old(data), old(conns)[tx.conn], tx);
        data == e.data && conns == old(conns)[tx.conn := e.conn] && replies == e.replies && returned == e.returned
    {
      var s: Settings := map g | g in conns[tx.conn] :: "";
      var role := Owner;
      if roleConfigured && !tx.bypass {
        role := App;
      }
      if tx.bypass {
        s := s[BypassRls := "on"];
      } else {
        if tx.tenant.Some? && tx.tenant.value != "" {
          s := s[CurrentTenant := tx.tenant.value];
        }
        if tx.workspace.Some? {
          s := s[CurrentWorkspace := tx.workspace.value];
        }
        if tx.user.Some? {
          s := s[CurrentUser := tx.user.value];
        }
      }
      var b := Serve(Server(cat, role), data, s, tx.tag, tx.body, tx.steps);
      replies, returned := b.replies, b.returned;
      conns := conns[tx.conn := conns[tx.conn] + b.s.Keys];
      if returned && tx.commit {
        data := b.data;
      }
    }
  }

  /** The caller's `with` block: ask the body for a statement, execute it, until it is done or fails. */
  method Serve(exec: Executor, data: Data, s: Settings, tag: nat, body: Program, steps: nat) returns (e: BodyEnd)
    ensures e == RunBody(exec, data, s, tag, 0, body, [], steps)
  {
    var n := 0;
    e := BodyEnd(data, s, [], false);
    while true
      invariant n <= steps && !e.returned
      invariant RunBody(exec, e.data, e.s, tag, n, body, e.replies, steps - n)
             == RunBody(exec, data, s, tag, 0, body, [], steps)
      decreases steps - n
    {
      var step := body(e.replies);
      if step.Return? {
        e := e.(returned := true);
        return;
      }
      if step.Raise? || n == steps {
        return;
      }
      var x := exec(e.data, e.s, RowKey(tag, n), step.stmt);
      e := BodyEnd(x.data, x.s, e.replies + [x.reply], false);
      if x.reply.Failed? {
        return;
      }
      n := n + 1;
    }
  }
}
