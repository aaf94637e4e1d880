/**
 Row-level security as core/rls.py writes it: every policy string is a
 predicate over one row and the session settings, in SQL's three-valued logic.
 Permissive policies are OR-ed, USING guards existing rows, WITH CHECK guards
 new ones, and the EXISTS of a policy sees its table through that table's own
 SELECT policies.
 */
module RlsPolicy {

  /** A generated key: the number of the transaction that made the row, and which of its rows it is. */
  datatype RowKey = RowKey(tx: nat, n: nat)

  datatype Value = Null | Text(s: string) | Key(k: RowKey)

  datatype Column =
    | TenantId | WorkspaceClientId | UserId
    | Adapter | Enabled | SharedScope | EndpointId
    | Other(name: string)

  /** Typed columns (uuid, bigint) hold their `::text` form. */
  datatype Row = Row(id: RowKey, cols: map<Column, Value>) {
    function Get(c: Column): Value {
      if c in cols then cols[c] else Null
    }
  }

  datatype TableName = ErpEndpoints | ErpPushLogs | Named(name: string)

  type Data = map<TableName, seq<Row>>

  function Rows(data: Data, t: TableName): seq<Row> {
    if t in data then data[t] else []
  }

  /** The custom settings ("app.…") that the policies read. */
  datatype Guc =
    | BypassRls | CurrentTenant | CurrentWorkspace | CurrentUser
    | SharedFlag | SharedTenant | SharedWorkspace

  type Settings = map<Guc, string>

  /** `current_setting(g, true)`: NULL until the setting is first used. */
  function Setting(s: Settings, g: Guc): Value {
    if g in s then Text(s[g]) else Null
  }

  datatype Tri = True | False | Unknown

  function Tri3(b: bool): Tri { if b then True else False }

  function And3(a: Tri, b: Tri): Tri {
    if a == False || b == False then False
    else if a == True && b == True then True else Unknown
  }

  function Or3(a: Tri, b: Tri): Tri {
    if a == True || b == True then True
    else if a == False && b == False then False else Unknown
  }

  function Eq3(a: Value, b: Value): Tri {
    if a == Null || b == Null then Unknown else Tri3(a == b)
  }

  // --- the predicates of core/rls.py ---

  function Bypass(s: Settings): Tri { Eq3(Setting(s, BypassRls), Text("on")) }

  function TenantEq(s: Settings, r: Row): Tri { Eq3(r.Get(TenantId), Setting(s, CurrentTenant)) }

  function UserEq(s: Settings, r: Row): Tri { Eq3(r.Get(UserId), Setting(s, CurrentUser)) }

  function WsMatch(s: Settings, r: Row): Tri {
    var ws := Setting(s, CurrentWorkspace);
    Or3(Or3(Tri3(ws == Null), Eq3(ws, Text(""))), Eq3(r.Get(WorkspaceClientId), ws))
  }

  /** An orphan row falls back on its user. */
  function TenantOrUser(s: Settings, r: Row): Tri {
    Or3(TenantEq(s, r), And3(Tri3(r.Get(TenantId) == Null), UserEq(s, r)))
  }

  /** The part that the two shared-Express SELECT policies have in common. */
  function SharedGate(s: Settings, r: Row): Tri {
    And3(Eq3(Setting(s, SharedFlag), Text("on")),
    And3(Eq3(Setting(s, SharedTenant), Setting(s, CurrentTenant)),
    And3(Eq3(Setting(s, SharedWorkspace), Setting(s, CurrentWorkspace)),
    And3(Tri3(r.Get(TenantId) != Null && r.Get(WorkspaceClientId) != Null),
    And3(Eq3(r.Get(TenantId), Setting(s, SharedTenant)),
    And3(Eq3(r.Get(WorkspaceClientId), Setting(s, SharedWorkspace)),
    And3(TenantEq(s, r),
         Eq3(r.Get(WorkspaceClientId), Setting(s, CurrentWorkspace)))))))))
  }

  function IsSharedExpress(e: Row): Tri {
    And3(Eq3(e.Get(Adapter), Text("express")),
    And3(Eq3(e.Get(Enabled), Text("true")), Eq3(e.Get(SharedScope), Text("true"))))
  }

  function EndpointOfLog(e: Row, log: Row): Tri {
    And3(Eq3(Key(e.id), log.Get(EndpointId)),
    And3(IsSharedExpress(e),
    And3(Eq3(e.Get(TenantId), log.Get(TenantId)),
         Eq3(e.Get(WorkspaceClientId), log.Get(WorkspaceClientId)))))
  }

  // --- policies and the catalogue ---

  /** `byTenant` says which inner predicate the child policy repeats for its parent. */
  datatype Body =
    | TenantIso | TenantWsIso | TenantOrUserIso | UserIso
    | ViaParent(parent: TableName, fk: Column, byTenant: bool)
    | SharedEndpointSelect | SharedLogSelect

  datatype Command = ForAll | ForSelect

  datatype Policy = Policy(command: Command, body: Body)

  datatype TableDef = TableDef(rls: bool, force: bool, policies: map<string, Policy>)

  type Catalogue = map<TableName, TableDef>

  /** `App` is the NOBYPASSRLS role; the pool's own login has BYPASSRLS. */
  datatype Role = App | Owner

  /** Deeper nesting does not occur: a parent's own policies hold no EXISTS. */
  const NESTING := 1

  predicate IsBase(k: Body) {
    k.TenantIso? || k.TenantWsIso? || k.TenantOrUserIso? || k.UserIso?
  }

  /** The four templates over a row's own columns. */
  function BaseHolds(s: Settings, body: Body, r: Row): Tri
    requires IsBase(body)
  {
    match body
    case TenantIso => Or3(TenantEq(s, r), Bypass(s))
    case TenantWsIso => Or3(And3(TenantEq(s, r), WsMatch(s, r)), Bypass(s))
    case TenantOrUserIso => Or3(TenantOrUser(s, r), Bypass(s))
    case UserIso => Or3(UserEq(s, r), Bypass(s))
  }

  function Inner(s: Settings, byTenant: bool, p: Row): Tri {
    if byTenant then TenantOrUser(s, p) else UserEq(s, p)
  }

  /** The value of a policy's USING (its WITH CHECK is the same text) for row `r`. */
  function Holds(cat: Catalogue, data: Data, s: Settings, depth: nat, body: Body, r: Row): Tri
    decreases depth, 1
  {
    match body
    case ViaParent(_, _, _) => Or3(Tri3(HasParent(cat, data, s, depth, body, r)), Bypass(s))
    case SharedEndpointSelect => And3(SharedGate(s, r), IsSharedExpress(r))
    case SharedLogSelect => And3(SharedGate(s, r), Tri3(HasEndpoint(cat, data, s, depth, r)))
    case _ => BaseHolds(s, body, r)
  }

  predicate HasParent(cat: Catalogue, data: Data, s: Settings, depth: nat, body: Body, r: Row)
    requires body.ViaParent?
    decreases depth, 0
  {
    depth > 0 &&
    exists p :: p in Rows(data, body.parent)
      && Visible(cat, data, s, depth - 1, body.parent, p)
      && And3(Eq3(Key(p.id), r.Get(body.fk)), Inner(s, body.byTenant, p)) == True
  }

  predicate HasEndpoint(cat: Catalogue, data: Data, s: Settings, depth: nat, r: Row)
    decreases depth, 0
  {
    depth > 0 &&
    exists e :: e in Rows(data, ErpEndpoints)
      && Visible(cat, data, s, depth - 1, ErpEndpoints, e)
      && EndpointOfLog(e, r) == True
  }

  /** Some permissive policy that covers SELECT lets the app role see `r`. */
  predicate Visible(cat: Catalogue, data: Data, s: Settings, depth: nat, t: TableName, r: Row)
    decreases depth, 2
  {
    t in cat && (cat[t].rls ==>
      exists name :: name in cat[t].policies
        && Holds(cat, data, s, depth, cat[t].policies[name].body, r) == True)
  }

  /** Some permissive policy that covers writing accepts `r`, as an existing row or as a new one. */
  predicate Writable(cat: Catalogue, data: Data, s: Settings, t: TableName, r: Row) {
    t in cat && (cat[t].rls ==>
      exists name :: name in cat[t].policies && cat[t].policies[name].command == ForAll
        && Holds(cat, data, s, NESTING, cat[t].policies[name].body, r) == True)
  }

  /** The owner's BYPASSRLS login skips every policy, FORCE or not. */
  predicate CanSee(cat: Catalogue, role: Role, data: Data, s: Settings, t: TableName, r: Row) {
    role == Owner || Visible(cat, data, s, NESTING, t, r)
  }

  predicate CanWrite(cat: Catalogue, role: Role, data: Data, s: Settings, t: TableName, r: Row) {
    role == Owner || Writable(cat, data, s, t, r)
  }

  // --- enrolled catalogues ---

  const TENANT_ISOLATION := "tenant_isolation"
  const SHARED_SELECT := "shared_express_select"

  predicate IsSharedTable(t: TableName) { t == ErpEndpoints || t == ErpPushLogs }

  function SharedPolicy(t: TableName): Policy
    requires IsSharedTable(t)
  {
    Policy(ForSelect, if t == ErpEndpoints then SharedEndpointSelect else SharedLogSelect)
  }

  /** What table `t` of kind `k` carries once enrolled, with or without the shared-Express policies. */
  function PoliciesOf(t: TableName, k: Body, shared: bool): map<string, Policy> {
    var base := map[TENANT_ISOLATION := Policy(ForAll, k)];
    if shared && IsSharedTable(t) then base[SHARED_SELECT := SharedPolicy(t)] else base
  }

  type Kinds = map<TableName, Body>

  /** A child names a parent that is itself enrolled with the parent's own template. */
  predicate KindsOk(kinds: Kinds) {
    forall t :: t in kinds ==> IsBase(kinds[t]) || ChildOk(kinds, t)
  }

  predicate ChildOk(kinds: Kinds, t: TableName)
    requires t in kinds
  {
    var k := kinds[t];
    && k.ViaParent? && !IsSharedTable(t) && !IsSharedTable(k.parent)
    && k.parent in kinds && kinds[k.parent] == if k.byTenant then TenantOrUserIso else UserIso
  }

  predicate Enrolled(cat: Catalogue, kinds: Kinds, shared: bool) {
    KindsOk(kinds) && cat.Keys == kinds.Keys
    && forall t :: t in kinds ==> cat[t].rls && cat[t].policies == PoliciesOf(t, kinds[t], shared)
  }

  // --- what the policies mean ---

  /** The stored text of an id is never the empty string. */
  predicate Typed(r: Row) {
    forall c :: c in {TenantId, WorkspaceClientId, UserId} ==>
      r.Get(c) == Null || (r.Get(c).Text? && r.Get(c).s != "")
  }

  function OrEmpty(s: Settings, g: Guc): string {
    if g in s then s[g] else ""
  }

  /** Two sessions that differ only in NULL against '' (a setting never used, or used and undone). */
  predicate Similar(s1: Settings, s2: Settings) {
    forall g: Guc {:trigger OrEmpty(s1, g)} {:trigger OrEmpty(s2, g)} :: OrEmpty(s1, g) == OrEmpty(s2, g)
  }

  /** Under an enrolled catalogue the policies of a table spell out to these. */
  lemma EnrolledVisible(cat: Catalogue, kinds: Kinds, shared: bool, data: Data, s: Settings, depth: nat, t: TableName,
      r: Row)
    requires Enrolled(cat, kinds, shared) && t in kinds
    ensures Visible(cat, data, s, depth, t, r) <==>
            Holds(cat, data, s, depth, kinds[t], r) == True
            || (shared && IsSharedTable(t) && Holds(cat, data, s, depth, SharedPolicy(t).body, r) == True)
  {
    var ps := cat[t].policies;
    assert TENANT_ISOLATION in ps && ps[TENANT_ISOLATION].body == kinds[t];
    if shared && IsSharedTable(t) {
      assert SHARED_SELECT in ps && ps[SHARED_SELECT].body == SharedPolicy(t).body;
    }
  }

  lemma EnrolledWritable(cat: Catalogue, kinds: Kinds, shared: bool, data: Data, s: Settings, t: TableName, r: Row)
    requires Enrolled(cat, kinds, shared) && t in kinds
    ensures Writable(cat, data, s, t, r) <==> Holds(cat, data, s, NESTING, kinds[t], r) == True
  {
    var ps := cat[t].policies;
    assert TENANT_ISOLATION in ps && ps[TENANT_ISOLATION] == Policy(ForAll, kinds[t]);
  }

  /** Whoever may write a row may also see it. */
  lemma WritableIsVisible(cat: Catalogue, kinds: Kinds, shared: bool, data: Data, s: Settings, t: TableName, r: Row)
    requires Enrolled(cat, kinds, shared) && t in kinds
    requires Writable(cat, data, s, t, r)
    ensures Visible(cat, data, s, NESTING, t, r)
  {
    EnrolledVisible(cat, kinds, shared, data, s, NESTING, t, r);
    EnrolledWritable(cat, kinds, shared, data, s, t, r);
  }

  /** RLS on with no policy denies everything to the app role. */
  lemma NoPolicyDeniesAll(cat: Catalogue, data: Data, s: Settings, depth: nat, t: TableName, r: Row)
    requires t in cat && cat[t].rls && cat[t].policies == map[]
    ensures !Visible(cat, data, s, depth, t, r) && !Writable(cat, data, s, t, r)
  {
  }

  /** A table of base kind that carries no shared policy decides by its own columns alone. */
  lemma FlatVisible(cat: Catalogue, kinds: Kinds, shared: bool, data: Data, s: Settings, depth: nat, t: TableName,
      r: Row)
    requires Enrolled(cat, kinds, shared) && t in kinds && IsBase(kinds[t]) && !(shared && IsSharedTable(t))
    ensures Visible(cat, data, s, depth, t, r) <==> BaseHolds(s, kinds[t], r) == True
  {
    EnrolledVisible(cat, kinds, shared, data, s, depth, t, r);
  }

  /** The row's own columns point at a parent row that passes the inner predicate. */
  predicate PointsAt(s: Settings, k: Body, r: Row, p: Row)
    requires k.ViaParent?
  {
    r.Get(k.fk) == Key(p.id) && Inner(s, k.byTenant, p) == True
  }

  /** Some row of the parent table is so pointed at, filtered or not. */
  predicate HasPointee(data: Data, s: Settings, k: Body, r: Row)
    requires k.ViaParent?
  {
    exists p :: p in Rows(data, k.parent) && PointsAt(s, k, r, p)
  }

  /** The parent's filter inside the EXISTS removes nothing that the inner predicate admits. */
  lemma HasParentMeans(cat: Catalogue, kinds: Kinds, shared: bool, data: Data, s: Settings, depth: nat, t: TableName,
      r: Row)
    requires Enrolled(cat, kinds, shared) && t in kinds && kinds[t].ViaParent? && depth > 0
    ensures HasParent(cat, data, s, depth, kinds[t], r) <==> HasPointee(data, s, kinds[t], r)
  {
    var k := kinds[t];
    assert ChildOk(kinds, t);
    forall p | p in Rows(data, k.parent) && Inner(s, k.byTenant, p) == True
      ensures Visible(cat, data, s, depth - 1, k.parent, p)
    {
      FlatVisible(cat, kinds, shared, data, s, depth - 1, k.parent, p);
    }
    if p :| p in Rows(data, k.parent) && PointsAt(s, k, r, p) {
      assert Visible(cat, data, s, depth - 1, k.parent, p);
    }
  }

  lemma ParentVisible(cat: Catalogue, kinds: Kinds, shared: bool, data: Data, s: Settings, t: TableName, p: Row)
    requires Enrolled(cat, kinds, shared) && t in kinds && kinds[t].ViaParent?
    requires Bypass(s) != True
    ensures Visible(cat, data, s, NESTING, kinds[t].parent, p) <==> Inner(s, kinds[t].byTenant, p) == True
  {
    assert ChildOk(kinds, t);
    FlatVisible(cat, kinds, shared, data, s, NESTING, kinds[t].parent, p);
  }

  /**
   The EXISTS of a child policy is itself filtered by the parent's policies, and still says
   exactly "some visible parent row carries this key": for reading and for writing.
   */
  lemma ChildFollowsParent(cat: Catalogue, kinds: Kinds, shared: bool, data: Data, s: Settings, t: TableName, r: Row)
    requires Enrolled(cat, kinds, shared) && t in kinds && kinds[t].ViaParent?
    requires Bypass(s) != True
    ensures Visible(cat, data, s, NESTING, t, r) <==>
            exists p :: p in Rows(data, kinds[t].parent) && r.Get(kinds[t].fk) == Key(p.id)
              && Visible(cat, data, s, NESTING, kinds[t].parent, p)
    ensures Writable(cat, data, s, t, r) <==> Visible(cat, data, s, NESTING, t, r)
  {
    var k := kinds[t];
    assert ChildOk(kinds, t);
    EnrolledVisible(cat, kinds, shared, data, s, NESTING, t, r);
    EnrolledWritable(cat, kinds, shared, data, s, t, r);
    HasParentMeans(cat, kinds, shared, data, s, NESTING, t, r);
    if p :| p in Rows(data, k.parent) && PointsAt(s, k, r, p) {
      ParentVisible(cat, kinds, shared, data, s, t, p);
    }
    if p :| p in Rows(data, k.parent) && r.Get(k.fk) == Key(p.id) && Visible(cat, data, s, NESTING, k.parent, p) {
      ParentVisible(cat, kinds, shared, data, s, t, p);
      assert PointsAt(s, k, r, p);
    }
  }

  /** An endpoint is seen by its own columns, however deep the look. */
  lemma EndpointIsFlat(cat: Catalogue, kinds: Kinds, shared: bool, data: Data, s: Settings, depth: nat, e: Row)
    requires Enrolled(cat, kinds, shared)
    ensures Visible(cat, data, s, depth, ErpEndpoints, e) <==> Visible(cat, data, s, 0, ErpEndpoints, e)
  {
    if ErpEndpoints in kinds {
      EnrolledVisible(cat, kinds, shared, data, s, depth, ErpEndpoints, e);
      EnrolledVisible(cat, kinds, shared, data, s, 0, ErpEndpoints, e);
    }
  }

  lemma EndpointNesting(cat: Catalogue, kinds: Kinds, shared: bool, data: Data, s: Settings, depth: nat, r: Row)
    requires Enrolled(cat, kinds, shared) && depth >= NESTING
    ensures HasEndpoint(cat, data, s, depth, r) <==> HasEndpoint(cat, data, s, NESTING, r)
  {
    forall e ensures Visible(cat, data, s, depth - 1, ErpEndpoints, e) <==> Visible(cat, data, s, 0, ErpEndpoints, e) {
      EndpointIsFlat(cat, kinds, shared, data, s, depth - 1, e);
    }
  }

  lemma SharedNesting(cat: Catalogue, kinds: Kinds, shared: bool, data: Data, s: Settings, depth: nat, t: TableName,
      r: Row)
    requires Enrolled(cat, kinds, shared) && IsSharedTable(t) && depth >= NESTING
    ensures Holds(cat, data, s, depth, SharedPolicy(t).body, r) == Holds(cat, data, s, NESTING, SharedPolicy(t).body, r)
  {
    EndpointNesting(cat, kinds, shared, data, s, depth, r);
  }

  lemma KindNesting(cat: Catalogue, kinds: Kinds, shared: bool, data: Data, s: Settings, depth: nat, t: TableName,
      r: Row)
    requires Enrolled(cat, kinds, shared) && t in kinds && depth >= NESTING
    ensures Holds(cat, data, s, depth, kinds[t], r) == Holds(cat, data, s, NESTING, kinds[t], r)
  {
    if kinds[t].ViaParent? {
      HasParentMeans(cat, kinds, shared, data, s, depth, t, r);
      HasParentMeans(cat, kinds, shared, data, s, NESTING, t, r);
    }
  }

  /** More nesting would not change any decision: the tables that policies look into decide by their own columns. */
  lemma NestingIsEnough(cat: Catalogue, kinds: Kinds, shared: bool, data: Data, s: Settings, depth: nat, t: TableName,
      r: Row)
    requires Enrolled(cat, kinds, shared) && t in kinds && depth >= NESTING
    ensures Visible(cat, data, s, depth, t, r) <==> Visible(cat, data, s, NESTING, t, r)
  {
    EnrolledVisible(cat, kinds, shared, data, s, NESTING, t, r);
    EnrolledVisible(cat, kinds, shared, data, s, depth, t, r);
    KindNesting(cat, kinds, shared, data, s, depth, t, r);
    if IsSharedTable(t) {
      SharedNesting(cat, kinds, shared, data, s, depth, t, r);
    }
  }

  /** The endpoint that entitles a shared log row to be seen. */
  ghost predicate BackedByEndpoint(data: Data, r: Row) {
    exists e :: e in Rows(data, ErpEndpoints) && IsSharedExpress(e) == True
      && r.Get(EndpointId) == Key(e.id)
      && e.Get(TenantId) == r.Get(TenantId) && e.Get(WorkspaceClientId) == r.Get(WorkspaceClientId)
  }

  /**
   A row of the current tenant and workspace, with the shared flag on, that is or belongs to an
   enabled shared endpoint.
   */
  ghost predicate OwnSharedRow(data: Data, s: Settings, t: TableName, r: Row) {
    && Setting(s, SharedFlag) == Text("on")
    && r.Get(TenantId) != Null && r.Get(TenantId) == Setting(s, CurrentTenant)
    && r.Get(WorkspaceClientId) != Null && r.Get(WorkspaceClientId) == Setting(s, CurrentWorkspace)
    && (t == ErpEndpoints ==> IsSharedExpress(r) == True)
    && (t != ErpEndpoints ==> t == ErpPushLogs && BackedByEndpoint(data, r))
  }

  lemma GateMeans(s: Settings, r: Row)
    requires SharedGate(s, r) == True
    ensures Setting(s, SharedFlag) == Text("on")
    ensures r.Get(TenantId) != Null && r.Get(TenantId) == Setting(s, CurrentTenant)
    ensures r.Get(WorkspaceClientId) != Null && r.Get(WorkspaceClientId) == Setting(s, CurrentWorkspace)
  {
  }

  lemma EndpointBacks(cat: Catalogue, data: Data, s: Settings, depth: nat, r: Row)
    requires HasEndpoint(cat, data, s, depth, r)
    ensures BackedByEndpoint(data, r)
  {
    var e :|
      e in Rows(data, ErpEndpoints) && Visible(cat, data, s, depth - 1, ErpEndpoints, e) && EndpointOfLog(e, r) == True;
    assert IsSharedExpress(e) == True && r.Get(EndpointId) == Key(e.id);
  }

  lemma SharedPolicyMeans(cat: Catalogue, data: Data, s: Settings, t: TableName, r: Row)
    requires IsSharedTable(t) && Holds(cat, data, s, NESTING, SharedPolicy(t).body, r) == True
    ensures OwnSharedRow(data, s, t, r)
  {
    GateMeans(s, r);
    if t == ErpPushLogs {
      EndpointBacks(cat, data, s, NESTING, r);
    }
  }

  /**
   The two shared-Express policies only ever add visibility, only while the flag is on, and only
   for rows of the current tenant and workspace that are, or belong to, an enabled shared endpoint.
   No write decision changes.
   */
  lemma SharedOnlyAddsOwnRows(plain: Catalogue, wide: Catalogue, kinds: Kinds, data: Data, s: Settings, t: TableName,
      r: Row)
    requires Enrolled(plain, kinds, false) && Enrolled(wide, kinds, true) && t in kinds
    ensures Writable(wide, data, s, t, r) <==> Writable(plain, data, s, t, r)
    ensures Visible(plain, data, s, NESTING, t, r) ==> Visible(wide, data, s, NESTING, t, r)
    ensures Visible(wide, data, s, NESTING, t, r) && !Visible(plain, data, s, NESTING, t, r) ==>
      OwnSharedRow(data, s, t, r)
  {
    EnrolledVisible(plain, kinds, false, data, s, NESTING, t, r);
    EnrolledVisible(wide, kinds, true, data, s, NESTING, t, r);
    EnrolledWritable(plain, kinds, false, data, s, t, r);
    EnrolledWritable(wide, kinds, true, data, s, t, r);
    SameKindDecision(plain, wide, kinds, data, s, t, r);
    if Visible(wide, data, s, NESTING, t, r) && !Visible(plain, data, s, NESTING, t, r) {
      SharedPolicyMeans(wide, data, s, t, r);
    }
  }

  /** The table's own template decides alike in both catalogues, since parents are not shared tables. */
  lemma SameKindDecision(plain: Catalogue, wide: Catalogue, kinds: Kinds, data: Data, s: Settings, t: TableName, r: Row)
    requires Enrolled(plain, kinds, false) && Enrolled(wide, kinds, true) && t in kinds
    ensures Holds(plain, data, s, NESTING, kinds[t], r) == Holds(wide, data, s, NESTING, kinds[t], r)
  {
    if kinds[t].ViaParent? {
      var parent := kinds[t].parent;
      assert ChildOk(kinds, t);
      forall p ensures Visible(plain, data, s, 0, parent, p) <==> Visible(wide, data, s, 0, parent, p) {
        FlatVisible(plain, kinds, false, data, s, 0, parent, p);
        FlatVisible(wide, kinds, true, data, s, 0, parent, p);
      }
    }
  }
}
