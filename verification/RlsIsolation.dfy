/**
 Tenant isolation over whole runs. An observer is one tenant with its users;
 a row is its own when one of the policies could ever show it to that tenant.
 */
module RlsIsolation {
  import opened Common
  import opened RlsPolicy
  import opened PooledCursor

  datatype Observer = Observer(tenant: string, users: set<string>)

  datatype World = World(o: Observer, cat: Catalogue, kinds: Kinds, shared: bool)

  predicate Ok(w: World) {
    w.o.tenant != "" && "" !in w.o.users && Enrolled(w.cat, w.kinds, w.shared)
  }

  predicate TenantMine(o: Observer, r: Row) { r.Get(TenantId) == Text(o.tenant) }

  predicate UserMine(o: Observer, r: Row) { r.Get(UserId).Text? && r.Get(UserId).s in o.users }

  predicate OwnBase(w: World, t: TableName, r: Row) {
    t in w.kinds &&
    match w.kinds[t]
    case TenantOrUserIso => TenantMine(w.o, r) || (r.Get(TenantId) == Null && UserMine(w.o, r))
    case UserIso => UserMine(w.o, r) || (w.shared && IsSharedTable(t) && TenantMine(w.o, r))
    case _ => TenantMine(w.o, r)
  }

  function OwnKeys(w: World, data: Data, t: TableName): set<RowKey> {
    set p | p in Rows(data, t) && OwnBase(w, t, p) :: p.id
  }

  function ForeignKeys(w: World, data: Data, t: TableName): set<RowKey> {
    set p | p in Rows(data, t) && !OwnBase(w, t, p) :: p.id
  }

  /** A child row is its parent's. */
  predicate Own(w: World, data: Data, t: TableName, r: Row)
    requires t in w.kinds
  {
    if w.kinds[t].ViaParent?
    then r.Get(w.kinds[t].fk).Key? && r.Get(w.kinds[t].fk).k in OwnKeys(w, data, w.kinds[t].parent)
    else OwnBase(w, t, r)
  }

  /** Some other tenant's or user's row, or the child of one. */
  predicate Foreign(w: World, data: Data, t: TableName, r: Row)
    requires t in w.kinds
  {
    if w.kinds[t].ViaParent?
    then r.Get(w.kinds[t].fk).Key? && r.Get(w.kinds[t].fk).k in ForeignKeys(w, data, w.kinds[t].parent)
    else !OwnBase(w, t, r)
  }

  function IsOwn(w: World, data: Data, t: TableName): Row -> bool
    requires t in w.kinds
  {
    (r: Row) => Own(w, data, t, r)
  }

  function IsForeign(w: World, data: Data, t: TableName): Row -> bool
    requires t in w.kinds
  {
    (r: Row) => Foreign(w, data, t, r)
  }

  function OwnRows(w: World, data: Data, t: TableName): seq<Row>
    requires t in w.kinds
  {
    Filter(IsOwn(w, data, t), Rows(data, t))
  }

  function ForeignRows(w: World, data: Data, t: TableName): seq<Row>
    requires t in w.kinds
  {
    Filter(IsForeign(w, data, t), Rows(data, t))
  }

  /** Two databases that the observer cannot tell apart. */
  ghost predicate SameFor(w: World, d1: Data, d2: Data) {
    forall t :: t in w.kinds ==> OwnRows(w, d1, t) == OwnRows(w, d2, t)
  }

  ghost predicate ForeignKept(w: World, d: Data, d': Data) {
    forall t :: t in w.kinds ==> ForeignRows(w, d, t) == ForeignRows(w, d', t)
  }

  /** The session settings point nowhere but at the observer. */
  predicate Within(o: Observer, s: Settings) {
    && OrEmpty(s, BypassRls) != "on"
    && (OrEmpty(s, CurrentTenant) == "" || OrEmpty(s, CurrentTenant) == o.tenant)
    && (OrEmpty(s, CurrentUser) == "" || OrEmpty(s, CurrentUser) in o.users)
  }

  // --- the database invariant: typed ids, unique keys, no reference to a key not yet made ---

  predicate Before(k: RowKey, tag: nat, n: nat) { k.tx < tag || (k.tx == tag && k.n < n) }

  predicate RowOk(kinds: Kinds, t: TableName, r: Row, tag: nat, n: nat)
    requires t in kinds
  {
    && Typed(r) && Before(r.id, tag, n)
    && (kinds[t].ViaParent? && r.Get(kinds[t].fk).Key? ==> Before(r.Get(kinds[t].fk).k, tag, n))
  }

  ghost predicate Inv(kinds: Kinds, d: Data, tag: nat, n: nat) {
    && d.Keys == kinds.Keys
    && (forall t, r :: t in kinds && r in d[t] ==> RowOk(kinds, t, r, tag, n))
    && (forall t, p, q :: t in kinds && p in d[t] && q in d[t] && p.id == q.id ==> p == q)
  }

  lemma InvLater(kinds: Kinds, d: Data, tag: nat, n: nat, tag': nat, n': nat)
    requires Inv(kinds, d, tag, n) && (tag < tag' || (tag == tag' && n <= n'))
    ensures Inv(kinds, d, tag', n')
  {
    forall t, r | t in kinds && r in d[t] ensures RowOk(kinds, t, r, tag', n') {
      assert RowOk(kinds, t, r, tag, n);
    }
  }

  // --- what the observer's sessions may see and write ---

  lemma KindMeans(w: World, d: Data, s: Settings, t: TableName, r: Row)
    requires Ok(w) && Within(w.o, s) && t in w.kinds
    ensures w.kinds[t].ViaParent? ==> w.kinds[t].parent in w.kinds
    ensures Holds(w.cat, d, s, NESTING, w.kinds[t], r) == True <==>
      if w.kinds[t].ViaParent? then HasPointee(d, s, w.kinds[t], r) else BaseHolds(s, w.kinds[t], r) == True
  {
    assert Bypass(s) != True;
    if w.kinds[t].ViaParent? {
      assert ChildOk(w.kinds, t);
      HasParentMeans(w.cat, w.kinds, w.shared, d, s, NESTING, t, r);
    }
  }

  lemma SharedMeans(w: World, d: Data, s: Settings, t: TableName, r: Row)
    requires IsSharedTable(t)
    ensures Holds(w.cat, d, s, NESTING, SharedPolicy(t).body, r) == True <==>
      SharedGate(s, r) == True
      && (if t == ErpEndpoints then IsSharedExpress(r) == True else HasEndpoint(w.cat, d, s, NESTING, r))
  {
  }

  lemma BaseIsOwn(w: World, s: Settings, t: TableName, r: Row)
    requires Ok(w) && Within(w.o, s) && Typed(r) && t in w.kinds && IsBase(w.kinds[t])
    requires BaseHolds(s, w.kinds[t], r) == True
    ensures OwnBase(w, t, r)
  {
    assert forall c :: c in {TenantId, WorkspaceClientId, UserId} ==>
      r.Get(c) == Null || (r.Get(c).Text? && r.Get(c).s != "");
    assert TenantId in {TenantId, WorkspaceClientId, UserId} && UserId in {TenantId, WorkspaceClientId, UserId};
  }

  /** A row that points at an own parent points at no foreign one: keys are unique. */
  lemma OwnParentIsNotForeign(w: World, data: Data, parent: TableName, p: Row, tag: nat, n: nat)
    requires Inv(w.kinds, data, tag, n) && parent in w.kinds
    requires p in Rows(data, parent) && OwnBase(w, parent, p)
    ensures p.id in OwnKeys(w, data, parent) && p.id !in ForeignKeys(w, data, parent)
    ensures Before(p.id, tag, n)
  {
    assert RowOk(w.kinds, parent, p, tag, n);
  }

  lemma ChildHolds(w: World, data: Data, s: Settings, t: TableName, r: Row, tag: nat, n: nat)
    requires Ok(w) && Within(w.o, s) && t in w.kinds && Inv(w.kinds, data, tag, n) && w.kinds[t].ViaParent?
    requires Holds(w.cat, data, s, NESTING, w.kinds[t], r) == True
    ensures Own(w, data, t, r) && !Foreign(w, data, t, r)
    ensures r.Get(w.kinds[t].fk).Key? && Before(r.Get(w.kinds[t].fk).k, tag, n)
  {
    var k := w.kinds[t];
    assert ChildOk(w.kinds, t);
    KindMeans(w, data, s, t, r);
    var p :| p in Rows(data, k.parent) && PointsAt(s, k, r, p);
    assert RowOk(w.kinds, k.parent, p, tag, n);
    assert BaseHolds(s, w.kinds[k.parent], p) == True;
    BaseIsOwn(w, s, k.parent, p);
    OwnParentIsNotForeign(w, data, k.parent, p, tag, n);
  }

  lemma SharedIsBase(kinds: Kinds, t: TableName)
    requires KindsOk(kinds) && t in kinds && IsSharedTable(t)
    ensures IsBase(kinds[t])
  {
  }

  lemma GateIsOwn(w: World, s: Settings, t: TableName, r: Row)
    requires Ok(w) && Within(w.o, s) && Typed(r) && t in w.kinds && w.shared && IsSharedTable(t)
    requires SharedGate(s, r) == True
    ensures OwnBase(w, t, r)
  {
    SharedIsBase(w.kinds, t);
    assert TenantEq(s, r) == True;
    assert TenantId in {TenantId, WorkspaceClientId, UserId};
    assert TenantMine(w.o, r);
  }

  lemma WritableIsOwn(w: World, data: Data, s: Settings, t: TableName, r: Row, tag: nat, n: nat)
    requires Ok(w) && Within(w.o, s) && Typed(r) && t in w.kinds && Inv(w.kinds, data, tag, n)
    requires Writable(w.cat, data, s, t, r)
    ensures Own(w, data, t, r) && !Foreign(w, data, t, r)
    ensures w.kinds[t].ViaParent? ==> r.Get(w.kinds[t].fk).Key? && Before(r.Get(w.kinds[t].fk).k, tag, n)
  {
    EnrolledWritable(w.cat, w.kinds, w.shared, data, s, t, r);
    if w.kinds[t].ViaParent? {
      ChildHolds(w, data, s, t, r, tag, n);
    } else {
      BaseIsOwn(w, s, t, r);
    }
  }

  lemma KindIsOwn(w: World, data: Data, s: Settings, t: TableName, r: Row, tag: nat, n: nat)
    requires Ok(w) && Within(w.o, s) && Typed(r) && t in w.kinds && Inv(w.kinds, data, tag, n)
    requires Holds(w.cat, data, s, NESTING, w.kinds[t], r) == True
    ensures Own(w, data, t, r) && !Foreign(w, data, t, r)
  {
    if w.kinds[t].ViaParent? {
      ChildHolds(w, data, s, t, r, tag, n);
    } else {
      BaseIsOwn(w, s, t, r);
    }
  }

  lemma VisibleIsOwn(w: World, data: Data, s: Settings, t: TableName, r: Row, tag: nat, n: nat)
    requires Ok(w) && Within(w.o, s) && Typed(r) && t in w.kinds && Inv(w.kinds, data, tag, n)
    requires Visible(w.cat, data, s, NESTING, t, r)
    ensures Own(w, data, t, r)
  {
    EnrolledVisible(w.cat, w.kinds, w.shared, data, s, NESTING, t, r);
    KindMeans(w, data, s, t, r);
    if Holds(w.cat, data, s, NESTING, w.kinds[t], r) == True {
      KindIsOwn(w, data, s, t, r, tag, n);
    } else {
      SharedMeans(w, data, s, t, r);
      SharedIsBase(w.kinds, t);
      GateIsOwn(w, s, t, r);
    }
  }

  // --- two sessions of one observer over two databases that look alike decide alike ---

  lemma OrEmptySettings(s1: Settings, s2: Settings, g: Guc)
    requires Similar(s1, s2)
    ensures Setting(s1, g) == Setting(s2, g) || {Setting(s1, g), Setting(s2, g)} == {Null, Text("")}
  {
    assert OrEmpty(s1, g) == OrEmpty(s2, g);
  }

  lemma SameColumns(s1: Settings, s2: Settings, r: Row)
    requires Similar(s1, s2) && Typed(r)
    ensures (Bypass(s1) == True) == (Bypass(s2) == True)
    ensures (TenantEq(s1, r) == True) == (TenantEq(s2, r) == True)
    ensures (UserEq(s1, r) == True) == (UserEq(s2, r) == True)
    ensures (WsMatch(s1, r) == True) == (WsMatch(s2, r) == True)
  {
    assert TenantId in {TenantId, WorkspaceClientId, UserId} && UserId in {TenantId, WorkspaceClientId, UserId}
      && WorkspaceClientId in {TenantId, WorkspaceClientId, UserId};
    OrEmptySettings(s1, s2, BypassRls);
    OrEmptySettings(s1, s2, CurrentTenant);
    OrEmptySettings(s1, s2, CurrentUser);
    OrEmptySettings(s1, s2, CurrentWorkspace);
  }

  /** An open gate compares ids with settings, so none of those settings is NULL or ''. */
  lemma GateTransfers(s1: Settings, s2: Settings, r: Row)
    requires Similar(s1, s2) && Typed(r) && SharedGate(s1, r) == True
    ensures SharedGate(s2, r) == True
  {
    assert TenantId in {TenantId, WorkspaceClientId, UserId}
      && WorkspaceClientId in {TenantId, WorkspaceClientId, UserId};
    GateMeans(s1, r);
    forall g | g in {SharedFlag, CurrentTenant, CurrentWorkspace, SharedTenant, SharedWorkspace}
      ensures Setting(s2, g) == Setting(s1, g)
    {
      OrEmptySettings(s1, s2, g);
    }
  }

  ghost predicate Twin(w: World, d1: Data, s1: Settings, d2: Data, s2: Settings, tag: nat, n: nat) {
    && Ok(w) && Within(w.o, s1) && Within(w.o, s2) && Similar(s1, s2)
    && Inv(w.kinds, d1, tag, n) && Inv(w.kinds, d2, tag, n) && SameFor(w, d1, d2)
  }

  lemma TwinSym(w: World, d1: Data, s1: Settings, d2: Data, s2: Settings, tag: nat, n: nat)
    requires Twin(w, d1, s1, d2, s2, tag, n)
    ensures Twin(w, d2, s2, d1, s1, tag, n)
  {
  }

  /** An own row of a base table is there in both databases. */
  lemma OwnIsShared(w: World, d1: Data, d2: Data, t: TableName, p: Row)
    requires t in w.kinds && !w.kinds[t].ViaParent? && OwnRows(w, d1, t) == OwnRows(w, d2, t)
    requires p in Rows(d1, t) && OwnBase(w, t, p)
    ensures p in Rows(d2, t)
  {
    FilterMember(IsOwn(w, d1, t), Rows(d1, t), p);
    FilterMember(IsOwn(w, d2, t), Rows(d2, t), p);
  }

  lemma OwnKeysShared(w: World, d1: Data, d2: Data, t: TableName)
    requires t in w.kinds && !w.kinds[t].ViaParent? && OwnRows(w, d1, t) == OwnRows(w, d2, t)
    ensures OwnKeys(w, d1, t) == OwnKeys(w, d2, t)
  {
    forall p | p in Rows(d1, t) && OwnBase(w, t, p) ensures p in Rows(d2, t) { OwnIsShared(w, d1, d2, t, p); }
    forall p | p in Rows(d2, t) && OwnBase(w, t, p) ensures p in Rows(d1, t) { OwnIsShared(w, d2, d1, t, p); }
  }

  lemma BaseTransfers(s1: Settings, s2: Settings, k: Body, r: Row)
    requires Similar(s1, s2) && Typed(r) && IsBase(k) && BaseHolds(s1, k, r) == True
    ensures BaseHolds(s2, k, r) == True
  {
    SameColumns(s1, s2, r);
  }

  lemma InnerTransfers(w: World, s1: Settings, s2: Settings, parent: TableName, byTenant: bool, p: Row)
    requires Ok(w) && Within(w.o, s1) && Similar(s1, s2) && Typed(p)
    requires parent in w.kinds && w.kinds[parent] == if byTenant then TenantOrUserIso else UserIso
    requires Inner(s1, byTenant, p) == True
    ensures Inner(s2, byTenant, p) == True && OwnBase(w, parent, p)
  {
    SameColumns(s1, s2, p);
    assert BaseHolds(s1, w.kinds[parent], p) == True;
    BaseIsOwn(w, s1, parent, p);
  }

  /** The row that a child points at is the observer's, and passes the inner predicate in the other session too. */
  lemma ParentIsOwn(w: World, s1: Settings, s2: Settings, t: TableName, r: Row, p: Row)
    requires Ok(w) && Within(w.o, s1) && Similar(s1, s2) && t in w.kinds && w.kinds[t].ViaParent? && Typed(p)
    requires PointsAt(s1, w.kinds[t], r, p)
    ensures var parent := w.kinds[t].parent;
      parent in w.kinds && !w.kinds[parent].ViaParent? && OwnBase(w, parent, p) && PointsAt(s2, w.kinds[t], r, p)
  {
    assert ChildOk(w.kinds, t);
    InnerTransfers(w, s1, s2, w.kinds[t].parent, w.kinds[t].byTenant, p);
  }

  lemma RowIsTyped(kinds: Kinds, d: Data, t: TableName, r: Row, tag: nat, n: nat)
    requires Inv(kinds, d, tag, n) && t in kinds && r in Rows(d, t)
    ensures Typed(r)
  {
    assert RowOk(kinds, t, r, tag, n);
  }

  lemma ParentTransfers(w: World, d1: Data, s1: Settings, d2: Data, s2: Settings, t: TableName, r: Row, p: Row)
    requires Ok(w) && Within(w.o, s1) && Similar(s1, s2) && SameFor(w, d1, d2) && t in w.kinds && w.kinds[t].ViaParent?
    requires Typed(p)
    requires p in Rows(d1, w.kinds[t].parent) && PointsAt(s1, w.kinds[t], r, p)
    ensures p in Rows(d2, w.kinds[t].parent) && PointsAt(s2, w.kinds[t], r, p)
  {
    ParentIsOwn(w, s1, s2, t, r, p);
    OwnIsShared(w, d1, d2, w.kinds[t].parent, p);
  }

  lemma PointeeTransfers(w: World, d1: Data, s1: Settings, d2: Data, s2: Settings, t: TableName, r: Row, tag: nat,
      n: nat)
    requires Twin(w, d1, s1, d2, s2, tag, n) && t in w.kinds && w.kinds[t].ViaParent? && w.kinds[t].parent in w.kinds
    requires HasPointee(d1, s1, w.kinds[t], r)
    ensures HasPointee(d2, s2, w.kinds[t], r)
  {
    var p :| p in Rows(d1, w.kinds[t].parent) && PointsAt(s1, w.kinds[t], r, p);
    RowIsTyped(w.kinds, d1, w.kinds[t].parent, p, tag, n);
    ParentTransfers(w, d1, s1, d2, s2, t, r, p);
  }

  lemma HoldsTransfers(w: World, d1: Data, s1: Settings, d2: Data, s2: Settings, t: TableName, r: Row, tag: nat, n: nat)
    requires Twin(w, d1, s1, d2, s2, tag, n) && t in w.kinds && Typed(r)
    requires Holds(w.cat, d1, s1, NESTING, w.kinds[t], r) == True
    ensures Holds(w.cat, d2, s2, NESTING, w.kinds[t], r) == True
  {
    KindMeans(w, d1, s1, t, r);
    KindMeans(w, d2, s2, t, r);
    if w.kinds[t].ViaParent? {
      PointeeTransfers(w, d1, s1, d2, s2, t, r, tag, n);
    } else {
      BaseTransfers(s1, s2, w.kinds[t], r);
    }
  }

  lemma EndpointStays(w: World, d1: Data, s1: Settings, d2: Data, s2: Settings, r: Row, tag: nat, n: nat)
    requires Twin(w, d1, s1, d2, s2, tag, n) && w.shared && ErpEndpoints in w.kinds
    requires HasEndpoint(w.cat, d1, s1, NESTING, r)
    ensures HasEndpoint(w.cat, d2, s2, NESTING, r)
  {
    var e :| e in Rows(d1, ErpEndpoints) && Visible(w.cat, d1, s1, 0, ErpEndpoints, e) && EndpointOfLog(e, r) == True;
    EndpointTransfers(w, d1, s1, d2, s2, e, tag, n);
  }

  lemma SharedTransfers(w: World, d1: Data, s1: Settings, d2: Data, s2: Settings, t: TableName, r: Row, tag: nat,
      n: nat)
    requires Twin(w, d1, s1, d2, s2, tag, n) && t in w.kinds && Typed(r) && w.shared && IsSharedTable(t)
    requires ErpEndpoints in w.kinds
    requires Holds(w.cat, d1, s1, NESTING, SharedPolicy(t).body, r) == True
    ensures Holds(w.cat, d2, s2, NESTING, SharedPolicy(t).body, r) == True
  {
    SharedMeans(w, d1, s1, t, r);
    SharedMeans(w, d2, s2, t, r);
    GateTransfers(s1, s2, r);
    if t == ErpPushLogs {
      EndpointStays(w, d1, s1, d2, s2, r, tag, n);
    }
  }

  lemma EndpointDecision(w: World, d1: Data, s1: Settings, d2: Data, s2: Settings, e: Row)
    requires Ok(w) && Within(w.o, s1) && Similar(s1, s2) && ErpEndpoints in w.kinds && w.shared && Typed(e)
    requires Visible(w.cat, d1, s1, 0, ErpEndpoints, e)
    ensures Visible(w.cat, d2, s2, 0, ErpEndpoints, e) && OwnBase(w, ErpEndpoints, e)
  {
    SharedIsBase(w.kinds, ErpEndpoints);
    EnrolledVisible(w.cat, w.kinds, w.shared, d1, s1, 0, ErpEndpoints, e);
    EnrolledVisible(w.cat, w.kinds, w.shared, d2, s2, 0, ErpEndpoints, e);
    EndpointMeans(w, d1, s1, e);
    EndpointMeans(w, d2, s2, e);
    if BaseHolds(s1, w.kinds[ErpEndpoints], e) == True {
      BaseTransfers(s1, s2, w.kinds[ErpEndpoints], e);
      BaseIsOwn(w, s1, ErpEndpoints, e);
    } else {
      EndpointPolicyTransfers(s1, s2, e);
      GateIsOwn(w, s1, ErpEndpoints, e);
    }
  }

  lemma EndpointMeans(w: World, d: Data, s: Settings, e: Row)
    requires ErpEndpoints in w.kinds && IsBase(w.kinds[ErpEndpoints])
    ensures Holds(w.cat, d, s, 0, w.kinds[ErpEndpoints], e) == BaseHolds(s, w.kinds[ErpEndpoints], e)
    ensures Holds(w.cat, d, s, 0, SharedPolicy(ErpEndpoints).body, e) == And3(SharedGate(s, e), IsSharedExpress(e))
  {
  }

  lemma EndpointPolicyTransfers(s1: Settings, s2: Settings, e: Row)
    requires Similar(s1, s2) && Typed(e) && And3(SharedGate(s1, e), IsSharedExpress(e)) == True
    ensures And3(SharedGate(s2, e), IsSharedExpress(e)) == True
  {
    GateTransfers(s1, s2, e);
  }

  lemma EndpointTransfers(w: World, d1: Data, s1: Settings, d2: Data, s2: Settings, e: Row, tag: nat, n: nat)
    requires Twin(w, d1, s1, d2, s2, tag, n) && ErpEndpoints in w.kinds && w.shared
    requires e in Rows(d1, ErpEndpoints) && Visible(w.cat, d1, s1, 0, ErpEndpoints, e)
    ensures e in Rows(d2, ErpEndpoints) && Visible(w.cat, d2, s2, 0, ErpEndpoints, e)
  {
    SharedIsBase(w.kinds, ErpEndpoints);
    assert RowOk(w.kinds, ErpEndpoints, e, tag, n);
    EndpointDecision(w, d1, s1, d2, s2, e);
    OwnIsShared(w, d1, d2, ErpEndpoints, e);
  }

  /** Both sessions see and may write exactly the same rows. */
  lemma SameDecisions(w: World, d1: Data, s1: Settings, d2: Data, s2: Settings, t: TableName, r: Row, tag: nat, n: nat)
    requires Twin(w, d1, s1, d2, s2, tag, n) && t in w.kinds && Typed(r)
    requires w.shared ==> ErpEndpoints in w.kinds
    ensures Visible(w.cat, d1, s1, NESTING, t, r) <==> Visible(w.cat, d2, s2, NESTING, t, r)
    ensures Writable(w.cat, d1, s1, t, r) <==> Writable(w.cat, d2, s2, t, r)
  {
    TwinSym(w, d1, s1, d2, s2, tag, n);
    EnrolledVisible(w.cat, w.kinds, w.shared, d1, s1, NESTING, t, r);
    EnrolledVisible(w.cat, w.kinds, w.shared, d2, s2, NESTING, t, r);
    EnrolledWritable(w.cat, w.kinds, w.shared, d1, s1, t, r);
    EnrolledWritable(w.cat, w.kinds, w.shared, d2, s2, t, r);
    if Holds(w.cat, d1, s1, NESTING, w.kinds[t], r) == True { HoldsTransfers(w, d1, s1, d2, s2, t, r, tag, n); }
    if Holds(w.cat, d2, s2, NESTING, w.kinds[t], r) == True { HoldsTransfers(w, d2, s2, d1, s1, t, r, tag, n); }
    if w.shared && IsSharedTable(t) {
      if Holds(w.cat, d1, s1, NESTING, SharedPolicy(t).body, r) == True {
        SharedTransfers(w, d1, s1, d2, s2, t, r, tag, n);
      }
      if Holds(w.cat, d2, s2, NESTING, SharedPolicy(t).body, r) == True {
        SharedTransfers(w, d2, s2, d1, s1, t, r, tag, n);
      }
    }
  }
}
