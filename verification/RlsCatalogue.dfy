/** The DDL of core/rls.py as it changes the table catalogue. */
module RlsCatalogue {
  import opened RlsPolicy

  /** ENABLE (and FORCE), DROP POLICY IF EXISTS, CREATE POLICY ... FOR ALL. */
  function Enrol(def: TableDef, body: Body, force: bool): TableDef {
    TableDef(true, def.force || force, def.policies[TENANT_ISOLATION := Policy(ForAll, body)])
  }

  function EnrolAll(cat: Catalogue, body: Body, names: seq<TableName>, force: bool): (after: Catalogue) {
    map t | t in cat :: if t in names then Enrol(cat[t], body, force) else cat[t]
  }

  lemma EnrolSnoc(cat: Catalogue, body: Body, names: seq<TableName>, t: TableName, force: bool)
    requires t in cat
    ensures EnrolAll(cat, body, names + [t], force)
         == EnrolAll(cat, body, names, force)[t := Enrol(EnrolAll(cat, body, names, force)[t], body, force)]
  {
    assert Enrol(Enrol(cat[t], body, force), body, force) == Enrol(cat[t], body, force);
  }

  function WithShared(def: TableDef, t: TableName): TableDef
    requires IsSharedTable(t)
  {
    def.(rls := true, policies := def.policies[SHARED_SELECT := SharedPolicy(t)])
  }

  function AddShared(cat: Catalogue): Catalogue {
    map t | t in cat :: if IsSharedTable(t) then WithShared(cat[t], t) else cat[t]
  }

  /** RLS on without a policy: the app role reads zero rows. */
  predicate IsOrphan(def: TableDef) { def.rls && def.policies == map[] }

  function SweepOrphans(cat: Catalogue): Catalogue {
    map t | t in cat :: if IsOrphan(cat[t]) then cat[t].(rls := false) else cat[t]
  }

  class SchemaCursor {
    var cat: Catalogue

    constructor (cat: Catalogue)
      ensures this.cat == cat
    {
      this.cat := cat;
    }

    method Apply(body: Body, tables: seq<TableName>, force: bool)
      requires IsBase(body)
      requires forall t :: t in tables ==> t in cat
      modifies this
      ensures cat == EnrolAll(old(cat), body, tables, force)
    {
      var i := 0;
      while i < |tables|
        invariant 0 <= i <= |tables|
        invariant cat == EnrolAll(old(cat), body, tables[..i], force)
      {
        EnrolSnoc(old(cat), body, tables[..i], tables[i], force);
        assert tables[..i + 1] == tables[..i] + [tables[i]];
        var def := cat[tables[i]].(rls := true);
        if force {
          def := def.(force := true);
        }
        def := def.(policies := def.policies - {TENANT_ISOLATION});
        def := def.(policies := def.policies[TENANT_ISOLATION := Policy(ForAll, body)]);
        assert def.policies == cat[tables[i]].policies[TENANT_ISOLATION := Policy(ForAll, body)];
        cat := cat[tables[i] := def];
        i := i + 1;
      }
      assert tables[..i] == tables;
    }

    method ApplyViaParent(table: TableName, parent: TableName, fk: Column, byTenant: bool, force: bool)
      requires table in cat
      modifies this
      ensures cat == EnrolAll(old(cat), ViaParent(parent, fk, byTenant), [table], force)
    {
      var def := cat[table].(rls := true);
      if force {
        def := def.(force := true);
      }
      def := def.(policies := def.policies - {TENANT_ISOLATION});
      def := def.(policies := def.policies[TENANT_ISOLATION := Policy(ForAll, ViaParent(parent, fk, byTenant))]);
      cat := cat[table := def];
      assert cat[table].policies
        == old(cat)[table].policies[TENANT_ISOLATION := Policy(ForAll, ViaParent(parent, fk, byTenant))];
    }

    method ApplySharedExpress()
      requires ErpEndpoints in cat && ErpPushLogs in cat
      modifies this
      ensures cat == AddShared(old(cat))
    {
      AddSharedPolicy(ErpEndpoints);
      AddSharedPolicy(ErpPushLogs);
    }

    /** ENABLE, DROP POLICY IF EXISTS, CREATE POLICY ... FOR SELECT. */
    method AddSharedPolicy(t: TableName)
      requires t in cat && IsSharedTable(t)
      modifies this
      ensures cat == old(cat)[t := WithShared(old(cat)[t], t)]
    {
      var def := cat[t].(rls := true);
      def := def.(policies := def.policies - {SHARED_SELECT});
      def := def.(policies := def.policies[SHARED_SELECT := SharedPolicy(t)]);
      assert def.policies == cat[t].policies[SHARED_SELECT := SharedPolicy(t)];
      cat := cat[t := def];
    }

    /** Returns the tables whose RLS it switched off. */
    method DisableOrphanRls() returns (orphans: set<TableName>)
      modifies this
      ensures orphans == set t | t in old(cat) && IsOrphan(old(cat)[t])
      ensures cat == SweepOrphans(old(cat))
    {
      orphans := set t | t in cat && IsOrphan(cat[t]);
      var todo := orphans;
      while todo != {}
        invariant todo <= orphans
        invariant cat.Keys == old(cat).Keys
        invariant forall t :: t in cat ==>
          cat[t] == if t in orphans - todo then old(cat)[t].(rls := false) else old(cat)[t]
        decreases todo
      {
        var t :| t in todo;
        cat := cat[t := cat[t].(rls := false)];
        todo := todo - {t};
      }
    }
  }

  /** One enrolment call for one table, made by one of the start-up hooks. */
  datatype Enrolment = Enrolment(table: TableName, force: bool)

  function RunPlan(cat: Catalogue, kinds: Kinds, plan: seq<Enrolment>): Catalogue
    requires forall e :: e in plan ==> e.table in kinds
  {
    if plan == [] then cat else
    RunPlan(EnrolAll(cat, kinds[plan[0].table], [plan[0].table], plan[0].force), kinds, plan[1..])
  }

  /** No policy other than the standard one, and that one already right where RLS is on with it. */
  predicate Fresh(cat: Catalogue, kinds: Kinds) {
    cat.Keys == kinds.Keys && forall t :: t in cat ==> cat[t].policies.Keys <= {TENANT_ISOLATION}
  }

  /** Every table is still to be enrolled by the plan, or is already. */
  predicate PlanCovers(cat: Catalogue, kinds: Kinds, plan: seq<Enrolment>) {
    && KindsOk(kinds) && Fresh(cat, kinds) && (forall e :: e in plan ==> e.table in kinds)
    && (forall t :: t in kinds ==> (exists e :: e in plan && e.table == t) || IsEnrolled(cat, kinds, t))
  }

  predicate IsEnrolled(cat: Catalogue, kinds: Kinds, t: TableName) {
    t in cat && t in kinds && cat[t].rls && cat[t].policies == PoliciesOf(t, kinds[t], false)
  }

  lemma FirstEnrolment(cat: Catalogue, kinds: Kinds, plan: seq<Enrolment>)
    requires PlanCovers(cat, kinds, plan) && plan != []
    ensures PlanCovers(EnrolAll(cat, kinds[plan[0].table], [plan[0].table], plan[0].force), kinds, plan[1..])
  {
    var e := plan[0];
    var next := EnrolAll(cat, kinds[e.table], [e.table], e.force);
    assert next[e.table].policies == PoliciesOf(e.table, kinds[e.table], false);
    forall t | t in kinds && !(exists e' :: e' in plan[1..] && e'.table == t) ensures IsEnrolled(next, kinds, t) {
      if t != e.table {
        assert forall e' :: e' in plan ==> e' == e || e' in plan[1..];
      }
    }
  }

  /**
   The start-up hooks may run in any order and any number of times: once every table was named,
   the catalogue is enrolled; adding the shared-Express policies keeps it so.
   */
  lemma {:induction false} PlanEnrols(cat: Catalogue, kinds: Kinds, plan: seq<Enrolment>)
    requires PlanCovers(cat, kinds, plan)
    ensures Enrolled(RunPlan(cat, kinds, plan), kinds, false)
    ensures Enrolled(AddShared(RunPlan(cat, kinds, plan)), kinds, true)
    decreases |plan|
  {
    if plan == [] {
      assert forall t :: t in kinds ==> IsEnrolled(cat, kinds, t);
      AddingSharedEnrols(cat, kinds);
    } else {
      FirstEnrolment(cat, kinds, plan);
      PlanEnrols(EnrolAll(cat, kinds[plan[0].table], [plan[0].table], plan[0].force), kinds, plan[1..]);
    }
  }

  lemma AddingSharedEnrols(cat: Catalogue, kinds: Kinds)
    requires Enrolled(cat, kinds, false)
    ensures Enrolled(AddShared(cat), kinds, true)
  {
  }

  /** The start-up sweep never touches an enrolled table, and leaves no deny-all table behind. */
  lemma SweepSparesEnrolled(cat: Catalogue, kinds: Kinds, shared: bool)
    requires Enrolled(cat, kinds, shared)
    ensures SweepOrphans(cat) == cat
  {
    forall t | t in cat ensures !IsOrphan(cat[t]) {
      assert TENANT_ISOLATION in cat[t].policies;
    }
  }

  lemma SweepLeavesNoOrphan(cat: Catalogue, t: TableName)
    requires t in cat
    ensures !IsOrphan(SweepOrphans(cat)[t])
    ensures SweepOrphans(cat)[t].rls <==> cat[t].rls && cat[t].policies != map[]
  {
  }

  /** Enrolling switches RLS on and replaces the one policy on the tables named; FORCE is never taken back. */
  lemma EnrolExactly(cat: Catalogue, body: Body, names: seq<TableName>, force: bool, t: TableName)
    requires t in cat
    ensures var after := EnrolAll(cat, body, names, force);
      && after.Keys == cat.Keys
      && (t !in names ==> after[t] == cat[t])
      && (t in names ==>
        && after[t].rls && (after[t].force <==> cat[t].force || force)
        && after[t].policies.Keys == cat[t].policies.Keys + {TENANT_ISOLATION}
        && after[t].policies[TENANT_ISOLATION] == Policy(ForAll, body)
        && forall name :: name in cat[t].policies && name != TENANT_ISOLATION ==>
          after[t].policies[name] == cat[t].policies[name])
  {
  }

  /** The shared policies go onto the two tables beside what they have, for SELECT only. */
  lemma AddSharedExactly(cat: Catalogue, t: TableName)
    requires t in cat
    ensures var after := AddShared(cat);
      && after.Keys == cat.Keys
      && (t !in {ErpEndpoints, ErpPushLogs} ==> after[t] == cat[t])
      && (t in {ErpEndpoints, ErpPushLogs} ==>
        && after[t].rls && after[t].force == cat[t].force
        && after[t].policies.Keys == cat[t].policies.Keys + {SHARED_SELECT}
        && after[t].policies[SHARED_SELECT]
          == Policy(ForSelect, if t == ErpEndpoints then SharedEndpointSelect else SharedLogSelect)
        && forall name :: name in cat[t].policies && name != SHARED_SELECT ==>
          after[t].policies[name] == cat[t].policies[name])
  {
  }
}
