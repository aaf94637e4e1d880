/** Isolation carried from one statement to bodies, transactions and whole runs. */
module RlsRuns {
  import opened Common
  import opened RlsPolicy
  import opened PooledCursor
  import opened RlsIsolation

  predicate DependsOn(w: World, t: TableName, changed: TableName)
    requires t in w.kinds
  {
    w.kinds[t].ViaParent? && w.kinds[t].parent == changed
  }

  /** Whose row it is changes only in tables that hang below the changed one. */
  lemma OwnUnmoved(w: World, d: Data, changed: TableName, rows: seq<Row>, t: TableName, r: Row)
    requires t in w.kinds && !DependsOn(w, t, changed)
    ensures Own(w, d[changed := rows], t, r) == Own(w, d, t, r)
    ensures Foreign(w, d[changed := rows], t, r) == Foreign(w, d, t, r)
  {
    if w.kinds[t].ViaParent? {
      assert Rows(d[changed := rows], w.kinds[t].parent) == Rows(d, w.kinds[t].parent);
    }
  }

  lemma NotBelowItself(w: World, t: TableName)
    requires Ok(w) && t in w.kinds
    ensures !DependsOn(w, t, t)
    ensures forall c :: c in w.kinds && DependsOn(w, c, t) ==> !w.kinds[t].ViaParent?
  {
    forall c | c in w.kinds && DependsOn(w, c, t) ensures !w.kinds[t].ViaParent? {
      assert ChildOk(w.kinds, c);
    }
    if w.kinds[t].ViaParent? {
      assert ChildOk(w.kinds, t);
    }
  }

  /** The new own keys of a table are old ones, or the key that this very statement made. */
  ghost predicate KeysFrom(w: World, d: Data, t: TableName, rows: seq<Row>, key: RowKey)
    requires t in w.kinds
  {
    w.kinds[t].ViaParent? ||
    forall p :: p in rows && OwnBase(w, t, p) ==> p.id == key || p.id in OwnKeys(w, d, t)
  }

  lemma OwnRowsBelow(w: World, d: Data, changed: TableName, rows: seq<Row>, t: TableName, tag: nat, n: nat)
    requires Ok(w) && Inv(w.kinds, d, tag, n) && changed in w.kinds && t in w.kinds && DependsOn(w, t, changed)
    requires KeysFrom(w, d, changed, rows, RowKey(tag, n))
    ensures OwnRows(w, d[changed := rows], t) == Filter(IsOwn(w, d[changed := rows], t), OwnRows(w, d, t))
  {
    assert ChildOk(w.kinds, t);
    var d' := d[changed := rows];
    forall r | r in d[t] && Own(w, d', t, r) ensures Own(w, d, t, r) {
      assert RowOk(w.kinds, t, r, tag, n);
    }
    FilterNarrow(IsOwn(w, d', t), IsOwn(w, d, t), d[t]);
  }

  /** If both changes agree on the observer's rows of the table, the databases still look alike. */
  lemma SameAfter(w: World, d1: Data, rows1: seq<Row>, d2: Data, rows2: seq<Row>, changed: TableName, tag: nat, n: nat)
    requires Ok(w) && SameFor(w, d1, d2) && Inv(w.kinds, d1, tag, n) && Inv(w.kinds, d2, tag, n) && changed in w.kinds
    requires Filter(IsOwn(w, d1, changed), rows1) == Filter(IsOwn(w, d2, changed), rows2)
    requires KeysFrom(w, d1, changed, rows1, RowKey(tag, n)) && KeysFrom(w, d2, changed, rows2, RowKey(tag, n))
    ensures SameFor(w, d1[changed := rows1], d2[changed := rows2])
  {
    var d1', d2' := d1[changed := rows1], d2[changed := rows2];
    NotBelowItself(w, changed);
    OwnRowsOf(w, d1, rows1, changed);
    OwnRowsOf(w, d2, rows2, changed);
    forall t | t in w.kinds ensures OwnRows(w, d1', t) == OwnRows(w, d2', t) {
      if DependsOn(w, t, changed) {
        OwnRowsBelow(w, d1, changed, rows1, t, tag, n);
        OwnRowsBelow(w, d2, changed, rows2, t, tag, n);
        OwnKeysShared(w, d1', d2', changed);
        FilterCong(IsOwn(w, d1', t), IsOwn(w, d2', t), OwnRows(w, d1, t));
      } else if t != changed {
        OwnRowsBeside(w, d1, changed, rows1, t);
        OwnRowsBeside(w, d2, changed, rows2, t);
      }
    }
  }

  lemma OwnRowsOf(w: World, d: Data, rows: seq<Row>, changed: TableName)
    requires changed in w.kinds && !DependsOn(w, changed, changed)
    ensures OwnRows(w, d[changed := rows], changed) == Filter(IsOwn(w, d, changed), rows)
    ensures ForeignRows(w, d[changed := rows], changed) == Filter(IsForeign(w, d, changed), rows)
  {
    var d' := d[changed := rows];
    forall r
      ensures Own(w, d', changed, r) == Own(w, d, changed, r) && Foreign(w, d', changed, r) == Foreign(w, d, changed, r)
    {
      OwnUnmoved(w, d, changed, rows, changed, r);
    }
    FilterCong(IsOwn(w, d', changed), IsOwn(w, d, changed), rows);
    FilterCong(IsForeign(w, d', changed), IsForeign(w, d, changed), rows);
  }

  lemma OwnRowsBeside(w: World, d: Data, changed: TableName, rows: seq<Row>, t: TableName)
    requires t in w.kinds && !DependsOn(w, t, changed) && t != changed
    ensures OwnRows(w, d[changed := rows], t) == OwnRows(w, d, t)
    ensures ForeignRows(w, d[changed := rows], t) == ForeignRows(w, d, t)
  {
    var d' := d[changed := rows];
    assert Rows(d', t) == Rows(d, t);
    forall r ensures Own(w, d', t, r) == Own(w, d, t, r) && Foreign(w, d', t, r) == Foreign(w, d, t, r) {
      OwnUnmoved(w, d, changed, rows, t, r);
    }
    FilterCong(IsOwn(w, d', t), IsOwn(w, d, t), Rows(d, t));
    FilterCong(IsForeign(w, d', t), IsForeign(w, d, t), Rows(d, t));
  }

  lemma ForeignKeysFromRows(w: World, d: Data, d': Data, t: TableName)
    requires t in w.kinds && !w.kinds[t].ViaParent? && ForeignRows(w, d, t) == ForeignRows(w, d', t)
    ensures ForeignKeys(w, d, t) == ForeignKeys(w, d', t)
  {
    forall p ensures p in Rows(d, t) && !OwnBase(w, t, p) <==> p in Rows(d', t) && !OwnBase(w, t, p) {
      FilterMember(IsForeign(w, d, t), Rows(d, t), p);
      FilterMember(IsForeign(w, d', t), Rows(d', t), p);
    }
  }

  lemma ForeignAfter(w: World, d: Data, rows: seq<Row>, changed: TableName)
    requires Ok(w) && changed in w.kinds && changed in d
    requires Filter(IsForeign(w, d, changed), rows) == Filter(IsForeign(w, d, changed), d[changed])
    ensures ForeignKept(w, d, d[changed := rows])
  {
    var d' := d[changed := rows];
    NotBelowItself(w, changed);
    OwnRowsOf(w, d, rows, changed);
    forall t | t in w.kinds ensures ForeignRows(w, d, t) == ForeignRows(w, d', t) {
      if DependsOn(w, t, changed) {
        assert ChildOk(w.kinds, t);
        ForeignKeysFromRows(w, d, d', changed);
        assert Rows(d', t) == Rows(d, t);
        FilterCong(IsForeign(w, d, t), IsForeign(w, d', t), Rows(d, t));
      } else if t != changed {
        OwnRowsBeside(w, d, changed, rows, t);
      }
    }
  }

  // --- one statement ---

  lemma HitIsOwn(w: World, d: Data, s: Settings, t: TableName, where: Row -> bool, tag: nat, n: nat)
    requires Ok(w) && Within(w.o, s) && Inv(w.kinds, d, tag, n) && t in w.kinds
    ensures forall r :: r in d[t] && Seen(w.cat, App, d, s, t, where)(r) ==> Own(w, d, t, r)
    ensures forall r :: r in d[t] && Hit(w.cat, App, d, s, t, where)(r) ==> Own(w, d, t, r) && !Foreign(w, d, t, r)
  {
    forall r | r in d[t] && Seen(w.cat, App, d, s, t, where)(r) ensures Own(w, d, t, r) {
      assert RowOk(w.kinds, t, r, tag, n);
      VisibleIsOwn(w, d, s, t, r, tag, n);
    }
    forall r | r in d[t] && Hit(w.cat, App, d, s, t, where)(r) ensures Own(w, d, t, r) && !Foreign(w, d, t, r) {
      assert RowOk(w.kinds, t, r, tag, n);
      WritableIsOwn(w, d, s, t, r, tag, n);
    }
  }

  /** What every accepted statement keeps, given the table's new rows. */
  ghost predicate Kept(w: World, d: Data, t: TableName, rows: seq<Row>, tag: nat, n: nat) {
    && t in w.kinds && t in d
    && Inv(w.kinds, d[t := rows], tag, n + 1)
    && ForeignKept(w, d, d[t := rows])
    && KeysFrom(w, d, t, rows, RowKey(tag, n))
  }

  lemma InvPut(w: World, d: Data, t: TableName, rows: seq<Row>, tag: nat, n: nat)
    requires Inv(w.kinds, d, tag, n) && t in w.kinds
    requires forall r :: r in rows ==> RowOk(w.kinds, t, r, tag, n + 1)
    requires forall p, q :: p in rows && q in rows && p.id == q.id ==> p == q
    ensures Inv(w.kinds, d[t := rows], tag, n + 1)
  {
    InvLater(w.kinds, d, tag, n, tag, n + 1);
  }

  lemma DeleteKeeps(w: World, d: Data, s: Settings, t: TableName, where: Row -> bool, tag: nat, n: nat)
    requires Ok(w) && Within(w.o, s) && Inv(w.kinds, d, tag, n) && t in w.kinds
    ensures Kept(w, d, t, Filter(Not(Hit(w.cat, App, d, s, t, where)), d[t]), tag, n)
  {
    var hit := Hit(w.cat, App, d, s, t, where);
    var rows := Filter(Not(hit), d[t]);
    HitIsOwn(w, d, s, t, where, tag, n);
    FilterNarrow(IsForeign(w, d, t), Not(hit), d[t]);
    ForeignAfter(w, d, rows, t);
    SubsetKeeps(w, d, t, Not(hit), tag, n);
  }

  lemma SubsetKeeps(w: World, d: Data, t: TableName, keep: Row -> bool, tag: nat, n: nat)
    requires Inv(w.kinds, d, tag, n) && t in w.kinds
    ensures Inv(w.kinds, d[t := Filter(keep, d[t])], tag, n + 1)
    ensures KeysFrom(w, d, t, Filter(keep, d[t]), RowKey(tag, n))
  {
    var rows := Filter(keep, d[t]);
    FilterMembers(keep, d[t]);
    InvLater(w.kinds, d, tag, n, tag, n + 1);
    forall r | r in rows ensures RowOk(w.kinds, t, r, tag, n + 1) {
      assert r in d[t];
    }
    InvPut(w, d, t, rows, tag, n);
  }

  lemma InsertKeeps(w: World, d: Data, s: Settings, t: TableName, r: Row, tag: nat, n: nat)
    requires Ok(w) && Within(w.o, s) && Inv(w.kinds, d, tag, n) && t in w.kinds && r.id == RowKey(tag, n)
    requires Acceptable(w.cat, App, d, s, t, r)
    ensures Own(w, d, t, r) && Kept(w, d, t, d[t] + [r], tag, n)
  {
    WritableIsOwn(w, d, s, t, r, tag, n);
    FilterAppend(IsForeign(w, d, t), d[t], [r]);
    ForeignAfter(w, d, d[t] + [r], t);
    AddedKeeps(w, d, t, r, tag, n);
  }

  lemma AddedKeeps(w: World, d: Data, t: TableName, r: Row, tag: nat, n: nat)
    requires Inv(w.kinds, d, tag, n) && t in w.kinds && r.id == RowKey(tag, n) && Typed(r)
    requires w.kinds[t].ViaParent? && r.Get(w.kinds[t].fk).Key? ==> Before(r.Get(w.kinds[t].fk).k, tag, n)
    ensures Inv(w.kinds, d[t := d[t] + [r]], tag, n + 1)
    ensures KeysFrom(w, d, t, d[t] + [r], RowKey(tag, n))
  {
    InvLater(w.kinds, d, tag, n, tag, n + 1);
    forall p | p in d[t] ensures p.id != r.id && RowOk(w.kinds, t, p, tag, n + 1) {
      assert RowOk(w.kinds, t, p, tag, n);
    }
    InvPut(w, d, t, d[t] + [r], tag, n);
  }

  predicate UpdateAccepted(w: World, d: Data, s: Settings, t: TableName, where: Row -> bool, assign: Assignment)
    requires t in d
  {
    forall r :: r in d[t] && Hit(w.cat, App, d, s, t, where)(r) ==> Acceptable(w.cat, App, d, s, t, Changed(assign, r))
  }

  lemma RewriteKeepsSides(w: World, d: Data, s: Settings, t: TableName, where: Row -> bool, assign: Assignment,
      tag: nat, n: nat)
    requires Ok(w) && Within(w.o, s) && Inv(w.kinds, d, tag, n) && t in w.kinds
    requires UpdateAccepted(w, d, s, t, where, assign)
    ensures var f := Rewrite(Hit(w.cat, App, d, s, t, where), assign);
      forall r :: r in d[t] ==>
        && IsOwn(w, d, t)(f(r)) == IsOwn(w, d, t)(r) && IsForeign(w, d, t)(f(r)) == IsForeign(w, d, t)(r)
        && (IsForeign(w, d, t)(r) ==> f(r) == r)
        && f(r).id == r.id && RowOk(w.kinds, t, f(r), tag, n)
  {
    HitIsOwn(w, d, s, t, where, tag, n);
    var f := Rewrite(Hit(w.cat, App, d, s, t, where), assign);
    forall r | r in d[t]
      ensures IsOwn(w, d, t)(f(r)) == IsOwn(w, d, t)(r) && IsForeign(w, d, t)(f(r)) == IsForeign(w, d, t)(r)
      ensures IsForeign(w, d, t)(r) ==> f(r) == r
      ensures f(r).id == r.id && RowOk(w.kinds, t, f(r), tag, n)
    {
      assert RowOk(w.kinds, t, r, tag, n);
      if Hit(w.cat, App, d, s, t, where)(r) {
        WritableIsOwn(w, d, s, t, f(r), tag, n);
      }
    }
  }

  lemma UpdateKeeps(w: World, d: Data, s: Settings, t: TableName, where: Row -> bool, assign: Assignment, tag: nat,
      n: nat)
    requires Ok(w) && Within(w.o, s) && Inv(w.kinds, d, tag, n) && t in w.kinds
    requires UpdateAccepted(w, d, s, t, where, assign)
    ensures Kept(w, d, t, Map(Rewrite(Hit(w.cat, App, d, s, t, where), assign), d[t]), tag, n)
  {
    var f := Rewrite(Hit(w.cat, App, d, s, t, where), assign);
    var rows := Map(f, d[t]);
    RewriteKeepsSides(w, d, s, t, where, assign, tag, n);
    FilterMap(IsForeign(w, d, t), f, d[t]);
    FilterMembers(IsForeign(w, d, t), d[t]);
    MapId(f, ForeignRows(w, d, t));
    ForeignAfter(w, d, rows, t);
    RewrittenKeeps(w, d, t, f, tag, n);
  }

  lemma RewrittenKeeps(w: World, d: Data, t: TableName, f: Row -> Row, tag: nat, n: nat)
    requires Inv(w.kinds, d, tag, n) && t in w.kinds
    requires forall r :: r in d[t] ==> f(r).id == r.id && RowOk(w.kinds, t, f(r), tag, n)
    requires forall r :: r in d[t] ==> IsOwn(w, d, t)(f(r)) == IsOwn(w, d, t)(r)
    ensures Inv(w.kinds, d[t := Map(f, d[t])], tag, n + 1)
    ensures KeysFrom(w, d, t, Map(f, d[t]), RowKey(tag, n))
  {
    var rows := Map(f, d[t]);
    forall r | r in rows
      ensures exists p :: p in d[t] && f(p) == r
      ensures RowOk(w.kinds, t, r, tag, n + 1)
    {
      var i :| 0 <= i < |rows| && rows[i] == r;
      assert f(d[t][i]) == r;
      assert RowOk(w.kinds, t, r, tag, n);
    }
    InvPut(w, d, t, rows, tag, n);
    if !w.kinds[t].ViaParent? {
      forall p | p in rows && OwnBase(w, t, p) ensures p.id in OwnKeys(w, d, t) {
        var q :| q in d[t] && f(q) == p;
        assert IsOwn(w, d, t)(p) && IsOwn(w, d, t)(q);
      }
    }
  }

  /** Nothing another tenant owns is returned or changed by any statement. */
  ghost predicate OnlyOwn(w: World, d: Data, stmt: Stmt, reply: Reply) {
    reply.Selected? && stmt.Select? && stmt.table in w.kinds ==>
      forall r :: r in reply.rows ==> Own(w, d, stmt.table, r)
  }

  ghost predicate StepKeeps(w: World, d: Data, stmt: Stmt, e: ExecEnd, tag: nat, n: nat) {
    Inv(w.kinds, e.data, tag, n + 1) && ForeignKept(w, d, e.data) && Within(w.o, e.s) && OnlyOwn(w, d, stmt, e.reply)
  }

  lemma SelectStepKeeps(w: World, d: Data, s: Settings, tag: nat, n: nat, t: TableName, where: Row -> bool)
    requires Ok(w) && Within(w.o, s) && Inv(w.kinds, d, tag, n) && t in d
    ensures StepKeeps(w, d, Select(t, where), Exec(w.cat, App, d, s, RowKey(tag, n), Select(t, where)), tag, n)
  {
    InvLater(w.kinds, d, tag, n, tag, n + 1);
    HitIsOwn(w, d, s, t, where, tag, n);
    FilterMembers(Seen(w.cat, App, d, s, t, where), d[t]);
  }

  lemma WriteStepKeeps(w: World, d: Data, s: Settings, tag: nat, n: nat, stmt: Stmt, rows: seq<Row>, reply: Reply)
    requires Within(w.o, s) && !stmt.EnableShared? && !stmt.Select? && Kept(w, d, stmt.table, rows, tag, n)
    ensures StepKeeps(w, d, stmt, ExecEnd(d[stmt.table := rows], s, reply), tag, n)
  {
  }

  lemma IdleStepKeeps(w: World, d: Data, s: Settings, tag: nat, n: nat, stmt: Stmt, reply: Reply)
    requires Within(w.o, s) && Inv(w.kinds, d, tag, n) && !reply.Selected?
    ensures StepKeeps(w, d, stmt, ExecEnd(d, s, reply), tag, n)
  {
    InvLater(w.kinds, d, tag, n, tag, n + 1);
  }

  lemma InsertStepKeeps(w: World, d: Data, s: Settings, tag: nat, n: nat, t: TableName, cols: map<Column, Value>)
    requires Ok(w) && Within(w.o, s) && Inv(w.kinds, d, tag, n) && t in d
    ensures StepKeeps(w, d, Insert(t, cols), InsertExec(w, d, s, t, Row(RowKey(tag, n), cols)), tag, n)
  {
    var r := Row(RowKey(tag, n), cols);
    if Acceptable(w.cat, App, d, s, t, r) {
      InsertKeeps(w, d, s, t, r, tag, n);
      WriteStepKeeps(w, d, s, tag, n, Insert(t, cols), d[t] + [r], NewKey(r.id));
    } else {
      IdleStepKeeps(w, d, s, tag, n, Insert(t, cols), Failed);
    }
  }

  lemma UpdateStepKeeps(w: World, d: Data, s: Settings, tag: nat, n: nat, t: TableName, where: Row -> bool,
      assign: Assignment)
    requires Ok(w) && Within(w.o, s) && Inv(w.kinds, d, tag, n) && t in d
    ensures StepKeeps(w, d, Update(t, where, assign), UpdateExec(w, d, s, t, where, assign), tag, n)
  {
    var hit := Hit(w.cat, App, d, s, t, where);
    if UpdateAccepted(w, d, s, t, where, assign) {
      UpdateKeeps(w, d, s, t, where, assign, tag, n);
      WriteStepKeeps(w, d, s, tag, n, Update(t, where, assign),
                     Map(Rewrite(hit, assign), d[t]), Affected(|Filter(hit, d[t])|));
    } else {
      IdleStepKeeps(w, d, s, tag, n, Update(t, where, assign), Failed);
    }
  }

  lemma DeleteStepKeeps(w: World, d: Data, s: Settings, tag: nat, n: nat, t: TableName, where: Row -> bool)
    requires Ok(w) && Within(w.o, s) && Inv(w.kinds, d, tag, n) && t in d
    ensures StepKeeps(w, d, Delete(t, where), Exec(w.cat, App, d, s, RowKey(tag, n), Delete(t, where)), tag, n)
  {
    var hit := Hit(w.cat, App, d, s, t, where);
    DeleteKeeps(w, d, s, t, where, tag, n);
    WriteStepKeeps(w, d, s, tag, n, Delete(t, where), Filter(Not(hit), d[t]), Affected(|Filter(hit, d[t])|));
  }

  lemma ExecKeeps(w: World, d: Data, s: Settings, tag: nat, n: nat, stmt: Stmt)
    requires Ok(w) && Within(w.o, s) && Inv(w.kinds, d, tag, n)
    ensures StepKeeps(w, d, stmt, Exec(w.cat, App, d, s, RowKey(tag, n), stmt), tag, n)
  {
    if stmt.EnableShared? {
      var on := SharedOn(s, stmt.ready, stmt.tenant, stmt.workspace);
      IdleStepKeeps(w, d, on, tag, n, stmt, Flag(on[SharedFlag] == "on"));
    } else if stmt.table !in d {
      IdleStepKeeps(w, d, s, tag, n, stmt, Failed);
    } else {
      match stmt {
        case Select(t, where) => SelectStepKeeps(w, d, s, tag, n, t, where);
        case Insert(t, cols) =>
          InsertIsExec(w, d, s, RowKey(tag, n), t, cols);
          InsertStepKeeps(w, d, s, tag, n, t, cols);
        case Update(t, where, assign) =>
          UpdateIsExec(w, d, s, RowKey(tag, n), t, where, assign);
          UpdateStepKeeps(w, d, s, tag, n, t, where, assign);
        case Delete(t, where) => DeleteStepKeeps(w, d, s, tag, n, t, where);
      }
    }
  }

  lemma SamePick(w: World, d1: Data, s1: Settings, d2: Data, s2: Settings, t: TableName, where: Row -> bool, r: Row,
      tag: nat, n: nat)
    requires Twin(w, d1, s1, d2, s2, tag, n) && t in w.kinds && (w.shared ==> ErpEndpoints in w.kinds) && Typed(r)
    ensures Seen(w.cat, App, d1, s1, t, where)(r) == Seen(w.cat, App, d2, s2, t, where)(r)
    ensures Hit(w.cat, App, d1, s1, t, where)(r) == Hit(w.cat, App, d2, s2, t, where)(r)
    ensures Acceptable(w.cat, App, d1, s1, t, r) == Acceptable(w.cat, App, d2, s2, t, r)
  {
    SameDecisions(w, d1, s1, d2, s2, t, r, tag, n);
  }

  /** On rows both databases share, the two sessions pick alike. */
  lemma SamePicks(w: World, d1: Data, s1: Settings, d2: Data, s2: Settings, t: TableName, where: Row -> bool, tag: nat,
      n: nat)
    requires Twin(w, d1, s1, d2, s2, tag, n) && t in w.kinds && (w.shared ==> ErpEndpoints in w.kinds)
    ensures forall r :: Typed(r) ==>
      && Seen(w.cat, App, d1, s1, t, where)(r) == Seen(w.cat, App, d2, s2, t, where)(r)
      && Hit(w.cat, App, d1, s1, t, where)(r) == Hit(w.cat, App, d2, s2, t, where)(r)
      && Acceptable(w.cat, App, d1, s1, t, r) == Acceptable(w.cat, App, d2, s2, t, r)
  {
    forall r | Typed(r)
      ensures Seen(w.cat, App, d1, s1, t, where)(r) == Seen(w.cat, App, d2, s2, t, where)(r)
      ensures Hit(w.cat, App, d1, s1, t, where)(r) == Hit(w.cat, App, d2, s2, t, where)(r)
      ensures Acceptable(w.cat, App, d1, s1, t, r) == Acceptable(w.cat, App, d2, s2, t, r)
    {
      SamePick(w, d1, s1, d2, s2, t, where, r, tag, n);
    }
  }

  /** A pick that falls on own rows only gives the same rows in both databases. */
  lemma SamePicked(w: World, d1: Data, f1: Row -> bool, d2: Data, f2: Row -> bool, t: TableName, tag: nat, n: nat)
    requires t in w.kinds && OwnRows(w, d1, t) == OwnRows(w, d2, t)
    requires Inv(w.kinds, d1, tag, n) && Inv(w.kinds, d2, tag, n)
    requires forall r :: Typed(r) ==> f1(r) == f2(r)
    requires forall r :: r in d1[t] && f1(r) ==> Own(w, d1, t, r)
    requires forall r :: r in d2[t] && f2(r) ==> Own(w, d2, t, r)
    ensures Filter(f1, d1[t]) == Filter(f2, d2[t])
    ensures Filter(IsOwn(w, d1, t), Filter(Not(f1), d1[t])) == Filter(IsOwn(w, d2, t), Filter(Not(f2), d2[t]))
  {
    FilterNarrow(f1, IsOwn(w, d1, t), d1[t]);
    FilterNarrow(f2, IsOwn(w, d2, t), d2[t]);
    FilterCommute(IsOwn(w, d1, t), Not(f1), d1[t]);
    FilterCommute(IsOwn(w, d2, t), Not(f2), d2[t]);
    OwnRowsTyped(w, d1, t, tag, n);
    FilterCong(f1, f2, OwnRows(w, d1, t));
    FilterCong(Not(f1), Not(f2), OwnRows(w, d1, t));
  }

  lemma OwnRowsTyped(w: World, d: Data, t: TableName, tag: nat, n: nat)
    requires t in w.kinds && Inv(w.kinds, d, tag, n)
    ensures forall r :: r in OwnRows(w, d, t) ==> Typed(r) && r in d[t] && Own(w, d, t, r)
  {
    FilterMembers(IsOwn(w, d, t), d[t]);
    forall r | r in d[t] ensures Typed(r) {
      assert RowOk(w.kinds, t, r, tag, n);
    }
  }

  lemma UpdateAcceptedAlike(w: World, d1: Data, s1: Settings, d2: Data, s2: Settings, t: TableName, where: Row -> bool,
      assign: Assignment, tag: nat, n: nat)
    requires Twin(w, d1, s1, d2, s2, tag, n) && t in w.kinds && (w.shared ==> ErpEndpoints in w.kinds)
    requires UpdateAccepted(w, d1, s1, t, where, assign)
    ensures UpdateAccepted(w, d2, s2, t, where, assign)
  {
    HitIsOwn(w, d2, s2, t, where, tag, n);
    forall r | r in d2[t] && Hit(w.cat, App, d2, s2, t, where)(r)
      ensures Acceptable(w.cat, App, d2, s2, t, Changed(assign, r))
    {
      FilterMember(IsOwn(w, d2, t), d2[t], r);
      FilterMember(IsOwn(w, d1, t), d1[t], r);
      assert RowOk(w.kinds, t, r, tag, n);
      SamePick(w, d1, s1, d2, s2, t, where, r, tag, n);
      SamePick(w, d1, s1, d2, s2, t, where, Changed(assign, r), tag, n);
    }
  }

  lemma UpdateSame(w: World, d1: Data, s1: Settings, d2: Data, s2: Settings, t: TableName, where: Row -> bool,
      assign: Assignment, tag: nat, n: nat)
    requires Twin(w, d1, s1, d2, s2, tag, n) && t in w.kinds && (w.shared ==> ErpEndpoints in w.kinds)
    requires UpdateAccepted(w, d1, s1, t, where, assign) && UpdateAccepted(w, d2, s2, t, where, assign)
    ensures Filter(IsOwn(w, d1, t), Map(Rewrite(Hit(w.cat, App, d1, s1, t, where), assign), d1[t]))
         == Filter(IsOwn(w, d2, t), Map(Rewrite(Hit(w.cat, App, d2, s2, t, where), assign), d2[t]))
  {
    var f1 := Rewrite(Hit(w.cat, App, d1, s1, t, where), assign);
    var f2 := Rewrite(Hit(w.cat, App, d2, s2, t, where), assign);
    RewriteKeepsSides(w, d1, s1, t, where, assign, tag, n);
    RewriteKeepsSides(w, d2, s2, t, where, assign, tag, n);
    FilterMap(IsOwn(w, d1, t), f1, d1[t]);
    FilterMap(IsOwn(w, d2, t), f2, d2[t]);
    OwnRowsTyped(w, d1, t, tag, n);
    forall r | r in OwnRows(w, d1, t) ensures f1(r) == f2(r) {
      SamePick(w, d1, s1, d2, s2, t, where, r, tag, n);
    }
    MapCong(f1, f2, OwnRows(w, d1, t));
  }

  // --- one statement, run by two look-alike sessions ---

  ghost predicate SameEnd(w: World, e1: ExecEnd, e2: ExecEnd, tag: nat, n: nat) {
    e1.reply == e2.reply && Twin(w, e1.data, e1.s, e2.data, e2.s, tag, n)
  }

  ghost predicate SameWrite(w: World, d1: Data, s1: Settings, d2: Data, s2: Settings, t: TableName, rows1: seq<Row>,
      rows2: seq<Row>, tag: nat, n: nat) {
    && Twin(w, d1, s1, d2, s2, tag, n)
    && Kept(w, d1, t, rows1, tag, n) && Kept(w, d2, t, rows2, tag, n)
    && Filter(IsOwn(w, d1, t), rows1) == Filter(IsOwn(w, d2, t), rows2)
  }

  lemma WriteSame(w: World, d1: Data, s1: Settings, d2: Data, s2: Settings, t: TableName, rows1: seq<Row>,
      rows2: seq<Row>, tag: nat, n: nat)
    requires SameWrite(w, d1, s1, d2, s2, t, rows1, rows2, tag, n)
    ensures Twin(w, d1[t := rows1], s1, d2[t := rows2], s2, tag, n + 1)
  {
    SameAfter(w, d1, rows1, d2, rows2, t, tag, n);
  }

  lemma InsertedSame(w: World, d1: Data, d2: Data, t: TableName, r: Row)
    requires t in w.kinds && t in d1 && t in d2 && OwnRows(w, d1, t) == OwnRows(w, d2, t) && Own(w, d1, t, r)
    requires Own(w, d2, t, r)
    ensures Filter(IsOwn(w, d1, t), d1[t] + [r]) == Filter(IsOwn(w, d2, t), d2[t] + [r])
  {
    FilterAppend(IsOwn(w, d1, t), d1[t], [r]);
    FilterAppend(IsOwn(w, d2, t), d2[t], [r]);
  }

  lemma InsertSame(w: World, d1: Data, s1: Settings, d2: Data, s2: Settings, t: TableName, r: Row, tag: nat, n: nat)
    requires Twin(w, d1, s1, d2, s2, tag, n) && t in w.kinds && (w.shared ==> ErpEndpoints in w.kinds)
    requires r.id == RowKey(tag, n) && Acceptable(w.cat, App, d1, s1, t, r)
    ensures Acceptable(w.cat, App, d2, s2, t, r)
    ensures Twin(w, d1[t := d1[t] + [r]], s1, d2[t := d2[t] + [r]], s2, tag, n + 1)
  {
    SamePick(w, d1, s1, d2, s2, t, (x: Row) => true, r, tag, n);
    InsertKeeps(w, d1, s1, t, r, tag, n);
    InsertKeeps(w, d2, s2, t, r, tag, n);
    InsertedSame(w, d1, d2, t, r);
    WriteSame(w, d1, s1, d2, s2, t, d1[t] + [r], d2[t] + [r], tag, n);
  }

  lemma DeleteSame(w: World, d1: Data, s1: Settings, d2: Data, s2: Settings, t: TableName, where: Row -> bool,
      tag: nat, n: nat)
    requires Twin(w, d1, s1, d2, s2, tag, n) && t in w.kinds && (w.shared ==> ErpEndpoints in w.kinds)
    ensures var rows1, rows2 := Filter(Not(Hit(w.cat, App, d1, s1, t, where)), d1[t]),
      Filter(Not(Hit(w.cat, App, d2, s2, t, where)), d2[t]);
      Twin(w, d1[t := rows1], s1, d2[t := rows2], s2, tag, n + 1)
    ensures Filter(Hit(w.cat, App, d1, s1, t, where), d1[t]) == Filter(Hit(w.cat, App, d2, s2, t, where), d2[t])
    ensures Filter(Seen(w.cat, App, d1, s1, t, where), d1[t]) == Filter(Seen(w.cat, App, d2, s2, t, where), d2[t])
  {
    SamePicks(w, d1, s1, d2, s2, t, where, tag, n);
    HitIsOwn(w, d1, s1, t, where, tag, n);
    HitIsOwn(w, d2, s2, t, where, tag, n);
    SamePicked(w, d1, Seen(w.cat, App, d1, s1, t, where), d2, Seen(w.cat, App, d2, s2, t, where), t, tag, n);
    SamePicked(w, d1, Hit(w.cat, App, d1, s1, t, where), d2, Hit(w.cat, App, d2, s2, t, where), t, tag, n);
    DeleteKeeps(w, d1, s1, t, where, tag, n);
    DeleteKeeps(w, d2, s2, t, where, tag, n);
    WriteSame(w, d1, s1, d2, s2, t,
              Filter(Not(Hit(w.cat, App, d1, s1, t, where)), d1[t]),
              Filter(Not(Hit(w.cat, App, d2, s2, t, where)), d2[t]), tag, n);
  }

  lemma TwinLater(w: World, d1: Data, s1: Settings, d2: Data, s2: Settings, tag: nat, n: nat, tag': nat, n': nat)
    requires Twin(w, d1, s1, d2, s2, tag, n) && (tag < tag' || (tag == tag' && n <= n'))
    ensures Twin(w, d1, s1, d2, s2, tag', n')
  {
    InvLater(w.kinds, d1, tag, n, tag', n');
    InvLater(w.kinds, d2, tag, n, tag', n');
  }

  lemma SharedOnSame(w: World, s1: Settings, s2: Settings, ready: bool, tenant: string, workspace: string)
    requires Similar(s1, s2) && Within(w.o, s1) && Within(w.o, s2)
    ensures var t1, t2 := SharedOn(s1, ready, tenant, workspace), SharedOn(s2, ready, tenant, workspace);
      Similar(t1, t2) && Within(w.o, t1) && Within(w.o, t2) && t1[SharedFlag] == t2[SharedFlag]
  {
    OrEmptySettings(s1, s2, CurrentTenant);
    OrEmptySettings(s1, s2, CurrentWorkspace);
    var t1, t2 := SharedOn(s1, ready, tenant, workspace), SharedOn(s2, ready, tenant, workspace);
    forall g: Guc ensures OrEmpty(t1, g) == OrEmpty(t2, g) {
      assert OrEmpty(s1, g) == OrEmpty(s2, g);
    }
  }

  lemma UpdateWrites(w: World, d1: Data, s1: Settings, d2: Data, s2: Settings, t: TableName, where: Row -> bool,
      assign: Assignment, tag: nat, n: nat)
    requires Twin(w, d1, s1, d2, s2, tag, n) && t in w.kinds && (w.shared ==> ErpEndpoints in w.kinds)
    requires UpdateAccepted(w, d1, s1, t, where, assign) && UpdateAccepted(w, d2, s2, t, where, assign)
    ensures var rows1 := Map(Rewrite(Hit(w.cat, App, d1, s1, t, where), assign), d1[t]);
      var rows2 := Map(Rewrite(Hit(w.cat, App, d2, s2, t, where), assign), d2[t]);
      Twin(w, d1[t := rows1], s1, d2[t := rows2], s2, tag, n + 1)
  {
    UpdateSame(w, d1, s1, d2, s2, t, where, assign, tag, n);
    UpdateKeeps(w, d1, s1, t, where, assign, tag, n);
    UpdateKeeps(w, d2, s2, t, where, assign, tag, n);
    WriteSame(w, d1, s1, d2, s2, t,
              Map(Rewrite(Hit(w.cat, App, d1, s1, t, where), assign), d1[t]),
              Map(Rewrite(Hit(w.cat, App, d2, s2, t, where), assign), d2[t]), tag, n);
  }

  function UpdateExec(w: World, d: Data, s: Settings, t: TableName, where: Row -> bool, assign: Assignment): ExecEnd
    requires t in d
  {
    if UpdateAccepted(w, d, s, t, where, assign) then
      ExecEnd(d[t := Map(Rewrite(Hit(w.cat, App, d, s, t, where), assign), d[t])], s,
              Affected(|Filter(Hit(w.cat, App, d, s, t, where), d[t])|))
    else ExecEnd(d, s, Failed)
  }

  lemma UpdateStatementSame(w: World, d1: Data, s1: Settings, d2: Data, s2: Settings, t: TableName, where: Row -> bool,
      assign: Assignment, tag: nat, n: nat)
    requires Twin(w, d1, s1, d2, s2, tag, n) && (w.shared ==> ErpEndpoints in w.kinds) && t in w.kinds
    ensures SameEnd(w, UpdateExec(w, d1, s1, t, where, assign), UpdateExec(w, d2, s2, t, where, assign), tag, n + 1)
  {
    TwinLater(w, d1, s1, d2, s2, tag, n, tag, n + 1);
    TwinSym(w, d1, s1, d2, s2, tag, n);
    if UpdateAccepted(w, d1, s1, t, where, assign) {
      UpdateAcceptedAlike(w, d1, s1, d2, s2, t, where, assign, tag, n);
      UpdateWrites(w, d1, s1, d2, s2, t, where, assign, tag, n);
      DeleteSame(w, d1, s1, d2, s2, t, where, tag, n);
    } else if UpdateAccepted(w, d2, s2, t, where, assign) {
      UpdateAcceptedAlike(w, d2, s2, d1, s1, t, where, assign, tag, n);
    }
  }

  lemma UpdateIsExec(w: World, d: Data, s: Settings, key: RowKey, t: TableName, where: Row -> bool,
      assign: Assignment)
    requires t in d
    ensures Exec(w.cat, App, d, s, key, Update(t, where, assign)) == UpdateExec(w, d, s, t, where, assign)
  {
  }

  function InsertExec(w: World, d: Data, s: Settings, t: TableName, r: Row): ExecEnd
    requires t in d
  {
    if Acceptable(w.cat, App, d, s, t, r) then ExecEnd(d[t := d[t] + [r]], s, NewKey(r.id)) else ExecEnd(d, s, Failed)
  }

  lemma InsertIsExec(w: World, d: Data, s: Settings, key: RowKey, t: TableName, cols: map<Column, Value>)
    requires t in d
    ensures Exec(w.cat, App, d, s, key, Insert(t, cols)) == InsertExec(w, d, s, t, Row(key, cols))
  {
  }

  lemma InsertStatementSame(w: World, d1: Data, s1: Settings, d2: Data, s2: Settings, t: TableName, r: Row, tag: nat,
      n: nat)
    requires Twin(w, d1, s1, d2, s2, tag, n) && (w.shared ==> ErpEndpoints in w.kinds) && t in w.kinds
    requires r.id == RowKey(tag, n)
    ensures SameEnd(w, InsertExec(w, d1, s1, t, r), InsertExec(w, d2, s2, t, r), tag, n + 1)
  {
    TwinLater(w, d1, s1, d2, s2, tag, n, tag, n + 1);
    if Acceptable(w.cat, App, d1, s1, t, r) {
      InsertSame(w, d1, s1, d2, s2, t, r, tag, n);
    } else if Acceptable(w.cat, App, d2, s2, t, r) {
      TwinSym(w, d1, s1, d2, s2, tag, n);
      InsertSame(w, d2, s2, d1, s1, t, r, tag, n);
    }
  }

  /** The heart of isolation: one statement replies alike and leaves the databases alike. */
  lemma ExecSame(w: World, d1: Data, s1: Settings, d2: Data, s2: Settings, tag: nat, n: nat, stmt: Stmt)
    requires Twin(w, d1, s1, d2, s2, tag, n) && (w.shared ==> ErpEndpoints in w.kinds)
    ensures SameEnd(w, Exec(w.cat, App, d1, s1, RowKey(tag, n), stmt), Exec(w.cat, App, d2, s2, RowKey(tag, n), stmt),
      tag, n + 1)
  {
    TwinLater(w, d1, s1, d2, s2, tag, n, tag, n + 1);
    if stmt.EnableShared? {
      SharedOnSame(w, s1, s2, stmt.ready, stmt.tenant, stmt.workspace);
    } else if stmt.table in w.kinds {
      match stmt {
        case Select(t, where) => DeleteSame(w, d1, s1, d2, s2, t, where, tag, n);
        case Insert(t, cols) =>
          InsertIsExec(w, d1, s1, RowKey(tag, n), t, cols);
          InsertIsExec(w, d2, s2, RowKey(tag, n), t, cols);
          InsertStatementSame(w, d1, s1, d2, s2, t, Row(RowKey(tag, n), cols), tag, n);
        case Delete(t, where) => DeleteSame(w, d1, s1, d2, s2, t, where, tag, n);
        case Update(t, where, assign) =>
          UpdateIsExec(w, d1, s1, RowKey(tag, n), t, where, assign);
          UpdateIsExec(w, d2, s2, RowKey(tag, n), t, where, assign);
          UpdateStatementSame(w, d1, s1, d2, s2, t, where, assign, tag, n);
      }
    }
  }
}
