/** The rows one batch transaction locks, in its order, and exactly when that order is safe. */
module BatchLocks {
  import opened Wrappers
  import opened Versions
  import opened Rows
  import Derivation
  import opened KeyedTables
  import opened RowOrder
  import opened GraphWrites
  import opened Catalog
  import opened LockOrder
  import CatalogStore

  function EntityLocks(table: Table, ids: seq<string>): seq<Lock> {
    seq(|ids|, i requires 0 <= i < |ids| => EntityRow(DocId(table, ids[i])))
  }

  function VertexLocks(rows: seq<Vertex>): seq<Lock> {
    seq(|rows|, i requires 0 <= i < |rows| => VertexRow(VertexKey(rows[i])))
  }

  function EdgeLocks(rows: seq<Edge>): seq<Lock> {
    seq(|rows|, i requires 0 <= i < |rows| => EdgeRow(EdgeKey(rows[i])))
  }

  function Ids(messages: seq<Message>): seq<string> {
    seq(|messages|, i requires 0 <= i < |messages| => messages[i].id)
  }

  /** Unchanged rows in the order their updates meet them, then the changed rows sorted by id. */
  function RowIds(seen: seq<string>, upserts: seq<Message>): seq<string> {
    seen + Ids(Sorted(upserts, CatalogStore.MessageLess()))
  }

  /** Entity rows, vertex statements, scoped deletes, edge statements. */
  function BatchProgram(table: Table, ids: seq<string>, changes: seq<Change>, deleted: seq<Edge>): seq<Lock> {
    EntityLocks(table, ids)
    + VertexLocks(VertexStatements(AllVertices(changes), |VERTEX_ORDER|))
    + EdgeLocks(deleted)
    + EdgeLocks(EdgeStatements(AllEdges(changes), |EDGE_ORDER|))
  }

  ghost predicate RowsAscend(ids: seq<string>) {
    forall p, q :: 0 <= p < q < |ids| ==> ids[p] == ids[q] || TextLess(ids[p], ids[q])
  }

  // ---- ordered parts make an ordered whole ------------------------------------------------

  ghost predicate AllBelow(a: seq<Lock>, b: seq<Lock>) {
    forall x, y :: x in a && y in b && !Private(x) && !Private(y) ==> LockLess(x, y)
  }

  lemma OrderedConcat(a: seq<Lock>, b: seq<Lock>)
    requires Ordered(a) && Ordered(b) && AllBelow(a, b)
    ensures Ordered(a + b)
  {
    var all := a + b;
    forall p, q | 0 <= p < q < |all| && !Private(all[p]) && !Private(all[q]) ensures all[p] == all[q] || LockLess(all[p], all[q]) {
      if q < |a| {
        assert all[p] == a[p] && all[q] == a[q];
      } else if p >= |a| {
        assert all[p] == b[p - |a|] && all[q] == b[q - |a|];
      } else {
        assert all[p] in a && all[q] in b;
      }
    }
  }

  /** Different phases, or different relations of a phase, are decided by the first two columns. */
  lemma EarlierPhase(a: Lock, b: Lock)
    requires Rank(a)[0].n < Rank(b)[0].n || (Rank(a)[0] == Rank(b)[0] && Rank(a)[1].n < Rank(b)[1].n)
    ensures LockLess(a, b)
  {
    var x, y := Rank(a), Rank(b);
    if x[0] == y[0] {
      assert x[1..][0] == x[1] && y[1..][0] == y[1];
    }
  }

  lemma SameHeadOrder(x: seq<Cell>, y: seq<Cell>)
    requires x != [] && y != [] && x[0] == y[0]
    ensures RowLess(x, y) <==> RowLess(x[1..], y[1..])
  {
  }

  lemma WithinRelation(a: Lock, b: Lock)
    requires |Rank(a)| >= 2 && |Rank(b)| >= 2 && Rank(a)[..2] == Rank(b)[..2]
    ensures LockLess(a, b) <==> RowLess(Rank(a)[2..], Rank(b)[2..])
  {
    var x, y := Rank(a), Rank(b);
    assert x[0] == x[..2][0] == y[..2][0] == y[0];
    assert x[1] == x[..2][1] == y[..2][1] == y[1];
    assert x[1..][0] == x[1] && y[1..][0] == y[1];
    assert x[1..][1..] == x[2..] && y[1..][1..] == y[2..];
    SameHeadOrder(x, y);
    SameHeadOrder(x[1..], y[1..]);
  }

  lemma OneColumn(s: string, t: string)
    ensures RowLess([Text(s)], [Text(t)]) <==> TextLess(s, t)
  {
    TextOrder(s, "", "");
    if s == t {
      assert [Text(s)][1..] == [];
    }
  }

  // ---- entity rows ------------------------------------------------------------------------

  lemma EntityRowOrder(table: Table, a: string, b: string)
    ensures LockLess(EntityRow(DocId(table, a)), EntityRow(DocId(table, b))) <==> TextLess(a, b)
  {
    var x, y := EntityRow(DocId(table, a)), EntityRow(DocId(table, b));
    assert Rank(x)[2..] == [Text(a)] && Rank(y)[2..] == [Text(b)];
    assert Rank(x)[..2] == Rank(y)[..2];
    WithinRelation(x, y);
    OneColumn(a, b);
  }

  lemma EntityLocksOrder(table: Table, ids: seq<string>)
    ensures Ordered(EntityLocks(table, ids)) <==> RowsAscend(ids)
  {
    var locks := EntityLocks(table, ids);
    forall p, q | 0 <= p < q < |ids|
      ensures (locks[p] == locks[q] || LockLess(locks[p], locks[q])) <==> (ids[p] == ids[q] || TextLess(ids[p], ids[q]))
    {
      EntityRowOrder(table, ids[p], ids[q]);
    }
    if Ordered(locks) {
      forall p, q | 0 <= p < q < |ids| ensures ids[p] == ids[q] || TextLess(ids[p], ids[q]) {
        assert !Private(locks[p]) && !Private(locks[q]);
      }
    }
  }

  // ---- vertex statements ------------------------------------------------------------------

  lemma VertexRowOrder(a: Vertex, b: Vertex)
    requires VertexRelationOf(a) == VertexRelationOf(b) && !VertexLess(b, a)
    ensures VertexRow(VertexKey(a)) == VertexRow(VertexKey(b)) || LockLess(VertexRow(VertexKey(a)), VertexRow(VertexKey(b)))
  {
    var x, y := VertexRow(VertexKey(a)), VertexRow(VertexKey(b));
    TextOrder(KeyColumn(a), KeyColumn(b), "");
    KeyKeepsVertexRelation(a);
    KeyKeepsVertexRelation(b);
    KeyKeepsColumn(a);
    KeyKeepsColumn(b);
    if TextLess(KeyColumn(a), KeyColumn(b)) {
      assert Rank(x)[2..] == [Text(KeyColumn(a))] && Rank(y)[2..] == [Text(KeyColumn(b))];
      assert Rank(x)[..2] == Rank(y)[..2];
      WithinRelation(x, y);
      OneColumn(KeyColumn(a), KeyColumn(b));
    } else {
      SameColumnSameKey(a, b);
    }
  }

  lemma KeyKeepsColumn(v: Vertex)
    ensures KeyColumn(VertexKey(v)) == KeyColumn(v)
  {
  }

  lemma SameColumnSameKey(a: Vertex, b: Vertex)
    requires VertexRelationOf(a) == VertexRelationOf(b) && KeyColumn(a) == KeyColumn(b)
    ensures VertexKey(a) == VertexKey(b)
  {
  }

  lemma TextLessIsStrict()
    ensures Strict(VertexLess)
  {
    forall a, b ensures VertexLess(a, b) ==> !VertexLess(b, a) {
      TextOrder(KeyColumn(a), KeyColumn(b), "");
    }
    forall a, b, c | !VertexLess(b, a) && !VertexLess(c, b) ensures !VertexLess(c, a) {
      TextOrder(KeyColumn(a), KeyColumn(b), KeyColumn(c));
      TextOrder(KeyColumn(c), KeyColumn(a), KeyColumn(b));
      TextOrder(KeyColumn(b), KeyColumn(c), KeyColumn(a));
    }
  }

  lemma VertexStatementHas(rows: seq<Vertex>, relation: VertexRelation, v: Vertex)
    ensures v in VertexStatement(rows, relation) <==> v in rows && VertexRelationOf(v) == relation
  {
    var chosen := Select(rows, InVertexRelation(relation));
    SelectMembers(rows, InVertexRelation(relation));
    SortedHas(Distinct(chosen), VertexLess, v);
    FirstWithDistinct(chosen, VertexKey, v);
  }

  lemma VertexStatementOrdered(rows: seq<Vertex>, relation: VertexRelation)
    ensures Ordered(VertexLocks(VertexStatement(rows, relation)))
  {
    var statement := VertexStatement(rows, relation);
    TextLessIsStrict();
    SortedInOrder(Distinct(Select(rows, InVertexRelation(relation))), VertexLess);
    var locks := VertexLocks(statement);
    forall p, q | 0 <= p < q < |locks| ensures locks[p] == locks[q] || LockLess(locks[p], locks[q]) {
      VertexStatementHas(rows, relation, statement[p]);
      VertexStatementHas(rows, relation, statement[q]);
      VertexRowOrder(statement[p], statement[q]);
    }
  }

  /** Vertex rows of the first n relations. */
  ghost predicate VertexPhase(locks: seq<Lock>, n: nat) {
    forall l :: l in locks ==> l.VertexRow? && VertexRank(VertexRelationOf(l.vertex)) < n
  }

  lemma VertexLocksConcat(a: seq<Vertex>, b: seq<Vertex>)
    ensures VertexLocks(a + b) == VertexLocks(a) + VertexLocks(b)
  {
  }

  lemma VertexStatementPhase(rows: seq<Vertex>, n: nat)
    requires n < |VERTEX_ORDER|
    ensures forall l :: l in VertexLocks(VertexStatement(rows, VERTEX_ORDER[n])) ==> l.VertexRow? && VertexRank(VertexRelationOf(l.vertex)) == n
  {
    var statement := VertexStatement(rows, VERTEX_ORDER[n]);
    forall l | l in VertexLocks(statement) ensures l.VertexRow? && VertexRank(VertexRelationOf(l.vertex)) == n {
      var i :| 0 <= i < |statement| && VertexLocks(statement)[i] == l;
      VertexStatementHas(rows, VERTEX_ORDER[n], statement[i]);
      KeyKeepsVertexRelation(statement[i]);
      VertexRanksDiffer(n, VertexRelationOf(statement[i]));
    }
  }

  lemma {:induction false} VertexStatementsOrdered(rows: seq<Vertex>, n: nat)
    requires n <= |VERTEX_ORDER|
    ensures Ordered(VertexLocks(VertexStatements(rows, n))) && VertexPhase(VertexLocks(VertexStatements(rows, n)), n)
  {
    if n > 0 {
      VertexStatementsOrdered(rows, n - 1);
      VertexLocksConcat(VertexStatements(rows, n - 1), VertexStatement(rows, VERTEX_ORDER[n - 1]));
      VertexStatementOrdered(rows, VERTEX_ORDER[n - 1]);
      VertexStatementPhase(rows, n - 1);
      NextVertexPhase(VertexLocks(VertexStatements(rows, n - 1)), VertexLocks(VertexStatement(rows, VERTEX_ORDER[n - 1])), n - 1);
    }
  }

  lemma NextVertexPhase(a: seq<Lock>, b: seq<Lock>, n: nat)
    requires Ordered(a) && Ordered(b) && VertexPhase(a, n)
    requires forall l :: l in b ==> l.VertexRow? && VertexRank(VertexRelationOf(l.vertex)) == n
    ensures Ordered(a + b) && VertexPhase(a + b, n + 1)
  {
    forall x, y | x in a && y in b ensures LockLess(x, y) {
      EarlierPhase(x, y);
    }
    OrderedConcat(a, b);
  }

  // ---- edge statements --------------------------------------------------------------------

  lemma EdgeLessIsStrict()
    ensures Strict(EdgeLess)
  {
    forall a, b ensures EdgeLess(a, b) ==> !EdgeLess(b, a) {
      RowOrderIsTotal(Columns(a), Columns(b), []);
    }
    forall a, b, c | !EdgeLess(b, a) && !EdgeLess(c, b) ensures !EdgeLess(c, a) {
      RowOrderIsTotal(Columns(a), Columns(b), Columns(c));
      RowOrderIsTotal(Columns(c), Columns(a), Columns(b));
      RowOrderIsTotal(Columns(b), Columns(c), Columns(a));
    }
  }

  lemma SharedKeyIsTheRow(e: Edge)
    requires !Private(EdgeRow(EdgeKey(e)))
    ensures EdgeKey(e) == e
  {
  }

  lemma EdgeRowOrder(a: Edge, b: Edge)
    requires RelationOf(a) == RelationOf(b) && !EdgeLess(b, a)
    requires !Private(EdgeRow(EdgeKey(a))) && !Private(EdgeRow(EdgeKey(b)))
    ensures EdgeRow(EdgeKey(a)) == EdgeRow(EdgeKey(b)) || LockLess(EdgeRow(EdgeKey(a)), EdgeRow(EdgeKey(b)))
  {
    SharedKeyIsTheRow(a);
    SharedKeyIsTheRow(b);
    RowOrderIsTotal(Columns(a), Columns(b), []);
    var x, y := EdgeRow(a), EdgeRow(b);
    if EdgeLess(a, b) {
      assert Rank(x)[2..] == Columns(a) && Rank(y)[2..] == Columns(b);
      assert Rank(x)[..2] == Rank(y)[..2];
      WithinRelation(x, y);
    } else {
      ColumnsTellRowsApart(a, b);
    }
  }

  lemma EdgeStatementRows(rows: seq<Edge>, relation: EdgeRelation, e: Edge)
    ensures e in EdgeStatement(rows, relation) <==> e in rows && RelationOf(e) == relation
  {
    var chosen := Select(rows, InEdgeRelation(relation));
    SelectMembers(rows, InEdgeRelation(relation));
    SortedHas(Distinct(chosen), EdgeLess, e);
    FirstWithDistinct(chosen, EdgeKey, e);
  }

  lemma EdgeStatementOrdered(rows: seq<Edge>, relation: EdgeRelation)
    ensures Ordered(EdgeLocks(EdgeStatement(rows, relation)))
  {
    var statement := EdgeStatement(rows, relation);
    EdgeLessIsStrict();
    SortedInOrder(Distinct(Select(rows, InEdgeRelation(relation))), EdgeLess);
    var locks := EdgeLocks(statement);
    forall p, q | 0 <= p < q < |locks| && !Private(locks[p]) && !Private(locks[q]) ensures locks[p] == locks[q] || LockLess(locks[p], locks[q]) {
      EdgeStatementRows(rows, relation, statement[p]);
      EdgeStatementRows(rows, relation, statement[q]);
      EdgeRowOrder(statement[p], statement[q]);
    }
  }

  ghost predicate EdgePhase(locks: seq<Lock>, n: nat) {
    forall l :: l in locks ==> l.EdgeRow? && EdgeRank(RelationOf(l.edge)) < n
  }

  lemma EdgeLocksConcat(a: seq<Edge>, b: seq<Edge>)
    ensures EdgeLocks(a + b) == EdgeLocks(a) + EdgeLocks(b)
  {
  }

  lemma EdgeStatementPhase(rows: seq<Edge>, n: nat)
    requires n < |EDGE_ORDER|
    ensures forall l :: l in EdgeLocks(EdgeStatement(rows, EDGE_ORDER[n])) ==> l.EdgeRow? && EdgeRank(RelationOf(l.edge)) == n
  {
    var statement := EdgeStatement(rows, EDGE_ORDER[n]);
    forall l | l in EdgeLocks(statement) ensures l.EdgeRow? && EdgeRank(RelationOf(l.edge)) == n {
      var i :| 0 <= i < |statement| && EdgeLocks(statement)[i] == l;
      EdgeStatementRows(rows, EDGE_ORDER[n], statement[i]);
      KeysKeepOwners(statement[i]);
      EdgeRanksDiffer(n, RelationOf(statement[i]));
    }
  }

  lemma {:induction false} EdgeStatementsOrdered(rows: seq<Edge>, n: nat)
    requires n <= |EDGE_ORDER|
    ensures Ordered(EdgeLocks(EdgeStatements(rows, n))) && EdgePhase(EdgeLocks(EdgeStatements(rows, n)), n)
  {
    if n > 0 {
      EdgeStatementsOrdered(rows, n - 1);
      EdgeLocksConcat(EdgeStatements(rows, n - 1), EdgeStatement(rows, EDGE_ORDER[n - 1]));
      EdgeStatementOrdered(rows, EDGE_ORDER[n - 1]);
      EdgeStatementPhase(rows, n - 1);
      NextEdgePhase(EdgeLocks(EdgeStatements(rows, n - 1)), EdgeLocks(EdgeStatement(rows, EDGE_ORDER[n - 1])), n - 1);
    }
  }

  lemma NextEdgePhase(a: seq<Lock>, b: seq<Lock>, n: nat)
    requires Ordered(a) && Ordered(b) && EdgePhase(a, n)
    requires forall l :: l in b ==> l.EdgeRow? && EdgeRank(RelationOf(l.edge)) == n
    ensures Ordered(a + b) && EdgePhase(a + b, n + 1)
  {
    forall x, y | x in a && y in b ensures LockLess(x, y) {
      EarlierPhase(x, y);
    }
    OrderedConcat(a, b);
  }

  // ---- the whole batch --------------------------------------------------------------------

  lemma DeletesArePrivate(changes: seq<Change>, deleted: seq<Edge>)
    requires forall e :: e in deleted ==> SomeReplaces(changes, e)
    ensures Ordered(EdgeLocks(deleted)) && forall l :: l in EdgeLocks(deleted) ==> Private(l)
  {
    forall l | l in EdgeLocks(deleted) ensures Private(l) {
      var i :| 0 <= i < |deleted| && EdgeLocks(deleted)[i] == l;
      assert deleted[i] in deleted;
      KeysKeepOwners(deleted[i]);
    }
    assert forall p :: 0 <= p < |deleted| ==> EdgeLocks(deleted)[p] in EdgeLocks(deleted);
  }

  lemma PhasesAscend(entities: seq<Lock>, vertices: seq<Lock>, deletes: seq<Lock>, edges: seq<Lock>)
    requires Ordered(entities) && Ordered(vertices) && Ordered(deletes) && Ordered(edges)
    requires forall l :: l in entities ==> l.EntityRow?
    requires forall l :: l in vertices ==> l.VertexRow?
    requires forall l :: l in deletes ==> Private(l)
    requires forall l :: l in edges ==> l.EdgeRow?
    ensures Ordered(entities + vertices + deletes + edges)
  {
    forall x, y | x in entities && y in vertices ensures LockLess(x, y) {
      EarlierPhase(x, y);
    }
    OrderedConcat(entities, vertices);
    OrderedConcat(entities + vertices, deletes);
    forall x, y | x in entities + vertices + deletes && y in edges && !Private(x) && !Private(y) ensures LockLess(x, y) {
      EarlierPhase(x, y);
    }
    OrderedConcat(entities + vertices + deletes, edges);
  }

  lemma EntityLocksAreEntityRows(table: Table, ids: seq<string>)
    ensures forall l :: l in EntityLocks(table, ids) ==> l.EntityRow?
  {
  }

  lemma PrefixIsOrdered(a: seq<Lock>, b: seq<Lock>)
    requires Ordered(a + b)
    ensures Ordered(a)
  {
    forall p, q | 0 <= p < q < |a| && !Private(a[p]) && !Private(a[q]) ensures a[p] == a[q] || LockLess(a[p], a[q]) {
      assert (a + b)[p] == a[p] && (a + b)[q] == a[q];
    }
  }

  lemma PartsOrder(entities: seq<Lock>, vertices: seq<Lock>, deletes: seq<Lock>, edges: seq<Lock>)
    requires (forall l :: l in entities ==> l.EntityRow?) && (forall l :: l in deletes ==> Private(l))
    requires Ordered(vertices) && VertexPhase(vertices, |VERTEX_ORDER|)
    requires Ordered(deletes) && Ordered(edges) && EdgePhase(edges, |EDGE_ORDER|)
    ensures Ordered(entities + vertices + deletes + edges) <==> Ordered(entities)
  {
    if Ordered(entities) {
      PhasesAscend(entities, vertices, deletes, edges);
    }
    if Ordered(entities + vertices + deletes + edges) {
      assert entities + vertices + deletes + edges == entities + (vertices + deletes + edges);
      PrefixIsOrdered(entities, vertices + deletes + edges);
    }
  }

  /** A batch's whole lock order ascends exactly when its entity rows do. */
  lemma BatchOrder(table: Table, ids: seq<string>, changes: seq<Change>, deleted: seq<Edge>)
    requires forall e :: e in deleted ==> SomeReplaces(changes, e)
    ensures Ordered(BatchProgram(table, ids, changes, deleted)) <==> RowsAscend(ids)
  {
    EntityLocksOrder(table, ids);
    EntityLocksAreEntityRows(table, ids);
    VertexStatementsOrdered(AllVertices(changes), |VERTEX_ORDER|);
    EdgeStatementsOrdered(AllEdges(changes), |EDGE_ORDER|);
    DeletesArePrivate(changes, deleted);
    PartsOrder(EntityLocks(table, ids), VertexLocks(VertexStatements(AllVertices(changes), |VERTEX_ORDER|)),
               EdgeLocks(deleted), EdgeLocks(EdgeStatements(AllEdges(changes), |EDGE_ORDER|)));
  }

  // ---- owned rows are guarded -------------------------------------------------------------

  ghost predicate Covered(table: Table, ids: seq<string>, changes: seq<Change>) {
    forall i :: 0 <= i < |changes| ==> changes[i].doc.table == table && changes[i].doc.id in ids
  }

  lemma EntityLockOf(table: Table, ids: seq<string>, id: string)
    requires id in ids
    ensures EntityRow(DocId(table, id)) in EntityLocks(table, ids)
  {
    var i :| 0 <= i < |ids| && ids[i] == id;
    assert EntityLocks(table, ids)[i] == EntityRow(DocId(table, id));
  }

  lemma DerivedEdgeIsGuarded(table: Table, ids: seq<string>, changes: seq<Change>, e: Edge)
    requires Writable(changes) && Covered(table, ids, changes) && e in AllEdges(changes) && Owner(e).Some?
    ensures EntityRow(Owner(e).value) in EntityLocks(table, ids)
  {
    DerivedByOne(changes, e);
    var i :| 0 <= i < |changes| && e in changes[i].graph.edges;
    assert OwnsItsRows(changes[i].doc, changes[i].graph);
    EntityLockOf(table, ids, changes[i].doc.id);
  }

  lemma DeletedEdgeIsGuarded(table: Table, ids: seq<string>, changes: seq<Change>, e: Edge)
    requires Covered(table, ids, changes) && SomeReplaces(changes, e)
    ensures Owner(e).Some? && EntityRow(Owner(e).value) in EntityLocks(table, ids)
  {
    var i :| 0 <= i < |changes| && Replaces(changes[i], e);
    EntityLockOf(table, ids, changes[i].doc.id);
  }

  ghost predicate GuardedBy(entities: seq<Lock>, rest: seq<Lock>) {
    forall l :: l in rest && Private(l) ==> EntityRow(Owner(l.edge).value) in entities
  }

  lemma GuardedBehind(entities: seq<Lock>, rest: seq<Lock>)
    requires (forall l :: l in entities ==> l.EntityRow?) && GuardedBy(entities, rest)
    ensures Guarded(entities + rest)
  {
    var all := entities + rest;
    forall k | 0 <= k < |all| && Private(all[k]) ensures EntityRow(Owner(all[k].edge).value) in all[..k] {
      assert all[k] in entities || all[k] in rest;
      assert all[k] !in entities;
      assert k >= |entities|;
      var m :| 0 <= m < |entities| && entities[m] == EntityRow(Owner(all[k].edge).value);
      assert all[..k][m] == entities[m];
    }
  }

  lemma EdgesGuarded(table: Table, ids: seq<string>, changes: seq<Change>)
    requires Writable(changes) && Covered(table, ids, changes)
    ensures GuardedBy(EntityLocks(table, ids), EdgeLocks(EdgeStatements(AllEdges(changes), |EDGE_ORDER|)))
  {
    var rows := EdgeStatements(AllEdges(changes), |EDGE_ORDER|);
    forall l | l in EdgeLocks(rows) && Private(l) ensures EntityRow(Owner(l.edge).value) in EntityLocks(table, ids) {
      var i :| 0 <= i < |rows| && EdgeLocks(rows)[i] == l;
      KeysKeepOwners(rows[i]);
      EdgeStatementsHave(AllEdges(changes), rows[i]);
      DerivedEdgeIsGuarded(table, ids, changes, rows[i]);
    }
  }

  lemma DeletesGuarded(table: Table, ids: seq<string>, changes: seq<Change>, deleted: seq<Edge>)
    requires Covered(table, ids, changes) && forall e :: e in deleted ==> SomeReplaces(changes, e)
    ensures GuardedBy(EntityLocks(table, ids), EdgeLocks(deleted))
  {
    forall l | l in EdgeLocks(deleted) && Private(l) ensures EntityRow(Owner(l.edge).value) in EntityLocks(table, ids) {
      var i :| 0 <= i < |deleted| && EdgeLocks(deleted)[i] == l;
      assert deleted[i] in deleted;
      KeysKeepOwners(deleted[i]);
      DeletedEdgeIsGuarded(table, ids, changes, deleted[i]);
    }
  }

  /** Every owned row a batch deletes or inserts lies behind its document's entity row. */
  lemma BatchIsGuarded(table: Table, ids: seq<string>, changes: seq<Change>, deleted: seq<Edge>)
    requires Writable(changes) && Covered(table, ids, changes) && forall e :: e in deleted ==> SomeReplaces(changes, e)
    ensures Guarded(BatchProgram(table, ids, changes, deleted))
  {
    EntityLocksAreEntityRows(table, ids);
    EdgesGuarded(table, ids, changes);
    DeletesGuarded(table, ids, changes, deleted);
    VertexStatementsOrdered(AllVertices(changes), |VERTEX_ORDER|);
    PartsGuarded(EntityLocks(table, ids), VertexLocks(VertexStatements(AllVertices(changes), |VERTEX_ORDER|)),
                 EdgeLocks(deleted), EdgeLocks(EdgeStatements(AllEdges(changes), |EDGE_ORDER|)));
  }

  lemma PartsGuarded(entities: seq<Lock>, vertices: seq<Lock>, deletes: seq<Lock>, edges: seq<Lock>)
    requires (forall l :: l in entities ==> l.EntityRow?) && VertexPhase(vertices, |VERTEX_ORDER|)
    requires GuardedBy(entities, deletes) && GuardedBy(entities, edges)
    ensures Guarded(entities + vertices + deletes + edges)
  {
    assert GuardedBy(entities, vertices + deletes + edges);
    GuardedBehind(entities, vertices + deletes + edges);
    assert entities + vertices + deletes + edges == entities + (vertices + deletes + edges);
  }

  // ---- exactly when a batch is safe -------------------------------------------------------

  /** A batch that writes `latest` over `before`, its unchanged rows met in some order. */
  ghost predicate IsBatch(ctx: Context, table: Table, before: map<DocId, Entity>, latest: seq<Message>, seen: seq<string>, deleted: seq<Edge>) {
    && OnePerDocument(latest)
    && (forall id :: id in seen <==> exists m :: m in latest && m.id == id && Unchanged(Lookup(before, DocId(table, id)), m))
    && (forall p, q :: 0 <= p < q < |seen| ==> seen[p] != seen[q])
    && (forall e :: e in deleted ==> SomeReplaces(ChangesOf(ctx, table, before, latest), e))
  }

  function ProgramOf(ctx: Context, table: Table, before: map<DocId, Entity>, latest: seq<Message>, seen: seq<string>, deleted: seq<Edge>): seq<Lock> {
    BatchProgram(table, RowIds(seen, Gated(table, before, latest)), ChangesOf(ctx, table, before, latest), deleted)
  }

  lemma IdsHas(messages: seq<Message>, id: string)
    ensures id in Ids(messages) <==> exists m :: m in messages && m.id == id
  {
    if id in Ids(messages) {
      var i :| 0 <= i < |messages| && Ids(messages)[i] == id;
      assert messages[i] in messages;
    }
    if m :| m in messages && m.id == id {
      var i :| 0 <= i < |messages| && messages[i] == m;
      assert Ids(messages)[i] == id;
    }
  }

  lemma SortedIdsHas(upserts: seq<Message>, id: string)
    ensures id in Ids(Sorted(upserts, CatalogStore.MessageLess())) <==> exists m :: m in upserts && m.id == id
  {
    IdsHas(Sorted(upserts, CatalogStore.MessageLess()), id);
    forall m ensures m in Sorted(upserts, CatalogStore.MessageLess()) <==> m in upserts {
      SortedHas(upserts, CatalogStore.MessageLess(), m);
    }
  }

  lemma BatchIsCovered(ctx: Context, table: Table, before: map<DocId, Entity>, latest: seq<Message>, seen: seq<string>)
    ensures Covered(table, RowIds(seen, Gated(table, before, latest)), ChangesOf(ctx, table, before, latest))
  {
    var documents := Gated(table, before, latest);
    forall i: nat | i < |documents|
      ensures ChangeOf(ctx, table, documents[i]).doc.table == table
      ensures ChangeOf(ctx, table, documents[i]).doc.id in RowIds(seen, documents)
    {
      ChangeIsCovered(ctx, table, documents, seen, i);
    }
  }

  lemma ChangeIsCovered(ctx: Context, table: Table, documents: seq<Message>, seen: seq<string>, i: nat)
    requires i < |documents|
    ensures ChangeOf(ctx, table, documents[i]).doc == DocId(table, documents[i].id) && documents[i].id in RowIds(seen, documents)
  {
    ChangeOwnsItsRows(ctx, table, documents[i]);
    assert documents[i] in documents;
    SortedIdsHas(documents, documents[i].id);
  }

  /** Guarded always; in lock order exactly when the rows it touches come in ascending id. */
  lemma BatchDiscipline(ctx: Context, table: Table, before: map<DocId, Entity>, latest: seq<Message>, seen: seq<string>, deleted: seq<Edge>)
    requires IsBatch(ctx, table, before, latest, seen, deleted)
    ensures var program := ProgramOf(ctx, table, before, latest, seen, deleted);
            Guarded(program) && (Ordered(program) <==> RowsAscend(RowIds(seen, Gated(table, before, latest))))
  {
    ChangesAreWritable(ctx, table, before, latest);
    BatchIsCovered(ctx, table, before, latest, seen);
    BatchIsGuarded(table, RowIds(seen, Gated(table, before, latest)), ChangesOf(ctx, table, before, latest), deleted);
    BatchOrder(table, RowIds(seen, Gated(table, before, latest)), ChangesOf(ctx, table, before, latest), deleted);
  }

  // ---- what a batch locks -----------------------------------------------------------------

  ghost predicate EdgeStatementsReach(rows: seq<Edge>, n: nat, e: Edge)
    requires n <= |EDGE_ORDER|
  {
    e in EdgeStatements(rows, n) <==> e in rows && EdgeRank(RelationOf(e)) < n
  }

  lemma NextEdgeStatementReaches(rows: seq<Edge>, n: nat, e: Edge)
    requires n < |EDGE_ORDER| && EdgeStatementsReach(rows, n, e)
    ensures EdgeStatementsReach(rows, n + 1, e)
  {
    EdgeStatementRows(rows, EDGE_ORDER[n], e);
    EdgeRanksDiffer(n, RelationOf(e));
  }

  lemma EdgeStatementsHave(rows: seq<Edge>, e: Edge)
    ensures e in EdgeStatements(rows, |EDGE_ORDER|) <==> e in rows
  {
    for n := 0 to |EDGE_ORDER|
      invariant EdgeStatementsReach(rows, n, e)
    {
      NextEdgeStatementReaches(rows, n, e);
    }
  }

  ghost predicate VertexStatementsReach(rows: seq<Vertex>, n: nat, v: Vertex)
    requires n <= |VERTEX_ORDER|
  {
    v in VertexStatements(rows, n) <==> v in rows && VertexRank(VertexRelationOf(v)) < n
  }

  lemma NextVertexStatementReaches(rows: seq<Vertex>, n: nat, v: Vertex)
    requires n < |VERTEX_ORDER| && VertexStatementsReach(rows, n, v)
    ensures VertexStatementsReach(rows, n + 1, v)
  {
    VertexStatementHas(rows, VERTEX_ORDER[n], v);
    VertexRanksDiffer(n, VertexRelationOf(v));
  }

  lemma VertexStatementsHave(rows: seq<Vertex>, v: Vertex)
    ensures v in VertexStatements(rows, |VERTEX_ORDER|) <==> v in rows
  {
    for n := 0 to |VERTEX_ORDER|
      invariant VertexStatementsReach(rows, n, v)
    {
      NextVertexStatementReaches(rows, n, v);
    }
  }

  lemma {:induction false} VertexDerivedByOne(changes: seq<Change>, v: Vertex)
    ensures v in AllVertices(changes) <==> exists c :: c in changes && v in c.graph.vertices
  {
    if changes != [] {
      assert changes == changes[..|changes| - 1] + [changes[|changes| - 1]];
      VertexDerivedByOne(changes[..|changes| - 1], v);
    }
  }

  /** A message whose hash is not the stored one. */
  ghost predicate IsChanged(before: map<DocId, Entity>, table: Table, m: Message) {
    DocId(table, m.id) in before ==> before[DocId(table, m.id)].hash != m.sha
  }

  lemma InChanges(ctx: Context, table: Table, documents: seq<Message>, c: Change)
    ensures c in ChangesIn(ctx, table, documents) <==> exists m :: m in documents && c == ChangeOf(ctx, table, m)
  {
    if m :| m in documents && c == ChangeOf(ctx, table, m) {
      var i :| 0 <= i < |documents| && documents[i] == m;
      assert ChangesIn(ctx, table, documents)[i] == c;
    }
  }

  lemma ChangeHas(ctx: Context, table: Table, before: map<DocId, Entity>, latest: seq<Message>, c: Change)
    ensures c in ChangesOf(ctx, table, before, latest) <==> exists m :: m in latest && IsChanged(before, table, m) && c == ChangeOf(ctx, table, m)
  {
    GatedAreChanged(table, before, latest);
    InChanges(ctx, table, Gated(table, before, latest), c);
  }

  ghost predicate LocksEntity(table: Table, latest: seq<Message>, l: Lock) {
    exists m :: m in latest && l == EntityRow(DocId(table, m.id))
  }

  /** A row some changed message of the batch derives. */
  ghost predicate ChangesVertex(ctx: Context, table: Table, before: map<DocId, Entity>, latest: seq<Message>, v: Vertex) {
    exists m :: m in latest && IsChanged(before, table, m) && v in Derivation.Derive(ctx.voc, DocId(table, m.id), m.data).vertices
  }

  ghost predicate LocksVertex(ctx: Context, table: Table, before: map<DocId, Entity>, latest: seq<Message>, l: Lock) {
    exists v :: ChangesVertex(ctx, table, before, latest, v) && l == VertexRow(VertexKey(v))
  }

  /** A row some changed message of the batch derives. */
  ghost predicate ChangesEdge(ctx: Context, table: Table, before: map<DocId, Entity>, latest: seq<Message>, e: Edge) {
    exists m :: m in latest && IsChanged(before, table, m) && e in Derivation.Derive(ctx.voc, DocId(table, m.id), m.data).edges
  }

  ghost predicate LocksEdge(ctx: Context, table: Table, before: map<DocId, Entity>, latest: seq<Message>, l: Lock) {
    exists e :: ChangesEdge(ctx, table, before, latest, e) && l == EdgeRow(EdgeKey(e))
  }

  lemma EntityLocked(ctx: Context, table: Table, before: map<DocId, Entity>, latest: seq<Message>, seen: seq<string>, deleted: seq<Edge>, l: Lock)
    requires IsBatch(ctx, table, before, latest, seen, deleted)
    ensures l in EntityLocks(table, RowIds(seen, Gated(table, before, latest))) <==> LocksEntity(table, latest, l)
  {
    var ids := RowIds(seen, Gated(table, before, latest));
    GatedAreChanged(table, before, latest);
    if l in EntityLocks(table, ids) {
      var i :| 0 <= i < |ids| && EntityLocks(table, ids)[i] == l;
      SortedIdsHas(Gated(table, before, latest), ids[i]);
      assert ids[i] in seen || ids[i] in Ids(Sorted(Gated(table, before, latest), CatalogStore.MessageLess()));
    }
    if m :| m in latest && l == EntityRow(DocId(table, m.id)) {
      SortedIdsHas(Gated(table, before, latest), m.id);
      EntityLockOf(table, ids, m.id);
    }
  }

  lemma VertexIsChanged(ctx: Context, table: Table, before: map<DocId, Entity>, latest: seq<Message>, v: Vertex)
    ensures v in VertexStatements(AllVertices(ChangesOf(ctx, table, before, latest)), |VERTEX_ORDER|)
       <==> ChangesVertex(ctx, table, before, latest, v)
  {
    var changes := ChangesOf(ctx, table, before, latest);
    VertexStatementsHave(AllVertices(changes), v);
    VertexDerivedByOne(changes, v);
    if c :| c in changes && v in c.graph.vertices {
      ChangeHas(ctx, table, before, latest, c);
    }
    if m :| m in latest && IsChanged(before, table, m) && v in Derivation.Derive(ctx.voc, DocId(table, m.id), m.data).vertices {
      ChangeHas(ctx, table, before, latest, ChangeOf(ctx, table, m));
    }
  }

  lemma VertexLocksHave(rows: seq<Vertex>, l: Lock)
    ensures l in VertexLocks(rows) <==> exists v :: v in rows && l == VertexRow(VertexKey(v))
  {
    if l in VertexLocks(rows) {
      var i :| 0 <= i < |rows| && VertexLocks(rows)[i] == l;
      assert rows[i] in rows;
    }
    if v :| v in rows && l == VertexRow(VertexKey(v)) {
      var i :| 0 <= i < |rows| && rows[i] == v;
      assert VertexLocks(rows)[i] == l;
    }
  }

  lemma EdgeIsChanged(ctx: Context, table: Table, before: map<DocId, Entity>, latest: seq<Message>, e: Edge)
    ensures e in EdgeStatements(AllEdges(ChangesOf(ctx, table, before, latest)), |EDGE_ORDER|)
       <==> ChangesEdge(ctx, table, before, latest, e)
  {
    var changes := ChangesOf(ctx, table, before, latest);
    EdgeStatementsHave(AllEdges(changes), e);
    DerivedByOne(changes, e);
    if i :| 0 <= i < |changes| && e in changes[i].graph.edges {
      ChangeHas(ctx, table, before, latest, changes[i]);
    }
    if m :| m in latest && IsChanged(before, table, m) && e in Derivation.Derive(ctx.voc, DocId(table, m.id), m.data).edges {
      ChangeHas(ctx, table, before, latest, ChangeOf(ctx, table, m));
    }
  }

  lemma EdgeLocksHave(rows: seq<Edge>, l: Lock)
    ensures l in EdgeLocks(rows) <==> exists e :: e in rows && l == EdgeRow(EdgeKey(e))
  {
    if l in EdgeLocks(rows) {
      var i :| 0 <= i < |rows| && EdgeLocks(rows)[i] == l;
      assert rows[i] in rows;
    }
    if e :| e in rows && l == EdgeRow(EdgeKey(e)) {
      var i :| 0 <= i < |rows| && rows[i] == e;
      assert EdgeLocks(rows)[i] == l;
    }
  }

  lemma ChangedRowsLocked(ctx: Context, table: Table, before: map<DocId, Entity>, latest: seq<Message>, l: Lock)
    ensures l in VertexLocks(VertexStatements(AllVertices(ChangesOf(ctx, table, before, latest)), |VERTEX_ORDER|))
       <==> LocksVertex(ctx, table, before, latest, l)
    ensures l in EdgeLocks(EdgeStatements(AllEdges(ChangesOf(ctx, table, before, latest)), |EDGE_ORDER|))
       <==> LocksEdge(ctx, table, before, latest, l)
  {
    forall v ensures v in VertexStatements(AllVertices(ChangesOf(ctx, table, before, latest)), |VERTEX_ORDER|) <==> ChangesVertex(ctx, table, before, latest, v) {
      VertexIsChanged(ctx, table, before, latest, v);
    }
    forall e ensures e in EdgeStatements(AllEdges(ChangesOf(ctx, table, before, latest)), |EDGE_ORDER|) <==> ChangesEdge(ctx, table, before, latest, e) {
      EdgeIsChanged(ctx, table, before, latest, e);
    }
    VertexLocksHave(VertexStatements(AllVertices(ChangesOf(ctx, table, before, latest)), |VERTEX_ORDER|), l);
    EdgeLocksHave(EdgeStatements(AllEdges(ChangesOf(ctx, table, before, latest)), |EDGE_ORDER|), l);
  }

  lemma InFourParts(a: seq<Lock>, b: seq<Lock>, c: seq<Lock>, d: seq<Lock>, l: Lock)
    ensures l in a + b + c + d <==> l in a || l in b || l in c || l in d
  {
  }

  /**
    A batch locks every entity row it names, changed or not, and beside the rows it deletes
    exactly the vertex and edge rows its changed documents derive.
   */
  lemma BatchLocksWhatItWrites(ctx: Context, table: Table, before: map<DocId, Entity>, latest: seq<Message>, seen: seq<string>, deleted: seq<Edge>, l: Lock)
    requires IsBatch(ctx, table, before, latest, seen, deleted)
    ensures l in ProgramOf(ctx, table, before, latest, seen, deleted)
       <==> || LocksEntity(table, latest, l) || LocksVertex(ctx, table, before, latest, l)
            || (exists e :: e in deleted && l == EdgeRow(EdgeKey(e))) || LocksEdge(ctx, table, before, latest, l)
  {
    var changes := ChangesOf(ctx, table, before, latest);
    InFourParts(EntityLocks(table, RowIds(seen, Gated(table, before, latest))), VertexLocks(VertexStatements(AllVertices(changes), |VERTEX_ORDER|)),
                EdgeLocks(deleted), EdgeLocks(EdgeStatements(AllEdges(changes), |EDGE_ORDER|)), l);
    EntityLocked(ctx, table, before, latest, seen, deleted, l);
    ChangedRowsLocked(ctx, table, before, latest, l);
    EdgeLocksHave(deleted, l);
  }

  lemma MessageLessIsStrict()
    ensures Strict(CatalogStore.MessageLess())
  {
    var less := CatalogStore.MessageLess();
    forall a, b ensures less(a, b) ==> !less(b, a) {
      TextOrder(a.id, b.id, "");
    }
    forall a, b, c | !less(b, a) && !less(c, b) ensures !less(c, a) {
      TextOrder(a.id, b.id, c.id);
      TextOrder(c.id, a.id, b.id);
      TextOrder(b.id, c.id, a.id);
    }
  }

  /** A batch whose every row passes the hash gate locks in order. */
  lemma ChangedRowsAscend(upserts: seq<Message>)
    ensures RowsAscend(RowIds([], upserts))
  {
    MessageLessIsStrict();
    SortedInOrder(upserts, CatalogStore.MessageLess());
    IdsAscend(Sorted(upserts, CatalogStore.MessageLess()));
    assert RowIds([], upserts) == Ids(Sorted(upserts, CatalogStore.MessageLess()));
  }

  lemma IdsAscend(sorted: seq<Message>)
    requires InOrder(sorted, CatalogStore.MessageLess())
    ensures RowsAscend(Ids(sorted))
  {
    forall p, q | 0 <= p < q < |sorted| ensures sorted[p].id == sorted[q].id || TextLess(sorted[p].id, sorted[q].id) {
      assert !CatalogStore.MessageLess()(sorted[q], sorted[p]);
      TextOrder(sorted[p].id, sorted[q].id, "");
    }
  }

  lemma RowIdsAreDistinct(ctx: Context, table: Table, before: map<DocId, Entity>, latest: seq<Message>, seen: seq<string>, deleted: seq<Edge>)
    requires IsBatch(ctx, table, before, latest, seen, deleted)
    ensures var ids := RowIds(seen, Gated(table, before, latest)); forall p, q :: 0 <= p < q < |ids| ==> ids[p] != ids[q]
  {
    var upserts := Gated(table, before, latest);
    var sorted := Sorted(upserts, CatalogStore.MessageLess());
    GatedIsOnePerDocument(table, before, latest);
    CatalogStore.SortedIsOnePerDocument(upserts);
    forall id | id in Ids(sorted) ensures id !in seen {
      SortedIdsHas(upserts, id);
      GatedIsNotSeen(ctx, table, before, latest, seen, deleted, id);
    }
    var ids := RowIds(seen, upserts);
    forall p, q | 0 <= p < q < |ids| ensures ids[p] != ids[q] {
      if q < |seen| {
        assert ids[p] == seen[p] && ids[q] == seen[q];
      } else if p >= |seen| {
        assert ids[p] == sorted[p - |seen|].id && ids[q] == sorted[q - |seen|].id;
      } else {
        assert ids[q] == Ids(sorted)[q - |seen|] && ids[q] in Ids(sorted) && ids[p] == seen[p];
      }
    }
  }

  lemma GatedIsNotSeen(ctx: Context, table: Table, before: map<DocId, Entity>, latest: seq<Message>, seen: seq<string>, deleted: seq<Edge>, id: string)
    requires IsBatch(ctx, table, before, latest, seen, deleted)
    requires exists m :: m in Gated(table, before, latest) && m.id == id
    ensures id !in seen
  {
    var m :| m in Gated(table, before, latest) && m.id == id;
    GatedAreChanged(table, before, latest);
    forall k | k in latest && k.id == id ensures k == m {
      SameIdSameMessage(latest, k, m);
    }
  }

  lemma SameIdSameMessage(latest: seq<Message>, a: Message, b: Message)
    requires OnePerDocument(latest) && a in latest && b in latest && a.id == b.id
    ensures a == b
  {
  }

  ghost predicate SafeBesideAny(program: seq<Lock>) {
    forall others: seq<seq<Lock>> ::
      (forall i :: 0 <= i < |others| ==> Ordered(others[i]) && Guarded(others[i])) ==> NeverStuck([program] + others)
  }

  /**
    Whatever else runs, as long as the others keep the order: a batch can always be finished
    exactly when the entity rows it touches come in ascending id. Its upserts are sorted, so that
    rests on the unsorted updates of its unchanged rows.
   */
  lemma BatchIsSafeExactlyWhenItsRowsAscend(ctx: Context, table: Table, before: map<DocId, Entity>, latest: seq<Message>,
                                            seen: seq<string>, deleted: seq<Edge>)
    requires IsBatch(ctx, table, before, latest, seen, deleted)
    ensures SafeBesideAny(ProgramOf(ctx, table, before, latest, seen, deleted))
       <==> RowsAscend(RowIds(seen, Gated(table, before, latest)))
    ensures seen == [] ==> SafeBesideAny(ProgramOf(ctx, table, before, latest, seen, deleted))
  {
    var ids := RowIds(seen, Gated(table, before, latest));
    var program := ProgramOf(ctx, table, before, latest, seen, deleted);
    BatchDiscipline(ctx, table, before, latest, seen, deleted);
    ChangedRowsAscend(Gated(table, before, latest));
    if RowsAscend(ids) {
      OrderedIsSafe(program);
    } else {
      var rival := AnUnsortedBatchCanDeadlockWithABatch(ctx, table, before, latest, seen, deleted);
      BatchDiscipline(ctx, table, before, rival, [], []);
      ChangedRowsAscend(Gated(table, before, rival));
      UnsafeBeside(program, ProgramOf(ctx, table, before, rival, [], []));
    }
  }

  lemma OrderedIsSafe(program: seq<Lock>)
    requires Ordered(program) && Guarded(program)
    ensures SafeBesideAny(program)
  {
    forall others: seq<seq<Lock>> | forall i :: 0 <= i < |others| ==> Ordered(others[i]) && Guarded(others[i])
      ensures NeverStuck([program] + others)
    {
      var all := [program] + others;
      assert forall i :: 0 < i < |all| ==> all[i] == others[i - 1];
      DisciplinedWritersFinish(all);
    }
  }

  // ---- the batch it can deadlock with -----------------------------------------------------

  /** Some content the hash gate lets through. */
  function ChangedMessage(before: map<DocId, Entity>, table: Table, id: string): (m: Message)
    ensures m.id == id && !Unchanged(Lookup(before, DocId(table, id)), m)
  {
    Message(id, map[], if DocId(table, id) in before then before[DocId(table, id)].hash + "!" else "")
  }

  lemma TwoSorted(a: Message, b: Message)
    requires TextLess(a.id, b.id)
    ensures Sorted([a, b], CatalogStore.MessageLess()) == [a, b]
  {
    var less := CatalogStore.MessageLess();
    TextOrder(a.id, b.id, "");
    assert [a, b][..1] == [a] && [a][..0] == [];
    assert Sorted([], less) == [] && Sorted([a], less) == Placed([], a, less) == [a];
    assert Sorted([a, b], less) == Placed([a], b, less) == [a] + [b];
  }

  lemma TwoGated(table: Table, before: map<DocId, Entity>, a: string, b: string)
    ensures var rival := [ChangedMessage(before, table, a), ChangedMessage(before, table, b)];
            Gated(table, before, rival) == rival
  {
    var x, y := ChangedMessage(before, table, a), ChangedMessage(before, table, b);
    assert [x, y][..1] == [x] && [x][..0] == [];
    assert Gated(table, before, [x]) == Gated(table, before, []) + [x];
    assert Gated(table, before, [x, y]) == Gated(table, before, [x]) + [y];
  }

  lemma ChangedAreABatch(ctx: Context, table: Table, before: map<DocId, Entity>, rival: seq<Message>)
    requires OnePerDocument(rival) && forall m :: m in rival ==> !Unchanged(Lookup(before, DocId(table, m.id)), m)
    ensures IsBatch(ctx, table, before, rival, [], [])
  {
  }

  lemma RivalRows(table: Table, before: map<DocId, Entity>, a: string, b: string)
    requires TextLess(a, b)
    ensures var rival := [ChangedMessage(before, table, a), ChangedMessage(before, table, b)];
            OnePerDocument(rival) && RowIds([], Gated(table, before, rival)) == [a, b]
  {
    TextOrder(a, b, "");
    TwoGated(table, before, a, b);
    TwoSorted(ChangedMessage(before, table, a), ChangedMessage(before, table, b));
  }

  lemma FirstTwoLocks(table: Table, a: string, b: string, changes: seq<Change>)
    requires a != b
    ensures var program := BatchProgram(table, [a, b], changes, []);
            |program| >= 2 && program[0] == EntityRow(DocId(table, a)) && program[1] == EntityRow(DocId(table, b))
  {
    EntityLockAt(table, [a, b], changes, [], 1);
  }

  /** Two changed rows, taken first and in ascending id. */
  lemma RivalBatch(ctx: Context, table: Table, before: map<DocId, Entity>, a: string, b: string) returns (rival: seq<Message>)
    requires TextLess(a, b)
    ensures IsBatch(ctx, table, before, rival, [], [])
    ensures var program := ProgramOf(ctx, table, before, rival, [], []);
            |program| >= 2 && program[0] == EntityRow(DocId(table, a)) && program[1] == EntityRow(DocId(table, b))
  {
    rival := [ChangedMessage(before, table, a), ChangedMessage(before, table, b)];
    RivalRows(table, before, a, b);
    ChangedAreABatch(ctx, table, before, rival);
    TextOrder(a, b, "");
    FirstTwoLocks(table, a, b, ChangesOf(ctx, table, before, rival));
  }

  lemma OutOfOrderPair(ids: seq<string>) returns (p: nat, q: nat)
    requires !RowsAscend(ids) && forall i, j :: 0 <= i < j < |ids| ==> ids[i] != ids[j]
    ensures p < q < |ids| && TextLess(ids[q], ids[p])
  {
    p, q :| 0 <= p < q < |ids| && ids[p] != ids[q] && !TextLess(ids[p], ids[q]);
    TextOrder(ids[p], ids[q], "");
  }

  lemma EntityLockAt(table: Table, ids: seq<string>, changes: seq<Change>, deleted: seq<Edge>, q: nat)
    requires q < |ids| && forall i, j :: 0 <= i < j < |ids| ==> ids[i] != ids[j]
    ensures var program := BatchProgram(table, ids, changes, deleted);
            && q < |program| && program[q] == EntityRow(DocId(table, ids[q])) && program[q] !in program[..q]
            && forall p :: 0 <= p < q ==> program[p] == EntityRow(DocId(table, ids[p]))
  {
    var program := BatchProgram(table, ids, changes, deleted);
    forall k | 0 <= k <= q ensures program[k] == EntityRow(DocId(table, ids[k])) {
    }
    forall k | 0 <= k < q ensures program[..q][k] != program[q] {
      assert program[k] == EntityRow(DocId(table, ids[k]));
    }
  }

  /** A batch whose rows do not ascend can deadlock with another batch, one whose every row passes the hash gate. */
  lemma AnUnsortedBatchCanDeadlockWithABatch(ctx: Context, table: Table, before: map<DocId, Entity>, latest: seq<Message>,
                                             seen: seq<string>, deleted: seq<Edge>) returns (rival: seq<Message>)
    requires IsBatch(ctx, table, before, latest, seen, deleted) && !RowsAscend(RowIds(seen, Gated(table, before, latest)))
    ensures IsBatch(ctx, table, before, rival, [], [])
    ensures !NeverStuck([ProgramOf(ctx, table, before, latest, seen, deleted), ProgramOf(ctx, table, before, rival, [], [])])
  {
    var ids := RowIds(seen, Gated(table, before, latest));
    RowIdsAreDistinct(ctx, table, before, latest, seen, deleted);
    var p, q := OutOfOrderPair(ids);
    rival := RivalBatch(ctx, table, before, ids[q], ids[p]);
    EntityLockAt(table, ids, ChangesOf(ctx, table, before, latest), deleted, q);
    OutOfOrderRowsCanDeadlock(ProgramOf(ctx, table, before, latest, seen, deleted), p, q, ProgramOf(ctx, table, before, rival, [], []));
  }

  lemma UnsafeBeside(program: seq<Lock>, partner: seq<Lock>)
    requires Ordered(partner) && Guarded(partner) && !NeverStuck([program, partner])
    ensures !SafeBesideAny(program)
  {
    assert [program] + [partner] == [program, partner];
  }
}
