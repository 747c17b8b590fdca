/**
  Writing the graph rows of changed documents: vertices first, then the document-scoped deletes,
  then the edges. Writing a batch at once is writing its documents one after another.
 */
module GraphWrites {
  import opened Wrappers
  import opened Rows
  import opened KeyedTables
  import opened RowOrder

  datatype Graph = Graph(vertices: map<Vertex, Vertex>, edges: map<Edge, Edge>)

  predicate HasRow(g: Graph, e: Edge) {
    EdgeKey(e) in g.edges && g.edges[EdgeKey(e)] == e
  }

  /** Every row sits under its own key. */
  ghost predicate Keyed(g: Graph) {
    && (forall k :: k in g.edges ==> EdgeKey(g.edges[k]) == k)
    && (forall k :: k in g.vertices ==> VertexKey(g.vertices[k]) == k)
  }

  /** One changed document with what it derives. */
  datatype Change = Change(doc: DocId, graph: DocumentGraph)

  function AllVertices(changes: seq<Change>): seq<Vertex> {
    if changes == [] then [] else AllVertices(changes[..|changes| - 1]) + changes[|changes| - 1].graph.vertices
  }

  function AllEdges(changes: seq<Change>): seq<Edge> {
    if changes == [] then [] else AllEdges(changes[..|changes| - 1]) + changes[|changes| - 1].graph.edges
  }

  predicate Replaces(change: Change, e: Edge) {
    Owner(e) == Some(change.doc) && RelationOf(e) in change.graph.replaced && !Foreign(e)
  }

  predicate SomeReplaces(changes: seq<Change>, e: Edge) {
    exists i :: 0 <= i < |changes| && Replaces(changes[i], e)
  }

  function Swept(edges: map<Edge, Edge>, changes: seq<Change>): map<Edge, Edge> {
    map k | k in edges && !SomeReplaces(changes, k) :: edges[k]
  }

  function WriteChanges(g: Graph, changes: seq<Change>): Graph {
    Graph(InsertAll(g.vertices, AllVertices(changes), VertexKey),
          InsertAll(Swept(g.edges, changes), AllEdges(changes), EdgeKey))
  }

  /** Different documents, each owning the rows it derives. */
  ghost predicate Writable(changes: seq<Change>) {
    && (forall i :: 0 <= i < |changes| ==> OwnsItsRows(changes[i].doc, changes[i].graph))
    && (forall i, j :: 0 <= i < j < |changes| ==> changes[i].doc != changes[j].doc)
  }

  lemma KeysKeepOwners(e: Edge)
    ensures Owner(EdgeKey(e)) == Owner(e) && RelationOf(EdgeKey(e)) == RelationOf(e) && Foreign(EdgeKey(e)) == Foreign(e)
    ensures EdgeKey(EdgeKey(e)) == EdgeKey(e)
  {
  }

  lemma {:induction false} DerivedByOne(changes: seq<Change>, e: Edge)
    ensures e in AllEdges(changes) <==> exists i :: 0 <= i < |changes| && e in changes[i].graph.edges
  {
    if changes != [] {
      var init, last := changes[..|changes| - 1], changes[|changes| - 1];
      DerivedByOne(init, e);
      if e in AllEdges(init) {
        var i :| 0 <= i < |init| && e in init[i].graph.edges;
        assert e in changes[i].graph.edges;
      }
      if i :| 0 <= i < |changes| && e in changes[i].graph.edges {
        if i < |init| {
          assert e in init[i].graph.edges;
        }
      }
    }
  }

  /** A batch of different documents asserts no two rows of one key. */
  lemma BatchHasOneRowPerKey(changes: seq<Change>)
    requires Writable(changes)
    ensures OneRowPerKey(AllEdges(changes))
  {
    forall a, b | a in AllEdges(changes) && b in AllEdges(changes) && EdgeKey(a) == EdgeKey(b) ensures a == b {
      DerivedByOne(changes, a);
      DerivedByOne(changes, b);
      KeysKeepOwners(a);
      KeysKeepOwners(b);
      var i :| 0 <= i < |changes| && a in changes[i].graph.edges;
      var j :| 0 <= j < |changes| && b in changes[j].graph.edges;
      assert OwnsItsRows(changes[i].doc, changes[i].graph) && OwnsItsRows(changes[j].doc, changes[j].graph);
      if Owner(a).Some? {
        assert i == j;
      }
    }
  }

  /** No later document of a batch deletes what an earlier one inserted. */
  lemma DerivedIsNotReplaced(changes: seq<Change>, last: Change, k: Edge)
    requires Writable(changes + [last]) && FirstWith(AllEdges(changes), EdgeKey, k).Some?
    ensures !Replaces(last, k)
  {
    FirstWithIsARow(AllEdges(changes), EdgeKey, k);
    var e := FirstWith(AllEdges(changes), EdgeKey, k).value;
    DerivedByOne(changes, e);
    KeysKeepOwners(e);
    var i :| 0 <= i < |changes| && e in changes[i].graph.edges;
    assert (changes + [last])[i] == changes[i];
    assert OwnsItsRows(changes[i].doc, changes[i].graph);
    assert (changes + [last])[i].doc != (changes + [last])[|changes|].doc;
  }

  lemma SomeReplacesAppend(changes: seq<Change>, last: Change, e: Edge)
    ensures SomeReplaces(changes + [last], e) <==> SomeReplaces(changes, e) || Replaces(last, e)
  {
    var all := changes + [last];
    if SomeReplaces(changes, e) {
      var i :| 0 <= i < |changes| && Replaces(changes[i], e);
      assert all[i] == changes[i];
    }
    if Replaces(last, e) {
      assert all[|changes|] == last;
    }
    if SomeReplaces(all, e) {
      var i :| 0 <= i < |all| && Replaces(all[i], e);
      assert i < |changes| ==> all[i] == changes[i];
    }
  }

  lemma OneChange(change: Change, e: Edge)
    ensures AllVertices([change]) == change.graph.vertices && AllEdges([change]) == change.graph.edges
    ensures SomeReplaces([change], e) <==> Replaces(change, e)
  {
    assert [change][..0] == [];
    assert [change][0] == change;
  }

  lemma EdgesAfterOneMore(edges: map<Edge, Edge>, changes: seq<Change>, last: Change, k: Edge)
    requires Writable(changes + [last])
    ensures var all := changes + [last];
            var stepwise := InsertAll(Swept(InsertAll(Swept(edges, changes), AllEdges(changes), EdgeKey), [last]), AllEdges([last]), EdgeKey);
            var atOnce := InsertAll(Swept(edges, all), AllEdges(all), EdgeKey);
            (k in stepwise <==> k in atOnce) && (k in atOnce ==> stepwise[k] == atOnce[k])
  {
    var all := changes + [last];
    assert all[..|all| - 1] == changes;
    OneChange(last, k);
    SomeReplacesAppend(changes, last, k);
    var middle := InsertAll(Swept(edges, changes), AllEdges(changes), EdgeKey);
    InsertAllAt(Swept(edges, changes), AllEdges(changes), EdgeKey, k);
    InsertAllAt(Swept(middle, [last]), AllEdges([last]), EdgeKey, k);
    InsertAllAt(Swept(edges, all), AllEdges(all), EdgeKey, k);
    FirstWithConcat(AllEdges(changes), last.graph.edges, EdgeKey, k);
    if FirstWith(AllEdges(changes), EdgeKey, k).Some? {
      DerivedIsNotReplaced(changes, last, k);
    }
  }

  /**
    Writing one document after a batch is writing the batch with that document: the batch's
    deletes all come first, yet nothing is lost, and the first spelling of a vertex is the same.
   */
  lemma BatchIsOneByOne(g: Graph, changes: seq<Change>, last: Change)
    requires Writable(changes + [last])
    ensures WriteChanges(g, changes + [last]) == WriteChanges(WriteChanges(g, changes), [last])
  {
    var all := changes + [last];
    assert all[..|all| - 1] == changes;
    InsertAllConcat(g.vertices, AllVertices(changes), last.graph.vertices, VertexKey);
    OneChange(last, MemberOf("", ""));
    var stepwise, atOnce := WriteChanges(WriteChanges(g, changes), [last]).edges, WriteChanges(g, all).edges;
    forall k ensures (k in stepwise <==> k in atOnce) && (k in atOnce ==> stepwise[k] == atOnce[k]) {
      EdgesAfterOneMore(g.edges, changes, last, k);
    }
    assert stepwise == atOnce;
  }

  /** The table after a write, key by key. */
  lemma EdgeAfterWrite(g: Graph, changes: seq<Change>, k: Edge)
    requires Writable(changes)
    ensures var after := WriteChanges(g, changes).edges;
            var derived := FirstWith(AllEdges(changes), EdgeKey, k);
            && (k in after <==> (k in g.edges && !SomeReplaces(changes, k)) || derived.Some?)
            && (k in after ==> after[k] == if k in g.edges && !SomeReplaces(changes, k) then g.edges[k] else derived.value)
  {
    InsertAllAt(Swept(g.edges, changes), AllEdges(changes), EdgeKey, k);
  }

  // ---- the order the loader writes in -----------------------------------------------------

  function InVertexRelation(relation: VertexRelation): Vertex -> bool {
    (v: Vertex) => VertexRelationOf(v) == relation
  }

  function InEdgeRelation(relation: EdgeRelation): Edge -> bool {
    (e: Edge) => RelationOf(e) == relation
  }

  /** One vertex statement: the relation's distinct rows, stably sorted by key. */
  function VertexStatement(rows: seq<Vertex>, relation: VertexRelation): seq<Vertex> {
    Sorted(Distinct(Select(rows, InVertexRelation(relation))), VertexLess)
  }

  /** One edge statement: the relation's distinct rows, sorted. */
  function EdgeStatement(rows: seq<Edge>, relation: EdgeRelation): seq<Edge> {
    Sorted(Distinct(Select(rows, InEdgeRelation(relation))), EdgeLess)
  }

  function VertexStatements(rows: seq<Vertex>, n: nat): seq<Vertex>
    requires n <= |VERTEX_ORDER|
  {
    if n == 0 then [] else VertexStatements(rows, n - 1) + VertexStatement(rows, VERTEX_ORDER[n - 1])
  }

  function EdgeStatements(rows: seq<Edge>, n: nat): seq<Edge>
    requires n <= |EDGE_ORDER|
  {
    if n == 0 then [] else EdgeStatements(rows, n - 1) + EdgeStatement(rows, EDGE_ORDER[n - 1])
  }

  lemma SameKeySameColumn(a: Vertex, b: Vertex)
    requires VertexKey(a) == VertexKey(b)
    ensures KeyColumn(a) == KeyColumn(b)
  {
    assert KeyColumn(VertexKey(a)) == KeyColumn(a) && KeyColumn(VertexKey(b)) == KeyColumn(b);
  }

  lemma VertexKeyDecides(rows: seq<Vertex>)
    ensures KeyDecides(rows, VertexKey, VertexLess)
  {
    forall a, b | a in rows && b in rows && VertexKey(a) == VertexKey(b) ensures !VertexLess(a, b) {
      SameKeySameColumn(a, b);
      TextOrder(KeyColumn(a), [], []);
    }
  }

  lemma KeyKeepsVertexRelation(v: Vertex)
    ensures VertexRelationOf(VertexKey(v)) == VertexRelationOf(v)
  {
  }

  lemma VertexStatementKeepsFirst(rows: seq<Vertex>, relation: VertexRelation, k: Vertex)
    ensures FirstWith(VertexStatement(rows, relation), VertexKey, k)
         == if VertexRelationOf(k) == relation then FirstWith(rows, VertexKey, k) else None
  {
    var selected := Select(rows, InVertexRelation(relation));
    forall r | r in rows && VertexKey(r) == k ensures InVertexRelation(relation)(r) <==> InVertexRelation(relation)(k) {
      KeyKeepsVertexRelation(r);
    }
    FirstWithSelect(rows, InVertexRelation(relation), VertexKey, k);
    FirstWithDistinct(selected, VertexKey, k);
    VertexKeyDecides(Distinct(selected));
    FirstWithSorted(Distinct(selected), VertexKey, VertexLess, k);
  }

  lemma EdgeStatementKeepsFirst(rows: seq<Edge>, relation: EdgeRelation, k: Edge)
    requires OneRowPerKey(rows)
    ensures FirstWith(EdgeStatement(rows, relation), EdgeKey, k)
         == if RelationOf(k) == relation then FirstWith(rows, EdgeKey, k) else None
  {
    var selected := Select(rows, InEdgeRelation(relation));
    SelectMembers(rows, InEdgeRelation(relation));
    FirstWithSelect(rows, InEdgeRelation(relation), EdgeKey, k);
    FirstWithDistinct(selected, EdgeKey, k);
    forall a, b | a in Distinct(selected) && b in Distinct(selected) && EdgeKey(a) == EdgeKey(b) ensures !EdgeLess(a, b) {
      assert a == b;
      RowOrderIsTotal(Columns(a), [], []);
    }
    FirstWithSorted(Distinct(selected), EdgeKey, EdgeLess, k);
  }

  function VertexRank(relation: VertexRelation): (n: nat)
    ensures n < |VERTEX_ORDER| && VERTEX_ORDER[n] == relation
  {
    match relation
    case GENRE => 0 case STYLE => 1 case PERSON => 2 case MEDIA_FAMILY => 3 case MEDIUM => 4 case COMPANY => 5
  }

  function EdgeRank(relation: EdgeRelation): (n: nat)
    ensures n < |EDGE_ORDER| && EDGE_ORDER[n] == relation
  {
    match relation
    case BY_ARTIST => 0 case ON_LABEL => 1 case DERIVED_FROM => 2 case IN_GENRE => 3 case IN_STYLE => 4
    case MASTER_BY_ARTIST => 5 case MASTER_IN_GENRE => 6 case MASTER_IN_STYLE => 7
    case MEMBER_OF => 8 case ALIAS_OF => 9 case CREDITED_ON => 10 case SAME_AS => 11
    case CREDITED_TO => 12 case ISSUED_ON => 13 case TRACK_CREDITED_ON => 14 case TRACK_BY_ARTIST => 15
  }

  /** One relation's statement after those before it. */
  lemma VertexStatementAfter(before: seq<Vertex>, rows: seq<Vertex>, relation: VertexRelation, k: Vertex, earlier: bool)
    requires FirstWith(before, VertexKey, k) == if earlier then FirstWith(rows, VertexKey, k) else None
    requires earlier ==> VertexRelationOf(k) != relation
    ensures FirstWith(before + VertexStatement(rows, relation), VertexKey, k)
         == if earlier || VertexRelationOf(k) == relation then FirstWith(rows, VertexKey, k) else None
  {
    FirstWithConcat(before, VertexStatement(rows, relation), VertexKey, k);
    VertexStatementKeepsFirst(rows, relation, k);
  }

  /** The first n statements keep the first row of a key, if its relation is among theirs. */
  ghost predicate VertexStatementsKeep(rows: seq<Vertex>, n: nat, k: Vertex)
    requires n <= |VERTEX_ORDER|
  {
    FirstWith(VertexStatements(rows, n), VertexKey, k) == if VertexRank(VertexRelationOf(k)) < n then FirstWith(rows, VertexKey, k) else None
  }

  lemma NoVertexStatementsKeep(rows: seq<Vertex>, k: Vertex)
    ensures VertexStatementsKeep(rows, 0, k)
  {
    assert VertexStatements(rows, 0) == [];
  }

  lemma NextVertexStatementsKeep(rows: seq<Vertex>, n: nat, k: Vertex)
    requires n < |VERTEX_ORDER| && VertexStatementsKeep(rows, n, k)
    ensures VertexStatementsKeep(rows, n + 1, k)
  {
    VertexRanksDiffer(n, VertexRelationOf(k));
    VertexStatementAfter(VertexStatements(rows, n), rows, VERTEX_ORDER[n], k, VertexRank(VertexRelationOf(k)) < n);
  }

  lemma VertexStatementsKeepFirst(rows: seq<Vertex>, k: Vertex)
    ensures FirstWith(VertexStatements(rows, |VERTEX_ORDER|), VertexKey, k) == FirstWith(rows, VertexKey, k)
  {
    NoVertexStatementsKeep(rows, k);
    for n := 0 to |VERTEX_ORDER|
      invariant VertexStatementsKeep(rows, n, k)
    {
      NextVertexStatementsKeep(rows, n, k);
    }
  }

  lemma VertexRanksDiffer(n: nat, relation: VertexRelation)
    requires n < |VERTEX_ORDER|
    ensures VERTEX_ORDER[n] == relation <==> n == VertexRank(relation)
  {
  }

  lemma EdgeRanksDiffer(n: nat, relation: EdgeRelation)
    requires n < |EDGE_ORDER|
    ensures EDGE_ORDER[n] == relation <==> n == EdgeRank(relation)
  {
  }

  /** One relation's statement after those before it. */
  lemma EdgeStatementAfter(before: seq<Edge>, rows: seq<Edge>, relation: EdgeRelation, k: Edge, earlier: bool)
    requires FirstWith(before, EdgeKey, k) == if earlier then FirstWith(rows, EdgeKey, k) else None
    requires earlier ==> RelationOf(k) != relation
    requires OneRowPerKey(rows)
    ensures FirstWith(before + EdgeStatement(rows, relation), EdgeKey, k)
         == if earlier || RelationOf(k) == relation then FirstWith(rows, EdgeKey, k) else None
  {
    FirstWithConcat(before, EdgeStatement(rows, relation), EdgeKey, k);
    EdgeStatementKeepsFirst(rows, relation, k);
  }

  /** The first n statements keep the first row of a key, if its relation is among theirs. */
  ghost predicate EdgeStatementsKeep(rows: seq<Edge>, n: nat, k: Edge)
    requires n <= |EDGE_ORDER|
  {
    FirstWith(EdgeStatements(rows, n), EdgeKey, k) == if EdgeRank(RelationOf(k)) < n then FirstWith(rows, EdgeKey, k) else None
  }

  lemma NoEdgeStatementsKeep(rows: seq<Edge>, k: Edge)
    ensures EdgeStatementsKeep(rows, 0, k)
  {
    assert EdgeStatements(rows, 0) == [];
  }

  lemma NextEdgeStatementsKeep(rows: seq<Edge>, n: nat, k: Edge)
    requires n < |EDGE_ORDER| && OneRowPerKey(rows) && EdgeStatementsKeep(rows, n, k)
    ensures EdgeStatementsKeep(rows, n + 1, k)
  {
    EdgeRanksDiffer(n, RelationOf(k));
    EdgeStatementAfter(EdgeStatements(rows, n), rows, EDGE_ORDER[n], k, EdgeRank(RelationOf(k)) < n);
  }

  lemma EdgeStatementsKeepFirst(rows: seq<Edge>, k: Edge)
    requires OneRowPerKey(rows)
    ensures FirstWith(EdgeStatements(rows, |EDGE_ORDER|), EdgeKey, k) == FirstWith(rows, EdgeKey, k)
  {
    NoEdgeStatementsKeep(rows, k);
    for n := 0 to |EDGE_ORDER|
      invariant EdgeStatementsKeep(rows, n, k)
    {
      NextEdgeStatementsKeep(rows, n, k);
    }
  }

  lemma StatementOrderChangesNothing(vertices: map<Vertex, Vertex>, edges: map<Edge, Edge>, vs: seq<Vertex>, es: seq<Edge>)
    requires OneRowPerKey(es)
    ensures InsertAll(vertices, VertexStatements(vs, |VERTEX_ORDER|), VertexKey) == InsertAll(vertices, vs, VertexKey)
    ensures InsertAll(edges, EdgeStatements(es, |EDGE_ORDER|), EdgeKey) == InsertAll(edges, es, EdgeKey)
  {
    forall k ensures FirstWith(VertexStatements(vs, |VERTEX_ORDER|), VertexKey, k) == FirstWith(vs, VertexKey, k) {
      VertexStatementsKeepFirst(vs, k);
    }
    SameFirstsSameTable(vertices, VertexStatements(vs, |VERTEX_ORDER|), vs, VertexKey);
    forall k ensures FirstWith(EdgeStatements(es, |EDGE_ORDER|), EdgeKey, k) == FirstWith(es, EdgeKey, k) {
      EdgeStatementsKeepFirst(es, k);
    }
    SameFirstsSameTable(edges, EdgeStatements(es, |EDGE_ORDER|), es, EdgeKey);
  }
}
