/**
  The refresh pass over the two relations no document owns: the full asserted set is read from
  the stored documents page by page, what is missing is inserted, what nothing asserts deleted.
 */
module Reconcile {
  import opened Wrappers
  import opened Versions
  import opened Rows
  import opened RowOrder
  import opened Derivation
  import opened DerivationFacts
  import opened GraphWrites
  import opened Catalog
  import CatalogStore

  const DOCUMENT_PAGE_SIZE: nat := 2000

  predicate Additive(relation: EdgeRelation) {
    relation == MEMBER_OF || relation == SAME_AS
  }

  function SourceTable(relation: EdgeRelation): Table {
    if relation == MEMBER_OF then ARTISTS else RELEASES
  }

  predicate NonEmptyArray(value: Json) {
    value.JArray? && |value.items| > 0
  }

  /** The predicate selecting the documents that could assert a row. */
  predicate Qualifies(relation: EdgeRelation, data: Document) {
    if relation == MEMBER_OF then NonEmptyArray(Field(data, "members")) || NonEmptyArray(Field(data, "groups"))
    else NonEmptyArray(Field(data, "extraartists"))
  }

  function RowsIn(voc: Vocabulary, relation: EdgeRelation, doc: DocId, data: Document): set<Edge> {
    set e | e in Derive(voc, doc, data).edges && RelationOf(e) == relation
  }

  /** The documents the pages reach: keys above the empty string that pass the predicate. */
  function Reached(entities: map<DocId, Entity>, relation: EdgeRelation): set<string> {
    set d | d in entities && d.table == SourceTable(relation) && Qualifies(relation, entities[d].data) && d.id != "" :: d.id
  }

  /** What one stored document asserts for a relation. */
  function Reading(voc: Vocabulary, entities: map<DocId, Entity>, relation: EdgeRelation): string -> set<Edge> {
    (id: string) =>
      var doc := DocId(SourceTable(relation), id);
      if doc in entities then RowsIn(voc, relation, doc, entities[doc].data) else {}
  }

  function ReadAll(read: string -> set<Edge>, ids: set<string>): set<Edge> {
    set id, e | id in ids && e in read(id) :: e
  }

  function Asserted(voc: Vocabulary, entities: map<DocId, Entity>, relation: EdgeRelation): set<Edge> {
    ReadAll(Reading(voc, entities, relation), Reached(entities, relation))
  }

  function RelationRows(edges: map<Edge, Edge>, relation: EdgeRelation): set<Edge> {
    set k | k in edges && RelationOf(k) == relation
  }

  predicate Stored(entities: map<DocId, Entity>, table: Table) {
    exists d :: d in entities && d.table == table
  }

  function WithRows(edges: map<Edge, Edge>, relation: EdgeRelation, asserted: set<Edge>): map<Edge, Edge> {
    (map k | k in edges && (RelationOf(k) != relation || k in asserted) :: edges[k]) + (map e | e in asserted && e !in edges :: e)
  }

  /** One relation; an empty source table is a failed load and is skipped. */
  function Reconciled(voc: Vocabulary, db: Database, relation: EdgeRelation): Database {
    if !Stored(db.entities, SourceTable(relation)) then db
    else Database(db.entities, Graph(db.graph.vertices, WithRows(db.graph.edges, relation, Asserted(voc, db.entities, relation))))
  }

  function ReconcileAll(voc: Vocabulary, db: Database): Database {
    Reconciled(voc, Reconciled(voc, db, MEMBER_OF), SAME_AS)
  }

  // ---- keyset paging ----------------------------------------------------------------------

  predicate IsLeast(ids: set<string>, least: string) {
    least in ids && forall id :: id in ids ==> id == least || TextLess(least, id)
  }

  lemma {:induction false} LeastExists(ids: set<string>, seen: set<string>, bound: string)
    requires bound in ids && seen <= ids && bound in seen
    requires forall id :: id in seen ==> id == bound || TextLess(bound, id)
    ensures exists least :: IsLeast(ids, least)
    decreases |ids - seen|
  {
    if forall id :: id in ids ==> id in seen {
      assert IsLeast(ids, bound);
    } else {
      var other :| other in ids && other !in seen;
      assert ids - (seen + {other}) == (ids - seen) - {other};
      TextOrder(bound, other, "");
      if TextLess(bound, other) {
        LeastExists(ids, seen + {other}, bound);
      } else {
        forall id | id in seen ensures TextLess(other, id) {
          TextOrder(other, bound, id);
        }
        LeastExists(ids, seen + {other}, other);
      }
    }
  }

  lemma LeastIsUnique(ids: set<string>, a: string, b: string)
    requires IsLeast(ids, a) && IsLeast(ids, b)
    ensures a == b
  {
    TextOrder(a, b, a);
  }

  function Least(ids: set<string>): (least: string)
    requires ids != {}
    ensures IsLeast(ids, least)
  {
    assert exists least :: IsLeast(ids, least) by {
      var bound :| bound in ids;
      LeastExists(ids, {bound}, bound);
    }
    assert forall a, b :: IsLeast(ids, a) && IsLeast(ids, b) ==> a == b by {
      forall a, b | IsLeast(ids, a) && IsLeast(ids, b) ensures a == b {
        LeastIsUnique(ids, a, b);
      }
    }
    var least :| least in ids && IsLeast(ids, least);
    least
  }

  function Ascending(ids: set<string>): seq<string>
    decreases |ids|
  {
    if ids == {} then [] else [Least(ids)] + Ascending(ids - {Least(ids)})
  }

  ghost predicate Increasing(ids: seq<string>) {
    forall i, j :: 0 <= i < j < |ids| ==> TextLess(ids[i], ids[j])
  }

  lemma {:induction false} AscendingIsSorted(ids: set<string>)
    ensures forall id :: id in Ascending(ids) <==> id in ids
    ensures Increasing(Ascending(ids))
    decreases |ids|
  {
    if ids != {} {
      var least := Least(ids);
      var rest := ids - {least};
      AscendingIsSorted(rest);
      assert forall id :: id in Ascending(ids) <==> id == least || id in Ascending(rest);
      forall i, j | 0 <= i < j < |Ascending(ids)| ensures TextLess(Ascending(ids)[i], Ascending(ids)[j]) {
        assert Ascending(ids)[j] == Ascending(rest)[j - 1];
        assert Ascending(rest)[j - 1] in Ascending(rest);
        if i > 0 {
          assert Ascending(ids)[i] == Ascending(rest)[i - 1];
        }
      }
    }
  }

  /** An increasing list is decided by its elements. */
  lemma {:induction false} IncreasingIsUnique(a: seq<string>, b: seq<string>)
    requires Increasing(a) && Increasing(b) && forall id :: id in a <==> id in b
    ensures a == b
  {
    if a == [] {
      assert forall i :: 0 <= i < |b| ==> b[i] in b;
    } else {
      assert a[0] in b && b != [];
      assert b[0] in a;
      SameHead(a, b);
      forall id ensures id in a[1..] <==> id in b[1..] {
        TailMembers(a, id);
        TailMembers(b, id);
      }
      IncreasingIsUnique(a[1..], b[1..]);
      assert a == [a[0]] + a[1..] && b == [b[0]] + b[1..];
    }
  }

  lemma SameHead(a: seq<string>, b: seq<string>)
    requires a != [] && b != [] && Increasing(a) && Increasing(b) && a[0] in b && b[0] in a
    ensures a[0] == b[0]
  {
    var i :| 0 <= i < |a| && a[i] == b[0];
    var j :| 0 <= j < |b| && b[j] == a[0];
    TextOrder(a[0], b[0], "");
  }

  lemma TailMembers(a: seq<string>, id: string)
    requires a != [] && Increasing(a)
    ensures id in a[1..] <==> id in a && id != a[0]
  {
    TextOrder(a[0], "", "");
    if id in a[1..] {
      var i :| 0 <= i < |a[1..]| && a[1..][i] == id;
      assert a[i + 1] == id;
    }
  }

  function After(ids: set<string>, last: string): set<string> {
    set id | id in ids && TextLess(last, id)
  }

  /** Naming the last key of a page asks for exactly the rest of the list. */
  lemma AfterIsTheRest(ids: set<string>, order: seq<string>, n: nat)
    requires order == Ascending(ids) && 0 < n <= |order|
    ensures Ascending(After(ids, order[n - 1])) == order[n..]
  {
    AscendingIsSorted(ids);
    AscendingIsSorted(After(ids, order[n - 1]));
    forall id ensures id in order[n..] <==> id in After(ids, order[n - 1]) {
      if id in order[n..] {
        var i :| 0 <= i < |order[n..]| && order[n..][i] == id;
        assert order[n + i] == id;
      }
      if id in After(ids, order[n - 1]) {
        var i :| 0 <= i < |order| && order[i] == id;
        TextOrder(id, order[n - 1], "");
        assert order[n..][i - n] == id;
      }
    }
    IncreasingIsUnique(Ascending(After(ids, order[n - 1])), order[n..]);
  }

  lemma AfterEmpty(ids: set<string>)
    ensures After(ids, "") == ids - {""}
  {
  }

  /** Nothing lies below the empty string. */
  lemma AfterSkipsEmpty(ids: set<string>, last: string)
    ensures After(ids, last) == After(ids - {""}, last)
  {
  }

  function Prefix(ids: seq<string>, limit: nat): seq<string> {
    if |ids| <= limit then ids else ids[..limit]
  }

  function Members(ids: seq<string>): set<string> {
    set id | id in ids
  }

  /** One page read: a stretch of the list, and where the next one starts. */
  lemma OnePage(order: seq<string>, visited: seq<string>, page: seq<string>, limit: nat)
    requires visited <= order && page == Prefix(order[|visited|..], limit) && page != []
    ensures visited + page <= order
    ensures (visited + page)[|visited + page| - 1] == page[|page| - 1] == order[|visited + page| - 1]
    ensures |page| < limit ==> visited + page == order
  {
    assert order == visited + order[|visited|..];
  }

  lemma MembersConcat(a: seq<string>, b: seq<string>)
    ensures Members(a + b) == Members(a) + Members(b)
  {
  }

  lemma ReadPage(read: string -> set<Edge>, visited: seq<string>, page: seq<string>)
    ensures ReadAll(read, Members(visited + page)) == ReadAll(read, Members(visited)) + ReadAll(read, Members(page))
  {
    MembersConcat(visited, page);
  }

  lemma WholeListVisited(ids: set<string>, order: seq<string>)
    requires order == Ascending(ids)
    ensures Members(order) == ids
  {
    AscendingIsSorted(ids);
  }

  /**
    The page loop. Every reached document is read exactly once, in key order, whatever the page
    boundaries; the loop ends because each page moves the last key up.
   */
  method PageThrough(ids: set<string>, read: string -> set<Edge>, pageSize: nat) returns (asserted: set<Edge>, visited: seq<string>)
    requires pageSize > 0
    ensures asserted == ReadAll(read, ids - {""})
    ensures visited == Ascending(ids - {""})
  {
    ghost var reached := ids - {""};
    ghost var order := Ascending(reached);
    var lastId := "";
    asserted, visited := {}, [];
    AfterEmpty(ids);
    while true
      invariant visited <= order && order[|visited|..] == Ascending(After(ids, lastId))
      invariant asserted == ReadAll(read, Members(visited))
      decreases |order| - |visited|
    {
      var page := Prefix(Ascending(After(ids, lastId)), pageSize);
      if |page| == 0 {
        break;
      }
      OnePage(order, visited, page, pageSize);
      ReadPage(read, visited, page);
      asserted := asserted + ReadAll(read, Members(page));
      visited := visited + page;
      AfterIsTheRest(reached, order, |visited|);
      lastId := page[|page| - 1];
      AfterSkipsEmpty(ids, lastId);
      if |page| < pageSize {
        break;
      }
    }
    WholeListVisited(reached, order);
  }

  lemma ReachedHasIds(entities: map<DocId, Entity>, relation: EdgeRelation)
    ensures Reached(entities, relation) - {""} == Reached(entities, relation)
  {
  }

  method Sweep(entities: map<DocId, Entity>, voc: Vocabulary, relation: EdgeRelation) returns (asserted: set<Edge>)
    ensures asserted == Asserted(voc, entities, relation)
  {
    ReachedHasIds(entities, relation);
    var visited;
    asserted, visited := PageThrough(Reached(entities, relation), Reading(voc, entities, relation), DOCUMENT_PAGE_SIZE);
  }

  /** One relation's pass, on the store's own edge table. */
  method ReconcileRelation(store: CatalogStore.Store, voc: Vocabulary, relation: EdgeRelation)
    returns (inserted: nat, deleted: nat)
    requires Additive(relation)
    modifies store`edges
    ensures store.Db() == Reconciled(voc, old(store.Db()), relation)
    ensures Stored(store.entities, SourceTable(relation)) ==>
              inserted == |Asserted(voc, store.entities, relation) - RelationRows(old(store.edges), relation)|
              && deleted == |RelationRows(old(store.edges), relation) - Asserted(voc, store.entities, relation)|
    ensures (forall d :: d in store.entities ==> d.table != SourceTable(relation)) ==>
              inserted == 0 && deleted == 0 && store.Db() == old(store.Db())
  {
    inserted, deleted := 0, 0;
    if !Stored(store.entities, SourceTable(relation)) {
      return;
    }
    var asserted := Sweep(store.entities, voc, relation);
    ghost var before := store.edges;
    store.edges, inserted, deleted := Replace(store.edges, relation, asserted);
    MissingRows(before, voc, store.entities, relation);
  }

  lemma MissingRows(edges: map<Edge, Edge>, voc: Vocabulary, entities: map<DocId, Entity>, relation: EdgeRelation)
    ensures Asserted(voc, entities, relation) - edges.Keys == Asserted(voc, entities, relation) - RelationRows(edges, relation)
  {
    forall e | e in Asserted(voc, entities, relation) ensures RelationOf(e) == relation {
      AssertedAreOfTheRelation(voc, entities, relation, e);
    }
  }

  lemma AssertedAreOfTheRelation(voc: Vocabulary, entities: map<DocId, Entity>, relation: EdgeRelation, e: Edge)
    requires e in Asserted(voc, entities, relation)
    ensures RelationOf(e) == relation
  {
    var id :| id in Reached(entities, relation) && e in Reading(voc, entities, relation)(id);
    ReadingHas(voc, entities, relation, id, e);
  }

  lemma ReadingHas(voc: Vocabulary, entities: map<DocId, Entity>, relation: EdgeRelation, id: string, e: Edge)
    ensures var doc := DocId(SourceTable(relation), id);
            e in Reading(voc, entities, relation)(id) <==> doc in entities && Asserts(voc, doc, entities[doc].data, e) && RelationOf(e) == relation
  {
  }

  /** The insert of what is missing, then the anti-join delete. */
  method Replace(edges: map<Edge, Edge>, relation: EdgeRelation, asserted: set<Edge>)
    returns (after: map<Edge, Edge>, inserted: nat, deleted: nat)
    ensures after == WithRows(edges, relation, asserted)
    ensures inserted == |asserted - edges.Keys|
    ensures deleted == |RelationRows(edges, relation) - asserted|
  {
    inserted := |asserted - edges.Keys|;
    after := WithMissing(edges, asserted);
    deleted := |RelationRows(after, relation) - asserted|;
    StaleRowsWereThere(edges, after, relation, asserted);
    after := WithoutUnasserted(after, relation, asserted);
    InsertThenDelete(edges, relation, asserted);
  }

  function WithMissing(edges: map<Edge, Edge>, asserted: set<Edge>): map<Edge, Edge> {
    edges + map e | e in asserted - edges.Keys :: e
  }

  function WithoutUnasserted(edges: map<Edge, Edge>, relation: EdgeRelation, asserted: set<Edge>): map<Edge, Edge> {
    map k | k in edges && !(RelationOf(k) == relation && k !in asserted) :: edges[k]
  }

  lemma InsertThenDelete(edges: map<Edge, Edge>, relation: EdgeRelation, asserted: set<Edge>)
    ensures WithoutUnasserted(WithMissing(edges, asserted), relation, asserted) == WithRows(edges, relation, asserted)
  {
    var a, b := WithoutUnasserted(WithMissing(edges, asserted), relation, asserted), WithRows(edges, relation, asserted);
    forall k ensures k in a <==> k in b {
    }
    forall k | k in a ensures a[k] == b[k] {
    }
  }

  lemma StaleRowsWereThere(edges: map<Edge, Edge>, after: map<Edge, Edge>, relation: EdgeRelation, asserted: set<Edge>)
    requires after.Keys == edges.Keys + asserted
    ensures RelationRows(after, relation) - asserted == RelationRows(edges, relation) - asserted
  {
  }
}
