/**
  The loader's database as it is updated in place: the graph statements of a batch, the batch
  transaction, the single-record transaction and the stale-row purge.
 */
module CatalogStore {
  import opened Wrappers
  import opened Versions
  import opened Rows
  import opened Derivation
  import opened DerivationFacts
  import opened KeyedTables
  import opened RowOrder
  import opened GraphWrites
  import opened Catalog
  import opened Purge

  lemma PrefixGrows<T>(before: seq<T>, rows: seq<T>, i: nat)
    requires i < |rows|
    ensures before + rows[..i + 1] == before + rows[..i] + [rows[i]]
  {
  }

  lemma NextPrefix<T>(rows: seq<T>, i: nat)
    requires i < |rows|
    ensures rows[..i + 1] == rows[..i] + [rows[i]]
  {
  }

  // ---- the rows pending for one statement each --------------------------------------------

  function Pending<K, R>(pending: map<K, seq<R>>, relation: K): seq<R> {
    if relation in pending then pending[relation] else []
  }

  lemma {:induction false} SelectAppend<R>(rows: seq<R>, row: R, chosen: R -> bool)
    ensures Select(rows + [row], chosen) == Select(rows, chosen) + if chosen(row) then [row] else []
  {
    if rows == [] {
      assert rows + [row] == [row];
      assert [row][1..] == [];
    } else {
      assert (rows + [row])[1..] == rows[1..] + [row];
      SelectAppend(rows[1..], row, chosen);
    }
  }

  lemma DistinctAppend<R>(rows: seq<R>, row: R)
    ensures Distinct(rows + [row]) == if row in Distinct(rows) then Distinct(rows) else Distinct(rows) + [row]
  {
    assert (rows + [row])[..|rows|] == rows;
  }

  ghost predicate VerticesPending(pending: map<VertexRelation, seq<Vertex>>, rows: seq<Vertex>) {
    forall r: VertexRelation :: Pending(pending, r) == Distinct(Select(rows, InVertexRelation(r)))
  }

  ghost predicate EdgesPending(pending: map<EdgeRelation, seq<Edge>>, rows: seq<Edge>) {
    forall r: EdgeRelation :: Pending(pending, r) == Distinct(Select(rows, InEdgeRelation(r)))
  }

  function VertexOffered(pending: map<VertexRelation, seq<Vertex>>, row: Vertex): map<VertexRelation, seq<Vertex>> {
    var kept := Pending(pending, VertexRelationOf(row));
    pending[VertexRelationOf(row) := if row in kept then kept else kept + [row]]
  }

  lemma VertexOfferedIsPending(pending: map<VertexRelation, seq<Vertex>>, before: seq<Vertex>, row: Vertex)
    requires VerticesPending(pending, before)
    ensures VerticesPending(VertexOffered(pending, row), before + [row])
  {
    forall r: VertexRelation ensures Pending(VertexOffered(pending, row), r) == Distinct(Select(before + [row], InVertexRelation(r))) {
      assert Pending(pending, r) == Distinct(Select(before, InVertexRelation(r)));
      SelectAppend(before, row, InVertexRelation(r));
      if VertexRelationOf(row) == r {
        DistinctAppend(Select(before, InVertexRelation(r)), row);
      } else {
        assert Select(before, InVertexRelation(r)) + [] == Select(before, InVertexRelation(r));
      }
    }
  }

  method OfferVertices(pending: map<VertexRelation, seq<Vertex>>, ghost before: seq<Vertex>, rows: seq<Vertex>)
    returns (next: map<VertexRelation, seq<Vertex>>)
    requires VerticesPending(pending, before)
    ensures VerticesPending(next, before + rows)
  {
    next := pending;
    ghost var offered := before;
    for i := 0 to |rows|
      invariant offered == before + rows[..i]
      invariant VerticesPending(next, offered)
    {
      PrefixGrows(before, rows, i);
      VertexOfferedIsPending(next, offered, rows[i]);
      next, offered := VertexOffered(next, rows[i]), offered + [rows[i]];
    }
    assert offered == before + rows;
  }

  function EdgeOffered(pending: map<EdgeRelation, seq<Edge>>, row: Edge): map<EdgeRelation, seq<Edge>> {
    var kept := Pending(pending, RelationOf(row));
    pending[RelationOf(row) := if row in kept then kept else kept + [row]]
  }

  lemma EdgeOfferedIsPending(pending: map<EdgeRelation, seq<Edge>>, before: seq<Edge>, row: Edge)
    requires EdgesPending(pending, before)
    ensures EdgesPending(EdgeOffered(pending, row), before + [row])
  {
    forall r: EdgeRelation ensures Pending(EdgeOffered(pending, row), r) == Distinct(Select(before + [row], InEdgeRelation(r))) {
      assert Pending(pending, r) == Distinct(Select(before, InEdgeRelation(r)));
      SelectAppend(before, row, InEdgeRelation(r));
      if RelationOf(row) == r {
        DistinctAppend(Select(before, InEdgeRelation(r)), row);
      } else {
        assert Select(before, InEdgeRelation(r)) + [] == Select(before, InEdgeRelation(r));
      }
    }
  }

  method OfferEdges(pending: map<EdgeRelation, seq<Edge>>, ghost before: seq<Edge>, rows: seq<Edge>)
    returns (next: map<EdgeRelation, seq<Edge>>)
    requires EdgesPending(pending, before)
    ensures EdgesPending(next, before + rows)
  {
    next := pending;
    ghost var offered := before;
    for i := 0 to |rows|
      invariant offered == before + rows[..i]
      invariant EdgesPending(next, offered)
    {
      PrefixGrows(before, rows, i);
      EdgeOfferedIsPending(next, offered, rows[i]);
      next, offered := EdgeOffered(next, rows[i]), offered + [rows[i]];
    }
    assert offered == before + rows;
  }

  // ---- the scoped deletes -----------------------------------------------------------------

  /** The relations written as a replace, in the order their deletes run. */
  const DELETE_ORDER: seq<EdgeRelation> :=
    [ALIAS_OF, BY_ARTIST, CREDITED_ON, CREDITED_TO, DERIVED_FROM, IN_GENRE, IN_STYLE, ISSUED_ON,
     MASTER_BY_ARTIST, MASTER_IN_GENRE, MASTER_IN_STYLE, ON_LABEL, TRACK_BY_ARTIST, TRACK_CREDITED_ON]

  /** The column that names the asserting document. */
  function ScopeColumn(e: Edge): Option<string> {
    if Owner(e).Some? then Some(Owner(e).value.id) else None
  }

  predicate ScopedTo(e: Edge, relation: EdgeRelation, ids: set<string>) {
    RelationOf(e) == relation && ScopeColumn(e).Some? && ScopeColumn(e).value in ids && !Foreign(e)
  }

  function Replaced(replaced: map<EdgeRelation, set<string>>, relation: EdgeRelation): set<string> {
    if relation in replaced then replaced[relation] else {}
  }

  predicate DeletedBy(replaced: map<EdgeRelation, set<string>>, n: nat, e: Edge)
    requires n <= |DELETE_ORDER|
  {
    exists i :: 0 <= i < n && ScopedTo(e, DELETE_ORDER[i], Replaced(replaced, DELETE_ORDER[i]))
  }

  ghost predicate ReplacedBy(replaced: map<EdgeRelation, set<string>>, changes: seq<Change>) {
    forall r: EdgeRelation, id: string :: id in Replaced(replaced, r) <==> exists i :: 0 <= i < |changes| && changes[i].doc.id == id && r in changes[i].graph.replaced
  }

  function DeleteRank(e: Edge): (n: nat)
    requires Owner(e).Some?
    ensures n < |DELETE_ORDER| && DELETE_ORDER[n] == RelationOf(e)
  {
    match RelationOf(e)
    case ALIAS_OF => 0 case BY_ARTIST => 1 case CREDITED_ON => 2 case CREDITED_TO => 3 case DERIVED_FROM => 4
    case IN_GENRE => 5 case IN_STYLE => 6 case ISSUED_ON => 7 case MASTER_BY_ARTIST => 8 case MASTER_IN_GENRE => 9
    case MASTER_IN_STYLE => 10 case ON_LABEL => 11 case TRACK_BY_ARTIST => 12 case TRACK_CREDITED_ON => 13
  }

  const RELEASE_RELATIONS: set<EdgeRelation> :=
    {BY_ARTIST, ON_LABEL, DERIVED_FROM, IN_GENRE, IN_STYLE, CREDITED_ON, CREDITED_TO, ISSUED_ON, TRACK_CREDITED_ON, TRACK_BY_ARTIST}

  function ScopedRelations(table: Table): set<EdgeRelation> {
    match table
    case RELEASES => RELEASE_RELATIONS
    case MASTERS => {MASTER_BY_ARTIST, MASTER_IN_GENRE, MASTER_IN_STYLE}
    case ARTISTS => {ALIAS_OF}
    case LABELS => {}
  }

  lemma ReleaseReplacesScoped(data: Document)
    ensures ReleaseReplaces(data) <= RELEASE_RELATIONS
  {
  }

  lemma ReplacesScoped(voc: Vocabulary, doc: DocId, data: Document)
    ensures Derive(voc, doc, data).replaced <= ScopedRelations(doc.table)
  {
    ReleaseReplacesScoped(data);
  }

  lemma ScopedRelationsNameTheTable(e: Edge, table: Table)
    requires Owner(e).Some? && RelationOf(e) in ScopedRelations(table)
    ensures Owner(e).value.table == table
  {
  }

  /** A table's documents replace only relations whose scope column names documents of that table. */
  lemma ReplacedRelationsAreScoped(voc: Vocabulary, doc: DocId, data: Document, e: Edge)
    requires Owner(e).Some? && RelationOf(e) in Derive(voc, doc, data).replaced
    ensures Owner(e).value.table == doc.table
  {
    ReplacesScoped(voc, doc, data);
    ScopedRelationsNameTheTable(e, doc.table);
  }

  ghost predicate OfOneTable(changes: seq<Change>, table: Table) {
    forall i :: 0 <= i < |changes| ==>
      changes[i].doc.table == table
      && forall e: Edge :: Owner(e).Some? && RelationOf(e) in changes[i].graph.replaced ==> Owner(e).value.table == table
  }

  /** All the scoped deletes together are the sweep of the changed documents' rows. */
  lemma DeletesAreTheSweep(replaced: map<EdgeRelation, set<string>>, changes: seq<Change>, table: Table, e: Edge)
    requires ReplacedBy(replaced, changes) && OfOneTable(changes, table)
    ensures DeletedBy(replaced, |DELETE_ORDER|, e) <==> SomeReplaces(changes, e)
  {
    if DeletedBy(replaced, |DELETE_ORDER|, e) {
      DeletedIsReplaced(replaced, changes, table, e);
    }
    if SomeReplaces(changes, e) {
      ReplacedIsDeleted(replaced, changes, e);
    }
  }

  lemma DeletedIsReplaced(replaced: map<EdgeRelation, set<string>>, changes: seq<Change>, table: Table, e: Edge)
    requires ReplacedBy(replaced, changes) && OfOneTable(changes, table) && DeletedBy(replaced, |DELETE_ORDER|, e)
    ensures SomeReplaces(changes, e)
  {
    var r :| 0 <= r < |DELETE_ORDER| && ScopedTo(e, DELETE_ORDER[r], Replaced(replaced, DELETE_ORDER[r]));
    assert ScopeColumn(e).value in Replaced(replaced, RelationOf(e));
    var i :| 0 <= i < |changes| && changes[i].doc.id == ScopeColumn(e).value && RelationOf(e) in changes[i].graph.replaced;
    assert Owner(e).value.table == table;
    assert Replaces(changes[i], e);
  }

  lemma ReplacedIsDeleted(replaced: map<EdgeRelation, set<string>>, changes: seq<Change>, e: Edge)
    requires ReplacedBy(replaced, changes) && SomeReplaces(changes, e)
    ensures DeletedBy(replaced, |DELETE_ORDER|, e)
  {
    var i :| 0 <= i < |changes| && Replaces(changes[i], e);
    assert ScopeColumn(e).value in Replaced(replaced, RelationOf(e));
    var r := DeleteRank(e);
    assert ScopedTo(e, DELETE_ORDER[r], Replaced(replaced, DELETE_ORDER[r]));
  }

  lemma OneMoreDelete(replaced: map<EdgeRelation, set<string>>, n: nat, e: Edge)
    requires n < |DELETE_ORDER|
    ensures DeletedBy(replaced, n + 1, e) <==> DeletedBy(replaced, n, e) || ScopedTo(e, DELETE_ORDER[n], Replaced(replaced, DELETE_ORDER[n]))
  {
  }

  // ---- one batch's plan -------------------------------------------------------------------

  /** What the hash gate sorts a batch into. */
  datatype Plan = Plan(skipped: set<string>, media: map<string, Document>, items: map<string, nat>, upserts: seq<Message>)

  ghost predicate PlansOne(ctx: Context, table: Table, before: map<DocId, Entity>, plan: Plan, m: Message) {
    var doc := DocId(table, m.id);
    var prior := Lookup(before, doc);
    && (m.id in plan.skipped <==> Unchanged(prior, m))
    && (m.id in plan.media <==> table == RELEASES && Unchanged(prior, m) && prior.value.media.None?)
    && (m.id in plan.media ==> plan.media[m.id] == ctx.voc.mediaForRelease(m.data))
    && (m.id in plan.items <==> Unchanged(prior, m) && prior.value.item.None?)
    && (m.id in plan.items ==> Some(plan.items[m.id]) == ctx.resolve(doc))
    && (m in plan.upserts <==> !Unchanged(prior, m))
  }

  ghost predicate Plans(ctx: Context, table: Table, before: map<DocId, Entity>, latest: seq<Message>, plan: Plan) {
    && plan.skipped <= IdsOf(latest) && plan.media.Keys <= plan.skipped && plan.items.Keys <= plan.skipped
    && (forall m :: m in plan.upserts ==> m in latest)
    && (forall m :: m in latest ==> PlansOne(ctx, table, before, plan, m))
  }

  function WithOne(ctx: Context, table: Table, before: map<DocId, Entity>, plan: Plan, m: Message): Plan
    requires ctx.resolve(DocId(table, m.id)).Some?
  {
    var doc := DocId(table, m.id);
    if Unchanged(Lookup(before, doc), m) then
      Plan(plan.skipped + {m.id},
           if table == RELEASES && before[doc].media.None? then plan.media[m.id := ctx.voc.mediaForRelease(m.data)] else plan.media,
           if before[doc].item.None? then plan.items[m.id := ctx.resolve(doc).value] else plan.items,
           plan.upserts)
    else Plan(plan.skipped, plan.media, plan.items, plan.upserts + [m])
  }

  lemma OthersStayPlanned(ctx: Context, table: Table, before: map<DocId, Entity>, plan: Plan, m: Message, k: Message)
    requires ctx.resolve(DocId(table, m.id)).Some? && k.id != m.id
    requires PlansOne(ctx, table, before, plan, k)
    ensures PlansOne(ctx, table, before, WithOne(ctx, table, before, plan, m), k)
  {
  }

  lemma NewIsPlanned(ctx: Context, table: Table, before: map<DocId, Entity>, plan: Plan, m: Message)
    requires ctx.resolve(DocId(table, m.id)).Some?
    requires m.id !in plan.skipped && m.id !in plan.media && m.id !in plan.items && m !in plan.upserts
    ensures PlansOne(ctx, table, before, WithOne(ctx, table, before, plan, m), m)
  {
  }

  lemma PlansOneMore(ctx: Context, table: Table, before: map<DocId, Entity>, seen: seq<Message>, plan: Plan, m: Message)
    requires Plans(ctx, table, before, seen, plan) && m.id !in IdsOf(seen) && ctx.resolve(DocId(table, m.id)).Some?
    ensures Plans(ctx, table, before, seen + [m], WithOne(ctx, table, before, plan, m))
  {
    IdsAppend(seen, m);
    forall k | k in seen + [m] ensures PlansOne(ctx, table, before, WithOne(ctx, table, before, plan, m), k) {
      if k in seen {
        assert k.id in IdsOf(seen);
        OthersStayPlanned(ctx, table, before, plan, m, k);
      } else {
        NewIsPlanned(ctx, table, before, plan, m);
      }
    }
  }

  method ClassifyOne(ctx: Context, table: Table, before: map<DocId, Entity>, plan: Plan, m: Message) returns (next: Plan)
    requires ctx.resolve(DocId(table, m.id)).Some?
    ensures next == WithOne(ctx, table, before, plan, m)
  {
    next := plan;
    var doc := DocId(table, m.id);
    if doc in before && before[doc].hash == m.sha {
      next := next.(skipped := next.skipped + {m.id});
      if table == RELEASES && before[doc].media.None? {
        next := next.(media := next.media[m.id := ctx.voc.mediaForRelease(m.data)]);
      }
      if before[doc].item.None? {
        next := next.(items := next.items[m.id := ctx.resolve(doc).value]);
      }
    } else {
      next := next.(upserts := next.upserts + [m]);
    }
  }

  method Classify(ctx: Context, table: Table, before: map<DocId, Entity>, latest: seq<Message>) returns (plan: Plan)
    requires OnePerDocument(latest) && Resolved(ctx, table, latest)
    ensures Plans(ctx, table, before, latest, plan)
    ensures plan.upserts == Gated(table, before, latest)
  {
    plan := Plan({}, map[], map[], []);
    for i := 0 to |latest|
      invariant Plans(ctx, table, before, latest[..i], plan)
      invariant plan.upserts == Gated(table, before, latest[..i])
    {
      NextPrefix(latest, i);
      NewId(latest, i);
      assert latest[i] in latest && latest[..i + 1][..i] == latest[..i];
      PlansOneMore(ctx, table, before, latest[..i], plan, latest[i]);
      plan := ClassifyOne(ctx, table, before, plan, latest[i]);
    }
    assert latest[..|latest|] == latest;
  }

  lemma NewId(latest: seq<Message>, i: nat)
    requires OnePerDocument(latest) && i < |latest|
    ensures latest[i].id !in IdsOf(latest[..i])
  {
  }

  function MessageLess(): (Message, Message) -> bool {
    (a: Message, b: Message) => TextLess(a.id, b.id)
  }

  // ---- the statements of a batch ----------------------------------------------------------

  function Fill(entities: map<DocId, Entity>, table: Table, plan: Plan, now: int, d: DocId): Entity
    requires d in entities
  {
    var row := entities[d];
    Entity(row.hash, row.data,
           if d.id in plan.media then Some(plan.media[d.id]) else row.media,
           if d.id in plan.items then Some(plan.items[d.id]) else row.item,
           now)
  }

  /** The three statements over hash-unchanged rows together. */
  ghost predicate Filled(before: map<DocId, Entity>, after: map<DocId, Entity>, table: Table, plan: Plan, now: int) {
    && after.Keys == before.Keys
    && (forall d :: d in before ==> after[d] == if d.table == table && d.id in plan.skipped then Fill(before, table, plan, now, d) else before[d])
  }

  function Refreshed(entities: map<DocId, Entity>, table: Table, seen: set<string>, now: int): map<DocId, Entity> {
    map d | d in entities :: if d.table == table && d.id in seen then entities[d].(updatedAt := now) else entities[d]
  }

  function MediaFilled(entities: map<DocId, Entity>, table: Table, media: map<string, Document>, now: int): map<DocId, Entity> {
    map d | d in entities ::
      if d.table == table && d.id in media then entities[d].(media := Some(media[d.id]), updatedAt := now) else entities[d]
  }

  function ItemsFilled(entities: map<DocId, Entity>, table: Table, items: map<string, nat>, now: int): map<DocId, Entity> {
    map d | d in entities ::
      if d.table == table && d.id in items then entities[d].(item := Some(items[d.id]), updatedAt := now) else entities[d]
  }

  lemma FillsTogether(before: map<DocId, Entity>, table: Table, plan: Plan, now: int, d: DocId)
    requires plan.media.Keys <= plan.skipped && plan.items.Keys <= plan.skipped && d in before
    ensures var seen := plan.skipped - (plan.media.Keys + plan.items.Keys);
            ItemsFilled(MediaFilled(Refreshed(before, table, seen, now), table, plan.media, now), table, plan.items, now)[d]
            == if d.table == table && d.id in plan.skipped then Fill(before, table, plan, now, d) else before[d]
  {
    var refreshed := Refreshed(before, table, plan.skipped - (plan.media.Keys + plan.items.Keys), now);
    assert refreshed.Keys == before.Keys;
    var filled := MediaFilled(refreshed, table, plan.media, now);
    assert filled.Keys == before.Keys;
  }

  function Upserted(ctx: Context, table: Table, prior: Option<Entity>, m: Message): Entity {
    Entity(m.sha, m.data, if table == RELEASES then Media(ctx, table, m) else if prior.Some? then prior.value.media else None,
           ctx.resolve(DocId(table, m.id)), ctx.now)
  }

  lemma FilledRow(ctx: Context, table: Table, before: map<DocId, Entity>, latest: seq<Message>, plan: Plan, filled: map<DocId, Entity>, m: Message)
    requires Plans(ctx, table, before, latest, plan) && m in latest && Filled(before, filled, table, plan, ctx.now)
    requires Unchanged(Lookup(before, DocId(table, m.id)), m)
    ensures DocId(table, m.id) in filled && filled[DocId(table, m.id)] == Batched(ctx, table, Lookup(before, DocId(table, m.id)), m)
  {
    assert PlansOne(ctx, table, before, plan, m);
  }

  ghost predicate UpsertsDone(ctx: Context, table: Table, filled: map<DocId, Entity>, after: map<DocId, Entity>, done: seq<Message>) {
    && (forall m :: m in done ==>
          Lookup(after, DocId(table, m.id)) == Some(Upserted(ctx, table, Lookup(filled, DocId(table, m.id)), m)))
    && (forall d: DocId :: (d.table != table || d.id !in IdsOf(done)) ==> Lookup(after, d) == Lookup(filled, d))
  }

  lemma UpsertOneMore(ctx: Context, table: Table, filled: map<DocId, Entity>, after: map<DocId, Entity>, done: seq<Message>, m: Message)
    requires UpsertsDone(ctx, table, filled, after, done) && m.id !in IdsOf(done)
    ensures UpsertsDone(ctx, table, filled, after[DocId(table, m.id) := Upserted(ctx, table, Lookup(after, DocId(table, m.id)), m)], done + [m])
  {
    IdsAppend(done, m);
    var next := after[DocId(table, m.id) := Upserted(ctx, table, Lookup(after, DocId(table, m.id)), m)];
    forall k | k in done + [m]
      ensures Lookup(next, DocId(table, k.id)) == Some(Upserted(ctx, table, Lookup(filled, DocId(table, k.id)), k))
    {
      if k in done {
        assert k.id in IdsOf(done);
      }
    }
    forall d: DocId | d.table != table || d.id !in IdsOf(done + [m]) ensures Lookup(next, d) == Lookup(filled, d) {
      assert Lookup(after, d) == Lookup(filled, d);
    }
  }

  /** The fills and the sorted upsert together leave the batch's rows. */
  lemma StatementsAreTheBatch(ctx: Context, table: Table, before: map<DocId, Entity>, latest: seq<Message>, plan: Plan,
                              filled: map<DocId, Entity>, after: map<DocId, Entity>, done: seq<Message>)
    requires OnePerDocument(latest) && Plans(ctx, table, before, latest, plan) && Filled(before, filled, table, plan, ctx.now)
    requires UpsertsDone(ctx, table, filled, after, done) && forall m :: m in done <==> m in plan.upserts
    ensures after == BatchEntities(ctx, table, before, latest)
  {
    forall d ensures Lookup(after, d) == Lookup(BatchEntities(ctx, table, before, latest), d) {
      EntityAfterBatch(ctx, table, before, latest, d);
      if d.table == table && MessageFor(latest, d.id).Some? {
        var m := MessageFor(latest, d.id).value;
        WrittenRow(ctx, table, before, latest, plan, filled, after, done, m);
        assert d == DocId(table, m.id);
      } else {
        UntouchedRow(ctx, table, before, latest, plan, filled, after, done, d);
      }
    }
    SameLookups(after, BatchEntities(ctx, table, before, latest));
  }

  lemma WrittenRow(ctx: Context, table: Table, before: map<DocId, Entity>, latest: seq<Message>, plan: Plan,
                   filled: map<DocId, Entity>, after: map<DocId, Entity>, done: seq<Message>, m: Message)
    requires OnePerDocument(latest) && Plans(ctx, table, before, latest, plan) && Filled(before, filled, table, plan, ctx.now)
    requires UpsertsDone(ctx, table, filled, after, done) && forall m :: m in done <==> m in plan.upserts
    requires m in latest
    ensures Lookup(after, DocId(table, m.id)) == Some(Batched(ctx, table, Lookup(before, DocId(table, m.id)), m))
  {
    var doc := DocId(table, m.id);
    assert PlansOne(ctx, table, before, plan, m);
    if Unchanged(Lookup(before, doc), m) {
      FilledRow(ctx, table, before, latest, plan, filled, m);
      forall k | k in done ensures k.id != m.id {
        assert k in latest;
      }
      assert Lookup(after, doc) == Lookup(filled, doc);
    } else {
      assert m in done;
      assert Lookup(filled, doc) == Lookup(before, doc);
    }
  }

  lemma UntouchedRow(ctx: Context, table: Table, before: map<DocId, Entity>, latest: seq<Message>, plan: Plan,
                     filled: map<DocId, Entity>, after: map<DocId, Entity>, done: seq<Message>, d: DocId)
    requires Plans(ctx, table, before, latest, plan) && Filled(before, filled, table, plan, ctx.now)
    requires UpsertsDone(ctx, table, filled, after, done) && forall m :: m in done <==> m in plan.upserts
    requires d.table != table || d.id !in IdsOf(latest)
    ensures Lookup(after, d) == Lookup(before, d)
  {
    if d.id in IdsOf(done) {
      var k :| k in done && k.id == d.id;
      assert k in latest;
    }
    assert Lookup(after, d) == Lookup(filled, d);
  }

  lemma NextVertexStatement(table: map<Vertex, Vertex>, pending: map<VertexRelation, seq<Vertex>>, rows: seq<Vertex>, n: nat)
    requires VerticesPending(pending, rows) && n < |VERTEX_ORDER|
    ensures InsertAll(InsertAll(table, VertexStatements(rows, n), VertexKey), Sorted(Pending(pending, VERTEX_ORDER[n]), VertexLess), VertexKey)
         == InsertAll(table, VertexStatements(rows, n + 1), VertexKey)
  {
    InsertAllConcat(table, VertexStatements(rows, n), VertexStatement(rows, VERTEX_ORDER[n]), VertexKey);
    assert Pending(pending, VERTEX_ORDER[n]) == Distinct(Select(rows, InVertexRelation(VERTEX_ORDER[n])));
  }

  lemma NextEdgeStatement(table: map<Edge, Edge>, pending: map<EdgeRelation, seq<Edge>>, rows: seq<Edge>, n: nat)
    requires EdgesPending(pending, rows) && n < |EDGE_ORDER|
    ensures InsertAll(InsertAll(table, EdgeStatements(rows, n), EdgeKey), Sorted(Pending(pending, EDGE_ORDER[n]), EdgeLess), EdgeKey)
         == InsertAll(table, EdgeStatements(rows, n + 1), EdgeKey)
  {
    InsertAllConcat(table, EdgeStatements(rows, n), EdgeStatement(rows, EDGE_ORDER[n]), EdgeKey);
    assert Pending(pending, EDGE_ORDER[n]) == Distinct(Select(rows, InEdgeRelation(EDGE_ORDER[n])));
  }

  // ---- one batch's graph ------------------------------------------------------------------

  function ReplacedWith(replaced: map<EdgeRelation, set<string>>, change: Change): map<EdgeRelation, set<string>> {
    map r | r in replaced.Keys + change.graph.replaced :: Replaced(replaced, r) + if r in change.graph.replaced then {change.doc.id} else {}
  }

  lemma ReplacedOneMore(replaced: map<EdgeRelation, set<string>>, changes: seq<Change>, change: Change)
    requires ReplacedBy(replaced, changes)
    ensures ReplacedBy(ReplacedWith(replaced, change), changes + [change])
  {
    var all := changes + [change];
    forall r: EdgeRelation, id: string
      ensures id in Replaced(ReplacedWith(replaced, change), r) <==> exists i :: 0 <= i < |all| && all[i].doc.id == id && r in all[i].graph.replaced
    {
      if id in Replaced(ReplacedWith(replaced, change), r) {
        if id in Replaced(replaced, r) {
          var i :| 0 <= i < |changes| && changes[i].doc.id == id && r in changes[i].graph.replaced;
          assert all[i] == changes[i];
        } else {
          assert all[|changes|] == change;
        }
      }
      if i :| 0 <= i < |all| && all[i].doc.id == id && r in all[i].graph.replaced {
        if i < |changes| {
          assert changes[i] == all[i];
          assert id in Replaced(replaced, r);
        }
      }
    }
  }

  lemma AllRowsOneMore(changes: seq<Change>, change: Change)
    ensures AllVertices(changes + [change]) == AllVertices(changes) + change.graph.vertices
    ensures AllEdges(changes + [change]) == AllEdges(changes) + change.graph.edges
  {
    assert (changes + [change])[..|changes|] == changes;
  }

  /** The pending rows and ids of a batch's documents. */
  datatype Work = Work(vertices: map<VertexRelation, seq<Vertex>>, edges: map<EdgeRelation, seq<Edge>>, replaced: map<EdgeRelation, set<string>>)

  ghost predicate Covers(work: Work, changes: seq<Change>) {
    VerticesPending(work.vertices, AllVertices(changes)) && EdgesPending(work.edges, AllEdges(changes)) && ReplacedBy(work.replaced, changes)
  }

  method AddDocument(work: Work, ghost changes: seq<Change>, change: Change) returns (next: Work)
    requires Covers(work, changes)
    ensures Covers(next, changes + [change])
  {
    AllRowsOneMore(changes, change);
    ReplacedOneMore(work.replaced, changes, change);
    var vertices := OfferVertices(work.vertices, AllVertices(changes), change.graph.vertices);
    var edges := OfferEdges(work.edges, AllEdges(changes), change.graph.edges);
    next := Work(vertices, edges, ReplacedWith(work.replaced, change));
  }

  method Collect(ctx: Context, table: Table, documents: seq<Message>) returns (work: Work)
    ensures Covers(work, ChangesIn(ctx, table, documents))
  {
    work := Work(map[], map[], map[]);
    ghost var changes: seq<Change> := [];
    for i := 0 to |documents|
      invariant changes == ChangesIn(ctx, table, documents[..i])
      invariant Covers(work, changes)
    {
      NextPrefix(documents, i);
      ChangesInAppend(ctx, table, documents[..i], documents[i]);
      var change := ChangeOf(ctx, table, documents[i]);
      work := AddDocument(work, changes, change);
      changes := changes + [change];
    }
    assert documents[..|documents|] == documents;
  }

  lemma ChangeIsOfTable(ctx: Context, table: Table, documents: seq<Message>)
    ensures OfOneTable(ChangesIn(ctx, table, documents), table)
  {
    forall i: nat, e: Edge | i < |documents| && Owner(e).Some? && RelationOf(e) in ChangeOf(ctx, table, documents[i]).graph.replaced
      ensures Owner(e).value.table == table
    {
      ReplacedRelationsAreScoped(ctx.voc, DocId(table, documents[i].id), documents[i].data, e);
    }
  }

  /** The vertex statements, the deletes and the edge statements together. */
  lemma StatementsAreTheWrite(g: Graph, changes: seq<Change>, table: Table, replaced: map<EdgeRelation, set<string>>,
                              vertices: map<Vertex, Vertex>, left: map<Edge, Edge>, edges: map<Edge, Edge>)
    requires Writable(changes) && OfOneTable(changes, table) && ReplacedBy(replaced, changes)
    requires vertices == InsertAll(g.vertices, VertexStatements(AllVertices(changes), |VERTEX_ORDER|), VertexKey)
    requires left == map k | k in g.edges && !DeletedBy(replaced, |DELETE_ORDER|, k) :: g.edges[k]
    requires edges == InsertAll(left, EdgeStatements(AllEdges(changes), |EDGE_ORDER|), EdgeKey)
    ensures Graph(vertices, edges) == WriteChanges(g, changes)
  {
    BatchHasOneRowPerKey(changes);
    StatementOrderChangesNothing(g.vertices, left, AllVertices(changes), AllEdges(changes));
    forall k ensures DeletedBy(replaced, |DELETE_ORDER|, k) <==> SomeReplaces(changes, k) {
      DeletesAreTheSweep(replaced, changes, table, k);
    }
    assert left == Swept(g.edges, changes);
  }

  lemma ScopeNamesTheTable(e: Edge, table: Table)
    requires RelationOf(e) in PurgeScope(table) && Owner(e).Some?
    ensures Owner(e).value == DocId(table, ScopeColumn(e).value)
  {
  }

  /** One purge statement: the relation's rows of this loader whose document is stale. */
  predicate StaleIn(entities: map<DocId, Entity>, table: Table, start: int, relation: EdgeRelation, e: Edge) {
    RelationOf(e) == relation && !Foreign(e) && ScopeColumn(e).Some? && Stale(entities, table, start, DocId(table, ScopeColumn(e).value))
  }

  predicate SweptSoFar(entities: map<DocId, Entity>, table: Table, start: int, n: nat, e: Edge)
    requires n <= |PurgeScope(table)|
  {
    RelationOf(e) in PurgeScope(table)[..n] && SweptByPurge(entities, table, start, e)
  }

  lemma OneMoreSwept(entities: map<DocId, Entity>, table: Table, start: int, n: nat, e: Edge)
    requires n < |PurgeScope(table)|
    ensures SweptSoFar(entities, table, start, n + 1, e) <==>
              SweptSoFar(entities, table, start, n, e) || StaleIn(entities, table, start, PurgeScope(table)[n], e)
  {
    NextPrefix(PurgeScope(table), n);
    if RelationOf(e) == PurgeScope(table)[n] && Owner(e).Some? {
      ScopeNamesTheTable(e, table);
    }
  }

  lemma SortedIsOnePerDocument(upserts: seq<Message>)
    requires OnePerDocument(upserts)
    ensures OnePerDocument(Sorted(upserts, MessageLess()))
  {
    var sorted := Sorted(upserts, MessageLess());
    SortedRows(upserts, MessageLess());
    forall i, j | 0 <= i < j < |sorted| ensures sorted[i].id != sorted[j].id {
      if sorted[i].id == sorted[j].id {
        DistinctRowsOnce(upserts, sorted, i, j);
      }
    }
  }

  /** Equal ids would be one message met twice. */
  lemma DistinctRowsOnce(upserts: seq<Message>, sorted: seq<Message>, i: nat, j: nat)
    requires OnePerDocument(upserts) && multiset(sorted) == multiset(upserts) && i < j < |sorted|
    ensures sorted[i].id != sorted[j].id
  {
    var m := sorted[i];
    assert sorted[j] in multiset(sorted) && m in multiset(sorted);
    assert sorted[j] in upserts && m in upserts;
    if sorted[j].id == m.id {
      assert sorted == sorted[..j] + [sorted[j]] + sorted[j + 1..];
      assert m in sorted[..j];
      assert multiset(sorted)[m] >= 2;
      OnceEach(upserts, m);
    }
  }

  lemma {:induction false} OnceEach(messages: seq<Message>, m: Message)
    requires OnePerDocument(messages)
    ensures multiset(messages)[m] <= 1
  {
    if messages != [] {
      var init, last := messages[..|messages| - 1], messages[|messages| - 1];
      assert messages == init + [last];
      LastIsNew(init, last);
      OnceEach(init, m);
      if m == last {
        assert m !in init by {
          assert last.id !in IdsOf(init);
        }
      }
    }
  }

  // ---- deduplication ----------------------------------------------------------------------

  /** A dictionary in insertion order, and the list of its values. */
  ghost predicate Lists(order: seq<string>, payload: map<string, Message>, latest: seq<Message>) {
    && |order| == |latest|
    && (forall k :: 0 <= k < |order| ==> order[k] == latest[k].id && order[k] in payload && payload[order[k]] == latest[k])
    && (forall id :: id in payload ==> id in IdsOf(latest))
  }

  lemma LatestOneMore(messages: seq<Message>, m: Message)
    ensures var kept := Latest(messages);
            Latest(messages + [m]) == if m.id in IdsOf(kept) then Overwritten(kept, m) else kept + [m]
  {
    assert (messages + [m])[..|messages|] == messages;
  }

  function Overwritten(kept: seq<Message>, m: Message): seq<Message> {
    seq(|kept|, i requires 0 <= i < |kept| => if kept[i].id == m.id then m else kept[i])
  }

  lemma ListsOverwritten(order: seq<string>, payload: map<string, Message>, kept: seq<Message>, m: Message)
    requires Lists(order, payload, kept) && m.id in payload
    ensures m.id in IdsOf(kept) && Lists(order, payload[m.id := m], Overwritten(kept, m))
  {
    forall id | id in payload[m.id := m] ensures id in IdsOf(Overwritten(kept, m)) {
      var k :| 0 <= k < |kept| && kept[k].id == id;
      assert Overwritten(kept, m)[k] in Overwritten(kept, m);
    }
  }

  lemma ListsAppended(order: seq<string>, payload: map<string, Message>, kept: seq<Message>, m: Message)
    requires Lists(order, payload, kept) && m.id !in payload
    ensures m.id !in IdsOf(kept) && Lists(order + [m.id], payload[m.id := m], kept + [m])
  {
    NotListed(order, payload, kept, m.id);
    IdsAppend(kept, m);
  }

  lemma NotListed(order: seq<string>, payload: map<string, Message>, kept: seq<Message>, id: string)
    requires Lists(order, payload, kept) && id !in payload
    ensures id !in IdsOf(kept) && forall k :: 0 <= k < |order| ==> order[k] != id
  {
    forall m | m in kept ensures m.id != id {
      var k :| 0 <= k < |kept| && kept[k] == m;
      assert order[k] in payload;
    }
  }

  /** Keyed by document id: the first delivery's place, the last delivery's payload. */
  method Deduplicate(messages: seq<Message>) returns (latest: seq<Message>)
    ensures latest == Latest(messages)
  {
    var order: seq<string> := [];
    var payload: map<string, Message> := map[];
    for i := 0 to |messages|
      invariant Lists(order, payload, Latest(messages[..i]))
    {
      var m := messages[i];
      NextPrefix(messages, i);
      LatestOneMore(messages[..i], m);
      if m.id in payload {
        ListsOverwritten(order, payload, Latest(messages[..i]), m);
      } else {
        ListsAppended(order, payload, Latest(messages[..i]), m);
        order := order + [m.id];
      }
      payload := payload[m.id := m];
    }
    assert messages[..|messages|] == messages;
    latest := seq(|order|, i requires 0 <= i < |order| && order[i] in payload => payload[order[i]]);
  }

  lemma OneDocument(ctx: Context, table: Table, m: Message)
    ensures ChangesIn(ctx, table, [m]) == [ChangeOf(ctx, table, m)]
  {
  }

  /** The guards read on the rows. */
  lemma StaleRowsByColumns(db: Database, table: Table, started: StartedAt, count: Option<nat>, cap: real)
    ensures RowsOf(db.entities, table) == set d | d in db.entities && d.table == table
    ensures started.At? ==>
              StaleRows(db.entities, table, started.time) == set d | d in db.entities && d.table == table && db.entities[d].updatedAt < started.time
    ensures (forall d :: d in db.entities ==> d.table != table) ==> |RowsOf(db.entities, table)| == 0
    ensures started.At? && (forall d :: d in db.entities && d.table == table ==> db.entities[d].updatedAt >= started.time) ==>
              |StaleRows(db.entities, table, started.time)| == 0
    ensures Purges(db, table, started, count, cap) ==>
              |StaleRows(db.entities, table, started.time)| as real < cap * |RowsOf(db.entities, table)| as real
  {
    if forall d :: d in db.entities ==> d.table != table {
      assert RowsOf(db.entities, table) == {};
    }
    if started.At? && forall d :: d in db.entities && d.table == table ==> db.entities[d].updatedAt >= started.time {
      assert StaleRows(db.entities, table, started.time) == {};
    }
    if Purges(db, table, started, count, cap) {
      BelowTheCap(|StaleRows(db.entities, table, started.time)|, |RowsOf(db.entities, table)|, cap);
    }
  }

  lemma BelowTheCap(stale: nat, total: nat, cap: real)
    requires total > 0 && Fraction(stale, total) < cap
    ensures stale as real < cap * total as real
  {
    MoreThanTheRestIsKept(stale, total, cap);
  }

  // ---- the tables -------------------------------------------------------------------------

  class Store {
    var entities: map<DocId, Entity>
    var vertices: map<Vertex, Vertex>
    var edges: map<Edge, Edge>

    function Db(): Database
      reads this
    {
      Database(entities, Graph(vertices, edges))
    }

    constructor (db: Database)
      ensures Db() == db
    {
      entities, vertices, edges := db.entities, db.graph.vertices, db.graph.edges;
    }

    /** Vertex relations in their fixed order, each sorted stably by key. */
    method InsertVertices(pending: map<VertexRelation, seq<Vertex>>, ghost rows: seq<Vertex>)
      requires VerticesPending(pending, rows)
      modifies this`vertices
      ensures vertices == InsertAll(old(vertices), VertexStatements(rows, |VERTEX_ORDER|), VertexKey)
    {
      for r := 0 to |VERTEX_ORDER|
        invariant vertices == InsertAll(old(vertices), VertexStatements(rows, r), VertexKey)
      {
        var relation := VERTEX_ORDER[r];
        NextVertexStatement(old(vertices), pending, rows, r);
        vertices := InsertAll(vertices, Sorted(Pending(pending, relation), VertexLess), VertexKey);
      }
    }

    /** Edge relations in their fixed order, each sorted by its columns. */
    method InsertEdges(pending: map<EdgeRelation, seq<Edge>>, ghost rows: seq<Edge>)
      requires EdgesPending(pending, rows)
      modifies this`edges
      ensures edges == InsertAll(old(edges), EdgeStatements(rows, |EDGE_ORDER|), EdgeKey)
    {
      for r := 0 to |EDGE_ORDER|
        invariant edges == InsertAll(old(edges), EdgeStatements(rows, r), EdgeKey)
      {
        var relation := EDGE_ORDER[r];
        NextEdgeStatement(old(edges), pending, rows, r);
        edges := InsertAll(edges, Sorted(Pending(pending, relation), EdgeLess), EdgeKey);
      }
    }

    method DeleteReplaced(replaced: map<EdgeRelation, set<string>>)
      modifies this`edges
      ensures edges == map k | k in old(edges) && !DeletedBy(replaced, |DELETE_ORDER|, k) :: old(edges)[k]
    {
      for n := 0 to |DELETE_ORDER|
        invariant edges == map k | k in old(edges) && !DeletedBy(replaced, n, k) :: old(edges)[k]
      {
        var relation := DELETE_ORDER[n];
        var ids := Replaced(replaced, relation);
        edges := map k | k in edges && !ScopedTo(k, relation, ids) :: edges[k];
        forall k ensures DeletedBy(replaced, n + 1, k) <==> DeletedBy(replaced, n, k) || ScopedTo(k, relation, ids) {
          OneMoreDelete(replaced, n, k);
        }
      }
    }

    /** Vertices, then the deletes, then the edges, each a statement per relation: the batch's documents at once. */
    method WriteDocumentGraph(ctx: Context, table: Table, documents: seq<Message>)
      requires OnePerDocument(documents)
      modifies this`vertices, this`edges
      ensures Db().graph == WriteChanges(old(Db().graph), ChangesIn(ctx, table, documents))
    {
      ghost var changes := ChangesIn(ctx, table, documents);
      if |documents| == 0 {
        assert changes == [];
        NothingWritten(Db().graph);
        return;
      }
      var work := Collect(ctx, table, documents);
      ChangesInAreWritable(ctx, table, documents);
      ChangeIsOfTable(ctx, table, documents);
      WriteCollected(work, table, changes);
    }

    method WriteCollected(work: Work, ghost table: Table, ghost changes: seq<Change>)
      requires Covers(work, changes) && Writable(changes) && OfOneTable(changes, table)
      modifies this`vertices, this`edges
      ensures Db().graph == WriteChanges(old(Db().graph), changes)
    {
      InsertVertices(work.vertices, AllVertices(changes));
      DeleteReplaced(work.replaced);
      ghost var left := edges;
      InsertEdges(work.edges, AllEdges(changes));
      StatementsAreTheWrite(old(Db().graph), changes, table, work.replaced, vertices, left, edges);
    }

    /** The plain refresh, then the media backfill, then the identity backfill. */
    method FillUnchanged(table: Table, plan: Plan, now: int)
      requires plan.media.Keys <= plan.skipped && plan.items.Keys <= plan.skipped
      modifies this`entities
      ensures Filled(old(entities), entities, table, plan, now)
    {
      var seen := plan.skipped - (plan.media.Keys + plan.items.Keys);
      ghost var before := entities;
      entities := Refreshed(entities, table, seen, now);
      entities := MediaFilled(entities, table, plan.media, now);
      entities := ItemsFilled(entities, table, plan.items, now);
      forall d | d in before ensures entities[d] == if d.table == table && d.id in plan.skipped then Fill(before, table, plan, now, d) else before[d] {
        FillsTogether(before, table, plan, now, d);
      }
    }

    method UpsertSorted(ctx: Context, table: Table, upserts: seq<Message>) returns (sorted: seq<Message>)
      requires OnePerDocument(upserts)
      modifies this`entities
      ensures sorted == Sorted(upserts, MessageLess())
      ensures UpsertsDone(ctx, table, old(entities), entities, sorted)
    {
      sorted := Sorted(upserts, MessageLess());
      SortedIsOnePerDocument(upserts);
      for i := 0 to |sorted|
        invariant UpsertsDone(ctx, table, old(entities), entities, sorted[..i])
      {
        NextPrefix(sorted, i);
        NewId(sorted, i);
        UpsertOneMore(ctx, table, old(entities), entities, sorted[..i], sorted[i]);
        var doc := DocId(table, sorted[i].id);
        entities := entities[doc := Upserted(ctx, table, Lookup(entities, doc), sorted[i])];
      }
      assert sorted[..|sorted|] == sorted;
    }

    /** One batch transaction. A document without a native identity rolls all of it back. */
    method ProcessBatch(ctx: Context, table: Table, messages: seq<Message>) returns (ok: bool, result: Plan)
      modifies this
      ensures ok <==> Catalog.ProcessBatch(ctx, table, old(Db()), messages).Some?
      ensures Db() == if ok then Catalog.ProcessBatch(ctx, table, old(Db()), messages).value else old(Db())
      ensures ok ==> Plans(ctx, table, old(entities), Latest(messages), result)
    {
      var latest := Deduplicate(messages);
      LatestIsTheLastOfEach(messages);
      result := Plan({}, map[], map[], []);
      ok := Resolved(ctx, table, latest);
      if !ok {
        return;
      }
      result := Classify(ctx, table, entities, latest);
      FillUnchanged(table, result, ctx.now);
      ghost var filled := entities;
      GatedIsOnePerDocument(table, old(entities), latest);
      var sorted := UpsertSorted(ctx, table, result.upserts);
      forall m ensures m in sorted <==> m in result.upserts {
        SortedHas(result.upserts, MessageLess(), m);
      }
      StatementsAreTheBatch(ctx, table, old(entities), latest, result, filled, entities, sorted);
      WriteDocumentGraph(ctx, table, result.upserts);
    }

    /** One record's transaction; the upsert itself answers whether the content changed. */
    method PersistRecord(ctx: Context, table: Table, m: Message) returns (ok: bool, backfilled: bool)
      modifies this
      ensures ok <==> ctx.resolve(DocId(table, m.id)).Some?
      ensures ok <==> Persist(ctx, table, old(Db()), m).Some?
      ensures Db() == if ok then Persist(ctx, table, old(Db()), m).value else old(Db())
      ensures backfilled <==> ok && table == RELEASES && DocId(table, m.id) in old(entities)
                              && old(entities)[DocId(table, m.id)].hash == m.sha && old(entities)[DocId(table, m.id)].media.None?
    {
      var doc := DocId(table, m.id);
      backfilled := false;
      ok := ctx.resolve(doc).Some?;
      if !ok {
        return;
      }
      var prior := Lookup(entities, doc);
      var contentChanged := prior.None? || prior.value.hash != m.sha;
      backfilled := table == RELEASES && !contentChanged && prior.value.media.None?;
      entities := entities[doc := Persisted(ctx, table, prior, m)];
      if contentChanged {
        WriteDocumentGraph(ctx, table, [m]);
        OneDocument(ctx, table, m);
      }
    }

    /** Every relation in the table's scope, the stale documents' rows. */
    method PurgeDocumentGraph(table: Table, start: int)
      modifies this`edges
      ensures edges == map k | k in old(edges) && !SweptByPurge(entities, table, start, k) :: old(edges)[k]
    {
      var scope := PurgeScope(table);
      for n := 0 to |scope|
        invariant edges == map k | k in old(edges) && !SweptSoFar(entities, table, start, n, k) :: old(edges)[k]
      {
        edges := map k | k in edges && !StaleIn(entities, table, start, scope[n], k) :: edges[k];
        forall k: Edge ensures SweptSoFar(entities, table, start, n + 1, k) <==>
                               SweptSoFar(entities, table, start, n, k) || StaleIn(entities, table, start, scope[n], k) {
          OneMoreSwept(entities, table, start, n, k);
        }
      }
      assert scope[..|scope|] == scope;
    }

    /** The guards in their order, then the graph sweep while the stale rows are still there, then the rows. */
    method PurgeStaleRows(table: Table, started: StartedAt, count: Option<nat>, cap: real) returns (raised: bool, deleted: nat)
      modifies this
      ensures Db() == PurgeStale(old(Db()), table, started, count, cap)
      ensures raised <==> started.Malformed? && count != Some(0)
      ensures deleted == if Purges(old(Db()), table, started, count, cap) then |StaleRows(old(entities), table, started.time)| else 0
      ensures started == Missing || started == Malformed || count == Some(0) || (forall d :: d in old(entities) ==> d.table != table)
              || (started.At? && forall d :: d in old(entities) && d.table == table ==> old(entities)[d].updatedAt >= started.time) ==>
                Db() == old(Db()) && deleted == 0
      ensures Db() != old(Db()) ==>
                && started.At?
                && entities == (map d | d in old(entities) && !(d.table == table && old(entities)[d].updatedAt < started.time) :: old(entities)[d])
                && deleted == |set d | d in old(entities) && d.table == table && old(entities)[d].updatedAt < started.time|
                && deleted as real < cap * |set d | d in old(entities) && d.table == table| as real
    {
      StaleRowsByColumns(Db(), table, started, count, cap);
      raised, deleted := false, 0;
      if started.Missing? || count == Some(0) {
        return;
      }
      if started.Malformed? {
        raised := true;
        return;
      }
      var total := |RowsOf(entities, table)|;
      if total == 0 {
        return;
      }
      var stale := |StaleRows(entities, table, started.time)|;
      if stale == 0 {
        return;
      }
      if Fraction(stale, total) >= cap {
        return;
      }
      PurgeDocumentGraph(table, started.time);
      deleted := stale;
      entities := map d | d in entities && !Stale(entities, table, started.time, d) :: entities[d];
    }
  }
}
