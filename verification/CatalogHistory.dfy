/**
  The incremental graph against the simple form, over every history of batches, single writes,
  purges and reconciliation passes: the tables hold exactly what the stored documents derive.
 */
module CatalogHistory {
  import opened Wrappers
  import opened Rows
  import opened Derivation
  import opened DerivationFacts
  import opened KeyedTables
  import opened GraphWrites
  import opened Catalog
  import opened Purge
  import opened Reconcile
  import opened ReconcileFacts

  // ---- one changed document ---------------------------------------------------------------

  lemma {:induction false} FirstIsTheOnly(rows: seq<Edge>, e: Edge)
    requires OneRowPerKey(rows)
    ensures FirstWith(rows, EdgeKey, EdgeKey(e)) == Some(e) <==> e in rows
  {
    FirstWithIsARow(rows, EdgeKey, EdgeKey(e));
  }

  lemma OneChangeIsWritable(change: Change)
    requires OwnsItsRows(change.doc, change.graph)
    ensures Writable([change])
  {
  }

  lemma EdgeAfterOne(g: Graph, change: Change, k: Edge)
    requires OwnsItsRows(change.doc, change.graph)
    ensures var after := WriteChanges(g, [change]).edges;
            var derived := FirstWith(change.graph.edges, EdgeKey, k);
            && (k in after <==> (k in g.edges && !Replaces(change, k)) || derived.Some?)
            && (k in after ==> after[k] == if k in g.edges && !Replaces(change, k) then g.edges[k] else derived.value)
  {
    OneChangeIsWritable(change);
    EdgeAfterWrite(g, [change], k);
    OneChange(change, k);
  }

  /** A replaced relation holds, for the document, exactly what it now derives. */
  lemma RewrittenRows(g: Graph, change: Change, e: Edge)
    requires OwnsItsRows(change.doc, change.graph) && Replaces(change, e)
    ensures HasRow(WriteChanges(g, [change]), e) <==> e in change.graph.edges
  {
    KeysKeepOwners(e);
    EdgeAfterOne(g, change, EdgeKey(e));
    FirstIsTheOnly(change.graph.edges, e);
  }

  /** Every other owned row, and every row of another provider, stays as it was. */
  lemma OtherRowsStay(g: Graph, change: Change, e: Edge)
    requires OwnsItsRows(change.doc, change.graph) && !Replaces(change, e) && (Owner(e).Some? || Foreign(e))
    ensures HasRow(WriteChanges(g, [change]), e) <==> HasRow(g, e)
  {
    KeysKeepOwners(e);
    EdgeAfterOne(g, change, EdgeKey(e));
    FirstWithIsARow(change.graph.edges, EdgeKey, EdgeKey(e));
    if FirstWith(change.graph.edges, EdgeKey, EdgeKey(e)).Some? {
      KeysKeepOwners(FirstWith(change.graph.edges, EdgeKey, EdgeKey(e)).value);
    }
  }

  /** A row no document owns is only ever added. */
  lemma SharedRowsAccumulate(g: Graph, change: Change, e: Edge)
    requires Keyed(g) && OwnsItsRows(change.doc, change.graph) && Owner(e).None?
    ensures HasRow(WriteChanges(g, [change]), e) <==> HasRow(g, e) || e in change.graph.edges
  {
    KeysKeepOwners(e);
    EdgeAfterOne(g, change, EdgeKey(e));
    FirstIsTheOnly(change.graph.edges, e);
    FirstWithIsARow(change.graph.edges, EdgeKey, EdgeKey(e));
    if EdgeKey(e) in g.edges {
      SharedRowIsItsKey(g.edges[EdgeKey(e)], e);
    }
  }

  lemma SharedRowIsItsKey(a: Edge, b: Edge)
    requires EdgeKey(a) == EdgeKey(b) && Owner(b).None?
    ensures a == b
  {
    KeysKeepOwners(a);
    KeysKeepOwners(b);
  }

  lemma ChangeKeepsKeyed(g: Graph, change: Change)
    requires Keyed(g) && OwnsItsRows(change.doc, change.graph)
    ensures Keyed(WriteChanges(g, [change]))
  {
    var after := WriteChanges(g, [change]);
    forall k | k in after.edges ensures EdgeKey(after.edges[k]) == k {
      EdgeAfterOne(g, change, k);
      FirstWithIsARow(change.graph.edges, EdgeKey, k);
    }
    forall k | k in after.vertices ensures VertexKey(after.vertices[k]) == k {
      InsertAllAt(g.vertices, AllVertices([change]), VertexKey, k);
      FirstWithIsARow(AllVertices([change]), VertexKey, k);
    }
  }

  /** A document replaces every relation it owns rows of, company credits only when it states them. */
  lemma WhatADocumentReplaces(voc: Vocabulary, doc: DocId, data: Document, e: Edge)
    requires Owner(e) == Some(doc)
    ensures RelationOf(e) in Derive(voc, doc, data).replaced <==> RelationOf(e) != CREDITED_TO || StatesCompanies(data)
  {
    DerivedReplaces(voc, doc, data);
    OwnedRelationsReplaced(doc.table, data, e);
  }

  function ReplacedRelations(table: Table, data: Document): set<EdgeRelation> {
    match table
    case ARTISTS => {ALIAS_OF}
    case MASTERS => {MASTER_BY_ARTIST, MASTER_IN_GENRE, MASTER_IN_STYLE}
    case RELEASES => ReleaseReplaces(data)
    case LABELS => {}
  }

  lemma DerivedReplaces(voc: Vocabulary, doc: DocId, data: Document)
    ensures Derive(voc, doc, data).replaced == ReplacedRelations(doc.table, data)
  {
  }

  lemma OwnedRelationsReplaced(table: Table, data: Document, e: Edge)
    requires Owner(e).Some? && Owner(e).value.table == table
    ensures RelationOf(e) in ReplacedRelations(table, data) <==> RelationOf(e) != CREDITED_TO || StatesCompanies(data)
  {
  }

  // ---- histories --------------------------------------------------------------------------

  /** A database, and for each stored release its last written payload that stated its companies. */
  datatype State = State(db: Database, stated: map<DocId, Document>)

  datatype Event =
    | Batch(table: Table, messages: seq<Message>, ctx: Context)
    | Single(table: Table, message: Message, ctx: Context)
    | PurgeRun(table: Table, started: StartedAt, count: Option<nat>, cap: real)
    | ReconcileRun(voc: Vocabulary)

  function StatedAfter(stated: map<DocId, Document>, table: Table, before: map<DocId, Entity>, messages: seq<Message>): map<DocId, Document> {
    if messages == [] then stated
    else
      var last := messages[|messages| - 1];
      StatedWith(StatedAfter(stated, table, before, messages[..|messages| - 1]), table, Lookup(before, DocId(table, last.id)), last)
  }

  function StatedWith(stated: map<DocId, Document>, table: Table, prior: Option<Entity>, m: Message): map<DocId, Document> {
    if table == RELEASES && StatesCompanies(m.data) && !Unchanged(prior, m) then stated[DocId(table, m.id) := m.data] else stated
  }

  function Apply(s: State, event: Event): State {
    match event
    case Batch(table, messages, ctx) =>
      var after := ProcessBatch(ctx, table, s.db, messages);
      if after.None? then s else State(after.value, StatedAfter(s.stated, table, s.db.entities, Latest(messages)))
    case Single(table, message, ctx) =>
      var after := Persist(ctx, table, s.db, message);
      if after.None? then s else State(after.value, StatedWith(s.stated, table, Lookup(s.db.entities, DocId(table, message.id)), message))
    case PurgeRun(table, started, count, cap) =>
      var after := PurgeStale(s.db, table, started, count, cap);
      State(after, map d | d in s.stated && d in after.entities :: s.stated[d])
    case ReconcileRun(voc) => State(ReconcileAll(voc, s.db), s.stated)
  }

  function Run(s: State, events: seq<Event>): State {
    if events == [] then s else Apply(Run(s, events[..|events| - 1]), events[|events| - 1])
  }

  /** Which stored documents the additive relations are held to: all, or those a reconciliation pass reads. */
  datatype Reach = EveryDocument | ReachedDocuments

  predicate Counted(reach: Reach, e: Edge, d: DocId, data: Document) {
    reach.EveryDocument? || (d.id != "" && Qualifies(RelationOf(e), data))
  }

  /** The vocabulary does not change under a history; without a pass every document counts. */
  ghost predicate Under(voc: Vocabulary, reach: Reach, event: Event) {
    match event
    case Batch(_, _, ctx) => ctx.voc == voc
    case Single(_, _, ctx) => ctx.voc == voc
    case PurgeRun(_, _, _, _) => true
    case ReconcileRun(v) => v == voc && reach.ReachedDocuments?
  }

  /** What a relation should hold for a row's document. */
  predicate Expected(voc: Vocabulary, s: State, e: Edge)
    requires Owner(e).Some?
  {
    var d := Owner(e).value;
    if RelationOf(e) == CREDITED_TO then d in s.stated && Asserts(voc, d, s.stated[d], e)
    else d in s.db.entities && Asserts(voc, d, s.db.entities[d].data, e)
  }

  ghost predicate OwnedRowsMatch(voc: Vocabulary, s: State) {
    forall e :: Owner(e).Some? && !Foreign(e) ==> (HasRow(s.db.graph, e) <==> Expected(voc, s, e))
  }

  ghost predicate SharedRowsPresent(voc: Vocabulary, s: State, reach: Reach) {
    forall d, e ::
      d in s.db.entities && Owner(e).None? && Counted(reach, e, d, s.db.entities[d].data) && Asserts(voc, d, s.db.entities[d].data, e) ==>
        HasRow(s.db.graph, e)
  }

  ghost predicate StatedIsLatest(s: State) {
    && (forall d :: d in s.stated ==> d in s.db.entities && d.table == RELEASES && StatesCompanies(s.stated[d]))
    && (forall d :: d in s.db.entities && d.table == RELEASES && StatesCompanies(s.db.entities[d].data) ==>
          d in s.stated && s.stated[d] == s.db.entities[d].data)
  }

  ghost predicate Mirrors(voc: Vocabulary, s: State, reach: Reach) {
    Keyed(s.db.graph) && OwnedRowsMatch(voc, s) && SharedRowsPresent(voc, s, reach) && StatedIsLatest(s)
  }

  // ---- a row written without changing content ---------------------------------------------

  /** What both paths do to one document, whatever they fill in around it. */
  ghost predicate Writes(s: State, t: State, table: Table, m: Message, change: Change) {
    var doc := DocId(table, m.id);
    var prior := Lookup(s.db.entities, doc);
    && change.doc == doc && OwnsItsRows(doc, change.graph)
    && doc in t.db.entities && t.db.entities == s.db.entities[doc := t.db.entities[doc]]
    && t.db.entities[doc].data == (if Unchanged(prior, m) then prior.value.data else m.data)
    && t.db.graph == (if Unchanged(prior, m) then s.db.graph else WriteChanges(s.db.graph, [change]))
    && t.stated == StatedWith(s.stated, table, prior, m)
  }

  lemma SameContentMirrors(voc: Vocabulary, reach: Reach, s: State, t: State)
    requires Mirrors(voc, s, reach) && t.db.graph == s.db.graph && t.stated == s.stated
    requires t.db.entities.Keys == s.db.entities.Keys
    requires forall d :: d in t.db.entities ==> t.db.entities[d].data == s.db.entities[d].data
    ensures Mirrors(voc, t, reach)
  {
    forall e | Owner(e).Some? && !Foreign(e) ensures HasRow(t.db.graph, e) <==> Expected(voc, t, e) {
      assert Expected(voc, t, e) <==> Expected(voc, s, e);
    }
  }

  // ---- a changed document keeps the mirror ------------------------------------------------

  lemma ExpectedOfChanged(voc: Vocabulary, t: State, doc: DocId, data: Document, e: Edge)
    requires Owner(e) == Some(doc) && doc in t.db.entities && t.db.entities[doc].data == data
    requires RelationOf(e) == CREDITED_TO ==> doc in t.stated && t.stated[doc] == data
    ensures Expected(voc, t, e) <==> Asserts(voc, doc, data, e)
  {
  }

  lemma RewrittenRowMatches(voc: Vocabulary, s: State, t: State, table: Table, m: Message, change: Change, e: Edge)
    requires Writes(s, t, table, m, change) && !Unchanged(Lookup(s.db.entities, DocId(table, m.id)), m)
    requires change.graph == Derive(voc, DocId(table, m.id), m.data)
    requires Replaces(change, e) && (RelationOf(e) == CREDITED_TO ==> table == RELEASES && StatesCompanies(m.data))
    ensures HasRow(t.db.graph, e) <==> Expected(voc, t, e)
  {
    RewrittenRows(s.db.graph, change, e);
    ExpectedOfChanged(voc, t, change.doc, m.data, e);
  }

  lemma ExpectedOfOther(voc: Vocabulary, s: State, t: State, e: Edge)
    requires Owner(e).Some?
    requires RelationOf(e) == CREDITED_TO ==> (Owner(e).value in s.stated <==> Owner(e).value in t.stated)
    requires RelationOf(e) == CREDITED_TO && Owner(e).value in t.stated ==> s.stated[Owner(e).value] == t.stated[Owner(e).value]
    requires RelationOf(e) != CREDITED_TO ==> Lookup(s.db.entities, Owner(e).value) == Lookup(t.db.entities, Owner(e).value)
    ensures Expected(voc, s, e) <==> Expected(voc, t, e)
  {
  }

  lemma OtherRowMatches(voc: Vocabulary, s: State, t: State, table: Table, m: Message, change: Change, e: Edge)
    requires Writes(s, t, table, m, change) && !Unchanged(Lookup(s.db.entities, DocId(table, m.id)), m)
    requires Owner(e).Some? && !Foreign(e) && !Replaces(change, e)
    requires Owner(e) == Some(change.doc) ==> RelationOf(e) == CREDITED_TO && !StatesCompanies(m.data)
    requires HasRow(s.db.graph, e) <==> Expected(voc, s, e)
    ensures HasRow(t.db.graph, e) <==> Expected(voc, t, e)
  {
    OtherRowsStay(s.db.graph, change, e);
    ExpectedOfOther(voc, s, t, e);
  }

  lemma ChangedRowMatches(voc: Vocabulary, s: State, t: State, table: Table, m: Message, change: Change, e: Edge)
    requires OwnedRowsMatch(voc, s) && Writes(s, t, table, m, change) && !Unchanged(Lookup(s.db.entities, DocId(table, m.id)), m)
    requires change.graph == Derive(voc, DocId(table, m.id), m.data)
    requires Owner(e).Some? && !Foreign(e)
    ensures HasRow(t.db.graph, e) <==> Expected(voc, t, e)
  {
    if Owner(e) == Some(change.doc) {
      WhatADocumentReplaces(voc, change.doc, m.data, e);
    }
    CreditsAreOfReleases(e);
    if Replaces(change, e) {
      RewrittenRowMatches(voc, s, t, table, m, change, e);
    } else {
      OtherRowMatches(voc, s, t, table, m, change, e);
    }
  }

  lemma ChangedRowsMatch(voc: Vocabulary, s: State, t: State, table: Table, m: Message, change: Change)
    requires OwnedRowsMatch(voc, s) && Writes(s, t, table, m, change) && !Unchanged(Lookup(s.db.entities, DocId(table, m.id)), m)
    requires change.graph == Derive(voc, DocId(table, m.id), m.data)
    ensures OwnedRowsMatch(voc, t)
  {
    forall e | Owner(e).Some? && !Foreign(e) ensures HasRow(t.db.graph, e) <==> Expected(voc, t, e) {
      ChangedRowMatches(voc, s, t, table, m, change, e);
    }
  }

  lemma CreditsAreOfReleases(e: Edge)
    ensures RelationOf(e) == CREDITED_TO ==> Owner(e).Some? && Owner(e).value.table == RELEASES
  {
  }

  lemma ChangedSharedRowsPresent(voc: Vocabulary, reach: Reach, s: State, t: State, table: Table, m: Message, change: Change)
    requires Keyed(s.db.graph) && SharedRowsPresent(voc, s, reach)
    requires Writes(s, t, table, m, change) && !Unchanged(Lookup(s.db.entities, DocId(table, m.id)), m)
    requires change.graph == Derive(voc, DocId(table, m.id), m.data)
    ensures SharedRowsPresent(voc, t, reach)
  {
    forall d, e | d in t.db.entities && Owner(e).None? && Counted(reach, e, d, t.db.entities[d].data)
                  && Asserts(voc, d, t.db.entities[d].data, e)
      ensures HasRow(t.db.graph, e)
    {
      SharedRowsAccumulate(s.db.graph, change, e);
      if d != change.doc {
        assert Asserts(voc, d, s.db.entities[d].data, e);
      }
    }
  }

  lemma WriteKeepsStated(s: State, t: State, table: Table, m: Message, change: Change)
    requires StatedIsLatest(s) && Writes(s, t, table, m, change)
    ensures StatedIsLatest(t)
  {
  }

  lemma WriteKeepsMirror(voc: Vocabulary, reach: Reach, s: State, t: State, table: Table, m: Message, change: Change)
    requires Mirrors(voc, s, reach) && Writes(s, t, table, m, change)
    requires change.graph == Derive(voc, DocId(table, m.id), m.data)
    ensures Mirrors(voc, t, reach)
  {
    if Unchanged(Lookup(s.db.entities, DocId(table, m.id)), m) {
      SameContentMirrors(voc, reach, s, t);
    } else {
      ChangeKeepsMirror(voc, reach, s, t, table, m, change);
    }
  }

  lemma ChangeKeepsMirror(voc: Vocabulary, reach: Reach, s: State, t: State, table: Table, m: Message, change: Change)
    requires Keyed(s.db.graph) && OwnedRowsMatch(voc, s) && SharedRowsPresent(voc, s, reach) && StatedIsLatest(s)
    requires Writes(s, t, table, m, change) && !Unchanged(Lookup(s.db.entities, DocId(table, m.id)), m)
    requires change.graph == Derive(voc, DocId(table, m.id), m.data)
    ensures Mirrors(voc, t, reach)
  {
    ChangeKeepsKeyed(s.db.graph, change);
    ChangedRowsMatch(voc, s, t, table, m, change);
    ChangedSharedRowsPresent(voc, reach, s, t, table, m, change);
    WriteKeepsStated(s, t, table, m, change);
  }

  lemma PersistWrites(s: State, table: Table, m: Message, ctx: Context, change: Change)
    requires ctx.resolve(DocId(table, m.id)).Some? && change == ChangeOf(ctx, table, m)
    ensures Writes(s, Apply(s, Single(table, m, ctx)), table, m, change)
  {
    ChangeOwnsItsRows(ctx, table, m);
    SingleIsPersist(s, table, m, ctx);
    PersistedWrites(s, Apply(s, Single(table, m, ctx)), table, m, ctx, change);
  }

  lemma SingleIsPersist(s: State, table: Table, m: Message, ctx: Context)
    requires ctx.resolve(DocId(table, m.id)).Some?
    ensures var prior := Lookup(s.db.entities, DocId(table, m.id));
            var t := Apply(s, Single(table, m, ctx));
            && t.db.entities == s.db.entities[DocId(table, m.id) := Persisted(ctx, table, prior, m)]
            && t.db.graph == (if Unchanged(prior, m) then s.db.graph else WriteChanges(s.db.graph, [ChangeOf(ctx, table, m)]))
            && t.stated == StatedWith(s.stated, table, prior, m)
  {
  }

  lemma PersistedWrites(s: State, t: State, table: Table, m: Message, ctx: Context, change: Change)
    requires var prior := Lookup(s.db.entities, DocId(table, m.id));
             && t.db.entities == s.db.entities[DocId(table, m.id) := Persisted(ctx, table, prior, m)]
             && t.db.graph == (if Unchanged(prior, m) then s.db.graph else WriteChanges(s.db.graph, [change]))
             && t.stated == StatedWith(s.stated, table, prior, m)
    requires change.doc == DocId(table, m.id) && OwnsItsRows(change.doc, change.graph)
    ensures Writes(s, t, table, m, change)
  {
  }

  function BatchState(s: State, table: Table, ctx: Context, latest: seq<Message>): State {
    State(WriteBatch(ctx, table, s.db, latest), StatedAfter(s.stated, table, s.db.entities, latest))
  }

  lemma BatchWritesOneByOne(s: State, table: Table, ctx: Context, init: seq<Message>, last: Message, change: Change)
    requires OnePerDocument(init + [last]) && change == ChangeOf(ctx, table, last)
    ensures Writes(BatchState(s, table, ctx, init), BatchState(s, table, ctx, init + [last]), table, last, change)
  {
    assert (init + [last])[..|init|] == init;
    EntitiesOneByOne(ctx, table, s.db.entities, init, last);
    GraphOneByOne(ctx, table, s.db, init, last);
    ChangeOwnsItsRows(ctx, table, last);
  }

  lemma {:induction false} BatchKeepsMirror(reach: Reach, s: State, table: Table, ctx: Context, latest: seq<Message>)
    requires Mirrors(ctx.voc, s, reach) && OnePerDocument(latest)
    ensures Mirrors(ctx.voc, BatchState(s, table, ctx, latest), reach)
  {
    if latest == [] {
      NothingWritten(s.db.graph);
      assert BatchEntities(ctx, table, s.db.entities, []) == s.db.entities;
    } else {
      var init, last := latest[..|latest| - 1], latest[|latest| - 1];
      assert latest == init + [last];
      LastIsNew(init, last);
      BatchKeepsMirror(reach, s, table, ctx, init);
      BatchWritesOneByOne(s, table, ctx, init, last, ChangeOf(ctx, table, last));
      WriteKeepsMirror(ctx.voc, reach, BatchState(s, table, ctx, init), BatchState(s, table, ctx, latest), table, last, ChangeOf(ctx, table, last));
    }
  }

  // ---- a purge keeps the mirror -----------------------------------------------------------

  lemma PurgedRow(s: State, table: Table, started: StartedAt, count: Option<nat>, cap: real, e: Edge)
    requires Keyed(s.db.graph)
    ensures var after := PurgeStale(s.db, table, started, count, cap);
            HasRow(after.graph, e) <==>
              HasRow(s.db.graph, e) && (Foreign(e) || Owner(e).None? || Owner(e).value in after.entities || Owner(e).value !in s.db.entities)
  {
    PurgeIsExact(s.db, table, started, count, cap);
    KeysKeepOwners(e);
  }

  lemma PurgeKeepsMirror(voc: Vocabulary, reach: Reach, s: State, event: Event)
    requires Mirrors(voc, s, reach) && event.PurgeRun?
    ensures Mirrors(voc, Apply(s, event), reach)
  {
    var t := Apply(s, event);
    PurgeIsExact(s.db, event.table, event.started, event.count, event.cap);
    forall e | Owner(e).Some? && !Foreign(e) ensures HasRow(t.db.graph, e) <==> Expected(voc, t, e) {
      PurgedRow(s, event.table, event.started, event.count, event.cap, e);
      assert HasRow(s.db.graph, e) <==> Expected(voc, s, e);
    }
    forall d, e | d in t.db.entities && Owner(e).None? && Counted(reach, e, d, t.db.entities[d].data)
                  && Asserts(voc, d, t.db.entities[d].data, e)
      ensures HasRow(t.db.graph, e)
    {
      PurgedRow(s, event.table, event.started, event.count, event.cap, e);
      assert Asserts(voc, d, s.db.entities[d].data, e);
    }
  }

  // ---- a reconciliation pass keeps the mirror ---------------------------------------------

  lemma PassKeepsSharedRow(voc: Vocabulary, db: Database, relation: EdgeRelation, d: DocId, e: Edge)
    requires Keyed(db.graph) && Additive(relation) && Owner(e).None?
    requires d in db.entities && d.id != "" && Qualifies(RelationOf(e), db.entities[d].data) && Asserts(voc, d, db.entities[d].data, e)
    requires RelationOf(e) != relation ==> HasRow(db.graph, e)
    ensures RelationOf(e) == relation && Stored(db.entities, SourceTable(relation)) ==> HasRow(Reconciled(voc, db, relation).graph, e)
    ensures RelationOf(e) != relation ==> HasRow(Reconciled(voc, db, relation).graph, e)
  {
    if Stored(db.entities, SourceTable(relation)) {
      if RelationOf(e) == relation {
        OnlyTheSourceTableAsserts(voc, relation, d, db.entities[d].data, e);
        QualifiedIsReached(voc, db.entities, relation, d, e);
        RowAfterPass(voc, db, relation, e);
      } else {
        RowsAfterPass(voc, db, relation, e);
      }
    }
  }

  lemma QualifiedIsReached(voc: Vocabulary, entities: map<DocId, Entity>, relation: EdgeRelation, d: DocId, e: Edge)
    requires d in entities && d.id != "" && d.table == SourceTable(relation) && Qualifies(relation, entities[d].data)
    requires Asserts(voc, d, entities[d].data, e)
    ensures SomeReachedAsserts(voc, entities, relation, e)
  {
    assert d == DocId(SourceTable(relation), d.id);
    assert d.id in Reached(entities, relation) && ReachedAsserts(voc, entities, relation, d.id, e);
  }

  function Passed(voc: Vocabulary, s: State, relation: EdgeRelation): State {
    State(Reconciled(voc, s.db, relation), s.stated)
  }

  lemma PassKeepsOwnedRows(voc: Vocabulary, s: State, relation: EdgeRelation, e: Edge)
    requires Keyed(s.db.graph) && Additive(relation) && Owner(e).Some?
    ensures HasRow(Passed(voc, s, relation).db.graph, e) <==> HasRow(s.db.graph, e)
  {
    OwnedOrAdditive(e);
    if Stored(s.db.entities, SourceTable(relation)) {
      RowsAfterPass(voc, s.db, relation, e);
    }
  }

  lemma PassKeepsSharedRows(voc: Vocabulary, s: State, relation: EdgeRelation)
    requires Keyed(s.db.graph) && Additive(relation) && SharedRowsPresent(voc, s, ReachedDocuments)
    ensures SharedRowsPresent(voc, Passed(voc, s, relation), ReachedDocuments)
  {
    var t := Passed(voc, s, relation);
    forall d, e | d in t.db.entities && Owner(e).None? && Counted(ReachedDocuments, e, d, t.db.entities[d].data)
                  && Asserts(voc, d, t.db.entities[d].data, e)
      ensures HasRow(t.db.graph, e)
    {
      assert HasRow(s.db.graph, e);
      PassKeepsSharedRow(voc, s.db, relation, d, e);
    }
  }

  lemma PassKeepsMirror(voc: Vocabulary, s: State, relation: EdgeRelation)
    requires Mirrors(voc, s, ReachedDocuments) && Additive(relation)
    ensures Mirrors(voc, Passed(voc, s, relation), ReachedDocuments)
  {
    var t := Passed(voc, s, relation);
    PassKeepsKeyed(voc, s.db, relation);
    PassKeepsSharedRows(voc, s, relation);
    forall e | Owner(e).Some? && !Foreign(e) ensures HasRow(t.db.graph, e) <==> Expected(voc, t, e) {
      PassKeepsOwnedRows(voc, s, relation, e);
      assert Expected(voc, t, e) <==> Expected(voc, s, e);
    }
  }

  // ---- whole histories --------------------------------------------------------------------

  lemma EventKeepsMirror(voc: Vocabulary, reach: Reach, s: State, event: Event)
    requires Mirrors(voc, s, reach) && Under(voc, reach, event)
    ensures Mirrors(voc, Apply(s, event), reach)
  {
    match event
    case Batch(table, messages, ctx) =>
      LatestIsTheLastOfEach(messages);
      BatchKeepsMirror(reach, s, table, ctx, Latest(messages));
    case Single(table, m, ctx) =>
      if ctx.resolve(DocId(table, m.id)).Some? {
        PersistWrites(s, table, m, ctx, ChangeOf(ctx, table, m));
        WriteKeepsMirror(voc, reach, s, Apply(s, event), table, m, ChangeOf(ctx, table, m));
      }
    case PurgeRun(_, _, _, _) =>
      PurgeKeepsMirror(voc, reach, s, event);
    case ReconcileRun(_) =>
      PassKeepsMirror(voc, s, MEMBER_OF);
      PassKeepsMirror(voc, Passed(voc, s, MEMBER_OF), SAME_AS);
  }

  lemma {:induction false} HistoryKeepsMirror(voc: Vocabulary, reach: Reach, s: State, events: seq<Event>)
    requires Mirrors(voc, s, reach) && forall i :: 0 <= i < |events| ==> Under(voc, reach, events[i])
    ensures Mirrors(voc, Run(s, events), reach)
  {
    if events != [] {
      HistoryKeepsMirror(voc, reach, s, events[..|events| - 1]);
      EventKeepsMirror(voc, reach, Run(s, events[..|events| - 1]), events[|events| - 1]);
    }
  }
}
