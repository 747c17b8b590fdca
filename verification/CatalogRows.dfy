/**
  Single events on the columns themselves: which rows a write rewrites, adds or leaves, which
  payload of a batch counts, and what a pass leaves, stated on the tables and the JSON alone.
 */
module CatalogRows {
  import opened Wrappers
  import opened Rows
  import opened Derivation
  import DocumentSays
  import opened KeyedTables
  import opened GraphWrites
  import opened Catalog
  import opened Purge
  import opened Reconcile
  import opened ReconcileFacts
  import opened CatalogHistory
  import opened CatalogGuarantees

  // ---- keys -------------------------------------------------------------------------------

  /** Two rows of one relation with equal key columns; the rest is category, quantity or printed position. */
  ghost predicate SameKey(a: Edge, b: Edge) {
    match a
    case CreditedTo(release, company, role, _, source) =>
      b.CreditedTo? && b.releaseId == release && b.companyId == company && b.role == role && b.source == source
    case IssuedOn(release, medium, source, _) =>
      b.IssuedOn? && b.releaseId == release && b.mediumId == medium && b.source == source
    case TrackCreditedOn(person, release, track, subTrack, _, role) =>
      b.TrackCreditedOn? && b.person == person && b.releaseId == release && b.track == track && b.subTrack == subTrack && b.role == role
    case TrackByArtist(release, track, subTrack, _, artist) =>
      b.TrackByArtist? && b.releaseId == release && b.track == track && b.subTrack == subTrack && b.artistId == artist
    case _ => a == b
  }

  lemma KeysByColumn(a: Edge, b: Edge)
    ensures EdgeKey(a) == EdgeKey(b) <==> SameKey(a, b)
  {
  }

  ghost predicate InTable(g: Graph, e: Edge) {
    exists k :: k in g.edges && g.edges[k] == e
  }

  /** After any history no two rows of a table share a key, and a row is found under its key. */
  lemma TablesHoldOneRowPerKey(voc: Vocabulary, reach: Reach, s: State, events: seq<Event>, a: Edge, b: Edge)
    requires Mirrors(voc, s, reach) && forall i :: 0 <= i < |events| ==> Under(voc, reach, events[i])
    ensures var g := Run(s, events).db.graph;
            (InTable(g, a) <==> HasRow(g, a)) && (InTable(g, a) && InTable(g, b) && SameKey(a, b) ==> a == b)
  {
    HistoryKeepsMirror(voc, reach, s, events);
    KeysByColumn(a, b);
  }

  // ---- which payload of a batch counts ----------------------------------------------------

  /** The payload of a document with no later one in the batch. */
  ghost predicate IsLast(messages: seq<Message>, m: Message) {
    exists i :: 0 <= i < |messages| && messages[i] == m && forall j :: i < j < |messages| ==> messages[j].id != m.id
  }

  lemma IsLastAppend(init: seq<Message>, last: Message, m: Message)
    ensures IsLast(init + [last], m) <==> if last.id == m.id then last == m else IsLast(init, m)
  {
    var messages := init + [last];
    if last == m {
      assert messages[|init|] == m;
    }
    if i :| 0 <= i < |messages| && messages[i] == m && forall j :: i < j < |messages| ==> messages[j].id != m.id {
      if i < |init| {
        assert messages[|init|].id != m.id;
        assert init[i] == m && forall j :: i < j < |init| ==> init[j] == messages[j];
      }
    }
    if last.id != m.id && IsLast(init, m) {
      var i :| 0 <= i < |init| && init[i] == m && forall j :: i < j < |init| ==> init[j].id != m.id;
      assert messages[i] == m && forall j :: i < j < |init| ==> messages[j] == init[j];
    }
  }

  lemma {:induction false} MessageForIsTheLast(messages: seq<Message>, m: Message)
    ensures MessageFor(messages, m.id) == Some(m) <==> IsLast(messages, m)
  {
    if messages != [] {
      var init, last := messages[..|messages| - 1], messages[|messages| - 1];
      assert messages == init + [last];
      MessageForIsTheLast(init, m);
      IsLastAppend(init, last, m);
    }
  }

  /** Deduplication keeps exactly the last payloads. */
  lemma LatestAreTheLasts(messages: seq<Message>, m: Message)
    ensures m in Latest(messages) <==> IsLast(messages, m)
  {
    LatestIsTheLastOfEach(messages);
    MessageForIsTheLast(messages, m);
    if IsLast(messages, m) {
      SameMessageFor(messages, m.id);
    }
  }

  /** One id appears in the messages before the other does. */
  ghost predicate AppearsBefore(messages: seq<Message>, first: string, second: string) {
    exists p :: 0 <= p < |messages| && messages[p].id == first && forall q :: 0 <= q <= p ==> messages[q].id != second
  }

  lemma AppearsBeforeStays(init: seq<Message>, last: Message, first: string, second: string)
    requires AppearsBefore(init, first, second)
    ensures AppearsBefore(init + [last], first, second)
  {
    var messages := init + [last];
    var p :| 0 <= p < |init| && init[p].id == first && forall q :: 0 <= q <= p ==> init[q].id != second;
    assert messages[p].id == first && forall q :: 0 <= q <= p ==> messages[q] == init[q];
  }

  lemma LatestIds(init: seq<Message>, last: Message)
    ensures var kept, latest := Latest(init), Latest(init + [last]);
            && |kept| <= |latest| <= |kept| + 1
            && (forall i :: 0 <= i < |kept| ==> latest[i].id == kept[i].id && kept[i].id in IdsOf(kept))
            && (|latest| > |kept| ==> latest[|kept|].id == last.id && last.id !in IdsOf(kept))
  {
    assert (init + [last])[..|init|] == init;
  }

  /** And keeps their documents in the order they first appear in. */
  lemma {:induction false} LatestKeepsFirstPlaces(messages: seq<Message>)
    ensures forall i, j :: 0 <= i < j < |Latest(messages)| ==> AppearsBefore(messages, Latest(messages)[i].id, Latest(messages)[j].id)
  {
    if messages != [] {
      var init, last := messages[..|messages| - 1], messages[|messages| - 1];
      var kept, latest := Latest(init), Latest(messages);
      assert messages == init + [last];
      LatestKeepsFirstPlaces(init);
      LatestIsTheLastOfEach(init);
      LatestIds(init, last);
      forall i, j | 0 <= i < j < |latest| ensures AppearsBefore(messages, latest[i].id, latest[j].id) {
        if j == |kept| {
          NewIdIsLast(init, kept[i].id, last.id);
        }
        AppearsBeforeStays(init, last, latest[i].id, latest[j].id);
      }
    }
  }

  lemma NewIdIsLast(init: seq<Message>, first: string, second: string)
    requires first in IdsOf(init) && second !in IdsOf(init)
    ensures AppearsBefore(init, first, second)
  {
    var m :| m in init && m.id == first;
    var p :| 0 <= p < |init| && init[p] == m;
    forall q | 0 <= q <= p ensures init[q].id != second {
      assert init[q] in init;
    }
  }

  /** The event commits, and this is the last payload it carries for that document. */
  ghost predicate Delivers(event: Event, table: Table, m: Message) {
    match event
    case Batch(t, messages, ctx) => t == table && IsLast(messages, m) && forall x :: x in messages ==> ctx.resolve(DocId(t, x.id)).Some?
    case Single(t, x, ctx) => t == table && x == m && ctx.resolve(DocId(t, x.id)).Some?
    case PurgeRun(_, _, _, _) => false
    case ReconcileRun(_) => false
  }

  /** Delivered under another hash than the stored one. */
  ghost predicate Rewrites(s: State, event: Event, table: Table, m: Message) {
    Delivers(event, table, m) && (DocId(table, m.id) in s.db.entities ==> s.db.entities[DocId(table, m.id)].hash != m.sha)
  }

  /** One document without a native identity, and the whole event writes nothing. */
  lemma AnUnresolvedDocumentWritesNothing(s: State, event: Event, m: Message)
    requires (event.Batch? && m in event.messages) || (event.Single? && m == event.message)
    requires event.ctx.resolve(DocId(event.table, m.id)).None?
    ensures Apply(s, event) == s
  {
    if event.Batch? {
      LatestIsTheLastOfEach(event.messages);
      assert m.id in IdsOf(event.messages);
      var kept :| kept in Latest(event.messages) && kept.id == m.id;
    }
  }

  /** Every document the event carries has a native identity. */
  ghost predicate Commits(event: Event) {
    match event
    case Batch(table, messages, ctx) => forall m :: m in messages ==> ctx.resolve(DocId(table, m.id)).Some?
    case Single(table, m, ctx) => ctx.resolve(DocId(table, m.id)).Some?
    case PurgeRun(_, _, _, _) => false
    case ReconcileRun(_) => false
  }

  // ---- the entity rows --------------------------------------------------------------------

  lemma DeliversIsDelivered(event: Event, table: Table, m: Message)
    requires Delivers(event, table, m)
    ensures Delivered(event, DocId(table, m.id)) == Some(m)
    ensures event.Batch? || event.Single?
    ensures event.Batch? ==> Resolved(event.ctx, event.table, event.messages)
    ensures event.Single? ==> Wrote(State(Database(map[], Graph(map[], map[])), map[]), event, DocId(table, m.id))
  {
    if event.Batch? {
      MessageForIsTheLast(event.messages, m);
    }
  }

  /** Every column of a delivered row, by either path. */
  lemma ADeliveredRowByColumn(s: State, event: Event, table: Table, m: Message)
    requires Delivers(event, table, m)
    ensures var d, ctx := DocId(table, m.id), event.ctx;
            && d in Apply(s, event).db.entities
            && var row := Apply(s, event).db.entities[d];
               && row.hash == m.sha && row.updatedAt == ctx.now
               && if d in s.db.entities && s.db.entities[d].hash == m.sha then
                    var prior := s.db.entities[d];
                    && row.data == prior.data
                    && (row.media == if table == RELEASES && prior.media.None? then Some(ctx.voc.mediaForRelease(m.data)) else prior.media)
                    && (row.item == if event.Batch? && prior.item.Some? then prior.item else ctx.resolve(d))
                  else
                    && row.data == m.data
                    && (table == RELEASES ==> row.media == Some(ctx.voc.mediaForRelease(m.data)))
                    && (table != RELEASES ==> row.media == if d in s.db.entities then s.db.entities[d].media else None)
                    && row.item == ctx.resolve(d)
  {
    DeliversIsDelivered(event, table, m);
    if event.Batch? {
      LatestIsTheLastOfEach(event.messages);
      LatestResolved(event.ctx, table, event.messages);
      SameMessageFor(event.messages, m.id);
      EntityAfterBatch(event.ctx, table, s.db.entities, Latest(event.messages), DocId(table, m.id));
    }
  }

  /** A document no payload of a committed write names keeps its row as it is. */
  lemma UndeliveredRowsStay(s: State, event: Event, d: DocId)
    requires Commits(event) && forall m: Message :: m.id == d.id ==> !Delivers(event, d.table, m)
    ensures Lookup(Apply(s, event).db.entities, d) == Lookup(s.db.entities, d)
  {
    AWriteLeavesRowsComplete(s, event, d);
    if Delivered(event, d).Some? {
      var m := Delivered(event, d).value;
      if event.Batch? {
        MessageForIsTheLast(event.messages, m);
      }
      assert Delivers(event, d.table, m);
    }
  }

  // ---- the rows of a document -------------------------------------------------------------

  lemma ExpectedOfStored(voc: Vocabulary, t: State, d: DocId, e: Edge)
    requires StatedIsLatest(t) && d in t.db.entities && Owner(e) == Some(d)
    requires e.CreditedTo? ==> StatesCompanies(t.db.entities[d].data)
    ensures Expected(voc, t, e) <==> Asserts(voc, d, t.db.entities[d].data, e)
  {
    CreditsAreOfReleases(e);
    if e.CreditedTo? {
      assert d in t.stated;
    }
    ExpectedOfChanged(voc, t, d, t.db.entities[d].data, e);
  }

  /** A changed document's rows are what it now says, company credits included when it states its companies. */
  lemma ARewrittenDocumentHasItsRows(voc: Vocabulary, reach: Reach, s: State, event: Event, table: Table, m: Message, e: Edge)
    requires Mirrors(voc, s, reach) && Under(voc, reach, event) && Rewrites(s, event, table, m)
    requires IsRowOf(e, DocId(table, m.id))
    requires e.CreditedTo? ==> "companies" in m.data && m.data["companies"].JObject?
    ensures HasRow(Apply(s, event).db.graph, e) <==> DocumentSays.Says(voc, DocId(table, m.id), m.data, e)
  {
    RowsByScopeColumn(e, DocId(table, m.id));
    EventKeepsMirror(voc, reach, s, event);
    ADeliveredRowByColumn(s, event, table, m);
    ExpectedOfStored(voc, Apply(s, event), DocId(table, m.id), e);
    DocumentSays.DerivationIsExact(voc, DocId(table, m.id), m.data, e);
  }

  lemma {:induction false} StatedStays(stated: map<DocId, Document>, table: Table, before: map<DocId, Entity>, messages: seq<Message>, d: DocId)
    requires forall m :: m in messages && d == DocId(table, m.id) ==> Unchanged(Lookup(before, d), m) || !StatesCompanies(m.data)
    ensures var after := StatedAfter(stated, table, before, messages);
            (d in after <==> d in stated) && (d in stated ==> after[d] == stated[d])
  {
    if messages != [] {
      StatedStays(stated, table, before, messages[..|messages| - 1], d);
      assert messages[|messages| - 1] in messages;
    }
  }

  /** Nothing the event carries rewrites the document in a way that touches the row. */
  ghost predicate LeavesRow(s: State, event: Event, d: DocId, e: Edge) {
    forall m: Message :: m.id == d.id && Rewrites(s, event, d.table, m) ==>
      e.CreditedTo? && !("companies" in m.data && m.data["companies"].JObject?)
  }

  lemma StatedAfterWrite(s: State, event: Event, d: DocId, e: Edge)
    requires Commits(event) && LeavesRow(s, event, d, e)
    ensures var t := Apply(s, event);
            (d in t.stated <==> d in s.stated) && (d in s.stated ==> t.stated[d] == s.stated[d])
  {
    match event
    case Batch(table, messages, ctx) =>
      LatestResolved(ctx, table, messages);
      forall m | m in Latest(messages) && d == DocId(table, m.id) ensures Unchanged(Lookup(s.db.entities, d), m) || !StatesCompanies(m.data) {
        LatestAreTheLasts(messages, m);
        assert Delivers(event, d.table, m);
      }
      StatedStays(s.stated, table, s.db.entities, Latest(messages), d);
    case Single(table, m, ctx) =>
      if d == DocId(table, m.id) {
        assert Delivers(event, d.table, m);
      }
  }

  lemma DataAfterWrite(s: State, event: Event, d: DocId)
    requires Commits(event) && forall m: Message :: m.id == d.id ==> !Rewrites(s, event, d.table, m)
    ensures var t := Apply(s, event);
            (d in t.db.entities <==> d in s.db.entities) && (d in s.db.entities ==> t.db.entities[d].data == s.db.entities[d].data)
  {
    AWriteLeavesRowsComplete(s, event, d);
    if Delivered(event, d).Some? {
      var m := Delivered(event, d).value;
      if event.Batch? {
        MessageForIsTheLast(event.messages, m);
      }
      assert Delivers(event, d.table, m);
      ADeliveredRowByColumn(s, event, d.table, m);
    }
  }

  /** A write leaves every other row of a document alone, and the company credits of one that states none. */
  lemma AWriteLeavesOtherRows(voc: Vocabulary, reach: Reach, s: State, event: Event, d: DocId, e: Edge)
    requires Mirrors(voc, s, reach) && Under(voc, reach, event) && Commits(event)
    requires IsRowOf(e, d) && LeavesRow(s, event, d, e)
    ensures HasRow(Apply(s, event).db.graph, e) <==> HasRow(s.db.graph, e)
  {
    RowsByScopeColumn(e, d);
    EventKeepsMirror(voc, reach, s, event);
    StatedAfterWrite(s, event, d, e);
    if !e.CreditedTo? {
      DataAfterWrite(s, event, d);
      assert Lookup(s.db.entities, d).Some? <==> Lookup(Apply(s, event).db.entities, d).Some?;
    }
    assert Expected(voc, Apply(s, event), e) <==> Expected(voc, s, e);
  }

  // ---- the rows no document owns ----------------------------------------------------------

  lemma SharedRowAfterWrite(g: Graph, changes: seq<Change>, e: Edge)
    requires Keyed(g) && Writable(changes) && Owner(e).None?
    ensures HasRow(WriteChanges(g, changes), e) <==> HasRow(g, e) || e in AllEdges(changes)
  {
    KeysKeepOwners(e);
    EdgeAfterWrite(g, changes, EdgeKey(e));
    BatchHasOneRowPerKey(changes);
    FirstIsTheOnly(AllEdges(changes), e);
    FirstWithIsARow(AllEdges(changes), EdgeKey, EdgeKey(e));
    if EdgeKey(e) in g.edges {
      SharedRowIsItsKey(g.edges[EdgeKey(e)], e);
    }
  }

  ghost predicate RewritesSaying(voc: Vocabulary, s: State, event: Event, table: Table, m: Message, e: Edge) {
    Rewrites(s, event, table, m) && DocumentSays.Says(voc, DocId(table, m.id), m.data, e)
  }

  lemma GatedAreRewritten(s: State, table: Table, messages: seq<Message>, ctx: Context, m: Message)
    requires Resolved(ctx, table, messages)
    ensures m in Gated(table, s.db.entities, Latest(messages)) <==> Rewrites(s, Batch(table, messages, ctx), table, m)
  {
    GatedAreChanged(table, s.db.entities, Latest(messages));
    LatestAreTheLasts(messages, m);
  }

  lemma ChangeSays(ctx: Context, table: Table, documents: seq<Message>, e: Edge)
    ensures e in AllEdges(ChangesIn(ctx, table, documents))
       <==> exists m :: m in documents && DocumentSays.Says(ctx.voc, DocId(table, m.id), m.data, e)
  {
    var changes := ChangesIn(ctx, table, documents);
    DerivedByOne(changes, e);
    forall i | 0 <= i < |documents|
      ensures e in changes[i].graph.edges <==> DocumentSays.Says(ctx.voc, DocId(table, documents[i].id), documents[i].data, e)
    {
      DocumentSays.DerivationIsExact(ctx.voc, DocId(table, documents[i].id), documents[i].data, e);
    }
    if m :| m in documents && DocumentSays.Says(ctx.voc, DocId(table, m.id), m.data, e) {
      var i :| 0 <= i < |documents| && documents[i] == m;
      assert e in changes[i].graph.edges;
    }
  }

  lemma DerivedInBatch(s: State, table: Table, messages: seq<Message>, ctx: Context, e: Edge)
    requires Resolved(ctx, table, messages)
    ensures e in AllEdges(ChangesOf(ctx, table, s.db.entities, Latest(messages)))
       <==> exists m :: RewritesSaying(ctx.voc, s, Batch(table, messages, ctx), table, m, e)
  {
    var documents := Gated(table, s.db.entities, Latest(messages));
    ChangeSays(ctx, table, documents, e);
    forall m ensures m in documents <==> Rewrites(s, Batch(table, messages, ctx), table, m) {
      GatedAreRewritten(s, table, messages, ctx, m);
    }
    if m :| m in documents && DocumentSays.Says(ctx.voc, DocId(table, m.id), m.data, e) {
      assert RewritesSaying(ctx.voc, s, Batch(table, messages, ctx), table, m, e);
    }
  }

  lemma ASingleOnlyAdds(s: State, table: Table, m: Message, ctx: Context, e: Edge)
    requires Keyed(s.db.graph) && ctx.resolve(DocId(table, m.id)).Some? && Owner(e).None?
    ensures HasRow(Apply(s, Single(table, m, ctx)).db.graph, e)
       <==> HasRow(s.db.graph, e) || RewritesSaying(ctx.voc, s, Single(table, m, ctx), table, m, e)
  {
    SingleIsPersist(s, table, m, ctx);
    ChangeOwnsItsRows(ctx, table, m);
    DocumentSays.DerivationIsExact(ctx.voc, DocId(table, m.id), m.data, e);
    SharedRowsAccumulate(s.db.graph, ChangeOf(ctx, table, m), e);
  }

  lemma ABatchOnlyAdds(s: State, table: Table, messages: seq<Message>, ctx: Context, e: Edge)
    requires Keyed(s.db.graph) && Resolved(ctx, table, messages) && Owner(e).None?
    ensures HasRow(Apply(s, Batch(table, messages, ctx)).db.graph, e)
       <==> HasRow(s.db.graph, e) || exists m :: RewritesSaying(ctx.voc, s, Batch(table, messages, ctx), table, m, e)
  {
    LatestIsTheLastOfEach(messages);
    LatestResolved(ctx, table, messages);
    ChangesAreWritable(ctx, table, s.db.entities, Latest(messages));
    SharedRowAfterWrite(s.db.graph, ChangesOf(ctx, table, s.db.entities, Latest(messages)), e);
    DerivedInBatch(s, table, messages, ctx, e);
  }

  /** Memberships and identities are only ever added by writes: those of the rewritten documents. */
  lemma AWriteOnlyAddsSharedRows(s: State, event: Event, e: Edge)
    requires Keyed(s.db.graph) && Commits(event) && (e.MemberOf? || e.SameAs?)
    ensures HasRow(Apply(s, event).db.graph, e)
       <==> HasRow(s.db.graph, e) || exists m :: RewritesSaying(event.ctx.voc, s, event, event.table, m, e)
  {
    match event
    case Batch(table, messages, ctx) => ABatchOnlyAdds(s, table, messages, ctx, e);
    case Single(table, m, ctx) => ASingleOnlyAdds(s, table, m, ctx, e);
  }

  // ---- vertex rows ------------------------------------------------------------------------

  /** A vertex row, once written, keeps its columns through every event. */
  lemma VertexRowStays(s: State, event: Event, k: Vertex)
    requires k in s.db.graph.vertices
    ensures k in Apply(s, event).db.graph.vertices && Apply(s, event).db.graph.vertices[k] == s.db.graph.vertices[k]
  {
    match event
    case Batch(table, messages, ctx) =>
      InsertAllAt(s.db.graph.vertices, AllVertices(ChangesOf(ctx, table, s.db.entities, Latest(messages))), VertexKey, k);
    case Single(table, m, ctx) =>
      InsertAllAt(s.db.graph.vertices, AllVertices([ChangeOf(ctx, table, m)]), VertexKey, k);
    case PurgeRun(table, started, count, cap) => PurgeIsExact(s.db, table, started, count, cap);
    case ReconcileRun(_) =>
  }

  /** Rows of one vertex table share a key exactly when their first columns are equal. */
  lemma VertexKeysByColumn(v: Vertex, w: Vertex)
    ensures VertexKey(v) == VertexKey(w)
       <==> || (v.Genre? && w.Genre? && v.name == w.name) || (v.Style? && w.Style? && v.name == w.name)
            || (v.Person? && w.Person? && v.name == w.name) || (v.MediaFamily? && w.MediaFamily? && v.name == w.name)
            || (v.Medium? && w.Medium? && v.mediumId == w.mediumId) || (v.Company? && w.Company? && v.companyId == w.companyId)
  {
  }

  ghost predicate FirstUnder(rows: seq<Vertex>, k: Vertex, v: Vertex) {
    exists i :: 0 <= i < |rows| && rows[i] == v && VertexKey(v) == k && forall j :: 0 <= j < i ==> VertexKey(rows[j]) != k
  }

  lemma {:induction false} FirstWithIsFirst(rows: seq<Vertex>, k: Vertex, v: Vertex)
    requires FirstWith(rows, VertexKey, k) == Some(v)
    ensures FirstUnder(rows, k, v)
  {
    if VertexKey(rows[0]) != k {
      FirstWithIsFirst(rows[1..], k, v);
      var i :| 0 <= i < |rows[1..]| && rows[1..][i] == v && VertexKey(v) == k && forall j :: 0 <= j < i ==> VertexKey(rows[1..][j]) != k;
      forall j | 0 <= j < i + 1 ensures VertexKey(rows[j]) != k {
        assert j > 0 ==> rows[j] == rows[1..][j - 1];
      }
      assert rows[i + 1] == v;
    }
  }

  /** A new vertex row takes its columns from the first row of that key the document derives. */
  lemma NewVertexIsFirstSpelling(s: State, table: Table, m: Message, ctx: Context, k: Vertex)
    requires k !in s.db.graph.vertices && k in Apply(s, Single(table, m, ctx)).db.graph.vertices
    ensures FirstUnder(Derive(ctx.voc, DocId(table, m.id), m.data).vertices, k, Apply(s, Single(table, m, ctx)).db.graph.vertices[k])
  {
    var change := ChangeOf(ctx, table, m);
    OneChange(change, MemberOf("", ""));
    InsertAllAt(s.db.graph.vertices, change.graph.vertices, VertexKey, k);
    FirstWithIsFirst(change.graph.vertices, k, FirstWith(change.graph.vertices, VertexKey, k).value);
  }

  /** Across a whole history, the first spelling of a vertex stays. */
  lemma {:induction false} FirstSpellingStays(s: State, events: seq<Event>, k: Vertex)
    requires k in s.db.graph.vertices
    ensures k in Run(s, events).db.graph.vertices && Run(s, events).db.graph.vertices[k] == s.db.graph.vertices[k]
  {
    if events != [] {
      FirstSpellingStays(s, events[..|events| - 1], k);
      VertexRowStays(Run(s, events[..|events| - 1]), events[|events| - 1], k);
    }
  }

  // ---- what a pass leaves -----------------------------------------------------------------

  lemma MatchingIsSaying(voc: Vocabulary, entities: map<DocId, Entity>, g: Graph, relation: EdgeRelation, e: Edge)
    requires MatchesCatalog(voc, entities, g, relation) && RelationOf(e) == relation
    ensures HasRow(g, e) <==> SomeStoredSays(voc, entities, e)
  {
    AssertingIsSaying(voc, entities, e);
  }

  lemma MembershipsMatchAfterBoth(voc: Vocabulary, s: State)
    requires Keyed(s.db.graph) && HaveIds(s.db.entities) && Stored(s.db.entities, ARTISTS)
    ensures MatchesCatalog(voc, s.db.entities, ReconcileAll(voc, s.db).graph, MEMBER_OF)
  {
    assert DocId(ARTISTS, "") !in s.db.entities;
    MembershipsAreExact(voc, s.db);
    PassKeepsKeyed(voc, s.db, MEMBER_OF);
    SecondPassKeepsFirst(voc, s);
  }

  lemma MembershipsAfterBoth(voc: Vocabulary, s: State, e: Edge)
    requires Keyed(s.db.graph) && HaveIds(s.db.entities) && Stored(s.db.entities, ARTISTS) && e.MemberOf?
    ensures HasRow(ReconcileAll(voc, s.db).graph, e) <==> SomeStoredSays(voc, s.db.entities, e)
  {
    MembershipsMatchAfterBoth(voc, s);
    MatchingIsSaying(voc, s.db.entities, ReconcileAll(voc, s.db).graph, MEMBER_OF, e);
  }

  lemma APassIsBoth(voc: Vocabulary, s: State)
    ensures Apply(s, ReconcileRun(voc)).db == ReconcileAll(voc, s.db)
  {
  }

  /** With an artist stored, a pass leaves the memberships some stored document says. */
  lemma APassLeavesMemberships(voc: Vocabulary, s: State, e: Edge)
    requires Keyed(s.db.graph) && HaveIds(s.db.entities) && e.MemberOf?
    requires exists d :: d in s.db.entities && d.table == ARTISTS
    ensures HasRow(Apply(s, ReconcileRun(voc)).db.graph, e) <==> SomeStoredSays(voc, s.db.entities, e)
  {
    APassIsBoth(voc, s);
    MembershipsAfterBoth(voc, s, e);
  }

  /** A stored release with release-level credits that says the identity. */
  ghost predicate ReadAndSays(voc: Vocabulary, entities: map<DocId, Entity>, d: DocId, e: Edge) {
    && d in entities && DocumentSays.Says(voc, d, entities[d].data, e)
    && var data := entities[d].data;
       "extraartists" in data && data["extraartists"].JArray? && data["extraartists"].items != []
  }

  ghost predicate SomeReadSays(voc: Vocabulary, entities: map<DocId, Entity>, e: Edge) {
    exists d :: ReadAndSays(voc, entities, d, e)
  }

  lemma IdentitiesAreOfReleases(voc: Vocabulary, d: DocId, data: Document, e: Edge)
    requires e.SameAs? && DocumentSays.Says(voc, d, data, e)
    ensures d.table == RELEASES
  {
  }

  lemma ReachedSays(voc: Vocabulary, entities: map<DocId, Entity>, id: string, e: Edge)
    requires id in Reached(entities, SAME_AS) && ReachedAsserts(voc, entities, SAME_AS, id, e)
    ensures ReadAndSays(voc, entities, DocId(RELEASES, id), e)
  {
    DocumentSays.DerivationIsExact(voc, DocId(RELEASES, id), entities[DocId(RELEASES, id)].data, e);
  }

  lemma ReadIsReached(voc: Vocabulary, entities: map<DocId, Entity>, d: DocId, e: Edge)
    requires HaveIds(entities) && e.SameAs? && ReadAndSays(voc, entities, d, e)
    ensures SomeReachedAsserts(voc, entities, SAME_AS, e)
  {
    IdentitiesAreOfReleases(voc, d, entities[d].data, e);
    DocumentSays.DerivationIsExact(voc, d, entities[d].data, e);
    QualifiedIsReached(voc, entities, SAME_AS, d, e);
  }

  lemma IdentitiesAfterPass(voc: Vocabulary, db: Database, e: Edge)
    requires Keyed(db.graph) && HaveIds(db.entities) && e.SameAs? && Stored(db.entities, RELEASES)
    ensures HasRow(Reconciled(voc, db, SAME_AS).graph, e) <==> SomeReadSays(voc, db.entities, e)
  {
    RowAfterPass(voc, db, SAME_AS, e);
    if id :| id in Reached(db.entities, SAME_AS) && ReachedAsserts(voc, db.entities, SAME_AS, id, e) {
      ReachedSays(voc, db.entities, id, e);
    }
    if d :| ReadAndSays(voc, db.entities, d, e) {
      ReadIsReached(voc, db.entities, d, e);
    }
  }

  lemma IdentitiesAfterBoth(voc: Vocabulary, db: Database, e: Edge)
    requires Keyed(db.graph) && HaveIds(db.entities) && e.SameAs? && Stored(db.entities, RELEASES)
    ensures HasRow(ReconcileAll(voc, db).graph, e) <==> SomeReadSays(voc, db.entities, e)
  {
    PassKeepsKeyed(voc, db, MEMBER_OF);
    PassKeepsEntities(voc, db, MEMBER_OF);
    IdentitiesAfterPass(voc, Reconciled(voc, db, MEMBER_OF), e);
  }

  /** With a release stored, it leaves the identities said by a stored release with release-level credits, track credits included. */
  lemma APassLeavesIdentities(voc: Vocabulary, s: State, e: Edge)
    requires Keyed(s.db.graph) && HaveIds(s.db.entities) && e.SameAs?
    requires exists d :: d in s.db.entities && d.table == RELEASES
    ensures HasRow(Apply(s, ReconcileRun(voc)).db.graph, e) <==> SomeReadSays(voc, s.db.entities, e)
  {
    APassIsBoth(voc, s);
    IdentitiesAfterBoth(voc, s.db, e);
  }
}
