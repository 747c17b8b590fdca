/**
  The entity tables beside the graph: what one batch and one single record leave, and the
  proof that a batch is its records written one at a time.
 */
module Catalog {
  import opened Wrappers
  import opened Rows
  import opened Derivation
  import opened DerivationFacts
  import opened KeyedTables
  import opened GraphWrites

  datatype Entity = Entity(hash: string, data: Document, media: Option<Document>, item: Option<nat>, updatedAt: int)

  datatype Database = Database(entities: map<DocId, Entity>, graph: Graph)

  datatype Message = Message(id: string, data: Document, sha: string)

  /** What a write reads besides the tables: the text rules, the native identity of a document, the transaction's clock. */
  datatype Context = Context(voc: Vocabulary, resolve: DocId -> Option<nat>, now: int)

  function Lookup(entities: map<DocId, Entity>, doc: DocId): Option<Entity> {
    if doc in entities then Some(entities[doc]) else None
  }

  predicate Unchanged(prior: Option<Entity>, m: Message) {
    prior.Some? && prior.value.hash == m.sha
  }

  function Media(ctx: Context, table: Table, m: Message): Option<Document> {
    if table == RELEASES then Some(ctx.voc.mediaForRelease(m.data)) else None
  }

  predicate Asserts(voc: Vocabulary, doc: DocId, data: Document, e: Edge) {
    e in Derive(voc, doc, data).edges
  }

  ghost predicate SomeStoredAsserts(voc: Vocabulary, entities: map<DocId, Entity>, e: Edge) {
    exists d :: d in entities && Asserts(voc, d, entities[d].data, e)
  }

  // ---- one batch --------------------------------------------------------------------------

  /** One message per document: the first one's place, the last one's payload. */
  function Latest(messages: seq<Message>): (latest: seq<Message>) {
    if messages == [] then []
    else
      var kept, last := Latest(messages[..|messages| - 1]), messages[|messages| - 1];
      if last.id in IdsOf(kept) then seq(|kept|, i requires 0 <= i < |kept| => if kept[i].id == last.id then last else kept[i])
      else kept + [last]
  }

  function IdsOf(messages: seq<Message>): set<string> {
    set m | m in messages :: m.id
  }

  /** The last message for a document. */
  function MessageFor(messages: seq<Message>, id: string): (m: Option<Message>)
    ensures m.Some? <==> id in IdsOf(messages)
    ensures m.Some? ==> m.value in messages && m.value.id == id
  {
    assert messages != [] ==> messages == messages[..|messages| - 1] + [messages[|messages| - 1]];
    if messages == [] then None
    else if messages[|messages| - 1].id == id then Some(messages[|messages| - 1])
    else MessageFor(messages[..|messages| - 1], id)
  }

  ghost predicate OnePerDocument(messages: seq<Message>) {
    forall i, j :: 0 <= i < j < |messages| ==> messages[i].id != messages[j].id
  }

  /** A batch leaves an unchanged row's content alone, fills what it lacks and marks it seen; any other row it replaces. */
  function Batched(ctx: Context, table: Table, prior: Option<Entity>, m: Message): Entity {
    var item := ctx.resolve(DocId(table, m.id));
    if Unchanged(prior, m) then
      Entity(prior.value.hash, prior.value.data,
             if prior.value.media.None? then Media(ctx, table, m) else prior.value.media,
             if prior.value.item.None? then item else prior.value.item,
             ctx.now)
    else
      Entity(m.sha, m.data, if table == RELEASES then Media(ctx, table, m) else if prior.Some? then prior.value.media else None, item, ctx.now)
  }

  function BatchEntities(ctx: Context, table: Table, before: map<DocId, Entity>, messages: seq<Message>): map<DocId, Entity> {
    before + map id | id in IdsOf(messages) ::
      DocId(table, id) := Batched(ctx, table, Lookup(before, DocId(table, id)), MessageFor(messages, id).value)
  }

  function ChangeOf(ctx: Context, table: Table, m: Message): Change {
    Change(DocId(table, m.id), Derive(ctx.voc, DocId(table, m.id), m.data))
  }

  /** The messages the hash gate lets through, in order. */
  function Gated(table: Table, before: map<DocId, Entity>, messages: seq<Message>): seq<Message> {
    if messages == [] then []
    else
      var last := messages[|messages| - 1];
      Gated(table, before, messages[..|messages| - 1]) + if Unchanged(Lookup(before, DocId(table, last.id)), last) then [] else [last]
  }

  function ChangesIn(ctx: Context, table: Table, documents: seq<Message>): seq<Change> {
    seq(|documents|, i requires 0 <= i < |documents| => ChangeOf(ctx, table, documents[i]))
  }

  /** The documents a batch changes, with what they derive. */
  function ChangesOf(ctx: Context, table: Table, before: map<DocId, Entity>, messages: seq<Message>): seq<Change> {
    ChangesIn(ctx, table, Gated(table, before, messages))
  }

  predicate Resolved(ctx: Context, table: Table, messages: seq<Message>) {
    forall m :: m in messages ==> ctx.resolve(DocId(table, m.id)).Some?
  }

  function WriteBatch(ctx: Context, table: Table, db: Database, latest: seq<Message>): Database {
    Database(BatchEntities(ctx, table, db.entities, latest), WriteChanges(db.graph, ChangesOf(ctx, table, db.entities, latest)))
  }

  /** One transaction: a document without a native identity rolls the whole batch back. */
  function ProcessBatch(ctx: Context, table: Table, db: Database, messages: seq<Message>): Option<Database> {
    if Resolved(ctx, table, Latest(messages)) then Some(WriteBatch(ctx, table, db, Latest(messages))) else None
  }

  // ---- one record -------------------------------------------------------------------------

  function Persisted(ctx: Context, table: Table, prior: Option<Entity>, m: Message): Entity {
    var item, media := ctx.resolve(DocId(table, m.id)), Media(ctx, table, m);
    if prior.None? then Entity(m.sha, m.data, media, item, ctx.now)
    else
      var row, changed := prior.value, prior.value.hash != m.sha;
      Entity(if changed then m.sha else row.hash,
             if changed then m.data else row.data,
             if table == RELEASES && (changed || row.media.None?) then media else row.media,
             item, ctx.now)
  }

  function Persist(ctx: Context, table: Table, db: Database, m: Message): Option<Database> {
    var doc := DocId(table, m.id);
    if ctx.resolve(doc).None? then None
    else
      var prior := Lookup(db.entities, doc);
      Some(Database(db.entities[doc := Persisted(ctx, table, prior, m)],
                    if Unchanged(prior, m) then db.graph else WriteChanges(db.graph, [ChangeOf(ctx, table, m)])))
  }

  function PersistAll(ctx: Context, table: Table, db: Database, messages: seq<Message>): Option<Database> {
    if messages == [] then Some(db)
    else
      var before := PersistAll(ctx, table, db, messages[..|messages| - 1]);
      if before.None? then None else Persist(ctx, table, before.value, messages[|messages| - 1])
  }

  // ---- deduplication ----------------------------------------------------------------------

  /** Deduplication keeps every document once, with its last payload, where it first appeared. */
  lemma {:induction false} LatestIsTheLastOfEach(messages: seq<Message>)
    ensures OnePerDocument(Latest(messages))
    ensures IdsOf(Latest(messages)) == IdsOf(messages)
    ensures forall m :: m in Latest(messages) ==> MessageFor(messages, m.id) == Some(m)
    ensures OnePerDocument(messages) ==> Latest(messages) == messages
  {
    if messages != [] {
      var init, last := messages[..|messages| - 1], messages[|messages| - 1];
      assert messages == init + [last];
      LatestIsTheLastOfEach(init);
      var kept := Latest(init);
      if last.id in IdsOf(kept) {
        LatestReplaces(init, last);
      } else {
        assert Latest(messages) == kept + [last];
        SameIds(kept, init, last);
        forall m | m in Latest(messages) ensures MessageFor(messages, m.id) == Some(m) {
          if m != last {
            assert m.id in IdsOf(kept);
          }
        }
        forall i, j | 0 <= i < j < |Latest(messages)| ensures Latest(messages)[i].id != Latest(messages)[j].id {
          if j == |kept| {
            assert kept[i].id in IdsOf(kept);
          }
        }
      }
    }
  }

  lemma SameIds(kept: seq<Message>, init: seq<Message>, last: Message)
    requires IdsOf(kept) == IdsOf(init)
    ensures IdsOf(kept + [last]) == IdsOf(init + [last])
  {
    IdsAppend(kept, last);
    IdsAppend(init, last);
  }

  lemma IdsAppend(messages: seq<Message>, last: Message)
    ensures IdsOf(messages + [last]) == IdsOf(messages) + {last.id}
  {
    forall id ensures id in IdsOf(messages + [last]) <==> id in IdsOf(messages) + {last.id} {
      if id in IdsOf(messages) + {last.id} {
        var m :| (m in messages || m == last) && m.id == id;
        assert m in messages + [last];
      }
    }
  }

  lemma LatestReplaces(init: seq<Message>, last: Message)
    requires last.id in IdsOf(Latest(init)) && OnePerDocument(Latest(init)) && IdsOf(Latest(init)) == IdsOf(init)
    requires forall m :: m in Latest(init) ==> MessageFor(init, m.id) == Some(m)
    ensures OnePerDocument(Latest(init + [last]))
    ensures IdsOf(Latest(init + [last])) == IdsOf(init + [last])
    ensures forall m :: m in Latest(init + [last]) ==> MessageFor(init + [last], m.id) == Some(m)
    ensures !OnePerDocument(init + [last])
  {
    var messages := init + [last];
    assert messages[..|messages| - 1] == init && messages[|messages| - 1] == last;
    SameIdsReplaced(Latest(init), Latest(messages), last);
    IdsAppend(init, last);
    RepeatedId(init, last);
  }

  lemma SameIdsReplaced(kept: seq<Message>, latest: seq<Message>, last: Message)
    requires |latest| == |kept| && forall i :: 0 <= i < |kept| ==> latest[i].id == kept[i].id
    ensures IdsOf(latest) == IdsOf(kept)
  {
    forall id ensures id in IdsOf(latest) <==> id in IdsOf(kept) {
      if id in IdsOf(latest) {
        var i :| 0 <= i < |latest| && latest[i].id == id;
        assert kept[i] in kept && kept[i].id == id;
      }
      if id in IdsOf(kept) {
        var i :| 0 <= i < |kept| && kept[i].id == id;
        assert latest[i] in latest && latest[i].id == id;
      }
    }
  }

  lemma RepeatedId(init: seq<Message>, last: Message)
    requires last.id in IdsOf(init)
    ensures !OnePerDocument(init + [last])
  {
    var i :| 0 <= i < |init| && init[i].id == last.id;
    assert (init + [last])[i].id == (init + [last])[|init|].id;
  }

  // ---- a batch is its records -------------------------------------------------------------

  /** Every stored native identity is the one the resolver gives. */
  ghost predicate Identified(ctx: Context, entities: map<DocId, Entity>) {
    forall d :: d in entities && entities[d].item.Some? ==> ctx.resolve(d) == entities[d].item
  }

  /** The batch's row is the single record's row exactly when no stale identity is kept. */
  lemma SameRow(ctx: Context, table: Table, prior: Option<Entity>, m: Message)
    ensures Batched(ctx, table, prior, m) == Persisted(ctx, table, prior, m)
       <==> !Unchanged(prior, m) || prior.value.item.None? || prior.value.item == ctx.resolve(DocId(table, m.id))
  {
  }

  lemma EntityAfterBatch(ctx: Context, table: Table, before: map<DocId, Entity>, messages: seq<Message>, d: DocId)
    ensures var after := BatchEntities(ctx, table, before, messages);
            if d.table == table && MessageFor(messages, d.id).Some? then
              d in after && after[d] == Batched(ctx, table, Lookup(before, d), MessageFor(messages, d.id).value)
            else Lookup(after, d) == Lookup(before, d)
  {
    assert d.table == table ==> d == DocId(table, d.id);
  }

  lemma EntitiesOneByOne(ctx: Context, table: Table, before: map<DocId, Entity>, init: seq<Message>, last: Message)
    requires OnePerDocument(init + [last])
    ensures BatchEntities(ctx, table, before, init + [last])
         == BatchEntities(ctx, table, before, init)[DocId(table, last.id) := Batched(ctx, table, Lookup(before, DocId(table, last.id)), last)]
    ensures Lookup(BatchEntities(ctx, table, before, init), DocId(table, last.id)) == Lookup(before, DocId(table, last.id))
  {
    var all := init + [last];
    assert all[..|all| - 1] == init;
    LastIsNew(init, last);
    EntityAfterBatch(ctx, table, before, init, DocId(table, last.id));
    var stepwise := BatchEntities(ctx, table, before, init)[DocId(table, last.id) := Batched(ctx, table, Lookup(before, DocId(table, last.id)), last)];
    forall d ensures Lookup(BatchEntities(ctx, table, before, all), d) == Lookup(stepwise, d) {
      EntityAfterBatch(ctx, table, before, all, d);
      EntityAfterBatch(ctx, table, before, init, d);
    }
    SameLookups(BatchEntities(ctx, table, before, all), stepwise);
  }

  lemma SameLookups(a: map<DocId, Entity>, b: map<DocId, Entity>)
    requires forall d :: Lookup(a, d) == Lookup(b, d)
    ensures a == b
  {
    forall d ensures (d in a <==> d in b) && (d in a ==> a[d] == b[d]) {
      assert Lookup(a, d) == Lookup(b, d);
    }
  }

  lemma LastIsNew(init: seq<Message>, last: Message)
    requires OnePerDocument(init + [last])
    ensures MessageFor(init, last.id).None? && OnePerDocument(init)
  {
    var all := init + [last];
    assert forall i :: 0 <= i < |init| ==> all[i] == init[i] && all[i].id != all[|init|].id;
  }

  lemma ChangeOwnsItsRows(ctx: Context, table: Table, m: Message)
    ensures ChangeOf(ctx, table, m).doc == DocId(table, m.id)
    ensures OwnsItsRows(ChangeOf(ctx, table, m).doc, ChangeOf(ctx, table, m).graph)
  {
    DerivedRowsAreOwned(ctx.voc, DocId(table, m.id), m.data);
  }

  lemma ChangesInAppend(ctx: Context, table: Table, documents: seq<Message>, m: Message)
    ensures ChangesIn(ctx, table, documents + [m]) == ChangesIn(ctx, table, documents) + [ChangeOf(ctx, table, m)]
  {
  }

  lemma ChangesAppend(ctx: Context, table: Table, before: map<DocId, Entity>, init: seq<Message>, last: Message)
    ensures ChangesOf(ctx, table, before, init + [last])
         == ChangesOf(ctx, table, before, init) + if Unchanged(Lookup(before, DocId(table, last.id)), last) then [] else [ChangeOf(ctx, table, last)]
  {
    assert (init + [last])[..|init|] == init;
    ChangesInAppend(ctx, table, Gated(table, before, init), last);
    assert Gated(table, before, init) + [] == Gated(table, before, init);
  }

  lemma {:induction false} GatedAreChanged(table: Table, before: map<DocId, Entity>, messages: seq<Message>)
    ensures forall m :: m in Gated(table, before, messages) <==> m in messages && !Unchanged(Lookup(before, DocId(table, m.id)), m)
  {
    if messages != [] {
      assert messages == messages[..|messages| - 1] + [messages[|messages| - 1]];
      GatedAreChanged(table, before, messages[..|messages| - 1]);
    }
  }

  lemma {:induction false} GatedIsOnePerDocument(table: Table, before: map<DocId, Entity>, messages: seq<Message>)
    requires OnePerDocument(messages)
    ensures OnePerDocument(Gated(table, before, messages))
  {
    if messages != [] {
      var init, last := messages[..|messages| - 1], messages[|messages| - 1];
      assert messages == init + [last];
      LastIsNew(init, last);
      GatedIsOnePerDocument(table, before, init);
      GatedAreChanged(table, before, init);
      var kept := Gated(table, before, init);
      forall i | 0 <= i < |kept| ensures kept[i].id != last.id {
        assert kept[i] in kept && kept[i].id in IdsOf(init);
      }
    }
  }

  lemma ChangesInAreWritable(ctx: Context, table: Table, documents: seq<Message>)
    requires OnePerDocument(documents)
    ensures Writable(ChangesIn(ctx, table, documents))
  {
    forall i: nat | i < |documents| ensures OwnsItsRows(ChangeOf(ctx, table, documents[i]).doc, ChangeOf(ctx, table, documents[i]).graph) {
      ChangeOwnsItsRows(ctx, table, documents[i]);
    }
  }

  /** A deduplicated batch hands the graph writer different documents, each owning its rows. */
  lemma ChangesAreWritable(ctx: Context, table: Table, before: map<DocId, Entity>, messages: seq<Message>)
    requires OnePerDocument(messages)
    ensures Writable(ChangesOf(ctx, table, before, messages))
  {
    GatedIsOnePerDocument(table, before, messages);
    ChangesInAreWritable(ctx, table, Gated(table, before, messages));
  }

  lemma NothingWritten(g: Graph)
    ensures WriteChanges(g, []) == g
  {
    assert Swept(g.edges, []) == g.edges;
  }

  lemma GraphOneByOne(ctx: Context, table: Table, db: Database, init: seq<Message>, last: Message)
    requires OnePerDocument(init + [last])
    ensures WriteBatch(ctx, table, db, init + [last]).graph
         == if Unchanged(Lookup(db.entities, DocId(table, last.id)), last) then WriteBatch(ctx, table, db, init).graph
            else WriteChanges(WriteBatch(ctx, table, db, init).graph, [ChangeOf(ctx, table, last)])
  {
    ChangesAreWritable(ctx, table, db.entities, init + [last]);
    ChangesAppend(ctx, table, db.entities, init, last);
    OneMoreChange(db.graph, ChangesOf(ctx, table, db.entities, init), ChangeOf(ctx, table, last),
                  Unchanged(Lookup(db.entities, DocId(table, last.id)), last));
  }

  lemma OneMoreChange(g: Graph, changes: seq<Change>, change: Change, skipped: bool)
    requires Writable(changes + if skipped then [] else [change])
    ensures WriteChanges(g, changes + if skipped then [] else [change])
         == if skipped then WriteChanges(g, changes) else WriteChanges(WriteChanges(g, changes), [change])
  {
    if skipped {
      assert changes + [] == changes;
    } else {
      BatchIsOneByOne(g, changes, change);
    }
  }

  lemma IdentitySurvives(ctx: Context, table: Table, db: Database, messages: seq<Message>)
    requires Identified(ctx, db.entities)
    ensures Identified(ctx, BatchEntities(ctx, table, db.entities, messages))
  {
    var after := BatchEntities(ctx, table, db.entities, messages);
    forall d | d in after && after[d].item.Some? ensures ctx.resolve(d) == after[d].item {
      EntityAfterBatch(ctx, table, db.entities, messages, d);
    }
  }

  /** The two paths agree, entity rows, edges and first spellings of shared vertices alike. */
  lemma {:induction false} WriteIsOneByOne(ctx: Context, table: Table, db: Database, latest: seq<Message>)
    requires OnePerDocument(latest) && Resolved(ctx, table, latest) && Identified(ctx, db.entities)
    ensures PersistAll(ctx, table, db, latest) == Some(WriteBatch(ctx, table, db, latest))
  {
    if latest == [] {
      NothingWritten(db.graph);
      assert BatchEntities(ctx, table, db.entities, []) == db.entities;
    } else {
      var init, last := latest[..|latest| - 1], latest[|latest| - 1];
      assert latest == init + [last];
      LastIsNew(init, last);
      WriteIsOneByOne(ctx, table, db, init);
      EntitiesOneByOne(ctx, table, db.entities, init, last);
      GraphOneByOne(ctx, table, db, init, last);
      SameRow(ctx, table, Lookup(db.entities, DocId(table, last.id)), last);
    }
  }

  /** Any batch, repeats included: it leaves what its latest messages leave one at a time. */
  lemma BatchRefinesSingle(ctx: Context, table: Table, db: Database, messages: seq<Message>)
    requires Identified(ctx, db.entities)
    ensures Resolved(ctx, table, messages) ==>
              ProcessBatch(ctx, table, db, messages).Some?
              && ProcessBatch(ctx, table, db, messages) == PersistAll(ctx, table, db, Latest(messages))
    ensures Resolved(ctx, table, messages) && OnePerDocument(messages) ==>
              ProcessBatch(ctx, table, db, messages) == PersistAll(ctx, table, db, messages)
    ensures !Resolved(ctx, table, messages) ==> ProcessBatch(ctx, table, db, messages).None?
  {
    LatestIsTheLastOfEach(messages);
    assert Resolved(ctx, table, messages) <==> Resolved(ctx, table, Latest(messages)) by {
      forall m | m in messages ensures exists k :: k in Latest(messages) && k.id == m.id {
        assert m.id in IdsOf(Latest(messages));
      }
      forall m | m in Latest(messages) ensures exists k :: k in messages && k.id == m.id {
        assert m.id in IdsOf(messages);
      }
    }
    if Resolved(ctx, table, messages) {
      WriteIsOneByOne(ctx, table, db, Latest(messages));
    }
  }
}
