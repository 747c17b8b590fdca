/** What the histories of batches, single writes, purges and passes guarantee, from any consistent start. */
module CatalogGuarantees {
  import opened Wrappers
  import opened Rows
  import opened Derivation
  import opened DerivationFacts
  import DocumentSays
  import opened KeyedTables
  import opened GraphWrites
  import opened Catalog
  import opened Purge
  import opened Reconcile
  import opened ReconcileFacts
  import opened CatalogHistory

  lemma AssertedByItsOwner(voc: Vocabulary, doc: DocId, data: Document, e: Edge)
    requires Asserts(voc, doc, data, e)
    ensures !Foreign(e) && (Owner(e).None? || Owner(e) == Some(doc))
  {
    DerivedRowsAreOwned(voc, doc, data);
  }

  function EmptyCatalog(): State {
    State(Database(map[], Graph(map[], map[])), map[])
  }

  lemma NothingStoredMirrors(voc: Vocabulary, reach: Reach)
    ensures Mirrors(voc, EmptyCatalog(), reach)
  {
    var s := EmptyCatalog();
    forall e | Owner(e).Some? && !Foreign(e) ensures HasRow(s.db.graph, e) <==> Expected(voc, s, e) {
    }
  }

  /**
    After any history, every relation scoped to its document, company credits aside, holds a row
    exactly when some stored document derives it: the incremental tables are the union over the catalog.
   */
  lemma IncrementalIsFromScratch(voc: Vocabulary, reach: Reach, s: State, events: seq<Event>, e: Edge)
    requires Mirrors(voc, s, reach) && forall i :: 0 <= i < |events| ==> Under(voc, reach, events[i])
    requires Owner(e).Some? && RelationOf(e) != CREDITED_TO && !Foreign(e)
    ensures HasRow(Run(s, events).db.graph, e) <==> SomeStoredAsserts(voc, Run(s, events).db.entities, e)
  {
    HistoryKeepsMirror(voc, reach, s, events);
    var t := Run(s, events);
    if SomeStoredAsserts(voc, t.db.entities, e) {
      var d :| d in t.db.entities && Asserts(voc, d, t.db.entities[d].data, e);
      AssertedByItsOwner(voc, d, t.db.entities[d].data, e);
    }
    if Expected(voc, t, e) {
      assert Asserts(voc, Owner(e).value, t.db.entities[Owner(e).value].data, e);
    }
  }

  ghost predicate SomeStoredSays(voc: Vocabulary, entities: map<DocId, Entity>, e: Edge) {
    exists d :: d in entities && DocumentSays.Says(voc, d, entities[d].data, e)
  }

  /** Put on the documents themselves: a row is there exactly when some stored document says it. */
  lemma RowsAreWhatDocumentsSay(voc: Vocabulary, reach: Reach, s: State, events: seq<Event>, e: Edge)
    requires Mirrors(voc, s, reach) && forall i :: 0 <= i < |events| ==> Under(voc, reach, events[i])
    requires Owner(e).Some? && RelationOf(e) != CREDITED_TO && !Foreign(e)
    ensures HasRow(Run(s, events).db.graph, e) <==> SomeStoredSays(voc, Run(s, events).db.entities, e)
  {
    IncrementalIsFromScratch(voc, reach, s, events, e);
    AssertingIsSaying(voc, Run(s, events).db.entities, e);
  }

  lemma AssertingIsSaying(voc: Vocabulary, entities: map<DocId, Entity>, e: Edge)
    ensures SomeStoredAsserts(voc, entities, e) <==> SomeStoredSays(voc, entities, e)
  {
    if d :| d in entities && Asserts(voc, d, entities[d].data, e) {
      DocumentSays.DerivationIsExact(voc, d, entities[d].data, e);
    }
    if d :| d in entities && DocumentSays.Says(voc, d, entities[d].data, e) {
      DocumentSays.DerivationIsExact(voc, d, entities[d].data, e);
      assert Asserts(voc, d, entities[d].data, e);
    }
  }

  /** Between passes, the two additive relations never miss what a stored document derives. */
  lemma AdditiveRowsAreNeverMissing(voc: Vocabulary, s: State, events: seq<Event>, e: Edge)
    requires Mirrors(voc, s, EveryDocument) && forall i :: 0 <= i < |events| ==> Under(voc, EveryDocument, events[i])
    requires Owner(e).None? && SomeStoredAsserts(voc, Run(s, events).db.entities, e)
    ensures HasRow(Run(s, events).db.graph, e)
  {
    HistoryKeepsMirror(voc, EveryDocument, s, events);
  }

  // ---- received documents have ids --------------------------------------------------------

  /** The loader refuses a record without an id before anything is written. */
  predicate Received(event: Event) {
    match event
    case Batch(_, messages, _) => forall m :: m in messages ==> m.id != ""
    case Single(_, m, _) => m.id != ""
    case PurgeRun(_, _, _, _) => true
    case ReconcileRun(_) => true
  }

  ghost predicate HaveIds(entities: map<DocId, Entity>) {
    forall d :: d in entities ==> d.id != ""
  }

  lemma EventKeepsIds(s: State, event: Event)
    requires HaveIds(s.db.entities) && Received(event)
    ensures HaveIds(Apply(s, event).db.entities)
  {
    match event
    case Batch(table, messages, ctx) =>
      LatestIsTheLastOfEach(messages);
      forall d | d in BatchEntities(ctx, table, s.db.entities, Latest(messages)) ensures d.id != "" {
        EntityAfterBatch(ctx, table, s.db.entities, Latest(messages), d);
        if MessageFor(Latest(messages), d.id).Some? {
          assert d.id in IdsOf(messages);
        }
      }
    case Single(table, m, ctx) =>
    case PurgeRun(table, started, count, cap) => PurgeIsExact(s.db, table, started, count, cap);
    case ReconcileRun(_) =>
  }

  /** No history stores a document without an id. */
  lemma {:induction false} HistoryKeepsIds(s: State, events: seq<Event>)
    requires HaveIds(s.db.entities) && forall i :: 0 <= i < |events| ==> Received(events[i])
    ensures HaveIds(Run(s, events).db.entities)
  {
    if events != [] {
      HistoryKeepsIds(s, events[..|events| - 1]);
      EventKeepsIds(Run(s, events[..|events| - 1]), events[|events| - 1]);
    }
  }

  /** Passes included, no membership a stored artist asserts is ever missing. */
  lemma MembershipsAreNeverMissing(voc: Vocabulary, s: State, events: seq<Event>, e: Edge)
    requires Mirrors(voc, s, ReachedDocuments) && HaveIds(s.db.entities)
    requires forall i :: 0 <= i < |events| ==> Under(voc, ReachedDocuments, events[i]) && Received(events[i])
    requires RelationOf(e) == MEMBER_OF && SomeStoredAsserts(voc, Run(s, events).db.entities, e)
    ensures HasRow(Run(s, events).db.graph, e)
  {
    HistoryKeepsMirror(voc, ReachedDocuments, s, events);
    HistoryKeepsIds(s, events);
    StoredMembershipIsThere(voc, Run(s, events), e);
  }

  lemma StoredMembershipIsThere(voc: Vocabulary, t: State, e: Edge)
    requires Mirrors(voc, t, ReachedDocuments) && HaveIds(t.db.entities)
    requires RelationOf(e) == MEMBER_OF && SomeStoredAsserts(voc, t.db.entities, e)
    ensures HasRow(t.db.graph, e)
  {
    var d :| d in t.db.entities && Asserts(voc, d, t.db.entities[d].data, e);
    OwnedOrAdditive(e);
    MembersDerived(voc, d, t.db.entities[d].data, e);
    if !Qualifies(MEMBER_OF, t.db.entities[d].data) {
      MembershipPrefilterIsExact(voc, d.id, t.db.entities[d].data);
    }
  }

  /** A pass after any history leaves memberships exactly what the stored artists derive. */
  lemma MembershipsAreExactAfterAPass(voc: Vocabulary, s: State, events: seq<Event>)
    requires Mirrors(voc, s, ReachedDocuments) && HaveIds(s.db.entities)
    requires forall i :: 0 <= i < |events| ==> Under(voc, ReachedDocuments, events[i]) && Received(events[i])
    requires Stored(Run(s, events).db.entities, ARTISTS)
    ensures MatchesCatalog(voc, Run(s, events).db.entities, ReconcileAll(voc, Run(s, events).db).graph, MEMBER_OF)
  {
    HistoryKeepsMirror(voc, ReachedDocuments, s, events);
    HistoryKeepsIds(s, events);
    var t := Run(s, events);
    assert DocId(ARTISTS, "") !in t.db.entities;
    MembershipsAreExact(voc, t.db);
    PassKeepsMirror(voc, t, MEMBER_OF);
    SecondPassKeepsFirst(voc, t);
  }

  /** And identities exactly when no release without release-level credits has a track identity of its own. */
  lemma IdentitiesAreExactAfterAPassExactlyWhen(voc: Vocabulary, s: State, events: seq<Event>)
    requires Mirrors(voc, s, ReachedDocuments) && HaveIds(s.db.entities)
    requires forall i :: 0 <= i < |events| ==> Under(voc, ReachedDocuments, events[i]) && Received(events[i])
    requires Stored(Run(s, events).db.entities, RELEASES)
    ensures MatchesCatalog(voc, Run(s, events).db.entities, ReconcileAll(voc, Run(s, events).db).graph, SAME_AS)
       <==> NoTrackPairAlone(voc, Run(s, events).db.entities)
  {
    HistoryKeepsMirror(voc, ReachedDocuments, s, events);
    HistoryKeepsIds(s, events);
    var t := Run(s, events);
    assert DocId(RELEASES, "") !in t.db.entities;
    PassKeepsKeyed(voc, t.db, MEMBER_OF);
    PassKeepsEntities(voc, t.db, MEMBER_OF);
    IdentitiesAreExactExactlyWhen(voc, Reconciled(voc, t.db, MEMBER_OF));
  }

  lemma PassKeepsEntities(voc: Vocabulary, db: Database, relation: EdgeRelation)
    ensures Reconciled(voc, db, relation).entities == db.entities
  {
  }

  lemma SecondPassKeepsFirst(voc: Vocabulary, t: State)
    requires Keyed(Passed(voc, t, MEMBER_OF).db.graph)
    requires MatchesCatalog(voc, t.db.entities, Reconciled(voc, t.db, MEMBER_OF).graph, MEMBER_OF)
    ensures MatchesCatalog(voc, t.db.entities, ReconcileAll(voc, t.db).graph, MEMBER_OF)
  {
    var db := Passed(voc, t, MEMBER_OF).db;
    forall e | RelationOf(e) == MEMBER_OF ensures HasRow(ReconcileAll(voc, t.db).graph, e) <==> SomeStoredAsserts(voc, t.db.entities, e) {
      if Stored(db.entities, RELEASES) {
        RowsAfterPass(voc, db, SAME_AS, e);
      }
    }
  }

  /**
    An identity only the tracks of releases without release-level credits name: the writer has it
    in the table, the next pass deletes it, though a stored release asserts it before and after.
   */
  lemma ATrackIdentityIsDropped(voc: Vocabulary, s: State, d: DocId, person: string, artistId: string)
    requires Mirrors(voc, s, EveryDocument) && RejectedPair(voc, s.db.entities, d, person, artistId)
    requires !SomeReachedAsserts(voc, s.db.entities, SAME_AS, SameAs(person, artistId))
    ensures HasRow(s.db.graph, SameAs(person, artistId)) && SomeStoredAsserts(voc, s.db.entities, SameAs(person, artistId))
    ensures !HasRow(Reconciled(voc, s.db, SAME_AS).graph, SameAs(person, artistId))
  {
    PairsAreIdentities(person, artistId);
    OwnedOrAdditive(SameAs(person, artistId));
    RejectedPairIsStored(voc, s.db.entities, d, person, artistId);
    assert Stored(s.db.entities, RELEASES);
    RowAfterPass(voc, s.db, SAME_AS, SameAs(person, artistId));
  }

  lemma OnlyOneStored(entities: map<DocId, Entity>, id: string, data: Document)
    requires entities.Keys == {DocId(RELEASES, id)} && entities[DocId(RELEASES, id)].data == data && !Qualifies(SAME_AS, data)
    ensures Reached(entities, SAME_AS) == {} && !Stored(entities, ARTISTS)
  {
    forall d | d in entities ensures d == DocId(RELEASES, id) {
      assert d in entities.Keys;
    }
  }

  lemma NothingReachedAsserts(voc: Vocabulary, entities: map<DocId, Entity>, e: Edge)
    requires Reached(entities, SAME_AS) == {}
    ensures !SomeReachedAsserts(voc, entities, SAME_AS, e)
  {
  }

  /** A row a pass deletes. */
  ghost predicate LosesInAPass(voc: Vocabulary, s: State, e: Edge) {
    HasRow(s.db.graph, e) && !HasRow(Apply(s, ReconcileRun(voc)).db.graph, e)
  }

  /** The identity of one stored track-only release: there before a pass, gone after it. */
  lemma OneTrackReleaseLosesItsIdentity(voc: Vocabulary, s: State, id: string, data: Document, person: string, artistId: string)
    requires Mirrors(voc, s, EveryDocument)
    requires s.db.entities.Keys == {DocId(RELEASES, id)} && s.db.entities[DocId(RELEASES, id)].data == data
    requires !Qualifies(SAME_AS, data) && TrackPair(voc, data, person, artistId)
    ensures LosesInAPass(voc, s, SameAs(person, artistId))
  {
    OnlyOneStored(s.db.entities, id, data);
    NothingReachedAsserts(voc, s.db.entities, SameAs(person, artistId));
    assert RejectedPair(voc, s.db.entities, DocId(RELEASES, id), person, artistId);
    ATrackIdentityIsDropped(voc, s, DocId(RELEASES, id), person, artistId);
    DroppedInAPass(voc, s, SameAs(person, artistId));
  }

  lemma DroppedInAPass(voc: Vocabulary, s: State, e: Edge)
    requires !Stored(s.db.entities, ARTISTS)
    requires HasRow(s.db.graph, e) && !HasRow(Reconciled(voc, s.db, SAME_AS).graph, e)
    ensures LosesInAPass(voc, s, e)
  {
    assert Apply(s, ReconcileRun(voc)).db == Reconciled(voc, s.db, SAME_AS);
  }

  lemma FirstWrite(ctx: Context, m: Message)
    requires ctx.resolve(DocId(RELEASES, m.id)).Some?
    ensures var entities := Apply(EmptyCatalog(), Single(RELEASES, m, ctx)).db.entities;
            entities.Keys == {DocId(RELEASES, m.id)} && entities[DocId(RELEASES, m.id)].data == m.data
  {
    SingleIsPersist(EmptyCatalog(), RELEASES, m, ctx);
  }

  lemma FirstWriteMirrors(ctx: Context, m: Message)
    ensures Mirrors(ctx.voc, Apply(EmptyCatalog(), Single(RELEASES, m, ctx)), EveryDocument)
  {
    NothingStoredMirrors(ctx.voc, EveryDocument);
    EventKeepsMirror(ctx.voc, EveryDocument, EmptyCatalog(), Single(RELEASES, m, ctx));
  }

  lemma ATrackOnlyReleaseLoses(ctx: Context, m: Message, person: string, artistId: string)
    requires ctx.resolve(DocId(RELEASES, m.id)).Some?
    requires !Qualifies(SAME_AS, m.data) && TrackPair(ctx.voc, m.data, person, artistId)
    ensures LosesInAPass(ctx.voc, Apply(EmptyCatalog(), Single(RELEASES, m, ctx)), SameAs(person, artistId))
  {
    FirstWrite(ctx, m);
    FirstWriteMirrors(ctx, m);
    OneTrackReleaseLosesItsIdentity(ctx.voc, Apply(EmptyCatalog(), Single(RELEASES, m, ctx)), m.id, m.data, person, artistId);
  }

  /** From the empty database: a release is written, a pass runs, and an identity the stored release asserts is gone. */
  lemma AWrittenIdentityIsLost() returns (ctx: Context, m: Message)
    ensures Received(Single(RELEASES, m, ctx))
    ensures LosesInAPass(ctx.voc, Apply(EmptyCatalog(), Single(RELEASES, m, ctx)), SameAs("Ann", "7"))
  {
    var voc, data := ATrackOnlyIdentity();
    ctx := Context(voc, (d: DocId) => Some(1), 0);
    m := Message("1", data, "sha");
    ATrackOnlyReleaseLoses(ctx, m, "Ann", "7");
  }

  /** Redelivering an unchanged document brings nothing back: no path rewrites its graph rows. */
  lemma RedeliveryChangesNoGraph(ctx: Context, s: State, table: Table, m: Message)
    requires DocId(table, m.id) in s.db.entities && s.db.entities[DocId(table, m.id)].hash == m.sha
    ensures Apply(s, Single(table, m, ctx)).db.graph == s.db.graph
    ensures Apply(s, Batch(table, [m], ctx)).db.graph == s.db.graph
  {
    assert [m][..0] == [];
    assert Latest([m]) == [m];
    assert Gated(table, s.db.entities, [m]) == [] by {
      assert Gated(table, s.db.entities, []) == [];
    }
    NothingWritten(s.db.graph);
  }

  lemma EmptyTablesKeepTheirRows(voc: Vocabulary, s: State, e: Edge)
    requires Keyed(s.db.graph) && HasRow(s.db.graph, e)
    requires (e.MemberOf? && forall d :: d in s.db.entities ==> d.table != ARTISTS)
          || (e.SameAs? && forall d :: d in s.db.entities ==> d.table != RELEASES)
    ensures HasRow(Apply(s, ReconcileRun(voc)).db.graph, e)
  {
    RefreshSkipsEmptyTables(voc, s.db, e);
  }

  /** After any history, a pass over a table that holds nothing keeps every row of the relation read from it. */
  lemma AFailedLoadEmptiesNothing(voc: Vocabulary, s: State, events: seq<Event>, e: Edge)
    requires Mirrors(voc, s, ReachedDocuments) && forall i :: 0 <= i < |events| ==> Under(voc, ReachedDocuments, events[i])
    requires HasRow(Run(s, events).db.graph, e)
    requires (e.MemberOf? && forall d :: d in Run(s, events).db.entities ==> d.table != ARTISTS)
          || (e.SameAs? && forall d :: d in Run(s, events).db.entities ==> d.table != RELEASES)
    ensures HasRow(Apply(Run(s, events), ReconcileRun(voc)).db.graph, e)
  {
    HistoryKeepsMirror(voc, ReachedDocuments, s, events);
    EmptyTablesKeepTheirRows(voc, Run(s, events), e);
  }

  // ---- company credits --------------------------------------------------------------------

  /** Company credits are those of the last written payload that stated any, nothing else. */
  lemma CreditsAreHistoryExact(voc: Vocabulary, reach: Reach, s: State, events: seq<Event>, e: Edge)
    requires Mirrors(voc, s, reach) && forall i :: 0 <= i < |events| ==> Under(voc, reach, events[i])
    requires e.CreditedTo? && e.source == "discogs"
    ensures var d, t := DocId(RELEASES, e.releaseId), Run(s, events);
            HasRow(t.db.graph, e) <==> d in t.stated && DocumentSays.Says(voc, d, t.stated[d], e)
  {
    HistoryKeepsMirror(voc, reach, s, events);
    var d, t := DocId(RELEASES, e.releaseId), Run(s, events);
    assert Owner(e) == Some(d) && RelationOf(e) == CREDITED_TO;
    assert HasRow(t.db.graph, e) <==> Expected(voc, t, e);
    if d in t.stated {
      DocumentSays.DerivationIsExact(voc, d, t.stated[d], e);
    }
  }

  lemma OnlyCompaniesCredit(voc: Vocabulary, id: string, data: Document, e: Edge)
    requires RelationOf(e) == CREDITED_TO
    ensures Asserts(voc, DocId(RELEASES, id), data, e) <==> e in CreditedToRows(voc, id, data)
  {
    HeadHasNoCredit(voc, id, data, e);
    TracksHaveNoCredit(voc, id, data, e);
    InParts(ReleaseHead(voc, id, data), CreditedToRows(voc, id, data), TrackCreditedOnRows(voc, id, data), TrackByArtistRows(voc, id, data), e);
    ReleaseEdgesInParts(voc, id, data);
  }

  lemma InParts(head: seq<Edge>, credits: seq<Edge>, tracks: seq<Edge>, performers: seq<Edge>, e: Edge)
    ensures e in head + credits + tracks + performers <==> e in head || e in credits || e in tracks || e in performers
  {
  }

  lemma ReleaseEdgesInParts(voc: Vocabulary, id: string, data: Document)
    ensures Derive(voc, DocId(RELEASES, id), data).edges
         == ReleaseHead(voc, id, data) + CreditedToRows(voc, id, data) + TrackCreditedOnRows(voc, id, data) + TrackByArtistRows(voc, id, data)
  {
  }

  lemma TracksHaveNoCredit(voc: Vocabulary, id: string, data: Document, e: Edge)
    requires RelationOf(e) == CREDITED_TO
    ensures e !in TrackCreditedOnRows(voc, id, data) && e !in TrackByArtistRows(voc, id, data)
  {
    TrackCreditGroup(voc, id, data);
    TrackPerformerGroup(voc, id, data);
  }

  lemma HeadHasNoCredit(voc: Vocabulary, id: string, data: Document, e: Edge)
    requires RelationOf(e) == CREDITED_TO
    ensures e !in ReleaseHead(voc, id, data)
  {
    HeadGroups(voc, id, data);
    HeadIsNotCredited({CREDITED_TO});
  }

  ghost predicate CreditsAreFromScratch(voc: Vocabulary, t: State, id: string) {
    forall e :: RelationOf(e) == CREDITED_TO && !Foreign(e) && Owner(e) == Some(DocId(RELEASES, id)) ==>
      (HasRow(t.db.graph, e) <==> SomeStoredAsserts(voc, t.db.entities, e))
  }

  /** The stored payload states its companies, or none was stated before that is still credited. */
  predicate CreditsAreCurrent(voc: Vocabulary, t: State, id: string) {
    var d := DocId(RELEASES, id);
    d !in t.stated || (d in t.db.entities && StatesCompanies(t.db.entities[d].data)) || CreditedToRows(voc, id, t.stated[d]) == []
  }

  /**
    So company credits equal the simple form for a release exactly when its stored payload states
    its companies, or no earlier payload stated one that is credited.
   */
  lemma CreditsFromScratchExactlyWhenStated(voc: Vocabulary, reach: Reach, s: State, events: seq<Event>, id: string)
    requires Mirrors(voc, s, reach) && forall i :: 0 <= i < |events| ==> Under(voc, reach, events[i])
    ensures var t := Run(s, events);
            CreditsAreFromScratch(voc, t, id) <==> CreditsAreCurrent(voc, t, id)
  {
    HistoryKeepsMirror(voc, reach, s, events);
    CreditsOfOneState(voc, reach, Run(s, events), id);
  }

  lemma CreditsOfOneState(voc: Vocabulary, reach: Reach, t: State, id: string)
    requires Mirrors(voc, t, reach)
    ensures CreditsAreFromScratch(voc, t, id) <==> CreditsAreCurrent(voc, t, id)
  {
    var d := DocId(RELEASES, id);
    if CreditsAreCurrent(voc, t, id) {
      forall e | RelationOf(e) == CREDITED_TO && !Foreign(e) && Owner(e) == Some(d)
        ensures HasRow(t.db.graph, e) <==> SomeStoredAsserts(voc, t.db.entities, e)
      {
        OneCreditFromScratch(voc, reach, t, id, e);
      }
    } else {
      var e := CreditedToRows(voc, id, t.stated[d])[0];
      StaleCredit(voc, reach, t, id, e);
    }
  }

  lemma OneCreditFromScratch(voc: Vocabulary, reach: Reach, t: State, id: string, e: Edge)
    requires Mirrors(voc, t, reach) && RelationOf(e) == CREDITED_TO && !Foreign(e) && Owner(e) == Some(DocId(RELEASES, id))
    requires CreditsAreCurrent(voc, t, id)
    ensures HasRow(t.db.graph, e) <==> SomeStoredAsserts(voc, t.db.entities, e)
  {
    var d := DocId(RELEASES, id);
    assert HasRow(t.db.graph, e) <==> Expected(voc, t, e);
    if d in t.db.entities {
      OnlyCompaniesCredit(voc, id, t.db.entities[d].data, e);
      UnstatedCreditsNone(voc, id, t.db.entities[d].data);
    }
    if d in t.stated {
      OnlyCompaniesCredit(voc, id, t.stated[d], e);
    }
    if SomeStoredAsserts(voc, t.db.entities, e) {
      var other :| other in t.db.entities && Asserts(voc, other, t.db.entities[other].data, e);
      AssertedByItsOwner(voc, other, t.db.entities[other].data, e);
      assert other == d;
    } else if d in t.db.entities {
      assert !Asserts(voc, d, t.db.entities[d].data, e);
    }
  }

  lemma UnstatedCreditsNone(voc: Vocabulary, id: string, data: Document)
    ensures !StatesCompanies(data) ==> CreditedToRows(voc, id, data) == []
  {
  }

  lemma StaleCredit(voc: Vocabulary, reach: Reach, t: State, id: string, e: Edge)
    requires Mirrors(voc, t, reach) && DocId(RELEASES, id) in t.stated
    requires e in CreditedToRows(voc, id, t.stated[DocId(RELEASES, id)]) && !StatesCompanies(t.db.entities[DocId(RELEASES, id)].data)
    ensures !CreditsAreFromScratch(voc, t, id)
  {
    var d := DocId(RELEASES, id);
    CreditRowsAreCredits(voc, id, t.stated[d], e);
    OnlyCompaniesCredit(voc, id, t.stated[d], e);
    assert HasRow(t.db.graph, e) by {
      assert Expected(voc, t, e);
    }
    if SomeStoredAsserts(voc, t.db.entities, e) {
      var other :| other in t.db.entities && Asserts(voc, other, t.db.entities[other].data, e);
      AssertedByItsOwner(voc, other, t.db.entities[other].data, e);
      OnlyCompaniesCredit(voc, id, t.db.entities[d].data, e);
      UnstatedCreditsNone(voc, id, t.db.entities[d].data);
    }
  }

  lemma CreditRowsAreCredits(voc: Vocabulary, id: string, data: Document, e: Edge)
    requires e in CreditedToRows(voc, id, data)
    ensures RelationOf(e) == CREDITED_TO && !Foreign(e) && Owner(e) == Some(DocId(RELEASES, id))
  {
    InMap(CreditedToOf(id), CompaniesOf(voc, data), e);
  }

  /** A payload that stops stating its companies leaves the earlier credits behind. */
  lemma AnUnstatedPayloadKeepsOldCredits(ctx: Context, id: string, first: Message, second: Message)
    requires first.id == id && second.id == id && first.sha != second.sha && ctx.resolve(DocId(RELEASES, id)).Some?
    requires CreditedToRows(ctx.voc, id, first.data) != [] && !StatesCompanies(second.data)
    ensures var start := EmptyCatalog();
            !CreditsAreFromScratch(ctx.voc, Run(start, [Single(RELEASES, first, ctx), Single(RELEASES, second, ctx)]), id)
  {
    var start := EmptyCatalog();
    var one, two := Single(RELEASES, first, ctx), Single(RELEASES, second, ctx);
    NothingStoredMirrors(ctx.voc, EveryDocument);
    EventKeepsMirror(ctx.voc, EveryDocument, start, one);
    EventKeepsMirror(ctx.voc, EveryDocument, Apply(start, one), two);
    TwoEvents(start, one, two);
    UnstatedCreditsNone(ctx.voc, id, first.data);
    CreditsOfOneState(ctx.voc, EveryDocument, Apply(Apply(start, one), two), id);
  }

  lemma TwoEvents(s: State, one: Event, two: Event)
    ensures Run(s, [one, two]) == Apply(Apply(s, one), two)
  {
    assert [one, two][..1] == [one] && [one][..0] == [];
    assert Run(s, [one]) == Apply(Run(s, []), one);
  }

  // ---- native identity --------------------------------------------------------------------

  /** One resolver throughout. */
  ghost predicate ResolvedBy(resolve: DocId -> Option<nat>, event: Event) {
    (event.Batch? || event.Single?) ==> event.ctx.resolve == resolve
  }

  ghost predicate StoredIdentityAgrees(resolve: DocId -> Option<nat>, entities: map<DocId, Entity>) {
    forall d :: d in entities && entities[d].item.Some? ==> resolve(d) == entities[d].item
  }

  lemma EventKeepsIdentity(resolve: DocId -> Option<nat>, s: State, event: Event)
    requires StoredIdentityAgrees(resolve, s.db.entities) && ResolvedBy(resolve, event)
    ensures StoredIdentityAgrees(resolve, Apply(s, event).db.entities)
  {
    match event
    case Batch(table, messages, ctx) => IdentitySurvives(ctx, table, s.db, Latest(messages));
    case Single(table, m, ctx) =>
    case PurgeRun(table, started, count, cap) => PurgeIsExact(s.db, table, started, count, cap);
    case ReconcileRun(_) =>
  }

  lemma {:induction false} HistoryKeepsIdentity(resolve: DocId -> Option<nat>, s: State, events: seq<Event>)
    requires StoredIdentityAgrees(resolve, s.db.entities) && forall i :: 0 <= i < |events| ==> ResolvedBy(resolve, events[i])
    ensures StoredIdentityAgrees(resolve, Run(s, events).db.entities)
  {
    if events != [] {
      HistoryKeepsIdentity(resolve, s, events[..|events| - 1]);
      EventKeepsIdentity(resolve, Run(s, events[..|events| - 1]), events[|events| - 1]);
    }
  }

  /** In every state a history reaches, a batch of different documents is its records one at a time. */
  lemma BatchesStayRefinements(resolve: DocId -> Option<nat>, s: State, events: seq<Event>, ctx: Context, table: Table, messages: seq<Message>)
    requires StoredIdentityAgrees(resolve, s.db.entities) && forall i :: 0 <= i < |events| ==> ResolvedBy(resolve, events[i])
    requires ctx.resolve == resolve && OnePerDocument(messages) && Resolved(ctx, table, messages)
    ensures ProcessBatch(ctx, table, Run(s, events).db, messages) == PersistAll(ctx, table, Run(s, events).db, messages)
  {
    HistoryKeepsIdentity(resolve, s, events);
    BatchRefinesSingle(ctx, table, Run(s, events).db, messages);
  }

  // ---- another provider's rows ------------------------------------------------------------

  lemma ChangesLeaveForeignRows(g: Graph, changes: seq<Change>, e: Edge)
    requires Writable(changes) && Foreign(e)
    ensures HasRow(WriteChanges(g, changes), e) <==> HasRow(g, e)
  {
    KeysKeepOwners(e);
    EdgeAfterWrite(g, changes, EdgeKey(e));
    FirstWithIsARow(AllEdges(changes), EdgeKey, EdgeKey(e));
    if FirstWith(AllEdges(changes), EdgeKey, EdgeKey(e)).Some? {
      var row := FirstWith(AllEdges(changes), EdgeKey, EdgeKey(e)).value;
      DerivedByOne(changes, row);
      KeysKeepOwners(row);
    }
  }

  lemma EventLeavesForeignRows(s: State, event: Event, e: Edge)
    requires Foreign(e)
    ensures HasRow(Apply(s, event).db.graph, e) <==> HasRow(s.db.graph, e)
  {
    KeysKeepOwners(e);
    match event
    case Batch(table, messages, ctx) =>
      LatestIsTheLastOfEach(messages);
      ChangesAreWritable(ctx, table, s.db.entities, Latest(messages));
      ChangesLeaveForeignRows(s.db.graph, ChangesOf(ctx, table, s.db.entities, Latest(messages)), e);
    case Single(table, m, ctx) =>
      ChangeOwnsItsRows(ctx, table, m);
      OneChangeIsWritable(ChangeOf(ctx, table, m));
      ChangesLeaveForeignRows(s.db.graph, [ChangeOf(ctx, table, m)], e);
    case PurgeRun(table, started, count, cap) =>
      PurgeIsExact(s.db, table, started, count, cap);
    case ReconcileRun(voc) =>
      PassLeavesForeignRows(voc, s.db, MEMBER_OF, e);
      PassLeavesForeignRows(voc, Reconciled(voc, s.db, MEMBER_OF), SAME_AS, e);
  }

  lemma PassLeavesForeignRows(voc: Vocabulary, db: Database, relation: EdgeRelation, e: Edge)
    requires Foreign(e) && Additive(relation)
    ensures HasRow(Reconciled(voc, db, relation).graph, e) <==> HasRow(db.graph, e)
  {
    KeysKeepOwners(e);
    NotAsserted(voc, db.entities, relation, EdgeKey(e));
  }

  /** No history from any start whatever touches a row another provider wrote. */
  lemma {:induction false} ForeignRowsNeverChange(s: State, events: seq<Event>, e: Edge)
    requires (e.CreditedTo? || e.IssuedOn?) && e.source != "discogs"
    ensures HasRow(Run(s, events).db.graph, e) <==> HasRow(s.db.graph, e)
  {
    if events != [] {
      ForeignRowsNeverChange(s, events[..|events| - 1], e);
      EventLeavesForeignRows(Run(s, events[..|events| - 1]), events[|events| - 1], e);
    }
  }

  // ---- rows an extraction touched ---------------------------------------------------------

  predicate Seen(entities: map<DocId, Entity>, d: DocId, start: int) {
    d in entities && entities[d].updatedAt >= start
  }

  /** Writes since a start, and purges for that start or an earlier one. */
  predicate Since(event: Event, start: int) {
    match event
    case Batch(_, _, ctx) => ctx.now >= start
    case Single(_, _, ctx) => ctx.now >= start
    case PurgeRun(_, started, _, _) => started.At? ==> started.time <= start
    case ReconcileRun(_) => true
  }

  /** A write that committed and named the document. */
  predicate Wrote(s: State, event: Event, d: DocId) {
    match event
    case Batch(table, messages, ctx) => Resolved(ctx, table, messages) && d.table == table && d.id in IdsOf(messages)
    case Single(table, m, ctx) => ctx.resolve(DocId(table, m.id)).Some? && d == DocId(table, m.id)
    case PurgeRun(_, _, _, _) => false
    case ReconcileRun(_) => false
  }

  /** Changed, hash-unchanged or backfilled, a written row is marked seen. */
  lemma WriteMarksSeen(s: State, event: Event, d: DocId)
    requires Wrote(s, event, d)
    ensures d in Apply(s, event).db.entities && Apply(s, event).db.entities[d].updatedAt == event.ctx.now
  {
    if event.Batch? {
      var messages := event.messages;
      LatestIsTheLastOfEach(messages);
      LatestResolved(event.ctx, event.table, messages);
      assert MessageFor(Latest(messages), d.id).Some?;
      EntityAfterBatch(event.ctx, event.table, s.db.entities, Latest(messages), d);
    }
  }

  /** The payload a committed write leaves a document with. */
  function Delivered(event: Event, d: DocId): Option<Message> {
    match event
    case Batch(table, messages, _) => if d.table == table then MessageFor(messages, d.id) else None
    case Single(table, m, _) => if d == DocId(table, m.id) then Some(m) else None
    case PurgeRun(_, _, _, _) => None
    case ReconcileRun(_) => None
  }

  ghost predicate Complete(ctx: Context, table: Table, prior: Option<Entity>, m: Message, row: Entity) {
    && row.hash == m.sha
    && row.data == (if Unchanged(prior, m) then prior.value.data else m.data)
    && row.item.Some?
    && (table == RELEASES ==> row.media.Some?)
    && (table == RELEASES && !Unchanged(prior, m) ==> row.media == Some(ctx.voc.mediaForRelease(m.data)))
    && (Unchanged(prior, m) && prior.value.media.Some? ==> row.media == prior.value.media)
  }

  /** A committed write leaves the named rows with the delivered hash and content, identified, media filled, and no other row changed. */
  lemma AWriteLeavesRowsComplete(s: State, event: Event, d: DocId)
    requires (event.Batch? && Resolved(event.ctx, event.table, event.messages)) || (event.Single? && Wrote(s, event, DocId(event.table, event.message.id)))
    ensures var prior, after := Lookup(s.db.entities, d), Lookup(Apply(s, event).db.entities, d);
            if Delivered(event, d).Some? then after.Some? && Complete(event.ctx, event.table, prior, Delivered(event, d).value, after.value)
            else after == prior
  {
    if event.Batch? {
      var messages, latest := event.messages, Latest(event.messages);
      LatestIsTheLastOfEach(messages);
      LatestResolved(event.ctx, event.table, messages);
      EntityAfterBatch(event.ctx, event.table, s.db.entities, latest, d);
      SameMessageFor(messages, d.id);
    }
  }

  lemma LatestResolved(ctx: Context, table: Table, messages: seq<Message>)
    requires Resolved(ctx, table, messages)
    ensures Resolved(ctx, table, Latest(messages))
  {
    LatestIsTheLastOfEach(messages);
    forall m | m in Latest(messages) ensures ctx.resolve(DocId(table, m.id)).Some? {
      assert m.id in IdsOf(messages);
    }
  }

  /** Deduplication keeps the last message of every document. */
  lemma SameMessageFor(messages: seq<Message>, id: string)
    ensures MessageFor(Latest(messages), id) == MessageFor(messages, id)
  {
    LatestIsTheLastOfEach(messages);
    if MessageFor(Latest(messages), id).Some? {
      assert MessageFor(Latest(messages), id).value in Latest(messages);
    }
  }

  lemma SeenRowStays(s: State, event: Event, d: DocId, start: int)
    requires Seen(s.db.entities, d, start) && Since(event, start)
    ensures Seen(Apply(s, event).db.entities, d, start)
  {
    match event
    case Batch(table, messages, ctx) =>
      EntityAfterBatch(ctx, table, s.db.entities, Latest(messages), d);
    case Single(table, m, ctx) =>
    case PurgeRun(table, started, count, cap) =>
      PurgeIsExact(s.db, table, started, count, cap);
    case ReconcileRun(_) =>
  }

  lemma {:induction false} SeenRowSurvives(s: State, events: seq<Event>, d: DocId, start: int)
    requires Seen(s.db.entities, d, start) && forall i :: 0 <= i < |events| ==> Since(events[i], start)
    ensures Seen(Run(s, events).db.entities, d, start)
  {
    if events != [] {
      SeenRowSurvives(s, events[..|events| - 1], d, start);
      SeenRowStays(Run(s, events[..|events| - 1]), events[|events| - 1], d, start);
    }
  }

  /** A row any write touched since an extraction's start outlives that extraction's purges. */
  lemma TouchedRowsSurvivePurges(s: State, write: Event, later: seq<Event>, d: DocId, start: int)
    requires Wrote(s, write, d) && write.ctx.now >= start
    requires forall i :: 0 <= i < |later| ==> Since(later[i], start)
    ensures d in Run(Apply(s, write), later).db.entities
  {
    WriteMarksSeen(s, write, d);
    SeenRowSurvives(Apply(s, write), later, d, start);
  }
}
