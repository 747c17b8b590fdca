/** What the reconciliation leaves: exact for memberships, and for identities exactly when no track credit is alone. */
module ReconcileFacts {
  import opened Wrappers
  import opened Rows
  import opened Derivation
  import opened DerivationFacts
  import opened GraphWrites
  import opened Catalog
  import opened Reconcile

  // ---- which documents derive the two relations -------------------------------------------

  lemma GroupsExclude(rows: seq<Edge>, relations: set<EdgeRelation>, doc: DocId, e: Edge)
    requires Groups(rows, relations, doc) && RelationOf(e) !in relations
    ensures e !in rows
  {
  }

  lemma ReleaseRelations(data: Document, credited: set<EdgeRelation>)
    requires credited == if StatesCompanies(data) then {CREDITED_TO} else {}
    ensures MEMBER_OF !in HEAD_RELATIONS + credited + {TRACK_CREDITED_ON, TRACK_BY_ARTIST}
  {
  }

  lemma ReleasesDeriveNoMember(voc: Vocabulary, id: string, data: Document, e: Edge)
    requires RelationOf(e) == MEMBER_OF
    ensures e !in DeriveRelease(voc, id, data).edges
  {
    var credited: set<EdgeRelation> := if StatesCompanies(data) then {CREDITED_TO} else {};
    ReleaseGroups(voc, id, data, credited);
    ReleaseRelations(data, credited);
    GroupsExclude(DeriveRelease(voc, id, data).edges, HEAD_RELATIONS + credited + {TRACK_CREDITED_ON, TRACK_BY_ARTIST}, DocId(RELEASES, id), e);
  }

  lemma ArtistsDeriveMembers(voc: Vocabulary, id: string, data: Document, e: Edge)
    requires RelationOf(e) == MEMBER_OF
    ensures e in DeriveArtist(voc, id, data).edges <==> e in MemberOfRows(voc, id, data)
  {
    MapGroup(AliasesOf(id), ElementIds(voc, Field(data, "aliases")), ALIAS_OF, DocId(ARTISTS, id));
    GroupsExclude(AliasOfRows(voc, id, data), {ALIAS_OF}, DocId(ARTISTS, id), e);
  }

  /** Only artists derive memberships. */
  lemma MembersDerived(voc: Vocabulary, doc: DocId, data: Document, e: Edge)
    requires RelationOf(e) == MEMBER_OF
    ensures Asserts(voc, doc, data, e) <==> doc.table == ARTISTS && e in MemberOfRows(voc, doc.id, data)
  {
    match doc.table
    case ARTISTS => ArtistsDeriveMembers(voc, doc.id, data, e);
    case MASTERS =>
      MasterGroups(voc, doc.id, data);
      GroupsExclude(DeriveMaster(voc, doc.id, data).edges, MASTER_RELATIONS, doc, e);
    case RELEASES => ReleasesDeriveNoMember(voc, doc.id, data, e);
    case LABELS =>
  }

  lemma TailHasNoIdentity(voc: Vocabulary, id: string, data: Document, e: Edge)
    requires RelationOf(e) == SAME_AS
    ensures e !in IssuedOnRows(voc, id, data) && e !in CreditedToRows(voc, id, data)
    ensures e !in TrackCreditedOnRows(voc, id, data) && e !in TrackByArtistRows(voc, id, data)
  {
    MediaGroup(voc, id, data);
    CompanyGroup(voc, id, data);
    TrackCreditGroup(voc, id, data);
    TrackPerformerGroup(voc, id, data);
  }

  lemma PlainHasNoIdentity(voc: Vocabulary, id: string, data: Document, e: Edge)
    requires RelationOf(e) == SAME_AS
    ensures e !in PlainReleaseEdges(voc, id, data)
  {
    PlainGroups(voc, id, data);
    GroupsExclude(PlainReleaseEdges(voc, id, data), PLAIN_RELATIONS, DocId(RELEASES, id), e);
  }

  lemma ReleasesDeriveIdentities(voc: Vocabulary, id: string, data: Document, e: Edge)
    requires RelationOf(e) == SAME_AS
    ensures e in DeriveRelease(voc, id, data).edges <==> e in SameAsRows(voc, data)
  {
    PlainHasNoIdentity(voc, id, data, e);
    TailHasNoIdentity(voc, id, data, e);
    InSixParts(PlainReleaseEdges(voc, id, data), SameAsRows(voc, data), IssuedOnRows(voc, id, data),
               CreditedToRows(voc, id, data), TrackCreditedOnRows(voc, id, data), TrackByArtistRows(voc, id, data), e);
  }

  /** Only releases derive identities. */
  lemma IdentitiesDerived(voc: Vocabulary, doc: DocId, data: Document, e: Edge)
    requires RelationOf(e) == SAME_AS
    ensures Asserts(voc, doc, data, e) <==> doc.table == RELEASES && e in SameAsRows(voc, data)
  {
    match doc.table
    case ARTISTS =>
      ArtistGroups(voc, doc.id, data);
      GroupsExclude(DeriveArtist(voc, doc.id, data).edges, {MEMBER_OF, ALIAS_OF}, doc, e);
    case MASTERS =>
      MasterGroups(voc, doc.id, data);
      GroupsExclude(DeriveMaster(voc, doc.id, data).edges, MASTER_RELATIONS, doc, e);
    case RELEASES => ReleasesDeriveIdentities(voc, doc.id, data, e);
    case LABELS =>
  }

  lemma OnlyTheSourceTableAsserts(voc: Vocabulary, relation: EdgeRelation, doc: DocId, data: Document, e: Edge)
    requires Additive(relation) && RelationOf(e) == relation && Asserts(voc, doc, data, e)
    ensures doc.table == SourceTable(relation)
  {
    if relation == MEMBER_OF {
      MembersDerived(voc, doc, data, e);
    } else {
      IdentitiesDerived(voc, doc, data, e);
    }
  }

  // ---- the prefilters ---------------------------------------------------------------------

  lemma NothingToReference(voc: Vocabulary, value: Json)
    requires !NonEmptyArray(value)
    ensures Elements(value) == [] && ElementIds(voc, value) == []
  {
  }

  /** The membership prefilter is exact: an artist it rejects derives no membership. */
  lemma MembershipPrefilterIsExact(voc: Vocabulary, id: string, data: Document)
    requires !Qualifies(MEMBER_OF, data)
    ensures MemberOfRows(voc, id, data) == []
  {
    NothingToReference(voc, Field(data, "members"));
    NothingToReference(voc, Field(data, "groups"));
    assert Map(MembersOf(id), []) + Map(GroupsOf(id), []) == [];
  }

  ghost predicate TrackPair(voc: Vocabulary, data: Document, person: string, artistId: string) {
    exists c :: c in TrackCreditsOf(voc, Field(data, "tracklist")) && c.what.name == person && c.what.artistId == Some(artistId)
  }

  lemma {:induction false} PairsOnTracks(credits: seq<Placed<Credit>>, person: string, artistId: string)
    ensures SameAs(person, artistId) in SameAsOnTracks(credits)
       <==> exists c :: c in credits && c.what.name == person && c.what.artistId == Some(artistId)
  {
    if credits != [] {
      PairsOnTracks(credits[1..], person, artistId);
      assert credits == [credits[0]] + credits[1..];
    }
  }

  /** A release the identity prefilter rejects can still derive identities, from its track credits alone. */
  lemma RejectedReleasesAssertTrackPairs(voc: Vocabulary, data: Document, person: string, artistId: string)
    requires !Qualifies(SAME_AS, data)
    ensures SameAs(person, artistId) in SameAsRows(voc, data) <==> TrackPair(voc, data, person, artistId)
  {
    NothingToReference(voc, Field(data, "extraartists"));
    var credits := TrackCreditsOf(voc, Field(data, "tracklist"));
    UniqueMembers(SameAsOf([]) + SameAsOnTracks(credits));
    assert SameAsOf([]) + SameAsOnTracks(credits) == SameAsOnTracks(credits);
    PairsOnTracks(credits, person, artistId);
  }

  // ---- the tables after a pass ------------------------------------------------------------

  lemma AdditiveRowIsItsKey(e: Edge)
    requires Additive(RelationOf(e))
    ensures EdgeKey(e) == e && Owner(e).None?
  {
  }

  lemma OwnedOrAdditive(e: Edge)
    ensures Owner(e).None? <==> Additive(RelationOf(e))
  {
  }

  /** A pass rewrites one relation and nothing else. */
  lemma RowsAfterPass(voc: Vocabulary, db: Database, relation: EdgeRelation, e: Edge)
    requires Keyed(db.graph) && Additive(relation) && Stored(db.entities, SourceTable(relation))
    ensures var after := Reconciled(voc, db, relation).graph;
            HasRow(after, e) <==> if RelationOf(e) == relation then e in Asserted(voc, db.entities, relation) else HasRow(db.graph, e)
  {
    KeysKeepOwners(e);
    if RelationOf(e) == relation {
      AdditiveRowIsItsKey(e);
      if e in db.graph.edges {
        KeyedAdditiveRow(db.graph, e);
      }
    } else {
      NotAsserted(voc, db.entities, relation, EdgeKey(e));
    }
  }

  lemma NotAsserted(voc: Vocabulary, entities: map<DocId, Entity>, relation: EdgeRelation, e: Edge)
    requires RelationOf(e) != relation
    ensures e !in Asserted(voc, entities, relation)
  {
    if e in Asserted(voc, entities, relation) {
      AssertedAreOfTheRelation(voc, entities, relation, e);
    }
  }

  lemma KeyedAdditiveRow(g: Graph, e: Edge)
    requires Keyed(g) && e in g.edges && Additive(RelationOf(e))
    ensures g.edges[e] == e
  {
    KeysKeepOwners(g.edges[e]);
    AdditiveRowIsItsKey(e);
    AdditiveRowIsItsKey(g.edges[e]);
  }

  lemma PassKeepsKeyed(voc: Vocabulary, db: Database, relation: EdgeRelation)
    requires Keyed(db.graph) && Additive(relation)
    ensures Keyed(Reconciled(voc, db, relation).graph)
  {
    var after := Reconciled(voc, db, relation).graph;
    forall k | k in after.edges ensures EdgeKey(after.edges[k]) == k {
      if k !in db.graph.edges {
        AssertedAreOfTheRelation(voc, db.entities, relation, k);
        AdditiveRowIsItsKey(k);
      }
    }
  }

  predicate ReachedAsserts(voc: Vocabulary, entities: map<DocId, Entity>, relation: EdgeRelation, id: string, e: Edge) {
    var doc := DocId(SourceTable(relation), id);
    doc in entities && Asserts(voc, doc, entities[doc].data, e)
  }

  /** Some document the pages reach asserts a row. */
  ghost predicate SomeReachedAsserts(voc: Vocabulary, entities: map<DocId, Entity>, relation: EdgeRelation, e: Edge) {
    exists id :: id in Reached(entities, relation) && ReachedAsserts(voc, entities, relation, id, e)
  }

  lemma AssertedMeansReached(voc: Vocabulary, entities: map<DocId, Entity>, relation: EdgeRelation, e: Edge)
    requires RelationOf(e) == relation
    ensures e in Asserted(voc, entities, relation) <==> SomeReachedAsserts(voc, entities, relation, e)
  {
    if e in Asserted(voc, entities, relation) {
      var id :| id in Reached(entities, relation) && e in Reading(voc, entities, relation)(id);
      ReadingHas(voc, entities, relation, id, e);
      assert ReachedAsserts(voc, entities, relation, id, e);
    }
    if id :| id in Reached(entities, relation) && ReachedAsserts(voc, entities, relation, id, e) {
      ReadingHas(voc, entities, relation, id, e);
    }
  }

  lemma RowAfterPass(voc: Vocabulary, db: Database, relation: EdgeRelation, e: Edge)
    requires Keyed(db.graph) && Additive(relation) && Stored(db.entities, SourceTable(relation)) && RelationOf(e) == relation
    ensures HasRow(Reconciled(voc, db, relation).graph, e) <==> SomeReachedAsserts(voc, db.entities, relation, e)
    ensures SomeReachedAsserts(voc, db.entities, relation, e) ==> SomeStoredAsserts(voc, db.entities, e)
  {
    RowsAfterPass(voc, db, relation, e);
    AssertedMeansReached(voc, db.entities, relation, e);
    if id :| id in Reached(db.entities, relation) && ReachedAsserts(voc, db.entities, relation, id, e) {
      assert Asserts(voc, DocId(SourceTable(relation), id), db.entities[DocId(SourceTable(relation), id)].data, e);
    }
  }

  ghost predicate MatchesCatalog(voc: Vocabulary, entities: map<DocId, Entity>, g: Graph, relation: EdgeRelation) {
    forall e :: RelationOf(e) == relation ==> (HasRow(g, e) <==> SomeStoredAsserts(voc, entities, e))
  }

  /** Memberships are exact after a pass, for every catalog whose artists have ids. */
  lemma MembershipsAreExact(voc: Vocabulary, db: Database)
    requires Keyed(db.graph) && Stored(db.entities, ARTISTS) && DocId(ARTISTS, "") !in db.entities
    ensures MatchesCatalog(voc, db.entities, Reconciled(voc, db, MEMBER_OF).graph, MEMBER_OF)
  {
    var after := Reconciled(voc, db, MEMBER_OF).graph;
    forall e | RelationOf(e) == MEMBER_OF ensures HasRow(after, e) <==> SomeStoredAsserts(voc, db.entities, e) {
      RowAfterPass(voc, db, MEMBER_OF, e);
      if SomeStoredAsserts(voc, db.entities, e) {
        StoredMemberIsReached(voc, db.entities, e);
      }
    }
  }

  lemma HasAnId(entities: map<DocId, Entity>, d: DocId, table: Table)
    requires d in entities && d.table == table && DocId(table, "") !in entities
    ensures d.id != ""
  {
    assert d == DocId(table, d.id);
  }

  lemma StoredMemberIsReached(voc: Vocabulary, entities: map<DocId, Entity>, e: Edge)
    requires DocId(ARTISTS, "") !in entities && RelationOf(e) == MEMBER_OF && SomeStoredAsserts(voc, entities, e)
    ensures SomeReachedAsserts(voc, entities, MEMBER_OF, e)
  {
    var d :| d in entities && Asserts(voc, d, entities[d].data, e);
    OnlyTheSourceTableAsserts(voc, MEMBER_OF, d, entities[d].data, e);
    HasAnId(entities, d, ARTISTS);
    MemberIsReached(voc, entities, d, e);
  }

  lemma MemberIsReached(voc: Vocabulary, entities: map<DocId, Entity>, d: DocId, e: Edge)
    requires d in entities && d.id != "" && RelationOf(e) == MEMBER_OF && Asserts(voc, d, entities[d].data, e)
    ensures d.id in Reached(entities, MEMBER_OF) && ReachedAsserts(voc, entities, MEMBER_OF, d.id, e)
  {
    MembersDerived(voc, d, entities[d].data, e);
    assert d == DocId(ARTISTS, d.id);
    if !Qualifies(MEMBER_OF, entities[d].data) {
      MembershipPrefilterIsExact(voc, d.id, entities[d].data);
    }
  }

  /** A release without release-level credits has a track credit naming a pair. */
  ghost predicate RejectedPair(voc: Vocabulary, entities: map<DocId, Entity>, d: DocId, person: string, artistId: string) {
    d in entities && d.table == RELEASES && !Qualifies(SAME_AS, entities[d].data) && TrackPair(voc, entities[d].data, person, artistId)
  }

  /** Every identity a rejected release's tracks name is also asserted by a release the pass reads. */
  ghost predicate NoTrackPairAlone(voc: Vocabulary, entities: map<DocId, Entity>) {
    forall d, person, artistId :: RejectedPair(voc, entities, d, person, artistId) ==>
                                    SomeReachedAsserts(voc, entities, SAME_AS, SameAs(person, artistId))
  }

  lemma IdentitiesAreExact(voc: Vocabulary, db: Database, after: Graph)
    requires Keyed(db.graph) && Stored(db.entities, RELEASES) && DocId(RELEASES, "") !in db.entities
    requires after == Reconciled(voc, db, SAME_AS).graph && NoTrackPairAlone(voc, db.entities)
    ensures MatchesCatalog(voc, db.entities, after, SAME_AS)
  {
    forall e | RelationOf(e) == SAME_AS ensures HasRow(after, e) <==> SomeStoredAsserts(voc, db.entities, e) {
      RowAfterPass(voc, db, SAME_AS, e);
      if SomeStoredAsserts(voc, db.entities, e) {
        StoredIdentityIsReached(voc, db.entities, e);
      }
    }
  }

  lemma PairsAreIdentities(person: string, artistId: string)
    ensures RelationOf(SameAs(person, artistId)) == SAME_AS
  {
  }

  lemma RejectedPairIsReached(voc: Vocabulary, db: Database, d: DocId, person: string, artistId: string)
    requires Keyed(db.graph) && Stored(db.entities, RELEASES) && RejectedPair(voc, db.entities, d, person, artistId)
    requires MatchesCatalog(voc, db.entities, Reconciled(voc, db, SAME_AS).graph, SAME_AS)
    ensures SomeReachedAsserts(voc, db.entities, SAME_AS, SameAs(person, artistId))
  {
    var after := Reconciled(voc, db, SAME_AS).graph;
    RejectedPairIsStored(voc, db.entities, d, person, artistId);
    PairsAreIdentities(person, artistId);
    RowAfterPass(voc, db, SAME_AS, SameAs(person, artistId));
  }

  /**
    Identities are exact after a pass exactly when no release without release-level credits has a
    track credit whose identity only such releases assert.
   */
  lemma IdentitiesAreExactExactlyWhen(voc: Vocabulary, db: Database)
    requires Keyed(db.graph) && Stored(db.entities, RELEASES) && DocId(RELEASES, "") !in db.entities
    ensures MatchesCatalog(voc, db.entities, Reconciled(voc, db, SAME_AS).graph, SAME_AS) <==> NoTrackPairAlone(voc, db.entities)
  {
    var after := Reconciled(voc, db, SAME_AS).graph;
    if NoTrackPairAlone(voc, db.entities) {
      IdentitiesAreExact(voc, db, after);
    }
    if MatchesCatalog(voc, db.entities, after, SAME_AS) {
      forall d, person, artistId | RejectedPair(voc, db.entities, d, person, artistId)
        ensures SomeReachedAsserts(voc, db.entities, SAME_AS, SameAs(person, artistId))
      {
        RejectedPairIsReached(voc, db, d, person, artistId);
      }
    }
  }

  lemma RejectedPairIsStored(voc: Vocabulary, entities: map<DocId, Entity>, d: DocId, person: string, artistId: string)
    requires RejectedPair(voc, entities, d, person, artistId)
    ensures Asserts(voc, d, entities[d].data, SameAs(person, artistId)) && SomeStoredAsserts(voc, entities, SameAs(person, artistId))
  {
    RejectedReleasesAssertTrackPairs(voc, entities[d].data, person, artistId);
    IdentitiesDerived(voc, d, entities[d].data, SameAs(person, artistId));
  }

  lemma StoredIdentityIsReached(voc: Vocabulary, entities: map<DocId, Entity>, e: Edge)
    requires DocId(RELEASES, "") !in entities && RelationOf(e) == SAME_AS && SomeStoredAsserts(voc, entities, e)
    requires NoTrackPairAlone(voc, entities)
    ensures SomeReachedAsserts(voc, entities, SAME_AS, e)
  {
    var d :| d in entities && Asserts(voc, d, entities[d].data, e);
    OnlyTheSourceTableAsserts(voc, SAME_AS, d, entities[d].data, e);
    HasAnId(entities, d, RELEASES);
    IdentityIsReached(voc, entities, d, e);
  }

  lemma QualifiedIdentityIsReached(voc: Vocabulary, entities: map<DocId, Entity>, id: string, e: Edge)
    requires DocId(RELEASES, id) in entities && id != "" && Qualifies(SAME_AS, entities[DocId(RELEASES, id)].data)
    requires Asserts(voc, DocId(RELEASES, id), entities[DocId(RELEASES, id)].data, e)
    ensures SomeReachedAsserts(voc, entities, SAME_AS, e)
  {
    assert id in Reached(entities, SAME_AS) && ReachedAsserts(voc, entities, SAME_AS, id, e);
  }

  lemma RejectedIdentityIsReached(voc: Vocabulary, entities: map<DocId, Entity>, id: string, person: string, artistId: string)
    requires DocId(RELEASES, id) in entities && !Qualifies(SAME_AS, entities[DocId(RELEASES, id)].data)
    requires SameAs(person, artistId) in SameAsRows(voc, entities[DocId(RELEASES, id)].data)
    requires NoTrackPairAlone(voc, entities)
    ensures SomeReachedAsserts(voc, entities, SAME_AS, SameAs(person, artistId))
  {
    RejectedReleasesAssertTrackPairs(voc, entities[DocId(RELEASES, id)].data, person, artistId);
    assert RejectedPair(voc, entities, DocId(RELEASES, id), person, artistId);
  }

  lemma IdentityIsAPair(e: Edge)
    requires RelationOf(e) == SAME_AS
    ensures e == SameAs(e.person, e.artistId)
  {
  }

  lemma IdentityIsReached(voc: Vocabulary, entities: map<DocId, Entity>, d: DocId, e: Edge)
    requires d in entities && d.id != "" && RelationOf(e) == SAME_AS && Asserts(voc, d, entities[d].data, e)
    requires NoTrackPairAlone(voc, entities)
    ensures SomeReachedAsserts(voc, entities, SAME_AS, e)
  {
    IdentitiesDerived(voc, d, entities[d].data, e);
    assert d == DocId(RELEASES, d.id);
    IdentityIsAPair(e);
    if Qualifies(SAME_AS, entities[d].data) {
      QualifiedIdentityIsReached(voc, entities, d.id, e);
    } else {
      RejectedIdentityIsReached(voc, entities, d.id, e.person, e.artistId);
    }
  }

  lemma OneTrackCredit(voc: Vocabulary, credit: Document, track: Document, c: Credit)
    requires CreditOf(voc, credit) == Some(c)
    requires track == map["extraartists" := JArray([JObject(credit)])]
    ensures CreditsOn(voc)(track) == [c]
  {
    assert [JObject(credit)][1..] == [] && [credit][..0] == [];
    assert Objects([JObject(credit)]) == [credit];
    assert CreditsOf(voc, [credit]) == [c];
  }

  /** Releases the prefilter rejects do derive identities: one credit, on the first track. */
  lemma ATrackOnlyIdentity() returns (voc: Vocabulary, data: Document)
    ensures !Qualifies(SAME_AS, data) && TrackPair(voc, data, "Ann", "7")
  {
    voc := Vocabulary((s: string) => s, (s: string) => s, (s: string) => s, (n: int) => "7", (d: Document) => d, (s: string) => None);
    var credit: Document := map["name" := JText("Ann"), "role" := JText("Bass"), "id" := JInt(7)];
    var track: Document := map["extraartists" := JArray([JObject(credit)])];
    data := map["tracklist" := JArray([JObject(track)])];
    var c := Credit("Ann", "Bass", Some("7"));
    assert CreditOf(voc, credit) == Some(c);
    OneTrackCredit(voc, credit, track, c);
    var placed := Placed(1, 0, None, c);
    assert NodeAt(JArray([JObject(track)]), 1, 0) == Some(track);
    assert PlacedFrom(CreditsOn(voc), [JObject(track)], 1, placed);
    WalkIsExact(CreditsOn(voc), Field(data, "tracklist"), placed);
  }

  lemma AssertedRowsOfTheRelation(voc: Vocabulary, entities: map<DocId, Entity>, relation: EdgeRelation)
    ensures forall e :: e in Asserted(voc, entities, relation) ==> RelationOf(e) == relation
  {
    forall e | e in Asserted(voc, entities, relation) ensures RelationOf(e) == relation {
      AssertedAreOfTheRelation(voc, entities, relation, e);
    }
  }

  lemma SwapCounts(before: set<Edge>, asserted: set<Edge>)
    ensures |asserted| == |before| + |asserted - before| - |before - asserted|
  {
    assert before == (before - asserted) + (before * asserted);
    assert asserted == (asserted - before) + (before * asserted);
  }

  lemma RowsBecomeAsserted(edges: map<Edge, Edge>, relation: EdgeRelation, asserted: set<Edge>)
    requires forall e :: e in asserted ==> RelationOf(e) == relation
    ensures RelationRows(WithRows(edges, relation, asserted), relation) == asserted
  {
  }

  /** What the pass reports is what it changed. */
  lemma PassCountsAreTheDifference(voc: Vocabulary, db: Database, relation: EdgeRelation)
    requires Additive(relation) && Stored(db.entities, SourceTable(relation))
    ensures var before, after := RelationRows(db.graph.edges, relation), RelationRows(Reconciled(voc, db, relation).graph.edges, relation);
            var asserted := Asserted(voc, db.entities, relation);
            after == asserted && |after| == |before| + |asserted - before| - |before - asserted|
  {
    AssertedRowsOfTheRelation(voc, db.entities, relation);
    RowsBecomeAsserted(db.graph.edges, relation, Asserted(voc, db.entities, relation));
    SwapCounts(RelationRows(db.graph.edges, relation), Asserted(voc, db.entities, relation));
  }

  /** An empty source table is a failed load: its pass leaves the whole database alone. */
  lemma EmptySourceIsSkipped(voc: Vocabulary, db: Database, relation: EdgeRelation)
    requires forall d :: d in db.entities ==> d.table != SourceTable(relation)
    ensures Reconciled(voc, db, relation) == db
  {
  }

  /** So a refresh with no artists changes no membership, one with no releases no identity, and one with neither nothing. */
  lemma RefreshSkipsEmptyTables(voc: Vocabulary, db: Database, e: Edge)
    requires Keyed(db.graph)
    ensures (forall d :: d in db.entities ==> d.table != ARTISTS) && e.MemberOf? ==>
              (HasRow(ReconcileAll(voc, db).graph, e) <==> HasRow(db.graph, e))
    ensures (forall d :: d in db.entities ==> d.table != RELEASES) && e.SameAs? ==>
              (HasRow(ReconcileAll(voc, db).graph, e) <==> HasRow(db.graph, e))
    ensures (forall d :: d in db.entities ==> d.table != ARTISTS && d.table != RELEASES) ==> ReconcileAll(voc, db) == db
  {
    var first := Reconciled(voc, db, MEMBER_OF);
    PassKeepsKeyed(voc, db, MEMBER_OF);
    if e.MemberOf? && Stored(first.entities, RELEASES) {
      RowsAfterPass(voc, first, SAME_AS, e);
    }
    if e.SameAs? && Stored(db.entities, ARTISTS) {
      RowsAfterPass(voc, db, MEMBER_OF, e);
    }
  }
}
