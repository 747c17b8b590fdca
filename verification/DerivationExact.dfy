/**
  Derivation without its sequences: for each relation, which readings of a document give a row.
  `DocumentSays` states the readings themselves on the JSON.
 */
module DerivationExact {
  import opened Wrappers
  import opened Rows
  import opened Derivation
  import opened DerivationFacts

  // ---- what the readers find --------------------------------------------------------------

  ghost predicate RefersIn(voc: Vocabulary, items: seq<Json>, id: string) {
    exists d: Document :: JObject(d) in items && EntityId(voc, Field(d, "id")) == Some(id)
  }

  /** An array of objects, one of which carries an id. */
  ghost predicate Refers(voc: Vocabulary, value: Json, id: string) {
    value.JArray? && RefersIn(voc, value.items, id)
  }

  predicate NamesTag(value: Json, name: string) {
    value.JArray? && name != "" && JText(name) in value.items
  }

  ghost predicate CreditsIn(voc: Vocabulary, items: seq<Json>, c: Credit) {
    exists d: Document :: JObject(d) in items && CreditOf(voc, d) == Some(c)
  }

  ghost predicate CreditedOnRelease(voc: Vocabulary, data: Document, c: Credit) {
    Field(data, "extraartists").JArray? && CreditsIn(voc, Field(data, "extraartists").items, c)
  }

  /** The track or sub-track at a pair of ordinals, printed as it says. */
  ghost predicate Plays(data: Document, track: nat, subTrack: nat, position: Option<string>, node: Document) {
    NodeAt(Field(data, "tracklist"), track, subTrack) == Some(node) && position == PositionOf(node)
  }

  ghost predicate CreditedOnTrack(voc: Vocabulary, data: Document, track: nat, subTrack: nat, position: Option<string>, c: Credit) {
    exists node :: Plays(data, track, subTrack, position, node) && CreditsIn(voc, XmlArray(Field(node, "extraartists"), "artist"), c)
  }

  ghost predicate PerformedOnTrack(voc: Vocabulary, data: Document, track: nat, subTrack: nat, position: Option<string>, artistId: string) {
    exists node :: Plays(data, track, subTrack, position, node) && RefersIn(voc, XmlArray(Field(node, "artists"), "artist"), artistId)
  }

  ghost predicate IdentifiedOnRelease(voc: Vocabulary, data: Document, person: string, artistId: string) {
    exists role :: CreditedOnRelease(voc, data, Credit(person, role, Some(artistId)))
  }

  ghost predicate IdentifiedOnTrack(voc: Vocabulary, data: Document, person: string, artistId: string) {
    exists t, s, pos, role :: CreditedOnTrack(voc, data, t, s, pos, Credit(person, role, Some(artistId)))
  }

  ghost predicate CreditsCompany(voc: Vocabulary, data: Document, c: CompanyRow) {
    && StatesCompanies(data)
    && var items := Elements(Field(Field(data, "companies").fields, "items"));
       exists k: nat :: StatedFirstAt(voc, items, k, c)
  }

  function MediaItems(voc: Vocabulary, data: Document): seq<Document> {
    Elements(Field(voc.mediaForRelease(data), "items"))
  }

  /** An entry of a usable medium. */
  predicate OfMedium(item: Document, medium: string) {
    UsableMedium(item) && Field(item, "medium") == JText(medium)
  }

  ghost predicate Lists(items: seq<Document>, medium: string) {
    exists item :: item in items && OfMedium(item, medium)
  }

  /** The units of the entries of one medium. */
  function UnitsOf(items: seq<Document>, medium: string): nat {
    if items == [] then 0 else (if OfMedium(items[0], medium) then Quantity(items[0]) else 0) + UnitsOf(items[1..], medium)
  }

  /** What the derivation's own readers find, relation by relation. */
  ghost predicate Reads(voc: Vocabulary, doc: DocId, data: Document, e: Edge) {
    match e
    case ByArtist(r, a) => doc == DocId(RELEASES, r) && Refers(voc, Field(data, "artists"), a)
    case OnLabel(r, l) => doc == DocId(RELEASES, r) && Refers(voc, Field(data, "labels"), l)
    case DerivedFrom(r, m) => doc == DocId(RELEASES, r) && EntityId(voc, Field(data, "master_id")) == Some(m)
    case InGenre(r, t) => doc == DocId(RELEASES, r) && NamesTag(Field(data, "genres"), t)
    case InStyle(r, t) => doc == DocId(RELEASES, r) && NamesTag(Field(data, "styles"), t)
    case MasterByArtist(m, a) => doc == DocId(MASTERS, m) && Refers(voc, Field(data, "artists"), a)
    case MasterInGenre(m, t) => doc == DocId(MASTERS, m) && NamesTag(Field(data, "genres"), t)
    case MasterInStyle(m, t) => doc == DocId(MASTERS, m) && NamesTag(Field(data, "styles"), t)
    case MemberOf(m, g) =>
      || (doc == DocId(ARTISTS, g) && Refers(voc, Field(data, "members"), m))
      || (doc == DocId(ARTISTS, m) && Refers(voc, Field(data, "groups"), g))
    case AliasOf(a, i) => doc == DocId(ARTISTS, i) && Refers(voc, Field(data, "aliases"), a)
    case CreditedOn(p, r, role) =>
      doc == DocId(RELEASES, r) && exists artistId :: CreditedOnRelease(voc, data, Credit(p, role, artistId))
    case SameAs(p, a) =>
      doc.table == RELEASES
      && (IdentifiedOnRelease(voc, data, p, a) || IdentifiedOnTrack(voc, data, p, a))
    case CreditedTo(r, c, role, category, source) =>
      doc == DocId(RELEASES, r) && source == DISCOGS_SOURCE && exists name :: CreditsCompany(voc, data, CompanyRow(c, name, role, category))
    case IssuedOn(r, m, source, qty) =>
      doc == DocId(RELEASES, r) && source == DISCOGS_SOURCE && Lists(MediaItems(voc, data), m) && qty == UnitsOf(MediaItems(voc, data), m)
    case TrackCreditedOn(p, r, t, s, pos, role) =>
      doc == DocId(RELEASES, r) && exists artistId :: CreditedOnTrack(voc, data, t, s, pos, Credit(p, role, artistId))
    case TrackByArtist(r, t, s, pos, a) => doc == DocId(RELEASES, r) && PerformedOnTrack(voc, data, t, s, pos, a)
  }

  // ---- reading lists ----------------------------------------------------------------------

  lemma {:induction false} ObjectsExact(items: seq<Json>, d: Document)
    ensures d in Objects(items) <==> JObject(d) in items
  {
    if items != [] {
      ObjectsExact(items[1..], d);
      assert items == [items[0]] + items[1..];
    }
  }

  lemma {:induction false} IdsExact(voc: Vocabulary, elements: seq<Document>, id: string)
    ensures id in Ids(voc, elements) <==> exists d :: d in elements && EntityId(voc, Field(d, "id")) == Some(id)
  {
    if elements != [] {
      IdsExact(voc, elements[1..], id);
      assert elements == [elements[0]] + elements[1..];
    }
  }

  lemma IdsInExact(voc: Vocabulary, items: seq<Json>, id: string)
    ensures id in Unique(Ids(voc, Objects(items))) <==> RefersIn(voc, items, id)
  {
    UniqueMembers(Ids(voc, Objects(items)));
    IdsExact(voc, Objects(items), id);
    forall d: Document ensures d in Objects(items) <==> JObject(d) in items {
      ObjectsExact(items, d);
    }
  }

  lemma ElementIdsExact(voc: Vocabulary, value: Json, id: string)
    ensures id in ElementIds(voc, value) <==> Refers(voc, value, id)
  {
    if value.JArray? {
      IdsInExact(voc, value.items, id);
    }
  }

  lemma {:induction false} NamesExact(items: seq<Json>, name: string)
    ensures name in Names(items) <==> name != "" && JText(name) in items
  {
    if items != [] {
      NamesExact(items[1..], name);
      assert items == [items[0]] + items[1..];
    }
  }

  lemma TagNamesExact(value: Json, name: string)
    ensures name in TagNames(value) <==> NamesTag(value, name)
  {
    if value.JArray? {
      UniqueMembers(Names(value.items));
      NamesExact(value.items, name);
    }
  }

  lemma {:induction false} CreditsExact(voc: Vocabulary, elements: seq<Document>, c: Credit)
    ensures c in CreditsOf(voc, elements) <==> exists d :: d in elements && CreditOf(voc, d) == Some(c)
  {
    if elements != [] {
      var init, last := elements[..|elements| - 1], elements[|elements| - 1];
      assert elements == init + [last];
      CreditsExact(voc, init, c);
    }
  }

  lemma CreditsInExact(voc: Vocabulary, items: seq<Json>, c: Credit)
    ensures c in CreditsOf(voc, Objects(items)) <==> CreditsIn(voc, items, c)
  {
    CreditsExact(voc, Objects(items), c);
    forall d: Document ensures d in Objects(items) <==> JObject(d) in items {
      ObjectsExact(items, d);
    }
  }

  lemma ReleaseCreditsExact(voc: Vocabulary, data: Document, c: Credit)
    ensures c in CreditsOf(voc, Elements(Field(data, "extraartists"))) <==> CreditedOnRelease(voc, data, c)
  {
    if Field(data, "extraartists").JArray? {
      CreditsInExact(voc, Field(data, "extraartists").items, c);
    }
  }

  lemma TrackCreditsExact(voc: Vocabulary, data: Document, p: Placed<Credit>)
    ensures p in TrackCreditsOf(voc, Field(data, "tracklist")) <==> CreditedOnTrack(voc, data, p.track, p.subTrack, p.position, p.what)
  {
    WalkIsExact(CreditsOn(voc), Field(data, "tracklist"), p);
    var node := NodeAt(Field(data, "tracklist"), p.track, p.subTrack);
    if node.Some? {
      CreditsInExact(voc, XmlArray(Field(node.value, "extraartists"), "artist"), p.what);
      assert Plays(data, p.track, p.subTrack, p.position, node.value) <==> p.position == PositionOf(node.value);
    }
  }

  lemma TrackPerformersExact(voc: Vocabulary, data: Document, p: Placed<string>)
    ensures p in TrackPerformersOf(voc, Field(data, "tracklist")) <==> PerformedOnTrack(voc, data, p.track, p.subTrack, p.position, p.what)
  {
    WalkIsExact(PerformersOn(voc), Field(data, "tracklist"), p);
    var node := NodeAt(Field(data, "tracklist"), p.track, p.subTrack);
    if node.Some? {
      IdsInExact(voc, XmlArray(Field(node.value, "artists"), "artist"), p.what);
      assert Plays(data, p.track, p.subTrack, p.position, node.value) <==> p.position == PositionOf(node.value);
    }
  }

  // ---- one relation at a time -------------------------------------------------------------

  /** The rows made of what a list names, one constructor and one id. */
  lemma MadeOf<A(!new)>(row: A -> Edge, named: seq<A>, e: Edge, a: A)
    requires forall x, y :: row(x) == row(y) ==> x == y
    requires e == row(a)
    ensures e in Map(row, named) <==> a in named
  {
    InMap(row, named, e);
  }

  lemma NotMade<A>(row: A -> Edge, named: seq<A>, e: Edge)
    requires forall x :: row(x) != e
    ensures e !in Map(row, named)
  {
    InMap(row, named, e);
  }

  lemma ByArtistExact(voc: Vocabulary, id: string, data: Document, e: Edge)
    ensures e in Map(ByArtistOf(id), ElementIds(voc, Field(data, "artists")))
       <==> e.ByArtist? && e.releaseId == id && Refers(voc, Field(data, "artists"), e.artistId)
  {
    if e.ByArtist? && e.releaseId == id {
      MadeOf(ByArtistOf(id), ElementIds(voc, Field(data, "artists")), e, e.artistId);
      ElementIdsExact(voc, Field(data, "artists"), e.artistId);
    } else {
      NotMade(ByArtistOf(id), ElementIds(voc, Field(data, "artists")), e);
    }
  }

  lemma OnLabelExact(voc: Vocabulary, id: string, data: Document, e: Edge)
    ensures e in Map(OnLabelOf(id), ElementIds(voc, Field(data, "labels")))
       <==> e.OnLabel? && e.releaseId == id && Refers(voc, Field(data, "labels"), e.labelId)
  {
    if e.OnLabel? && e.releaseId == id {
      MadeOf(OnLabelOf(id), ElementIds(voc, Field(data, "labels")), e, e.labelId);
      ElementIdsExact(voc, Field(data, "labels"), e.labelId);
    } else {
      NotMade(OnLabelOf(id), ElementIds(voc, Field(data, "labels")), e);
    }
  }

  lemma TagsExact(row: string -> Edge, value: Json, e: Edge, tag: string)
    requires forall x, y :: row(x) == row(y) ==> x == y
    requires e == row(tag)
    ensures e in Map(row, TagNames(value)) <==> NamesTag(value, tag)
  {
    MadeOf(row, TagNames(value), e, tag);
    TagNamesExact(value, tag);
  }

  lemma InGenreExact(id: string, data: Document, e: Edge)
    ensures e in Map(InGenreOf(id), TagNames(Field(data, "genres"))) <==> e.InGenre? && e.releaseId == id && NamesTag(Field(data, "genres"), e.tag)
  {
    if e.InGenre? && e.releaseId == id {
      TagsExact(InGenreOf(id), Field(data, "genres"), e, e.tag);
    } else {
      NotMade(InGenreOf(id), TagNames(Field(data, "genres")), e);
    }
  }

  lemma InStyleExact(id: string, data: Document, e: Edge)
    ensures e in Map(InStyleOf(id), TagNames(Field(data, "styles"))) <==> e.InStyle? && e.releaseId == id && NamesTag(Field(data, "styles"), e.tag)
  {
    if e.InStyle? && e.releaseId == id {
      TagsExact(InStyleOf(id), Field(data, "styles"), e, e.tag);
    } else {
      NotMade(InStyleOf(id), TagNames(Field(data, "styles")), e);
    }
  }

  lemma CreditedOnExact(voc: Vocabulary, id: string, data: Document, e: Edge)
    ensures e in CreditedOnRows(voc, id, data)
       <==> e.CreditedOn? && e.releaseId == id && exists artistId :: CreditedOnRelease(voc, data, Credit(e.person, e.role, artistId))
  {
    var credits := CreditsOf(voc, Elements(Field(data, "extraartists")));
    UniqueMembers(Map(CreditedOnOf(id), credits));
    InMap(CreditedOnOf(id), credits, e);
    forall c ensures c in credits <==> CreditedOnRelease(voc, data, c) {
      ReleaseCreditsExact(voc, data, c);
    }
    if c :| c in credits && CreditedOnOf(id)(c) == e {
      assert c == Credit(e.person, e.role, c.artistId);
    }
    if e.CreditedOn? && e.releaseId == id {
      if artistId :| CreditedOnRelease(voc, data, Credit(e.person, e.role, artistId)) {
        assert CreditedOnOf(id)(Credit(e.person, e.role, artistId)) == e;
      }
    }
  }

  lemma {:induction false} SameAsOfExact(credits: seq<Credit>, e: Edge)
    ensures e in SameAsOf(credits) <==> e.SameAs? && exists role :: Credit(e.person, role, Some(e.artistId)) in credits
  {
    if credits != [] {
      SameAsOfExact(credits[1..], e);
      assert credits == [credits[0]] + credits[1..];
      if e in SameAsFor(credits[0].name, credits[0].artistId) {
        assert credits[0] == Credit(e.person, credits[0].role, Some(e.artistId));
      }
    }
  }

  lemma {:induction false} SameAsOnTracksExact(credits: seq<Placed<Credit>>, e: Edge)
    ensures e in SameAsOnTracks(credits)
       <==> e.SameAs? && exists p :: p in credits && p.what.name == e.person && p.what.artistId == Some(e.artistId)
  {
    if credits != [] {
      SameAsOnTracksExact(credits[1..], e);
      assert credits == [credits[0]] + credits[1..];
    }
  }

  lemma ReleaseIdentitiesExact(voc: Vocabulary, data: Document, e: Edge)
    ensures e in SameAsOf(CreditsOf(voc, Elements(Field(data, "extraartists"))))
       <==> e.SameAs? && IdentifiedOnRelease(voc, data, e.person, e.artistId)
  {
    SameAsOfExact(CreditsOf(voc, Elements(Field(data, "extraartists"))), e);
    forall c ensures c in CreditsOf(voc, Elements(Field(data, "extraartists"))) <==> CreditedOnRelease(voc, data, c) {
      ReleaseCreditsExact(voc, data, c);
    }
  }

  lemma TrackIdentitiesExact(voc: Vocabulary, data: Document, e: Edge)
    ensures e in SameAsOnTracks(TrackCreditsOf(voc, Field(data, "tracklist")))
       <==> e.SameAs? && IdentifiedOnTrack(voc, data, e.person, e.artistId)
  {
    var credits := TrackCreditsOf(voc, Field(data, "tracklist"));
    SameAsOnTracksExact(credits, e);
    if p :| p in credits && e.SameAs? && p.what.name == e.person && p.what.artistId == Some(e.artistId) {
      TrackCreditsExact(voc, data, p);
      assert CreditedOnTrack(voc, data, p.track, p.subTrack, p.position, Credit(e.person, p.what.role, Some(e.artistId)));
    }
    if e.SameAs? && IdentifiedOnTrack(voc, data, e.person, e.artistId) {
      var t, s, pos, role :| CreditedOnTrack(voc, data, t, s, pos, Credit(e.person, role, Some(e.artistId)));
      TrackCreditsExact(voc, data, Placed(t, s, pos, Credit(e.person, role, Some(e.artistId))));
    }
  }

  lemma SameAsExact(voc: Vocabulary, id: string, data: Document, e: Edge)
    ensures e in SameAsRows(voc, data) <==> e.SameAs? && Reads(voc, DocId(RELEASES, id), data, e)
  {
    UniqueMembers(SameAsOf(CreditsOf(voc, Elements(Field(data, "extraartists"))))
                  + SameAsOnTracks(TrackCreditsOf(voc, Field(data, "tracklist"))));
    ReleaseIdentitiesExact(voc, data, e);
    TrackIdentitiesExact(voc, data, e);
  }

  lemma IssuedOnExact(voc: Vocabulary, id: string, data: Document, e: Edge)
    ensures e in IssuedOnRows(voc, id, data) <==> e.IssuedOn? && Reads(voc, DocId(RELEASES, id), data, e)
  {
    if e.IssuedOn? {
      MediumsExact(MediaItems(voc, data), e.mediumId);
      UnitsExact(MediaItems(voc, data), e.mediumId);
    }
    IssuedOnTotals(voc, id, data, e);
  }

  lemma {:induction false} MediumsExact(items: seq<Document>, medium: string)
    ensures medium in Mediums(items) <==> Lists(items, medium)
  {
    if items != [] {
      var init, last := items[..|items| - 1], items[|items| - 1];
      assert items == init + [last];
      MediumsExact(init, medium);
      assert OfMedium(last, medium) <==> UsableMedium(last) && Field(last, "medium").s == medium;
      assert last in items;
      if Lists(init, medium) {
        var item :| item in init && OfMedium(item, medium);
        assert item in items;
      }
      if Lists(items, medium) {
        var item :| item in items && OfMedium(item, medium);
        assert item in init || item == last;
      }
    }
  }

  lemma {:induction false} UnitsAppend(items: seq<Document>, item: Document, medium: string)
    ensures UnitsOf(items + [item], medium) == UnitsOf(items, medium) + if OfMedium(item, medium) then Quantity(item) else 0
  {
    if items == [] {
      assert items + [item] == [item] && [item][1..] == [];
    } else {
      assert (items + [item])[1..] == items[1..] + [item];
      UnitsAppend(items[1..], item, medium);
    }
  }

  lemma {:induction false} UnitsExact(items: seq<Document>, medium: string)
    ensures TotalOf(items, medium) == UnitsOf(items, medium)
  {
    if items != [] {
      var init, last := items[..|items| - 1], items[|items| - 1];
      assert items == init + [last];
      UnitsExact(init, medium);
      UnitsAppend(init, last, medium);
    }
  }

  lemma IssuedOnTotals(voc: Vocabulary, id: string, data: Document, e: Edge)
    ensures e in IssuedOnRows(voc, id, data)
       <==> e.IssuedOn? && e.releaseId == id && e.source == DISCOGS_SOURCE
            && e.mediumId in Mediums(MediaItems(voc, data)) && e.qty == TotalOf(MediaItems(voc, data), e.mediumId)
  {
    var items := MediaItems(voc, data);
    var order, media := Unique(Mediums(items)), MediaOf(voc, data);
    UniqueMembers(Mediums(items));
    InMap(IssuedOnOf(id), media, e);
    if m :| m in media && IssuedOnOf(id)(m) == e {
      var i :| 0 <= i < |media| && media[i] == m;
      assert m.medium == order[i] && order[i] in order;
    }
    if e.IssuedOn? && e.mediumId in Mediums(items) {
      var i :| 0 <= i < |order| && order[i] == e.mediumId;
      assert media[i] in media;
      assert e.releaseId == id && e.source == DISCOGS_SOURCE && e.qty == TotalOf(items, e.mediumId) ==> IssuedOnOf(id)(media[i]) == e;
    }
  }

  lemma CreditedToExact(voc: Vocabulary, id: string, data: Document, e: Edge)
    ensures e in CreditedToRows(voc, id, data) <==> e.CreditedTo? && Reads(voc, DocId(RELEASES, id), data, e)
  {
    var companies := CompaniesOf(voc, data);
    InMap(CreditedToOf(id), companies, e);
    forall c ensures c in companies <==> CreditsCompany(voc, data, c) {
      CompaniesExact(voc, data, c);
    }
    if c :| c in companies && CreditedToOf(id)(c) == e {
      assert c == CompanyRow(e.companyId, c.name, e.role, e.category);
    }
    if e.CreditedTo? && e.releaseId == id && e.source == DISCOGS_SOURCE {
      if name :| CreditsCompany(voc, data, CompanyRow(e.companyId, name, e.role, e.category)) {
        assert CreditedToOf(id)(CompanyRow(e.companyId, name, e.role, e.category)) == e;
      }
    }
  }

  lemma CompaniesExact(voc: Vocabulary, data: Document, c: CompanyRow)
    ensures c in CompaniesOf(voc, data) <==> CreditsCompany(voc, data, c)
  {
    if StatesCompanies(data) {
      CompanyRowsKeepTheFirst(voc, Elements(Field(Field(data, "companies").fields, "items")), c);
    }
  }

  lemma TrackCreditedOnExact(voc: Vocabulary, id: string, data: Document, e: Edge)
    ensures e in TrackCreditedOnRows(voc, id, data) <==> e.TrackCreditedOn? && Reads(voc, DocId(RELEASES, id), data, e)
  {
    var credits := TrackCreditsOf(voc, Field(data, "tracklist"));
    UniqueMembers(Map(TrackCreditedOnOf(id), credits));
    InMap(TrackCreditedOnOf(id), credits, e);
    if p :| p in credits && TrackCreditedOnOf(id)(p) == e {
      TrackCreditsExact(voc, data, p);
      assert p.what == Credit(e.person, e.role, p.what.artistId);
    }
    if e.TrackCreditedOn? && e.releaseId == id {
      if artistId :| CreditedOnTrack(voc, data, e.track, e.subTrack, e.position, Credit(e.person, e.role, artistId)) {
        var p := Placed(e.track, e.subTrack, e.position, Credit(e.person, e.role, artistId));
        TrackCreditsExact(voc, data, p);
        assert TrackCreditedOnOf(id)(p) == e;
      }
    }
  }

  lemma TrackByArtistExact(voc: Vocabulary, id: string, data: Document, e: Edge)
    ensures e in TrackByArtistRows(voc, id, data) <==> e.TrackByArtist? && Reads(voc, DocId(RELEASES, id), data, e)
  {
    var performers := TrackPerformersOf(voc, Field(data, "tracklist"));
    UniqueMembers(Map(TrackByArtistOf(id), performers));
    InMap(TrackByArtistOf(id), performers, e);
    if p :| p in performers && TrackByArtistOf(id)(p) == e {
      TrackPerformersExact(voc, data, p);
    }
    if e.TrackByArtist? && e.releaseId == id {
      var p := Placed(e.track, e.subTrack, e.position, e.artistId);
      TrackPerformersExact(voc, data, p);
      assert TrackByArtistOf(id)(p) == e;
    }
  }

  lemma DerivedFromExact(voc: Vocabulary, id: string, data: Document, e: Edge)
    ensures e in DerivedFromOf(voc, id, data)
       <==> e.DerivedFrom? && e.releaseId == id && EntityId(voc, Field(data, "master_id")) == Some(e.masterId)
  {
  }

  // ---- whole documents --------------------------------------------------------------------

  predicate PlainRelation(e: Edge) {
    e.ByArtist? || e.OnLabel? || e.DerivedFrom? || e.InGenre? || e.InStyle? || e.CreditedOn?
  }

  lemma PlainExact(voc: Vocabulary, id: string, data: Document, e: Edge)
    ensures e in PlainReleaseEdges(voc, id, data) <==> PlainRelation(e) && Reads(voc, DocId(RELEASES, id), data, e)
  {
    InSixParts(Map(ByArtistOf(id), ElementIds(voc, Field(data, "artists"))), Map(OnLabelOf(id), ElementIds(voc, Field(data, "labels"))),
               DerivedFromOf(voc, id, data), Map(InGenreOf(id), TagNames(Field(data, "genres"))),
               Map(InStyleOf(id), TagNames(Field(data, "styles"))), CreditedOnRows(voc, id, data), e);
    ByArtistExact(voc, id, data, e);
    OnLabelExact(voc, id, data, e);
    DerivedFromExact(voc, id, data, e);
    InGenreExact(id, data, e);
    InStyleExact(id, data, e);
    CreditedOnExact(voc, id, data, e);
  }

  predicate OfReleases(e: Edge) {
    PlainRelation(e) || e.SameAs? || e.IssuedOn? || e.CreditedTo? || e.TrackCreditedOn? || e.TrackByArtist?
  }

  lemma ReleasesRead(voc: Vocabulary, id: string, data: Document, e: Edge)
    ensures Reads(voc, DocId(RELEASES, id), data, e) ==> OfReleases(e)
  {
  }

  lemma ReleaseExact(voc: Vocabulary, id: string, data: Document, e: Edge)
    ensures e in DeriveRelease(voc, id, data).edges <==> Reads(voc, DocId(RELEASES, id), data, e)
  {
    InSixParts(PlainReleaseEdges(voc, id, data), SameAsRows(voc, data), IssuedOnRows(voc, id, data),
               CreditedToRows(voc, id, data), TrackCreditedOnRows(voc, id, data), TrackByArtistRows(voc, id, data), e);
    PlainExact(voc, id, data, e);
    SameAsExact(voc, id, data, e);
    IssuedOnExact(voc, id, data, e);
    CreditedToExact(voc, id, data, e);
    TrackCreditedOnExact(voc, id, data, e);
    TrackByArtistExact(voc, id, data, e);
    ReleasesRead(voc, id, data, e);
  }

  lemma MasterExact(voc: Vocabulary, id: string, data: Document, e: Edge)
    ensures e in DeriveMaster(voc, id, data).edges <==> Reads(voc, DocId(MASTERS, id), data, e)
  {
    var artists := ElementIds(voc, Field(data, "artists"));
    if e.MasterByArtist? && e.masterId == id {
      MadeOf(MasterByArtistOf(id), artists, e, e.artistId);
      ElementIdsExact(voc, Field(data, "artists"), e.artistId);
    } else {
      NotMade(MasterByArtistOf(id), artists, e);
    }
    if e.MasterInGenre? && e.masterId == id {
      TagsExact(MasterInGenreOf(id), Field(data, "genres"), e, e.tag);
    } else {
      NotMade(MasterInGenreOf(id), TagNames(Field(data, "genres")), e);
    }
    if e.MasterInStyle? && e.masterId == id {
      TagsExact(MasterInStyleOf(id), Field(data, "styles"), e, e.tag);
    } else {
      NotMade(MasterInStyleOf(id), TagNames(Field(data, "styles")), e);
    }
  }

  lemma ReferenceExact(voc: Vocabulary, row: string -> Edge, value: Json, e: Edge, id: string)
    requires forall x, y :: row(x) == row(y) ==> x == y
    requires e == row(id)
    ensures e in Map(row, ElementIds(voc, value)) <==> Refers(voc, value, id)
  {
    MadeOf(row, ElementIds(voc, value), e, id);
    ElementIdsExact(voc, value, id);
  }

  lemma MemberOfExact(voc: Vocabulary, id: string, data: Document, e: Edge)
    ensures e in MemberOfRows(voc, id, data)
       <==> e.MemberOf? && ((e.groupId == id && Refers(voc, Field(data, "members"), e.memberId))
                            || (e.memberId == id && Refers(voc, Field(data, "groups"), e.groupId)))
  {
    var members, groups := ElementIds(voc, Field(data, "members")), ElementIds(voc, Field(data, "groups"));
    UniqueMembers(Map(MembersOf(id), members) + Map(GroupsOf(id), groups));
    if e.MemberOf? && e.groupId == id {
      ReferenceExact(voc, MembersOf(id), Field(data, "members"), e, e.memberId);
    } else {
      NotMade(MembersOf(id), members, e);
    }
    if e.MemberOf? && e.memberId == id {
      ReferenceExact(voc, GroupsOf(id), Field(data, "groups"), e, e.groupId);
    } else {
      NotMade(GroupsOf(id), groups, e);
    }
  }

  lemma AliasOfExact(voc: Vocabulary, id: string, data: Document, e: Edge)
    ensures e in AliasOfRows(voc, id, data) <==> e.AliasOf? && e.artistId == id && Refers(voc, Field(data, "aliases"), e.aliasId)
  {
    var aliases := ElementIds(voc, Field(data, "aliases"));
    UniqueMembers(Map(AliasesOf(id), aliases));
    if e.AliasOf? && e.artistId == id {
      ReferenceExact(voc, AliasesOf(id), Field(data, "aliases"), e, e.aliasId);
    } else {
      NotMade(AliasesOf(id), aliases, e);
    }
  }

  lemma ArtistExact(voc: Vocabulary, id: string, data: Document, e: Edge)
    ensures e in DeriveArtist(voc, id, data).edges <==> Reads(voc, DocId(ARTISTS, id), data, e)
  {
    MemberOfExact(voc, id, data, e);
    AliasOfExact(voc, id, data, e);
  }

  /** For every document of every table and every row: it is derived iff the readers find it. */
  lemma DerivationReads(voc: Vocabulary, doc: DocId, data: Document, e: Edge)
    ensures e in Derive(voc, doc, data).edges <==> Reads(voc, doc, data, e)
  {
    match doc.table
    case ARTISTS => ArtistExact(voc, doc.id, data, e);
    case MASTERS => MasterExact(voc, doc.id, data, e);
    case RELEASES => ReleaseExact(voc, doc.id, data, e);
    case LABELS => assert !Reads(voc, doc, data, e);
  }
}
