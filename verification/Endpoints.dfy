/**
  No edge without its vertices: the views over the graph inner-join the vertex tables, so every
  row this loader wrote must find the vertex rows it names, after any history.
 */
module Endpoints {
  import opened Wrappers
  import opened Rows
  import opened Derivation
  import opened DerivationFacts
  import opened KeyedTables
  import opened GraphWrites
  import opened Catalog
  import opened Purge
  import opened Reconcile
  import opened ReconcileFacts
  import opened CatalogHistory
  import opened CatalogGuarantees

  /** The key of the name-keyed or shared vertex a row refers to; the other ends are entity rows. */
  function Endpoint(e: Edge): Option<Vertex> {
    match e
    case InGenre(_, tag) => Some(Genre(tag))
    case InStyle(_, tag) => Some(Style(tag))
    case MasterInGenre(_, tag) => Some(Genre(tag))
    case MasterInStyle(_, tag) => Some(Style(tag))
    case CreditedOn(person, _, _) => Some(Person(person))
    case TrackCreditedOn(person, _, _, _, _, _) => Some(Person(person))
    case SameAs(person, _) => Some(Person(person))
    case CreditedTo(_, company, _, _, _) => Some(Company(company, "", None))
    case IssuedOn(_, medium, _, _) => Some(Medium(medium, "", ""))
    case _ => None
  }

  ghost predicate NamesItsVertices(g: DocumentGraph) {
    && (forall e :: e in g.edges && Endpoint(e).Some? ==> HasKey(g.vertices, Endpoint(e).value))
    && (forall v :: v in g.vertices && v.Medium? ==> HasKey(g.vertices, MediaFamily(v.family)))
  }

  ghost predicate HasKey(rows: seq<Vertex>, k: Vertex) {
    exists v :: v in rows && VertexKey(v) == k
  }

  // ---- every derivation names the vertices its edges need ---------------------------------

  lemma MapHas<A, B>(f: A -> B, rows: seq<A>, a: A)
    requires a in rows
    ensures f(a) in Map(f, rows)
  {
    var i :| 0 <= i < |rows| && rows[i] == a;
    assert Map(f, rows)[i] == f(a);
  }

  function GenresOf(data: Document): seq<Vertex> {
    Map((n: string) => Genre(n), TagNames(Field(data, "genres")))
  }

  function StylesOf(data: Document): seq<Vertex> {
    Map((n: string) => Style(n), TagNames(Field(data, "styles")))
  }

  function PersonsOf(voc: Vocabulary, data: Document): seq<Vertex> {
    Unique(Map((c: Credit) => Person(c.name), CreditsOf(voc, Elements(Field(data, "extraartists"))))
           + Map((p: Placed<Credit>) => Person(p.what.name), TrackCreditsOf(voc, Field(data, "tracklist"))))
  }

  function FamiliesOf(voc: Vocabulary, data: Document): seq<Vertex> {
    Unique(Map((m: MediaRow) => MediaFamily(m.family), MediaOf(voc, data)))
  }

  function MediumsOf(voc: Vocabulary, data: Document): seq<Vertex> {
    Map((m: MediaRow) => Medium(m.medium, m.family, m.caption), MediaOf(voc, data))
  }

  function CompanyVerticesOf(voc: Vocabulary, data: Document): seq<Vertex> {
    Map((c: CompanyRow) => Company(c.companyId, c.name, LabelPage(c.companyId)), CompaniesOf(voc, data))
  }

  lemma ReleaseVertexParts(voc: Vocabulary, data: Document, v: Vertex)
    ensures v in ReleaseVertices(voc, data) <==>
              v in GenresOf(data) || v in StylesOf(data) || v in PersonsOf(voc, data)
              || v in FamiliesOf(voc, data) || v in MediumsOf(voc, data) || v in CompanyVerticesOf(voc, data)
  {
    var a, b, c, d, f, g := GenresOf(data), StylesOf(data), PersonsOf(voc, data), FamiliesOf(voc, data), MediumsOf(voc, data), CompanyVerticesOf(voc, data);
    assert ReleaseVertices(voc, data) == a + b + c + d + f + g;
    InSixParts(a, b, c, d, f, g, v);
  }

  lemma TagIsNamed(tags: seq<string>, row: string -> Edge, vertex: string -> Vertex, e: Edge)
    requires e in Map(row, tags)
    requires forall t :: Endpoint(row(t)) == Some(vertex(t))
    ensures Endpoint(e).Some? && Endpoint(e).value in Map(vertex, tags)
  {
    InMap(row, tags, e);
    var t :| t in tags && e == row(t);
    MapHas(vertex, tags, t);
  }

  lemma CreditIsNamed(voc: Vocabulary, data: Document, name: string)
    requires (exists c :: c in CreditsOf(voc, Elements(Field(data, "extraartists"))) && c.name == name)
          || (exists p :: p in TrackCreditsOf(voc, Field(data, "tracklist")) && p.what.name == name)
    ensures Person(name) in PersonsOf(voc, data)
  {
    var credits, placed := CreditsOf(voc, Elements(Field(data, "extraartists"))), TrackCreditsOf(voc, Field(data, "tracklist"));
    var own, tracks := Map((c: Credit) => Person(c.name), credits), Map((p: Placed<Credit>) => Person(p.what.name), placed);
    UniqueMembers(own + tracks);
    if c :| c in credits && c.name == name {
      MapHas((c: Credit) => Person(c.name), credits, c);
    } else {
      var p :| p in placed && p.what.name == name;
      MapHas((p: Placed<Credit>) => Person(p.what.name), placed, p);
    }
  }

  lemma PlainParts(voc: Vocabulary, id: string, data: Document, e: Edge)
    requires e in PlainReleaseEdges(voc, id, data) && Endpoint(e).Some?
    ensures e in Map(InGenreOf(id), TagNames(Field(data, "genres"))) || e in Map(InStyleOf(id), TagNames(Field(data, "styles")))
         || e in CreditedOnRows(voc, id, data)
  {
    var artists, labels := ElementIds(voc, Field(data, "artists")), ElementIds(voc, Field(data, "labels"));
    InMap(ByArtistOf(id), artists, e);
    InMap(OnLabelOf(id), labels, e);
    InSixParts(Map(ByArtistOf(id), artists), Map(OnLabelOf(id), labels), DerivedFromOf(voc, id, data),
               Map(InGenreOf(id), TagNames(Field(data, "genres"))), Map(InStyleOf(id), TagNames(Field(data, "styles"))),
               CreditedOnRows(voc, id, data), e);
  }

  lemma GenreEdgeIsNamed(id: string, data: Document, e: Edge)
    requires e in Map(InGenreOf(id), TagNames(Field(data, "genres")))
    ensures Endpoint(e).Some? && Endpoint(e).value in GenresOf(data)
  {
    TagIsNamed(TagNames(Field(data, "genres")), InGenreOf(id), (n: string) => Genre(n), e);
  }

  lemma StyleEdgeIsNamed(id: string, data: Document, e: Edge)
    requires e in Map(InStyleOf(id), TagNames(Field(data, "styles")))
    ensures Endpoint(e).Some? && Endpoint(e).value in StylesOf(data)
  {
    TagIsNamed(TagNames(Field(data, "styles")), InStyleOf(id), (n: string) => Style(n), e);
  }

  lemma CreditEdgeIsNamed(voc: Vocabulary, id: string, data: Document, e: Edge)
    requires e in CreditedOnRows(voc, id, data)
    ensures Endpoint(e).Some? && Endpoint(e).value in PersonsOf(voc, data)
  {
    var credits := CreditsOf(voc, Elements(Field(data, "extraartists")));
    UniqueMembers(Map(CreditedOnOf(id), credits));
    InMap(CreditedOnOf(id), credits, e);
    CreditIsNamed(voc, data, e.person);
  }

  lemma PlainEdgeIsNamed(voc: Vocabulary, id: string, data: Document, e: Edge)
    requires e in PlainReleaseEdges(voc, id, data) && Endpoint(e).Some?
    ensures Endpoint(e).value in GenresOf(data) || Endpoint(e).value in StylesOf(data) || Endpoint(e).value in PersonsOf(voc, data)
  {
    PlainParts(voc, id, data, e);
    if e in Map(InGenreOf(id), TagNames(Field(data, "genres"))) {
      GenreEdgeIsNamed(id, data, e);
    } else if e in Map(InStyleOf(id), TagNames(Field(data, "styles"))) {
      StyleEdgeIsNamed(id, data, e);
    } else {
      CreditEdgeIsNamed(voc, id, data, e);
    }
  }

  lemma {:induction false} IdentityOfACredit(credits: seq<Credit>, e: Edge)
    requires e in SameAsOf(credits)
    ensures e.SameAs? && exists c :: c in credits && c.name == e.person
  {
    if e in SameAsOf(credits[1..]) {
      IdentityOfACredit(credits[1..], e);
    } else {
      assert credits[0] in credits;
    }
  }

  lemma {:induction false} IdentityOfAPlacedCredit(credits: seq<Placed<Credit>>, e: Edge)
    requires e in SameAsOnTracks(credits)
    ensures e.SameAs? && exists p :: p in credits && p.what.name == e.person
  {
    if e in SameAsOnTracks(credits[1..]) {
      IdentityOfAPlacedCredit(credits[1..], e);
    } else {
      assert credits[0] in credits;
    }
  }

  lemma IdentityIsNamed(voc: Vocabulary, data: Document, e: Edge)
    requires e in SameAsRows(voc, data)
    ensures e.SameAs? && Person(e.person) in PersonsOf(voc, data)
  {
    var credits, placed := CreditsOf(voc, Elements(Field(data, "extraartists"))), TrackCreditsOf(voc, Field(data, "tracklist"));
    UniqueMembers(SameAsOf(credits) + SameAsOnTracks(placed));
    if e in SameAsOf(credits) {
      IdentityOfACredit(credits, e);
    } else {
      IdentityOfAPlacedCredit(placed, e);
    }
    CreditIsNamed(voc, data, e.person);
  }

  lemma TrackCreditIsNamed(voc: Vocabulary, id: string, data: Document, e: Edge)
    requires e in TrackCreditedOnRows(voc, id, data)
    ensures e.TrackCreditedOn? && Person(e.person) in PersonsOf(voc, data)
  {
    var placed := TrackCreditsOf(voc, Field(data, "tracklist"));
    UniqueMembers(Map(TrackCreditedOnOf(id), placed));
    InMap(TrackCreditedOnOf(id), placed, e);
    CreditIsNamed(voc, data, e.person);
  }

  lemma TrackPerformerHasNoVertex(voc: Vocabulary, id: string, data: Document, e: Edge)
    requires e in TrackByArtistRows(voc, id, data)
    ensures Endpoint(e).None?
  {
    var placed := TrackPerformersOf(voc, Field(data, "tracklist"));
    UniqueMembers(Map(TrackByArtistOf(id), placed));
    InMap(TrackByArtistOf(id), placed, e);
  }

  lemma MediumIsNamed(voc: Vocabulary, id: string, data: Document, e: Edge)
    requires e in IssuedOnRows(voc, id, data)
    ensures e.IssuedOn? && HasKey(MediumsOf(voc, data), Medium(e.mediumId, "", ""))
  {
    InMap(IssuedOnOf(id), MediaOf(voc, data), e);
    var m :| m in MediaOf(voc, data) && IssuedOnOf(id)(m) == e;
    MapHas((m: MediaRow) => Medium(m.medium, m.family, m.caption), MediaOf(voc, data), m);
    assert VertexKey(Medium(m.medium, m.family, m.caption)) == Medium(e.mediumId, "", "");
  }

  lemma CompanyIsNamed(voc: Vocabulary, id: string, data: Document, e: Edge)
    requires e in CreditedToRows(voc, id, data)
    ensures e.CreditedTo? && HasKey(CompanyVerticesOf(voc, data), Company(e.companyId, "", None))
  {
    InMap(CreditedToOf(id), CompaniesOf(voc, data), e);
    var c :| c in CompaniesOf(voc, data) && CreditedToOf(id)(c) == e;
    MapHas((c: CompanyRow) => Company(c.companyId, c.name, LabelPage(c.companyId)), CompaniesOf(voc, data), c);
    assert VertexKey(Company(c.companyId, c.name, LabelPage(c.companyId))) == Company(e.companyId, "", None);
  }

  lemma PartsAreRows(voc: Vocabulary, data: Document)
    ensures forall v :: v in GenresOf(data) || v in StylesOf(data) || v in PersonsOf(voc, data)
                        || v in FamiliesOf(voc, data) || v in MediumsOf(voc, data) || v in CompanyVerticesOf(voc, data) ==>
                          v in ReleaseVertices(voc, data)
  {
    forall v | v in GenresOf(data) || v in StylesOf(data) || v in PersonsOf(voc, data)
               || v in FamiliesOf(voc, data) || v in MediumsOf(voc, data) || v in CompanyVerticesOf(voc, data)
      ensures v in ReleaseVertices(voc, data)
    {
      ReleaseVertexParts(voc, data, v);
    }
  }

  lemma PlainVertexIsRow(voc: Vocabulary, data: Document, v: Vertex)
    requires v in GenresOf(data) || v in StylesOf(data) || v in PersonsOf(voc, data)
    requires VertexKey(v) == v
    ensures HasKey(ReleaseVertices(voc, data), v)
  {
    ReleaseVertexParts(voc, data, v);
  }

  lemma KeyedVertexIsRow(voc: Vocabulary, data: Document, k: Vertex)
    requires HasKey(MediumsOf(voc, data), k) || HasKey(CompanyVerticesOf(voc, data), k)
    ensures HasKey(ReleaseVertices(voc, data), k)
  {
    var v :| (v in MediumsOf(voc, data) || v in CompanyVerticesOf(voc, data)) && VertexKey(v) == k;
    ReleaseVertexParts(voc, data, v);
  }

  lemma PlainPartIsNamed(voc: Vocabulary, id: string, data: Document, e: Edge)
    requires e in PlainReleaseEdges(voc, id, data) && Endpoint(e).Some?
    ensures HasKey(ReleaseVertices(voc, data), Endpoint(e).value)
  {
    PlainEdgeIsNamed(voc, id, data, e);
    PlainKeys(voc, id, data, e);
    PlainVertexIsRow(voc, data, Endpoint(e).value);
  }

  lemma PersonIsRow(voc: Vocabulary, data: Document, person: string)
    requires Person(person) in PersonsOf(voc, data)
    ensures HasKey(ReleaseVertices(voc, data), Person(person))
  {
    PlainVertexIsRow(voc, data, Person(person));
  }

  lemma PersonEndpoints(e: Edge)
    ensures e.SameAs? || e.TrackCreditedOn? ==> Endpoint(e) == Some(Person(e.person))
  {
  }

  lemma IdentityPartIsNamed(voc: Vocabulary, data: Document, e: Edge)
    requires e in SameAsRows(voc, data)
    ensures Endpoint(e).Some? && HasKey(ReleaseVertices(voc, data), Endpoint(e).value)
  {
    IdentityIsNamed(voc, data, e);
    PersonEndpoints(e);
    PersonIsRow(voc, data, e.person);
  }

  lemma TrackPartIsNamed(voc: Vocabulary, id: string, data: Document, e: Edge)
    requires e in TrackCreditedOnRows(voc, id, data)
    ensures Endpoint(e).Some? && HasKey(ReleaseVertices(voc, data), Endpoint(e).value)
  {
    TrackCreditIsNamed(voc, id, data, e);
    PersonEndpoints(e);
    PersonIsRow(voc, data, e.person);
  }

  lemma KeyedEndpoints(e: Edge)
    ensures e.IssuedOn? ==> Endpoint(e) == Some(Medium(e.mediumId, "", ""))
    ensures e.CreditedTo? ==> Endpoint(e) == Some(Company(e.companyId, "", None))
  {
  }

  lemma MediumRowIsNamed(voc: Vocabulary, id: string, data: Document, e: Edge)
    requires e in IssuedOnRows(voc, id, data)
    ensures Endpoint(e).Some? && HasKey(ReleaseVertices(voc, data), Endpoint(e).value)
  {
    MediumIsNamed(voc, id, data, e);
    KeyedEndpoints(e);
    KeyedVertexIsRow(voc, data, Medium(e.mediumId, "", ""));
  }

  lemma CompanyRowIsNamed(voc: Vocabulary, id: string, data: Document, e: Edge)
    requires e in CreditedToRows(voc, id, data)
    ensures Endpoint(e).Some? && HasKey(ReleaseVertices(voc, data), Endpoint(e).value)
  {
    CompanyIsNamed(voc, id, data, e);
    KeyedEndpoints(e);
    KeyedVertexIsRow(voc, data, Company(e.companyId, "", None));
  }

  lemma ReleaseEdgeIsNamed(voc: Vocabulary, id: string, data: Document, e: Edge)
    requires e in DeriveRelease(voc, id, data).edges && Endpoint(e).Some?
    ensures HasKey(ReleaseVertices(voc, data), Endpoint(e).value)
  {
    InSixParts(PlainReleaseEdges(voc, id, data), SameAsRows(voc, data), IssuedOnRows(voc, id, data),
               CreditedToRows(voc, id, data), TrackCreditedOnRows(voc, id, data), TrackByArtistRows(voc, id, data), e);
    if e in IssuedOnRows(voc, id, data) {
      MediumRowIsNamed(voc, id, data, e);
    } else if e in CreditedToRows(voc, id, data) {
      CompanyRowIsNamed(voc, id, data, e);
    } else if e in SameAsRows(voc, data) {
      IdentityPartIsNamed(voc, data, e);
    } else if e in TrackCreditedOnRows(voc, id, data) {
      TrackPartIsNamed(voc, id, data, e);
    } else {
      if e in TrackByArtistRows(voc, id, data) {
        TrackPerformerHasNoVertex(voc, id, data, e);
      }
      PlainPartIsNamed(voc, id, data, e);
    }
  }

  lemma PlainKeys(voc: Vocabulary, id: string, data: Document, e: Edge)
    requires e in PlainReleaseEdges(voc, id, data) && Endpoint(e).Some?
    ensures VertexKey(Endpoint(e).value) == Endpoint(e).value
  {
    PlainGroups(voc, id, data);
    assert RelationOf(e) in PLAIN_RELATIONS;
  }

  lemma FamilyIsNamed(voc: Vocabulary, data: Document, v: Vertex)
    requires v in ReleaseVertices(voc, data) && v.Medium?
    ensures HasKey(ReleaseVertices(voc, data), MediaFamily(v.family))
  {
    ReleaseVertexParts(voc, data, v);
    OnlyMediumsAreMediums(voc, data, v);
    var media := MediaOf(voc, data);
    InMapOf((m: MediaRow) => Medium(m.medium, m.family, m.caption), media, v);
    var m :| m in media && Medium(m.medium, m.family, m.caption) == v;
    MapHas((m: MediaRow) => MediaFamily(m.family), media, m);
    UniqueMembers(Map((m: MediaRow) => MediaFamily(m.family), media));
    PartsAreRows(voc, data);
    assert VertexKey(MediaFamily(v.family)) == MediaFamily(v.family);
    assert MediaFamily(v.family) in FamiliesOf(voc, data);
  }

  lemma InMapOf<A>(f: A -> Vertex, rows: seq<A>, v: Vertex)
    requires v in Map(f, rows)
    ensures exists a :: a in rows && f(a) == v
  {
    InMap(f, rows, v);
  }

  lemma OnlyMediumsAreMediums(voc: Vocabulary, data: Document, v: Vertex)
    requires v.Medium?
    ensures v !in GenresOf(data) && v !in StylesOf(data) && v !in PersonsOf(voc, data)
    ensures v !in FamiliesOf(voc, data) && v !in CompanyVerticesOf(voc, data)
  {
    UniqueMembers(Map((m: MediaRow) => MediaFamily(m.family), MediaOf(voc, data)));
    var credits, placed := CreditsOf(voc, Elements(Field(data, "extraartists"))), TrackCreditsOf(voc, Field(data, "tracklist"));
    UniqueMembers(Map((c: Credit) => Person(c.name), credits) + Map((p: Placed<Credit>) => Person(p.what.name), placed));
  }

  // ---- every derivation -------------------------------------------------------------------

  lemma MasterEdgeIsNamed(voc: Vocabulary, id: string, data: Document, e: Edge)
    requires e in DeriveMaster(voc, id, data).edges && Endpoint(e).Some?
    ensures HasKey(DeriveMaster(voc, id, data).vertices, Endpoint(e).value)
  {
    var artists := ElementIds(voc, Field(data, "artists"));
    InMap(MasterByArtistOf(id), artists, e);
    if e in Map(MasterInGenreOf(id), TagNames(Field(data, "genres"))) {
      TagIsNamed(TagNames(Field(data, "genres")), MasterInGenreOf(id), (n: string) => Genre(n), e);
      InMap(MasterInGenreOf(id), TagNames(Field(data, "genres")), e);
    } else {
      TagIsNamed(TagNames(Field(data, "styles")), MasterInStyleOf(id), (n: string) => Style(n), e);
      InMap(MasterInStyleOf(id), TagNames(Field(data, "styles")), e);
    }
    assert DeriveMaster(voc, id, data).vertices == GenresOf(data) + StylesOf(data);
    assert Endpoint(e).value in GenresOf(data) + StylesOf(data) && VertexKey(Endpoint(e).value) == Endpoint(e).value;
  }

  lemma ArtistEdgeHasNoVertex(voc: Vocabulary, id: string, data: Document, e: Edge)
    requires e in DeriveArtist(voc, id, data).edges
    ensures Endpoint(e).None?
  {
    ArtistGroups(voc, id, data);
    assert RelationOf(e) in {MEMBER_OF, ALIAS_OF};
  }

  /** For every document of every table: each edge's vertex, and each medium's family, is among its own vertex rows. */
  lemma DerivedEdgesNameTheirVertices(voc: Vocabulary, doc: DocId, data: Document)
    ensures NamesItsVertices(Derive(voc, doc, data))
  {
    var g := Derive(voc, doc, data);
    forall e | e in g.edges && Endpoint(e).Some? ensures HasKey(g.vertices, Endpoint(e).value) {
      match doc.table
      case ARTISTS => ArtistEdgeHasNoVertex(voc, doc.id, data, e);
      case MASTERS => MasterEdgeIsNamed(voc, doc.id, data, e);
      case RELEASES => ReleaseEdgeIsNamed(voc, doc.id, data, e);
      case LABELS =>
    }
    forall v | v in g.vertices && v.Medium? ensures HasKey(g.vertices, MediaFamily(v.family)) {
      if doc.table == RELEASES {
        FamilyIsNamed(voc, data, v);
      }
    }
  }

  // ---- the tables -------------------------------------------------------------------------

  ghost predicate EdgesJoin(g: Graph) {
    forall e :: HasRow(g, e) && !Foreign(e) && Endpoint(e).Some? ==> Endpoint(e).value in g.vertices
  }

  ghost predicate MediaJoin(g: Graph) {
    forall k :: k in g.vertices && g.vertices[k].Medium? ==> MediaFamily(g.vertices[k].family) in g.vertices
  }

  ghost predicate StoredJoin(voc: Vocabulary, db: Database) {
    forall d :: d in db.entities ==> VerticesPresent(db.graph, Derive(voc, d, db.entities[d].data))
  }

  ghost predicate VerticesPresent(g: Graph, derived: DocumentGraph) {
    forall v :: v in derived.vertices ==> VertexKey(v) in g.vertices
  }

  ghost predicate Joins(voc: Vocabulary, db: Database) {
    Keyed(db.graph) && EdgesJoin(db.graph) && MediaJoin(db.graph) && StoredJoin(voc, db)
  }

  lemma VerticesAfterOne(g: Graph, change: Change, k: Vertex)
    ensures var after := WriteChanges(g, [change]).vertices;
            (k in after <==> k in g.vertices || HasKey(change.graph.vertices, k))
            && (k in after && k !in g.vertices ==> after[k] in change.graph.vertices)
            && (k in g.vertices ==> after[k] == g.vertices[k])
  {
    OneChange(change, MemberOf("", ""));
    InsertAllAt(g.vertices, change.graph.vertices, VertexKey, k);
    FirstWithIsARow(change.graph.vertices, VertexKey, k);
  }

  lemma EdgeAfterOneIsOldOrDerived(g: Graph, change: Change, e: Edge)
    requires OwnsItsRows(change.doc, change.graph) && HasRow(WriteChanges(g, [change]), e)
    ensures HasRow(g, e) || e in change.graph.edges
  {
    EdgeAfterOne(g, change, EdgeKey(e));
    FirstWithIsARow(change.graph.edges, EdgeKey, EdgeKey(e));
  }

  lemma WriteKeepsEdgesJoined(g: Graph, change: Change)
    requires EdgesJoin(g) && MediaJoin(g) && OwnsItsRows(change.doc, change.graph) && NamesItsVertices(change.graph)
    ensures EdgesJoin(WriteChanges(g, [change])) && MediaJoin(WriteChanges(g, [change]))
  {
    var after := WriteChanges(g, [change]);
    forall e | HasRow(after, e) && !Foreign(e) && Endpoint(e).Some? ensures Endpoint(e).value in after.vertices {
      EdgeAfterOneIsOldOrDerived(g, change, e);
      VerticesAfterOne(g, change, Endpoint(e).value);
    }
    forall k | k in after.vertices && after.vertices[k].Medium? ensures MediaFamily(after.vertices[k].family) in after.vertices {
      VerticesAfterOne(g, change, k);
      VerticesAfterOne(g, change, MediaFamily(after.vertices[k].family));
    }
  }

  lemma WriteKeepsVertices(g: Graph, change: Change, derived: DocumentGraph)
    requires VerticesPresent(g, derived) || derived == change.graph
    ensures VerticesPresent(WriteChanges(g, [change]), derived)
  {
    forall v | v in derived.vertices ensures VertexKey(v) in WriteChanges(g, [change]).vertices {
      VerticesAfterOne(g, change, VertexKey(v));
    }
  }

  lemma OneWriteKeepsJoins(voc: Vocabulary, s: State, t: State, table: Table, m: Message, change: Change)
    requires Joins(voc, s.db) && Writes(s, t, table, m, change)
    requires change.graph == Derive(voc, DocId(table, m.id), m.data)
    ensures Joins(voc, t.db)
  {
    if !Unchanged(Lookup(s.db.entities, DocId(table, m.id)), m) {
      ChangeKeepsKeyed(s.db.graph, change);
      DerivedEdgesNameTheirVertices(voc, DocId(table, m.id), m.data);
      WriteKeepsEdgesJoined(s.db.graph, change);
    }
    forall d | d in t.db.entities ensures VerticesPresent(t.db.graph, Derive(voc, d, t.db.entities[d].data)) {
      StoredStaysJoined(voc, s, t, table, m, change, d);
    }
  }

  lemma SameOrWritten(s: State, t: State, table: Table, m: Message, change: Change, d: DocId)
    requires Writes(s, t, table, m, change) && d in t.db.entities
    ensures if Unchanged(Lookup(s.db.entities, DocId(table, m.id)), m) || d != DocId(table, m.id)
            then d in s.db.entities && t.db.entities[d].data == s.db.entities[d].data
            else t.db.entities[d].data == m.data
    ensures t.db.graph == if Unchanged(Lookup(s.db.entities, DocId(table, m.id)), m) then s.db.graph else WriteChanges(s.db.graph, [change])
  {
  }

  lemma StoredStaysJoined(voc: Vocabulary, s: State, t: State, table: Table, m: Message, change: Change, d: DocId)
    requires StoredJoin(voc, s.db) && Writes(s, t, table, m, change) && d in t.db.entities
    requires change.graph == Derive(voc, DocId(table, m.id), m.data)
    ensures VerticesPresent(t.db.graph, Derive(voc, d, t.db.entities[d].data))
  {
    SameOrWritten(s, t, table, m, change, d);
    if !Unchanged(Lookup(s.db.entities, DocId(table, m.id)), m) {
      WriteKeepsVertices(s.db.graph, change, Derive(voc, d, t.db.entities[d].data));
    }
  }

  lemma {:induction false} BatchKeepsJoins(s: State, table: Table, ctx: Context, latest: seq<Message>)
    requires Joins(ctx.voc, s.db) && OnePerDocument(latest)
    ensures Joins(ctx.voc, BatchState(s, table, ctx, latest).db)
  {
    if latest == [] {
      NothingWritten(s.db.graph);
      assert BatchEntities(ctx, table, s.db.entities, []) == s.db.entities;
    } else {
      var init, last := latest[..|latest| - 1], latest[|latest| - 1];
      assert latest == init + [last];
      LastIsNew(init, last);
      BatchKeepsJoins(s, table, ctx, init);
      BatchWritesOneByOne(s, table, ctx, init, last, ChangeOf(ctx, table, last));
      OneWriteKeepsJoins(ctx.voc, BatchState(s, table, ctx, init), BatchState(s, table, ctx, latest), table, last, ChangeOf(ctx, table, last));
    }
  }

  lemma PurgeKeepsJoins(voc: Vocabulary, s: State, event: Event)
    requires Joins(voc, s.db) && event.PurgeRun?
    ensures Joins(voc, Apply(s, event).db)
  {
    var t := Apply(s, event);
    PurgeIsExact(s.db, event.table, event.started, event.count, event.cap);
    assert t.db.graph.vertices == s.db.graph.vertices;
    forall e | HasRow(t.db.graph, e) ensures HasRow(s.db.graph, e) {
      PurgedRow(s, event.table, event.started, event.count, event.cap, e);
    }
  }

  lemma IdentityEndpointIsStored(voc: Vocabulary, db: Database, e: Edge)
    requires StoredJoin(voc, db) && SomeStoredAsserts(voc, db.entities, e) && Endpoint(e).Some?
    ensures Endpoint(e).value in db.graph.vertices
  {
    var d :| d in db.entities && Asserts(voc, d, db.entities[d].data, e);
    DerivedEdgesNameTheirVertices(voc, d, db.entities[d].data);
    NamedVertexIsPresent(db.graph, Derive(voc, d, db.entities[d].data), Endpoint(e).value);
  }

  lemma NamedVertexIsPresent(g: Graph, derived: DocumentGraph, k: Vertex)
    requires VerticesPresent(g, derived) && HasKey(derived.vertices, k)
    ensures k in g.vertices
  {
  }

  lemma PassedRowIsOldOrStored(voc: Vocabulary, s: State, relation: EdgeRelation, e: Edge)
    requires Keyed(s.db.graph) && Additive(relation) && HasRow(Passed(voc, s, relation).db.graph, e)
    ensures HasRow(s.db.graph, e) || SomeStoredAsserts(voc, s.db.entities, e)
  {
    if Stored(s.db.entities, SourceTable(relation)) {
      RowsAfterPass(voc, s.db, relation, e);
      if RelationOf(e) == relation {
        RowAfterPass(voc, s.db, relation, e);
      }
    }
  }

  lemma PassKeepsJoins(voc: Vocabulary, s: State, relation: EdgeRelation)
    requires Joins(voc, s.db) && Additive(relation)
    ensures Joins(voc, Passed(voc, s, relation).db)
  {
    var t := Passed(voc, s, relation);
    PassKeepsKeyed(voc, s.db, relation);
    forall e | HasRow(t.db.graph, e) && !Foreign(e) && Endpoint(e).Some? ensures Endpoint(e).value in t.db.graph.vertices {
      PassedRowIsOldOrStored(voc, s, relation, e);
      if !HasRow(s.db.graph, e) {
        IdentityEndpointIsStored(voc, s.db, e);
      }
    }
  }

  lemma EventKeepsJoins(voc: Vocabulary, s: State, event: Event)
    requires Joins(voc, s.db) && Under(voc, ReachedDocuments, event)
    ensures Joins(voc, Apply(s, event).db)
  {
    match event
    case Batch(table, messages, ctx) =>
      LatestIsTheLastOfEach(messages);
      BatchKeepsJoins(s, table, ctx, Latest(messages));
    case Single(table, m, ctx) =>
      if ctx.resolve(DocId(table, m.id)).Some? {
        PersistWrites(s, table, m, ctx, ChangeOf(ctx, table, m));
        OneWriteKeepsJoins(voc, s, Apply(s, event), table, m, ChangeOf(ctx, table, m));
      }
    case PurgeRun(_, _, _, _) =>
      PurgeKeepsJoins(voc, s, event);
    case ReconcileRun(_) =>
      PassKeepsJoins(voc, s, MEMBER_OF);
      PassKeepsJoins(voc, Passed(voc, s, MEMBER_OF), SAME_AS);
  }

  /** After any history, no row this loader wrote is missing from the views that join it to its vertex. */
  lemma {:induction false} NoEdgeWithoutItsVertex(voc: Vocabulary, s: State, events: seq<Event>)
    requires Joins(voc, s.db) && forall i :: 0 <= i < |events| ==> Under(voc, ReachedDocuments, events[i])
    ensures Joins(voc, Run(s, events).db)
  {
    if events != [] {
      NoEdgeWithoutItsVertex(voc, s, events[..|events| - 1]);
      EventKeepsJoins(voc, Run(s, events[..|events| - 1]), events[|events| - 1]);
    }
  }

  /** The vertex row a row of this loader is joined to, by its column; the other ends are entity rows. */
  ghost predicate Finds(g: Graph, e: Edge) {
    && (e.InGenre? || e.MasterInGenre? ==> Genre(e.tag) in g.vertices)
    && (e.InStyle? || e.MasterInStyle? ==> Style(e.tag) in g.vertices)
    && (e.CreditedOn? || e.TrackCreditedOn? || e.SameAs? ==> Person(e.person) in g.vertices)
    && (e.CreditedTo? && e.source == "discogs" ==> exists k :: k in g.vertices && g.vertices[k].Company? && g.vertices[k].companyId == e.companyId)
    && (e.IssuedOn? && e.source == "discogs" ==>
          exists k :: k in g.vertices && g.vertices[k].Medium? && g.vertices[k].mediumId == e.mediumId
                      && MediaFamily(g.vertices[k].family) in g.vertices)
  }

  lemma JoinedRowFinds(voc: Vocabulary, db: Database, e: Edge)
    requires Joins(voc, db) && HasRow(db.graph, e)
    ensures Finds(db.graph, e)
  {
    var g := db.graph;
    if e.CreditedTo? && e.source == "discogs" {
      var k := Company(e.companyId, "", None);
      assert Endpoint(e) == Some(k) && k in g.vertices && VertexKey(g.vertices[k]) == k;
    } else if e.IssuedOn? && e.source == "discogs" {
      var k := Medium(e.mediumId, "", "");
      assert Endpoint(e) == Some(k) && k in g.vertices && VertexKey(g.vertices[k]) == k;
    } else if Endpoint(e).Some? && !Foreign(e) {
      assert Endpoint(e).value in g.vertices;
    }
  }

  /** The same by columns: each row's tag, person, company or medium has its vertex row, and a medium its family's. */
  lemma EveryRowFindsItsVertices(voc: Vocabulary, s: State, events: seq<Event>, e: Edge)
    requires Joins(voc, s.db) && forall i :: 0 <= i < |events| ==> Under(voc, ReachedDocuments, events[i])
    requires HasRow(Run(s, events).db.graph, e)
    ensures Finds(Run(s, events).db.graph, e)
  {
    NoEdgeWithoutItsVertex(voc, s, events);
    JoinedRowFinds(voc, Run(s, events).db, e);
  }
}
