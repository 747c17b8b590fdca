/** The rows of the `graph` schema this loader writes, their keys, and the document that owns each. */
module Rows {
  import opened Wrappers

  datatype Table = ARTISTS | LABELS | MASTERS | RELEASES

  datatype VertexRelation = GENRE | STYLE | PERSON | MEDIA_FAMILY | MEDIUM | COMPANY

  /** Vertex relations in the order every writer fills them. */
  const VERTEX_ORDER: seq<VertexRelation> := [GENRE, STYLE, PERSON, MEDIA_FAMILY, MEDIUM, COMPANY]

  datatype EdgeRelation =
    | BY_ARTIST | ON_LABEL | DERIVED_FROM | IN_GENRE | IN_STYLE
    | MASTER_BY_ARTIST | MASTER_IN_GENRE | MASTER_IN_STYLE
    | MEMBER_OF | ALIAS_OF | CREDITED_ON | SAME_AS | CREDITED_TO | ISSUED_ON
    | TRACK_CREDITED_ON | TRACK_BY_ARTIST

  /** Edge relations in the order every writer fills them. */
  const EDGE_ORDER: seq<EdgeRelation> :=
    [BY_ARTIST, ON_LABEL, DERIVED_FROM, IN_GENRE, IN_STYLE, MASTER_BY_ARTIST, MASTER_IN_GENRE, MASTER_IN_STYLE,
     MEMBER_OF, ALIAS_OF, CREDITED_ON, SAME_AS, CREDITED_TO, ISSUED_ON, TRACK_CREDITED_ON, TRACK_BY_ARTIST]

  const DISCOGS_SOURCE := "discogs"

  datatype Vertex =
    | Genre(name: string)
    | Style(name: string)
    | Person(name: string)
    | MediaFamily(name: string)
    | Medium(mediumId: string, family: string, caption: string)
    | Company(companyId: string, companyName: string, discogsLabelId: Option<string>)

  datatype Edge =
    | ByArtist(releaseId: string, artistId: string)
    | OnLabel(releaseId: string, labelId: string)
    | DerivedFrom(releaseId: string, masterId: string)
    | InGenre(releaseId: string, tag: string)
    | InStyle(releaseId: string, tag: string)
    | MasterByArtist(masterId: string, artistId: string)
    | MasterInGenre(masterId: string, tag: string)
    | MasterInStyle(masterId: string, tag: string)
    | MemberOf(memberId: string, groupId: string)
    | AliasOf(aliasId: string, artistId: string)
    | CreditedOn(person: string, releaseId: string, role: string)
    | SameAs(person: string, artistId: string)
    | CreditedTo(releaseId: string, companyId: string, role: string, category: string, source: string)
    | IssuedOn(releaseId: string, mediumId: string, source: string, qty: nat)
    | TrackCreditedOn(person: string, releaseId: string, track: nat, subTrack: nat, position: Option<string>, role: string)
    | TrackByArtist(releaseId: string, track: nat, subTrack: nat, position: Option<string>, artistId: string)

  function VertexRelationOf(v: Vertex): VertexRelation {
    match v
    case Genre(_) => GENRE
    case Style(_) => STYLE
    case Person(_) => PERSON
    case MediaFamily(_) => MEDIA_FAMILY
    case Medium(_, _, _) => MEDIUM
    case Company(_, _, _) => COMPANY
  }

  /** A vertex row's key is its first column; the rest is what the first write put there. */
  function VertexKey(v: Vertex): Vertex {
    match v
    case Medium(id, _, _) => Medium(id, "", "")
    case Company(id, _, _) => Company(id, "", None)
    case _ => v
  }

  function RelationOf(e: Edge): EdgeRelation {
    match e
    case ByArtist(_, _) => BY_ARTIST
    case OnLabel(_, _) => ON_LABEL
    case DerivedFrom(_, _) => DERIVED_FROM
    case InGenre(_, _) => IN_GENRE
    case InStyle(_, _) => IN_STYLE
    case MasterByArtist(_, _) => MASTER_BY_ARTIST
    case MasterInGenre(_, _) => MASTER_IN_GENRE
    case MasterInStyle(_, _) => MASTER_IN_STYLE
    case MemberOf(_, _) => MEMBER_OF
    case AliasOf(_, _) => ALIAS_OF
    case CreditedOn(_, _, _) => CREDITED_ON
    case SameAs(_, _) => SAME_AS
    case CreditedTo(_, _, _, _, _) => CREDITED_TO
    case IssuedOn(_, _, _, _) => ISSUED_ON
    case TrackCreditedOn(_, _, _, _, _, _) => TRACK_CREDITED_ON
    case TrackByArtist(_, _, _, _, _) => TRACK_BY_ARTIST
  }

  /** The columns outside a relation's key are blanked: role category, quantity, printed track position. */
  function EdgeKey(e: Edge): Edge {
    match e
    case CreditedTo(release, company, role, _, source) => CreditedTo(release, company, role, "", source)
    case IssuedOn(release, medium, source, _) => IssuedOn(release, medium, source, 0)
    case TrackCreditedOn(person, release, track, subTrack, _, role) => TrackCreditedOn(person, release, track, subTrack, None, role)
    case TrackByArtist(release, track, subTrack, _, artist) => TrackByArtist(release, track, subTrack, None, artist)
    case _ => e
  }

  datatype DocId = DocId(table: Table, id: string)

  /** The document a row is asserted by, for the relations whose scope column names one. */
  function Owner(e: Edge): Option<DocId> {
    match e
    case ByArtist(id, _) => Some(DocId(RELEASES, id))
    case OnLabel(id, _) => Some(DocId(RELEASES, id))
    case DerivedFrom(id, _) => Some(DocId(RELEASES, id))
    case InGenre(id, _) => Some(DocId(RELEASES, id))
    case InStyle(id, _) => Some(DocId(RELEASES, id))
    case MasterByArtist(id, _) => Some(DocId(MASTERS, id))
    case MasterInGenre(id, _) => Some(DocId(MASTERS, id))
    case MasterInStyle(id, _) => Some(DocId(MASTERS, id))
    case MemberOf(_, _) => None
    case AliasOf(_, id) => Some(DocId(ARTISTS, id))
    case CreditedOn(_, id, _) => Some(DocId(RELEASES, id))
    case SameAs(_, _) => None
    case CreditedTo(id, _, _, _, _) => Some(DocId(RELEASES, id))
    case IssuedOn(id, _, _, _) => Some(DocId(RELEASES, id))
    case TrackCreditedOn(_, id, _, _, _, _) => Some(DocId(RELEASES, id))
    case TrackByArtist(id, _, _, _, _) => Some(DocId(RELEASES, id))
  }

  /** A row another provider wrote into one of the two shared relations. */
  predicate Foreign(e: Edge) {
    match e
    case CreditedTo(_, _, _, _, source) => source != DISCOGS_SOURCE
    case IssuedOn(_, _, source, _) => source != DISCOGS_SOURCE
    case _ => false
  }

  /** The relations a purge of each entity table sweeps. */
  function PurgeScope(table: Table): seq<EdgeRelation> {
    match table
    case RELEASES =>
      [BY_ARTIST, ON_LABEL, DERIVED_FROM, IN_GENRE, IN_STYLE, CREDITED_ON, CREDITED_TO, ISSUED_ON, TRACK_CREDITED_ON, TRACK_BY_ARTIST]
    case MASTERS => [MASTER_BY_ARTIST, MASTER_IN_GENRE, MASTER_IN_STYLE]
    case ARTISTS => [ALIAS_OF]
    case LABELS => []
  }

  /** What one document asserts, and the relations whose rows for it are deleted first. */
  datatype DocumentGraph = DocumentGraph(vertices: seq<Vertex>, edges: seq<Edge>, replaced: set<EdgeRelation>)

  /** No two of the rows disagree on a key. */
  ghost predicate OneRowPerKey(edges: seq<Edge>) {
    forall a, b :: a in edges && b in edges && EdgeKey(a) == EdgeKey(b) ==> a == b
  }

  /** What every derivation guarantees to the writer. */
  ghost predicate OwnsItsRows(doc: DocId, g: DocumentGraph) {
    && OneRowPerKey(g.edges)
    && (forall e :: e in g.edges ==> !Foreign(e))
    && (forall e :: e in g.edges ==> Owner(e).None? || (Owner(e) == Some(doc) && RelationOf(e) in g.replaced))
  }
}
