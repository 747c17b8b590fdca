/** The stale-row purge: rows the extraction did not touch, and the graph rows of their documents. */
module Purge {
  import opened Wrappers
  import opened Rows
  import opened GraphWrites
  import opened Catalog

  /** The extraction start as the marker carries it. */
  datatype StartedAt = Missing | Malformed | At(time: int)

  predicate Stale(entities: map<DocId, Entity>, table: Table, start: int, d: DocId) {
    d in entities && d.table == table && entities[d].updatedAt < start
  }

  function RowsOf(entities: map<DocId, Entity>, table: Table): set<DocId> {
    set d | d in entities && d.table == table
  }

  function StaleRows(entities: map<DocId, Entity>, table: Table, start: int): set<DocId> {
    set d | d in entities && Stale(entities, table, start, d)
  }

  function Fraction(stale: nat, total: nat): real
    requires total > 0
  {
    stale as real / total as real
  }

  /** Every guard passes: a start, records this session, rows, stale rows, and fewer of them than the cap allows. */
  predicate Purges(db: Database, table: Table, started: StartedAt, count: Option<nat>, cap: real) {
    && started.At? && count != Some(0)
    && |RowsOf(db.entities, table)| > 0
    && |StaleRows(db.entities, table, started.time)| > 0
    && Fraction(|StaleRows(db.entities, table, started.time)|, |RowsOf(db.entities, table)|) < cap
  }

  predicate SweptByPurge(entities: map<DocId, Entity>, table: Table, start: int, e: Edge) {
    && RelationOf(e) in PurgeScope(table) && !Foreign(e)
    && Owner(e).Some? && Stale(entities, table, start, Owner(e).value)
  }

  function WithoutStale(db: Database, table: Table, start: int): Database {
    Database(map d | d in db.entities && !Stale(db.entities, table, start, d) :: db.entities[d],
             Graph(db.graph.vertices,
                   map k | k in db.graph.edges && !SweptByPurge(db.entities, table, start, k) :: db.graph.edges[k]))
  }

  function PurgeStale(db: Database, table: Table, started: StartedAt, count: Option<nat>, cap: real): Database {
    if Purges(db, table, started, count, cap) then WithoutStale(db, table, started.time) else db
  }

  /** Every relation that names one asserting document is swept by the purge of that document's table. */
  lemma PurgeScopeIsEveryOwnedRelation(e: Edge)
    requires Owner(e).Some?
    ensures RelationOf(e) in PurgeScope(Owner(e).value.table)
  {
    var scope := PurgeScope(Owner(e).value.table);
    assert PurgeScope(ARTISTS)[0] == ALIAS_OF;
    assert PurgeScope(MASTERS)[0] == MASTER_BY_ARTIST && PurgeScope(MASTERS)[1] == MASTER_IN_GENRE && PurgeScope(MASTERS)[2] == MASTER_IN_STYLE;
  }

  lemma StaleRowsSplit(entities: map<DocId, Entity>, table: Table, start: int)
    ensures |RowsOf(entities, table)| == |StaleRows(entities, table, start)|
                                       + |set d | d in entities && d.table == table && !Stale(entities, table, start, d)|
  {
    var kept := set d | d in entities && d.table == table && !Stale(entities, table, start, d);
    assert RowsOf(entities, table) == StaleRows(entities, table, start) + kept;
    assert StaleRows(entities, table, start) !! kept;
  }

  lemma MoreThanTheRestIsKept(stale: nat, total: nat, cap: real)
    requires total > 0
    ensures Fraction(stale, total) < cap <==> (total as real - stale as real) > (1.0 - cap) * total as real
  {
    var t := total as real;
    assert Fraction(stale, total) * t == stale as real;
    if Fraction(stale, total) < cap {
      assert (cap - Fraction(stale, total)) * t > 0.0;
    } else {
      assert (Fraction(stale, total) - cap) * t >= 0.0;
    }
  }

  /** A purge changes nothing, or removes exactly the stale rows and their rows in every scoped relation. */
  lemma PurgeIsExact(db: Database, table: Table, started: StartedAt, count: Option<nat>, cap: real)
    ensures var after := PurgeStale(db, table, started, count, cap);
            && after.graph.vertices == db.graph.vertices
            && (Purges(db, table, started, count, cap) <==> after.entities != db.entities)
            && (!Purges(db, table, started, count, cap) ==> after == db)
            && (Purges(db, table, started, count, cap) ==>
                  && after.entities.Keys == db.entities.Keys - StaleRows(db.entities, table, started.time)
                  && (forall d :: d in after.entities ==> after.entities[d] == db.entities[d])
                  && |RowsOf(after.entities, table)| as real > (1.0 - cap) * |RowsOf(db.entities, table)| as real
                  && (forall k :: k in db.graph.edges ==>
                        (k in after.graph.edges <==>
                           Foreign(k) || Owner(k).None? || !Stale(db.entities, table, started.time, Owner(k).value)))
                  && (forall k :: k in after.graph.edges ==> k in db.graph.edges && after.graph.edges[k] == db.graph.edges[k]))
  {
    if Purges(db, table, started, count, cap) {
      var after := PurgeStale(db, table, started, count, cap);
      var stale := StaleRows(db.entities, table, started.time);
      assert after.entities.Keys == db.entities.Keys - stale;
      assert after.entities != db.entities by {
        var d :| d in stale;
        assert d in db.entities.Keys && d !in after.entities.Keys;
      }
      KeptCount(db, table, started.time, cap);
      forall k | k in db.graph.edges
        ensures k in after.graph.edges <==> Foreign(k) || Owner(k).None? || !Stale(db.entities, table, started.time, Owner(k).value)
      {
        if Owner(k).Some? {
          PurgeScopeIsEveryOwnedRelation(k);
        }
      }
    }
  }

  lemma KeptCount(db: Database, table: Table, start: int, cap: real)
    requires |RowsOf(db.entities, table)| > 0
    requires Fraction(|StaleRows(db.entities, table, start)|, |RowsOf(db.entities, table)|) < cap
    ensures |RowsOf(WithoutStale(db, table, start).entities, table)| as real > (1.0 - cap) * |RowsOf(db.entities, table)| as real
  {
    StaleRowsSplit(db.entities, table, start);
    MoreThanTheRestIsKept(|StaleRows(db.entities, table, start)|, |RowsOf(db.entities, table)|, cap);
    assert RowsOf(WithoutStale(db, table, start).entities, table)
        == set d | d in db.entities && d.table == table && !Stale(db.entities, table, start, d);
  }

  // ---- the same, on the inputs themselves -------------------------------------------------

  /** The row's scope column names the document, and in a shared relation the row is this loader's. */
  ghost predicate IsRowOf(e: Edge, doc: DocId) {
    match e
    case ByArtist(release, _) => doc == DocId(RELEASES, release)
    case OnLabel(release, _) => doc == DocId(RELEASES, release)
    case DerivedFrom(release, _) => doc == DocId(RELEASES, release)
    case InGenre(release, _) => doc == DocId(RELEASES, release)
    case InStyle(release, _) => doc == DocId(RELEASES, release)
    case MasterByArtist(master, _) => doc == DocId(MASTERS, master)
    case MasterInGenre(master, _) => doc == DocId(MASTERS, master)
    case MasterInStyle(master, _) => doc == DocId(MASTERS, master)
    case MemberOf(_, _) => false
    case AliasOf(_, artist) => doc == DocId(ARTISTS, artist)
    case CreditedOn(_, release, _) => doc == DocId(RELEASES, release)
    case SameAs(_, _) => false
    case CreditedTo(release, _, _, _, source) => doc == DocId(RELEASES, release) && source == "discogs"
    case IssuedOn(release, _, source, _) => doc == DocId(RELEASES, release) && source == "discogs"
    case TrackCreditedOn(_, release, _, _, _, _) => doc == DocId(RELEASES, release)
    case TrackByArtist(release, _, _, _, _) => doc == DocId(RELEASES, release)
  }

  lemma RowsByScopeColumn(e: Edge, doc: DocId)
    ensures IsRowOf(e, doc) <==> Owner(e) == Some(doc) && !Foreign(e)
  {
  }

  /**
    A purge changes nothing without a readable start, after a session of zero records, on an empty
    table, with no row older than the start, or when those rows are at least the cap's share.
   */
  lemma PurgeRefuses(db: Database, table: Table, started: StartedAt, count: Option<nat>, cap: real, rows: set<DocId>, aged: set<DocId>)
    requires rows == set d | d in db.entities && d.table == table
    requires started.At? ==> aged == set d | d in db.entities && d.table == table && db.entities[d].updatedAt < started.time
    requires || started == Missing || started == Malformed || count == Some(0)
             || |rows| == 0 || |aged| == 0 || |aged| as real / |rows| as real >= cap
    ensures PurgeStale(db, table, started, count, cap) == db
  {
    if started.At? {
      assert rows == RowsOf(db.entities, table) && aged == StaleRows(db.entities, table, started.time);
    }
  }

  /** With none of those, exactly the older rows go, and with them exactly the edges of their documents. */
  lemma PurgeRemoves(db: Database, table: Table, start: int, count: Option<nat>, cap: real, rows: set<DocId>, aged: set<DocId>)
    requires rows == set d | d in db.entities && d.table == table
    requires aged == set d | d in db.entities && d.table == table && db.entities[d].updatedAt < start
    requires count != Some(0) && |rows| > 0 && |aged| > 0 && |aged| as real / |rows| as real < cap
    ensures var after := PurgeStale(db, table, At(start), count, cap);
            && after.entities == (map d | d in db.entities && d !in aged :: db.entities[d])
            && after.graph.vertices == db.graph.vertices
            && forall k :: k in db.graph.edges ==>
                 (k in after.graph.edges <==> forall d :: d in aged ==> !IsRowOf(k, d))
    ensures var after := PurgeStale(db, table, At(start), count, cap);
            forall k :: k in after.graph.edges ==> k in db.graph.edges && after.graph.edges[k] == db.graph.edges[k]
  {
    assert rows == RowsOf(db.entities, table) && aged == StaleRows(db.entities, table, start);
    PurgeIsExact(db, table, At(start), count, cap);
    var after := PurgeStale(db, table, At(start), count, cap);
    forall k | k in db.graph.edges ensures k in after.graph.edges <==> forall d :: d in aged ==> !IsRowOf(k, d) {
      KeptByScopeColumn(db, table, start, k, aged);
    }
  }

  lemma KeptByScopeColumn(db: Database, table: Table, start: int, k: Edge, aged: set<DocId>)
    requires aged == StaleRows(db.entities, table, start)
    ensures (Foreign(k) || Owner(k).None? || !Stale(db.entities, table, start, Owner(k).value)) <==> forall d :: d in aged ==> !IsRowOf(k, d)
  {
    forall d ensures IsRowOf(k, d) <==> Owner(k) == Some(d) && !Foreign(k) {
      RowsByScopeColumn(k, d);
    }
    if Owner(k).Some? && !Foreign(k) && Stale(db.entities, table, start, Owner(k).value) {
      assert Owner(k).value in aged && IsRowOf(k, Owner(k).value);
    }
  }
}
