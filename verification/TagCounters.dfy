/** The first-year bodies over the tables a history leaves: the one-pass form is the per-tag form, aborts included. */
module TagCounters {
  import opened Wrappers
  import opened Rows
  import opened Derivation
  import opened GraphWrites
  import opened Catalog
  import opened CatalogHistory
  import opened Counters
  import opened Endpoints

  /** Genre or style rows. */
  predicate TagRow(relation: EdgeRelation, e: Edge) {
    (relation == IN_GENRE && e.InGenre?) || (relation == IN_STYLE && e.InStyle?)
  }

  function TagVertex(relation: EdgeRelation, name: string): Vertex {
    if relation == IN_GENRE then Genre(name) else Style(name)
  }

  /** The vertex table's names, in any order. */
  ghost predicate ListsNames(names: seq<string>, relation: EdgeRelation, g: Graph) {
    forall n :: n in names <==> TagVertex(relation, n) in g.vertices
  }

  ghost predicate JoinsTo(row: Tagged, e: Edge, relation: EdgeRelation, db: Database, yearText: Json -> Option<string>) {
    && HasRow(db.graph, e) && TagRow(relation, e) && e.tag == row.tag
    && DocId(RELEASES, e.releaseId) in db.entities
    && row.year == yearText(Field(db.entities[DocId(RELEASES, e.releaseId)].data, "year"))
  }

  /** The edge table joined to the stored releases, in any order. */
  ghost predicate ListsRows(rows: seq<Tagged>, relation: EdgeRelation, db: Database, yearText: Json -> Option<string>) {
    forall row :: row in rows <==> exists e :: JoinsTo(row, e, relation, db, yearText)
  }

  lemma JoinedTagIsNamed(row: Tagged, e: Edge, relation: EdgeRelation, db: Database, names: seq<string>, yearText: Json -> Option<string>)
    requires EdgesJoin(db.graph) && ListsNames(names, relation, db.graph) && JoinsTo(row, e, relation, db, yearText)
    ensures row.tag in names
  {
    assert Endpoint(e) == Some(TagVertex(relation, e.tag));
  }

  /**
    After any history, for either tag relation, whatever years the releases print: the grouped
    body returns the rows of the correlated body, and aborts exactly when it does.
   */
  lemma FirstYearBodiesAgree(voc: Vocabulary, s: State, events: seq<Event>, relation: EdgeRelation, names: seq<string>, rows: seq<Tagged>,
                             yearText: Json -> Option<string>, trim: string -> string)
    requires Joins(voc, s.db) && forall i :: 0 <= i < |events| ==> Under(voc, ReachedDocuments, events[i])
    requires ListsNames(names, relation, Run(s, events).db.graph) && ListsRows(rows, relation, Run(s, events).db, yearText)
    ensures GroupedBody(trim, names, rows) == CorrelatedBody(trim, names, rows)
  {
    NoEdgeWithoutItsVertex(voc, s, events);
    var db := Run(s, events).db;
    forall i | 0 <= i < |rows| ensures rows[i].tag in names {
      assert rows[i] in rows;
      var e :| JoinsTo(rows[i], e, relation, db, yearText);
      JoinedTagIsNamed(rows[i], e, relation, db, names, yearText);
    }
    GroupedIsCorrelated(trim, names, rows);
  }
}
