/**
  What every derived row owes its document: it names that document in its scope column, its
  relation is replaced with it, it carries this loader's source, and no second row of the same
  document contradicts it on a key.
 */
module DerivationFacts {
  import opened Wrappers
  import opened Rows
  import opened Derivation

  lemma InMap<A, B>(f: A -> B, rows: seq<A>, b: B)
    ensures b in Map(f, rows) <==> exists a :: a in rows && f(a) == b
  {
    if b in Map(f, rows) {
      var i :| 0 <= i < |rows| && Map(f, rows)[i] == b;
      assert rows[i] in rows;
    }
    if a :| a in rows && f(a) == b {
      var i :| 0 <= i < |rows| && rows[i] == a;
      assert Map(f, rows)[i] == b;
    }
  }

  lemma InSixParts<T>(a: seq<T>, b: seq<T>, c: seq<T>, d: seq<T>, f: seq<T>, g: seq<T>, e: T)
    ensures e in a + b + c + d + f + g <==> e in a || e in b || e in c || e in d || e in f || e in g
  {
  }

  // ---- tracks -----------------------------------------------------------------------------

  /** The JSON the ordinals of a placed row point at. */
  ghost function NodeAt(tracklist: Json, track: nat, subTrack: nat): Option<Document> {
    var tracks := XmlArray(tracklist, "track");
    if !(1 <= track <= |tracks|) || !tracks[track - 1].JObject? then None
    else if subTrack == 0 then Some(tracks[track - 1].fields)
    else
      var subTracks := XmlArray(Field(tracks[track - 1].fields, "sub_tracks"), "track");
      if !(subTrack <= |subTracks|) || !subTracks[subTrack - 1].JObject? then None
      else Some(subTracks[subTrack - 1].fields)
  }

  lemma InPlaceAll<T>(track: nat, subTrack: nat, position: Option<string>, whats: seq<T>, p: Placed<T>)
    ensures p in PlaceAll(track, subTrack, position, whats)
       <==> p.track == track && p.subTrack == subTrack && p.position == position && p.what in whats
  {
    if p.track == track && p.subTrack == subTrack && p.position == position && p.what in whats {
      var i :| 0 <= i < |whats| && whats[i] == p.what;
      assert PlaceAll(track, subTrack, position, whats)[i] == p;
    }
  }

  lemma {:induction false} InSubTracks<T>(read: Document -> seq<T>, track: nat, subTracks: seq<Json>, n: nat, p: Placed<T>)
    requires n <= |subTracks|
    ensures p in OnSubTracks(read, track, subTracks, n)
       <==> && p.track == track && 1 <= p.subTrack <= n && subTracks[p.subTrack - 1].JObject?
            && p.position == PositionOf(subTracks[p.subTrack - 1].fields)
            && p.what in read(subTracks[p.subTrack - 1].fields)
  {
    if n > 0 {
      InSubTracks(read, track, subTracks, n - 1, p);
      if subTracks[n - 1].JObject? {
        var fields := subTracks[n - 1].fields;
        InPlaceAll(track, n, PositionOf(fields), read(fields), p);
      }
    }
  }

  ghost predicate PlacedFrom<T>(read: Document -> seq<T>, tracks: seq<Json>, n: nat, p: Placed<T>)
    requires n <= |tracks|
  {
    && 1 <= p.track <= n
    && var node := NodeAt(JArray(tracks), p.track, p.subTrack);
       node.Some? && p.position == PositionOf(node.value) && p.what in read(node.value)
  }

  lemma {:induction false} InTracks<T>(read: Document -> seq<T>, tracks: seq<Json>, n: nat, p: Placed<T>)
    requires n <= |tracks|
    ensures p in OnTracks(read, tracks, n) <==> PlacedFrom(read, tracks, n, p)
  {
    if n > 0 {
      InTracks(read, tracks, n - 1, p);
      if tracks[n - 1].JObject? {
        InOneTrack(read, tracks, n - 1, p);
        TracksNext(read, tracks, n - 1);
      }
    }
  }

  /** What one track and its sub-tracks place. */
  function TrackPlaces<T>(read: Document -> seq<T>, tracks: seq<Json>, n: nat): seq<Placed<T>>
    requires n < |tracks| && tracks[n].JObject?
  {
    var subTracks := XmlArray(Field(tracks[n].fields, "sub_tracks"), "track");
    PlaceAll(n + 1, 0, PositionOf(tracks[n].fields), read(tracks[n].fields)) + OnSubTracks(read, n + 1, subTracks, |subTracks|)
  }

  lemma InOneTrack<T>(read: Document -> seq<T>, tracks: seq<Json>, n: nat, p: Placed<T>)
    requires n < |tracks| && tracks[n].JObject?
    ensures p in TrackPlaces(read, tracks, n) <==> PlacedFrom(read, tracks, n + 1, p) && p.track == n + 1
  {
    var fields := tracks[n].fields;
    var subTracks := XmlArray(Field(fields, "sub_tracks"), "track");
    InPlaceAll(n + 1, 0, PositionOf(fields), read(fields), p);
    InSubTracks(read, n + 1, subTracks, |subTracks|, p);
  }

  /** A tracklist yields exactly what its tracks and sub-tracks hold, each under its own ordinals and position. */
  lemma WalkIsExact<T>(read: Document -> seq<T>, tracklist: Json, p: Placed<T>)
    ensures p in Walk(read, tracklist)
       <==> && NodeAt(tracklist, p.track, p.subTrack).Some?
            && p.position == PositionOf(NodeAt(tracklist, p.track, p.subTrack).value)
            && p.what in read(NodeAt(tracklist, p.track, p.subTrack).value)
  {
    var tracks := XmlArray(tracklist, "track");
    InTracks(read, tracks, |tracks|, p);
    assert XmlArray(JArray(tracks), "track") == tracks;
  }

  // ---- media and companies ----------------------------------------------------------------

  ghost function SumOf(rows: seq<MediaRow>): nat {
    if rows == [] then 0 else SumOf(rows[..|rows| - 1]) + rows[|rows| - 1].qty
  }

  /** The units of an entry naming a medium and a family: a stated whole quantity of at least one, else one. */
  ghost function QuantityOf(item: Document): nat {
    if !("medium" in item && item["medium"].JText? && item["medium"].s != "") then 0
    else if !("family" in item && item["family"].JText? && item["family"].s != "") then 0
    else if "qty" in item && item["qty"].JInt? && item["qty"].n >= 1 then item["qty"].n
    else 1
  }

  ghost function SumOfEntries(items: seq<Document>): nat {
    if items == [] then 0 else SumOfEntries(items[..|items| - 1]) + QuantityOf(items[|items| - 1])
  }

  ghost function SumOver(order: seq<string>, items: seq<Document>): nat {
    if order == [] then 0 else SumOver(order[..|order| - 1], items) + TotalOf(items, order[|order| - 1])
  }

  lemma {:induction false} SumOverGrows(order: seq<string>, items: seq<Document>)
    requires items != [] && forall i, j :: 0 <= i < j < |order| ==> order[i] != order[j]
    ensures var init, last := items[..|items| - 1], items[|items| - 1];
            SumOver(order, items)
            == SumOver(order, init) + if UsableMedium(last) && Field(last, "medium").s in order then Quantity(last) else 0
    decreases |order|
  {
    if order != [] {
      SumOverGrows(order[..|order| - 1], items);
      assert order == order[..|order| - 1] + [order[|order| - 1]];
    }
  }

  lemma {:induction false} SumOverAll(items: seq<Document>)
    ensures SumOver(Unique(Mediums(items)), items) == SumOfEntries(items)
  {
    if items != [] {
      var n := |items| - 1;
      var init := items[..n];
      SumOverAll(init);
      assert items[..n + 1] == items;
      MediaStep(items, n);
      UniqueMembers(Mediums(init));
      SumOverOneMore(Unique(Mediums(init)), items);
    }
  }

  lemma SumOverOneMore(order: seq<string>, items: seq<Document>)
    requires items != [] && forall i, j :: 0 <= i < j < |order| ==> order[i] != order[j]
    requires forall m :: m in order <==> m in Mediums(items[..|items| - 1])
    ensures var init, last := items[..|items| - 1], items[|items| - 1];
            var medium := Field(last, "medium");
            if UsableMedium(last) && medium.s !in order
            then SumOver(order + [medium.s], items) == SumOver(order, init) + Quantity(last)
            else SumOver(order, items) == SumOver(order, init) + QuantityOf(last)
  {
    var init, last := items[..|items| - 1], items[|items| - 1];
    SumOverGrows(order, items);
    if UsableMedium(last) && Field(last, "medium").s !in order {
      var medium := Field(last, "medium").s;
      TotalIsZeroOutside(init, medium);
      assert (order + [medium])[..|order|] == order;
    }
  }

  lemma {:induction false} SumOfRows(voc: Vocabulary, order: seq<string>, items: seq<Document>, rows: seq<MediaRow>)
    requires |rows| == |order| && forall i :: 0 <= i < |rows| ==> rows[i].qty == TotalOf(items, order[i])
    ensures SumOf(rows) == SumOver(order, items)
    decreases |order|
  {
    if order != [] {
      SumOfRows(voc, order[..|order| - 1], items, rows[..|rows| - 1]);
    }
  }

  /** Merging entries of one medium loses no unit: the rows' quantities sum to the usable entries'. */
  lemma MediaUnitsAreConserved(voc: Vocabulary, items: seq<Document>)
    ensures SumOf(MediaRowsOf(voc, items)) == SumOfEntries(items)
    ensures forall i, j :: 0 <= i < j < |MediaRowsOf(voc, items)| ==> MediaRowsOf(voc, items)[i].medium != MediaRowsOf(voc, items)[j].medium
  {
    UniqueMembers(Mediums(items));
    SumOverAll(items);
    SumOfRows(voc, Unique(Mediums(items)), items, MediaRowsOf(voc, items));
  }

  ghost predicate States(voc: Vocabulary, item: Document, r: CompanyRow) {
    CompanyRowOf(voc, item).Some? && SameCredit(CompanyRowOf(voc, item).value, r)
  }

  ghost predicate StatedFirstAt(voc: Vocabulary, items: seq<Document>, k: nat, r: CompanyRow) {
    && k < |items| && CompanyRowOf(voc, items[k]) == Some(r)
    && forall l :: 0 <= l < k ==> !States(voc, items[l], r)
  }

  ghost predicate HasCredit(rows: seq<CompanyRow>, r: CompanyRow) {
    exists i :: 0 <= i < |rows| && SameCredit(rows[i], r)
  }

  lemma {:induction false} CompanyCreditsAreKept(voc: Vocabulary, items: seq<Document>, r: CompanyRow)
    ensures HasCredit(CompanyRowsOf(voc, items), r) <==> exists l :: 0 <= l < |items| && States(voc, items[l], r)
  {
    if items != [] {
      var n := |items| - 1;
      var init, last := items[..n], CompanyRowOf(voc, items[n]);
      CompanyCreditsAreKept(voc, init, r);
      var kept, rows := CompanyRowsOf(voc, init), CompanyRowsOf(voc, items);
      if HasCredit(kept, r) {
        var i :| 0 <= i < |kept| && SameCredit(kept[i], r);
        assert rows[i] == kept[i];
        var l :| 0 <= l < n && States(voc, init[l], r);
        assert items[l] == init[l];
      } else if States(voc, items[n], r) {
        assert forall c :: SameCredit(c, last.value) ==> SameCredit(c, r);
        assert rows[|kept|] == last.value;
      } else {
        forall l | 0 <= l < |items| ensures !States(voc, items[l], r) {
          if l < n {
            assert init[l] == items[l];
          }
        }
      }
    }
  }

  /** A company row is one per (company, role): exactly the entry that states it first. */
  lemma {:induction false} CompanyRowsKeepTheFirst(voc: Vocabulary, items: seq<Document>, r: CompanyRow)
    ensures r in CompanyRowsOf(voc, items) <==> exists k :: StatedFirstAt(voc, items, k, r)
  {
    if items != [] {
      var n := |items| - 1;
      var init, last := items[..n], CompanyRowOf(voc, items[n]);
      CompanyRowsKeepTheFirst(voc, init, r);
      CompanyCreditsAreKept(voc, init, r);
      var kept := CompanyRowsOf(voc, init);
      forall k: nat ensures StatedFirstAt(voc, items, k, r) <==>
                       StatedFirstAt(voc, init, k, r) || (k == n && last == Some(r) && !HasCredit(kept, r)) {
        if k < n {
          assert items[k] == init[k] && forall l :: 0 <= l < k ==> items[l] == init[l];
        } else if k == n {
          assert forall l :: 0 <= l < n ==> items[l] == init[l];
        }
      }
      if last == Some(r) && !HasCredit(kept, r) {
        assert StatedFirstAt(voc, items, n, r);
      }
      if k :| StatedFirstAt(voc, init, k, r) {
        assert StatedFirstAt(voc, items, k, r);
      }
    }
  }

  ghost predicate OneRowPerCredit(rows: seq<CompanyRow>) {
    forall i, j :: 0 <= i < |rows| && 0 <= j < |rows| && i != j ==> !SameCredit(rows[i], rows[j])
  }

  lemma {:induction false} CompanyRowsAreDistinct(voc: Vocabulary, items: seq<Document>)
    ensures OneRowPerCredit(CompanyRowsOf(voc, items))
  {
    if items != [] {
      var kept, rows := CompanyRowsOf(voc, items[..|items| - 1]), CompanyRowsOf(voc, items);
      CompanyRowsAreDistinct(voc, items[..|items| - 1]);
      if |rows| > |kept| {
        var last := CompanyRowOf(voc, items[|items| - 1]).value;
        assert rows == kept + [last];
        forall m | 0 <= m < |kept| ensures !SameCredit(kept[m], last) && !SameCredit(last, kept[m]) {
        }
      }
    }
  }

  // ---- ownership --------------------------------------------------------------------------

  /** Rows of some relations, all of one document, one per key. */
  ghost predicate Groups(rows: seq<Edge>, relations: set<EdgeRelation>, doc: DocId) {
    && OneRowPerKey(rows)
    && forall e :: e in rows ==> RelationOf(e) in relations && !Foreign(e) && (Owner(e).None? || Owner(e) == Some(doc))
  }

  lemma GroupsConcat(a: seq<Edge>, b: seq<Edge>, ra: set<EdgeRelation>, rb: set<EdgeRelation>, doc: DocId)
    requires Groups(a, ra, doc) && Groups(b, rb, doc) && ra !! rb
    ensures Groups(a + b, ra + rb, doc)
  {
    forall x, y | x in a + b && y in a + b && EdgeKey(x) == EdgeKey(y) ensures x == y {
      assert RelationOf(EdgeKey(x)) == RelationOf(x) && RelationOf(EdgeKey(y)) == RelationOf(y);
    }
  }

  /** Rows whose every column is in the key cannot disagree. */
  predicate KeyIsWholeRow(relation: EdgeRelation) {
    relation !in {CREDITED_TO, ISSUED_ON, TRACK_CREDITED_ON, TRACK_BY_ARTIST}
  }

  lemma WholeRowGroup(rows: seq<Edge>, relation: EdgeRelation, doc: DocId)
    requires KeyIsWholeRow(relation)
    requires forall e :: e in rows ==> RelationOf(e) == relation && (Owner(e).None? || Owner(e) == Some(doc))
    ensures Groups(rows, {relation}, doc)
  {
  }

  lemma MapGroup<A(!new)>(f: A -> Edge, named: seq<A>, relation: EdgeRelation, doc: DocId)
    requires KeyIsWholeRow(relation)
    requires forall a :: RelationOf(f(a)) == relation && (Owner(f(a)).None? || Owner(f(a)) == Some(doc))
    ensures Groups(Map(f, named), {relation}, doc) && Groups(Unique(Map(f, named)), {relation}, doc)
  {
    UniqueMembers(Map(f, named));
    forall e | e in Map(f, named) ensures RelationOf(e) == relation && (Owner(e).None? || Owner(e) == Some(doc)) {
      InMap(f, named, e);
    }
    WholeRowGroup(Map(f, named), relation, doc);
    WholeRowGroup(Unique(Map(f, named)), relation, doc);
  }

  lemma UniqueGroup(rows: seq<Edge>, relations: set<EdgeRelation>, doc: DocId)
    requires Groups(rows, relations, doc)
    ensures Groups(Unique(rows), relations, doc)
  {
    UniqueMembers(rows);
  }

  lemma MediaGroup(voc: Vocabulary, id: string, data: Document)
    ensures Groups(IssuedOnRows(voc, id, data), {ISSUED_ON}, DocId(RELEASES, id))
  {
    var media := MediaOf(voc, data);
    MediaUnitsAreConserved(voc, Elements(Field(voc.mediaForRelease(data), "items")));
    var rows := IssuedOnRows(voc, id, data);
    assert forall i :: 0 <= i < |rows| ==> rows[i] == IssuedOn(id, media[i].medium, DISCOGS_SOURCE, media[i].qty);
  }

  lemma CompanyGroup(voc: Vocabulary, id: string, data: Document)
    ensures Groups(CreditedToRows(voc, id, data), if StatesCompanies(data) then {CREDITED_TO} else {}, DocId(RELEASES, id))
  {
    var companies := CompaniesOf(voc, data);
    if StatesCompanies(data) {
      CompanyRowsAreDistinct(voc, Elements(Field(Field(data, "companies").fields, "items")));
    }
    var rows := CreditedToRows(voc, id, data);
    forall x, y | x in rows && y in rows && EdgeKey(x) == EdgeKey(y) ensures x == y {
      var i :| 0 <= i < |companies| && rows[i] == x;
      var j :| 0 <= j < |companies| && rows[j] == y;
      assert x == CreditedToOf(id)(companies[i]) && y == CreditedToOf(id)(companies[j]);
      assert SameCredit(companies[i], companies[j]) && i == j;
    }
  }

  /** Ordinals decide the printed position: one tracklist prints one position under each. */
  lemma OrdinalsDecidePosition<T>(read: Document -> seq<T>, tracklist: Json, p: Placed<T>, q: Placed<T>)
    requires p in Walk(read, tracklist) && q in Walk(read, tracklist) && p.track == q.track && p.subTrack == q.subTrack
    ensures p.position == q.position
  {
    WalkIsExact(read, tracklist, p);
    WalkIsExact(read, tracklist, q);
  }

  lemma TrackCreditGroup(voc: Vocabulary, id: string, data: Document)
    ensures Groups(TrackCreditedOnRows(voc, id, data), {TRACK_CREDITED_ON}, DocId(RELEASES, id))
  {
    var credits := TrackCreditsOf(voc, Field(data, "tracklist"));
    var rows := Map(TrackCreditedOnOf(id), credits);
    forall x, y | x in rows && y in rows && EdgeKey(x) == EdgeKey(y) ensures x == y {
      var i :| 0 <= i < |credits| && rows[i] == x;
      var j :| 0 <= j < |credits| && rows[j] == y;
      assert credits[i] in credits && credits[j] in credits;
      OrdinalsDecidePosition(CreditsOn(voc), Field(data, "tracklist"), credits[i], credits[j]);
    }
    UniqueGroup(rows, {TRACK_CREDITED_ON}, DocId(RELEASES, id));
  }

  lemma TrackPerformerGroup(voc: Vocabulary, id: string, data: Document)
    ensures Groups(TrackByArtistRows(voc, id, data), {TRACK_BY_ARTIST}, DocId(RELEASES, id))
  {
    var performers := TrackPerformersOf(voc, Field(data, "tracklist"));
    var rows := Map(TrackByArtistOf(id), performers);
    forall x, y | x in rows && y in rows && EdgeKey(x) == EdgeKey(y) ensures x == y {
      var i :| 0 <= i < |performers| && rows[i] == x;
      var j :| 0 <= j < |performers| && rows[j] == y;
      assert performers[i] in performers && performers[j] in performers;
      OrdinalsDecidePosition(PerformersOn(voc), Field(data, "tracklist"), performers[i], performers[j]);
    }
    UniqueGroup(rows, {TRACK_BY_ARTIST}, DocId(RELEASES, id));
  }

  lemma {:induction false} SameAsRelation(credits: seq<Credit>)
    ensures forall e :: e in SameAsOf(credits) ==> RelationOf(e) == SAME_AS
  {
    if credits != [] {
      SameAsRelation(credits[1..]);
    }
  }

  lemma {:induction false} SameAsOnTracksRelation(credits: seq<Placed<Credit>>)
    ensures forall e :: e in SameAsOnTracks(credits) ==> RelationOf(e) == SAME_AS
  {
    if credits != [] {
      SameAsOnTracksRelation(credits[1..]);
    }
  }

  lemma SameAsGroup(voc: Vocabulary, id: string, data: Document)
    ensures Groups(SameAsRows(voc, data), {SAME_AS}, DocId(RELEASES, id))
  {
    SameAsRelation(CreditsOf(voc, Elements(Field(data, "extraartists"))));
    SameAsOnTracksRelation(TrackCreditsOf(voc, Field(data, "tracklist")));
    UniqueMembers(SameAsOf(CreditsOf(voc, Elements(Field(data, "extraartists"))))
                  + SameAsOnTracks(TrackCreditsOf(voc, Field(data, "tracklist"))));
    WholeRowGroup(SameAsRows(voc, data), SAME_AS, DocId(RELEASES, id));
  }

  const PLAIN_RELATIONS: set<EdgeRelation> := {BY_ARTIST, ON_LABEL, DERIVED_FROM, IN_GENRE, IN_STYLE, CREDITED_ON}

  lemma ArtistGroup(voc: Vocabulary, id: string, data: Document)
    ensures Groups(Map(ByArtistOf(id), ElementIds(voc, Field(data, "artists"))), {BY_ARTIST}, DocId(RELEASES, id))
  {
    MapGroup(ByArtistOf(id), ElementIds(voc, Field(data, "artists")), BY_ARTIST, DocId(RELEASES, id));
  }

  lemma LabelGroup(voc: Vocabulary, id: string, data: Document)
    ensures Groups(Map(OnLabelOf(id), ElementIds(voc, Field(data, "labels"))), {ON_LABEL}, DocId(RELEASES, id))
  {
    MapGroup(OnLabelOf(id), ElementIds(voc, Field(data, "labels")), ON_LABEL, DocId(RELEASES, id));
  }

  lemma MasterGroup(voc: Vocabulary, id: string, data: Document)
    ensures Groups(DerivedFromOf(voc, id, data), {DERIVED_FROM}, DocId(RELEASES, id))
  {
    WholeRowGroup(DerivedFromOf(voc, id, data), DERIVED_FROM, DocId(RELEASES, id));
  }

  lemma GenreGroup(id: string, data: Document)
    ensures Groups(Map(InGenreOf(id), TagNames(Field(data, "genres"))), {IN_GENRE}, DocId(RELEASES, id))
  {
    MapGroup(InGenreOf(id), TagNames(Field(data, "genres")), IN_GENRE, DocId(RELEASES, id));
  }

  lemma StyleGroup(id: string, data: Document)
    ensures Groups(Map(InStyleOf(id), TagNames(Field(data, "styles"))), {IN_STYLE}, DocId(RELEASES, id))
  {
    MapGroup(InStyleOf(id), TagNames(Field(data, "styles")), IN_STYLE, DocId(RELEASES, id));
  }

  lemma CreditGroup(voc: Vocabulary, id: string, data: Document)
    ensures Groups(CreditedOnRows(voc, id, data), {CREDITED_ON}, DocId(RELEASES, id))
  {
    MapGroup(CreditedOnOf(id), CreditsOf(voc, Elements(Field(data, "extraartists"))), CREDITED_ON, DocId(RELEASES, id));
  }

  lemma SixGroups(a: seq<Edge>, b: seq<Edge>, c: seq<Edge>, d: seq<Edge>, f: seq<Edge>, g: seq<Edge>, doc: DocId)
    requires Groups(a, {BY_ARTIST}, doc) && Groups(b, {ON_LABEL}, doc) && Groups(c, {DERIVED_FROM}, doc)
    requires Groups(d, {IN_GENRE}, doc) && Groups(f, {IN_STYLE}, doc) && Groups(g, {CREDITED_ON}, doc)
    ensures Groups(a + b + c + d + f + g, PLAIN_RELATIONS, doc)
  {
    GroupsConcat(a, b, {BY_ARTIST}, {ON_LABEL}, doc);
    GroupsConcat(a + b, c, {BY_ARTIST} + {ON_LABEL}, {DERIVED_FROM}, doc);
    GroupsConcat(a + b + c, d, {BY_ARTIST} + {ON_LABEL} + {DERIVED_FROM}, {IN_GENRE}, doc);
    GroupsConcat(a + b + c + d, f, {BY_ARTIST} + {ON_LABEL} + {DERIVED_FROM} + {IN_GENRE}, {IN_STYLE}, doc);
    GroupsConcat(a + b + c + d + f, g, {BY_ARTIST} + {ON_LABEL} + {DERIVED_FROM} + {IN_GENRE} + {IN_STYLE}, {CREDITED_ON}, doc);
    assert {BY_ARTIST} + {ON_LABEL} + {DERIVED_FROM} + {IN_GENRE} + {IN_STYLE} + {CREDITED_ON} == PLAIN_RELATIONS;
  }

  lemma PlainGroups(voc: Vocabulary, id: string, data: Document)
    ensures Groups(PlainReleaseEdges(voc, id, data), PLAIN_RELATIONS, DocId(RELEASES, id))
  {
    ArtistGroup(voc, id, data);
    LabelGroup(voc, id, data);
    MasterGroup(voc, id, data);
    GenreGroup(id, data);
    StyleGroup(id, data);
    CreditGroup(voc, id, data);
    SixGroups(Map(ByArtistOf(id), ElementIds(voc, Field(data, "artists"))), Map(OnLabelOf(id), ElementIds(voc, Field(data, "labels"))),
              DerivedFromOf(voc, id, data), Map(InGenreOf(id), TagNames(Field(data, "genres"))),
              Map(InStyleOf(id), TagNames(Field(data, "styles"))), CreditedOnRows(voc, id, data), DocId(RELEASES, id));
  }

  /** Owned rows are exactly the rows of replaced relations. */
  lemma GroupsAreOwned(doc: DocId, g: DocumentGraph, relations: set<EdgeRelation>)
    requires Groups(g.edges, relations, doc) && relations <= g.replaced + {MEMBER_OF, SAME_AS}
    ensures OwnsItsRows(doc, g)
  {
    forall e | e in g.edges ensures Owner(e).None? || (Owner(e) == Some(doc) && RelationOf(e) in g.replaced) {
      assert RelationOf(e) in relations;
    }
  }

  function ReleaseHead(voc: Vocabulary, id: string, data: Document): seq<Edge> {
    PlainReleaseEdges(voc, id, data) + SameAsRows(voc, data) + IssuedOnRows(voc, id, data)
  }

  const HEAD_RELATIONS: set<EdgeRelation> := PLAIN_RELATIONS + {SAME_AS, ISSUED_ON}

  lemma HeadGroups(voc: Vocabulary, id: string, data: Document)
    ensures Groups(ReleaseHead(voc, id, data), HEAD_RELATIONS, DocId(RELEASES, id))
  {
    var doc := DocId(RELEASES, id);
    PlainGroups(voc, id, data);
    SameAsGroup(voc, id, data);
    MediaGroup(voc, id, data);
    GroupsConcat(PlainReleaseEdges(voc, id, data), SameAsRows(voc, data), PLAIN_RELATIONS, {SAME_AS}, doc);
    GroupsConcat(PlainReleaseEdges(voc, id, data) + SameAsRows(voc, data), IssuedOnRows(voc, id, data),
                 PLAIN_RELATIONS + {SAME_AS}, {ISSUED_ON}, doc);
  }

  lemma CreditedGroups(voc: Vocabulary, id: string, data: Document, credited: set<EdgeRelation>)
    requires credited == if StatesCompanies(data) then {CREDITED_TO} else {}
    ensures Groups(ReleaseHead(voc, id, data) + CreditedToRows(voc, id, data), HEAD_RELATIONS + credited, DocId(RELEASES, id))
  {
    HeadGroups(voc, id, data);
    CompanyGroup(voc, id, data);
    HeadIsNotCredited(credited);
    GroupsConcat(ReleaseHead(voc, id, data), CreditedToRows(voc, id, data), HEAD_RELATIONS, credited, DocId(RELEASES, id));
  }

  lemma HeadIsNotCredited(credited: set<EdgeRelation>)
    requires credited <= {CREDITED_TO}
    ensures HEAD_RELATIONS !! credited
    ensures TRACK_CREDITED_ON !in HEAD_RELATIONS + credited && TRACK_BY_ARTIST !in HEAD_RELATIONS + credited
  {
  }

  lemma TrackGroups(doc: DocId, head: seq<Edge>, credits: seq<Edge>, performers: seq<Edge>, relations: set<EdgeRelation>)
    requires Groups(head, relations, doc) && TRACK_CREDITED_ON !in relations && TRACK_BY_ARTIST !in relations
    requires Groups(credits, {TRACK_CREDITED_ON}, doc) && Groups(performers, {TRACK_BY_ARTIST}, doc)
    ensures Groups(head + credits + performers, relations + {TRACK_CREDITED_ON, TRACK_BY_ARTIST}, doc)
  {
    GroupsConcat(head, credits, relations, {TRACK_CREDITED_ON}, doc);
    GroupsConcat(head + credits, performers, relations + {TRACK_CREDITED_ON}, {TRACK_BY_ARTIST}, doc);
    assert relations + {TRACK_CREDITED_ON} + {TRACK_BY_ARTIST} == relations + {TRACK_CREDITED_ON, TRACK_BY_ARTIST};
  }

  lemma ReleaseGroups(voc: Vocabulary, id: string, data: Document, credited: set<EdgeRelation>)
    requires credited == if StatesCompanies(data) then {CREDITED_TO} else {}
    ensures Groups(DeriveRelease(voc, id, data).edges, HEAD_RELATIONS + credited + {TRACK_CREDITED_ON, TRACK_BY_ARTIST}, DocId(RELEASES, id))
  {
    CreditedGroups(voc, id, data, credited);
    TrackCreditGroup(voc, id, data);
    TrackPerformerGroup(voc, id, data);
    HeadIsNotCredited(credited);
    TrackGroups(DocId(RELEASES, id), ReleaseHead(voc, id, data) + CreditedToRows(voc, id, data),
                TrackCreditedOnRows(voc, id, data), TrackByArtistRows(voc, id, data), HEAD_RELATIONS + credited);
  }

  lemma ReleaseOwnsItsRows(voc: Vocabulary, id: string, data: Document)
    ensures OwnsItsRows(DocId(RELEASES, id), DeriveRelease(voc, id, data))
  {
    var credited: set<EdgeRelation> := if StatesCompanies(data) then {CREDITED_TO} else {};
    ReleaseGroups(voc, id, data, credited);
    ReleaseReplacesAll(data, credited);
    GroupsAreOwned(DocId(RELEASES, id), DeriveRelease(voc, id, data), HEAD_RELATIONS + credited + {TRACK_CREDITED_ON, TRACK_BY_ARTIST});
  }

  lemma ReleaseReplacesAll(data: Document, credited: set<EdgeRelation>)
    requires credited == if StatesCompanies(data) then {CREDITED_TO} else {}
    ensures HEAD_RELATIONS + credited + {TRACK_CREDITED_ON, TRACK_BY_ARTIST} <= ReleaseReplaces(data) + {MEMBER_OF, SAME_AS}
  {
  }

  const MASTER_RELATIONS: set<EdgeRelation> := {MASTER_BY_ARTIST, MASTER_IN_GENRE, MASTER_IN_STYLE}

  lemma MasterGroups(voc: Vocabulary, id: string, data: Document)
    ensures Groups(DeriveMaster(voc, id, data).edges, MASTER_RELATIONS, DocId(MASTERS, id))
  {
    var doc := DocId(MASTERS, id);
    var e1 := Map(MasterByArtistOf(id), ElementIds(voc, Field(data, "artists")));
    var e2 := Map(MasterInGenreOf(id), TagNames(Field(data, "genres")));
    var e3 := Map(MasterInStyleOf(id), TagNames(Field(data, "styles")));
    MapGroup(MasterByArtistOf(id), ElementIds(voc, Field(data, "artists")), MASTER_BY_ARTIST, doc);
    MapGroup(MasterInGenreOf(id), TagNames(Field(data, "genres")), MASTER_IN_GENRE, doc);
    MapGroup(MasterInStyleOf(id), TagNames(Field(data, "styles")), MASTER_IN_STYLE, doc);
    GroupsConcat(e1, e2, {MASTER_BY_ARTIST}, {MASTER_IN_GENRE}, doc);
    GroupsConcat(e1 + e2, e3, {MASTER_BY_ARTIST, MASTER_IN_GENRE}, {MASTER_IN_STYLE}, doc);
    assert {MASTER_BY_ARTIST, MASTER_IN_GENRE} + {MASTER_IN_STYLE} == MASTER_RELATIONS;
  }

  lemma MasterOwnsItsRows(voc: Vocabulary, id: string, data: Document)
    ensures OwnsItsRows(DocId(MASTERS, id), DeriveMaster(voc, id, data))
  {
    MasterGroups(voc, id, data);
    GroupsAreOwned(DocId(MASTERS, id), DeriveMaster(voc, id, data), MASTER_RELATIONS);
  }

  lemma MembershipGroup(voc: Vocabulary, id: string, data: Document)
    ensures Groups(MemberOfRows(voc, id, data), {MEMBER_OF}, DocId(ARTISTS, id))
  {
    var members := Map(MembersOf(id), ElementIds(voc, Field(data, "members")));
    var groups := Map(GroupsOf(id), ElementIds(voc, Field(data, "groups")));
    MapGroup(MembersOf(id), ElementIds(voc, Field(data, "members")), MEMBER_OF, DocId(ARTISTS, id));
    MapGroup(GroupsOf(id), ElementIds(voc, Field(data, "groups")), MEMBER_OF, DocId(ARTISTS, id));
    UniqueMembers(members + groups);
    WholeRowGroup(MemberOfRows(voc, id, data), MEMBER_OF, DocId(ARTISTS, id));
  }

  lemma ArtistGroups(voc: Vocabulary, id: string, data: Document)
    ensures Groups(DeriveArtist(voc, id, data).edges, {MEMBER_OF, ALIAS_OF}, DocId(ARTISTS, id))
  {
    var doc := DocId(ARTISTS, id);
    MembershipGroup(voc, id, data);
    MapGroup(AliasesOf(id), ElementIds(voc, Field(data, "aliases")), ALIAS_OF, doc);
    GroupsConcat(MemberOfRows(voc, id, data), AliasOfRows(voc, id, data), {MEMBER_OF}, {ALIAS_OF}, doc);
    assert {MEMBER_OF} + {ALIAS_OF} == {MEMBER_OF, ALIAS_OF};
  }

  lemma ArtistOwnsItsRows(voc: Vocabulary, id: string, data: Document)
    ensures OwnsItsRows(DocId(ARTISTS, id), DeriveArtist(voc, id, data))
  {
    ArtistGroups(voc, id, data);
    GroupsAreOwned(DocId(ARTISTS, id), DeriveArtist(voc, id, data), {MEMBER_OF, ALIAS_OF});
  }

  /** For every document of every table and every vocabulary. */
  lemma DerivedRowsAreOwned(voc: Vocabulary, doc: DocId, data: Document)
    ensures OwnsItsRows(doc, Derive(voc, doc, data))
  {
    match doc.table
    case ARTISTS => ArtistOwnsItsRows(voc, doc.id, data);
    case MASTERS => MasterOwnsItsRows(voc, doc.id, data);
    case RELEASES => ReleaseOwnsItsRows(voc, doc.id, data);
    case LABELS =>
  }
}
