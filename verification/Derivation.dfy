/**
  The vertex and edge rows one Discogs document asserts. Documents are JSON as delivered, not
  schema-checked: every reader below skips what does not have the expected shape.
 */
module Derivation {
  import opened Wrappers
  import opened Rows

  datatype Json =
    | JNull
    | JBool(b: bool)
    | JInt(n: int)
    | JFloat(r: real)
    | JText(s: string)
    | JArray(items: seq<Json>)
    | JObject(fields: map<string, Json>)

  type Document = map<string, Json>

  /** The text rules and taxonomies the shared runtime owns; nothing is assumed of them. */
  datatype Vocabulary = Vocabulary(
    strip: string -> string,
    stripPersonName: string -> string,
    foldName: string -> string,
    decimal: int -> string,
    mediaForRelease: Document -> Document,
    mediumLabel: string -> Option<string>)

  function Field(d: Document, key: string): Json {
    if key in d then d[key] else JNull
  }

  // ---- references -------------------------------------------------------------------------

  function Unique<T(==)>(rows: seq<T>): seq<T> {
    if rows == [] then []
    else
      var kept := Unique(rows[..|rows| - 1]);
      if rows[|rows| - 1] in kept then kept else kept + [rows[|rows| - 1]]
  }

  function Objects(items: seq<Json>): seq<Document> {
    if items == [] then []
    else (if items[0].JObject? then [items[0].fields] else []) + Objects(items[1..])
  }

  function Elements(value: Json): seq<Document> {
    if value.JArray? then Objects(value.items) else []
  }

  function EntityId(voc: Vocabulary, value: Json): Option<string> {
    var text := match value
      case JInt(n) => voc.decimal(n)
      case JText(s) => voc.strip(s)
      case _ => "";
    if text == "" || text == "0" then None else Some(text)
  }

  function Ids(voc: Vocabulary, elements: seq<Document>): seq<string> {
    if elements == [] then []
    else
      var id := EntityId(voc, Field(elements[0], "id"));
      (if id.Some? then [id.value] else []) + Ids(voc, elements[1..])
  }

  function ElementIds(voc: Vocabulary, value: Json): seq<string> {
    Unique(Ids(voc, Elements(value)))
  }

  function Names(items: seq<Json>): seq<string> {
    if items == [] then []
    else (if items[0].JText? && items[0].s != "" then [items[0].s] else []) + Names(items[1..])
  }

  function TagNames(value: Json): seq<string> {
    if value.JArray? then Unique(Names(value.items)) else []
  }

  /** The array an unflattened XML container unwraps to under one child name. */
  function XmlArray(container: Json, key: string): seq<Json> {
    match container
    case JArray(items) => items
    case JObject(fields) =>
      if key !in fields then []
      else (match fields[key] case JArray(items) => items case JNull => [] case other => [other])
    case JNull => []
    case other => [other]
  }

  // ---- credits ----------------------------------------------------------------------------

  datatype Credit = Credit(name: string, role: string, artistId: Option<string>)

  function CreditOf(voc: Vocabulary, element: Document): Option<Credit> {
    var name, role := Field(element, "name"), Field(element, "role");
    if !(name.JText? && name.s != "" && role.JText? && role.s != "") then None
    else
      var stripped := voc.stripPersonName(name.s);
      if stripped == "" then None else Some(Credit(stripped, role.s, EntityId(voc, Field(element, "id"))))
  }

  function CreditsOf(voc: Vocabulary, elements: seq<Document>): seq<Credit> {
    if elements == [] then []
    else
      var last := CreditOf(voc, elements[|elements| - 1]);
      CreditsOf(voc, elements[..|elements| - 1]) + (if last.Some? then [last.value] else [])
  }

  method Credits(voc: Vocabulary, value: Json) returns (credits: seq<Credit>)
    ensures credits == CreditsOf(voc, Elements(value))
  {
    credits := [];
    var elements := Elements(value);
    for i := 0 to |elements|
      invariant credits == CreditsOf(voc, elements[..i])
    {
      assert elements[..i + 1][..i] == elements[..i];
      var element := elements[i];
      var name, role := Field(element, "name"), Field(element, "role");
      if !(name.JText? && name.s != "" && role.JText? && role.s != "") {
        continue;
      }
      var stripped := voc.stripPersonName(name.s);
      if stripped == "" {
        continue;
      }
      credits := credits + [Credit(stripped, role.s, EntityId(voc, Field(element, "id")))];
    }
    assert elements[..|elements|] == elements;
  }

  // ---- tracks -----------------------------------------------------------------------------

  datatype Placed<T> = Placed(track: nat, subTrack: nat, position: Option<string>, what: T)

  function PositionOf(track: Document): Option<string> {
    var position := Field(track, "position");
    if position.JText? then Some(position.s) else None
  }

  function PlaceAll<T>(track: nat, subTrack: nat, position: Option<string>, whats: seq<T>): seq<Placed<T>> {
    seq(|whats|, i requires 0 <= i < |whats| => Placed(track, subTrack, position, whats[i]))
  }

  /** What `read` finds on the first n sub-tracks, each under its 1-based ordinal. */
  function OnSubTracks<T>(read: Document -> seq<T>, track: nat, subTracks: seq<Json>, n: nat): seq<Placed<T>>
    requires n <= |subTracks|
  {
    if n == 0 then []
    else
      var subTrack := subTracks[n - 1];
      OnSubTracks(read, track, subTracks, n - 1)
      + if subTrack.JObject? then PlaceAll(track, n, PositionOf(subTrack.fields), read(subTrack.fields)) else []
  }

  /** What `read` finds on the first n tracks and their sub-tracks; ordinal 0 is the track itself. */
  function OnTracks<T>(read: Document -> seq<T>, tracks: seq<Json>, n: nat): seq<Placed<T>>
    requires n <= |tracks|
  {
    if n == 0 then []
    else
      var track := tracks[n - 1];
      OnTracks(read, tracks, n - 1)
      + if track.JObject? then
          var subTracks := XmlArray(Field(track.fields, "sub_tracks"), "track");
          PlaceAll(n, 0, PositionOf(track.fields), read(track.fields)) + OnSubTracks(read, n, subTracks, |subTracks|)
        else []
  }

  function Walk<T>(read: Document -> seq<T>, tracklist: Json): seq<Placed<T>> {
    var tracks := XmlArray(tracklist, "track");
    OnTracks(read, tracks, |tracks|)
  }

  function CreditsOn(voc: Vocabulary): Document -> seq<Credit> {
    (track: Document) => CreditsOf(voc, Objects(XmlArray(Field(track, "extraartists"), "artist")))
  }

  function PerformersOn(voc: Vocabulary): Document -> seq<string> {
    (track: Document) => Unique(Ids(voc, Objects(XmlArray(Field(track, "artists"), "artist"))))
  }

  function TrackCreditsOf(voc: Vocabulary, tracklist: Json): seq<Placed<Credit>> {
    Walk(CreditsOn(voc), tracklist)
  }

  function TrackPerformersOf(voc: Vocabulary, tracklist: Json): seq<Placed<string>> {
    Walk(PerformersOn(voc), tracklist)
  }

  lemma TracksNext<T>(read: Document -> seq<T>, tracks: seq<Json>, n: nat)
    requires n < |tracks| && tracks[n].JObject?
    ensures var subTracks := XmlArray(Field(tracks[n].fields, "sub_tracks"), "track");
            OnTracks(read, tracks, n + 1) == OnTracks(read, tracks, n)
              + (PlaceAll(n + 1, 0, PositionOf(tracks[n].fields), read(tracks[n].fields)) + OnSubTracks(read, n + 1, subTracks, |subTracks|))
  {
  }

  method SubTrackCredits(voc: Vocabulary, track: nat, subTracks: seq<Json>) returns (rows: seq<Placed<Credit>>)
    ensures rows == OnSubTracks(CreditsOn(voc), track, subTracks, |subTracks|)
  {
    rows := [];
    for u := 0 to |subTracks|
      invariant rows == OnSubTracks(CreditsOn(voc), track, subTracks, u)
    {
      if !subTracks[u].JObject? {
        continue;
      }
      var subTrack := subTracks[u].fields;
      var found := Credits(voc, JArray(XmlArray(Field(subTrack, "extraartists"), "artist")));
      rows := rows + PlaceAll(track, u + 1, PositionOf(subTrack), found);
    }
  }

  method TrackCredits(voc: Vocabulary, tracklist: Json) returns (rows: seq<Placed<Credit>>)
    ensures rows == TrackCreditsOf(voc, tracklist)
  {
    rows := [];
    var tracks := XmlArray(tracklist, "track");
    for t := 0 to |tracks|
      invariant rows == OnTracks(CreditsOn(voc), tracks, t)
    {
      if !tracks[t].JObject? {
        continue;
      }
      var track := tracks[t].fields;
      TracksNext(CreditsOn(voc), tracks, t);
      var own := Credits(voc, JArray(XmlArray(Field(track, "extraartists"), "artist")));
      var below := SubTrackCredits(voc, t + 1, XmlArray(Field(track, "sub_tracks"), "track"));
      rows := rows + (PlaceAll(t + 1, 0, PositionOf(track), own) + below);
    }
  }

  method SubTrackPerformers(voc: Vocabulary, track: nat, subTracks: seq<Json>) returns (rows: seq<Placed<string>>)
    ensures rows == OnSubTracks(PerformersOn(voc), track, subTracks, |subTracks|)
  {
    rows := [];
    for u := 0 to |subTracks|
      invariant rows == OnSubTracks(PerformersOn(voc), track, subTracks, u)
    {
      if !subTracks[u].JObject? {
        continue;
      }
      var subTrack := subTracks[u].fields;
      var found := ElementIds(voc, JArray(XmlArray(Field(subTrack, "artists"), "artist")));
      rows := rows + PlaceAll(track, u + 1, PositionOf(subTrack), found);
    }
  }

  method TrackPerformers(voc: Vocabulary, tracklist: Json) returns (rows: seq<Placed<string>>)
    ensures rows == TrackPerformersOf(voc, tracklist)
  {
    rows := [];
    var tracks := XmlArray(tracklist, "track");
    for t := 0 to |tracks|
      invariant rows == OnTracks(PerformersOn(voc), tracks, t)
    {
      if !tracks[t].JObject? {
        continue;
      }
      var track := tracks[t].fields;
      TracksNext(PerformersOn(voc), tracks, t);
      var own := ElementIds(voc, JArray(XmlArray(Field(track, "artists"), "artist")));
      var below := SubTrackPerformers(voc, t + 1, XmlArray(Field(track, "sub_tracks"), "track"));
      rows := rows + (PlaceAll(t + 1, 0, PositionOf(track), own) + below);
    }
  }

  // ---- media ------------------------------------------------------------------------------

  datatype MediaRow = MediaRow(medium: string, family: string, caption: string, qty: nat)

  predicate UsableMedium(item: Document) {
    && Field(item, "medium").JText? && Field(item, "medium").s != ""
    && Field(item, "family").JText? && Field(item, "family").s != ""
  }

  function Quantity(item: Document): (q: nat)
    ensures q >= 1
  {
    var qty := Field(item, "qty");
    if qty.JInt? && qty.n >= 1 then qty.n else 1
  }

  function Mediums(items: seq<Document>): seq<string> {
    if items == [] then []
    else
      var last := items[|items| - 1];
      Mediums(items[..|items| - 1]) + if UsableMedium(last) then [Field(last, "medium").s] else []
  }

  /** The summed quantity of one medium over every entry that names it. */
  function TotalOf(items: seq<Document>, medium: string): nat {
    if items == [] then 0
    else
      var last := items[|items| - 1];
      TotalOf(items[..|items| - 1], medium)
      + if UsableMedium(last) && Field(last, "medium").s == medium then Quantity(last) else 0
  }

  /** The family the first entry naming a medium gives it. */
  function FamilyOf(items: seq<Document>, medium: string): string {
    if items == [] then ""
    else if medium in Mediums(items[..|items| - 1]) then FamilyOf(items[..|items| - 1], medium)
    else
      var last := items[|items| - 1];
      if UsableMedium(last) && Field(last, "medium").s == medium then Field(last, "family").s else ""
  }

  function LabelOf(voc: Vocabulary, medium: string): string {
    var caption := voc.mediumLabel(medium);
    if caption.Some? then caption.value else medium
  }

  function MediaRowsOf(voc: Vocabulary, items: seq<Document>): seq<MediaRow> {
    var order := Unique(Mediums(items));
    seq(|order|, i requires 0 <= i < |order| =>
      MediaRow(order[i], FamilyOf(items, order[i]), LabelOf(voc, order[i]), TotalOf(items, order[i])))
  }

  lemma {:induction false} UniqueMembers<T>(rows: seq<T>)
    ensures forall x :: x in Unique(rows) <==> x in rows
    ensures forall i, j :: 0 <= i < j < |Unique(rows)| ==> Unique(rows)[i] != Unique(rows)[j]
  {
    if rows != [] {
      var init, last := rows[..|rows| - 1], rows[|rows| - 1];
      UniqueMembers(init);
      assert rows == init + [last];
    }
  }

  lemma UniqueAppend<T>(rows: seq<T>, x: T)
    ensures Unique(rows + [x]) == if x in Unique(rows) then Unique(rows) else Unique(rows) + [x]
  {
    assert (rows + [x])[..|rows|] == rows;
  }

  lemma {:induction false} TotalIsZeroOutside(items: seq<Document>, medium: string)
    requires medium !in Mediums(items)
    ensures TotalOf(items, medium) == 0
  {
    if items != [] {
      TotalIsZeroOutside(items[..|items| - 1], medium);
    }
  }

  lemma MediaStep(items: seq<Document>, i: nat)
    requires i < |items|
    ensures var before, after, item := items[..i], items[..i + 1], items[i];
            var medium := Field(item, "medium");
            if UsableMedium(item) then
              && Mediums(after) == Mediums(before) + [medium.s]
              && (medium.s in Unique(Mediums(before)) ==> Unique(Mediums(after)) == Unique(Mediums(before)))
              && (medium.s !in Unique(Mediums(before)) ==> Unique(Mediums(after)) == Unique(Mediums(before)) + [medium.s])
              && (forall m :: TotalOf(after, m) == TotalOf(before, m) + if m == medium.s then Quantity(item) else 0)
              && (forall m :: m in Mediums(before) ==> FamilyOf(after, m) == FamilyOf(before, m))
              && (medium.s !in Mediums(before) ==> FamilyOf(after, medium.s) == Field(item, "family").s)
            else
              && Mediums(after) == Mediums(before)
              && (forall m :: TotalOf(after, m) == TotalOf(before, m))
              && (forall m :: m in Mediums(before) ==> FamilyOf(after, m) == FamilyOf(before, m))
  {
    assert items[..i + 1][..i] == items[..i];
    if UsableMedium(items[i]) {
      UniqueAppend(Mediums(items[..i]), Field(items[i], "medium").s);
    } else {
      assert Mediums(items[..i + 1]) == Mediums(items[..i]) + [];
    }
  }

  /** The loop over the entries: first-seen order, first-seen family, running totals. */
  method TallyMedia(voc: Vocabulary, items: seq<Document>)
    returns (order: seq<string>, resolved: map<string, (string, string)>, quantities: map<string, nat>)
    ensures order == Unique(Mediums(items))
    ensures forall m :: m in order ==> m in resolved && resolved[m] == (FamilyOf(items, m), LabelOf(voc, m))
    ensures forall m :: m in order ==> m in quantities && quantities[m] == TotalOf(items, m)
  {
    order, resolved, quantities := [], map[], map[];
    for i := 0 to |items|
      invariant order == Unique(Mediums(items[..i]))
      invariant forall m :: m in resolved <==> m in Mediums(items[..i])
      invariant forall m :: m in quantities <==> m in Mediums(items[..i])
      invariant forall m :: m in resolved ==> resolved[m] == (FamilyOf(items[..i], m), LabelOf(voc, m))
      invariant forall m :: m in quantities ==> quantities[m] == TotalOf(items[..i], m)
    {
      MediaStep(items, i);
      UniqueMembers(Mediums(items[..i]));
      var item := items[i];
      if UsableMedium(item) {
        var medium, family := Field(item, "medium").s, Field(item, "family").s;
        if medium !in resolved {
          TotalIsZeroOutside(items[..i], medium);
          order := order + [medium];
          resolved := resolved[medium := (family, LabelOf(voc, medium))];
          quantities := quantities[medium := 0];
        }
        quantities := quantities[medium := quantities[medium] + Quantity(item)];
      }
    }
    assert items[..|items|] == items;
    UniqueMembers(Mediums(items));
  }

  method MediaRows(voc: Vocabulary, block: Document) returns (rows: seq<MediaRow>)
    ensures rows == MediaRowsOf(voc, Elements(Field(block, "items")))
  {
    var order, resolved, quantities := TallyMedia(voc, Elements(Field(block, "items")));
    rows := seq(|order|, i requires 0 <= i < |order| && order[i] in resolved && order[i] in quantities =>
      MediaRow(order[i], resolved[order[i]].0, resolved[order[i]].1, quantities[order[i]]));
  }

  // ---- companies --------------------------------------------------------------------------

  datatype CompanyRow = CompanyRow(companyId: string, name: string, role: string, category: string)

  function Text(voc: Vocabulary, value: Json): Option<string> {
    if !value.JText? then None
    else
      var text := voc.strip(value.s);
      if text == "" then None else Some(text)
  }

  predicate AllDigits(text: string) {
    text != "" && forall i :: 0 <= i < |text| ==> '0' <= text[i] <= '9'
  }

  function DiscogsId(voc: Vocabulary, value: Json): Option<string> {
    match value
    case JInt(n) => if n >= 1 then Some(voc.decimal(n)) else None
    case JText(s) =>
      var text := voc.strip(s);
      if AllDigits(text) && exists i :: 0 <= i < |text| && text[i] != '0' then Some(text) else None
    case _ => None
  }

  function CompanyIdentity(voc: Vocabulary, item: Document): Option<string> {
    var id := DiscogsId(voc, Field(item, "discogs_id"));
    if id.Some? then id
    else
      var name := Text(voc, Field(item, "name"));
      if name.None? then None else Some("name:" + voc.foldName(name.value))
  }

  function CompanyRowOf(voc: Vocabulary, item: Document): Option<CompanyRow> {
    var role, id := Text(voc, Field(item, "role")), CompanyIdentity(voc, item);
    if role.None? || id.None? then None
    else
      var name, category := Text(voc, Field(item, "name")), Text(voc, Field(item, "role_category"));
      Some(CompanyRow(id.value, if name.Some? then name.value else id.value,
                      role.value, if category.Some? then category.value else "other"))
  }

  predicate SameCredit(a: CompanyRow, b: CompanyRow) {
    a.companyId == b.companyId && a.role == b.role
  }

  /** Per (company, role), in source order, the row of the first entry that states it. */
  function CompanyRowsOf(voc: Vocabulary, items: seq<Document>): seq<CompanyRow> {
    if items == [] then []
    else
      var kept := CompanyRowsOf(voc, items[..|items| - 1]);
      var last := CompanyRowOf(voc, items[|items| - 1]);
      if last.None? || exists i :: 0 <= i < |kept| && SameCredit(kept[i], last.value) then kept else kept + [last.value]
  }

  /** The keys of the kept rows. */
  ghost predicate KeysOf(seen: set<(string, string)>, rows: seq<CompanyRow>) {
    forall k :: k in seen <==> exists j :: 0 <= j < |rows| && k == (rows[j].companyId, rows[j].role)
  }

  lemma KeysAppend(seen: set<(string, string)>, rows: seq<CompanyRow>, row: CompanyRow)
    requires KeysOf(seen, rows)
    ensures KeysOf(seen + {(row.companyId, row.role)}, rows + [row])
  {
    var next := rows + [row];
    forall k ensures k in seen + {(row.companyId, row.role)} <==> exists j :: 0 <= j < |next| && k == (next[j].companyId, next[j].role) {
      if k == (row.companyId, row.role) {
        assert next[|rows|] == row;
      } else if k in seen {
        var j :| 0 <= j < |rows| && k == (rows[j].companyId, rows[j].role);
        assert next[j] == rows[j];
      }
    }
  }

  lemma SeenIsCredited(seen: set<(string, string)>, rows: seq<CompanyRow>, row: CompanyRow)
    requires KeysOf(seen, rows)
    ensures (row.companyId, row.role) in seen <==> exists j :: 0 <= j < |rows| && SameCredit(rows[j], row)
  {
    if j :| 0 <= j < |rows| && SameCredit(rows[j], row) {
      assert (row.companyId, row.role) == (rows[j].companyId, rows[j].role);
    }
    if (row.companyId, row.role) in seen {
      var j :| 0 <= j < |rows| && (row.companyId, row.role) == (rows[j].companyId, rows[j].role);
      assert SameCredit(rows[j], row);
    }
  }

  lemma CompanyRowsAppend(voc: Vocabulary, items: seq<Document>, item: Document)
    ensures var kept, last := CompanyRowsOf(voc, items), CompanyRowOf(voc, item);
            CompanyRowsOf(voc, items + [item]) ==
              if last.None? || exists i :: 0 <= i < |kept| && SameCredit(kept[i], last.value) then kept else kept + [last.value]
  {
    assert (items + [item])[..|items|] == items;
  }

  method CompanyRows(voc: Vocabulary, block: Document) returns (rows: seq<CompanyRow>)
    ensures rows == CompanyRowsOf(voc, Elements(Field(block, "items")))
  {
    var items := Elements(Field(block, "items"));
    rows := [];
    var seen: set<(string, string)> := {};
    for i := 0 to |items|
      invariant rows == CompanyRowsOf(voc, items[..i])
      invariant KeysOf(seen, rows)
    {
      assert items[..i + 1] == items[..i] + [items[i]];
      var item := items[i];
      CompanyRowsAppend(voc, items[..i], item);
      var role, id := Text(voc, Field(item, "role")), CompanyIdentity(voc, item);
      if role.None? || id.None? {
        continue;
      }
      ghost var stated := CompanyRowOf(voc, item).value;
      SeenIsCredited(seen, rows, stated);
      var key := (id.value, role.value);
      if key in seen {
        continue;
      }
      KeysAppend(seen, rows, stated);
      seen := seen + {key};
      var name, category := Text(voc, Field(item, "name")), Text(voc, Field(item, "role_category"));
      rows := rows + [CompanyRow(id.value, if name.Some? then name.value else id.value,
                                 role.value, if category.Some? then category.value else "other")];
    }
    assert items[..|items|] == items;
  }

  // ---- whole documents --------------------------------------------------------------------

  function Map<A, B>(f: A -> B, rows: seq<A>): seq<B> {
    seq(|rows|, i requires 0 <= i < |rows| => f(rows[i]))
  }

  // One row of each relation, as a function of what the document names.

  function MembersOf(id: string): string -> Edge { (m: string) => MemberOf(m, id) }

  function GroupsOf(id: string): string -> Edge { (g: string) => MemberOf(id, g) }

  function AliasesOf(id: string): string -> Edge { (a: string) => AliasOf(a, id) }

  function MasterByArtistOf(id: string): string -> Edge { (a: string) => MasterByArtist(id, a) }

  function MasterInGenreOf(id: string): string -> Edge { (n: string) => MasterInGenre(id, n) }

  function MasterInStyleOf(id: string): string -> Edge { (n: string) => MasterInStyle(id, n) }

  function ByArtistOf(id: string): string -> Edge { (a: string) => ByArtist(id, a) }

  function OnLabelOf(id: string): string -> Edge { (l: string) => OnLabel(id, l) }

  function InGenreOf(id: string): string -> Edge { (n: string) => InGenre(id, n) }

  function InStyleOf(id: string): string -> Edge { (n: string) => InStyle(id, n) }

  function CreditedOnOf(id: string): Credit -> Edge { (c: Credit) => CreditedOn(c.name, id, c.role) }

  function IssuedOnOf(id: string): MediaRow -> Edge { (m: MediaRow) => IssuedOn(id, m.medium, DISCOGS_SOURCE, m.qty) }

  function CreditedToOf(id: string): CompanyRow -> Edge {
    (c: CompanyRow) => CreditedTo(id, c.companyId, c.role, c.category, DISCOGS_SOURCE)
  }

  function TrackCreditedOnOf(id: string): Placed<Credit> -> Edge {
    (p: Placed<Credit>) => TrackCreditedOn(p.what.name, id, p.track, p.subTrack, p.position, p.what.role)
  }

  function TrackByArtistOf(id: string): Placed<string> -> Edge {
    (p: Placed<string>) => TrackByArtist(id, p.track, p.subTrack, p.position, p.what)
  }

  function MemberOfRows(voc: Vocabulary, id: string, data: Document): seq<Edge> {
    Unique(Map(MembersOf(id), ElementIds(voc, Field(data, "members"))) + Map(GroupsOf(id), ElementIds(voc, Field(data, "groups"))))
  }

  function AliasOfRows(voc: Vocabulary, id: string, data: Document): seq<Edge> {
    Unique(Map(AliasesOf(id), ElementIds(voc, Field(data, "aliases"))))
  }

  function DeriveArtist(voc: Vocabulary, id: string, data: Document): DocumentGraph {
    DocumentGraph([], MemberOfRows(voc, id, data) + AliasOfRows(voc, id, data), {ALIAS_OF})
  }

  function DeriveMaster(voc: Vocabulary, id: string, data: Document): DocumentGraph {
    var genres, styles := TagNames(Field(data, "genres")), TagNames(Field(data, "styles"));
    DocumentGraph(
      Map((n: string) => Genre(n), genres) + Map((n: string) => Style(n), styles),
      Map(MasterByArtistOf(id), ElementIds(voc, Field(data, "artists")))
      + Map(MasterInGenreOf(id), genres)
      + Map(MasterInStyleOf(id), styles),
      {MASTER_BY_ARTIST, MASTER_IN_GENRE, MASTER_IN_STYLE})
  }

  function SameAsFor(person: string, artistId: Option<string>): seq<Edge> {
    if artistId.Some? then [SameAs(person, artistId.value)] else []
  }

  function SameAsOf(credits: seq<Credit>): seq<Edge> {
    if credits == [] then [] else SameAsFor(credits[0].name, credits[0].artistId) + SameAsOf(credits[1..])
  }

  function SameAsOnTracks(credits: seq<Placed<Credit>>): seq<Edge> {
    if credits == [] then [] else SameAsFor(credits[0].what.name, credits[0].what.artistId) + SameAsOnTracks(credits[1..])
  }

  /** A release without a canonical companies block says nothing about company credits. */
  predicate StatesCompanies(data: Document) {
    Field(data, "companies").JObject?
  }

  function CompaniesOf(voc: Vocabulary, data: Document): seq<CompanyRow> {
    if StatesCompanies(data) then CompanyRowsOf(voc, Elements(Field(Field(data, "companies").fields, "items"))) else []
  }

  function MediaOf(voc: Vocabulary, data: Document): seq<MediaRow> {
    MediaRowsOf(voc, Elements(Field(voc.mediaForRelease(data), "items")))
  }

  function LabelPage(companyId: string): Option<string> {
    if AllDigits(companyId) then Some(companyId) else None
  }

  function ReleaseVertices(voc: Vocabulary, data: Document): seq<Vertex> {
    var credits := CreditsOf(voc, Elements(Field(data, "extraartists")));
    var trackCredits := TrackCreditsOf(voc, Field(data, "tracklist"));
    var media := MediaOf(voc, data);
    Map((n: string) => Genre(n), TagNames(Field(data, "genres")))
    + Map((n: string) => Style(n), TagNames(Field(data, "styles")))
    + Unique(Map((c: Credit) => Person(c.name), credits) + Map((p: Placed<Credit>) => Person(p.what.name), trackCredits))
    + Unique(Map((m: MediaRow) => MediaFamily(m.family), media))
    + Map((m: MediaRow) => Medium(m.medium, m.family, m.caption), media)
    + Map((c: CompanyRow) => Company(c.companyId, c.name, LabelPage(c.companyId)), CompaniesOf(voc, data))
  }

  function DerivedFromOf(voc: Vocabulary, id: string, data: Document): seq<Edge> {
    var master := EntityId(voc, Field(data, "master_id"));
    if master.Some? then [DerivedFrom(id, master.value)] else []
  }

  function CreditedOnRows(voc: Vocabulary, id: string, data: Document): seq<Edge> {
    Unique(Map(CreditedOnOf(id), CreditsOf(voc, Elements(Field(data, "extraartists")))))
  }

  /** The rows of the relations keyed on whole rows. */
  function PlainReleaseEdges(voc: Vocabulary, id: string, data: Document): seq<Edge> {
    Map(ByArtistOf(id), ElementIds(voc, Field(data, "artists")))
    + Map(OnLabelOf(id), ElementIds(voc, Field(data, "labels")))
    + DerivedFromOf(voc, id, data)
    + Map(InGenreOf(id), TagNames(Field(data, "genres")))
    + Map(InStyleOf(id), TagNames(Field(data, "styles")))
    + CreditedOnRows(voc, id, data)
  }

  function SameAsRows(voc: Vocabulary, data: Document): seq<Edge> {
    Unique(SameAsOf(CreditsOf(voc, Elements(Field(data, "extraartists"))))
           + SameAsOnTracks(TrackCreditsOf(voc, Field(data, "tracklist"))))
  }

  function IssuedOnRows(voc: Vocabulary, id: string, data: Document): seq<Edge> {
    Map(IssuedOnOf(id), MediaOf(voc, data))
  }

  function CreditedToRows(voc: Vocabulary, id: string, data: Document): seq<Edge> {
    Map(CreditedToOf(id), CompaniesOf(voc, data))
  }

  function TrackCreditedOnRows(voc: Vocabulary, id: string, data: Document): seq<Edge> {
    Unique(Map(TrackCreditedOnOf(id), TrackCreditsOf(voc, Field(data, "tracklist"))))
  }

  function TrackByArtistRows(voc: Vocabulary, id: string, data: Document): seq<Edge> {
    Unique(Map(TrackByArtistOf(id), TrackPerformersOf(voc, Field(data, "tracklist"))))
  }

  function ReleaseReplaces(data: Document): set<EdgeRelation> {
    {BY_ARTIST, ON_LABEL, DERIVED_FROM, IN_GENRE, IN_STYLE, CREDITED_ON, ISSUED_ON, TRACK_CREDITED_ON, TRACK_BY_ARTIST}
    + if StatesCompanies(data) then {CREDITED_TO} else {}
  }

  function DeriveRelease(voc: Vocabulary, id: string, data: Document): DocumentGraph {
    DocumentGraph(
      ReleaseVertices(voc, data),
      PlainReleaseEdges(voc, id, data) + SameAsRows(voc, data) + IssuedOnRows(voc, id, data)
      + CreditedToRows(voc, id, data) + TrackCreditedOnRows(voc, id, data) + TrackByArtistRows(voc, id, data),
      ReleaseReplaces(data))
  }

  function Derive(voc: Vocabulary, doc: DocId, data: Document): DocumentGraph {
    match doc.table
    case ARTISTS => DeriveArtist(voc, doc.id, data)
    case MASTERS => DeriveMaster(voc, doc.id, data)
    case RELEASES => DeriveRelease(voc, doc.id, data)
    case LABELS => DocumentGraph([], [], {})
  }
}
