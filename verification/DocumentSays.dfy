/**
  What a Discogs document must say for a row to be derived, stated on its JSON alone: which key
  holds what, under which shape, at which place. A row is derived iff its document says it.
 */
module DocumentSays {
  import opened Wrappers
  import opened Rows
  import opened Derivation
  import opened DerivationFacts
  import DerivationExact

  // ---- ids and names ----------------------------------------------------------------------

  /** A usable reference: a number or stripped text, neither blank nor the sentinel zero. */
  ghost predicate HasId(voc: Vocabulary, d: Document, key: string, id: string) {
    && key in d && id != "" && id != "0"
    && ((d[key].JInt? && id == voc.decimal(d[key].n)) || (d[key].JText? && id == voc.strip(d[key].s)))
  }

  ghost predicate RefersIn(voc: Vocabulary, items: seq<Json>, id: string) {
    exists d: Document :: JObject(d) in items && HasId(voc, d, "id", id)
  }

  ghost predicate Refers(voc: Vocabulary, data: Document, key: string, id: string) {
    key in data && data[key].JArray? && RefersIn(voc, data[key].items, id)
  }

  ghost predicate Tagged(data: Document, key: string, name: string) {
    key in data && data[key].JArray? && JText(name) in data[key].items && name != ""
  }

  lemma IdRead(voc: Vocabulary, d: Document, key: string, id: string)
    ensures HasId(voc, d, key, id) <==> EntityId(voc, Field(d, key)) == Some(id)
  {
  }

  lemma RefersInRead(voc: Vocabulary, items: seq<Json>, id: string)
    ensures RefersIn(voc, items, id) <==> DerivationExact.RefersIn(voc, items, id)
  {
    forall d: Document ensures HasId(voc, d, "id", id) <==> EntityId(voc, Field(d, "id")) == Some(id) {
      IdRead(voc, d, "id", id);
    }
  }

  lemma RefersRead(voc: Vocabulary, data: Document, key: string, id: string)
    ensures Refers(voc, data, key, id) <==> DerivationExact.Refers(voc, Field(data, key), id)
  {
    if key in data && data[key].JArray? {
      RefersInRead(voc, data[key].items, id);
    }
  }

  lemma TaggedRead(data: Document, key: string, name: string)
    ensures Tagged(data, key, name) <==> DerivationExact.NamesTag(Field(data, key), name)
  {
  }

  // ---- credits ----------------------------------------------------------------------------

  /** A credit with a name, once stripped, a role, and the artist it refers to if any. */
  ghost predicate IsCredit(voc: Vocabulary, d: Document, c: Credit) {
    && "name" in d && d["name"].JText? && d["name"].s != "" && c.name == voc.stripPersonName(d["name"].s) && c.name != ""
    && "role" in d && d["role"] == JText(c.role) && c.role != ""
    && (c.artistId.Some? ==> HasId(voc, d, "id", c.artistId.value))
    && (c.artistId.None? ==> forall id :: !HasId(voc, d, "id", id))
  }

  ghost predicate CreditsIn(voc: Vocabulary, items: seq<Json>, c: Credit) {
    exists d: Document :: JObject(d) in items && IsCredit(voc, d, c)
  }

  ghost predicate OnRelease(voc: Vocabulary, data: Document, c: Credit) {
    "extraartists" in data && data["extraartists"].JArray? && CreditsIn(voc, data["extraartists"].items, c)
  }

  lemma CreditRead(voc: Vocabulary, d: Document, c: Credit)
    ensures IsCredit(voc, d, c) <==> CreditOf(voc, d) == Some(c)
  {
    forall id ensures HasId(voc, d, "id", id) <==> EntityId(voc, Field(d, "id")) == Some(id) {
      IdRead(voc, d, "id", id);
    }
    if EntityId(voc, Field(d, "id")).Some? {
      assert HasId(voc, d, "id", EntityId(voc, Field(d, "id")).value);
    }
  }

  lemma CreditsInRead(voc: Vocabulary, items: seq<Json>, c: Credit)
    ensures CreditsIn(voc, items, c) <==> DerivationExact.CreditsIn(voc, items, c)
  {
    forall d: Document ensures IsCredit(voc, d, c) <==> CreditOf(voc, d) == Some(c) {
      CreditRead(voc, d, c);
    }
  }

  lemma OnReleaseRead(voc: Vocabulary, data: Document, c: Credit)
    ensures OnRelease(voc, data, c) <==> DerivationExact.CreditedOnRelease(voc, data, c)
  {
    if "extraartists" in data && data["extraartists"].JArray? {
      CreditsInRead(voc, data["extraartists"].items, c);
    }
  }

  // ---- tracks -----------------------------------------------------------------------------

  /** A list as the XML left it: a list, or a wrapper holding one or a single child; nothing under null. */
  ghost function ListUnder(d: Document, key: string, child: string): seq<Json> {
    if key !in d then []
    else match d[key]
      case JArray(items) => items
      case JObject(fields) =>
        if child !in fields || fields[child] == JNull then []
        else if fields[child].JArray? then fields[child].items
        else [fields[child]]
      case JNull => []
      case scalar => [scalar]
  }

  /** The object at a track's ordinal, counted from one, or at a sub-track's below it; ordinal zero is the track. */
  ghost predicate IsNode(data: Document, track: nat, subTrack: nat, node: Document) {
    var tracks := ListUnder(data, "tracklist", "track");
    && 1 <= track <= |tracks| && tracks[track - 1].JObject?
    && if subTrack == 0 then tracks[track - 1].fields == node
       else
         var below := ListUnder(tracks[track - 1].fields, "sub_tracks", "track");
         subTrack <= |below| && below[subTrack - 1] == JObject(node)
  }

  /** The node at a pair of ordinals, with the position it prints, or none that is text. */
  ghost predicate Plays(data: Document, track: nat, subTrack: nat, position: Option<string>, node: Document) {
    && IsNode(data, track, subTrack, node)
    && (position.Some? ==> "position" in node && node["position"] == JText(position.value))
    && (position.None? ==> "position" !in node || !node["position"].JText?)
  }

  ghost predicate OnTrack(voc: Vocabulary, data: Document, track: nat, subTrack: nat, position: Option<string>, c: Credit) {
    exists node :: Plays(data, track, subTrack, position, node) && CreditsIn(voc, ListUnder(node, "extraartists", "artist"), c)
  }

  ghost predicate PlayedBy(voc: Vocabulary, data: Document, track: nat, subTrack: nat, position: Option<string>, artistId: string) {
    exists node :: Plays(data, track, subTrack, position, node) && RefersIn(voc, ListUnder(node, "artists", "artist"), artistId)
  }

  lemma ListRead(d: Document, key: string, child: string)
    ensures ListUnder(d, key, child) == XmlArray(Field(d, key), child)
  {
  }

  lemma NodeRead(data: Document, track: nat, subTrack: nat, node: Document)
    ensures IsNode(data, track, subTrack, node) <==> NodeAt(Field(data, "tracklist"), track, subTrack) == Some(node)
  {
    ListRead(data, "tracklist", "track");
    var tracks := ListUnder(data, "tracklist", "track");
    if 1 <= track <= |tracks| && tracks[track - 1].JObject? {
      ListRead(tracks[track - 1].fields, "sub_tracks", "track");
    }
  }

  lemma PlaysRead(data: Document, track: nat, subTrack: nat, position: Option<string>, node: Document)
    ensures Plays(data, track, subTrack, position, node) <==> DerivationExact.Plays(data, track, subTrack, position, node)
  {
    NodeRead(data, track, subTrack, node);
  }

  lemma OnTrackRead(voc: Vocabulary, data: Document, track: nat, subTrack: nat, position: Option<string>, c: Credit)
    ensures OnTrack(voc, data, track, subTrack, position, c) <==> DerivationExact.CreditedOnTrack(voc, data, track, subTrack, position, c)
  {
    forall node
      ensures Plays(data, track, subTrack, position, node) <==> DerivationExact.Plays(data, track, subTrack, position, node)
      ensures CreditsIn(voc, ListUnder(node, "extraartists", "artist"), c)
         <==> DerivationExact.CreditsIn(voc, XmlArray(Field(node, "extraartists"), "artist"), c)
    {
      PlaysRead(data, track, subTrack, position, node);
      ListRead(node, "extraartists", "artist");
      CreditsInRead(voc, ListUnder(node, "extraartists", "artist"), c);
    }
  }

  lemma PlayedByRead(voc: Vocabulary, data: Document, track: nat, subTrack: nat, position: Option<string>, artistId: string)
    ensures PlayedBy(voc, data, track, subTrack, position, artistId)
       <==> DerivationExact.PerformedOnTrack(voc, data, track, subTrack, position, artistId)
  {
    forall node
      ensures Plays(data, track, subTrack, position, node) <==> DerivationExact.Plays(data, track, subTrack, position, node)
      ensures RefersIn(voc, ListUnder(node, "artists", "artist"), artistId)
         <==> DerivationExact.RefersIn(voc, XmlArray(Field(node, "artists"), "artist"), artistId)
    {
      PlaysRead(data, track, subTrack, position, node);
      ListRead(node, "artists", "artist");
      RefersInRead(voc, ListUnder(node, "artists", "artist"), artistId);
    }
  }

  // ---- companies --------------------------------------------------------------------------

  /** Text under a key, stripped and not blank. */
  ghost predicate HasText(voc: Vocabulary, d: Document, key: string, text: string) {
    key in d && d[key].JText? && text == voc.strip(d[key].s) && text != ""
  }

  ghost predicate Digits(text: string) {
    text != "" && forall c :: c in text ==> '0' <= c <= '9'
  }

  /** A positive Discogs id, as a number or as digits. */
  ghost predicate HasDiscogsId(voc: Vocabulary, d: Document, id: string) {
    && "discogs_id" in d
    && ((d["discogs_id"].JInt? && d["discogs_id"].n >= 1 && id == voc.decimal(d["discogs_id"].n))
        || (d["discogs_id"].JText? && id == voc.strip(d["discogs_id"].s) && Digits(id) && exists c :: c in id && c != '0'))
  }

  /** One companies entry: its role, its id or folded name, its own name or that id, its category or "other". */
  ghost predicate IsCompany(voc: Vocabulary, d: Document, c: CompanyRow) {
    && HasText(voc, d, "role", c.role)
    && (HasDiscogsId(voc, d, c.companyId)
        || ((forall id :: !HasDiscogsId(voc, d, id)) && exists name :: HasText(voc, d, "name", name) && c.companyId == "name:" + voc.foldName(name)))
    && (HasText(voc, d, "name", c.name) || ((forall name :: !HasText(voc, d, "name", name)) && c.name == c.companyId))
    && (HasText(voc, d, "role_category", c.category) || ((forall text :: !HasText(voc, d, "role_category", text)) && c.category == "other"))
  }

  lemma TextRead(voc: Vocabulary, d: Document, key: string, text: string)
    ensures HasText(voc, d, key, text) <==> Text(voc, Field(d, key)) == Some(text)
  {
  }

  lemma TextsRead(voc: Vocabulary, d: Document, key: string)
    ensures forall text :: HasText(voc, d, key, text) <==> Text(voc, Field(d, key)) == Some(text)
    ensures (forall text :: !HasText(voc, d, key, text)) <==> Text(voc, Field(d, key)).None?
  {
    forall text ensures HasText(voc, d, key, text) <==> Text(voc, Field(d, key)) == Some(text) {
      TextRead(voc, d, key, text);
    }
    if Text(voc, Field(d, key)).Some? {
      assert HasText(voc, d, key, Text(voc, Field(d, key)).value);
    }
  }

  lemma DigitsRead(text: string)
    ensures Digits(text) <==> AllDigits(text)
    ensures (exists c :: c in text && c != '0') <==> exists i :: 0 <= i < |text| && text[i] != '0'
  {
    if i :| 0 <= i < |text| && text[i] != '0' {
      assert text[i] in text;
    }
    if AllDigits(text) {
      forall c | c in text ensures '0' <= c <= '9' {
        var i :| 0 <= i < |text| && text[i] == c;
      }
    }
    if Digits(text) {
      forall i | 0 <= i < |text| ensures '0' <= text[i] <= '9' {
        assert text[i] in text;
      }
    }
  }

  lemma DiscogsIdsRead(voc: Vocabulary, d: Document)
    ensures forall id :: HasDiscogsId(voc, d, id) <==> DiscogsId(voc, Field(d, "discogs_id")) == Some(id)
    ensures (forall id :: !HasDiscogsId(voc, d, id)) <==> DiscogsId(voc, Field(d, "discogs_id")).None?
  {
    forall id ensures HasDiscogsId(voc, d, id) <==> DiscogsId(voc, Field(d, "discogs_id")) == Some(id) {
      if Field(d, "discogs_id").JText? {
        DigitsRead(voc.strip(Field(d, "discogs_id").s));
      }
    }
    if DiscogsId(voc, Field(d, "discogs_id")).Some? {
      assert HasDiscogsId(voc, d, DiscogsId(voc, Field(d, "discogs_id")).value);
    }
  }

  /** The identity an entry is keyed on. */
  ghost predicate IsIdentity(voc: Vocabulary, d: Document, id: string) {
    || HasDiscogsId(voc, d, id)
    || ((forall other :: !HasDiscogsId(voc, d, other)) && exists name :: HasText(voc, d, "name", name) && id == "name:" + voc.foldName(name))
  }

  lemma IdentityRead(voc: Vocabulary, d: Document, id: string)
    ensures IsIdentity(voc, d, id) <==> CompanyIdentity(voc, d) == Some(id)
  {
    DiscogsIdsRead(voc, d);
    TextsRead(voc, d, "name");
    if Text(voc, Field(d, "name")).Some? {
      assert HasText(voc, d, "name", Text(voc, Field(d, "name")).value);
    }
  }

  lemma CompanyRead(voc: Vocabulary, d: Document, c: CompanyRow)
    ensures IsCompany(voc, d, c) <==> CompanyRowOf(voc, d) == Some(c)
  {
    IdentityRead(voc, d, c.companyId);
    TextsRead(voc, d, "role");
    TextsRead(voc, d, "name");
    TextsRead(voc, d, "role_category");
  }

  /** An entry stating a company in a role, whatever else it says. */
  ghost predicate States(voc: Vocabulary, item: Json, companyId: string, role: string) {
    item.JObject? && IsIdentity(voc, item.fields, companyId) && HasText(voc, item.fields, "role", role)
  }

  /** The k-th entry is this row, and no entry before it states the same company in the same role. */
  ghost predicate IsFirst(voc: Vocabulary, items: seq<Json>, k: nat, c: CompanyRow) {
    && k < |items| && items[k].JObject? && IsCompany(voc, items[k].fields, c)
    && forall l :: 0 <= l < k ==> !States(voc, items[l], c.companyId, c.role)
  }

  ghost predicate CreditsCompany(voc: Vocabulary, data: Document, c: CompanyRow) {
    && "companies" in data && data["companies"].JObject?
    && "items" in data["companies"].fields && data["companies"].fields["items"].JArray?
    && exists k: nat :: IsFirst(voc, data["companies"].fields["items"].items, k, c)
  }

  lemma StatesRead(voc: Vocabulary, d: Document, c: CompanyRow)
    ensures States(voc, JObject(d), c.companyId, c.role) <==> DerivationFacts.States(voc, d, c)
  {
    IdentityRead(voc, d, c.companyId);
    TextRead(voc, d, "role", c.role);
  }

  lemma FirstOfRest(voc: Vocabulary, items: seq<Json>, c: CompanyRow)
    requires items != []
    ensures (exists k: nat :: IsFirst(voc, items, k, c))
       <==> || (items[0].JObject? && IsCompany(voc, items[0].fields, c))
            || (!States(voc, items[0], c.companyId, c.role) && exists k: nat :: IsFirst(voc, items[1..], k, c))
  {
    if items[0].JObject? && IsCompany(voc, items[0].fields, c) {
      assert IsFirst(voc, items, 0, c);
    }
    if k: nat :| IsFirst(voc, items, k, c) && k > 0 {
      assert items[0] == items[..k][0] && items[1..][k - 1] == items[k];
      forall l | 0 <= l < k - 1 ensures !States(voc, items[1..][l], c.companyId, c.role) {
        assert items[1..][l] == items[l + 1];
      }
      assert IsFirst(voc, items[1..], k - 1, c);
    }
    if !States(voc, items[0], c.companyId, c.role) {
      if k: nat :| IsFirst(voc, items[1..], k, c) {
        assert items[k + 1] == items[1..][k];
        forall l | 0 <= l < k + 1 ensures !States(voc, items[l], c.companyId, c.role) {
          if l > 0 {
            assert items[l] == items[1..][l - 1];
          }
        }
        assert IsFirst(voc, items, k + 1, c);
      }
    }
  }

  lemma StatedFirstOfRest(voc: Vocabulary, items: seq<Document>, c: CompanyRow)
    requires items != []
    ensures (exists k: nat :: StatedFirstAt(voc, items, k, c))
       <==> || CompanyRowOf(voc, items[0]) == Some(c)
            || (!DerivationFacts.States(voc, items[0], c) && exists k: nat :: StatedFirstAt(voc, items[1..], k, c))
  {
    if CompanyRowOf(voc, items[0]) == Some(c) {
      assert StatedFirstAt(voc, items, 0, c);
    }
    if k: nat :| StatedFirstAt(voc, items, k, c) && k > 0 {
      forall l | 0 <= l < k - 1 ensures !DerivationFacts.States(voc, items[1..][l], c) {
        assert items[1..][l] == items[l + 1];
      }
      assert StatedFirstAt(voc, items[1..], k - 1, c);
    }
    if !DerivationFacts.States(voc, items[0], c) {
      if k: nat :| StatedFirstAt(voc, items[1..], k, c) {
        forall l | 0 <= l < k + 1 ensures !DerivationFacts.States(voc, items[l], c) {
          if l > 0 {
            assert items[l] == items[1..][l - 1];
          }
        }
        assert StatedFirstAt(voc, items, k + 1, c);
      }
    }
  }

  lemma {:induction false} FirstRead(voc: Vocabulary, items: seq<Json>, c: CompanyRow)
    ensures (exists k: nat :: IsFirst(voc, items, k, c)) <==> exists k: nat :: StatedFirstAt(voc, Objects(items), k, c)
  {
    if items != [] {
      FirstOfRest(voc, items, c);
      FirstRead(voc, items[1..], c);
      if items[0].JObject? {
        assert Objects(items) == [items[0].fields] + Objects(items[1..]);
        assert Objects(items)[1..] == Objects(items[1..]);
        StatedFirstOfRest(voc, Objects(items), c);
        StatesRead(voc, items[0].fields, c);
        CompanyRead(voc, items[0].fields, c);
      } else {
        assert Objects(items) == Objects(items[1..]);
      }
    }
  }

  lemma CreditsCompanyRead(voc: Vocabulary, data: Document, c: CompanyRow)
    ensures CreditsCompany(voc, data, c) <==> DerivationExact.CreditsCompany(voc, data, c)
  {
    if "companies" in data && data["companies"].JObject? {
      var block := data["companies"].fields;
      if "items" in block && block["items"].JArray? {
        FirstRead(voc, block["items"].items, c);
      }
    }
  }

  // ---- media ------------------------------------------------------------------------------

  /** The entries of the media block the runtime builds for a release. */
  ghost function Entries(voc: Vocabulary, data: Document): seq<Json> {
    var block := voc.mediaForRelease(data);
    if "items" in block && block["items"].JArray? then block["items"].items else []
  }

  /** An entry naming a medium and a family. */
  ghost predicate Names(item: Json, medium: string, family: string) {
    && item.JObject? && medium != "" && family != ""
    && "medium" in item.fields && item.fields["medium"] == JText(medium)
    && "family" in item.fields && item.fields["family"] == JText(family)
  }

  ghost predicate NamesMedium(item: Json, medium: string) {
    exists family :: Names(item, medium, family)
  }

  /** A stated whole quantity of at least one counts as stated; any other entry is one unit. */
  ghost function Units(item: Json): nat {
    if item.JObject? && "qty" in item.fields && item.fields["qty"].JInt? && item.fields["qty"].n >= 1 then item.fields["qty"].n else 1
  }

  ghost function UnitsOf(items: seq<Json>, medium: string): nat {
    if items == [] then 0 else (if NamesMedium(items[0], medium) then Units(items[0]) else 0) + UnitsOf(items[1..], medium)
  }

  /** The family of a medium is the one its first entry gives it. */
  ghost predicate HasFamily(items: seq<Json>, medium: string, family: string) {
    exists k :: 0 <= k < |items| && Names(items[k], medium, family) && forall l :: 0 <= l < k ==> !NamesMedium(items[l], medium)
  }

  lemma NamesMediumRead(d: Document, medium: string)
    ensures NamesMedium(JObject(d), medium) <==> DerivationExact.OfMedium(d, medium)
    ensures DerivationExact.OfMedium(d, medium) ==> Names(JObject(d), medium, d["family"].s)
  {
    if DerivationExact.OfMedium(d, medium) {
      assert Names(JObject(d), medium, d["family"].s);
    }
  }

  lemma {:induction false} UnitsRead(items: seq<Json>, medium: string)
    ensures UnitsOf(items, medium) == DerivationExact.UnitsOf(Objects(items), medium)
    ensures (exists item :: item in items && NamesMedium(item, medium)) <==> DerivationExact.Lists(Objects(items), medium)
  {
    if items != [] {
      UnitsRead(items[1..], medium);
      assert items == [items[0]] + items[1..];
      if items[0].JObject? {
        NamesMediumRead(items[0].fields, medium);
        assert Objects(items) == [items[0].fields] + Objects(items[1..]);
        assert Objects(items)[1..] == Objects(items[1..]);
      } else {
        assert Objects(items) == Objects(items[1..]);
      }
    }
  }

  lemma EntriesRead(voc: Vocabulary, data: Document)
    ensures DerivationExact.MediaItems(voc, data) == Objects(Entries(voc, data))
  {
  }

  // ---- edges ------------------------------------------------------------------------------

  /** What a document must say for a row to be derived, relation by relation. */
  ghost predicate Says(voc: Vocabulary, doc: DocId, data: Document, e: Edge) {
    match e
    case ByArtist(r, a) => doc == DocId(RELEASES, r) && Refers(voc, data, "artists", a)
    case OnLabel(r, l) => doc == DocId(RELEASES, r) && Refers(voc, data, "labels", l)
    case DerivedFrom(r, m) => doc == DocId(RELEASES, r) && HasId(voc, data, "master_id", m)
    case InGenre(r, t) => doc == DocId(RELEASES, r) && Tagged(data, "genres", t)
    case InStyle(r, t) => doc == DocId(RELEASES, r) && Tagged(data, "styles", t)
    case MasterByArtist(m, a) => doc == DocId(MASTERS, m) && Refers(voc, data, "artists", a)
    case MasterInGenre(m, t) => doc == DocId(MASTERS, m) && Tagged(data, "genres", t)
    case MasterInStyle(m, t) => doc == DocId(MASTERS, m) && Tagged(data, "styles", t)
    case MemberOf(m, g) =>
      || (doc == DocId(ARTISTS, g) && Refers(voc, data, "members", m))
      || (doc == DocId(ARTISTS, m) && Refers(voc, data, "groups", g))
    case AliasOf(a, i) => doc == DocId(ARTISTS, i) && Refers(voc, data, "aliases", a)
    case CreditedOn(p, r, role) =>
      doc == DocId(RELEASES, r) && exists artistId :: OnRelease(voc, data, Credit(p, role, artistId))
    case SameAs(p, a) =>
      doc.table == RELEASES
      && ((exists role :: OnRelease(voc, data, Credit(p, role, Some(a))))
          || (exists t, s, pos, role :: OnTrack(voc, data, t, s, pos, Credit(p, role, Some(a)))))
    case CreditedTo(r, c, role, category, source) =>
      doc == DocId(RELEASES, r) && source == "discogs" && exists name :: CreditsCompany(voc, data, CompanyRow(c, name, role, category))
    case IssuedOn(r, m, source, qty) =>
      && doc == DocId(RELEASES, r) && source == "discogs"
      && (exists item :: item in Entries(voc, data) && NamesMedium(item, m))
      && qty == UnitsOf(Entries(voc, data), m)
    case TrackCreditedOn(p, r, t, s, pos, role) =>
      doc == DocId(RELEASES, r) && exists artistId :: OnTrack(voc, data, t, s, pos, Credit(p, role, artistId))
    case TrackByArtist(r, t, s, pos, a) => doc == DocId(RELEASES, r) && PlayedBy(voc, data, t, s, pos, a)
  }

  lemma PersonsRead(voc: Vocabulary, doc: DocId, data: Document, e: Edge)
    requires e.CreditedOn? || e.SameAs? || e.TrackCreditedOn?
    ensures Says(voc, doc, data, e) <==> DerivationExact.Reads(voc, doc, data, e)
  {
    forall c ensures OnRelease(voc, data, c) <==> DerivationExact.CreditedOnRelease(voc, data, c) {
      OnReleaseRead(voc, data, c);
    }
    forall t, s, pos, c ensures OnTrack(voc, data, t, s, pos, c) <==> DerivationExact.CreditedOnTrack(voc, data, t, s, pos, c) {
      OnTrackRead(voc, data, t, s, pos, c);
    }
  }

  lemma CompaniesRead(voc: Vocabulary, doc: DocId, data: Document, e: Edge)
    requires e.CreditedTo?
    ensures Says(voc, doc, data, e) <==> DerivationExact.Reads(voc, doc, data, e)
  {
    forall c ensures CreditsCompany(voc, data, c) <==> DerivationExact.CreditsCompany(voc, data, c) {
      CreditsCompanyRead(voc, data, c);
    }
  }

  lemma ReferencesRead(voc: Vocabulary, doc: DocId, data: Document, e: Edge)
    requires !(e.CreditedOn? || e.SameAs? || e.TrackCreditedOn? || e.CreditedTo?)
    ensures Says(voc, doc, data, e) <==> DerivationExact.Reads(voc, doc, data, e)
  {
    match e
    case ByArtist(_, a) => RefersRead(voc, data, "artists", a);
    case OnLabel(_, l) => RefersRead(voc, data, "labels", l);
    case DerivedFrom(_, m) => IdRead(voc, data, "master_id", m);
    case InGenre(_, t) => TaggedRead(data, "genres", t);
    case InStyle(_, t) => TaggedRead(data, "styles", t);
    case MasterByArtist(_, a) => RefersRead(voc, data, "artists", a);
    case MasterInGenre(_, t) => TaggedRead(data, "genres", t);
    case MasterInStyle(_, t) => TaggedRead(data, "styles", t);
    case MemberOf(m, g) =>
      RefersRead(voc, data, "members", m);
      RefersRead(voc, data, "groups", g);
    case AliasOf(a, _) => RefersRead(voc, data, "aliases", a);
    case IssuedOn(_, m, _, _) =>
      EntriesRead(voc, data);
      UnitsRead(Entries(voc, data), m);
    case TrackByArtist(_, t, s, pos, a) => PlayedByRead(voc, data, t, s, pos, a);
  }

  /** For every document of every table and every row: it is derived iff the document says so. */
  lemma DerivationIsExact(voc: Vocabulary, doc: DocId, data: Document, e: Edge)
    ensures e in Derive(voc, doc, data).edges <==> Says(voc, doc, data, e)
  {
    DerivationExact.DerivationReads(voc, doc, data, e);
    if e.CreditedOn? || e.SameAs? || e.TrackCreditedOn? {
      PersonsRead(voc, doc, data, e);
    } else if e.CreditedTo? {
      CompaniesRead(voc, doc, data, e);
    } else {
      ReferencesRead(voc, doc, data, e);
    }
  }

  // ---- vertices ---------------------------------------------------------------------------

  /** What a document must say for a vertex row, non-key columns included. */
  ghost predicate SaysVertex(voc: Vocabulary, doc: DocId, data: Document, v: Vertex) {
    match v
    case Genre(n) => (doc.table == MASTERS || doc.table == RELEASES) && Tagged(data, "genres", n)
    case Style(n) => (doc.table == MASTERS || doc.table == RELEASES) && Tagged(data, "styles", n)
    case Person(n) =>
      doc.table == RELEASES
      && ((exists role, artistId :: OnRelease(voc, data, Credit(n, role, artistId)))
          || (exists t, s, pos, role, artistId :: OnTrack(voc, data, t, s, pos, Credit(n, role, artistId))))
    case MediaFamily(f) => doc.table == RELEASES && exists m :: HasFamily(Entries(voc, data), m, f)
    case Medium(m, f, caption) =>
      && doc.table == RELEASES && HasFamily(Entries(voc, data), m, f)
      && (voc.mediumLabel(m) == Some(caption) || (voc.mediumLabel(m).None? && caption == m))
    case Company(c, name, page) =>
      && doc.table == RELEASES && (exists role, category :: CreditsCompany(voc, data, CompanyRow(c, name, role, category)))
      && ((Digits(c) && page == Some(c)) || (!Digits(c) && page == None))
  }

  lemma TagVertices(data: Document, v: Vertex)
    ensures v in Map((n: string) => Genre(n), TagNames(Field(data, "genres"))) <==> v.Genre? && Tagged(data, "genres", v.name)
    ensures v in Map((n: string) => Style(n), TagNames(Field(data, "styles"))) <==> v.Style? && Tagged(data, "styles", v.name)
  {
    InMap((n: string) => Genre(n), TagNames(Field(data, "genres")), v);
    InMap((n: string) => Style(n), TagNames(Field(data, "styles")), v);
    if v.Genre? || v.Style? {
      DerivationExact.TagNamesExact(Field(data, "genres"), v.name);
      DerivationExact.TagNamesExact(Field(data, "styles"), v.name);
      TaggedRead(data, "genres", v.name);
      TaggedRead(data, "styles", v.name);
    }
  }

  function PersonVertices(voc: Vocabulary, data: Document): seq<Vertex> {
    Unique(Map((c: Credit) => Person(c.name), CreditsOf(voc, Elements(Field(data, "extraartists"))))
           + Map((p: Placed<Credit>) => Person(p.what.name), TrackCreditsOf(voc, Field(data, "tracklist"))))
  }

  lemma CreditedPersons(voc: Vocabulary, data: Document, v: Vertex)
    ensures v in Map((c: Credit) => Person(c.name), CreditsOf(voc, Elements(Field(data, "extraartists"))))
       <==> v.Person? && exists role, artistId :: OnRelease(voc, data, Credit(v.name, role, artistId))
  {
    var credits := CreditsOf(voc, Elements(Field(data, "extraartists")));
    InMap((c: Credit) => Person(c.name), credits, v);
    forall c ensures c in credits <==> OnRelease(voc, data, c) {
      OnReleaseRead(voc, data, c);
      DerivationExact.ReleaseCreditsExact(voc, data, c);
    }
    if c :| c in credits && Person(c.name) == v {
      assert OnRelease(voc, data, Credit(v.name, c.role, c.artistId));
    }
  }

  lemma TrackCreditedPersons(voc: Vocabulary, data: Document, v: Vertex)
    ensures v in Map((p: Placed<Credit>) => Person(p.what.name), TrackCreditsOf(voc, Field(data, "tracklist")))
       <==> v.Person? && exists t, s, pos, role, artistId :: OnTrack(voc, data, t, s, pos, Credit(v.name, role, artistId))
  {
    var credits := TrackCreditsOf(voc, Field(data, "tracklist"));
    InMap((p: Placed<Credit>) => Person(p.what.name), credits, v);
    forall p ensures p in credits <==> OnTrack(voc, data, p.track, p.subTrack, p.position, p.what) {
      OnTrackRead(voc, data, p.track, p.subTrack, p.position, p.what);
      DerivationExact.TrackCreditsExact(voc, data, p);
    }
    if p :| p in credits && Person(p.what.name) == v {
      assert OnTrack(voc, data, p.track, p.subTrack, p.position, Credit(v.name, p.what.role, p.what.artistId));
    }
    if v.Person? {
      if t, s, pos, role, artistId :| OnTrack(voc, data, t, s, pos, Credit(v.name, role, artistId)) {
        assert Placed(t, s, pos, Credit(v.name, role, artistId)) in credits;
      }
    }
  }

  lemma PersonsAreCredited(voc: Vocabulary, id: string, data: Document, v: Vertex)
    ensures v in PersonVertices(voc, data) <==> v.Person? && SaysVertex(voc, DocId(RELEASES, id), data, v)
  {
    UniqueMembers(Map((c: Credit) => Person(c.name), CreditsOf(voc, Elements(Field(data, "extraartists"))))
                  + Map((p: Placed<Credit>) => Person(p.what.name), TrackCreditsOf(voc, Field(data, "tracklist"))));
    CreditedPersons(voc, data, v);
    TrackCreditedPersons(voc, data, v);
  }

  lemma {:induction false} ObjectsAppend(items: seq<Json>, item: Json)
    ensures Objects(items + [item]) == Objects(items) + if item.JObject? then [item.fields] else []
  {
    var more := items + [item];
    if items == [] {
      assert more[1..] == [] && Objects(more[1..]) == [];
    } else {
      ObjectsAppend(items[1..], item);
      assert more[1..] == items[1..] + [item] && more[0] == items[0];
    }
  }

  lemma HasFamilyAppend(items: seq<Json>, item: Json, medium: string, family: string)
    ensures HasFamily(items + [item], medium, family)
       <==> || HasFamily(items, medium, family)
            || (Names(item, medium, family) && forall l :: 0 <= l < |items| ==> !NamesMedium(items[l], medium))
  {
    var more := items + [item];
    if k :| 0 <= k < |more| && Names(more[k], medium, family) && forall l :: 0 <= l < k ==> !NamesMedium(more[l], medium) {
      forall l | 0 <= l < k ensures !NamesMedium(items[l], medium) {
        assert more[l] == items[l];
      }
      if k < |items| {
        assert items[k] == more[k];
      }
    }
    if k :| 0 <= k < |items| && Names(items[k], medium, family) && forall l :: 0 <= l < k ==> !NamesMedium(items[l], medium) {
      assert Names(more[k], medium, family);
      forall l | 0 <= l < k ensures !NamesMedium(more[l], medium) {
        assert more[l] == items[l];
      }
    }
    if Names(item, medium, family) && forall l :: 0 <= l < |items| ==> !NamesMedium(items[l], medium) {
      assert more[|items|] == item;
      forall l | 0 <= l < |items| ensures !NamesMedium(more[l], medium) {
        assert more[l] == items[l];
      }
    }
  }

  lemma MediumsRead(items: seq<Json>, medium: string)
    ensures medium in Mediums(Objects(items)) <==> exists l :: 0 <= l < |items| && NamesMedium(items[l], medium)
  {
    UnitsRead(items, medium);
    DerivationExact.MediumsExact(Objects(items), medium);
    if item :| item in items && NamesMedium(item, medium) {
      var l :| 0 <= l < |items| && items[l] == item;
    }
  }

  lemma {:induction false} FamilyRead(items: seq<Json>, medium: string, family: string)
    ensures HasFamily(items, medium, family) <==> medium in Mediums(Objects(items)) && FamilyOf(Objects(items), medium) == family
  {
    if items != [] {
      var init, last := items[..|items| - 1], items[|items| - 1];
      assert items == init + [last];
      FamilyRead(init, medium, family);
      MediumsRead(init, medium);
      ObjectsAppend(init, last);
      HasFamilyAppend(init, last, medium, family);
      if last.JObject? {
        NamesMediumRead(last.fields, medium);
        assert Objects(items)[..|Objects(init)|] == Objects(init);
      } else {
        assert Objects(items) == Objects(init);
      }
    }
  }

  lemma RowOfMedium(voc: Vocabulary, data: Document, m: MediaRow)
    requires m in MediaOf(voc, data)
    ensures HasFamily(Entries(voc, data), m.medium, m.family) && m.caption == LabelOf(voc, m.medium)
  {
    var items := Objects(Entries(voc, data));
    EntriesRead(voc, data);
    UniqueMembers(Mediums(items));
    var i :| 0 <= i < |MediaOf(voc, data)| && MediaOf(voc, data)[i] == m;
    assert m.medium == Unique(Mediums(items))[i];
    assert m.medium in Unique(Mediums(items));
    FamilyRead(Entries(voc, data), m.medium, m.family);
  }

  lemma MediumHasRow(voc: Vocabulary, data: Document, medium: string, family: string)
    requires HasFamily(Entries(voc, data), medium, family)
    ensures exists m :: m in MediaOf(voc, data) && m.medium == medium && m.family == family && m.caption == LabelOf(voc, medium)
  {
    var items := Objects(Entries(voc, data));
    EntriesRead(voc, data);
    UniqueMembers(Mediums(items));
    FamilyRead(Entries(voc, data), medium, family);
    var i :| 0 <= i < |Unique(Mediums(items))| && Unique(Mediums(items))[i] == medium;
    assert MediaOf(voc, data)[i] in MediaOf(voc, data);
  }

  lemma MediaVertices(voc: Vocabulary, id: string, data: Document, v: Vertex)
    ensures v in Unique(Map((m: MediaRow) => MediaFamily(m.family), MediaOf(voc, data)))
       <==> v.MediaFamily? && SaysVertex(voc, DocId(RELEASES, id), data, v)
    ensures v in Map((m: MediaRow) => Medium(m.medium, m.family, m.caption), MediaOf(voc, data))
       <==> v.Medium? && SaysVertex(voc, DocId(RELEASES, id), data, v)
  {
    var media := MediaOf(voc, data);
    UniqueMembers(Map((m: MediaRow) => MediaFamily(m.family), media));
    InMap((m: MediaRow) => MediaFamily(m.family), media, v);
    InMap((m: MediaRow) => Medium(m.medium, m.family, m.caption), media, v);
    forall m | m in media ensures HasFamily(Entries(voc, data), m.medium, m.family) && m.caption == LabelOf(voc, m.medium) {
      RowOfMedium(voc, data, m);
    }
    if v.MediaFamily? {
      if m :| HasFamily(Entries(voc, data), m, v.name) {
        MediumHasRow(voc, data, m, v.name);
      }
    }
    if v.Medium? && HasFamily(Entries(voc, data), v.mediumId, v.family) {
      MediumHasRow(voc, data, v.mediumId, v.family);
    }
  }

  lemma CompanyVertices(voc: Vocabulary, id: string, data: Document, v: Vertex)
    ensures v in Map((c: CompanyRow) => Company(c.companyId, c.name, LabelPage(c.companyId)), CompaniesOf(voc, data))
       <==> v.Company? && SaysVertex(voc, DocId(RELEASES, id), data, v)
  {
    var companies := CompaniesOf(voc, data);
    var row := (c: CompanyRow) => Company(c.companyId, c.name, LabelPage(c.companyId));
    InMap(row, companies, v);
    forall c ensures c in companies <==> CreditsCompany(voc, data, c) {
      CreditsCompanyRead(voc, data, c);
      DerivationExact.CompaniesExact(voc, data, c);
    }
    if c :| c in companies && row(c) == v {
      DigitsRead(c.companyId);
      assert CreditsCompany(voc, data, CompanyRow(v.companyId, v.companyName, c.role, c.category));
    }
    if v.Company? {
      DigitsRead(v.companyId);
      if role, category :| CreditsCompany(voc, data, CompanyRow(v.companyId, v.companyName, role, category)) {
        assert CompanyRow(v.companyId, v.companyName, role, category) in companies;
      }
    }
  }

  lemma ReleaseVerticesAreExact(voc: Vocabulary, id: string, data: Document, v: Vertex)
    ensures v in ReleaseVertices(voc, data) <==> SaysVertex(voc, DocId(RELEASES, id), data, v)
  {
    var media := MediaOf(voc, data);
    InSixParts(Map((n: string) => Genre(n), TagNames(Field(data, "genres"))), Map((n: string) => Style(n), TagNames(Field(data, "styles"))),
               PersonVertices(voc, data), Unique(Map((m: MediaRow) => MediaFamily(m.family), media)),
               Map((m: MediaRow) => Medium(m.medium, m.family, m.caption), media),
               Map((c: CompanyRow) => Company(c.companyId, c.name, LabelPage(c.companyId)), CompaniesOf(voc, data)), v);
    TagVertices(data, v);
    PersonsAreCredited(voc, id, data, v);
    MediaVertices(voc, id, data, v);
    CompanyVertices(voc, id, data, v);
  }

  /** For every document and every vertex row, every column of it: it is derived iff the document says so. */
  lemma VerticesAreExact(voc: Vocabulary, doc: DocId, data: Document, v: Vertex)
    ensures v in Derive(voc, doc, data).vertices <==> SaysVertex(voc, doc, data, v)
  {
    match doc.table
    case MASTERS => TagVertices(data, v);
    case RELEASES => ReleaseVerticesAreExact(voc, doc.id, data, v);
    case _ =>
  }
}
