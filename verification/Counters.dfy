/** The counter relations the refresh refills: first years in one grouped pass, and degrees. */
module Counters {
  import opened Wrappers
  import opened Rows
  import opened Derivation

  // ---- first years ------------------------------------------------------------------------

  /** One tag edge joined to its release: the tag, and the release's year as text if it has one. */
  datatype Tagged = Tagged(tag: string, year: Option<string>)

  const INTEGER_MAX: nat := 2147483647

  datatype Year = NoYear | Year(n: nat) | OutOfRange

  function NumberIn(digits: string): nat
    requires forall i :: 0 <= i < |digits| ==> '0' <= digits[i] <= '9'
  {
    if digits == "" then 0 else 10 * NumberIn(digits[..|digits| - 1]) + (digits[|digits| - 1] as int - '0' as int)
  }

  /** Only digits, above zero, and a value the integer cast accepts. */
  function YearOf(trim: string -> string, row: Tagged): Year {
    if row.year.None? || !AllDigits(trim(row.year.value)) then NoYear
    else
      var n := NumberIn(trim(row.year.value));
      if n == 0 then NoYear else if n > INTEGER_MAX then OutOfRange else Year(n)
  }

  /** The positional value of a digit string, most significant digit first. */
  ghost function Decimal(digits: string): int {
    if digits == "" then 0 else (digits[0] as int - '0' as int) * TenTo(|digits| - 1) + Decimal(digits[1..])
  }

  ghost function TenTo(n: nat): nat {
    if n == 0 then 1 else 10 * TenTo(n - 1)
  }

  lemma {:induction false} DecimalAppend(digits: string, last: char)
    ensures Decimal(digits + [last]) == 10 * Decimal(digits) + (last as int - '0' as int)
  {
    if digits == "" {
      assert digits + [last] == [last] && [last][1..] == "";
      assert Decimal([last]) == (last as int - '0' as int) * TenTo(0) + Decimal("");
    } else {
      DecimalAppend(digits[1..], last);
      assert (digits + [last])[1..] == digits[1..] + [last];
      ShiftedDigit(digits[0] as int - '0' as int, |digits| - 1);
    }
  }

  lemma ShiftedDigit(digit: int, n: nat)
    ensures digit * TenTo(n + 1) == 10 * (digit * TenTo(n))
  {
  }

  lemma {:induction false} NumberIsDecimal(digits: string)
    requires forall i :: 0 <= i < |digits| ==> '0' <= digits[i] <= '9'
    ensures NumberIn(digits) == Decimal(digits)
  {
    if digits != "" {
      var init, last := digits[..|digits| - 1], digits[|digits| - 1];
      assert digits == init + [last];
      NumberIsDecimal(init);
      DecimalAppend(init, last);
    }
  }

  /** A row has a year iff its trimmed text is digits only with a value from 1 to the largest integer; past that it overflows. */
  lemma YearsByDigits(trim: string -> string, row: Tagged, text: string)
    requires row.year.Some? ==> text == trim(row.year.value)
    ensures forall n :: YearOf(trim, row) == Year(n) <==>
              row.year.Some? && text != "" && (forall i :: 0 <= i < |text| ==> '0' <= text[i] <= '9')
              && n == Decimal(text) && 1 <= n <= 2147483647
    ensures YearOf(trim, row) == OutOfRange <==>
              row.year.Some? && text != "" && (forall i :: 0 <= i < |text| ==> '0' <= text[i] <= '9') && Decimal(text) > 2147483647
  {
    if row.year.Some? && AllDigits(text) {
      NumberIsDecimal(text);
    }
  }

  predicate Overflows(trim: string -> string, rows: seq<Tagged>) {
    exists i :: 0 <= i < |rows| && YearOf(trim, rows[i]).OutOfRange?
  }

  /** The grouped pass: every row once, the least year of each tag so far. */
  function Grouped(trim: string -> string, rows: seq<Tagged>): map<string, nat> {
    if rows == [] then map[]
    else
      var least, last := Grouped(trim, rows[..|rows| - 1]), rows[|rows| - 1];
      match YearOf(trim, last)
      case Year(n) => if last.tag in least && least[last.tag] <= n then least else least[last.tag := n]
      case _ => least
  }

  /** The rows of one tag. */
  function OfTag(rows: seq<Tagged>, tag: string): seq<Tagged> {
    if rows == [] then []
    else OfTag(rows[..|rows| - 1], tag) + if rows[|rows| - 1].tag == tag then [rows[|rows| - 1]] else []
  }

  predicate IsYear(trim: string -> string, rows: seq<Tagged>, n: nat) {
    exists i :: 0 <= i < |rows| && YearOf(trim, rows[i]) == Year(n)
  }

  /** The least year among some rows, if any row has one. */
  ghost predicate IsFirstYear(trim: string -> string, rows: seq<Tagged>, first: Option<nat>) {
    match first
    case Some(n) => IsYear(trim, rows, n) && forall m :: IsYear(trim, rows, m) ==> n <= m
    case None => forall m :: !IsYear(trim, rows, m)
  }

  /** The correlated subquery: a minimum over the one tag's rows, taken per tag. */
  function FirstYear(trim: string -> string, rows: seq<Tagged>): Option<nat> {
    if rows == [] then None
    else
      var before := FirstYear(trim, rows[..|rows| - 1]);
      match YearOf(trim, rows[|rows| - 1])
      case Year(n) => if before.Some? && before.value <= n then before else Some(n)
      case _ => before
  }

  lemma IsYearAppend(trim: string -> string, init: seq<Tagged>, last: Tagged, m: nat)
    ensures IsYear(trim, init + [last], m) <==> IsYear(trim, init, m) || YearOf(trim, last) == Year(m)
  {
    var rows := init + [last];
    if IsYear(trim, init, m) {
      var i :| 0 <= i < |init| && YearOf(trim, init[i]) == Year(m);
      assert rows[i] == init[i];
    }
    if YearOf(trim, last) == Year(m) {
      assert rows[|init|] == last;
    }
  }

  /** The subquery really is the minimum. */
  lemma {:induction false} FirstYearIsTheLeast(trim: string -> string, rows: seq<Tagged>)
    ensures IsFirstYear(trim, rows, FirstYear(trim, rows))
  {
    if rows != [] {
      var init, last := rows[..|rows| - 1], rows[|rows| - 1];
      assert rows == init + [last];
      FirstYearIsTheLeast(trim, init);
      forall m ensures IsYear(trim, rows, m) <==> IsYear(trim, init, m) || YearOf(trim, last) == Year(m) {
        IsYearAppend(trim, init, last, m);
      }
    }
  }

  /** What the grouped pass holds for a tag is what the subquery answers for it. */
  lemma {:induction false} GroupOfTag(trim: string -> string, rows: seq<Tagged>, tag: string)
    ensures (if tag in Grouped(trim, rows) then Some(Grouped(trim, rows)[tag]) else None) == FirstYear(trim, OfTag(rows, tag))
  {
    if rows != [] {
      var init, last := rows[..|rows| - 1], rows[|rows| - 1];
      GroupOfTag(trim, init, tag);
      if last.tag == tag {
        assert OfTag(rows, tag) == OfTag(init, tag) + [last];
        assert (OfTag(init, tag) + [last])[..|OfTag(init, tag)|] == OfTag(init, tag);
      } else {
        assert OfTag(rows, tag) == OfTag(init, tag);
      }
    }
  }

  /** A year no integer holds aborts the query that casts it. */
  datatype CastError = IntegerOutOfRange

  function GroupedBody(trim: string -> string, names: seq<string>, rows: seq<Tagged>): Result<seq<(string, Option<nat>)>, CastError> {
    if Overflows(trim, rows) then Err(IntegerOutOfRange)
    else
      var least := Grouped(trim, rows);
      Ok(seq(|names|, i requires 0 <= i < |names| => (names[i], if names[i] in least then Some(least[names[i]]) else None)))
  }

  function CorrelatedBody(trim: string -> string, names: seq<string>, rows: seq<Tagged>): Result<seq<(string, Option<nat>)>, CastError> {
    if exists i :: 0 <= i < |names| && Overflows(trim, OfTag(rows, names[i])) then Err(IntegerOutOfRange)
    else Ok(seq(|names|, i requires 0 <= i < |names| => (names[i], FirstYear(trim, OfTag(rows, names[i])))))
  }

  lemma {:induction false} OfTagHas(rows: seq<Tagged>, tag: string, row: Tagged)
    ensures row in OfTag(rows, tag) <==> row in rows && row.tag == tag
  {
    if rows != [] {
      assert rows == rows[..|rows| - 1] + [rows[|rows| - 1]];
      OfTagHas(rows[..|rows| - 1], tag, row);
    }
  }

  /** Some tag vertex has a release whose year does not fit. */
  predicate NamedOverflow(trim: string -> string, names: seq<string>, rows: seq<Tagged>) {
    exists i :: 0 <= i < |rows| && YearOf(trim, rows[i]).OutOfRange? && rows[i].tag in names
  }

  lemma CorrelatedAbortsOnNamed(trim: string -> string, names: seq<string>, rows: seq<Tagged>)
    ensures CorrelatedBody(trim, names, rows).Err? <==> NamedOverflow(trim, names, rows)
  {
    if i :| 0 <= i < |names| && Overflows(trim, OfTag(rows, names[i])) {
      var k :| 0 <= k < |OfTag(rows, names[i])| && YearOf(trim, OfTag(rows, names[i])[k]).OutOfRange?;
      OfTagHas(rows, names[i], OfTag(rows, names[i])[k]);
      var j :| 0 <= j < |rows| && rows[j] == OfTag(rows, names[i])[k];
      assert YearOf(trim, rows[j]).OutOfRange? && rows[j].tag in names;
    }
    if j :| 0 <= j < |rows| && YearOf(trim, rows[j]).OutOfRange? && rows[j].tag in names {
      var i :| 0 <= i < |names| && names[i] == rows[j].tag;
      OfTagHas(rows, names[i], rows[j]);
      var k :| 0 <= k < |OfTag(rows, names[i])| && OfTag(rows, names[i])[k] == rows[j];
      assert Overflows(trim, OfTag(rows, names[i]));
    }
  }

  /**
    The one-pass body returns the rows of the per-tag body for every vertex table and edge set,
    except that it also casts the years of tags that have no vertex: they differ exactly when the
    only years out of range are of those.
   */
  lemma GroupedIsCorrelated(trim: string -> string, names: seq<string>, rows: seq<Tagged>)
    ensures GroupedBody(trim, names, rows) == CorrelatedBody(trim, names, rows)
       <==> (Overflows(trim, rows) ==> NamedOverflow(trim, names, rows))
  {
    CorrelatedAbortsOnNamed(trim, names, rows);
    if !Overflows(trim, rows) {
      forall i | 0 <= i < |names|
        ensures (if names[i] in Grouped(trim, rows) then Some(Grouped(trim, rows)[names[i]]) else None) == FirstYear(trim, OfTag(rows, names[i]))
      {
        GroupOfTag(trim, rows, names[i]);
      }
      assert CorrelatedBody(trim, names, rows).Ok? by {
        assert !NamedOverflow(trim, names, rows);
      }
      assert GroupedBody(trim, names, rows).value == CorrelatedBody(trim, names, rows).value;
    }
  }

  // ---- degrees ----------------------------------------------------------------------------

  /** The artist columns the degree body unites, row by row. */
  function ArtistEndpoints(e: Edge): seq<string> {
    match e
    case ByArtist(_, a) => [a]
    case MasterByArtist(_, a) => [a]
    case SameAs(_, a) => [a]
    case MemberOf(m, g) => [m, g]
    case AliasOf(a, i) => [a, i]
    case _ => []
  }

  function ReleaseEndpoints(e: Edge): seq<string> {
    match e
    case ByArtist(r, _) => [r]
    case OnLabel(r, _) => [r]
    case InGenre(r, _) => [r]
    case InStyle(r, _) => [r]
    case DerivedFrom(r, _) => [r]
    case CreditedOn(_, r, _) => [r]
    case CreditedTo(r, _, _, _, _) => [r]
    case IssuedOn(r, _, _, _) => [r]
    case _ => []
  }

  /** All endpoints of some rows, repeats kept. */
  function United(endpoints: Edge -> seq<string>, rows: seq<Edge>): seq<string> {
    if rows == [] then [] else United(endpoints, rows[..|rows| - 1]) + endpoints(rows[|rows| - 1])
  }

  /** Grouping with a count, as the query's aggregate does it. */
  function CountBy(ids: seq<string>): map<string, nat> {
    if ids == [] then map[]
    else
      var before, last := CountBy(ids[..|ids| - 1]), ids[|ids| - 1];
      before[last := (if last in before then before[last] else 0) + 1]
  }

  lemma {:induction false} CountsAreOccurrences(ids: seq<string>, id: string)
    ensures id in CountBy(ids) <==> id in ids
    ensures id in CountBy(ids) ==> CountBy(ids)[id] == multiset(ids)[id]
  {
    if ids != [] {
      assert ids == ids[..|ids| - 1] + [ids[|ids| - 1]];
      CountsAreOccurrences(ids[..|ids| - 1], id);
    }
  }

  ghost function SumOf(counts: map<string, nat>, keys: set<string>): nat
    requires keys <= counts.Keys
  {
    if keys == {} then 0
    else
      var k :| k in keys;
      counts[k] + SumOf(counts, keys - {k})
  }

  lemma {:induction false} SumPicks(counts: map<string, nat>, keys: set<string>, k: string)
    requires keys <= counts.Keys && k in keys
    ensures SumOf(counts, keys) == counts[k] + SumOf(counts, keys - {k})
    decreases |keys|
  {
    var first :| first in keys && SumOf(counts, keys) == counts[first] + SumOf(counts, keys - {first});
    if first != k {
      SumPicks(counts, keys - {first}, k);
      SumPicks(counts, keys - {k}, first);
      assert keys - {first} - {k} == keys - {k} - {first};
    }
  }

  lemma {:induction false} SumAgrees(a: map<string, nat>, b: map<string, nat>, keys: set<string>)
    requires keys <= a.Keys && keys <= b.Keys && forall k :: k in keys ==> a[k] == b[k]
    ensures SumOf(a, keys) == SumOf(b, keys)
    decreases |keys|
  {
    if keys != {} {
      var k :| k in keys;
      SumPicks(a, keys, k);
      SumPicks(b, keys, k);
      SumAgrees(a, b, keys - {k});
    }
  }

  lemma {:induction false} CountsSumUp(ids: seq<string>)
    ensures SumOf(CountBy(ids), CountBy(ids).Keys) == |ids|
  {
    if ids != [] {
      var init, last := ids[..|ids| - 1], ids[|ids| - 1];
      CountsSumUp(init);
      var before, after := CountBy(init), CountBy(ids);
      assert after.Keys - {last} == before.Keys - {last};
      SumPicks(after, after.Keys, last);
      SumAgrees(before, after, before.Keys - {last});
      if last in before {
        SumPicks(before, before.Keys, last);
      } else {
        assert before.Keys - {last} == before.Keys;
      }
    }
  }

  function RowsOfRelations(rows: seq<Edge>, relations: set<EdgeRelation>): nat {
    if rows == [] then 0
    else RowsOfRelations(rows[..|rows| - 1], relations) + if RelationOf(rows[|rows| - 1]) in relations then 1 else 0
  }

  const ONE_ARTIST: set<EdgeRelation> := {BY_ARTIST, MASTER_BY_ARTIST, SAME_AS}
  const TWO_ARTISTS: set<EdgeRelation> := {MEMBER_OF, ALIAS_OF}
  const OF_RELEASES: set<EdgeRelation> := {BY_ARTIST, ON_LABEL, IN_GENRE, IN_STYLE, DERIVED_FROM, CREDITED_ON, CREDITED_TO, ISSUED_ON}

  lemma {:induction false} ArtistEndpointsCount(rows: seq<Edge>)
    ensures |United(ArtistEndpoints, rows)| == RowsOfRelations(rows, ONE_ARTIST) + 2 * RowsOfRelations(rows, TWO_ARTISTS)
  {
    if rows != [] {
      ArtistEndpointsCount(rows[..|rows| - 1]);
    }
  }

  lemma {:induction false} ReleaseEndpointsCount(rows: seq<Edge>)
    ensures |United(ReleaseEndpoints, rows)| == RowsOfRelations(rows, OF_RELEASES)
  {
    if rows != [] {
      ReleaseEndpointsCount(rows[..|rows| - 1]);
    }
  }

  /** How often a row names an artist: once for a credit or an identity, at either end of a membership or an alias. */
  ghost function NamesArtist(e: Edge, id: string): nat {
    (if (e.ByArtist? || e.MasterByArtist? || e.SameAs?) && e.artistId == id then 1 else 0)
    + (if e.MemberOf? && e.memberId == id then 1 else 0)
    + (if e.MemberOf? && e.groupId == id then 1 else 0)
    + (if e.AliasOf? && e.aliasId == id then 1 else 0)
    + (if e.AliasOf? && e.artistId == id then 1 else 0)
  }

  /** Once per row of the release's eight relations; track rows and masters do not count. */
  ghost function NamesRelease(e: Edge, id: string): nat {
    if e.ByArtist? && e.releaseId == id then 1
    else if e.OnLabel? && e.releaseId == id then 1
    else if e.InGenre? && e.releaseId == id then 1
    else if e.InStyle? && e.releaseId == id then 1
    else if e.DerivedFrom? && e.releaseId == id then 1
    else if e.CreditedOn? && e.releaseId == id then 1
    else if e.CreditedTo? && e.releaseId == id then 1
    else if e.IssuedOn? && e.releaseId == id then 1
    else 0
  }

  ghost function TimesNamed(names: (Edge, string) -> nat, rows: seq<Edge>, id: string): nat {
    if rows == [] then 0 else names(rows[0], id) + TimesNamed(names, rows[1..], id)
  }

  lemma {:induction false} TimesNamedAppend(names: (Edge, string) -> nat, rows: seq<Edge>, last: Edge, id: string)
    ensures TimesNamed(names, rows + [last], id) == TimesNamed(names, rows, id) + names(last, id)
  {
    if rows == [] {
      assert [last][1..] == [];
    } else {
      TimesNamedAppend(names, rows[1..], last, id);
      assert (rows + [last])[1..] == rows[1..] + [last];
    }
  }

  lemma {:induction false} EndpointsAreNames(endpoints: Edge -> seq<string>, names: (Edge, string) -> nat, rows: seq<Edge>, id: string)
    requires forall e :: multiset(endpoints(e))[id] == names(e, id)
    ensures multiset(United(endpoints, rows))[id] == TimesNamed(names, rows, id)
  {
    if rows != [] {
      var init, last := rows[..|rows| - 1], rows[|rows| - 1];
      assert rows == init + [last];
      EndpointsAreNames(endpoints, names, init, id);
      TimesNamedAppend(names, init, last, id);
    }
  }

  lemma DegreesAreNames(endpoints: Edge -> seq<string>, names: (Edge, string) -> nat, rows: seq<Edge>, id: string)
    requires forall e :: multiset(endpoints(e))[id] == names(e, id)
    ensures id in CountBy(United(endpoints, rows)) <==> TimesNamed(names, rows, id) > 0
    ensures id in CountBy(United(endpoints, rows)) ==> CountBy(United(endpoints, rows))[id] == TimesNamed(names, rows, id)
  {
    EndpointsAreNames(endpoints, names, rows, id);
    CountsAreOccurrences(United(endpoints, rows), id);
  }

  lemma ArtistEnds(e: Edge, id: string)
    ensures multiset(ArtistEndpoints(e))[id] == NamesArtist(e, id)
  {
  }

  lemma ReleaseEnds(e: Edge, id: string)
    ensures multiset(ReleaseEndpoints(e))[id] == NamesRelease(e, id)
  {
  }

  /** A degree is how often the rows name an id, and only named ids have one. */
  ghost predicate CountsNames(degrees: map<string, nat>, names: (Edge, string) -> nat, rows: seq<Edge>, id: string) {
    (id in degrees <==> TimesNamed(names, rows, id) > 0) && (id in degrees ==> degrees[id] == TimesNamed(names, rows, id))
  }

  lemma ArtistDegree(rows: seq<Edge>, id: string)
    ensures CountsNames(CountBy(United(ArtistEndpoints, rows)), NamesArtist, rows, id)
  {
    forall e ensures multiset(ArtistEndpoints(e))[id] == NamesArtist(e, id) {
      ArtistEnds(e, id);
    }
    DegreesAreNames(ArtistEndpoints, NamesArtist, rows, id);
  }

  lemma ReleaseDegree(rows: seq<Edge>, id: string)
    ensures CountsNames(CountBy(United(ReleaseEndpoints, rows)), NamesRelease, rows, id)
  {
    forall e ensures multiset(ReleaseEndpoints(e))[id] == NamesRelease(e, id) {
      ReleaseEnds(e, id);
    }
    DegreesAreNames(ReleaseEndpoints, NamesRelease, rows, id);
  }

  /** An artist's degree is how often the rows name it, and the degrees sum to the edge ends. */
  lemma ArtistDegreesHandshake(rows: seq<Edge>)
    ensures var degrees := CountBy(United(ArtistEndpoints, rows));
            && (forall id :: CountsNames(degrees, NamesArtist, rows, id))
            && SumOf(degrees, degrees.Keys) == RowsOfRelations(rows, ONE_ARTIST) + 2 * RowsOfRelations(rows, TWO_ARTISTS)
  {
    forall id ensures CountsNames(CountBy(United(ArtistEndpoints, rows)), NamesArtist, rows, id) {
      ArtistDegree(rows, id);
    }
    CountsSumUp(United(ArtistEndpoints, rows));
    ArtistEndpointsCount(rows);
  }

  lemma ReleaseDegreesHandshake(rows: seq<Edge>)
    ensures var degrees := CountBy(United(ReleaseEndpoints, rows));
            && (forall id :: CountsNames(degrees, NamesRelease, rows, id))
            && SumOf(degrees, degrees.Keys) == RowsOfRelations(rows, OF_RELEASES)
  {
    forall id ensures CountsNames(CountBy(United(ReleaseEndpoints, rows)), NamesRelease, rows, id) {
      ReleaseDegree(rows, id);
    }
    CountsSumUp(United(ReleaseEndpoints, rows));
    ReleaseEndpointsCount(rows);
  }
}
