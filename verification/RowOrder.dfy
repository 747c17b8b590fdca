/** The one order every writer sorts a relation's rows in, and so takes their locks in. */
module RowOrder {
  import opened Wrappers
  import opened Versions
  import opened Rows

  /** A column value as it is compared: a NULL sorts after every value of its column. */
  datatype Cell = Text(s: string) | Number(n: int) | Null

  predicate CellLess(a: Cell, b: Cell) {
    match a
    case Text(s) => (match b case Text(t) => TextLess(s, t) case Number(_) => true case Null => true)
    case Number(m) => (match b case Text(_) => false case Number(n) => m < n case Null => true)
    case Null => false
  }

  predicate RowLess(a: seq<Cell>, b: seq<Cell>) {
    if b == [] then false
    else if a == [] then true
    else if a[0] != b[0] then CellLess(a[0], b[0])
    else RowLess(a[1..], b[1..])
  }

  function PositionCell(position: Option<string>): Cell {
    if position.Some? then Text(position.value) else Null
  }

  /** An edge row in its column order. */
  function Columns(e: Edge): seq<Cell> {
    match e
    case ByArtist(r, a) => [Text(r), Text(a)]
    case OnLabel(r, l) => [Text(r), Text(l)]
    case DerivedFrom(r, m) => [Text(r), Text(m)]
    case InGenre(r, t) => [Text(r), Text(t)]
    case InStyle(r, t) => [Text(r), Text(t)]
    case MasterByArtist(m, a) => [Text(m), Text(a)]
    case MasterInGenre(m, t) => [Text(m), Text(t)]
    case MasterInStyle(m, t) => [Text(m), Text(t)]
    case MemberOf(m, g) => [Text(m), Text(g)]
    case AliasOf(a, i) => [Text(a), Text(i)]
    case CreditedOn(p, r, role) => [Text(p), Text(r), Text(role)]
    case SameAs(p, a) => [Text(p), Text(a)]
    case CreditedTo(r, c, role, category, source) => [Text(r), Text(c), Text(role), Text(category), Text(source)]
    case IssuedOn(r, m, source, qty) => [Text(r), Text(m), Text(source), Number(qty)]
    case TrackCreditedOn(p, r, t, s, position, role) => [Text(p), Text(r), Number(t), Number(s), PositionCell(position), Text(role)]
    case TrackByArtist(r, t, s, position, a) => [Text(r), Number(t), Number(s), PositionCell(position), Text(a)]
  }

  predicate EdgeLess(a: Edge, b: Edge) {
    RowLess(Columns(a), Columns(b))
  }

  /** A vertex row's first column. */
  function KeyColumn(v: Vertex): string {
    match v
    case Genre(n) => n
    case Style(n) => n
    case Person(n) => n
    case MediaFamily(n) => n
    case Medium(id, _, _) => id
    case Company(id, _, _) => id
  }

  predicate VertexLess(a: Vertex, b: Vertex) {
    TextLess(KeyColumn(a), KeyColumn(b))
  }

  lemma {:induction false} TextOrder(a: string, b: string, c: string)
    ensures !TextLess(a, a)
    ensures TextLess(a, b) ==> !TextLess(b, a)
    ensures TextLess(a, b) || TextLess(b, a) || a == b
    ensures TextLess(a, b) && TextLess(b, c) ==> TextLess(a, c)
    decreases |a| + |b| + |c|
  {
    if a != [] && b != [] && a[0] == b[0] {
      TextOrder(a[1..], b[1..], if c != [] && c[0] == a[0] then c[1..] else []);
      assert a == [a[0]] + a[1..] && b == [b[0]] + b[1..];
    } else if a != [] {
      TextOrder(a[1..], [], []);
    }
  }

  lemma CellOrder(a: Cell, b: Cell, c: Cell)
    ensures !CellLess(a, a)
    ensures CellLess(a, b) ==> !CellLess(b, a)
    ensures CellLess(a, b) || CellLess(b, a) || a == b
    ensures CellLess(a, b) && CellLess(b, c) ==> CellLess(a, c)
  {
    if a.Text? {
      var s := a.s;
      TextOrder(s, if b.Text? then b.s else "", if c.Text? then c.s else "");
    }
  }

  /** Row order is a strict total order on column lists. */
  lemma {:induction false} RowOrderIsTotal(a: seq<Cell>, b: seq<Cell>, c: seq<Cell>)
    ensures !RowLess(a, a)
    ensures RowLess(a, b) ==> !RowLess(b, a)
    ensures RowLess(a, b) || RowLess(b, a) || a == b
    ensures RowLess(a, b) && RowLess(b, c) ==> RowLess(a, c)
    decreases |a| + |b| + |c|
  {
    if a != [] && b != [] && a[0] == b[0] {
      RowOrderIsTotal(a[1..], b[1..], if c != [] && c[0] == a[0] then c[1..] else []);
      assert a == [a[0]] + a[1..] && b == [b[0]] + b[1..];
      if c != [] {
        CellOrder(a[0], b[0], c[0]);
      }
    } else if a != [] {
      RowOrderIsTotal(a[1..], [], []);
      if b != [] {
        CellOrder(a[0], b[0], if c != [] then c[0] else Null);
      }
    }
  }

  /** The first column two rows differ in decides: text by text, number by number, and a NULL comes after every value. */
  lemma {:induction false} FirstDifferenceDecides(a: seq<Cell>, b: seq<Cell>, i: nat)
    requires i < |a| && i < |b| && a[..i] == b[..i] && a[i] != b[i]
    ensures b[i] == Null ==> RowLess(a, b) && !RowLess(b, a)
    ensures a[i].Number? && b[i].Number? ==> (RowLess(a, b) <==> a[i].n < b[i].n)
    ensures a[i].Text? && b[i].Text? ==> (RowLess(a, b) <==> TextLess(a[i].s, b[i].s))
  {
    if i > 0 {
      assert a[0] == a[..i][0] == b[..i][0] == b[0];
      assert a[1..][..i - 1] == a[..i][1..] == b[..i][1..] == b[1..][..i - 1];
      FirstDifferenceDecides(a[1..], b[1..], i - 1);
    }
  }

  /** Texts go by their first differing character, and a proper prefix comes first. */
  lemma {:induction false} FirstCharacterDecides(s: string, t: string, i: nat)
    requires i <= |s| && i <= |t| && s[..i] == t[..i]
    ensures i == |s| && i < |t| ==> TextLess(s, t) && !TextLess(t, s)
    ensures i < |s| && i < |t| && s[i] != t[i] ==> (TextLess(s, t) <==> s[i] < t[i])
  {
    if i > 0 {
      assert s[0] == s[..i][0] == t[..i][0] == t[0];
      assert s[1..][..i - 1] == s[..i][1..] == t[..i][1..] == t[1..][..i - 1];
      FirstCharacterDecides(s[1..], t[1..], i - 1);
    }
  }

  lemma ColumnsTellRowsApart(a: Edge, b: Edge)
    requires RelationOf(a) == RelationOf(b) && Columns(a) == Columns(b)
    ensures a == b
  {
    var m, n := Columns(a), Columns(b);
    assert m[0] == n[0] && m[1] == n[1];
    assert |m| > 2 ==> m[2] == n[2];
    assert |m| > 3 ==> m[3] == n[3];
    assert |m| > 4 ==> m[4] == n[4];
    assert |m| > 5 ==> m[5] == n[5];
  }
}
