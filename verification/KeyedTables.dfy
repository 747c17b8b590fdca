/**
  Tables with a primary key, filled by `INSERT … ON CONFLICT DO NOTHING`: the first row offered
  for a key stays. A table maps each key to its row; a key is a row with its other columns blanked.
 */
module KeyedTables {
  import opened Wrappers

  function InsertOne<R(==)>(table: map<R, R>, row: R, key: R -> R): map<R, R> {
    if key(row) in table then table else table[key(row) := row]
  }

  function InsertAll<R(==)>(table: map<R, R>, rows: seq<R>, key: R -> R): map<R, R>
    decreases |rows|
  {
    if rows == [] then table else InsertAll(InsertOne(table, rows[0], key), rows[1..], key)
  }

  /** The first of the rows with a key. */
  ghost function FirstWith<R>(rows: seq<R>, key: R -> R, k: R): Option<R> {
    if rows == [] then None
    else if key(rows[0]) == k then Some(rows[0])
    else FirstWith(rows[1..], key, k)
  }

  lemma {:induction false} FirstWithIsARow<R>(rows: seq<R>, key: R -> R, k: R)
    ensures FirstWith(rows, key, k).Some? ==> FirstWith(rows, key, k).value in rows && key(FirstWith(rows, key, k).value) == k
    ensures FirstWith(rows, key, k).None? ==> forall r :: r in rows ==> key(r) != k
  {
    if rows != [] {
      FirstWithIsARow(rows[1..], key, k);
    }
  }

  /** What an insert leaves under a key: the row already there, else the first one offered. */
  lemma {:induction false} InsertAllAt<R>(table: map<R, R>, rows: seq<R>, key: R -> R, k: R)
    ensures k in InsertAll(table, rows, key) <==> k in table || FirstWith(rows, key, k).Some?
    ensures k in InsertAll(table, rows, key) ==>
              InsertAll(table, rows, key)[k] == if k in table then table[k] else FirstWith(rows, key, k).value
    decreases |rows|
  {
    if rows != [] {
      InsertAllAt(InsertOne(table, rows[0], key), rows[1..], key, k);
    }
  }

  lemma {:induction false} FirstWithConcat<R>(a: seq<R>, b: seq<R>, key: R -> R, k: R)
    ensures FirstWith(a + b, key, k) == if FirstWith(a, key, k).Some? then FirstWith(a, key, k) else FirstWith(b, key, k)
  {
    if a == [] {
      assert a + b == b;
    } else {
      assert (a + b)[1..] == a[1..] + b;
      FirstWithConcat(a[1..], b, key, k);
    }
  }

  lemma {:induction false} InsertAllConcat<R>(table: map<R, R>, a: seq<R>, b: seq<R>, key: R -> R)
    ensures InsertAll(table, a + b, key) == InsertAll(InsertAll(table, a, key), b, key)
    decreases |a|
  {
    if a == [] {
      assert a + b == b;
    } else {
      assert (a + b)[1..] == a[1..] + b;
      InsertAllConcat(InsertOne(table, a[0], key), a[1..], b, key);
    }
  }

  /** Two offers with the same first row under every key leave the same table. */
  lemma SameFirstsSameTable<R(!new)>(table: map<R, R>, a: seq<R>, b: seq<R>, key: R -> R)
    requires forall k :: FirstWith(a, key, k) == FirstWith(b, key, k)
    ensures InsertAll(table, a, key) == InsertAll(table, b, key)
  {
    forall k ensures k in InsertAll(table, a, key) <==> k in InsertAll(table, b, key) {
      InsertAllAt(table, a, key, k);
      InsertAllAt(table, b, key, k);
    }
    forall k | k in InsertAll(table, a, key) ensures InsertAll(table, a, key)[k] == InsertAll(table, b, key)[k] {
      InsertAllAt(table, a, key, k);
      InsertAllAt(table, b, key, k);
    }
  }

  // ---- keeping a subsequence --------------------------------------------------------------

  function Select<R>(rows: seq<R>, chosen: R -> bool): seq<R> {
    if rows == [] then []
    else (if chosen(rows[0]) then [rows[0]] else []) + Select(rows[1..], chosen)
  }

  lemma {:induction false} SelectMembers<R>(rows: seq<R>, chosen: R -> bool)
    ensures forall r :: r in Select(rows, chosen) <==> r in rows && chosen(r)
  {
    if rows != [] {
      SelectMembers(rows[1..], chosen);
    }
  }

  /** Choosing by something the key decides keeps the first row of every chosen key. */
  lemma {:induction false} FirstWithSelect<R>(rows: seq<R>, chosen: R -> bool, key: R -> R, k: R)
    requires forall r :: r in rows && key(r) == k ==> (chosen(r) <==> chosen(k))
    ensures FirstWith(Select(rows, chosen), key, k) == if chosen(k) then FirstWith(rows, key, k) else None
  {
    if rows != [] {
      FirstWithSelect(rows[1..], chosen, key, k);
      FirstWithConcat(if chosen(rows[0]) then [rows[0]] else [], Select(rows[1..], chosen), key, k);
      if chosen(rows[0]) {
        assert FirstWith([rows[0]], key, k) == if key(rows[0]) == k then Some(rows[0]) else None by {
          assert [rows[0]][1..] == [];
        }
      }
    }
  }

  // ---- sorting ----------------------------------------------------------------------------

  /** Places a row after every row it is not below. */
  function Placed<R>(sorted: seq<R>, row: R, less: (R, R) -> bool): seq<R> {
    if sorted == [] then [row]
    else if less(row, sorted[|sorted| - 1]) then Placed(sorted[..|sorted| - 1], row, less) + [sorted[|sorted| - 1]]
    else sorted + [row]
  }

  /** A stable sort. */
  function Sorted<R>(rows: seq<R>, less: (R, R) -> bool): seq<R> {
    if rows == [] then [] else Placed(Sorted(rows[..|rows| - 1], less), rows[|rows| - 1], less)
  }

  lemma {:induction false} PlacedRows<R>(sorted: seq<R>, row: R, less: (R, R) -> bool)
    ensures multiset(Placed(sorted, row, less)) == multiset(sorted) + multiset{row}
  {
    if sorted != [] {
      assert sorted == sorted[..|sorted| - 1] + [sorted[|sorted| - 1]];
      if less(row, sorted[|sorted| - 1]) {
        PlacedRows(sorted[..|sorted| - 1], row, less);
      }
    }
  }

  lemma {:induction false} SortedRows<R>(rows: seq<R>, less: (R, R) -> bool)
    ensures multiset(Sorted(rows, less)) == multiset(rows)
    ensures |Sorted(rows, less)| == |rows|
  {
    if rows != [] {
      assert rows == rows[..|rows| - 1] + [rows[|rows| - 1]];
      SortedRows(rows[..|rows| - 1], less);
      PlacedRows(Sorted(rows[..|rows| - 1], less), rows[|rows| - 1], less);
    }
    assert |multiset(Sorted(rows, less))| == |Sorted(rows, less)| && |multiset(rows)| == |rows|;
  }

  lemma SortedHas<R>(rows: seq<R>, less: (R, R) -> bool, r: R)
    ensures r in Sorted(rows, less) <==> r in rows
  {
    SortedRows(rows, less);
    assert r in Sorted(rows, less) <==> r in multiset(Sorted(rows, less));
  }

  ghost predicate Strict<R(!new)>(less: (R, R) -> bool) {
    && (forall a, b :: less(a, b) ==> !less(b, a))
    && (forall a, b, c :: !less(b, a) && !less(c, b) ==> !less(c, a))
  }

  ghost predicate InOrder<R>(rows: seq<R>, less: (R, R) -> bool) {
    forall i, j :: 0 <= i < j < |rows| ==> !less(rows[j], rows[i])
  }

  lemma {:induction false} PlacedInOrder<R(!new)>(sorted: seq<R>, row: R, less: (R, R) -> bool)
    requires Strict(less) && InOrder(sorted, less)
    ensures InOrder(Placed(sorted, row, less), less)
  {
    if sorted != [] {
      var init, last := sorted[..|sorted| - 1], sorted[|sorted| - 1];
      var placed := Placed(sorted, row, less);
      if less(row, last) {
        PlacedInOrder(init, row, less);
        PlacedRows(init, row, less);
        var before := Placed(init, row, less);
        forall i | 0 <= i < |before| ensures !less(last, before[i]) {
          assert before[i] in multiset(before);
          assert before[i] == row || before[i] in multiset(init);
        }
      } else {
        forall i | 0 <= i < |sorted| ensures !less(row, sorted[i]) {
          assert i < |sorted| - 1 ==> !less(last, sorted[i]);
        }
      }
    }
  }

  lemma {:induction false} SortedInOrder<R(!new)>(rows: seq<R>, less: (R, R) -> bool)
    requires Strict(less)
    ensures InOrder(Sorted(rows, less), less)
  {
    if rows != [] {
      SortedInOrder(rows[..|rows| - 1], less);
      PlacedInOrder(Sorted(rows[..|rows| - 1], less), rows[|rows| - 1], less);
    }
  }

  /** Rows of one key are never moved past each other. */
  ghost predicate KeyDecides<R>(rows: seq<R>, key: R -> R, less: (R, R) -> bool) {
    forall a, b :: a in rows && b in rows && key(a) == key(b) ==> !less(a, b)
  }

  lemma FirstWithOne<R>(row: R, key: R -> R, k: R)
    ensures FirstWith([row], key, k) == if key(row) == k then Some(row) else None
  {
    assert [row][1..] == [];
  }

  lemma {:induction false} FirstWithPlaced<R>(sorted: seq<R>, row: R, key: R -> R, less: (R, R) -> bool, k: R)
    requires forall r :: r in sorted && key(r) == key(row) ==> !less(row, r)
    ensures FirstWith(Placed(sorted, row, less), key, k) == FirstWith(sorted + [row], key, k)
  {
    FirstWithConcat(sorted, [row], key, k);
    FirstWithOne(row, key, k);
    if sorted != [] && less(row, sorted[|sorted| - 1]) {
      var init, last := sorted[..|sorted| - 1], sorted[|sorted| - 1];
      assert sorted == init + [last] && last in sorted;
      FirstWithPlaced(init, row, key, less, k);
      FirstWithConcat(init, [row], key, k);
      FirstWithConcat(init, [last], key, k);
      FirstWithConcat(Placed(init, row, less), [last], key, k);
      FirstWithOne(last, key, k);
    }
  }

  lemma LastAgainstSorted<R>(rows: seq<R>, key: R -> R, less: (R, R) -> bool)
    requires rows != [] && KeyDecides(rows, key, less)
    ensures KeyDecides(rows[..|rows| - 1], key, less)
    ensures forall r :: r in Sorted(rows[..|rows| - 1], less) && key(r) == key(rows[|rows| - 1]) ==> !less(rows[|rows| - 1], r)
  {
    var init, last := rows[..|rows| - 1], rows[|rows| - 1];
    forall r | r in init ensures r in rows {
      var i :| 0 <= i < |init| && init[i] == r;
      assert rows[i] == r;
    }
    assert last in rows;
    forall r | r in Sorted(init, less) && key(r) == key(last) ensures !less(last, r) {
      SortedHas(init, less, r);
    }
  }

  /** A stable sort keeps the first row of every key, so it changes no table it is inserted into. */
  lemma {:induction false} FirstWithSorted<R>(rows: seq<R>, key: R -> R, less: (R, R) -> bool, k: R)
    requires KeyDecides(rows, key, less)
    ensures FirstWith(Sorted(rows, less), key, k) == FirstWith(rows, key, k)
  {
    if rows != [] {
      var init, last := rows[..|rows| - 1], rows[|rows| - 1];
      assert rows == init + [last];
      LastAgainstSorted(rows, key, less);
      FirstWithSorted(init, key, less, k);
      FirstWithPlaced(Sorted(init, less), last, key, less, k);
      FirstWithConcat(Sorted(init, less), [last], key, k);
      FirstWithConcat(init, [last], key, k);
    }
  }

  // ---- dropping repeats -------------------------------------------------------------------

  function Distinct<R(==)>(rows: seq<R>): seq<R> {
    if rows == [] then []
    else
      var kept := Distinct(rows[..|rows| - 1]);
      if rows[|rows| - 1] in kept then kept else kept + [rows[|rows| - 1]]
  }

  lemma {:induction false} FirstWithDistinct<R>(rows: seq<R>, key: R -> R, k: R)
    ensures FirstWith(Distinct(rows), key, k) == FirstWith(rows, key, k)
    ensures forall r :: r in Distinct(rows) <==> r in rows
  {
    if rows != [] {
      var init, last := rows[..|rows| - 1], rows[|rows| - 1];
      assert rows == init + [last];
      FirstWithDistinct(init, key, k);
      FirstWithConcat(init, [last], key, k);
      FirstWithConcat(Distinct(init), [last], key, k);
      FirstWithOne(last, key, k);
      FirstWithIsARow(init, key, k);
    }
  }
}
