/**
  Concurrent writers taking row locks one at a time, and holding them to their commit. When
  every writer walks the rows it can meet another on in one order, no cycle of waits can form.
 */
module LockOrder {
  import opened Rows
  import opened RowOrder
  import opened Wrappers
  import opened GraphWrites

  datatype Lock = EntityRow(doc: DocId) | VertexRow(vertex: Vertex) | EdgeRow(edge: Edge)

  function TableRank(table: Table): nat {
    match table case ARTISTS => 0 case LABELS => 1 case MASTERS => 2 case RELEASES => 3
  }

  /** Entity rows by id, then vertex rows, then edge rows, relation by relation, in column order. */
  function Rank(lock: Lock): seq<Cell> {
    match lock
    case EntityRow(doc) => [Number(0), Number(TableRank(doc.table)), Text(doc.id)]
    case VertexRow(v) => [Number(1), Number(VertexRank(VertexRelationOf(v))), Text(KeyColumn(v))]
    case EdgeRow(e) => [Number(2), Number(EdgeRank(RelationOf(e)))] + Columns(e)
  }

  predicate LockLess(a: Lock, b: Lock) {
    RowLess(Rank(a), Rank(b))
  }

  /** A row one document owns is only written by a writer that holds that document's entity row. */
  predicate Private(lock: Lock) {
    lock.EdgeRow? && Owner(lock.edge).Some?
  }

  ghost predicate Ordered(program: seq<Lock>) {
    forall p, q :: 0 <= p < q < |program| && !Private(program[p]) && !Private(program[q]) ==>
      program[p] == program[q] || LockLess(program[p], program[q])
  }

  ghost predicate Guarded(program: seq<Lock>) {
    forall k :: 0 <= k < |program| && Private(program[k]) ==> EntityRow(Owner(program[k].edge).value) in program[..k]
  }

  // ---- writers ----------------------------------------------------------------------------

  datatype Writer = Writer(program: seq<Lock>, at: nat, held: set<Lock>, committed: bool)

  function Start(programs: seq<seq<Lock>>): seq<Writer> {
    seq(|programs|, i requires 0 <= i < |programs| => Writer(programs[i], 0, {}, false))
  }

  ghost predicate HeldByAnother(ws: seq<Writer>, i: nat, lock: Lock) {
    exists j :: 0 <= j < |ws| && j != i && lock in ws[j].held
  }

  ghost predicate CanStep(ws: seq<Writer>, i: nat) {
    i < |ws| && !ws[i].committed && (ws[i].at < |ws[i].program| ==> !HeldByAnother(ws, i, ws[i].program[ws[i].at]))
  }

  /** The next row, then the commit. A graph row another writer committed already is not locked. */
  function Stepped(w: Writer, taken: bool): Writer {
    if w.at < |w.program| then
      var lock := w.program[w.at];
      Writer(w.program, w.at + 1, if taken || lock.EntityRow? then w.held + {lock} else w.held, false)
    else Writer(w.program, w.at, {}, true)
  }

  function Step(ws: seq<Writer>, i: nat, taken: bool): seq<Writer>
    requires i < |ws|
  {
    ws[i := Stepped(ws[i], taken)]
  }

  ghost predicate WriterSound(w: Writer) {
    && w.at <= |w.program|
    && (forall l :: l in w.held ==> l in w.program[..w.at])
    && (w.committed ==> w.held == {})
    && (!w.committed ==> forall k :: 0 <= k < w.at && w.program[k].EntityRow? ==> w.program[k] in w.held)
  }

  ghost predicate Exclusive(ws: seq<Writer>) {
    forall i, j :: 0 <= i < j < |ws| ==> ws[i].held !! ws[j].held
  }

  ghost predicate Sound(ws: seq<Writer>) {
    && (forall i :: 0 <= i < |ws| ==> WriterSound(ws[i]))
    && Exclusive(ws)
  }

  ghost predicate Disciplined(ws: seq<Writer>) {
    forall i :: 0 <= i < |ws| ==> Ordered(ws[i].program) && Guarded(ws[i].program)
  }

  predicate AllCommitted(ws: seq<Writer>) {
    forall i :: 0 <= i < |ws| ==> ws[i].committed
  }

  lemma SteppedIsSound(w: Writer, taken: bool)
    requires WriterSound(w) && !w.committed
    ensures WriterSound(Stepped(w, taken))
  {
    if w.at < |w.program| {
      var next := Stepped(w, taken);
      assert next.program[..next.at] == w.program[..w.at] + [w.program[w.at]];
    }
  }

  lemma StepKeepsSound(ws: seq<Writer>, i: nat, taken: bool)
    requires Sound(ws) && CanStep(ws, i)
    ensures Sound(Step(ws, i, taken))
  {
    SteppedIsSound(ws[i], taken);
    var next := Step(ws, i, taken);
    forall a, b | 0 <= a < b < |next| ensures next[a].held !! next[b].held {
      assert ws[a].held !! ws[b].held;
      if ws[i].at < |ws[i].program| {
        var lock := ws[i].program[ws[i].at];
        assert a != i ==> lock !in ws[a].held;
        assert b != i ==> lock !in ws[b].held;
      }
    }
  }

  // ---- no cycle of waits ------------------------------------------------------------------

  ghost predicate Waits(ws: seq<Writer>, i: nat) {
    i < |ws| && !ws[i].committed && ws[i].at < |ws[i].program| && HeldByAnother(ws, i, ws[i].program[ws[i].at])
  }

  lemma StepsOrWaits(ws: seq<Writer>, i: nat)
    requires i < |ws| && !ws[i].committed
    ensures CanStep(ws, i) <==> !Waits(ws, i)
  {
  }

  lemma HoldsOwner(w: Writer, lock: Lock)
    requires WriterSound(w) && Guarded(w.program) && !w.committed && Private(lock)
    requires lock in w.program[..w.at] || (w.at < |w.program| && lock == w.program[w.at])
    ensures EntityRow(Owner(lock.edge).value) in w.held
  {
    var owner := EntityRow(Owner(lock.edge).value);
    var k :| 0 <= k <= w.at && k < |w.program| && w.program[k] == lock;
    assert owner in w.program[..k];
    var m :| 0 <= m < k && w.program[m] == owner;
    assert m < w.at && w.program[m].EntityRow?;
  }

  /** A scoped delete or an insert of an owned row never waits: its document's entity row is held. */
  lemma PrivateRowsNeverWait(ws: seq<Writer>, i: nat)
    requires Sound(ws) && Disciplined(ws) && i < |ws| && !ws[i].committed
    requires ws[i].at < |ws[i].program| && Private(ws[i].program[ws[i].at])
    ensures !Waits(ws, i)
  {
    forall j | 0 <= j < |ws| && j != i ensures ws[i].program[ws[i].at] !in ws[j].held {
      NobodyElseHolds(ws, i, j);
    }
  }

  lemma HeldBehindOwner(w: Writer, lock: Lock)
    requires WriterSound(w) && Guarded(w.program) && Private(lock)
    ensures lock in w.held ==> EntityRow(Owner(lock.edge).value) in w.held
  {
    if lock in w.held {
      HoldsOwner(w, lock);
    }
  }

  lemma NobodyElseHolds(ws: seq<Writer>, i: nat, j: nat)
    requires Sound(ws) && Disciplined(ws) && i < |ws| && j < |ws| && i != j && !ws[i].committed
    requires ws[i].at < |ws[i].program| && Private(ws[i].program[ws[i].at])
    ensures ws[i].program[ws[i].at] !in ws[j].held
  {
    HoldsOwner(ws[i], ws[i].program[ws[i].at]);
    HeldBehindOwner(ws[j], ws[i].program[ws[i].at]);
    assert ws[i].held !! ws[j].held;
  }

  function Wanted(ws: seq<Writer>, i: nat): Lock
    requires i < |ws| && ws[i].at < |ws[i].program|
  {
    ws[i].program[ws[i].at]
  }

  /** Whoever holds a row someone waits for is past it, so it waits, if at all, for a later one. */
  lemma HolderWaitsForMore(ws: seq<Writer>, i: nat) returns (j: nat)
    requires Sound(ws) && Disciplined(ws) && Waits(ws, i)
    ensures j < |ws| && !ws[j].committed
    ensures Waits(ws, j) ==> LockLess(Wanted(ws, i), Wanted(ws, j))
  {
    if Private(Wanted(ws, i)) {
      PrivateRowsNeverWait(ws, i);
    }
    j :| 0 <= j < |ws| && j != i && Wanted(ws, i) in ws[j].held;
    assert !ws[j].committed;
    if Waits(ws, j) {
      if Private(Wanted(ws, j)) {
        PrivateRowsNeverWait(ws, j);
      }
      HeldIsBefore(ws, j, Wanted(ws, i));
    }
  }

  lemma HeldIsBefore(ws: seq<Writer>, j: nat, lock: Lock)
    requires Sound(ws) && Disciplined(ws) && Waits(ws, j) && lock in ws[j].held && !Private(lock) && !Private(Wanted(ws, j))
    ensures LockLess(lock, Wanted(ws, j))
  {
    var w := ws[j];
    var p :| 0 <= p < w.at && w.program[p] == lock;
    assert lock == Wanted(ws, j) || LockLess(lock, Wanted(ws, j));
  }

  /** Following the waits climbs the order, and there are only so many writers. */
  lemma {:induction false} SomeoneCanStepFrom(ws: seq<Writer>, i: nat, passed: set<nat>) returns (k: nat)
    requires Sound(ws) && Disciplined(ws) && i < |ws| && !ws[i].committed
    requires forall m :: m in passed ==> Waits(ws, m) && (Waits(ws, i) ==> LockLess(Wanted(ws, m), Wanted(ws, i)))
    ensures CanStep(ws, k)
    decreases |ws| - |passed|
  {
    if !Waits(ws, i) {
      StepsOrWaits(ws, i);
      k := i;
    } else {
      var j := HolderWaitsForMore(ws, i);
      RowOrderIsTotal(Rank(Wanted(ws, i)), [], []);
      assert i !in passed;
      if Waits(ws, j) {
        forall m | m in passed ensures LockLess(Wanted(ws, m), Wanted(ws, j)) {
          RowOrderIsTotal(Rank(Wanted(ws, m)), Rank(Wanted(ws, i)), Rank(Wanted(ws, j)));
        }
      }
      FewerThanAll(passed + {i}, |ws|);
      k := SomeoneCanStepFrom(ws, j, passed + {i});
    }
  }

  lemma {:induction false} FewerThanAll(indices: set<nat>, n: nat)
    requires forall m :: m in indices ==> m < n
    ensures |indices| <= n
  {
    if n > 0 {
      FewerThanAll(indices - {n - 1}, n - 1);
    } else {
      assert indices == {};
    }
  }

  /** In every sound state of disciplined writers, all are done or one can step. */
  lemma NoDeadlock(ws: seq<Writer>) returns (k: nat)
    requires Sound(ws) && Disciplined(ws) && !AllCommitted(ws)
    ensures CanStep(ws, k)
  {
    var i :| 0 <= i < |ws| && !ws[i].committed;
    k := SomeoneCanStepFrom(ws, i, {});
  }

  // ---- whole runs -------------------------------------------------------------------------

  datatype Turn = Turn(writer: nat, taken: bool)

  ghost predicate Legal(ws: seq<Writer>, turns: seq<Turn>)
    decreases |turns|
  {
    turns == [] || (CanStep(ws, turns[0].writer) && Legal(Step(ws, turns[0].writer, turns[0].taken), turns[1..]))
  }

  ghost function Run(ws: seq<Writer>, turns: seq<Turn>): seq<Writer>
    requires Legal(ws, turns)
    decreases |turns|
  {
    if turns == [] then ws else Run(Step(ws, turns[0].writer, turns[0].taken), turns[1..])
  }

  lemma StartIsSound(programs: seq<seq<Lock>>)
    ensures Sound(Start(programs))
  {
  }

  function Left(w: Writer): nat {
    if w.committed then 0 else 1 + if w.at < |w.program| then |w.program| - w.at else 0
  }

  function TotalLeft(ws: seq<Writer>): nat {
    if ws == [] then 0 else Left(ws[0]) + TotalLeft(ws[1..])
  }

  lemma {:induction false} StepUsesOne(ws: seq<Writer>, i: nat, taken: bool)
    requires i < |ws| && !ws[i].committed
    ensures TotalLeft(Step(ws, i, taken)) == TotalLeft(ws) - 1
  {
    var next := Step(ws, i, taken);
    if i == 0 {
      assert next[1..] == ws[1..];
    } else {
      assert next[1..] == Step(ws[1..], i - 1, taken);
      StepUsesOne(ws[1..], i - 1, taken);
    }
  }

  /** Every run is sound, keeps the programs, and is as long as the work it did. */
  lemma {:induction false} RunsAreSound(ws: seq<Writer>, turns: seq<Turn>)
    requires Sound(ws) && Legal(ws, turns)
    ensures Sound(Run(ws, turns)) && |Run(ws, turns)| == |ws|
    ensures forall i :: 0 <= i < |ws| ==> Run(ws, turns)[i].program == ws[i].program
    ensures |turns| + TotalLeft(Run(ws, turns)) == TotalLeft(ws)
    decreases |turns|
  {
    if turns != [] {
      var next := Step(ws, turns[0].writer, turns[0].taken);
      StepKeepsSound(ws, turns[0].writer, turns[0].taken);
      StepUsesOne(ws, turns[0].writer, turns[0].taken);
      assert forall i :: 0 <= i < |ws| ==> next[i].program == ws[i].program;
      RunsAreSound(next, turns[1..]);
    }
  }

  /** No run of the writers, whatever the interleaving, ends before all have committed. */
  ghost predicate NeverStuck(programs: seq<seq<Lock>>) {
    forall turns :: Legal(Start(programs), turns) ==>
      AllCommitted(Run(Start(programs), turns)) || exists k :: CanStep(Run(Start(programs), turns), k)
  }

  /** Any number of disciplined writers, every interleaving: never stuck, so every maximal run commits them all. */
  lemma DisciplinedWritersFinish(programs: seq<seq<Lock>>)
    requires forall i :: 0 <= i < |programs| ==> Ordered(programs[i]) && Guarded(programs[i])
    ensures NeverStuck(programs)
    ensures forall turns :: Legal(Start(programs), turns) ==> |turns| <= TotalLeft(Start(programs))
  {
    StartIsSound(programs);
    forall turns | Legal(Start(programs), turns)
      ensures |turns| <= TotalLeft(Start(programs))
      ensures AllCommitted(Run(Start(programs), turns)) || exists k :: CanStep(Run(Start(programs), turns), k)
    {
      RunsAreSound(Start(programs), turns);
      var ws := Run(Start(programs), turns);
      if !AllCommitted(ws) {
        var k := NoDeadlock(ws);
      }
    }
  }

  // ---- what an unsorted writer risks ------------------------------------------------------

  lemma {:induction false} RunAlone(ws: seq<Writer>, n: nat) returns (turns: seq<Turn>)
    requires |ws| == 2 && ws[1].held == {} && !ws[0].committed && ws[0].at + n <= |ws[0].program|
    requires forall l :: l in ws[0].program[..ws[0].at] <==> l in ws[0].held
    ensures Legal(ws, turns)
    ensures var after := Run(ws, turns);
            |after| == 2 && after[1] == ws[1] && after[0].program == ws[0].program && !after[0].committed
            && after[0].at == ws[0].at + n && forall l :: l in after[0].held <==> l in after[0].program[..after[0].at]
    decreases n
  {
    if n == 0 {
      turns := [];
    } else {
      var next := Step(ws, 0, true);
      assert next[0].program[..next[0].at] == ws[0].program[..ws[0].at] + [ws[0].program[ws[0].at]];
      var rest := RunAlone(next, n - 1);
      turns := [Turn(0, true)] + rest;
      assert turns[1..] == rest;
    }
  }

  lemma {:induction false} RunConcat(ws: seq<Writer>, a: seq<Turn>, b: seq<Turn>)
    requires Legal(ws, a) && Legal(Run(ws, a), b)
    ensures Legal(ws, a + b) && Run(ws, a + b) == Run(Run(ws, a), b)
    decreases |a|
  {
    if a == [] {
      assert a + b == b;
    } else {
      assert (a + b)[1..] == a[1..] + b;
      RunConcat(Step(ws, a[0].writer, a[0].taken), a[1..], b);
    }
  }

  /**
    A writer that locks an entity row after a later one can deadlock with a writer that takes
    the same two rows first and in order.
   */
  lemma OutOfOrderRowsCanDeadlock(program: seq<Lock>, p: nat, q: nat, partner: seq<Lock>)
    requires p < q < |program| && program[p].EntityRow? && program[q].EntityRow?
    requires program[q] !in program[..q]
    requires |partner| >= 2 && partner[0] == program[q] && partner[1] == program[p]
    ensures !NeverStuck([program, partner])
  {
    var start := Start([program, partner]);
    var alone := RunAlone(start, q);
    var middle := Run(start, alone);
    assert program[p] in program[..q];
    assert CanStep(middle, 1);
    var turn := [Turn(1, true)];
    var stuck := Step(middle, 1, true);
    assert turn[1..] == [] && Legal(stuck, turn[1..]);
    RunConcat(start, alone, turn);
    assert Run(middle, turn) == stuck;
    assert stuck[1].at == 1 && stuck[1].program[1] == program[p] && program[p] in stuck[0].held;
    assert stuck[0].at == q && program[q] in stuck[1].held;
    assert HeldByAnother(stuck, 0, program[q]) && HeldByAnother(stuck, 1, program[p]);
    forall k ensures !CanStep(stuck, k) {
    }
    assert !AllCommitted(Run(start, alone + turn));
  }
}
