/**
  The `extraction_complete` handler in durable mode, one await at a time: decide on the purge,
  veto or purge, commit the signal, acknowledge. Deliveries repeat, run side by side, fail at
  every step and die with the process.
 */
module TerminalSignal {
  import opened Wrappers
  import opened Versions
  import opened RefreshProtocol
  import opened RefreshInvariant
  import opened RefreshRuns

  datatype Phase = Arrived | Vetoing | Purging | Recording | Acking

  datatype Delivery = Delivery(day: nat, signal: DataType, phase: Phase, vetoed: bool)

  datatype Terminal = Terminal(day: nat, signal: DataType)

  /**
    `latchKnown` says whether this process's startup probe found the latch relation; it is asked
    once, and a process that failed to find it neither reads nor records vetoes. `flagged` is the
    process's memory of rejected records and `waiting` the types whose dead-letter queue is not
    empty; `acked` and `purged` are what already happened.
   */
  datatype Service = Service(
    world: World,
    latchKnown: bool,
    inflight: map<nat, Delivery>,
    flagged: set<DataType>,
    waiting: set<DataType>,
    acked: set<Terminal>,
    purged: seq<Terminal>)

  /** A purge transaction commits, fails, or commits and loses its response. */
  datatype PurgeOutcome = Done | Failed | ResponseLost

  datatype Event =
    | Deliver(id: nat, day: nat, signal: DataType)
    | Decide(id: nat, queueReadable: bool, latchReadable: bool)
    | PersistVeto(id: nat, ok: bool)
    | RunPurge(id: nat, outcome: PurgeOutcome)
    | CommitSignal(id: nat, ready: bool, now: Time)
    | Acknowledge(id: nat, ok: bool)
    | RejectRecord(signal: DataType)
    | BrokerDeadLetters(signal: DataType)
    | ClearDeadLetters(signal: DataType)
    | Restart(found: bool)
    | Protocol(step: Step)

  function Moved(s: Service, id: nat, phase: Phase): Service
    requires id in s.inflight
  {
    s.(inflight := s.inflight[id := s.inflight[id].(phase := phase)])
  }

  /** A settled delivery leaves the process: acked, or requeued for the broker to deliver again. */
  function Settled(s: Service, id: nat): Service {
    s.(inflight := s.inflight - {id})
  }

  predicate InPhase(s: Service, id: nat, phase: Phase) {
    id in s.inflight && s.inflight[id].phase == phase
  }

  /** Any one reason is enough, and what cannot be read counts as one; without the latch relation nothing recorded is read. */
  predicate HasVetoReason(s: Service, d: Delivery, queueReadable: bool, latchReadable: bool) {
    || d.signal in s.flagged
    || !queueReadable
    || d.signal in s.waiting
    || (s.latchKnown && (!latchReadable || IsVetoed(s.world.db, d.day, d.signal)))
  }

  ghost function Handle(s: Service, event: Event): Service {
    match event
    case Deliver(id, day, signal) =>
      if id in s.inflight then s else s.(inflight := s.inflight[id := Delivery(day, signal, Arrived, false)])
    case Decide(id, queueReadable, latchReadable) =>
      if !InPhase(s, id, Arrived) then s
      else if HasVetoReason(s, s.inflight[id], queueReadable, latchReadable)
      then s.(inflight := s.inflight[id := s.inflight[id].(phase := Vetoing, vetoed := true)])
      else Moved(s, id, Purging)
    case PersistVeto(id, ok) =>
      if !InPhase(s, id, Vetoing) then s
      else if !s.latchKnown then Moved(s, id, Recording)
      else if !ok then Settled(s, id)
      else
        var d := s.inflight[id];
        Moved(s, id, Recording).(world := Apply(s.world, Veto(d.day, d.signal)))
    case RunPurge(id, outcome) =>
      if !InPhase(s, id, Purging) then s
      else if outcome == Failed then Settled(s, id)
      else
        (if outcome == Done then Moved(s, id, Recording) else Settled(s, id))
          .(purged := s.purged + [Terminal(s.inflight[id].day, s.inflight[id].signal)])
    case CommitSignal(id, ready, now) =>
      if !InPhase(s, id, Recording) then s
      else
        var d := s.inflight[id];
        if ready && RecordSignal(s.world.db, d.day, d.signal, now).Ok?
        then Moved(s, id, Acking).(world := Apply(s.world, Record(d.day, d.signal, now)))
        else Settled(s, id)
    case Acknowledge(id, ok) =>
      if !InPhase(s, id, Acking) then s
      else if !ok then Settled(s, id)
      else
        var d := s.inflight[id];
        Settled(s, id).(acked := s.acked + {Terminal(d.day, d.signal)},
                        flagged := if d.vetoed then s.flagged - {d.signal} else s.flagged)
    case RejectRecord(signal) => s.(flagged := s.flagged + {signal}, waiting := s.waiting + {signal})
    case BrokerDeadLetters(signal) => s.(waiting := s.waiting + {signal})
    case ClearDeadLetters(signal) => s.(waiting := s.waiting - {signal})
    case Restart(found) => s.(inflight := map[], flagged := {}, latchKnown := found, world := Apply(s.world, Crash))
    case Protocol(step) => s.(world := Apply(s.world, step))
  }

  ghost function Serve(s: Service, events: seq<Event>): Service
    decreases |events|
  {
    if events == [] then s else Serve(Handle(s, events[0]), events[1..])
  }

  ghost predicate Starting(s: Service) {
    Initial(s.world) && s.inflight == map[] && s.acked == {} && s.purged == []
  }

  ghost predicate Committed(db: Db, day: nat, signal: DataType) {
    && Dump(day) in db.latches && signal in db.latches[Dump(day)].signals
    && db.cursor.version.Some? && day <= db.cursor.version.value
  }

  ghost predicate AckedIsCommitted(s: Service) {
    && Sound(s.world)
    && (forall p :: p in s.acked ==> Committed(s.world.db, p.day, p.signal))
    && (forall id :: InPhase(s, id, Acking) ==> Committed(s.world.db, s.inflight[id].day, s.inflight[id].signal))
  }

  lemma CommittedStays(db: Db, later: Db, day: nat, signal: DataType)
    requires Grows(db, later) && Committed(db, day, signal)
    ensures Committed(later, day, signal)
  {
  }

  lemma RecordCommits(db: Db, day: nat, signal: DataType, now: Time)
    requires Inv(db) && RecordSignal(db, day, signal, now).Ok?
    ensures Committed(RecordSignal(db, day, signal, now).value.0, day, signal)
  {
    RecordSignalKeepsInv(db, day, signal, now);
    ReconcileKeepsInv(db, now);
    AcceptTouchesOneLatch(Reconcile(db, now).value, day, signal, now);
  }

  /** The protocol step an event takes, if any. */
  function StepOf(s: Service, event: Event): Option<Step> {
    match event
    case PersistVeto(id, ok) =>
      if InPhase(s, id, Vetoing) && s.latchKnown && ok then Some(Veto(s.inflight[id].day, s.inflight[id].signal)) else None
    case CommitSignal(id, ready, now) =>
      if InPhase(s, id, Recording) && ready then Some(Record(s.inflight[id].day, s.inflight[id].signal, now)) else None
    case Restart(_) => Some(Crash)
    case Protocol(step) => Some(step)
    case _ => None
  }

  lemma WorldMovesByItsStep(s: Service, event: Event)
    ensures Handle(s, event).world == if StepOf(s, event).Some? then Apply(s.world, StepOf(s, event).value) else s.world
  {
  }

  lemma NothingGrows(w: World)
    requires Sound(w)
    ensures Grows(w.db, w.db)
  {
  }

  /** What one event does to the protocol's tables. */
  lemma HandleOnWorld(s: Service, event: Event)
    requires Sound(s.world)
    ensures Sound(Handle(s, event).world) && Grows(s.world.db, Handle(s, event).world.db)
  {
    WorldMovesByItsStep(s, event);
    if StepOf(s, event).Some? {
      StepKeepsSound(s.world, StepOf(s, event).value);
    } else {
      NothingGrows(s.world);
    }
  }

  /** A delivery about to be acknowledged was there before, or its signal is committed by this very event. */
  lemma WhereAckingComesFrom(s: Service, event: Event, id: nat)
    requires InPhase(Handle(s, event), id, Acking)
    ensures var d := Handle(s, event).inflight[id];
            || (InPhase(s, id, Acking) && s.inflight[id].day == d.day && s.inflight[id].signal == d.signal)
            || (event.CommitSignal? && RecordSignal(s.world.db, d.day, d.signal, event.now).Ok?
                && Handle(s, event).world.db == RecordSignal(s.world.db, d.day, d.signal, event.now).value.0)
  {
  }

  lemma WhereAckedComesFrom(s: Service, event: Event, p: Terminal)
    requires p in Handle(s, event).acked && p !in s.acked
    ensures event.Acknowledge? && InPhase(s, event.id, Acking)
    ensures p == Terminal(s.inflight[event.id].day, s.inflight[event.id].signal)
  {
  }

  lemma HandleKeepsAckedCommitted(s: Service, event: Event)
    requires AckedIsCommitted(s)
    ensures AckedIsCommitted(Handle(s, event)) && Grows(s.world.db, Handle(s, event).world.db)
  {
    HandleOnWorld(s, event);
    var next := Handle(s, event);
    forall id | InPhase(next, id, Acking)
      ensures Committed(next.world.db, next.inflight[id].day, next.inflight[id].signal)
    {
      AckingIsCommitted(s, event, id);
    }
    forall p | p in next.acked ensures Committed(next.world.db, p.day, p.signal) {
      if p !in s.acked {
        WhereAckedComesFrom(s, event, p);
      }
      CommittedStays(s.world.db, next.world.db, p.day, p.signal);
    }
  }

  lemma AckingIsCommitted(s: Service, event: Event, id: nat)
    requires AckedIsCommitted(s) && Grows(s.world.db, Handle(s, event).world.db)
    requires InPhase(Handle(s, event), id, Acking)
    ensures var d := Handle(s, event).inflight[id]; Committed(Handle(s, event).world.db, d.day, d.signal)
  {
    WhereAckingComesFrom(s, event, id);
    var d := Handle(s, event).inflight[id];
    if InPhase(s, id, Acking) && s.inflight[id].day == d.day && s.inflight[id].signal == d.signal {
      CommittedStays(s.world.db, Handle(s, event).world.db, d.day, d.signal);
    } else {
      RecordCommits(s.world.db, d.day, d.signal, event.now);
    }
  }

  lemma {:induction false} ServeKeepsAckedCommitted(s: Service, events: seq<Event>)
    requires AckedIsCommitted(s)
    ensures AckedIsCommitted(Serve(s, events)) && Grows(s.world.db, Serve(s, events).world.db)
    decreases |events|
  {
    if events != [] {
      HandleKeepsAckedCommitted(s, events[0]);
      var next := Handle(s, events[0]);
      ServeKeepsAckedCommitted(next, events[1..]);
      GrowsTransitive(s.world.db, next.world.db, Serve(s, events).world.db);
    }
  }

  ghost predicate AckedAreCommitted(s: Service, day: nat) {
    forall t :: Terminal(day, t) in s.acked ==> Committed(s.world.db, day, t)
  }

  ghost predicate AllAcked(s: Service, day: nat) {
    forall t :: t in DATA_TYPES ==> Terminal(day, t) in s.acked
  }

  /** Active, already refreshed, or fenced by a newer accepted dump. */
  ghost predicate Owed(db: Db, day: nat) {
    HasActiveJob(db, day) || Stamped(db.latches, day) || (db.cursor.version.Some? && day < db.cursor.version.value)
  }

  /**
    The acknowledgement boundary: no restart, redelivery or failed step acknowledges a signal
    that is not committed, and a dump whose four signals were all acknowledged is owed by an
    active job, already refreshed, or fenced by a newer accepted dump.
   */
  lemma NoAckWithoutItsObligation(s: Service, events: seq<Event>, day: nat)
    requires Starting(s)
    ensures AckedAreCommitted(Serve(s, events), day)
    ensures AllAcked(Serve(s, events), day) ==> Owed(Serve(s, events).world.db, day)
  {
    NothingAckedYet(s);
    ServeKeepsAckedCommitted(s, events);
    AckedIsOwed(Serve(s, events), day);
  }

  lemma NothingAckedYet(s: Service)
    requires Starting(s)
    ensures AckedIsCommitted(s)
  {
    InitialIsSound(s.world);
    assert forall id :: !InPhase(s, id, Acking);
  }

  lemma AckedIsOwed(last: Service, day: nat)
    requires AckedIsCommitted(last)
    ensures AckedAreCommitted(last, day)
    ensures AllAcked(last, day) ==> Owed(last.world.db, day)
  {
    if AllAcked(last, day) {
      forall t | t in DATA_TYPES ensures Committed(last.world.db, day, t) {
        assert Terminal(day, t) in last.acked;
      }
      AllCommittedIsOwed(last.world.db, day);
    }
  }

  lemma AllCommittedIsOwed(db: Db, day: nat)
    requires Inv(db) && forall t :: t in DATA_TYPES ==> Committed(db, day, t)
    ensures Owed(db, day)
  {
    assert Committed(db, day, Artists);
    assert Complete(db.latches, day);
  }

  // ---- the veto ---------------------------------------------------------------------------

  ghost predicate Purges(s: Service, later: Service, day: nat, signal: DataType) {
    |s.purged| <= |later.purged| && Terminal(day, signal) in later.purged[|s.purged|..]
  }

  ghost predicate SomeDecidedToPurge(s: Service, day: nat, signal: DataType) {
    exists id :: InPhase(s, id, Purging) && s.inflight[id].day == day && s.inflight[id].signal == signal
  }

  /** Every process started in these events found the latch relation. */
  ghost predicate ProbesFind(events: seq<Event>) {
    forall i :: 0 <= i < |events| && events[i].Restart? ==> events[i].found
  }

  ghost predicate VetoOnItsWay(s: Service, signal: DataType) {
    exists id :: InPhase(s, id, Acking) && s.inflight[id].vetoed && s.inflight[id].signal == signal
  }

  /** A process without the latch still vetoes by its own memory, for as long as no vetoed signal can be acknowledged. */
  ghost predicate MemoryHolds(s: Service, signal: DataType) {
    signal in s.flagged && HasUnorderable(s.world.db) && !VetoOnItsWay(s, signal)
  }

  /** The recorded veto is read, or stood in for. */
  ghost predicate Remembers(s: Service, day: nat, signal: DataType) {
    IsVetoed(s.world.db, day, signal) && !SomeDecidedToPurge(s, day, signal) && (s.latchKnown || MemoryHolds(s, signal))
  }

  lemma DecidedBefore(s: Service, event: Event, id: nat)
    requires InPhase(Handle(s, event), id, Purging)
    requires s.latchKnown || Handle(s, event).inflight[id].signal in s.flagged
    requires IsVetoed(s.world.db, Handle(s, event).inflight[id].day, Handle(s, event).inflight[id].signal)
    ensures InPhase(s, id, Purging) && s.inflight[id].day == Handle(s, event).inflight[id].day
            && s.inflight[id].signal == Handle(s, event).inflight[id].signal
  {
  }

  lemma NobodyDecides(s: Service, event: Event, day: nat, signal: DataType)
    requires Remembers(s, day, signal)
    ensures !SomeDecidedToPurge(Handle(s, event), day, signal)
  {
    var next := Handle(s, event);
    if id :| InPhase(next, id, Purging) && next.inflight[id].day == day && next.inflight[id].signal == signal {
      DecidedBefore(s, event, id);
    }
  }

  lemma NoPurgeHappens(s: Service, event: Event, day: nat, signal: DataType)
    requires !SomeDecidedToPurge(s, day, signal)
    ensures s.purged <= Handle(s, event).purged && !Purges(s, Handle(s, event), day, signal)
  {
    var next := Handle(s, event);
    if event.RunPurge? && InPhase(s, event.id, Purging) && event.outcome != Failed {
      var d := s.inflight[event.id];
      assert next.purged[|s.purged|..] == [Terminal(d.day, d.signal)];
    } else {
      assert next.purged[|s.purged|..] == [];
    }
  }

  /** No step repairs a latch row the reconciliation refuses. */
  lemma UnorderableStays(w: World, step: Step)
    requires Sound(w) && HasUnorderable(w.db)
    ensures HasUnorderable(Apply(w, step).db)
  {
    var k :| k in LegacyKeys(w.db) && Unorderable(k, w.db.latches[k]);
    if step.Commit? && step.claim < |w.claims| {
      CommitKeepsInv(w.db, w.claims[step.claim], step.clientNow);
    }
    assert k in LegacyKeys(Apply(w, step).db);
  }

  lemma UnorderableStaysServed(s: Service, event: Event)
    requires Sound(s.world) && HasUnorderable(s.world.db)
    ensures HasUnorderable(Handle(s, event).world.db)
  {
    WorldMovesByItsStep(s, event);
    if StepOf(s, event).Some? {
      UnorderableStays(s.world, StepOf(s, event).value);
    }
  }

  /** While the reconciliation refuses a row, no signal commits. */
  lemma NothingReachesItsAck(s: Service, event: Event, id: nat)
    requires Sound(s.world) && HasUnorderable(s.world.db) && InPhase(Handle(s, event), id, Acking)
    ensures InPhase(s, id, Acking) && s.inflight[id] == Handle(s, event).inflight[id]
  {
    if event.CommitSignal? && InPhase(s, event.id, Recording) {
      RecordSignalKeepsInv(s.world.db, s.inflight[event.id].day, s.inflight[event.id].signal, event.now);
    }
  }

  lemma MemoryStays(s: Service, event: Event, signal: DataType)
    requires Sound(s.world) && MemoryHolds(s, signal) && !event.Restart?
    ensures MemoryHolds(Handle(s, event), signal)
  {
    UnorderableStaysServed(s, event);
    forall id | InPhase(Handle(s, event), id, Acking)
      ensures InPhase(s, id, Acking) && s.inflight[id] == Handle(s, event).inflight[id]
    {
      NothingReachesItsAck(s, event, id);
    }
    if event.Acknowledge? && InPhase(s, event.id, Acking) {
      assert s.inflight[event.id].vetoed ==> s.inflight[event.id].signal != signal;
    }
  }

  lemma RemembersOneEvent(s: Service, event: Event, day: nat, signal: DataType)
    requires Sound(s.world) && Remembers(s, day, signal) && (event.Restart? ==> event.found)
    ensures Remembers(Handle(s, event), day, signal)
    ensures s.purged <= Handle(s, event).purged && !Purges(s, Handle(s, event), day, signal)
  {
    HandleOnWorld(s, event);
    NobodyDecides(s, event, day, signal);
    NoPurgeHappens(s, event, day, signal);
    if !s.latchKnown && !event.Restart? {
      MemoryStays(s, event, signal);
    }
  }

  lemma {:induction false} RememberedVetoHolds(s: Service, events: seq<Event>, day: nat, signal: DataType)
    requires Sound(s.world) && Remembers(s, day, signal) && ProbesFind(events)
    ensures !Purges(s, Serve(s, events), day, signal) && s.purged <= Serve(s, events).purged
    decreases |events|
  {
    if events == [] {
      assert s.purged[|s.purged|..] == [];
    } else {
      var next := Handle(s, events[0]);
      HandleOnWorld(s, events[0]);
      RemembersOneEvent(s, events[0], day, signal);
      assert forall i :: 0 <= i < |events| - 1 ==> events[1..][i] == events[i + 1];
      RememberedVetoHolds(next, events[1..], day, signal);
      NoPurgeComposes(s, next, Serve(s, events), day, signal);
    }
  }

  /** In a process that found the latch, and processes after it that do, no purge follows a recorded veto. */
  lemma VetoHolds(s: Service, events: seq<Event>, day: nat, signal: DataType)
    requires Sound(s.world) && IsVetoed(s.world.db, day, signal) && !SomeDecidedToPurge(s, day, signal)
    requires s.latchKnown && ProbesFind(events)
    ensures !Purges(s, Serve(s, events), day, signal) && s.purged <= Serve(s, events).purged
  {
    RememberedVetoHolds(s, events, day, signal);
  }

  lemma NoPurgeComposes(s: Service, next: Service, last: Service, day: nat, signal: DataType)
    requires s.purged <= next.purged <= last.purged
    requires !Purges(s, next, day, signal) && !Purges(next, last, day, signal)
    ensures !Purges(s, last, day, signal)
  {
    assert last.purged == next.purged + last.purged[|next.purged|..];
    assert last.purged[|s.purged|..] == next.purged[|s.purged|..] + last.purged[|next.purged|..];
  }

  /** Some run purges, with every later probe finding the latch or with any probes at all. */
  ghost predicate PurgeCanFollow(s: Service, day: nat, signal: DataType, probesFind: bool) {
    exists events: seq<Event> :: (probesFind ==> ProbesFind(events)) && Purges(s, Serve(s, events), day, signal)
  }

  lemma TheDecidedOnePurges(s: Service, day: nat, signal: DataType, probesFind: bool)
    requires SomeDecidedToPurge(s, day, signal)
    ensures PurgeCanFollow(s, day, signal, probesFind)
  {
    var id :| InPhase(s, id, Purging) && s.inflight[id].day == day && s.inflight[id].signal == signal;
    var events := [RunPurge(id, Done)];
    assert events[1..] == [];
    assert Serve(s, events) == Handle(s, RunPurge(id, Done));
    assert Handle(s, RunPurge(id, Done)).purged[|s.purged|..] == [Terminal(day, signal)];
    assert ProbesFind(events) && Purges(s, Serve(s, events), day, signal);
  }

  /** The queue cleared, the signal delivered once more, decided and purged. */
  ghost function Redelivery(id: nat, day: nat, signal: DataType): seq<Event> {
    [ClearDeadLetters(signal), Deliver(id, day, signal), Decide(id, true, true), RunPurge(id, Done)]
  }

  /** A process without the latch, and without memory of a rejection, purges past any recorded veto. */
  lemma AProcessWithoutTheLatchPurges(s: Service, id: nat, day: nat, signal: DataType)
    requires !s.latchKnown && signal !in s.flagged && id !in s.inflight
    ensures Serve(s, Redelivery(id, day, signal)).purged == s.purged + [Terminal(day, signal)]
  {
    var events := Redelivery(id, day, signal);
    var cleared := Handle(s, events[0]);
    var delivered := Handle(cleared, events[1]);
    var decided := Handle(delivered, events[2]);
    assert delivered.inflight[id] == Delivery(day, signal, Arrived, false);
    assert InPhase(decided, id, Purging) && decided.inflight[id] == Delivery(day, signal, Purging, false);
    FourEvents(s, events[0], events[1], events[2], events[3]);
  }

  lemma OneMoreEvent(s: Service, first: Event, rest: seq<Event>)
    ensures Serve(s, [first] + rest) == Serve(Handle(s, first), rest)
  {
    assert ([first] + rest)[1..] == rest;
  }

  lemma FourEvents(s: Service, a: Event, b: Event, c: Event, d: Event)
    ensures Serve(s, [a, b, c, d]) == Handle(Handle(Handle(Handle(s, a), b), c), d)
  {
    assert [a] + [b, c, d] == [a, b, c, d] && [b] + [c, d] == [b, c, d] && [c] + [d] == [c, d] && [d] + [] == [d];
    OneMoreEvent(s, a, [b, c, d]);
    OneMoreEvent(Handle(s, a), b, [c, d]);
    OneMoreEvent(Handle(Handle(s, a), b), c, [d]);
    OneMoreEvent(Handle(Handle(Handle(s, a), b), c), d, []);
  }

  lemma {:induction false} ServeConcat(s: Service, a: seq<Event>, b: seq<Event>)
    ensures Serve(s, a + b) == Serve(Serve(s, a), b)
    decreases |a|
  {
    if a == [] {
      assert a + b == b;
    } else {
      assert (a + b)[1..] == a[1..] + b;
      ServeConcat(Handle(s, a[0]), a[1..], b);
    }
  }

  /** There is always another delivery. */
  lemma {:induction false} Bounded(used: set<nat>) returns (bound: nat)
    ensures forall u :: u in used ==> u < bound
  {
    if used == {} {
      bound := 0;
    } else {
      var u :| u in used;
      var rest := Bounded(used - {u});
      assert used == (used - {u}) + {u};
      bound := if u < rest then rest else u + 1;
    }
  }

  lemma PurgeAfter(s: Service, first: seq<Event>, id: nat, day: nat, signal: DataType)
    requires s.purged == Serve(s, first).purged && ProbesFind(first)
    requires !Serve(s, first).latchKnown && signal !in Serve(s, first).flagged && id !in Serve(s, first).inflight
    ensures PurgeCanFollow(s, day, signal, true)
  {
    var events := first + Redelivery(id, day, signal);
    ServeConcat(s, first, Redelivery(id, day, signal));
    AProcessWithoutTheLatchPurges(Serve(s, first), id, day, signal);
    assert Serve(s, events).purged[|s.purged|..] == [Terminal(day, signal)];
    assert ProbesFind(events) && Purges(s, Serve(s, events), day, signal);
  }

  /** The vetoed signal that is acknowledged spends the process's memory. */
  lemma AnAckedVetoForgets(s: Service, id: nat, day: nat, signal: DataType)
    requires !s.latchKnown && InPhase(s, id, Acking) && s.inflight[id].vetoed && s.inflight[id].signal == signal
    ensures PurgeCanFollow(s, day, signal, true)
  {
    var first := [Acknowledge(id, true)];
    assert first == [Acknowledge(id, true)] + [];
    OneMoreEvent(s, Acknowledge(id, true), []);
    PurgeAfter(s, first, id, day, signal);
  }

  /** A delivery of the flagged signal, vetoed without a record, committed and ready to be acknowledged. */
  ghost function VetoedUnrecorded(id: nat, day: nat, signal: DataType): seq<Event> {
    [Deliver(id, day, signal), Decide(id, true, true), PersistVeto(id, true), CommitSignal(id, true, 0)]
  }

  lemma ACommittedVetoReachesItsAck(s: Service, id: nat, day: nat, signal: DataType)
    requires signal in DATA_TYPES
    requires Sound(s.world) && !s.latchKnown && signal in s.flagged && id !in s.inflight && !HasUnorderable(s.world.db)
    ensures var last := Serve(s, VetoedUnrecorded(id, day, signal));
            && !last.latchKnown && last.purged == s.purged && InPhase(last, id, Acking)
            && last.inflight[id].vetoed && last.inflight[id].signal == signal
  {
    var events := VetoedUnrecorded(id, day, signal);
    var delivered := Handle(s, events[0]);
    var decided := Handle(delivered, events[1]);
    var persisted := Handle(decided, events[2]);
    assert delivered.inflight[id] == Delivery(day, signal, Arrived, false);
    assert decided.inflight[id] == Delivery(day, signal, Vetoing, true);
    assert persisted.inflight[id] == Delivery(day, signal, Recording, true) && persisted.world == s.world;
    RecordSignalKeepsInv(s.world.db, day, signal, 0);
    FourEvents(s, events[0], events[1], events[2], events[3]);
  }

  lemma ACommittedVetoForgets(s: Service, day: nat, signal: DataType)
    requires signal in DATA_TYPES
    requires Sound(s.world) && !s.latchKnown && signal in s.flagged && !HasUnorderable(s.world.db)
    ensures PurgeCanFollow(s, day, signal, true)
  {
    var id := Bounded(s.inflight.Keys);
    var first := VetoedUnrecorded(id, day, signal);
    ACommittedVetoReachesItsAck(s, id, day, signal);
    AnAckedVetoForgets(Serve(s, first), id, day, signal);
    PurgeLater(s, first, day, signal);
  }

  lemma PurgeLater(s: Service, first: seq<Event>, day: nat, signal: DataType)
    requires ProbesFind(first) && s.purged == Serve(s, first).purged && PurgeCanFollow(Serve(s, first), day, signal, true)
    ensures PurgeCanFollow(s, day, signal, true)
  {
    var rest: seq<Event> :| ProbesFind(rest) && Purges(Serve(s, first), Serve(Serve(s, first), rest), day, signal);
    ServeConcat(s, first, rest);
    assert ProbesFind(first + rest) && Purges(s, Serve(s, first + rest), day, signal);
  }

  lemma AnUnflaggedProcessForgets(s: Service, day: nat, signal: DataType)
    requires !s.latchKnown && signal !in s.flagged
    ensures PurgeCanFollow(s, day, signal, true)
  {
    var id := Bounded(s.inflight.Keys);
    PurgeAfter(s, [], id, day, signal);
  }

  /** A restart whose probe fails, then one redelivery: the recorded veto is never read. */
  lemma AFailedProbeForgetsTheVeto(s: Service, day: nat, signal: DataType)
    ensures Serve(s, [Restart(false)] + Redelivery(0, day, signal)).purged == s.purged + [Terminal(day, signal)]
    ensures PurgeCanFollow(s, day, signal, false)
  {
    var events := [Restart(false)] + Redelivery(0, day, signal);
    var restarted := Handle(s, Restart(false));
    assert events[1..] == Redelivery(0, day, signal);
    AProcessWithoutTheLatchPurges(restarted, 0, day, signal);
    assert Serve(s, events).purged[|s.purged|..] == [Terminal(day, signal)];
    assert Purges(s, Serve(s, events), day, signal);
  }

  /**
    A purge can follow a recorded veto exactly when a delivery of the same signal had already
    decided, a later process may fail to find the latch, or the present one did and its own
    memory does not hold either.
   */
  lemma VetoHoldsExactlyWhenRemembered(s: Service, day: nat, signal: DataType, probesFind: bool)
    requires signal in DATA_TYPES && Sound(s.world) && IsVetoed(s.world.db, day, signal)
    ensures PurgeCanFollow(s, day, signal, probesFind) <==>
              SomeDecidedToPurge(s, day, signal) || !probesFind || !(s.latchKnown || MemoryHolds(s, signal))
  {
    if SomeDecidedToPurge(s, day, signal) {
      TheDecidedOnePurges(s, day, signal, probesFind);
    } else if !probesFind {
      AFailedProbeForgetsTheVeto(s, day, signal);
    } else if s.latchKnown || MemoryHolds(s, signal) {
      forall events: seq<Event> | ProbesFind(events) ensures !Purges(s, Serve(s, events), day, signal) {
        RememberedVetoHolds(s, events, day, signal);
      }
    } else if signal !in s.flagged {
      AnUnflaggedProcessForgets(s, day, signal);
    } else if !HasUnorderable(s.world.db) {
      ACommittedVetoForgets(s, day, signal);
    } else {
      var id :| InPhase(s, id, Acking) && s.inflight[id].vetoed && s.inflight[id].signal == signal;
      AnAckedVetoForgets(s, id, day, signal);
    }
  }

  /** In a process that found the latch: exactly when one had decided, or a later process may fail to find it. */
  lemma VetoHoldsExactlyWhenNoneHadDecided(s: Service, day: nat, signal: DataType, probesFind: bool)
    requires Sound(s.world) && IsVetoed(s.world.db, day, signal) && s.latchKnown
    ensures PurgeCanFollow(s, day, signal, probesFind) <==> SomeDecidedToPurge(s, day, signal) || !probesFind
  {
    if SomeDecidedToPurge(s, day, signal) {
      TheDecidedOnePurges(s, day, signal, probesFind);
    } else if !probesFind {
      AFailedProbeForgetsTheVeto(s, day, signal);
    } else {
      forall events: seq<Event> | ProbesFind(events) ensures !Purges(s, Serve(s, events), day, signal) {
        VetoHolds(s, events, day, signal);
      }
    }
  }

  ghost function Fresh(): Service {
    Service(World(Db(Cursor(0, None), map[], map[]), [], None, 0, []), true, map[], {}, {}, {}, [])
  }

  /** Two copies of one signal in flight: the first decides to purge, a record is rejected, the second vetoes. */
  ghost function FirstHasDecided(): Service {
    Handle(Handle(Handle(Fresh(), Deliver(1, 20260901, Releases)), Deliver(2, 20260901, Releases)), Decide(1, true, true))
  }

  ghost function SecondHasVetoed(): Service {
    Handle(Handle(Handle(FirstHasDecided(), RejectRecord(Releases)), Decide(2, true, true)), PersistVeto(2, true))
  }

  lemma ADecidedDeliveryPurgesPastAVeto()
    ensures Starting(Fresh())
    ensures IsVetoed(SecondHasVetoed().world.db, 20260901, Releases)
    ensures Handle(SecondHasVetoed(), RunPurge(1, Done)).purged == [Terminal(20260901, Releases)]
  {
    var first := FirstHasDecided();
    assert first.inflight == map[1 := Delivery(20260901, Releases, Purging, false), 2 := Delivery(20260901, Releases, Arrived, false)];
    var second := Handle(Handle(first, RejectRecord(Releases)), Decide(2, true, true));
    assert second.inflight[1] == first.inflight[1];
    assert InPhase(second, 2, Vetoing) && second.inflight[2].day == 20260901 && second.inflight[2].signal == Releases;
    assert InPhase(SecondHasVetoed(), 1, Purging);
  }

  /** A signal vetoed and recorded by the only delivery there was. */
  ghost function OneHasVetoed(): Service {
    Handle(Handle(Handle(Handle(Fresh(), RejectRecord(Releases)), Deliver(1, 20260901, Releases)), Decide(1, true, true)), PersistVeto(1, true))
  }

  /** From the empty service: a recorded veto, nobody decided, one restart whose probe fails, and the purge runs. */
  lemma AVetoIsForgottenByAFailedProbe()
    ensures Starting(Fresh())
    ensures IsVetoed(OneHasVetoed().world.db, 20260901, Releases) && OneHasVetoed().latchKnown
    ensures !SomeDecidedToPurge(OneHasVetoed(), 20260901, Releases)
    ensures Serve(OneHasVetoed(), [Restart(false)] + Redelivery(0, 20260901, Releases)).purged == [Terminal(20260901, Releases)]
  {
    var decided := Handle(Handle(Handle(Fresh(), RejectRecord(Releases)), Deliver(1, 20260901, Releases)), Decide(1, true, true));
    assert decided.inflight == map[1 := Delivery(20260901, Releases, Vetoing, true)];
    assert OneHasVetoed().inflight == map[1 := Delivery(20260901, Releases, Recording, true)];
    AFailedProbeForgetsTheVeto(OneHasVetoed(), 20260901, Releases);
  }

  // ---- what stops a purge -----------------------------------------------------------------

  /**
    A delivery to decide is vetoed exactly when a record of its type was rejected in this process,
    its dead-letter queue could not be read or is not empty, or the latch is known and could not
    be read or records a veto; with none of these it goes on to purge.
   */
  lemma DecidesByEveryReason(s: Service, id: nat, queueReadable: bool, latchReadable: bool)
    requires id in s.inflight && s.inflight[id].phase == Arrived
    ensures var d := s.inflight[id];
            var next := Handle(s, Decide(id, queueReadable, latchReadable));
            var vetoed := || d.signal in s.flagged
                          || !queueReadable
                          || d.signal in s.waiting
                          || (s.latchKnown && !latchReadable)
                          || (s.latchKnown && Dump(d.day) in s.world.db.latches && d.signal in s.world.db.latches[Dump(d.day)].vetoed);
            && next.inflight == s.inflight[id := Delivery(d.day, d.signal, if vetoed then Vetoing else Purging, d.vetoed || vetoed)]
            && next.world == s.world && next.flagged == s.flagged && next.waiting == s.waiting && next.purged == s.purged
  {
  }

  /** Dead letters only leave the queue by being cleared. */
  lemma WaitingStays(s: Service, event: Event, signal: DataType)
    requires signal in s.waiting && event != ClearDeadLetters(signal)
    ensures signal in Handle(s, event).waiting
  {
  }

  lemma WaitingStopsDecisions(s: Service, event: Event, day: nat, signal: DataType)
    requires signal in s.waiting && event != ClearDeadLetters(signal)
    requires forall id :: id in s.inflight ==> !(s.inflight[id].phase == Purging && s.inflight[id].day == day && s.inflight[id].signal == signal)
    ensures forall id :: id in Handle(s, event).inflight ==>
              var d := Handle(s, event).inflight[id]; !(d.phase == Purging && d.day == day && d.signal == signal)
  {
  }

  lemma UndecidedDoesNotPurge(s: Service, event: Event, day: nat, signal: DataType)
    requires forall id :: id in s.inflight ==> !(s.inflight[id].phase == Purging && s.inflight[id].day == day && s.inflight[id].signal == signal)
    ensures s.purged <= Handle(s, event).purged && Terminal(day, signal) !in Handle(s, event).purged[|s.purged|..]
  {
    var next := Handle(s, event);
    if event.RunPurge? && InPhase(s, event.id, Purging) && event.outcome != Failed {
      var d := s.inflight[event.id];
      assert next.purged[|s.purged|..] == [Terminal(d.day, d.signal)];
    } else {
      assert next.purged[|s.purged|..] == [];
    }
  }

  /** While dead letters of a type wait, no run purges it unless a delivery had decided before: restarts and redeliveries included. */
  lemma {:induction false} WaitingDeadLettersHoldThePurge(s: Service, events: seq<Event>, day: nat, signal: DataType)
    requires signal in s.waiting
    requires forall id :: id in s.inflight ==> !(s.inflight[id].phase == Purging && s.inflight[id].day == day && s.inflight[id].signal == signal)
    requires forall i :: 0 <= i < |events| ==> events[i] != ClearDeadLetters(signal)
    ensures s.purged <= Serve(s, events).purged && Terminal(day, signal) !in Serve(s, events).purged[|s.purged|..]
    decreases |events|
  {
    if events == [] {
      assert s.purged[|s.purged|..] == [];
    } else {
      var next := Handle(s, events[0]);
      WaitingStays(s, events[0], signal);
      WaitingStopsDecisions(s, events[0], day, signal);
      UndecidedDoesNotPurge(s, events[0], day, signal);
      assert forall i :: 0 <= i < |events| - 1 ==> events[1..][i] == events[i + 1];
      WaitingDeadLettersHoldThePurge(next, events[1..], day, signal);
      NothingPurgedTwice(s.purged, next.purged, Serve(s, events).purged, Terminal(day, signal));
    }
  }

  lemma NothingPurgedTwice(a: seq<Terminal>, b: seq<Terminal>, c: seq<Terminal>, p: Terminal)
    requires a <= b <= c && p !in b[|a|..] && p !in c[|b|..]
    ensures p !in c[|a|..]
  {
    assert c[|a|..] == b[|a|..] + c[|b|..];
  }

  /** A rejected record is remembered until the process ends or a vetoed signal of its type is acknowledged. */
  lemma FlagIsSpentOnlyByItsVeto(s: Service, event: Event, signal: DataType)
    requires signal in s.flagged && signal !in Handle(s, event).flagged
    ensures event.Restart? || (event.Acknowledge? && event.ok && event.id in s.inflight && s.inflight[event.id].phase == Acking
                               && s.inflight[event.id].vetoed && s.inflight[event.id].signal == signal)
  {
  }

  // ---- what an acknowledgement says of the purge ------------------------------------------

  /** What a delivery past its purge decision rests on: the purge committed, or the veto is on the latch. */
  ghost predicate RestsOnItsDecision(s: Service, id: nat) {
    id in s.inflight && s.inflight[id].phase in {Recording, Acking} ==>
      var d := s.inflight[id];
      if d.vetoed then Dump(d.day) in s.world.db.latches && d.signal in s.world.db.latches[Dump(d.day)].vetoed
      else Terminal(d.day, d.signal) in s.purged
  }

  ghost predicate VetoedAsDecided(s: Service, id: nat) {
    id in s.inflight ==>
      && (s.inflight[id].phase == Vetoing ==> s.inflight[id].vetoed)
      && (s.inflight[id].phase in {Arrived, Purging} ==> !s.inflight[id].vetoed)
  }

  ghost predicate PurgedOrVetoed(s: Service) {
    && Sound(s.world) && s.latchKnown
    && (forall id: nat :: RestsOnItsDecision(s, id) && VetoedAsDecided(s, id))
    && (forall p :: p in s.acked ==>
          p in s.purged || (Dump(p.day) in s.world.db.latches && p.signal in s.world.db.latches[Dump(p.day)].vetoed))
  }

  lemma OneRests(s: Service, event: Event, id: nat)
    requires PurgedOrVetoed(s) && (event.Restart? ==> event.found)
    ensures RestsOnItsDecision(Handle(s, event), id) && VetoedAsDecided(Handle(s, event), id)
  {
    assert RestsOnItsDecision(s, id) && VetoedAsDecided(s, id);
    HandleOnWorld(s, event);
    PurgedGrows(s, event);
  }

  lemma PurgedGrows(s: Service, event: Event)
    ensures s.purged <= Handle(s, event).purged
  {
  }

  lemma PurgedOrVetoedStays(s: Service, event: Event)
    requires PurgedOrVetoed(s) && (event.Restart? ==> event.found)
    ensures PurgedOrVetoed(Handle(s, event))
  {
    var next := Handle(s, event);
    HandleOnWorld(s, event);
    PurgedGrows(s, event);
    forall id: nat ensures RestsOnItsDecision(next, id) && VetoedAsDecided(next, id) {
      OneRests(s, event, id);
    }
    forall p | p in next.acked
      ensures p in next.purged || (Dump(p.day) in next.world.db.latches && p.signal in next.world.db.latches[Dump(p.day)].vetoed)
    {
      if p !in s.acked {
        WhereAckedComesFrom(s, event, p);
        assert RestsOnItsDecision(s, event.id);
      }
    }
  }

  lemma {:induction false} ServeKeepsPurgedOrVetoed(s: Service, events: seq<Event>)
    requires PurgedOrVetoed(s) && ProbesFind(events)
    ensures PurgedOrVetoed(Serve(s, events))
    decreases |events|
  {
    if events != [] {
      PurgedOrVetoedStays(s, events[0]);
      assert forall i :: 0 <= i < |events| - 1 ==> events[1..][i] == events[i + 1];
      ServeKeepsPurgedOrVetoed(Handle(s, events[0]), events[1..]);
    }
  }

  /**
    In processes that find the latch, no signal is acknowledged unless its purge has committed or
    its veto is on the latch: a failed purge and a veto that could not be written go back.
   */
  lemma AckedIsPurgedOrVetoed(s: Service, events: seq<Event>, day: nat, signal: DataType)
    requires Starting(s) && s.latchKnown && forall i :: 0 <= i < |events| && events[i].Restart? ==> events[i].found
    requires Terminal(day, signal) in Serve(s, events).acked
    ensures var last := Serve(s, events);
            || Terminal(day, signal) in last.purged
            || (Dump(day) in last.world.db.latches && signal in last.world.db.latches[Dump(day)].vetoed)
  {
    InitialIsSound(s.world);
    assert PurgedOrVetoed(s);
    ServeKeepsPurgedOrVetoed(s, events);
  }

  // ---- counting vetoes --------------------------------------------------------------------

  /**
    `rows` newest first: the vetoing extractions before `ends`, the first that signalled the type
    without vetoing it; those that never reached the type are passed over.
   */
  method ConsecutivePurgeVetoes(rows: seq<Latch>, signal: DataType) returns (consecutive: nat, ghost ends: nat)
    ensures ends <= |rows|
    ensures forall i :: 0 <= i < ends ==> signal in rows[i].vetoed || signal !in rows[i].signals
    ensures ends < |rows| ==> signal !in rows[ends].vetoed && signal in rows[ends].signals
    ensures consecutive == |set i: nat | i < ends && signal in rows[i].vetoed|
  {
    consecutive := 0;
    var i := 0;
    ghost var vetoes: set<nat> := {};
    while i < |rows|
      invariant i <= |rows| && forall k :: 0 <= k < i ==> signal in rows[k].vetoed || signal !in rows[k].signals
      invariant vetoes == set k: nat | k < i && signal in rows[k].vetoed
      invariant consecutive == |vetoes|
    {
      if signal in rows[i].vetoed {
        vetoes := vetoes + {i};
        consecutive := consecutive + 1;
      } else if signal in rows[i].signals {
        break;
      }
      i := i + 1;
    }
    ends := i;
  }
}
