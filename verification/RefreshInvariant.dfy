/**
  The joint invariant of cursor, latches and jobs, kept by every transaction of the protocol
  whatever the clocks read, and the raises and branches it makes unreachable.
 */
module RefreshInvariant {
  import opened Wrappers
  import opened Versions
  import opened RefreshProtocol

  type Latches = map<Key, Latch>

  ghost predicate Assigned(latches: Latches, day: nat) {
    Dump(day) in latches && latches[Dump(day)].generation.Some?
  }

  ghost function GenerationOf(latches: Latches, day: nat): nat
    requires Assigned(latches, day)
  {
    latches[Dump(day)].generation.value
  }

  /** Generations number the accepted dumps in dump order, and the cursor's dump carries the last one. */
  ghost predicate GenerationsFollowVersions(cursor: Cursor, latches: Latches) {
    && (forall k :: k in latches && latches[k].generation.Some? ==> k.Dump?)
    && (forall day: nat :: Assigned(latches, day) ==> cursor.version.Some? && day <= cursor.version.value)
    && (forall a: nat, b: nat :: Assigned(latches, a) && Assigned(latches, b) && a < b ==> GenerationOf(latches, a) < GenerationOf(latches, b))
    && (cursor.version.Some? ==>
          Assigned(latches, cursor.version.value) && GenerationOf(latches, cursor.version.value) == cursor.generation)
  }

  ghost predicate Complete(latches: Latches, day: nat) {
    Dump(day) in latches && DATA_TYPES <= latches[Dump(day)].signals
  }

  ghost predicate Stamped(latches: Latches, day: nat) {
    Dump(day) in latches && latches[Dump(day)].refreshed
  }

  ghost predicate IsCurrent(cursor: Cursor, day: nat) {
    cursor.version == Some(day)
  }

  /** What rewriting one dump's row means for one dump. */
  ghost predicate MovedOnlyBy(latches: Latches, next: Latches, day: nat, latch: Latch, d: nat) {
    Assigned(next, d) ==>
      || (d == day && latch.generation.Some?)
      || (d != day && Assigned(latches, d) && GenerationOf(next, d) == GenerationOf(latches, d))
  }

  lemma AssignedAt(latches: Latches, next: Latches, day: nat, latch: Latch, d: nat)
    requires next == latches[Dump(day) := latch]
    ensures MovedOnlyBy(latches, next, day, latch, d)
  {
    if d != day {
      assert Dump(d) != Dump(day);
    }
  }

  /** Rewriting one dump's row moves no other dump's generation. */
  lemma AssignedElsewhere(latches: Latches, next: Latches, day: nat, latch: Latch)
    requires next == latches[Dump(day) := latch]
    ensures forall d: nat {:trigger Assigned(next, d)} :: MovedOnlyBy(latches, next, day, latch, d)
  {
    forall d: nat ensures MovedOnlyBy(latches, next, day, latch, d) {
      AssignedAt(latches, next, day, latch, d);
    }
  }

  ghost predicate HasActiveJob(db: Db, day: nat) {
    day in db.jobs && Active(db.jobs[day])
  }

  /** One job row against its latch and the cursor. */
  ghost predicate JobFits(cursor: Cursor, latches: Latches, day: nat, job: Job) {
    && Assigned(latches, day) && GenerationOf(latches, day) == job.generation
    && Complete(latches, day)
    && (Active(job) ==> IsCurrent(cursor, day) && !Stamped(latches, day))
    && (job.state == Completed ==> Stamped(latches, day))
    && (job.state == Superseded ==> cursor.version.Some? && day < cursor.version.value)
    && (job.state in {Pending, Retry} ==> job.nextAttempt.Some?)
    && (job.state == Leased ==> job.expiresAt.Some?)
    && job.attempts == job.epoch
  }

  ghost predicate JobsFit(db: Db) {
    forall day: nat :: day in db.jobs ==> JobFits(db.cursor, db.latches, day, db.jobs[day])
  }

  /** The dump at the cursor, complete and not yet refreshed, is owed by an active job. */
  ghost predicate NoLostObligation(db: Db) {
    db.cursor.version.Some? ==>
      var day := db.cursor.version.value;
      Complete(db.latches, day) && !Stamped(db.latches, day) ==> HasActiveJob(db, day)
  }

  ghost predicate Inv(db: Db) {
    GenerationsFollowVersions(db.cursor, db.latches) && JobsFit(db) && NoLostObligation(db)
  }

  /** Any tables the loader may be cut over on: legacy latches without generations, no job, no accepted dump. */
  ghost predicate Legacy(db: Db) {
    db.cursor == Cursor(0, None) && db.jobs == map[] && forall k :: k in db.latches ==> db.latches[k].generation.None?
  }

  lemma LegacyIsInv(db: Db)
    requires Legacy(db)
    ensures Inv(db)
  {
  }

  // ---- placing a dump at or above the cursor ----------------------------------------------

  /** Where a row at or above the cursor leaves the cursor. */
  function Placed(db: Db, day: nat): Db {
    if db.cursor.version.None? || db.cursor.version.value < day then AdvanceCursor(db, db.cursor.generation + 1, day) else db
  }

  function WithLatch(db: Db, day: nat, latch: Latch): Db {
    db.(latches := db.latches[Dump(day) := latch])
  }

  ghost predicate Extends(db: Db, day: nat, latch: Latch) {
    Assigned(db.latches, day) ==>
      db.latches[Dump(day)].refreshed == latch.refreshed && db.latches[Dump(day)].signals <= latch.signals
  }

  ghost predicate AtOrAbove(db: Db, day: nat) {
    db.cursor.version.None? || db.cursor.version.value <= day
  }

  /** The state between the latch write and the job upsert is the invariant short of that one job. */
  lemma PlacedKeepsAllButTheJob(db: Db, day: nat, latch: Latch)
    requires Inv(db) && AtOrAbove(db, day)
    requires latch.generation == Some(Placed(db, day).cursor.generation) && Extends(db, day, latch)
    ensures var s := WithLatch(Placed(db, day), day, latch);
            && GenerationsFollowVersions(s.cursor, s.latches)
            && JobsFit(s)
            && IsCurrent(s.cursor, day)
            && (day in s.jobs && !latch.refreshed ==> HasActiveJob(s, day))
            && (forall v :: v in s.jobs && s.jobs[v].generation == s.cursor.generation ==> v == day)
  {
    var s := WithLatch(Placed(db, day), day, latch);
    assert s.latches == db.latches[Dump(day) := latch];
    AssignedElsewhere(db.latches, s.latches, day, latch);
    forall d: nat | Assigned(s.latches, d) ensures d == day || (Assigned(db.latches, d) && d <= day) {
      assert d == day || Assigned(db.latches, d);
    }
    forall a: nat, b: nat | Assigned(s.latches, a) && Assigned(s.latches, b) && a < b
      ensures GenerationOf(s.latches, a) < GenerationOf(s.latches, b)
    {
      assert Assigned(db.latches, a);
      if db.cursor.version.None? || db.cursor.version.value < day {
        assert b != day ==> Assigned(db.latches, b);
        var c := db.cursor.version.value;
        assert Assigned(db.latches, c) && a <= c;
        assert GenerationOf(db.latches, a) <= GenerationOf(db.latches, c);
      } else {
        assert Assigned(db.latches, b);
      }
    }
    forall v | v in s.jobs ensures JobFits(s.cursor, s.latches, v, s.jobs[v]) {
      assert JobFits(db.cursor, db.latches, v, db.jobs[v]);
    }
    forall v | v in s.jobs && s.jobs[v].generation == s.cursor.generation ensures v == day {
      assert JobFits(s.cursor, s.latches, v, s.jobs[v]);
    }
    if day in s.jobs && !latch.refreshed {
      assert JobFits(db.cursor, db.latches, day, db.jobs[day]);
      assert IsCurrent(db.cursor, day);
    }
  }

  lemma ScheduleKeepsInv(db: Db, day: nat, latch: Latch, now: Time)
    requires Inv(db) && AtOrAbove(db, day)
    requires latch.generation == Some(Placed(db, day).cursor.generation) && Extends(db, day, latch)
    ensures var s := WithLatch(Placed(db, day), day, latch);
            if !latch.refreshed && DATA_TYPES <= latch.signals
            then var r := UpsertJob(s, day, s.cursor.generation, now);
                 r.Ok? && Inv(r.value) && HasActiveJob(r.value, day)
                 && r.value.latches == s.latches && r.value.cursor == s.cursor
            else Inv(s)
  {
    PlacedKeepsAllButTheJob(db, day, latch);
    var s := WithLatch(Placed(db, day), day, latch);
    if !latch.refreshed && DATA_TYPES <= latch.signals {
      var r := UpsertJob(s, day, s.cursor.generation, now);
      if day !in s.jobs {
        assert forall v :: v in s.jobs ==> s.jobs[v].generation != s.cursor.generation;
        forall v | v in r.value.jobs ensures JobFits(r.value.cursor, r.value.latches, v, r.value.jobs[v]) {
          assert v != day ==> JobFits(s.cursor, s.latches, v, s.jobs[v]);
        }
      }
    }
  }

  // ---- the producer's transactions --------------------------------------------------------

  /** What a transaction may do to rows already there: nothing is forgotten. */
  ghost predicate Grows(db: Db, later: Db) {
    && db.cursor.generation <= later.cursor.generation
    && (db.cursor.version.Some? ==> later.cursor.version.Some? && db.cursor.version.value <= later.cursor.version.value)
    && (forall k :: k in db.latches ==>
          && k in later.latches
          && db.latches[k].signals <= later.latches[k].signals
          && db.latches[k].vetoed <= later.latches[k].vetoed
          && (db.latches[k].refreshed ==> later.latches[k].refreshed)
          && (db.latches[k].generation.Some? ==> later.latches[k].generation == db.latches[k].generation))
    && (forall v :: v in db.jobs ==>
          && v in later.jobs
          && later.jobs[v].generation == db.jobs[v].generation
          && db.jobs[v].epoch <= later.jobs[v].epoch
          && (db.jobs[v].state in {Completed, Superseded} ==> later.jobs[v] == db.jobs[v]))
  }

  lemma GrowsTransitive(a: Db, b: Db, c: Db)
    requires Grows(a, b) && Grows(b, c)
    ensures Grows(a, c)
  {
    forall v | v in a.jobs && a.jobs[v].state in {Completed, Superseded} ensures c.jobs[v] == a.jobs[v] {
      assert b.jobs[v] == a.jobs[v];
    }
  }

  ghost predicate LatchGrows(old_: Latch, new_: Latch) {
    && old_.signals <= new_.signals && old_.vetoed <= new_.vetoed
    && (old_.refreshed ==> new_.refreshed)
    && (old_.generation.Some? ==> new_.generation == old_.generation)
  }

  lemma ScheduleGrows(db: Db, day: nat, latch: Latch, now: Time)
    requires AtOrAbove(db, day) && Inv(db)
    requires Dump(day) in db.latches ==> LatchGrows(db.latches[Dump(day)], latch)
    ensures var s := WithLatch(Placed(db, day), day, latch);
            && Grows(db, s)
            && (UpsertJob(s, day, s.cursor.generation, now).Ok? ==> Grows(db, UpsertJob(s, day, s.cursor.generation, now).value))
  {
  }

  lemma ReconcileDayKeepsInv(db: Db, day: nat, now: Time)
    requires Inv(db) && Dump(day) in db.latches && db.latches[Dump(day)].generation.None?
    ensures var r := ReconcileDay(db, day, now);
            r.Ok? && Inv(r.value) && Grows(db, r.value)
            && (Assigned(r.value.latches, day) || (r.value.cursor.version.Some? && day < r.value.cursor.version.value))
  {
    if AtOrAbove(db, day) {
      var latch := db.latches[Dump(day)].(generation := Some(Placed(db, day).cursor.generation));
      ScheduleKeepsInv(db, day, latch, now);
      ScheduleGrows(db, day, latch, now);
      var stamped := WithLatch(Placed(db, day), day, latch);
      assert ReconcileDay(db, day, now)
          == if !latch.refreshed && DATA_TYPES <= latch.signals then UpsertJob(stamped, day, stamped.cursor.generation, now) else Ok(stamped);
    }
  }

  /** A row the reconciliation leaves without a generation is fenced by a newer dump. */
  ghost predicate Fenced(db: Db, day: nat) {
    Assigned(db.latches, day) || (db.cursor.version.Some? && day < db.cursor.version.value)
  }

  lemma FencedForever(db: Db, later: Db, day: nat)
    requires Grows(db, later) && Fenced(db, day)
    ensures Fenced(later, day)
  {
  }

  lemma {:induction false} ReconcileDaysKeepsInv(db: Db, days: seq<nat>, now: Time)
    requires Inv(db) && AllLegacy(db, days) && Increasing(days)
    ensures var r := ReconcileDays(db, days, now);
            r.Ok? && Inv(r.value) && Grows(db, r.value) && forall d :: d in days ==> Fenced(r.value, d)
    decreases |days|
  {
    if days != [] {
      ReconcileDayKeepsOthers(db, days[0], now);
      ReconcileDayKeepsInv(db, days[0], now);
      var first := ReconcileDay(db, days[0], now).value;
      ReconcileDaysKeepsInv(first, days[1..], now);
      var last := ReconcileDays(first, days[1..], now).value;
      GrowsTransitive(db, first, last);
      FencedForever(first, last, days[0]);
      assert forall d :: d in days ==> d == days[0] || d in days[1..];
    }
  }

  lemma {:induction false} ReconcileDaysAddsNoLatch(db: Db, days: seq<nat>, now: Time)
    requires Inv(db) && AllLegacy(db, days) && Increasing(days)
    ensures ReconcileDays(db, days, now).Ok?
    ensures ReconcileDays(db, days, now).value.latches.Keys == db.latches.Keys
    decreases |days|
  {
    if days != [] {
      ReconcileDayKeepsOthers(db, days[0], now);
      ReconcileDayKeepsInv(db, days[0], now);
      ReconcileDaysAddsNoLatch(ReconcileDay(db, days[0], now).value, days[1..], now);
    }
  }

  /**
    The startup reconciliation: it fails only on a legacy row it cannot order, and when it
    commits, every orderable row has a generation or is older than the cursor.
   */
  lemma ReconcileKeepsInv(db: Db, now: Time)
    requires Inv(db)
    ensures Reconcile(db, now) == Err(MalformedLegacyVersion) <==> HasUnorderable(db)
    ensures Reconcile(db, now).Err? ==> Reconcile(db, now).error == MalformedLegacyVersion
    ensures Reconcile(db, now).Ok? ==>
              var r := Reconcile(db, now).value;
              Inv(r) && Grows(db, r) && forall day: nat :: Dump(day) in r.latches ==> Fenced(r, day)
  {
    if !HasUnorderable(db) {
      var days := Ascending(LegacyDays(db));
      LegacyRows(db);
      ReconcileDaysKeepsInv(db, days, now);
      ReconcileDaysAddsNoLatch(db, days, now);
      var r := Reconcile(db, now).value;
      forall day: nat | Dump(day) in r.latches ensures Fenced(r, day) {
        if db.latches[Dump(day)].generation.None? {
          AscendingIsSorted(LegacyDays(db));
          assert Dump(day) in LegacyKeys(db);
          assert day in LegacyDays(db);
        } else {
          assert Assigned(db.latches, day);
          FencedForever(db, r, day);
        }
      }
    }
  }

  /**
    Recording a signal never raises on reconciled tables: the latch cannot disagree with the
    cursor and the job insert cannot break a key. The result says what was recorded.
   */
  lemma AcceptSignalKeepsInv(db: Db, day: nat, signal: DataType, now: Time)
    requires Inv(db) && forall d: nat :: Dump(d) in db.latches ==> Fenced(db, d)
    ensures var r := AcceptSignal(db, day, signal, now);
            && r.Ok? && Inv(r.value.0) && Grows(db, r.value.0)
            && Dump(day) in r.value.0.latches && signal in r.value.0.latches[Dump(day)].signals
            && (r.value.1.scheduled ==> HasActiveJob(r.value.0, day))
            && (r.value.1.superseded <==> db.cursor.version.Some? && day < db.cursor.version.value)
            && (!r.value.1.superseded ==> IsCurrent(r.value.0.cursor, day) && r.value.1.generation == Some(r.value.0.cursor.generation))
            && (r.value.1.scheduled <==> !r.value.1.superseded && Complete(r.value.0.latches, day) && !Stamped(r.value.0.latches, day))
  {
    if AtOrAbove(db, day) {
      var placed := Placed(db, day);
      var latch := LatchUpsert(placed.latches, Dump(day), Some(placed.cursor.generation), signal);
      if Dump(day) in db.latches {
        assert Fenced(db, day);
      }
      assert latch.generation == Some(placed.cursor.generation);
      ScheduleKeepsInv(db, day, latch, now);
      ScheduleGrows(db, day, latch, now);
      AcceptPlaces(db, day, signal, latch, now);
    } else {
      StragglerKeepsInv(db, day, signal, now);
    }
  }

  lemma AcceptPlaces(db: Db, day: nat, signal: DataType, latch: Latch, now: Time)
    requires AtOrAbove(db, day)
    requires latch == LatchUpsert(Placed(db, day).latches, Dump(day), Some(Placed(db, day).cursor.generation), signal)
    requires latch.generation == Some(Placed(db, day).cursor.generation)
    ensures var s := WithLatch(Placed(db, day), day, latch);
            AcceptSignal(db, day, signal, now)
            == if !latch.refreshed && DATA_TYPES <= latch.signals then
                 var job := UpsertJob(s, day, s.cursor.generation, now);
                 if job.Err? then Err(job.error)
                 else Ok((job.value, Signal(latch.generation, latch.signals, true, false, latch.refreshed)))
               else Ok((s, Signal(latch.generation, latch.signals, false, false, latch.refreshed)))
  {
  }

  /** A signal of an older dump is recorded on its own row and moves nothing else. */
  lemma StragglerKeepsInv(db: Db, day: nat, signal: DataType, now: Time)
    requires Inv(db) && !AtOrAbove(db, day)
    ensures var r := AcceptSignal(db, day, signal, now);
            && r.Ok? && Inv(r.value.0) && Grows(db, r.value.0)
            && r.value.0.cursor == db.cursor && r.value.0.jobs == db.jobs
            && Dump(day) in r.value.0.latches && signal in r.value.0.latches[Dump(day)].signals
            && !r.value.1.scheduled && r.value.1.superseded
  {
    var s := AcceptSignal(db, day, signal, now).value.0;
    var latch := LatchUpsert(db.latches, Dump(day), None, signal);
    assert s.latches == db.latches[Dump(day) := latch];
    AssignedElsewhere(db.latches, s.latches, day, latch);
    assert forall d: nat :: Assigned(s.latches, d) ==> Assigned(db.latches, d) && GenerationOf(s.latches, d) == GenerationOf(db.latches, d);
    forall v | v in s.jobs ensures JobFits(s.cursor, s.latches, v, s.jobs[v]) {
      assert JobFits(db.cursor, db.latches, v, db.jobs[v]);
    }
  }

  lemma RecordSignalKeepsInv(db: Db, day: nat, signal: DataType, now: Time)
    requires Inv(db)
    ensures var r := RecordSignal(db, day, signal, now);
            && (r.Err? <==> signal !in DATA_TYPES || HasUnorderable(db))
            && (r.Err? ==> r.error in {UnknownType, MalformedLegacyVersion})
            && (r.Ok? ==>
                  && Inv(r.value.0) && Grows(db, r.value.0)
                  && Dump(day) in r.value.0.latches && signal in r.value.0.latches[Dump(day)].signals
                  && (r.value.1.scheduled ==> HasActiveJob(r.value.0, day))
                  && (r.value.1.scheduled <==> IsCurrent(r.value.0.cursor, day) && Complete(r.value.0.latches, day) && !Stamped(r.value.0.latches, day)))
  {
    if signal in DATA_TYPES {
      ReconcileKeepsInv(db, now);
      if !HasUnorderable(db) {
        var reconciled := Reconcile(db, now).value;
        AcceptSignalKeepsInv(reconciled, day, signal, now);
        GrowsTransitive(db, reconciled, RecordSignal(db, day, signal, now).value.0);
      }
    }
  }

  lemma RecordVetoKeepsInv(db: Db, day: nat, dataType: DataType)
    requires Inv(db)
    ensures Inv(RecordVeto(db, day, dataType)) && Grows(db, RecordVeto(db, day, dataType))
    ensures IsVetoed(RecordVeto(db, day, dataType), day, dataType)
  {
    var s := RecordVeto(db, day, dataType);
    assert forall d: nat :: Assigned(s.latches, d) ==> Assigned(db.latches, d) && GenerationOf(s.latches, d) == GenerationOf(db.latches, d);
    forall v | v in s.jobs ensures JobFits(s.cursor, s.latches, v, s.jobs[v]) {
      assert JobFits(db.cursor, db.latches, v, db.jobs[v]);
    }
    forall d | IsCurrent(s.cursor, d) && Complete(s.latches, d) && !Stamped(s.latches, d) ensures HasActiveJob(s, d) {
      assert Assigned(db.latches, d);
      assert Complete(db.latches, d);
    }
  }

  // ---- the worker's transactions ----------------------------------------------------------

  /** A job row rewritten in place, still fitting, keeps everything else. */
  lemma ReplaceJobKeepsInv(db: Db, day: nat, job: Job)
    requires Inv(db) && day in db.jobs
    requires JobFits(db.cursor, db.latches, day, job)
    requires Active(db.jobs[day]) ==> Active(job)
    ensures Inv(db.(jobs := db.jobs[day := job]))
  {
    var s := db.(jobs := db.jobs[day := job]);
    forall v | v in s.jobs ensures JobFits(s.cursor, s.latches, v, s.jobs[v]) {
      assert v != day ==> JobFits(db.cursor, db.latches, v, db.jobs[v]);
    }
  }

  /** A selected row is at the cursor, so a scan never retires: it leases or it schedules a retry. */
  lemma ClaimKeepsInv(db: Db, pick: Option<nat>, token: Token, now: Time, locked: set<nat>)
    requires Inv(db) && Selects(db, now, locked, pick)
    ensures pick.Some? ==> IsCurrent(db.cursor, pick.value) && db.jobs[pick.value].generation == db.cursor.generation
    ensures var r := ClaimDue(db, pick, token, now);
            && Inv(r.0) && Grows(db, r.0) && r.0.latches == db.latches && r.0.cursor == db.cursor
            && (r.1.Some? <==> pick.Some? && db.jobs[pick.value].state != Leased)
            && (r.1.Some? ==> HoldsLease(r.0, r.1.value) && AtCursor(r.0, r.1.value)
                              && r.1.value.epoch == db.jobs[pick.value].epoch + 1)
            && (r.1.None? && pick.Some? ==> r.0.jobs[pick.value].state == Retry)
  {
    if pick.Some? {
      var v := pick.value;
      assert JobFits(db.cursor, db.latches, v, db.jobs[v]);
      ReplaceJobKeepsInv(db, v, ClaimDue(db, pick, token, now).0.jobs[v]);
    }
  }

  lemma HeartbeatKeepsInv(db: Db, claim: Claim, now: Time)
    requires Inv(db)
    ensures var r := Heartbeat(db, claim, now);
            Inv(r.0) && Grows(db, r.0) && r.0.latches == db.latches && r.0.cursor == db.cursor
  {
    var r := Heartbeat(db, claim, now);
    if r.1 {
      assert JobFits(db.cursor, db.latches, claim.version, db.jobs[claim.version]);
      ReplaceJobKeepsInv(db, claim.version, r.0.jobs[claim.version]);
    }
  }

  /** A leased job is at the cursor, so a holder is never told it is obsolete. */
  lemma FailureKeepsInv(db: Db, claim: Claim, now: Time)
    requires Inv(db)
    requires claim.version in db.jobs ==> db.jobs[claim.version].generation == claim.generation
    ensures var s := MarkAfterFailure(db, claim, now);
            && Inv(s) && Grows(db, s) && s.latches == db.latches && s.cursor == db.cursor
            && (HoldsLease(db, claim) ==> AtCursor(db, claim) && s.jobs[claim.version].state == Retry)
  {
    if HoldsLease(db, claim) {
      assert JobFits(db.cursor, db.latches, claim.version, db.jobs[claim.version]);
      ReplaceJobKeepsInv(db, claim.version, MarkAfterFailure(db, claim, now).jobs[claim.version]);
    }
  }

  /** Behind the fence both rowcounts are one: the two raises after it cannot happen. */
  lemma CommitKeepsInv(db: Db, claim: Claim, clientNow: Time)
    requires Inv(db)
    ensures var r := CommitPass(db, claim, clientNow);
            && (r.Ok? <==> MayStart(db, claim, clientNow))
            && (r.Err? ==> r.error == LostAtCommit)
            && (r.Ok? ==>
                  && Inv(r.value) && Grows(db, r.value)
                  && !Stamped(db.latches, claim.version) && Stamped(r.value.latches, claim.version)
                  && r.value.jobs[claim.version].state == Completed && r.value.cursor == db.cursor)
  {
    if MayStart(db, claim, clientNow) {
      assert JobFits(db.cursor, db.latches, claim.version, db.jobs[claim.version]);
      var s := CommitPass(db, claim, clientNow).value;
      assert forall d: nat :: Assigned(s.latches, d) ==> Assigned(db.latches, d) && GenerationOf(s.latches, d) == GenerationOf(db.latches, d);
      forall v | v in s.jobs ensures JobFits(s.cursor, s.latches, v, s.jobs[v]) {
        assert JobFits(db.cursor, db.latches, v, db.jobs[v]);
      }
    }
  }
}
