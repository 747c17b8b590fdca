/**
  What each transaction of the refresh protocol reads and writes, column by column: when it goes
  through, what its row holds afterwards, and that every other row stays.
 */
module RefreshRows {
  import opened Wrappers
  import opened Versions
  import opened RefreshProtocol
  import opened RefreshInvariant
  import opened RefreshRuns

  // ---- the two fences ---------------------------------------------------------------------

  /** A pass starts exactly under the cursor's generation and version and its own unexpired lease. */
  lemma StartReadsEveryColumn(db: Db, claim: Claim, clientNow: Time)
    ensures MayStart(db, claim, clientNow) <==>
              && db.cursor.generation == claim.generation && db.cursor.version == Some(claim.version)
              && claim.version in db.jobs
              && db.jobs[claim.version].state == Leased
              && db.jobs[claim.version].token == Some(claim.token)
              && db.jobs[claim.version].epoch == claim.epoch
              && db.jobs[claim.version].expiresAt.Some? && clientNow < db.jobs[claim.version].expiresAt.value
  {
  }

  /** A pass commits exactly under the same columns, an unstamped latch of its generation and its own job row. */
  lemma CommitReadsEveryColumn(db: Db, claim: Claim, clientNow: Time)
    ensures CommitPass(db, claim, clientNow).Ok? <==>
              && db.cursor.generation == claim.generation && db.cursor.version == Some(claim.version)
              && claim.version in db.jobs
              && db.jobs[claim.version].state == Leased
              && db.jobs[claim.version].token == Some(claim.token)
              && db.jobs[claim.version].epoch == claim.epoch
              && db.jobs[claim.version].expiresAt.Some? && clientNow < db.jobs[claim.version].expiresAt.value
              && db.jobs[claim.version].generation == claim.generation
              && Dump(claim.version) in db.latches
              && db.latches[Dump(claim.version)].generation == Some(claim.generation)
              && !db.latches[Dump(claim.version)].refreshed
  {
  }

  /** A commit stamps the one latch, completes the one job and touches nothing else. */
  lemma CommitWritesTwoRows(db: Db, claim: Claim, clientNow: Time)
    requires CommitPass(db, claim, clientNow).Ok?
    ensures var done := CommitPass(db, claim, clientNow).value;
            var latch, job := db.latches[Dump(claim.version)], db.jobs[claim.version];
            && done.cursor == db.cursor
            && done.latches == db.latches[Dump(claim.version) := Latch(latch.generation, latch.signals, true, latch.vetoed)]
            && done.jobs == db.jobs[claim.version :=
                 Job(job.generation, Completed, job.attempts, job.epoch, job.nextAttempt, None, None)]
  {
  }

  /** A lease an outage let expire neither starts nor publishes, reclaimed or not. */
  lemma ExpiredLeaseIsRefused(w: World, c: nat, clientNow: Time, computed: int, expiry: Time)
    requires c < |w.claims| && w.claims[c].version in w.db.jobs
    requires w.db.jobs[w.claims[c].version].expiresAt == Some(expiry) && expiry <= clientNow
    ensures CommitPass(w.db, w.claims[c], clientNow).Err?
    ensures Apply(w, Begin(c, clientNow)) == w
    ensures var next := Apply(w, Commit(c, clientNow, computed));
            next.db == w.db && next.relations == w.relations && next.published == w.published
  {
    CommitReadsEveryColumn(w.db, w.claims[c], clientNow);
    StartReadsEveryColumn(w.db, w.claims[c], clientNow);
  }

  // ---- scanning and claiming --------------------------------------------------------------

  /** A scan passes exactly when a lease is live or nothing unlocked is due; else it takes the newest generation due. */
  lemma ScanReadsEveryColumn(db: Db, now: Time, locked: set<nat>, pick: Option<nat>)
    requires Selects(db, now, locked, pick)
    ensures pick.None? <==>
              || (exists v :: v in db.jobs && db.jobs[v].state == Leased && db.jobs[v].expiresAt.Some? && now < db.jobs[v].expiresAt.value)
              || !(exists v :: v in db.jobs && v !in locked
                     && ((db.jobs[v].state in {Pending, Retry} && db.jobs[v].nextAttempt.Some? && db.jobs[v].nextAttempt.value <= now)
                         || (db.jobs[v].state == Leased && db.jobs[v].expiresAt.Some? && db.jobs[v].expiresAt.value <= now)))
    ensures pick.Some? ==>
              && pick.value in db.jobs && pick.value !in locked
              && ((db.jobs[pick.value].state in {Pending, Retry} && db.jobs[pick.value].nextAttempt.Some?
                   && db.jobs[pick.value].nextAttempt.value <= now)
                  || (db.jobs[pick.value].state == Leased && db.jobs[pick.value].expiresAt.Some?
                      && db.jobs[pick.value].expiresAt.value <= now))
              && forall v | v in db.jobs && v !in locked
                   && ((db.jobs[v].state in {Pending, Retry} && db.jobs[v].nextAttempt.Some? && db.jobs[v].nextAttempt.value <= now)
                       || (db.jobs[v].state == Leased && db.jobs[v].expiresAt.Some? && db.jobs[v].expiresAt.value <= now))
                 :: db.jobs[v].generation <= db.jobs[pick.value].generation
  {
    DueByColumns(db, now, locked);
    LiveByColumns(db, now);
  }

  lemma DueByColumns(db: Db, now: Time, locked: set<nat>)
    ensures forall v :: v in DueJobs(db, now, locked) <==>
              v in db.jobs && v !in locked
              && ((db.jobs[v].state in {Pending, Retry} && db.jobs[v].nextAttempt.Some? && db.jobs[v].nextAttempt.value <= now)
                  || (db.jobs[v].state == Leased && db.jobs[v].expiresAt.Some? && db.jobs[v].expiresAt.value <= now))
  {
  }

  lemma LiveByColumns(db: Db, now: Time)
    ensures AnyLiveLease(db, now) <==>
              exists v :: v in db.jobs && db.jobs[v].state == Leased && db.jobs[v].expiresAt.Some? && now < db.jobs[v].expiresAt.value
  {
    if AnyLiveLease(db, now) {
      var v :| v in db.jobs && LiveLease(db.jobs[v], now);
      assert v in db.jobs && db.jobs[v].state == Leased;
    }
    if v :| v in db.jobs && db.jobs[v].state == Leased && db.jobs[v].expiresAt.Some? && now < db.jobs[v].expiresAt.value {
      assert LiveLease(db.jobs[v], now);
    }
  }

  /**
    The picked row: superseded when its generation is not the cursor's, retried after the backoff
    when it was leased, else leased for two minutes under the next epoch to the claim handed out.
   */
  lemma ClaimWritesTheRow(db: Db, v: nat, token: Token, now: Time)
    requires v in db.jobs
    ensures var r := ClaimDue(db, Some(v), token, now);
            var job := db.jobs[v];
            && r.0.cursor == db.cursor && r.0.latches == db.latches
            && (job.generation != db.cursor.generation ==>
                  r.1 == None
                  && r.0.jobs == db.jobs[v := Job(job.generation, Superseded, job.attempts, job.epoch, None, None, None)])
            && (job.generation == db.cursor.generation && job.state == Leased ==>
                  r.1 == None
                  && r.0.jobs == db.jobs[v := Job(job.generation, Retry, job.attempts, job.epoch,
                                                  Some(now + Backoff(job.attempts)), None, None)])
            && (job.generation == db.cursor.generation && job.state != Leased ==>
                  r.1 == Some(Claim(v, job.generation, token, job.epoch + 1, job.attempts + 1))
                  && r.0.jobs == db.jobs[v := Job(job.generation, Leased, job.attempts + 1, job.epoch + 1,
                                                  None, Some(token), Some(now + 120))])
  {
  }

  /** The delay doubles with every attempt, from one second to 256. */
  lemma BackoffDoubles(attempts: nat)
    ensures Backoff(0) == 1
    ensures attempts < 8 ==> Backoff(attempts + 1) == 2 * Backoff(attempts)
    ensures attempts >= 8 ==> Backoff(attempts) == 256
  {
    assert Power2(4) == 16;
    assert Power2(8) == 256;
    if attempts < 8 {
      PowerGrows(attempts + 1, 8);
    }
  }

  // ---- heartbeats and failures ------------------------------------------------------------

  /** A heartbeat moves the end of a live lease of its own to two minutes from now, and does nothing else. */
  lemma HeartbeatWritesTheExpiry(db: Db, claim: Claim, now: Time)
    ensures var r := Heartbeat(db, claim, now);
            && (r.1 <==>
                  && claim.version in db.jobs
                  && db.jobs[claim.version].state == Leased
                  && db.jobs[claim.version].token == Some(claim.token)
                  && db.jobs[claim.version].epoch == claim.epoch
                  && db.jobs[claim.version].expiresAt.Some? && now < db.jobs[claim.version].expiresAt.value)
            && (!r.1 ==> r.0 == db)
            && (r.1 ==>
                  var job := db.jobs[claim.version];
                  r.0 == Db(db.cursor, db.latches,
                            db.jobs[claim.version := Job(job.generation, Leased, job.attempts, job.epoch, job.nextAttempt,
                                                         job.token, Some(now + 120))]))
  {
  }

  /** A failed pass that still holds its lease is retried under the cursor it ran for, superseded under another. */
  lemma FailureWritesTheRow(db: Db, claim: Claim, now: Time)
    ensures var after := MarkAfterFailure(db, claim, now);
            if && claim.version in db.jobs
               && db.jobs[claim.version].state == Leased
               && db.jobs[claim.version].token == Some(claim.token)
               && db.jobs[claim.version].epoch == claim.epoch
            then
              var job := db.jobs[claim.version];
              after == Db(db.cursor, db.latches,
                          db.jobs[claim.version :=
                            if db.cursor.generation == claim.generation && db.cursor.version == Some(claim.version)
                            then Job(job.generation, Retry, job.attempts, job.epoch, Some(now + Backoff(claim.attempts)), None, None)
                            else Job(job.generation, Superseded, job.attempts, job.epoch, None, None, None)])
            else after == db
  {
  }

  // ---- the producer -----------------------------------------------------------------------

  /** Moving the cursor supersedes every active job of an older generation. */
  lemma AdvanceWritesRows(db: Db, generation: nat, version: nat)
    ensures var after := AdvanceCursor(db, generation, version);
            && after.cursor.generation == generation && after.cursor.version == Some(version)
            && after.latches == db.latches && after.jobs.Keys == db.jobs.Keys
            && forall v :: v in db.jobs ==>
                 var job := db.jobs[v];
                 after.jobs[v] == if job.generation < generation && job.state in {Pending, Retry, Leased}
                                  then Job(job.generation, Superseded, job.attempts, job.epoch, None, None, None)
                                  else job
  {
  }

  /** A new job is due at once, under no attempt, epoch or lease. */
  lemma ScheduleWritesTheRow(db: Db, version: nat, generation: nat, now: Time)
    ensures var r := UpsertJob(db, version, generation, now);
            && (version in db.jobs ==> r == Ok(db))
            && (version !in db.jobs && r.Ok? ==>
                  r.value == Db(db.cursor, db.latches, db.jobs[version := Job(generation, Pending, 0, 0, Some(now), None, None)]))
  {
  }

  /** A veto adds its type to the dump's latch row, new or not, and is read back from there. */
  lemma VetoWritesTheRow(db: Db, day: nat, signal: DataType)
    ensures var after := RecordVeto(db, day, signal);
            var latch := if Dump(day) in db.latches then db.latches[Dump(day)] else Latch(None, {}, false, {});
            after == Db(db.cursor,
                        db.latches[Dump(day) := Latch(latch.generation, latch.signals, latch.refreshed, latch.vetoed + {signal})],
                        db.jobs)
    ensures IsVetoed(db, day, signal) <==> Dump(day) in db.latches && signal in db.latches[Dump(day)].vetoed
  {
  }

  /** The reconciliation refuses exactly an unplaced row under eight digits that are no date, or an unfinished one under anything else. */
  lemma ReconcileRefusesByKey(db: Db, now: Time)
    requires Inv(db)
    ensures Reconcile(db, now).Err? <==>
              exists k :: k in db.latches && db.latches[k].generation.None?
                          && (k.BadDate? || (k.Fallback? && !db.latches[k].refreshed))
  {
    ReconcileKeepsInv(db, now);
    if HasUnorderable(db) {
      var k :| k in LegacyKeys(db) && Unorderable(k, db.latches[k]);
      assert k in db.latches && db.latches[k].generation.None?;
    }
    if k :| k in db.latches && db.latches[k].generation.None? && (k.BadDate? || (k.Fallback? && !db.latches[k].refreshed)) {
      assert k in LegacyKeys(db) && Unorderable(k, db.latches[k]);
    }
  }

  /** Signals, stamps and vetoes, whatever becomes of generations. */
  ghost predicate SameColumns(a: map<Key, Latch>, b: map<Key, Latch>) {
    a.Keys == b.Keys
    && forall k :: k in a ==> a[k].signals == b[k].signals && a[k].refreshed == b[k].refreshed && a[k].vetoed == b[k].vetoed
  }

  lemma {:induction false} PlacingKeepsColumns(db: Db, days: seq<nat>, now: Time)
    requires AllLegacy(db, days) && Increasing(days) && ReconcileDays(db, days, now).Ok?
    ensures SameColumns(db.latches, ReconcileDays(db, days, now).value.latches)
    decreases |days|
  {
    if days != [] {
      ReconcileDayKeepsOthers(db, days[0], now);
      OnePlacedKeepsColumns(db, days[0], now);
      PlacingKeepsColumns(ReconcileDay(db, days[0], now).value, days[1..], now);
    }
  }

  lemma OnePlacedKeepsColumns(db: Db, day: nat, now: Time)
    requires Dump(day) in db.latches && db.latches[Dump(day)].generation.None? && ReconcileDay(db, day, now).Ok?
    ensures SameColumns(db.latches, ReconcileDay(db, day, now).value.latches)
  {
  }

  lemma ReconcileKeepsColumns(db: Db, now: Time)
    requires Reconcile(db, now).Ok?
    ensures SameColumns(db.latches, Reconcile(db, now).value.latches)
  {
    LegacyRows(db);
    PlacingKeepsColumns(db, Ascending(LegacyDays(db)), now);
  }

  /** Recording a signal adds it to its dump's row, new or not; no other row's signals, and no stamp or veto, change. */
  lemma RecordingWritesOneSignal(db: Db, day: nat, signal: DataType, now: Time)
    requires RecordSignal(db, day, signal, now).Ok?
    ensures var after := RecordSignal(db, day, signal, now).value.0.latches;
            && after.Keys == db.latches.Keys + {Dump(day)}
            && (Dump(day) !in db.latches ==>
                  after[Dump(day)].signals == {signal} && !after[Dump(day)].refreshed && after[Dump(day)].vetoed == {})
            && forall k :: k in db.latches ==>
                 && after[k].signals == db.latches[k].signals + (if k == Dump(day) then {signal} else {})
                 && after[k].refreshed == db.latches[k].refreshed && after[k].vetoed == db.latches[k].vetoed
  {
    ReconcileKeepsColumns(db, now);
    AcceptWritesOneSignal(Reconcile(db, now).value, day, signal, now);
  }

  lemma AcceptWritesOneSignal(db: Db, day: nat, signal: DataType, now: Time)
    requires AcceptSignal(db, day, signal, now).Ok?
    ensures var after := AcceptSignal(db, day, signal, now).value.0.latches;
            && after.Keys == db.latches.Keys + {Dump(day)}
            && (Dump(day) !in db.latches ==>
                  after[Dump(day)].signals == {signal} && !after[Dump(day)].refreshed && after[Dump(day)].vetoed == {})
            && forall k :: k in db.latches ==>
                 && after[k].signals == db.latches[k].signals + (if k == Dump(day) then {signal} else {})
                 && after[k].refreshed == db.latches[k].refreshed && after[k].vetoed == db.latches[k].vetoed
  {
    AcceptTouchesOneLatch(db, day, signal, now);
  }

  /** A scheduled dump's job that was not there before is due at once. */
  lemma RecordingSchedulesAtOnce(db: Db, day: nat, signal: DataType, now: Time)
    requires Inv(db) && RecordSignal(db, day, signal, now).Ok? && RecordSignal(db, day, signal, now).value.1.scheduled
    requires Reconcile(db, now).Ok? && day !in Reconcile(db, now).value.jobs
    ensures var r := RecordSignal(db, day, signal, now).value;
            day in r.0.jobs && r.0.jobs[day] == Job(r.0.cursor.generation, Pending, 0, 0, Some(now), None, None)
  {
  }
}
