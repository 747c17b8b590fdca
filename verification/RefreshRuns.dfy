/**
  Every run of the refresh protocol: any number of producers, workers, scanners and crashes,
  one committed transaction at a time, each reading whatever its clock says.
 */
module RefreshRuns {
  import opened Wrappers
  import opened Versions
  import opened RefreshProtocol
  import opened RefreshInvariant

  /**
    `claims` lists every claim ever handed out, oldest first, and a claim in it may be used at
    any later time by a worker that stalled, crashed or was fenced long ago. `holder` is the
    claim whose pass holds the advisory lock, `relations` the published derived relations and
    `published` the claims that committed a pass.
   */
  datatype World = World(db: Db, claims: seq<Claim>, holder: Option<nat>, relations: int, published: seq<nat>)

  datatype Step =
    | Record(day: nat, signal: DataType, now: Time)
    | Startup(now: Time)
    | Veto(day: nat, signal: DataType)
    | Scan(pick: Option<nat>, token: Token, now: Time, locked: set<nat>)
    | Beat(claim: nat, now: Time)
    | Begin(claim: nat, clientNow: Time)
    | Commit(claim: nat, clientNow: Time, computed: int)
    | Fail(claim: nat, now: Time)
    | Crash

  function Released(w: World): World {
    w.(holder := None)
  }

  ghost function Apply(w: World, step: Step): World {
    match step
    case Record(day, signal, now) =>
      var r := RecordSignal(w.db, day, signal, now);
      if r.Ok? then w.(db := r.value.0) else w
    case Startup(now) =>
      var r := Reconcile(w.db, now);
      if r.Ok? then w.(db := r.value) else w
    case Veto(day, signal) => w.(db := RecordVeto(w.db, day, signal))
    case Scan(pick, token, now, locked) =>
      if !Selects(w.db, now, locked, pick) then w
      else
        var r := ClaimDue(w.db, pick, token, now);
        w.(db := r.0, claims := if r.1.Some? then w.claims + [r.1.value] else w.claims)
    case Beat(c, now) =>
      if c < |w.claims| then w.(db := Heartbeat(w.db, w.claims[c], now).0) else w
    case Begin(c, clientNow) =>
      if c < |w.claims| && w.holder.None? && MayStart(w.db, w.claims[c], clientNow) then w.(holder := Some(c)) else w
    case Commit(c, clientNow, computed) =>
      if c < |w.claims| && w.holder == Some(c) then
        var r := CommitPass(w.db, w.claims[c], clientNow);
        if r.Err? then Released(w)
        else World(r.value, w.claims, None, computed, w.published + [c])
      else w
    case Fail(c, now) =>
      if c < |w.claims|
      then (if w.holder == Some(c) then Released(w) else w).(db := MarkAfterFailure(w.db, w.claims[c], now))
      else w
    case Crash => Released(w)
  }

  ghost function Run(w: World, steps: seq<Step>): World
    decreases |steps|
  {
    if steps == [] then w else Run(Apply(w, steps[0]), steps[1..])
  }

  ghost predicate Initial(w: World) {
    Legacy(w.db) && w.claims == [] && w.holder.None? && w.published == []
  }

  ghost predicate KnownClaim(db: Db, claim: Claim) {
    && claim.version in db.jobs
    && db.jobs[claim.version].generation == claim.generation
    && claim.epoch <= db.jobs[claim.version].epoch
  }

  ghost predicate ClaimsInOrder(claims: seq<Claim>) {
    forall i, j :: 0 <= i < j < |claims| && claims[i].version == claims[j].version ==> claims[i].epoch < claims[j].epoch
  }

  ghost predicate PublishedInOrder(w: World) {
    forall i, j :: 0 <= i < j < |w.published| && w.published[i] < |w.claims| && w.published[j] < |w.claims| ==>
      && w.claims[w.published[i]].version < w.claims[w.published[j]].version
      && w.claims[w.published[i]].generation < w.claims[w.published[j]].generation
  }

  ghost predicate PublishedIsDone(w: World) {
    forall i :: 0 <= i < |w.published| ==>
      && w.published[i] < |w.claims|
      && var v := w.claims[w.published[i]].version;
         v in w.db.jobs && w.db.jobs[v].state == Completed
  }

  ghost predicate Sound(w: World) {
    && Inv(w.db)
    && (forall i :: 0 <= i < |w.claims| ==> KnownClaim(w.db, w.claims[i]))
    && ClaimsInOrder(w.claims)
    && PublishedIsDone(w)
    && PublishedInOrder(w)
  }

  // ---- one step ---------------------------------------------------------------------------

  /** Only a scan leases; every other transaction leaves a lease as it was or ends it. */
  ghost predicate NoNewLease(db: Db, later: Db) {
    forall v :: v in later.jobs && later.jobs[v].state == Leased ==>
      v in db.jobs && db.jobs[v].state == Leased && db.jobs[v].token == later.jobs[v].token && db.jobs[v].epoch == later.jobs[v].epoch
  }

  /** Only a scan or a heartbeat moves the end of a lease. */
  ghost predicate SameLease(db: Db, later: Db) {
    forall v :: v in later.jobs && later.jobs[v].state == Leased ==>
      v in db.jobs && db.jobs[v].state == Leased && db.jobs[v].token == later.jobs[v].token && db.jobs[v].epoch == later.jobs[v].epoch
      && db.jobs[v].expiresAt == later.jobs[v].expiresAt
  }

  lemma ReconcileDayLeasesNothing(db: Db, day: nat, now: Time)
    requires Dump(day) in db.latches && db.latches[Dump(day)].generation.None?
    ensures ReconcileDay(db, day, now).Ok? ==> SameLease(db, ReconcileDay(db, day, now).value)
  {
  }

  lemma {:induction false} ReconcileDaysLeasesNothing(db: Db, days: seq<nat>, now: Time)
    requires AllLegacy(db, days) && Increasing(days)
    ensures ReconcileDays(db, days, now).Ok? ==> SameLease(db, ReconcileDays(db, days, now).value)
    decreases |days|
  {
    if days != [] {
      ReconcileDayKeepsOthers(db, days[0], now);
      ReconcileDayLeasesNothing(db, days[0], now);
      var first := ReconcileDay(db, days[0], now);
      if first.Ok? {
        ReconcileDaysLeasesNothing(first.value, days[1..], now);
      }
    }
  }

  lemma ReconcileLeasesNothing(db: Db, now: Time)
    ensures Reconcile(db, now).Ok? ==> SameLease(db, Reconcile(db, now).value)
  {
    if Reconcile(db, now).Ok? {
      LegacyRows(db);
      ReconcileDaysLeasesNothing(db, Ascending(LegacyDays(db)), now);
    }
  }

  lemma AcceptLeasesNothing(db: Db, day: nat, signal: DataType, now: Time)
    ensures AcceptSignal(db, day, signal, now).Ok? ==> SameLease(db, AcceptSignal(db, day, signal, now).value.0)
  {
  }

  lemma LeasesCompose(a: Db, b: Db, c: Db)
    requires SameLease(a, b) && SameLease(b, c)
    ensures SameLease(a, c)
  {
  }

  lemma RecordLeasesNothing(db: Db, day: nat, signal: DataType, now: Time)
    ensures RecordSignal(db, day, signal, now).Ok? ==> SameLease(db, RecordSignal(db, day, signal, now).value.0)
  {
    ReconcileLeasesNothing(db, now);
    var reconciled := Reconcile(db, now);
    if reconciled.Ok? {
      AcceptLeasesNothing(reconciled.value, day, signal, now);
      var accepted := AcceptSignal(reconciled.value, day, signal, now);
      if accepted.Ok? {
        LeasesCompose(db, reconciled.value, accepted.value.0);
      }
    }
  }

  /** What one step does to the tables: the invariant, growth, and a lease only from a scan. */
  ghost predicate TablesFit(w: World, step: Step) {
    && Inv(Apply(w, step).db) && Grows(w.db, Apply(w, step).db)
    && (!step.Scan? ==> NoNewLease(w.db, Apply(w, step).db))
    && (!step.Scan? && !step.Beat? ==> SameLease(w.db, Apply(w, step).db))
  }

  lemma RecordOnTables(w: World, step: Step)
    requires Sound(w) && step.Record?
    ensures TablesFit(w, step)
  {
    RecordSignalKeepsInv(w.db, step.day, step.signal, step.now);
    RecordLeasesNothing(w.db, step.day, step.signal, step.now);
  }

  lemma StartupOnTables(w: World, step: Step)
    requires Sound(w) && step.Startup?
    ensures TablesFit(w, step)
  {
    ReconcileKeepsInv(w.db, step.now);
    ReconcileLeasesNothing(w.db, step.now);
  }

  lemma VetoOnTables(w: World, step: Step)
    requires Sound(w) && step.Veto?
    ensures TablesFit(w, step)
  {
    RecordVetoKeepsInv(w.db, step.day, step.signal);
  }

  lemma WorkerLeasesNothing(db: Db, claim: Claim, now: Time)
    ensures NoNewLease(db, Heartbeat(db, claim, now).0)
    ensures SameLease(db, MarkAfterFailure(db, claim, now))
    ensures CommitPass(db, claim, now).Ok? ==> SameLease(db, CommitPass(db, claim, now).value)
  {
  }

  lemma UnchangedFits(w: World, step: Step)
    requires Sound(w) && Apply(w, step).db == w.db
    ensures TablesFit(w, step)
  {
  }

  lemma NewTablesFit(w: World, step: Step, r: Db)
    requires Apply(w, step).db == r && Inv(r) && Grows(w.db, r) && (if step.Beat? then NoNewLease(w.db, r) else SameLease(w.db, r))
    ensures TablesFit(w, step)
  {
  }

  lemma BeatOnTables(w: World, step: Step)
    requires Sound(w) && step.Beat?
    ensures TablesFit(w, step)
  {
    if step.claim < |w.claims| {
      HeartbeatKeepsInv(w.db, w.claims[step.claim], step.now);
      WorkerLeasesNothing(w.db, w.claims[step.claim], step.now);
      NewTablesFit(w, step, Heartbeat(w.db, w.claims[step.claim], step.now).0);
    } else {
      UnchangedFits(w, step);
    }
  }

  lemma FailOnTables(w: World, step: Step)
    requires Sound(w) && step.Fail?
    ensures TablesFit(w, step)
  {
    if step.claim < |w.claims| {
      assert KnownClaim(w.db, w.claims[step.claim]);
      FailureKeepsInv(w.db, w.claims[step.claim], step.now);
      WorkerLeasesNothing(w.db, w.claims[step.claim], step.now);
      NewTablesFit(w, step, MarkAfterFailure(w.db, w.claims[step.claim], step.now));
    } else {
      UnchangedFits(w, step);
    }
  }

  lemma CommitOnTables(w: World, step: Step)
    requires Sound(w) && step.Commit?
    ensures TablesFit(w, step)
  {
    if step.claim < |w.claims| && w.holder == Some(step.claim) && CommitPass(w.db, w.claims[step.claim], step.clientNow).Ok? {
      CommitKeepsInv(w.db, w.claims[step.claim], step.clientNow);
      WorkerLeasesNothing(w.db, w.claims[step.claim], step.clientNow);
      NewTablesFit(w, step, CommitPass(w.db, w.claims[step.claim], step.clientNow).value);
    } else {
      UnchangedFits(w, step);
    }
  }

  /** The tables of one step: the invariant, growth, and leases only from scans. */
  lemma StepOnTables(w: World, step: Step)
    requires Sound(w)
    ensures TablesFit(w, step)
  {
    match step
    case Record(_, _, _) => RecordOnTables(w, step);
    case Startup(_) => StartupOnTables(w, step);
    case Veto(_, _) => VetoOnTables(w, step);
    case Scan(_, _, _, _) => ScanOnTables(w, step);
    case Beat(_, _) => BeatOnTables(w, step);
    case Fail(_, _) => FailOnTables(w, step);
    case Commit(_, _, _) => CommitOnTables(w, step);
    case _ => UnchangedFits(w, step);
  }

  lemma ScanOnTables(w: World, step: Step)
    requires Sound(w) && step.Scan?
    ensures TablesFit(w, step)
  {
    if Selects(w.db, step.now, step.locked, step.pick) {
      ClaimKeepsInv(w.db, step.pick, step.token, step.now, step.locked);
    }
  }

  lemma ScanKnowsItsClaims(w: World, step: Step)
    requires Sound(w) && step.Scan?
    ensures forall i :: 0 <= i < |Apply(w, step).claims| ==> KnownClaim(Apply(w, step).db, Apply(w, step).claims[i])
  {
    if Selects(w.db, step.now, step.locked, step.pick) {
      ClaimKeepsInv(w.db, step.pick, step.token, step.now, step.locked);
      forall i | 0 <= i < |w.claims| ensures KnownClaim(Apply(w, step).db, w.claims[i]) {
        assert KnownClaim(w.db, w.claims[i]);
      }
    }
  }

  lemma ScanHandsOutInOrder(w: World, step: Step)
    requires Sound(w) && step.Scan?
    ensures ClaimsInOrder(Apply(w, step).claims)
  {
    if Selects(w.db, step.now, step.locked, step.pick) {
      ClaimKeepsInv(w.db, step.pick, step.token, step.now, step.locked);
      forall i | 0 <= i < |w.claims| ensures KnownClaim(w.db, w.claims[i]) {
      }
    }
  }

  lemma CommitPublishesInOrder(w: World, step: Step)
    requires Sound(w) && step.Commit? && step.claim < |w.claims| && w.holder == Some(step.claim)
    requires MayStart(w.db, w.claims[step.claim], step.clientNow)
    ensures PublishedInOrder(Apply(w, step)) && PublishedIsDone(Apply(w, step))
  {
    CommitKeepsInv(w.db, w.claims[step.claim], step.clientNow);
    CommitPublishesTheClaim(w, step);
    LastIsLatest(w, step.claim, step.clientNow);
    CommitPublishesDone(w, Apply(w, step), step.claim);
  }

  lemma CommitPublishesTheClaim(w: World, step: Step)
    requires Sound(w) && step.Commit? && step.claim < |w.claims| && w.holder == Some(step.claim)
    requires MayStart(w.db, w.claims[step.claim], step.clientNow)
    ensures var done := Apply(w, step);
            && done.claims == w.claims && done.published == w.published + [step.claim] && Grows(w.db, done.db)
            && w.claims[step.claim].version in done.db.jobs && done.db.jobs[w.claims[step.claim].version].state == Completed
  {
    CommitKeepsInv(w.db, w.claims[step.claim], step.clientNow);
  }

  lemma LastIsLatest(w: World, c: nat, clientNow: Time)
    requires Sound(w) && c < |w.claims| && MayStart(w.db, w.claims[c], clientNow)
    ensures forall i :: 0 <= i < |w.published| ==>
              && w.published[i] < |w.claims|
              && w.claims[w.published[i]].version < w.claims[c].version
              && w.claims[w.published[i]].generation < w.claims[c].generation
  {
    forall i | 0 <= i < |w.published|
      ensures w.published[i] < |w.claims|
      ensures w.claims[w.published[i]].version < w.claims[c].version
      ensures w.claims[w.published[i]].generation < w.claims[c].generation
    {
      PublishedIsEarlier(w, w.claims[w.published[i]], w.claims[c], clientNow);
    }
  }

  lemma CommitPublishesDone(w: World, done: World, c: nat)
    requires PublishedIsDone(w) && Grows(w.db, done.db) && c < |w.claims|
    requires done.claims == w.claims && done.published == w.published + [c]
    requires w.claims[c].version in done.db.jobs && done.db.jobs[w.claims[c].version].state == Completed
    ensures PublishedIsDone(done)
  {
  }

  /** A claim that may publish is of a later dump than any completed one. */
  lemma PublishedIsEarlier(w: World, earlier: Claim, claim: Claim, clientNow: Time)
    requires Inv(w.db) && KnownClaim(w.db, earlier) && KnownClaim(w.db, claim) && MayStart(w.db, claim, clientNow)
    requires w.db.jobs[earlier.version].state == Completed
    ensures earlier.version < claim.version && earlier.generation < claim.generation
  {
    assert JobFits(w.db.cursor, w.db.latches, earlier.version, w.db.jobs[earlier.version]);
    assert JobFits(w.db.cursor, w.db.latches, claim.version, w.db.jobs[claim.version]);
    assert GenerationOf(w.db.latches, earlier.version) < GenerationOf(w.db.latches, claim.version);
  }

  lemma StepKeepsSound(w: World, step: Step)
    requires Sound(w)
    ensures Sound(Apply(w, step)) && Grows(w.db, Apply(w, step).db)
    ensures w.claims <= Apply(w, step).claims && w.published <= Apply(w, step).published
  {
    StepOnTables(w, step);
    StepKeepsClaims(w, step);
    StepKeepsPublished(w, step);
  }

  lemma StepKeepsClaims(w: World, step: Step)
    requires Sound(w) && Grows(w.db, Apply(w, step).db)
    ensures ClaimsInOrder(Apply(w, step).claims) && w.claims <= Apply(w, step).claims
    ensures forall i :: 0 <= i < |Apply(w, step).claims| ==> KnownClaim(Apply(w, step).db, Apply(w, step).claims[i])
  {
    var next := Apply(w, step);
    if step.Scan? {
      ScanHandsOutInOrder(w, step);
      ScanKnowsItsClaims(w, step);
    } else {
      assert next.claims == w.claims;
      forall i | 0 <= i < |w.claims| ensures KnownClaim(next.db, w.claims[i]) {
        assert KnownClaim(w.db, w.claims[i]);
      }
    }
  }

  lemma StepKeepsPublished(w: World, step: Step)
    requires Sound(w) && Grows(w.db, Apply(w, step).db) && w.claims <= Apply(w, step).claims
    ensures PublishedInOrder(Apply(w, step)) && PublishedIsDone(Apply(w, step)) && w.published <= Apply(w, step).published
  {
    if step.Commit? && step.claim < |w.claims| && w.holder == Some(step.claim)
       && MayStart(w.db, w.claims[step.claim], step.clientNow) {
      CommitPublishesInOrder(w, step);
      CommitPublishesOne(w, step);
    } else {
      NothingPublished(w, step);
    }
  }

  lemma CommitPublishesOne(w: World, step: Step)
    requires Sound(w) && step.Commit? && step.claim < |w.claims|
    ensures w.published <= Apply(w, step).published
  {
  }

  lemma NothingPublished(w: World, step: Step)
    requires Sound(w)
    requires !(step.Commit? && step.claim < |w.claims| && w.holder == Some(step.claim)
               && MayStart(w.db, w.claims[step.claim], step.clientNow))
    ensures Apply(w, step).published == w.published
  {
    if step.Commit? && step.claim < |w.claims| {
      CommitKeepsInv(w.db, w.claims[step.claim], step.clientNow);
    }
  }

  // ---- whole runs -------------------------------------------------------------------------

  lemma {:induction false} RunKeepsSound(w: World, steps: seq<Step>)
    requires Sound(w)
    ensures Sound(Run(w, steps)) && Grows(w.db, Run(w, steps).db)
    ensures w.claims <= Run(w, steps).claims && w.published <= Run(w, steps).published
    decreases |steps|
  {
    if steps != [] {
      var next := Apply(w, steps[0]);
      StepKeepsSound(w, steps[0]);
      RunKeepsSound(next, steps[1..]);
      GrowsTransitive(w.db, next.db, Run(w, steps).db);
    }
  }

  lemma InitialIsSound(w: World)
    requires Initial(w)
    ensures Sound(w)
  {
    LegacyIsInv(w.db);
  }

  lemma ReachableIsSound(w: World, steps: seq<Step>)
    requires Initial(w)
    ensures Sound(Run(w, steps))
  {
    InitialIsSound(w);
    RunKeepsSound(w, steps);
  }

  /** At most one job is active; it is the cursor's, its dump is complete, and nothing is owed without it. */
  lemma NoObligationIsLost(w: World, steps: seq<Step>)
    requires Initial(w)
    ensures var db := Run(w, steps).db;
            forall day: nat :: HasActiveJob(db, day) <==> IsCurrent(db.cursor, day) && Complete(db.latches, day) && !Stamped(db.latches, day)
  {
    ReachableIsSound(w, steps);
    var db := Run(w, steps).db;
    forall day: nat | HasActiveJob(db, day)
      ensures IsCurrent(db.cursor, day) && Complete(db.latches, day) && !Stamped(db.latches, day)
    {
      assert JobFits(db.cursor, db.latches, day, db.jobs[day]);
    }
  }

  /** The only three ways a scheduled dump can stand later: owed, done, or fenced by a newer accepted dump. */
  ghost predicate OwedDoneOrOvertaken(db: Db, day: nat) {
    && day in db.jobs
    && match db.jobs[day].state
       case Completed => Stamped(db.latches, day)
       case Superseded => db.cursor.version.Some? && day < db.cursor.version.value
       case _ => IsCurrent(db.cursor, day) && !Stamped(db.latches, day)
  }

  lemma ScheduledIsNeverDropped(w: World, day: nat, signal: DataType, now: Time, steps: seq<Step>)
    requires Sound(w)
    requires RecordSignal(w.db, day, signal, now).Ok? && RecordSignal(w.db, day, signal, now).value.1.scheduled
    ensures OwedDoneOrOvertaken(Run(w, [Record(day, signal, now)] + steps).db, day)
  {
    var scheduled := Apply(w, Record(day, signal, now));
    RecordSignalKeepsInv(w.db, day, signal, now);
    StepKeepsSound(w, Record(day, signal, now));
    RunKeepsSound(scheduled, steps);
    assert ([Record(day, signal, now)] + steps)[1..] == steps;
    var db := Run(scheduled, steps).db;
    assert JobFits(db.cursor, db.latches, day, db.jobs[day]);
  }

  // ---- fencing ----------------------------------------------------------------------------

  /** Of the claims on one dump only the last can own the lease, whatever token it was given. */
  lemma OnlyTheLatestClaimOwns(w: World, i: nat, j: nat, clientNow: Time)
    requires Sound(w) && i < j < |w.claims| && w.claims[i].version == w.claims[j].version
    ensures w.claims[i].epoch < w.claims[j].epoch
    ensures !OwnsLease(w.db, w.claims[i], clientNow)
  {
    assert KnownClaim(w.db, w.claims[j]);
  }

  lemma LostStaysLostOneStep(w: World, i: nat, step: Step)
    requires Sound(w) && i < |w.claims| && !HoldsLease(w.db, w.claims[i])
    ensures !HoldsLease(Apply(w, step).db, w.claims[i])
    ensures forall k :: |w.published| <= k < |Apply(w, step).published| ==> Apply(w, step).published[k] != i
  {
    assert KnownClaim(w.db, w.claims[i]);
    if step.Scan? {
      LostStaysLostAtAScan(w, i, step);
    } else {
      StepOnTables(w, step);
      NoLeaseReturns(w, i, Apply(w, step).db);
      if step.Commit? {
        LostNeverPublishes(w, i, step);
      }
    }
  }

  lemma NoLeaseReturns(w: World, i: nat, later: Db)
    requires i < |w.claims| && !HoldsLease(w.db, w.claims[i]) && NoNewLease(w.db, later)
    ensures !HoldsLease(later, w.claims[i])
  {
  }

  lemma LostNeverPublishes(w: World, i: nat, step: Step)
    requires Sound(w) && i < |w.claims| && !HoldsLease(w.db, w.claims[i]) && step.Commit?
    ensures forall k :: |w.published| <= k < |Apply(w, step).published| ==> Apply(w, step).published[k] != i
  {
    if step.claim < |w.claims| {
      CommitKeepsInv(w.db, w.claims[step.claim], step.clientNow);
    }
  }

  lemma LostStaysLostAtAScan(w: World, i: nat, step: Step)
    requires Sound(w) && i < |w.claims| && !HoldsLease(w.db, w.claims[i]) && step.Scan?
    ensures !HoldsLease(Apply(w, step).db, w.claims[i]) && Apply(w, step).published == w.published
  {
    assert KnownClaim(w.db, w.claims[i]);
    if Selects(w.db, step.now, step.locked, step.pick) {
      ClaimKeepsInv(w.db, step.pick, step.token, step.now, step.locked);
    }
  }

  /** A claimant whose lease was reclaimed, retried or completed never publishes again, in any continuation. */
  lemma {:induction false} ReclaimedClaimNeverPublishes(w: World, i: nat, steps: seq<Step>)
    requires Sound(w) && i < |w.claims| && !HoldsLease(w.db, w.claims[i])
    ensures !HoldsLease(Run(w, steps).db, w.claims[i])
    ensures w.published <= Run(w, steps).published
    ensures forall k :: |w.published| <= k < |Run(w, steps).published| ==> Run(w, steps).published[k] != i
    decreases |steps|
  {
    if steps != [] {
      var next := Apply(w, steps[0]);
      StepKeepsSound(w, steps[0]);
      LostStaysLostOneStep(w, i, steps[0]);
      ReclaimedClaimNeverPublishes(next, i, steps[1..]);
      var last := Run(w, steps);
      forall k | |w.published| <= k < |last.published| ensures last.published[k] != i {
        if k < |next.published| {
          assert last.published[k] == next.published[k];
        }
      }
    }
  }

  // ---- publication ------------------------------------------------------------------------

  /**
    Publication never goes backwards: over any run the committed passes have strictly increasing
    dump versions and generations, so a version is published at most once, and each stays
    completed with its latch stamped.
   */
  lemma PublicationNeverGoesBack(w: World, steps: seq<Step>)
    requires Initial(w)
    ensures var last := Run(w, steps);
            && (forall k :: 0 <= k < |last.published| ==>
                  && last.published[k] < |last.claims|
                  && Stamped(last.db.latches, last.claims[last.published[k]].version))
            && (forall k, l :: 0 <= k < l < |last.published| ==>
                  && last.claims[last.published[k]].version < last.claims[last.published[l]].version
                  && last.claims[last.published[k]].generation < last.claims[last.published[l]].generation)
  {
    ReachableIsSound(w, steps);
    var last := Run(w, steps);
    forall k | 0 <= k < |last.published|
      ensures last.published[k] < |last.claims| && Stamped(last.db.latches, last.claims[last.published[k]].version)
    {
      var v := last.claims[last.published[k]].version;
      assert JobFits(last.db.cursor, last.db.latches, v, last.db.jobs[v]);
    }
  }

  /** A pass publishes exactly when it holds the lock, the cursor is still its own and its lease is unexpired. */
  lemma CommitPublishesExactlyUnderTheFence(w: World, c: nat, clientNow: Time, computed: int)
    requires Sound(w) && c < |w.claims|
    ensures var next := Apply(w, Commit(c, clientNow, computed));
            if w.holder == Some(c) && MayStart(w.db, w.claims[c], clientNow)
            then next.published == w.published + [c] && next.relations == computed
                 && Stamped(next.db.latches, w.claims[c].version) && !Stamped(w.db.latches, w.claims[c].version)
            else next.db == w.db && next.relations == w.relations && next.published == w.published
  {
    CommitKeepsInv(w.db, w.claims[c], clientNow);
  }

  lemma OvertakenPassChangesNothing(w: World, steps: seq<Step>, c: nat, newer: nat, clientNow: Time, computed: int)
    requires Sound(w) && c < |w.claims| && w.db.cursor.version == Some(newer) && w.claims[c].version < newer
    ensures var before := Run(w, steps);
            var after := Apply(before, Commit(c, clientNow, computed));
            after.db == before.db && after.relations == before.relations && after.published == before.published
  {
    RunKeepsSound(w, steps);
    CommitPublishesExactlyUnderTheFence(Run(w, steps), c, clientNow, computed);
  }

  // ---- redelivery -------------------------------------------------------------------------

  /** Nothing is left for a reconciliation to place. */
  ghost predicate Reconciled(db: Db) {
    !HasUnorderable(db) && forall d: nat :: Dump(d) in db.latches ==> Fenced(db, d)
  }

  lemma {:induction false} ReconcileDaysOfFencedIsIdle(db: Db, days: seq<nat>, now: Time)
    requires Inv(db) && Reconciled(db) && AllLegacy(db, days) && Increasing(days)
    ensures ReconcileDays(db, days, now) == Ok(db)
    decreases |days|
  {
    if days != [] {
      assert Fenced(db, days[0]);
      assert ReconcileDay(db, days[0], now) == Ok(db);
      ReconcileDaysOfFencedIsIdle(db, days[1..], now);
    }
  }

  lemma {:induction false} ReconcileDaysKeepsUnplaced(db: Db, days: seq<nat>, now: Time)
    requires AllLegacy(db, days) && Increasing(days)
    ensures ReconcileDays(db, days, now).Ok? ==>
              forall k :: k in ReconcileDays(db, days, now).value.latches && !k.Dump? ==>
                k in db.latches && ReconcileDays(db, days, now).value.latches[k] == db.latches[k]
    decreases |days|
  {
    if days != [] {
      ReconcileDayKeepsOthers(db, days[0], now);
      var first := ReconcileDay(db, days[0], now);
      if first.Ok? {
        ReconcileDaysKeepsUnplaced(first.value, days[1..], now);
      }
    }
  }

  function SignalOf(latch: Latch, scheduled: bool, superseded: bool): Signal {
    Signal(latch.generation, latch.signals, scheduled, superseded, latch.refreshed)
  }

  lemma AcceptTouchesOneLatch(db: Db, day: nat, signal: DataType, now: Time)
    ensures AcceptSignal(db, day, signal, now).Ok? ==>
              var (after, report) := AcceptSignal(db, day, signal, now).value;
              var superseded := db.cursor.version.Some? && day < db.cursor.version.value;
              && after.latches.Keys == db.latches.Keys + {Dump(day)}
              && (forall k :: k in db.latches && k != Dump(day) ==> after.latches[k] == db.latches[k])
              && report == SignalOf(after.latches[Dump(day)], report.scheduled, superseded)
              && after.cursor.version == if superseded then db.cursor.version else Some(day)
  {
  }

  lemma ReconciledAfterAccepting(db: Db, day: nat, signal: DataType, now: Time)
    requires Inv(db) && Reconciled(db)
    ensures AcceptSignal(db, day, signal, now).Ok? && Reconciled(AcceptSignal(db, day, signal, now).value.0)
  {
    AcceptSignalKeepsInv(db, day, signal, now);
    AcceptTouchesOneLatch(db, day, signal, now);
    var after := AcceptSignal(db, day, signal, now).value.0;
    forall k | k in LegacyKeys(after) ensures !Unorderable(k, after.latches[k]) {
      assert k != Dump(day) ==> k in LegacyKeys(db);
    }
    forall d: nat | Dump(d) in after.latches ensures Fenced(after, d) {
      if d != day {
        FencedForever(db, after, d);
      }
    }
  }

  lemma ReconcileReconciles(db: Db, now: Time)
    requires Inv(db) && Reconcile(db, now).Ok?
    ensures Inv(Reconcile(db, now).value) && Reconciled(Reconcile(db, now).value)
  {
    ReconcileKeepsInv(db, now);
    LegacyRows(db);
    ReconcileDaysKeepsUnplaced(db, Ascending(LegacyDays(db)), now);
    var reconciled := Reconcile(db, now).value;
    forall k | k in LegacyKeys(reconciled) ensures !Unorderable(k, reconciled.latches[k]) {
      if !k.Dump? {
        assert reconciled.latches[k] == db.latches[k];
        assert k in LegacyKeys(db);
      }
    }
  }

  lemma RecordAgainIsIdle(db: Db, day: nat, signal: DataType, now: Time)
    requires Inv(db) && Reconciled(db) && signal in DATA_TYPES
    requires Dump(day) in db.latches && signal in db.latches[Dump(day)].signals
    ensures RecordSignal(db, day, signal, now).Ok? && RecordSignal(db, day, signal, now).value.0 == db
  {
    LegacyRows(db);
    ReconcileDaysOfFencedIsIdle(db, Ascending(LegacyDays(db)), now);
    assert Reconcile(db, now) == Ok(db);
    var latch := db.latches[Dump(day)];
    assert latch.signals + {signal} == latch.signals;
    assert Fenced(db, day);
    assert LatchUpsert(db.latches, Dump(day), None, signal) == latch;
    assert db.latches[Dump(day) := latch] == db.latches;
    if IsCurrent(db.cursor, day) && Complete(db.latches, day) && !Stamped(db.latches, day) {
      assert HasActiveJob(db, day);
    }
  }

  /** A redelivered signal, at whatever later time, changes no row of any table. */
  lemma RedeliveryIsIdempotent(db: Db, day: nat, signal: DataType, now: Time, later: Time)
    requires Inv(db) && RecordSignal(db, day, signal, now).Ok?
    ensures var first := RecordSignal(db, day, signal, now).value;
            RecordSignal(first.0, day, signal, later) == Ok((first.0, first.1))
  {
    RecordSignalKeepsInv(db, day, signal, now);
    ReconcileReconciles(db, now);
    ReconciledAfterAccepting(Reconcile(db, now).value, day, signal, now);
    var first := RecordSignal(db, day, signal, now).value;
    RecordAgainIsIdle(first.0, day, signal, later);
    RecordSignalKeepsInv(first.0, day, signal, later);
    ReportIsTheRow(db, day, signal, now);
    ReportIsTheRow(first.0, day, signal, later);
  }

  /** What a call reports is what the tables it leaves say. */
  lemma ReportIsTheRow(db: Db, day: nat, signal: DataType, now: Time)
    requires Inv(db) && RecordSignal(db, day, signal, now).Ok?
    ensures var (after, report) := RecordSignal(db, day, signal, now).value;
            && Dump(day) in after.latches
            && report == SignalOf(after.latches[Dump(day)],
                                  IsCurrent(after.cursor, day) && Complete(after.latches, day) && !Stamped(after.latches, day),
                                  after.cursor.version.Some? && day < after.cursor.version.value)
  {
    AcceptTouchesOneLatch(Reconcile(db, now).value, day, signal, now);
    RecordSignalKeepsInv(db, day, signal, now);
  }

  // ---- recovery ---------------------------------------------------------------------------

  lemma BackoffIsBounded(attempts: nat)
    ensures 1 <= Backoff(attempts) <= 256
  {
    var exponent := if attempts <= 8 then attempts else 8;
    PowerGrows(exponent, 8);
    PowerGrows(0, exponent);
    assert Power2(8) == 256 by {
      assert Power2(4) == 16;
    }
  }

  lemma {:induction false} PowerGrows(m: nat, n: nat)
    requires m <= n
    ensures Power2(m) <= Power2(n)
    decreases n - m
  {
    if m < n {
      PowerGrows(m, n - 1);
    }
  }

  /** No lease and no retry is dated further ahead of the database clock than its constant allows. */
  ghost predicate WithinBounds(db: Db, clock: Time) {
    forall v :: v in db.jobs ==>
      && (db.jobs[v].expiresAt.Some? ==> db.jobs[v].expiresAt.value <= clock + LEASE_SECONDS)
      && (db.jobs[v].nextAttempt.Some? ==> db.jobs[v].nextAttempt.value <= clock + 256)
  }

  /** The database clock a step reads, for the steps that read it. */
  function ClockOf(step: Step): Option<Time> {
    match step
    case Record(_, _, now) => Some(now)
    case Startup(now) => Some(now)
    case Scan(_, _, now, _) => Some(now)
    case Beat(_, now) => Some(now)
    case Fail(_, now) => Some(now)
    case _ => None
  }

  ghost predicate ReadsWithin(step: Step, clock: Time) {
    ClockOf(step).Some? ==> ClockOf(step).value <= clock
  }

  lemma ReconcileDayWithinBounds(db: Db, day: nat, now: Time, clock: Time)
    requires Dump(day) in db.latches && db.latches[Dump(day)].generation.None? && WithinBounds(db, clock) && now <= clock
    ensures ReconcileDay(db, day, now).Ok? ==> WithinBounds(ReconcileDay(db, day, now).value, clock)
  {
  }

  lemma {:induction false} ReconcileDaysWithinBounds(db: Db, days: seq<nat>, now: Time, clock: Time)
    requires AllLegacy(db, days) && Increasing(days) && WithinBounds(db, clock) && now <= clock
    ensures ReconcileDays(db, days, now).Ok? ==> WithinBounds(ReconcileDays(db, days, now).value, clock)
    decreases |days|
  {
    if days != [] {
      ReconcileDayKeepsOthers(db, days[0], now);
      ReconcileDayWithinBounds(db, days[0], now, clock);
      var first := ReconcileDay(db, days[0], now);
      if first.Ok? {
        ReconcileDaysWithinBounds(first.value, days[1..], now, clock);
      }
    }
  }

  lemma AcceptWithinBounds(db: Db, day: nat, signal: DataType, now: Time, clock: Time)
    requires WithinBounds(db, clock) && now <= clock
    ensures AcceptSignal(db, day, signal, now).Ok? ==> WithinBounds(AcceptSignal(db, day, signal, now).value.0, clock)
  {
  }

  lemma RecordWithinBounds(db: Db, day: nat, signal: DataType, now: Time, clock: Time)
    requires WithinBounds(db, clock) && now <= clock
    ensures Reconcile(db, now).Ok? ==> WithinBounds(Reconcile(db, now).value, clock)
    ensures RecordSignal(db, day, signal, now).Ok? ==> WithinBounds(RecordSignal(db, day, signal, now).value.0, clock)
  {
    if Reconcile(db, now).Ok? {
      LegacyRows(db);
      ReconcileDaysWithinBounds(db, Ascending(LegacyDays(db)), now, clock);
      AcceptWithinBounds(Reconcile(db, now).value, day, signal, now, clock);
    }
  }

  lemma WorkerWithinBounds(db: Db, claim: Claim, now: Time, clock: Time)
    requires WithinBounds(db, clock)
    ensures now <= clock ==> WithinBounds(Heartbeat(db, claim, now).0, clock)
    ensures now <= clock ==> WithinBounds(MarkAfterFailure(db, claim, now), clock)
    ensures CommitPass(db, claim, now).Ok? ==> WithinBounds(CommitPass(db, claim, now).value, clock)
  {
    BackoffIsBounded(claim.attempts);
  }

  lemma ScanWithinBounds(db: Db, version: nat, token: Token, now: Time, clock: Time)
    requires WithinBounds(db, clock) && now <= clock && version in db.jobs
    ensures WithinBounds(ClaimSelected(db, version, token, now).0, clock)
  {
    BackoffIsBounded(db.jobs[version].attempts);
  }

  lemma StepWithinBounds(w: World, step: Step, clock: Time)
    requires WithinBounds(w.db, clock) && ReadsWithin(step, clock)
    ensures WithinBounds(Apply(w, step).db, clock)
  {
    match step
    case Record(day, signal, now) => RecordWithinBounds(w.db, day, signal, now, clock);
    case Startup(now) => RecordWithinBounds(w.db, 0, Artists, now, clock);
    case Scan(pick, token, now, locked) =>
      if Selects(w.db, now, locked, pick) && pick.Some? {
        ScanWithinBounds(w.db, pick.value, token, now, clock);
      }
    case Beat(c, now) =>
      if c < |w.claims| { WorkerWithinBounds(w.db, w.claims[c], now, clock); }
    case Commit(c, now, _) =>
      if c < |w.claims| { WorkerWithinBounds(w.db, w.claims[c], now, clock); }
    case Fail(c, now) =>
      if c < |w.claims| { WorkerWithinBounds(w.db, w.claims[c], now, clock); }
    case Veto(_, _) =>
    case Begin(_, _) =>
    case Crash =>
  }

  lemma {:induction false} RunWithinBounds(w: World, steps: seq<Step>, clock: Time)
    requires WithinBounds(w.db, clock) && forall s :: s in steps ==> ReadsWithin(s, clock)
    ensures WithinBounds(Run(w, steps).db, clock)
    decreases |steps|
  {
    if steps != [] {
      StepWithinBounds(w, steps[0], clock);
      RunWithinBounds(Apply(w, steps[0]), steps[1..], clock);
    }
  }

  function NextClaim(db: Db, day: nat, token: Token): Claim
    requires day in db.jobs
  {
    Claim(day, db.jobs[day].generation, token, db.jobs[day].epoch + 1, db.jobs[day].attempts + 1)
  }

  /** A job waiting for its retry is claimed by the first scan at or after it. */
  lemma SecondScan(w: World, day: nat, token: Token, now: Time)
    requires Sound(w) && HasActiveJob(w.db, day) && w.db.jobs[day].state == Retry
    requires w.db.jobs[day].nextAttempt.Some? && w.db.jobs[day].nextAttempt.value <= now
    ensures Apply(w, Scan(Some(day), token, now, {})).claims == w.claims + [NextClaim(w.db, day, token)]
  {
    OnlyActiveIsDue(w.db, day, now);
    ClaimKeepsInv(w.db, Some(day), token, now, {});
  }

  /** One scan past every bound: it takes the active job, or it ends its expired lease. */
  lemma OneScan(w: World, day: nat, token: Token, clock: Time, now: Time)
    requires Sound(w) && WithinBounds(w.db, clock) && HasActiveJob(w.db, day)
    requires now >= clock + (if w.db.jobs[day].state == Leased then LEASE_SECONDS else 256)
    ensures Selects(w.db, now, {}, Some(day))
    ensures var after := Apply(w, Scan(Some(day), token, now, {}));
            if w.db.jobs[day].state == Leased
            then after.claims == w.claims && HasActiveJob(after.db, day) && after.db.jobs[day].state == Retry
                 && after.db.jobs[day].nextAttempt == Some(now + Backoff(w.db.jobs[day].attempts))
                 && NextClaim(after.db, day, token) == NextClaim(w.db, day, token)
            else after.claims == w.claims + [NextClaim(w.db, day, token)]
  {
    OnlyActiveIsDue(w.db, day, now);
    ClaimKeepsInv(w.db, Some(day), token, now, {});
  }

  /**
    Once heartbeats stop, a job left leased is retried by the first scan 120 s later and claimed
    by the first scan 256 s after that; a job already waiting is claimed by the first.
   */
  lemma TwoScansRecover(w: World, steps: seq<Step>, clock: Time, day: nat, first: Time, second: Time, token: Token)
    requires Initial(w) && forall s :: s in steps ==> ReadsWithin(s, clock)
    requires HasActiveJob(Run(w, steps).db, day)
    requires first >= clock + (if Run(w, steps).db.jobs[day].state == Leased then LEASE_SECONDS else 256)
    requires second >= first + 256
    ensures var stuck := Run(w, steps);
            var scans := if stuck.db.jobs[day].state == Leased
                         then [Scan(Some(day), token, first, {}), Scan(Some(day), token, second, {})]
                         else [Scan(Some(day), token, first, {})];
            Run(stuck, scans).claims == stuck.claims + [NextClaim(stuck.db, day, token)]
  {
    ReachableIsSound(w, steps);
    RunWithinBounds(w, steps, clock);
    var stuck := Run(w, steps);
    var scan := Scan(Some(day), token, first, {});
    OneScan(stuck, day, token, clock, first);
    var after := Apply(stuck, scan);
    assert Run(stuck, [scan]) == after;
    if stuck.db.jobs[day].state == Leased {
      StepKeepsSound(stuck, scan);
      BackoffIsBounded(stuck.db.jobs[day].attempts);
      var again := Scan(Some(day), token, second, {});
      SecondScan(after, day, token, second);
      assert [scan, again][1..] == [again];
      assert Run(after, [again]) == Apply(after, again);
    }
  }

  lemma OnlyActiveIsDue(db: Db, day: nat, now: Time)
    requires Inv(db) && HasActiveJob(db, day)
    requires db.jobs[day].expiresAt.Some? && db.jobs[day].state == Leased ==> db.jobs[day].expiresAt.value <= now
    requires db.jobs[day].nextAttempt.Some? && db.jobs[day].state != Leased ==> db.jobs[day].nextAttempt.value <= now
    ensures DueJobs(db, now, {}) == {day} && Selects(db, now, {}, Some(day))
  {
    OnlyOneIsActive(db, day);
    assert JobFits(db.cursor, db.latches, day, db.jobs[day]);
  }

  lemma OnlyOneIsActive(db: Db, day: nat)
    requires Inv(db) && HasActiveJob(db, day)
    ensures forall v :: v in db.jobs && v != day ==> !Active(db.jobs[v])
  {
    forall v | v in db.jobs ensures v != day ==> !Active(db.jobs[v]) {
      assert JobFits(db.cursor, db.latches, v, db.jobs[v]) && JobFits(db.cursor, db.latches, day, db.jobs[day]);
    }
  }

  // ---- recovery whatever else runs --------------------------------------------------------

  /** A claim of the dump handed out since, or a dump that needs none any more. */
  ghost predicate Settled(base: World, w: World, day: nat) {
    || (exists k :: |base.claims| <= k < |w.claims| && w.claims[k].version == day)
    || !HasActiveJob(w.db, day)
  }

  /** Nothing handed out since, and any lease is still the one there was. */
  ghost predicate Stalled(base: World, w: World, day: nat) {
    && Sound(w) && w.claims == base.claims && HasActiveJob(w.db, day)
    && (w.db.jobs[day].state == Leased ==>
          && day in base.db.jobs && base.db.jobs[day].state == Leased
          && base.db.jobs[day].token == w.db.jobs[day].token && base.db.jobs[day].epoch == w.db.jobs[day].epoch
          && base.db.jobs[day].expiresAt == w.db.jobs[day].expiresAt)
  }

  /** Not a heartbeat of the claim that held the lease. */
  ghost predicate HoldersSilent(base: World, step: Step) {
    step.Beat? && step.claim < |base.claims| ==> !HoldsLease(base.db, base.claims[step.claim])
  }

  lemma InactiveForever(w: World, steps: seq<Step>, day: nat)
    requires Sound(w) && day in w.db.jobs && !Active(w.db.jobs[day])
    ensures !HasActiveJob(Run(w, steps).db, day)
  {
    RunKeepsSound(w, steps);
    assert w.db.jobs[day].state in {Completed, Superseded};
  }

  lemma SettledStays(base: World, w: World, steps: seq<Step>, day: nat)
    requires Sound(w) && Settled(base, w, day) && day in w.db.jobs
    ensures Settled(base, Run(w, steps), day)
  {
    RunKeepsSound(w, steps);
    if HasActiveJob(w.db, day) {
      var k :| |base.claims| <= k < |w.claims| && w.claims[k].version == day;
      assert Run(w, steps).claims[k] == w.claims[k];
    } else {
      InactiveForever(w, steps, day);
    }
  }

  lemma SilentBeatChangesNothing(base: World, w: World, step: Step, day: nat)
    requires Stalled(base, w, day) && step.Beat? && HoldersSilent(base, step)
    ensures Apply(w, step).db == w.db
  {
    OnlyOneIsActive(w.db, day);
    assert step.claim < |w.claims| ==> !HoldsLease(w.db, w.claims[step.claim]);
  }

  /** A scan of a stalled dump: it hands the job out, ends its lease, or finds nothing due. */
  lemma ScanOfStalled(base: World, w: World, step: Step, day: nat)
    requires Stalled(base, w, day) && step.Scan?
    ensures Settled(base, Apply(w, step), day) || Stalled(base, Apply(w, step), day)
  {
    StepKeepsSound(w, step);
    if Selects(w.db, step.now, step.locked, step.pick) && step.pick.Some? {
      ClaimKeepsInv(w.db, step.pick, step.token, step.now, step.locked);
      assert JobFits(w.db.cursor, w.db.latches, day, w.db.jobs[day]);
      assert step.pick == Some(day);
      if w.db.jobs[day].state != Leased {
        assert Apply(w, step).claims[|w.claims|].version == day;
      }
    }
  }

  lemma StepOfStalled(base: World, w: World, step: Step, day: nat)
    requires Stalled(base, w, day) && HoldersSilent(base, step)
    ensures Settled(base, Apply(w, step), day) || Stalled(base, Apply(w, step), day)
  {
    StepKeepsSound(w, step);
    if step.Scan? {
      ScanOfStalled(base, w, step, day);
    } else if step.Beat? {
      SilentBeatChangesNothing(base, w, step, day);
    } else {
      StepOnTables(w, step);
      assert Apply(w, step).claims == w.claims;
    }
  }

  lemma {:induction false} RunOfStalled(base: World, w: World, steps: seq<Step>, day: nat)
    requires Stalled(base, w, day) && forall s :: s in steps ==> HoldersSilent(base, s)
    ensures Settled(base, Run(w, steps), day) || Stalled(base, Run(w, steps), day)
    decreases |steps|
  {
    if steps != [] {
      var next := Apply(w, steps[0]);
      StepOfStalled(base, w, steps[0], day);
      StepKeepsSound(w, steps[0]);
      if Settled(base, next, day) {
        SettledStays(base, next, steps[1..], day);
      } else {
        RunOfStalled(base, next, steps[1..], day);
      }
    }
  }

  /** Past the end of its lease or the time of its retry, a scan that may lock the row moves the job on. */
  lemma DueIsPicked(w: World, day: nat, scan: Step)
    requires Sound(w) && HasActiveJob(w.db, day) && scan.Scan? && day !in scan.locked
    requires Selects(w.db, scan.now, scan.locked, scan.pick)
    requires w.db.jobs[day].state == Leased ==> w.db.jobs[day].expiresAt.Some? && w.db.jobs[day].expiresAt.value <= scan.now
    requires w.db.jobs[day].state != Leased ==> w.db.jobs[day].nextAttempt.Some? && w.db.jobs[day].nextAttempt.value <= scan.now
    ensures scan.pick == Some(day)
  {
    OnlyOneIsActive(w.db, day);
    assert day in DueJobs(w.db, scan.now, scan.locked);
    assert forall v :: v in DueJobs(w.db, scan.now, scan.locked) ==> v == day;
  }

  /** The first scan past the lease: the job is handed out, done, overtaken, or no longer leased. */
  lemma FirstScan(base: World, w: World, day: nat, scan: Step)
    requires Stalled(base, w, day) && scan.Scan? && day !in scan.locked && Selects(w.db, scan.now, scan.locked, scan.pick)
    requires w.db.jobs[day].state == Leased ==> w.db.jobs[day].expiresAt.Some? && w.db.jobs[day].expiresAt.value <= scan.now
    ensures var after := Apply(w, scan);
            Settled(base, after, day) || (Stalled(base, after, day) && after.db.jobs[day].state != Leased)
  {
    ScanOfStalled(base, w, scan, day);
    if w.db.jobs[day].state == Leased {
      DueIsPicked(w, day, scan);
      ClaimKeepsInv(w.db, scan.pick, scan.token, scan.now, scan.locked);
    }
  }

  /** The second scan: whatever is still waiting is handed out. */
  lemma LastScan(base: World, w: World, day: nat, scan: Step)
    requires Stalled(base, w, day) && w.db.jobs[day].state != Leased
    requires scan.Scan? && day !in scan.locked && Selects(w.db, scan.now, scan.locked, scan.pick)
    requires w.db.jobs[day].nextAttempt.Some? ==> w.db.jobs[day].nextAttempt.value <= scan.now
    ensures Settled(base, Apply(w, scan), day)
  {
    assert JobFits(w.db.cursor, w.db.latches, day, w.db.jobs[day]);
    DueIsPicked(w, day, scan);
    ClaimKeepsInv(w.db, scan.pick, scan.token, scan.now, scan.locked);
    assert Apply(w, scan).claims[|w.claims|].version == day;
  }

  lemma RunOne(w: World, step: Step)
    ensures Run(w, [step]) == Apply(w, step)
  {
    assert [step][1..] == [];
  }

  lemma {:induction false} RunConcat(w: World, a: seq<Step>, b: seq<Step>)
    ensures Run(w, a + b) == Run(Run(w, a), b)
    decreases |a|
  {
    if a == [] {
      assert a + b == b;
    } else {
      assert (a + b)[1..] == a[1..] + b;
      RunConcat(Apply(w, a[0]), a[1..], b);
    }
  }

  lemma StalledAtItself(w: World, day: nat)
    requires Sound(w) && HasActiveJob(w.db, day)
    ensures Stalled(w, w, day)
  {
  }

  lemma NotLeasedIsSilent(w: World, day: nat, step: Step)
    requires Sound(w) && HasActiveJob(w.db, day) && w.db.jobs[day].state != Leased
    ensures HoldersSilent(w, step)
  {
    OnlyOneIsActive(w.db, day);
  }

  lemma Rebased(base: World, middle: World, w: World, day: nat)
    requires middle.claims == base.claims && Settled(middle, w, day)
    ensures Settled(base, w, day)
  {
  }

  /** From the first scan to the second, whatever runs between. */
  lemma ThenTheSecond(middle: World, between: seq<Step>, scan: Step, day: nat, clock: Time)
    requires Sound(middle) && HasActiveJob(middle.db, day) && middle.db.jobs[day].state != Leased
    requires WithinBounds(middle.db, clock) && forall s :: s in between ==> ReadsWithin(s, clock)
    requires scan.Scan? && day !in scan.locked && scan.now >= clock + 256
    requires Selects(Run(middle, between).db, scan.now, scan.locked, scan.pick)
    ensures Settled(middle, Apply(Run(middle, between), scan), day)
  {
    StalledAtItself(middle, day);
    forall s | s in between ensures HoldersSilent(middle, s) {
      NotLeasedIsSilent(middle, day, s);
    }
    RunOfStalled(middle, middle, between, day);
    RunWithinBounds(middle, between, clock);
    RunKeepsSound(middle, between);
    var w := Run(middle, between);
    if Settled(middle, w, day) {
      RunOne(w, scan);
      SettledStays(middle, w, [scan], day);
    } else {
      LastScan(middle, w, day, scan);
    }
  }

  /** Up to the first scan, whatever runs before it. */
  lemma UpToTheFirst(stuck: World, between: seq<Step>, scan: Step, day: nat, clock: Time)
    requires Sound(stuck) && HasActiveJob(stuck.db, day) && WithinBounds(stuck.db, clock)
    requires forall s :: s in between ==> HoldersSilent(stuck, s)
    requires scan.Scan? && day !in scan.locked && scan.now >= clock + LEASE_SECONDS
    requires Selects(Run(stuck, between).db, scan.now, scan.locked, scan.pick)
    ensures var middle := Apply(Run(stuck, between), scan);
            && Sound(middle) && day in middle.db.jobs
            && (Settled(stuck, middle, day) || (Stalled(stuck, middle, day) && middle.db.jobs[day].state != Leased))
  {
    StalledAtItself(stuck, day);
    RunOfStalled(stuck, stuck, between, day);
    RunKeepsSound(stuck, between);
    var w := Run(stuck, between);
    StepKeepsSound(w, scan);
    if Settled(stuck, w, day) {
      RunOne(w, scan);
      SettledStays(stuck, w, [scan], day);
    } else {
      assert JobFits(w.db.cursor, w.db.latches, day, w.db.jobs[day]);
      FirstScan(stuck, w, day, scan);
    }
  }

  /** Handed out since, completed and stamped, or behind a newer accepted dump. */
  ghost predicate Recovered(stuck: World, last: World, day: nat) {
    || (exists k :: |stuck.claims| <= k < |last.claims| && last.claims[k].version == day)
    || (day in last.db.jobs && last.db.jobs[day].state == Completed && Stamped(last.db.latches, day))
    || (last.db.cursor.version.Some? && day < last.db.cursor.version.value)
  }

  /** The two scans with anything at all around them, from any reachable state. */
  ghost function Continued(stuck: World, before: seq<Step>, first: Step, between: seq<Step>, second: Step): World {
    Apply(Run(Apply(Run(stuck, before), first), between), second)
  }

  /**
    Once the holder's heartbeats stop, any continuation recovers the job that contains one scan
    past the lease and one 256 s past everything read before it, each free to lock the row:
    signals, vetoes, failures, commits, crashes and other scans may fall anywhere.
   */
  lemma AnyTwoScansRecover(w: World, steps: seq<Step>, clock: Time, day: nat,
                           before: seq<Step>, first: Step, between: seq<Step>, second: Step, later: Time)
    requires Initial(w) && forall s :: s in steps ==> ReadsWithin(s, clock)
    requires HasActiveJob(Run(w, steps).db, day) && clock <= later
    requires forall s :: s in before ==> HoldersSilent(Run(w, steps), s)
    requires forall s :: s in before || s in between || s == first ==> ReadsWithin(s, later)
    requires first.Scan? && day !in first.locked && first.now >= clock + LEASE_SECONDS
    requires second.Scan? && day !in second.locked && second.now >= later + 256
    requires Selects(Run(Run(w, steps), before).db, first.now, first.locked, first.pick)
    requires Selects(Run(Apply(Run(Run(w, steps), before), first), between).db, second.now, second.locked, second.pick)
    ensures Recovered(Run(w, steps), Continued(Run(w, steps), before, first, between, second), day)
  {
    ReachableIsSound(w, steps);
    RunWithinBounds(w, steps, clock);
    var stuck := Run(w, steps);
    var middle := Apply(Run(stuck, before), first);
    UpToTheFirst(stuck, before, first, day, clock);
    RunWithinBounds(stuck, before, later);
    StepWithinBounds(Run(stuck, before), first, later);
    RunKeepsSound(middle, between);
    StepKeepsSound(Run(middle, between), second);
    if Settled(stuck, middle, day) {
      SettledStays(stuck, middle, between, day);
      RunOne(Run(middle, between), second);
      SettledStays(stuck, Run(middle, between), [second], day);
    } else {
      ThenTheSecond(middle, between, second, day, later);
      Rebased(stuck, middle, Apply(Run(middle, between), second), day);
    }
    SettledIsRecovered(stuck, Continued(stuck, before, first, between, second), day);
  }

  lemma SettledIsRecovered(stuck: World, last: World, day: nat)
    requires Sound(last) && Settled(stuck, last, day) && day in last.db.jobs
    ensures Recovered(stuck, last, day)
  {
    assert JobFits(last.db.cursor, last.db.latches, day, last.db.jobs[day]);
  }
}
