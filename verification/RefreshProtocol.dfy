/**
  The durable refresh protocol as transactions on three tables: one cursor row, one latch per
  extraction, one job per scheduled dump. Every function below is one committed transaction, or
  an `Err` that stands for the raise that rolls it back.
 */
module RefreshProtocol {
  import opened Wrappers
  import opened Versions

  type Time = int
  type Token = int

  datatype DataType = Artists | Labels | Masters | Releases | Unrecognized(name: string)

  const DATA_TYPES: set<DataType> := {Artists, Labels, Masters, Releases}

  const LEASE_SECONDS: int := 120
  const MAX_BACKOFF_SECONDS: int := 300

  /** The cursor row; an absent row is inserted as generation 0 with no version before any read. */
  datatype Cursor = Cursor(generation: nat, version: Option<nat>)

  datatype Latch = Latch(generation: Option<nat>, signals: set<DataType>, refreshed: bool, vetoed: set<DataType>)

  datatype JobState = Pending | Retry | Leased | Completed | Superseded

  datatype Job = Job(
    generation: nat,
    state: JobState,
    attempts: nat,
    epoch: nat,
    nextAttempt: Option<Time>,
    token: Option<Token>,
    expiresAt: Option<Time>)

  datatype Db = Db(cursor: Cursor, latches: map<Key, Latch>, jobs: map<nat, Job>)

  /** What a claim hands to its worker; it is all the worker ever proves its ownership with. */
  datatype Claim = Claim(version: nat, generation: nat, token: Token, epoch: nat, attempts: nat)

  datatype Signal = Signal(
    generation: Option<nat>, signals: set<DataType>, scheduled: bool, superseded: bool, alreadyRefreshed: bool)

  datatype Fault =
    | UnknownType
    | MalformedLegacyVersion
    | GenerationDisagrees
    | DuplicateGeneration
    | MissingLatch
    | LostAtCommit
    | NoUnstampedLatch
    | LostClaim

  predicate Active(job: Job) {
    job.state in {Pending, Retry, Leased}
  }

  function NewJob(generation: nat, now: Time): Job {
    Job(generation, Pending, 0, 0, Some(now), None, None)
  }

  function Retired(job: Job): Job {
    job.(state := Superseded, nextAttempt := None, token := None, expiresAt := None)
  }

  function Power2(n: nat): nat {
    if n == 0 then 1 else 2 * Power2(n - 1)
  }

  function Min(a: int, b: int): int {
    if a <= b then a else b
  }

  function Backoff(attempts: nat): int {
    Min(MAX_BACKOFF_SECONDS, Power2(if attempts <= 8 then attempts else 8))
  }

  // ---- the producer's side ---------------------------------------------------------------

  function AdvanceCursor(db: Db, generation: nat, version: nat): Db {
    Db(
      Cursor(generation, Some(version)),
      db.latches,
      map v | v in db.jobs ::
        if db.jobs[v].generation < generation && Active(db.jobs[v]) then Retired(db.jobs[v]) else db.jobs[v])
  }

  /** Inserts a pending job; a present one is kept, and the table's two keys are enforced. */
  function UpsertJob(db: Db, version: nat, generation: nat, now: Time): Result<Db, Fault> {
    if version in db.jobs then Ok(db)
    else if exists v :: v in db.jobs && db.jobs[v].generation == generation then Err(DuplicateGeneration)
    else if Dump(version) !in db.latches || db.latches[Dump(version)].generation != Some(generation) then Err(MissingLatch)
    else Ok(db.(jobs := db.jobs[version := NewJob(generation, now)]))
  }

  /** The latch rows the reconciliation selects: those no generation was ever assigned to. */
  function LegacyKeys(db: Db): set<Key> {
    set k | k in db.latches && db.latches[k].generation.None?
  }

  /** Only a finished row under a key that is not eight digits may stay unordered. */
  predicate Unorderable(key: Key, latch: Latch) {
    key.BadDate? || (key.Fallback? && !latch.refreshed)
  }

  predicate HasUnorderable(db: Db) {
    exists k :: k in LegacyKeys(db) && Unorderable(k, db.latches[k])
  }

  function LegacyDays(db: Db): set<nat> {
    set k | k in LegacyKeys(db) && k.Dump? :: k.day
  }

  ghost predicate IsLeast(days: set<nat>, least: nat) {
    least in days && forall d :: d in days ==> least <= d
  }

  lemma {:induction false} LeastExists(days: set<nat>, bound: nat)
    requires bound in days
    ensures exists least :: IsLeast(days, least)
    decreases bound
  {
    if exists d :: d in days && d < bound {
      var d :| d in days && d < bound;
      LeastExists(days, d);
    } else {
      assert IsLeast(days, bound);
    }
  }

  ghost function Least(days: set<nat>): nat
    requires days != {}
  {
    var bound :| bound in days;
    LeastExists(days, bound);
    var least :| IsLeast(days, least);
    least
  }

  /** The rows in the order the query returns them. */
  ghost function Ascending(days: set<nat>): seq<nat> {
    if days == {} then [] else [Least(days)] + Ascending(days - {Least(days)})
  }

  lemma {:induction false} AscendingIsSorted(days: set<nat>)
    ensures forall d :: d in Ascending(days) <==> d in days
    ensures Increasing(Ascending(days))
  {
    if days != {} {
      var least := Least(days);
      var rest := days - {least};
      AscendingIsSorted(rest);
      assert forall d :: d in Ascending(days) <==> d == least || d in Ascending(rest);
      forall i, j | 0 <= i < j < |Ascending(days)| ensures Ascending(days)[i] < Ascending(days)[j] {
        assert Ascending(days)[j] == Ascending(rest)[j - 1];
        assert Ascending(rest)[j - 1] in Ascending(rest);
        if i > 0 {
          assert Ascending(days)[i] == Ascending(rest)[i - 1];
        }
      }
    }
  }

  /** One row of the reconciliation loop. */
  function ReconcileDay(db: Db, day: nat, now: Time): Result<Db, Fault>
    requires Dump(day) in db.latches && db.latches[Dump(day)].generation.None?
  {
    var current := db.cursor.version;
    if current.Some? && day < current.value then Ok(db)
    else
      var placed := if current.None? || current.value < day then AdvanceCursor(db, db.cursor.generation + 1, day) else db;
      var latch := placed.latches[Dump(day)];
      var stamped := placed.(latches := placed.latches[Dump(day) := latch.(generation := Some(placed.cursor.generation))]);
      if !latch.refreshed && DATA_TYPES <= latch.signals
      then UpsertJob(stamped, day, placed.cursor.generation, now)
      else Ok(stamped)
  }

  lemma ReconcileDayKeepsOthers(db: Db, day: nat, now: Time)
    requires Dump(day) in db.latches && db.latches[Dump(day)].generation.None?
    ensures var r := ReconcileDay(db, day, now);
            r.Ok? ==> r.value.latches.Keys == db.latches.Keys
                      && forall k :: k in db.latches && k != Dump(day) ==> r.value.latches[k] == db.latches[k]
  {
  }

  ghost predicate AllLegacy(db: Db, days: seq<nat>) {
    forall i :: 0 <= i < |days| ==> Dump(days[i]) in db.latches && db.latches[Dump(days[i])].generation.None?
  }

  ghost predicate Increasing(days: seq<nat>) {
    forall i, j :: 0 <= i < j < |days| ==> days[i] < days[j]
  }

  ghost function ReconcileDays(db: Db, days: seq<nat>, now: Time): Result<Db, Fault>
    requires AllLegacy(db, days) && Increasing(days)
    decreases |days|
  {
    if days == [] then Ok(db)
    else
      ReconcileDayKeepsOthers(db, days[0], now);
      var first := ReconcileDay(db, days[0], now);
      if first.Err? then first else ReconcileDays(first.value, days[1..], now)
  }

  lemma LegacyRows(db: Db)
    ensures AllLegacy(db, Ascending(LegacyDays(db))) && Increasing(Ascending(LegacyDays(db)))
  {
    var days := Ascending(LegacyDays(db));
    AscendingIsSorted(LegacyDays(db));
    forall i | 0 <= i < |days| ensures Dump(days[i]) in db.latches && db.latches[Dump(days[i])].generation.None? {
      assert days[i] in days;
    }
  }

  ghost function Reconcile(db: Db, now: Time): Result<Db, Fault> {
    if HasUnorderable(db) then Err(MalformedLegacyVersion)
    else
      LegacyRows(db);
      ReconcileDays(db, Ascending(LegacyDays(db)), now)
  }

  /** The latch upsert: a generation once assigned stays, signals are united. */
  function LatchUpsert(latches: map<Key, Latch>, key: Key, generation: Option<nat>, signal: DataType): Latch {
    if key in latches then
      var latch := latches[key];
      latch.(
        generation := if latch.generation.Some? then latch.generation else generation,
        signals := latch.signals + {signal})
    else Latch(generation, {signal}, false, {})
  }

  /** The part of the transaction after the reconciliation. */
  function AcceptSignal(db: Db, day: nat, signal: DataType, now: Time): Result<(Db, Signal), Fault> {
    var current := db.cursor.version;
    var superseded := current.Some? && day < current.value;
    var placed := if current.None? || current.value < day then AdvanceCursor(db, db.cursor.generation + 1, day) else db;
    var generation := placed.cursor.generation;
    var latch := LatchUpsert(placed.latches, Dump(day), if superseded then None else Some(generation), signal);
    var recorded := placed.(latches := placed.latches[Dump(day) := latch]);
    if !superseded && !latch.refreshed && DATA_TYPES <= latch.signals then
      if latch.generation != Some(generation) then Err(GenerationDisagrees)
      else
        var job := UpsertJob(recorded, day, generation, now);
        if job.Err? then Err(job.error)
        else Ok((job.value, Signal(latch.generation, latch.signals, true, superseded, latch.refreshed)))
    else Ok((recorded, Signal(latch.generation, latch.signals, false, superseded, latch.refreshed)))
  }

  ghost function RecordSignal(db: Db, day: nat, signal: DataType, now: Time): Result<(Db, Signal), Fault> {
    if signal !in DATA_TYPES then Err(UnknownType)
    else
      var reconciled := Reconcile(db, now);
      if reconciled.Err? then Err(reconciled.error) else AcceptSignal(reconciled.value, day, signal, now)
  }

  /** A veto can arrive before any signal, so it may create the row, with no generation. */
  function RecordVeto(db: Db, day: nat, dataType: DataType): Db {
    var key := Dump(day);
    var latch := if key in db.latches then db.latches[key] else Latch(None, {}, false, {});
    db.(latches := db.latches[key := latch.(vetoed := latch.vetoed + {dataType})])
  }

  predicate IsVetoed(db: Db, day: nat, dataType: DataType) {
    Dump(day) in db.latches && dataType in db.latches[Dump(day)].vetoed
  }

  // ---- the worker's side -----------------------------------------------------------------

  predicate LiveLease(job: Job, now: Time) {
    job.state == Leased && job.expiresAt.Some? && now < job.expiresAt.value
  }

  predicate Due(job: Job, now: Time) {
    || (job.state in {Pending, Retry} && job.nextAttempt.Some? && job.nextAttempt.value <= now)
    || (job.state == Leased && job.expiresAt.Some? && job.expiresAt.value <= now)
  }

  function DueJobs(db: Db, now: Time, locked: set<nat>): set<nat> {
    set v | v in db.jobs && Due(db.jobs[v], now) && v !in locked
  }

  predicate AnyLiveLease(db: Db, now: Time) {
    exists v :: v in db.jobs && LiveLease(db.jobs[v], now)
  }

  /** The row the scan selects: none under a live lease, else the newest generation due and not row-locked. */
  ghost predicate Selects(db: Db, now: Time, locked: set<nat>, pick: Option<nat>) {
    if AnyLiveLease(db, now) || DueJobs(db, now, locked) == {} then pick.None?
    else
      && pick.Some? && pick.value in DueJobs(db, now, locked)
      && forall v :: v in DueJobs(db, now, locked) ==> db.jobs[v].generation <= db.jobs[pick.value].generation
  }

  function RetryJob(job: Job, delay: int, now: Time): Job {
    job.(state := Retry, nextAttempt := Some(now + delay), token := None, expiresAt := None)
  }

  function LeaseJob(job: Job, token: Token, now: Time): Job {
    job.(state := Leased, nextAttempt := None, token := Some(token), epoch := job.epoch + 1,
         expiresAt := Some(now + LEASE_SECONDS), attempts := job.attempts + 1)
  }

  /** The three outcomes of a scan that selected a row. */
  function ClaimSelected(db: Db, version: nat, token: Token, now: Time): (Db, Option<Claim>)
    requires version in db.jobs
  {
    var job := db.jobs[version];
    if job.generation != db.cursor.generation then
      (db.(jobs := db.jobs[version := Retired(job)]), None)
    else if job.state == Leased then
      (db.(jobs := db.jobs[version := RetryJob(job, Backoff(job.attempts), now)]), None)
    else
      (db.(jobs := db.jobs[version := LeaseJob(job, token, now)]),
       Some(Claim(version, job.generation, token, job.epoch + 1, job.attempts + 1)))
  }

  function ClaimDue(db: Db, pick: Option<nat>, token: Token, now: Time): (Db, Option<Claim>)
    requires pick.Some? ==> pick.value in db.jobs
  {
    if pick.None? then (db, None) else ClaimSelected(db, pick.value, token, now)
  }

  predicate HoldsLease(db: Db, claim: Claim) {
    && claim.version in db.jobs
    && var job := db.jobs[claim.version];
       job.state == Leased && job.token == Some(claim.token) && job.epoch == claim.epoch
  }

  /** `clientNow` is the worker's own clock, not the database's. */
  predicate OwnsLease(db: Db, claim: Claim, clientNow: Time) {
    HoldsLease(db, claim) && db.jobs[claim.version].expiresAt.Some? && clientNow < db.jobs[claim.version].expiresAt.value
  }

  predicate AtCursor(db: Db, claim: Claim) {
    db.cursor == Cursor(claim.generation, Some(claim.version))
  }

  predicate MayStart(db: Db, claim: Claim, clientNow: Time) {
    AtCursor(db, claim) && OwnsLease(db, claim, clientNow)
  }

  /** The commit fence and the two updates behind it. */
  function CommitPass(db: Db, claim: Claim, clientNow: Time): Result<Db, Fault> {
    var key := Dump(claim.version);
    if !AtCursor(db, claim) || !OwnsLease(db, claim, clientNow) then Err(LostAtCommit)
    else if key !in db.latches || db.latches[key].generation != Some(claim.generation) || db.latches[key].refreshed
    then Err(NoUnstampedLatch)
    else if db.jobs[claim.version].generation != claim.generation then Err(LostClaim)
    else
      Ok(Db(
           db.cursor,
           db.latches[key := db.latches[key].(refreshed := true)],
           db.jobs[claim.version := db.jobs[claim.version].(state := Completed, token := None, expiresAt := None)]))
  }

  function Heartbeat(db: Db, claim: Claim, now: Time): (Db, bool) {
    if HoldsLease(db, claim) && db.jobs[claim.version].expiresAt.Some? && now < db.jobs[claim.version].expiresAt.value
    then (db.(jobs := db.jobs[claim.version := db.jobs[claim.version].(expiresAt := Some(now + LEASE_SECONDS))]), true)
    else (db, false)
  }

  function MarkAfterFailure(db: Db, claim: Claim, now: Time): Db {
    if !HoldsLease(db, claim) then db
    else
      var job := db.jobs[claim.version];
      db.(jobs := db.jobs[claim.version :=
            if AtCursor(db, claim) then RetryJob(job, Backoff(claim.attempts), now) else Retired(job)])
  }
}
