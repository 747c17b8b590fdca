/**
  The protocol as the loader runs it: statements that update the three tables in place, each
  public method one transaction that keeps its work or restores every row.
 */
module RefreshStore {
  import opened Wrappers
  import opened Versions
  import opened RefreshProtocol
  import opened RefreshInvariant

  datatype Refused = BadVersion(why: VersionError) | Raised(fault: Fault)

  class Store {
    var cursor: Cursor
    var latches: map<Key, Latch>
    var jobs: map<nat, Job>

    ghost function Tables(): Db
      reads this
    {
      Db(cursor, latches, jobs)
    }

    /** The tables a cut-over finds: whatever latches the inline writer left. */
    constructor (legacy: map<Key, Latch>)
      requires forall k :: k in legacy ==> legacy[k].generation.None?
      ensures Tables() == Db(Cursor(0, None), legacy, map[]) && Inv(Tables())
    {
      cursor := Cursor(0, None);
      latches := legacy;
      jobs := map[];
    }

    method MoveCursor(generation: nat, version: nat)
      modifies this`cursor, this`jobs
      ensures Tables() == AdvanceCursor(old(Tables()), generation, version)
    {
      cursor := Cursor(generation, Some(version));
      jobs := map v | v in jobs ::
        if jobs[v].generation < generation && Active(jobs[v]) then Retired(jobs[v]) else jobs[v];
    }

    method InsertJob(version: nat, generation: nat, now: Time) returns (fault: Option<Fault>)
      modifies this`jobs
      ensures match UpsertJob(old(Tables()), version, generation, now)
              case Ok(after) => fault.None? && Tables() == after
              case Err(why) => fault == Some(why) && Tables() == old(Tables())
    {
      fault := None;
      if version !in jobs {
        if exists v :: v in jobs && jobs[v].generation == generation {
          fault := Some(DuplicateGeneration);
        } else if Dump(version) !in latches || latches[Dump(version)].generation != Some(generation) {
          fault := Some(MissingLatch);
        } else {
          jobs := jobs[version := NewJob(generation, now)];
        }
      }
    }

    /** The legacy rows in version order. */
    method SelectLegacy() returns (days: seq<nat>)
      ensures days == Ascending(LegacyDays(Tables()))
    {
      days := [];
      var rest := set k | k in latches && latches[k].generation.None? && k.Dump? :: k.day;
      assert rest == LegacyDays(Tables());
      while rest != {}
        invariant days + Ascending(rest) == Ascending(LegacyDays(Tables()))
        decreases |rest|
      {
        ghost var bound :| bound in rest;
        LeastExists(rest, bound);
        assert exists least :: least in rest && forall d :: d in rest ==> least <= d by {
          var least :| IsLeast(rest, least);
        }
        var least :| least in rest && forall d :: d in rest ==> least <= d;
        assert IsLeast(rest, least) && least == Least(rest);
        assert days + ([least] + Ascending(rest - {least})) == (days + [least]) + Ascending(rest - {least});
        days := days + [least];
        rest := rest - {least};
      }
    }

    /** One row of the reconciliation loop. */
    method PlaceLegacy(day: nat, now: Time) returns (fault: Option<Fault>)
      requires Dump(day) in latches && latches[Dump(day)].generation.None?
      modifies this
      ensures match ReconcileDay(old(Tables()), day, now)
              case Ok(after) => fault.None? && Tables() == after
              case Err(why) => fault == Some(why)
    {
      fault := None;
      if cursor.version.Some? && day < cursor.version.value {
        return;
      }
      if cursor.version.None? || cursor.version.value < day {
        MoveCursor(cursor.generation + 1, day);
      }
      var latch := latches[Dump(day)];
      latches := latches[Dump(day) := latch.(generation := Some(cursor.generation))];
      if !latch.refreshed && DATA_TYPES <= latch.signals {
        fault := InsertJob(day, cursor.generation, now);
      }
    }

    /** The reconciliation inside its caller's transaction; after a fault the caller rolls back. */
    method ReconcileLegacy(now: Time) returns (fault: Option<Fault>)
      modifies this
      ensures match Reconcile(old(Tables()), now)
              case Ok(after) => fault.None? && Tables() == after
              case Err(why) => fault == Some(why)
    {
      fault := None;
      if exists k :: k in latches && latches[k].generation.None? && Unorderable(k, latches[k]) {
        assert exists k :: k in LegacyKeys(Tables()) && Unorderable(k, latches[k]);
        return Some(MalformedLegacyVersion);
      }
      assert !HasUnorderable(Tables());
      var days := SelectLegacy();
      LegacyRows(Tables());
      var i := 0;
      while i < |days|
        invariant i <= |days| && fault.None?
        invariant AllLegacy(Tables(), days[i..]) && Increasing(days[i..])
        invariant ReconcileDays(Tables(), days[i..], now) == Reconcile(old(Tables()), now)
      {
        ghost var remaining := days[i..];
        assert remaining[0] == days[i] && remaining[1..] == days[i + 1..];
        ReconcileDayKeepsOthers(Tables(), days[i], now);
        fault := PlaceLegacy(days[i], now);
        if fault.Some? {
          return;
        }
        i := i + 1;
      }
    }

    method ReconcileLegacyLatches(now: Time) returns (fault: Option<Fault>)
      modifies this
      ensures match Reconcile(old(Tables()), now)
              case Ok(after) => fault.None? && Tables() == after
              case Err(why) => fault == Some(why) && Tables() == old(Tables())
      ensures old(Inv(Tables())) ==> Inv(Tables()) && (fault.None? <==> !old(HasUnorderable(Tables())))
    {
      var c, l, j := cursor, latches, jobs;
      fault := ReconcileLegacy(now);
      if fault.Some? {
        cursor, latches, jobs := c, l, j;
      }
      if Inv(old(Tables())) {
        ReconcileKeepsInv(old(Tables()), now);
      }
    }

    /** The body of the signal transaction after the reconciliation. */
    method Accept(day: nat, signal: DataType, now: Time) returns (r: Result<Signal, Fault>)
      modifies this
      ensures match AcceptSignal(old(Tables()), day, signal, now)
              case Ok(after) => r == Ok(after.1) && Tables() == after.0
              case Err(why) => r == Err(why)
    {
      var superseded := cursor.version.Some? && day < cursor.version.value;
      if cursor.version.None? || cursor.version.value < day {
        MoveCursor(cursor.generation + 1, day);
      }
      var accepted := if superseded then None else Some(cursor.generation);
      var latch := LatchUpsert(latches, Dump(day), accepted, signal);
      latches := latches[Dump(day) := latch];
      var scheduled := false;
      if !superseded && !latch.refreshed && DATA_TYPES <= latch.signals {
        if latch.generation != Some(cursor.generation) {
          return Err(GenerationDisagrees);
        }
        var fault := InsertJob(day, cursor.generation, now);
        if fault.Some? {
          return Err(fault.value);
        }
        scheduled := true;
      }
      r := Ok(Signal(latch.generation, latch.signals, scheduled, superseded, latch.refreshed));
    }

    method RecordDurableSignal(text: string, signal: DataType, now: Time) returns (r: Result<Signal, Refused>)
      modifies this
      ensures match OrderedVersion(text)
              case Err(why) => r == Err(BadVersion(why)) && Tables() == old(Tables())
              case Ok(version) =>
                match RecordSignal(old(Tables()), DayNumber(DateOf(version)), signal, now)
                case Ok(after) => r == Ok(after.1) && Tables() == after.0
                case Err(why) => r == Err(Raised(why)) && Tables() == old(Tables())
      ensures old(Inv(Tables())) ==> Inv(Tables()) && Grows(old(Tables()), Tables())
    {
      var version := OrderedVersion(text);
      if version.Err? {
        return Err(BadVersion(version.error));
      }
      if signal !in DATA_TYPES {
        return Err(Raised(UnknownType));
      }
      var c, l, j := cursor, latches, jobs;
      var day := DayNumber(DateOf(version.value));
      var fault := ReconcileLegacy(now);
      if fault.Some? {
        cursor, latches, jobs := c, l, j;
        r := Err(Raised(fault.value));
      } else {
        var accepted := Accept(day, signal, now);
        if accepted.Err? {
          cursor, latches, jobs := c, l, j;
          r := Err(Raised(accepted.error));
        } else {
          r := Ok(accepted.value);
        }
      }
      if Inv(old(Tables())) {
        RecordSignalKeepsInv(old(Tables()), day, signal, now);
      }
    }

    method RecordPurgeVeto(day: nat, dataType: DataType)
      modifies this`latches
      ensures Tables() == RecordVeto(old(Tables()), day, dataType)
      ensures old(Inv(Tables())) ==> Inv(Tables())
    {
      var key := Dump(day);
      if key !in latches {
        latches := latches[key := Latch(None, {}, false, {})];
      }
      latches := latches[key := latches[key].(vetoed := latches[key].vetoed + {dataType})];
      if Inv(old(Tables())) {
        RecordVetoKeepsInv(old(Tables()), day, dataType);
      }
    }

    /** The scan's ordered LIMIT 1: newest generation among the due rows no one has locked. */
    method SelectDue(now: Time, locked: set<nat>) returns (pick: Option<nat>)
      ensures Selects(Tables(), now, locked, pick)
    {
      pick := None;
      if exists v :: v in jobs && LiveLease(jobs[v], now) {
        return;
      }
      var rest := jobs.Keys;
      while rest != {}
        invariant rest <= jobs.Keys
        invariant pick.Some? ==> pick.value in DueJobs(Tables(), now, locked)
        invariant forall v :: v in DueJobs(Tables(), now, locked) && v !in rest ==>
                    pick.Some? && jobs[v].generation <= jobs[pick.value].generation
        decreases |rest|
      {
        var v :| v in rest;
        rest := rest - {v};
        if Due(jobs[v], now) && v !in locked {
          assert v in DueJobs(Tables(), now, locked);
          if pick.None? || jobs[pick.value].generation < jobs[v].generation {
            pick := Some(v);
          }
        }
      }
    }

    method ClaimDueJob(token: Token, now: Time, locked: set<nat>) returns (claim: Option<Claim>)
      modifies this`jobs
      ensures exists pick :: Selects(old(Tables()), now, locked, pick)
                             && (Tables(), claim) == ClaimDue(old(Tables()), pick, token, now)
      ensures old(Inv(Tables())) ==> Inv(Tables()) && (claim.Some? ==> HoldsLease(Tables(), claim.value))
      ensures claim.Some? ==>
                && claim.value.version in old(jobs) && claim.value.version in jobs
                && jobs[claim.value.version].expiresAt == Some(now + 120) && jobs[claim.value.version].token == Some(token)
                && jobs[claim.value.version].epoch == old(jobs)[claim.value.version].epoch + 1
                && claim.value.epoch == jobs[claim.value.version].epoch
    {
      var pick := SelectDue(now, locked);
      claim := None;
      if pick.Some? {
        var version := pick.value;
        var job := jobs[version];
        if job.generation != cursor.generation {
          jobs := jobs[version := Retired(job)];
        } else if job.state == Leased {
          jobs := jobs[version := RetryJob(job, Backoff(job.attempts), now)];
        } else {
          jobs := jobs[version := LeaseJob(job, token, now)];
          claim := Some(Claim(version, job.generation, token, job.epoch + 1, job.attempts + 1));
        }
      }
      if Inv(old(Tables())) {
        ClaimKeepsInv(old(Tables()), pick, token, now, locked);
      }
    }

    method BeforeRefresh(claim: Claim, clientNow: Time) returns (ok: bool)
      ensures ok <==> MayStart(Tables(), claim, clientNow)
      ensures ok <==>
                && cursor.generation == claim.generation && cursor.version == Some(claim.version)
                && claim.version in jobs
                && jobs[claim.version].state == Leased
                && jobs[claim.version].token == Some(claim.token)
                && jobs[claim.version].epoch == claim.epoch
                && jobs[claim.version].expiresAt.Some? && clientNow < jobs[claim.version].expiresAt.value
    {
      ok := false;
      if cursor == Cursor(claim.generation, Some(claim.version)) && claim.version in jobs {
        var job := jobs[claim.version];
        ok := job.state == Leased && job.token == Some(claim.token) && job.epoch == claim.epoch
              && job.expiresAt.Some? && clientNow < job.expiresAt.value;
      }
    }

    /** The fence, the latch stamp and the completion, committed with the pass or not at all. */
    method BeforeCommit(claim: Claim, clientNow: Time) returns (fault: Option<Fault>)
      modifies this
      ensures match CommitPass(old(Tables()), claim, clientNow)
              case Ok(after) => fault.None? && Tables() == after
              case Err(why) => fault == Some(why) && Tables() == old(Tables())
      ensures old(Inv(Tables())) ==> Inv(Tables()) && (fault.None? <==> old(MayStart(Tables(), claim, clientNow)))
      ensures fault.None? <==>
                old(&& cursor.generation == claim.generation && cursor.version == Some(claim.version)
                    && claim.version in jobs
                    && jobs[claim.version].state == Leased
                    && jobs[claim.version].token == Some(claim.token)
                    && jobs[claim.version].epoch == claim.epoch
                    && jobs[claim.version].expiresAt.Some? && clientNow < jobs[claim.version].expiresAt.value
                    && jobs[claim.version].generation == claim.generation
                    && Dump(claim.version) in latches
                    && latches[Dump(claim.version)].generation == Some(claim.generation)
                    && !latches[Dump(claim.version)].refreshed)
      ensures fault.Some? ==> cursor == old(cursor) && latches == old(latches) && jobs == old(jobs)
    {
      var l := latches;
      fault := None;
      var owned := BeforeRefresh(claim, clientNow);
      var key := Dump(claim.version);
      if !owned {
        fault := Some(LostAtCommit);
      } else if key in latches && latches[key].generation == Some(claim.generation) && !latches[key].refreshed {
        latches := latches[key := latches[key].(refreshed := true)];
        var job := jobs[claim.version];
        if job.generation == claim.generation && job.token == Some(claim.token) && job.epoch == claim.epoch {
          jobs := jobs[claim.version := job.(state := Completed, token := None, expiresAt := None)];
        } else {
          latches := l;
          fault := Some(LostClaim);
        }
      } else {
        fault := Some(NoUnstampedLatch);
      }
      if Inv(old(Tables())) {
        CommitKeepsInv(old(Tables()), claim, clientNow);
      }
    }

    method RenewLease(claim: Claim, now: Time) returns (kept: bool)
      modifies this`jobs
      ensures (Tables(), kept) == Heartbeat(old(Tables()), claim, now)
      ensures kept ==> claim.version in jobs && jobs[claim.version].expiresAt == Some(now + 120)
      ensures !kept ==> jobs == old(jobs)
    {
      kept := false;
      if claim.version in jobs {
        var job := jobs[claim.version];
        if job.state == Leased && job.token == Some(claim.token) && job.epoch == claim.epoch
           && job.expiresAt.Some? && now < job.expiresAt.value {
          jobs := jobs[claim.version := job.(expiresAt := Some(now + LEASE_SECONDS))];
          kept := true;
        }
      }
    }

    method MarkFailed(claim: Claim, now: Time)
      modifies this`jobs
      ensures Tables() == MarkAfterFailure(old(Tables()), claim, now)
    {
      if claim.version in jobs {
        var job := jobs[claim.version];
        if job.state == Leased && job.token == Some(claim.token) && job.epoch == claim.epoch {
          if cursor != Cursor(claim.generation, Some(claim.version)) {
            jobs := jobs[claim.version := Retired(job)];
          } else {
            jobs := jobs[claim.version := RetryJob(job, Backoff(claim.attempts), now)];
          }
        }
      }
    }
  }
}
