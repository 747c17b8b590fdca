/**
  Narrowing a failed batch to the records that fail on their own. A write attempt is answered by
  an oracle that may say anything, each time it is asked; nothing about PostgreSQL is assumed
  except that a failed transaction left nothing behind.
 */
module PoisonIsolation {
  import opened Wrappers

  datatype Verdict = Committed | Deterministic | Transient

  /** One transaction over the records at positions `lo..hi` of the original batch. */
  datatype Attempt = Attempt(lo: nat, hi: nat, verdict: Verdict)

  datatype Settlement = Ack | Reject

  /** The number of attempts made before this one, and the records of this one. */
  type Oracle<!P> = (nat, seq<P>) -> Verdict

  /** What a call attempted, and its settlements unless a failure was raised. */
  datatype Outcome = Outcome(log: seq<Attempt>, settled: Result<seq<Settlement>, Verdict>)

  function Acks(n: nat): seq<Settlement> {
    seq(n, _ => Ack)
  }

  function Join(left: Outcome, right: Outcome): Outcome
    requires left.settled.Ok?
  {
    Outcome(left.log + right.log, if right.settled.Err? then right.settled else Ok(left.settled.value + right.settled.value))
  }

  function Half<P>(oracle: Oracle<P>, half: seq<P>, at: nat, asked: nat): Outcome
    requires half != []
    decreases |half|, 1
  {
    var verdict := oracle(asked, half);
    var attempt := Attempt(at, at + |half|, verdict);
    match verdict
    case Committed => Outcome([attempt], Ok(Acks(|half|)))
    case Transient => Outcome([attempt], Err(Transient))
    case Deterministic =>
      var inner := Isolation(oracle, half, at, asked + 1);
      Outcome([attempt] + inner.log, inner.settled)
  }

  function Isolation<P>(oracle: Oracle<P>, payloads: seq<P>, at: nat, asked: nat): Outcome
    requires payloads != []
    decreases |payloads|, 0
  {
    if |payloads| == 1 then Outcome([], Ok([Reject]))
    else
      var middle := |payloads| / 2;
      var left := Half(oracle, payloads[..middle], at, asked);
      if left.settled.Err? then left
      else
        var right := Half(oracle, payloads[middle..], at + middle, asked + |left.log|);
        Join(left, right)
  }

  function WholeWrite<P>(oracle: Oracle<P>, payloads: seq<P>, asked: nat): Outcome {
    var verdict := oracle(asked, payloads);
    var attempt := Attempt(0, |payloads|, verdict);
    if verdict == Committed then Outcome([attempt], Ok(Acks(|payloads|)))
    else if |payloads| > 1 && verdict == Deterministic then
      var inner := Isolation(oracle, payloads, 0, asked + 1);
      Outcome([attempt] + inner.log, inner.settled)
    else Outcome([attempt], Err(verdict))
  }

  /** The sink as it runs: every attempt is a transaction of its own. */
  class Sink<P> {
    const oracle: Oracle<P>
    var asked: nat
    ghost var log: seq<Attempt>

    constructor (oracle: Oracle<P>)
      ensures this.oracle == oracle && asked == 0 && log == []
    {
      this.oracle := oracle;
      asked := 0;
      log := [];
    }

    method ProcessBatch(batch: seq<P>, ghost at: nat) returns (verdict: Verdict)
      modifies this
      ensures verdict == oracle(old(asked), batch)
      ensures asked == old(asked) + 1 && log == old(log) + [Attempt(at, at + |batch|, verdict)]
    {
      verdict := oracle(asked, batch);
      asked := asked + 1;
      log := log + [Attempt(at, at + |batch|, verdict)];
    }

    method Write(payloads: seq<P>) returns (settled: Result<seq<Settlement>, Verdict>)
      modifies this
      ensures settled == WholeWrite(oracle, payloads, old(asked)).settled
      ensures log == old(log) + WholeWrite(oracle, payloads, old(asked)).log
      ensures asked == old(asked) + |WholeWrite(oracle, payloads, old(asked)).log|
    {
      var verdict := ProcessBatch(payloads, 0);
      if verdict == Committed {
        settled := Ok(Acks(|payloads|));
      } else if |payloads| > 1 && verdict == Deterministic {
        settled := Isolate(payloads, 0);
      } else {
        settled := Err(verdict);
      }
    }

    /** One half: written whole, or narrowed further, or raised. */
    method WriteHalf(half: seq<P>, ghost at: nat) returns (settled: Result<seq<Settlement>, Verdict>)
      requires half != []
      modifies this
      ensures settled == Half(oracle, half, at, old(asked)).settled
      ensures log == old(log) + Half(oracle, half, at, old(asked)).log
      ensures asked == old(asked) + |Half(oracle, half, at, old(asked)).log|
      decreases |half|, 1
    {
      var verdict := ProcessBatch(half, at);
      match verdict {
        case Committed => settled := Ok(Acks(|half|));
        case Transient => settled := Err(Transient);
        case Deterministic => settled := Isolate(half, at);
      }
    }

    method Isolate(payloads: seq<P>, ghost at: nat) returns (settled: Result<seq<Settlement>, Verdict>)
      requires payloads != []
      modifies this
      ensures settled == Isolation(oracle, payloads, at, old(asked)).settled
      ensures log == old(log) + Isolation(oracle, payloads, at, old(asked)).log
      ensures asked == old(asked) + |Isolation(oracle, payloads, at, old(asked)).log|
      decreases |payloads|, 0
    {
      if |payloads| == 1 {
        return Ok([Reject]);
      }
      var middle := |payloads| / 2;
      var halves := [payloads[..middle], payloads[middle..]];
      ghost var places := [at, at + middle];
      ghost var left := Half(oracle, payloads[..middle], at, asked);
      ghost var right := Half(oracle, payloads[middle..], at + middle, asked + |left.log|);
      var results: seq<Settlement> := [];
      var i := 0;
      while i < 2
        invariant 0 <= i <= 2
        invariant i == 0 ==> results == [] && log == old(log) && asked == old(asked)
        invariant i >= 1 ==> left.settled.Ok?
        invariant i == 1 ==> results == left.settled.value && log == old(log) + left.log && asked == old(asked) + |left.log|
        invariant i == 2 ==> right.settled.Ok? && results == left.settled.value + right.settled.value
                             && log == old(log) + (left.log + right.log) && asked == old(asked) + |left.log + right.log|
      {
        var outcome := WriteHalf(halves[i], places[i]);
        if outcome.Err? {
          return outcome;
        }
        results := results + outcome.value;
        i := i + 1;
      }
      settled := Ok(results);
    }
  }

  // ---- any oracle -------------------------------------------------------------------------

  predicate Covers(a: Attempt, p: nat) {
    a.lo <= p < a.hi
  }

  ghost predicate CommittedAt(log: seq<Attempt>, p: nat) {
    exists i :: 0 <= i < |log| && log[i].verdict == Committed && Covers(log[i], p)
  }

  ghost predicate FailedAlone(log: seq<Attempt>, p: nat) {
    exists i :: 0 <= i < |log| && log[i] == Attempt(p, p + 1, Deterministic)
  }

  ghost predicate Within(log: seq<Attempt>, lo: nat, hi: nat) {
    forall i :: 0 <= i < |log| ==> lo <= log[i].lo <= log[i].hi <= hi
  }

  /** Later commits lie to the right of earlier ones: no record is written by two of them. */
  ghost predicate CommitsInOrder(log: seq<Attempt>) {
    forall i, j :: 0 <= i < j < |log| && log[i].verdict == Committed && log[j].verdict == Committed ==> log[i].hi <= log[j].lo
  }

  lemma CommittedAtConcat(a: seq<Attempt>, b: seq<Attempt>, p: nat)
    ensures CommittedAt(a + b, p) <==> CommittedAt(a, p) || CommittedAt(b, p)
    ensures FailedAlone(a + b, p) <==> FailedAlone(a, p) || FailedAlone(b, p)
  {
    if CommittedAt(a, p) {
      var i :| 0 <= i < |a| && a[i].verdict == Committed && Covers(a[i], p);
      assert (a + b)[i] == a[i];
    }
    if CommittedAt(b, p) {
      var i :| 0 <= i < |b| && b[i].verdict == Committed && Covers(b[i], p);
      assert (a + b)[|a| + i] == b[i];
    }
    if FailedAlone(a, p) {
      var i :| 0 <= i < |a| && a[i] == Attempt(p, p + 1, Deterministic);
      assert (a + b)[i] == a[i];
    }
    if FailedAlone(b, p) {
      var i :| 0 <= i < |b| && b[i] == Attempt(p, p + 1, Deterministic);
      assert (a + b)[|a| + i] == b[i];
    }
  }

  lemma NotCommittedOutside(log: seq<Attempt>, lo: nat, hi: nat, p: nat)
    requires Within(log, lo, hi) && !(lo <= p < hi)
    ensures !CommittedAt(log, p) && !FailedAlone(log, p)
  {
  }

  /** A settled slice: acknowledged exactly where a commit covers it, rejected exactly where it failed alone. */
  ghost predicate SettlesExactly(outcome: Outcome, at: nat, n: nat) {
    outcome.settled.Ok? ==>
      && |outcome.settled.value| == n
      && forall p :: at <= p < at + n ==>
           && (outcome.settled.value[p - at] == Ack <==> CommittedAt(outcome.log, p))
           && (outcome.settled.value[p - at] == Reject <==> FailedAlone(outcome.log, p))
  }

  lemma {:induction false} HalfSettlesExactly<P>(oracle: Oracle<P>, half: seq<P>, at: nat, asked: nat)
    requires half != []
    ensures var outcome := Half(oracle, half, at, asked);
            Within(outcome.log, at, at + |half|) && CommitsInOrder(outcome.log) && SettlesExactly(outcome, at, |half|)
    decreases |half|, 1
  {
    var outcome := Half(oracle, half, at, asked);
    var attempt := outcome.log[0];
    match attempt.verdict
    case Committed =>
      forall p | at <= p < at + |half| ensures CommittedAt(outcome.log, p) && !FailedAlone(outcome.log, p) {
        assert Covers(outcome.log[0], p);
      }
    case Transient =>
    case Deterministic =>
      var inner := Isolation(oracle, half, at, asked + 1);
      if |half| == 1 {
        assert outcome.log == [attempt];
        assert FailedAlone(outcome.log, at);
      } else {
        IsolationSettlesExactly(oracle, half, at, asked + 1);
        forall p | at <= p < at + |half|
          ensures CommittedAt(outcome.log, p) <==> CommittedAt(inner.log, p)
          ensures FailedAlone(outcome.log, p) <==> FailedAlone(inner.log, p)
        {
          CommittedAtConcat([attempt], inner.log, p);
        }
      }
  }

  lemma {:induction false} IsolationSettlesExactly<P>(oracle: Oracle<P>, payloads: seq<P>, at: nat, asked: nat)
    requires |payloads| > 1
    ensures var outcome := Isolation(oracle, payloads, at, asked);
            Within(outcome.log, at, at + |payloads|) && CommitsInOrder(outcome.log) && SettlesExactly(outcome, at, |payloads|)
    decreases |payloads|, 0
  {
    var middle := |payloads| / 2;
    var left := Half(oracle, payloads[..middle], at, asked);
    HalfSettlesExactly(oracle, payloads[..middle], at, asked);
    if left.settled.Ok? {
      var right := Half(oracle, payloads[middle..], at + middle, asked + |left.log|);
      HalfSettlesExactly(oracle, payloads[middle..], at + middle, asked + |left.log|);
      JoinSettlesExactly(left, right, at, middle, |payloads| - middle);
      assert Isolation(oracle, payloads, at, asked) == Join(left, right);
    }
  }

  lemma JoinSettlesExactly(left: Outcome, right: Outcome, at: nat, m: nat, n: nat)
    requires left.settled.Ok? && SettlesExactly(left, at, m) && SettlesExactly(right, at + m, n)
    requires Within(left.log, at, at + m) && Within(right.log, at + m, at + m + n)
    requires CommitsInOrder(left.log) && CommitsInOrder(right.log)
    ensures var outcome := Join(left, right);
            Within(outcome.log, at, at + m + n) && CommitsInOrder(outcome.log) && SettlesExactly(outcome, at, m + n)
  {
    var log := left.log + right.log;
    forall i, j | 0 <= i < j < |log| && log[i].verdict == Committed && log[j].verdict == Committed
      ensures log[i].hi <= log[j].lo
    {
      if j < |left.log| {
      } else if i >= |left.log| {
        assert log[i] == right.log[i - |left.log|] && log[j] == right.log[j - |left.log|];
      } else {
        assert log[j] == right.log[j - |left.log|];
      }
    }
    if right.settled.Ok? {
      var settled := left.settled.value + right.settled.value;
      forall p | at <= p < at + m + n
        ensures settled[p - at] == Ack <==> CommittedAt(log, p)
        ensures settled[p - at] == Reject <==> FailedAlone(log, p)
      {
        CommittedAtConcat(left.log, right.log, p);
        if p < at + m {
          NotCommittedOutside(right.log, at + m, at + m + n, p);
        } else {
          NotCommittedOutside(left.log, at, at + m, p);
        }
      }
    }
  }

  /**
    Whatever the database answers: one settlement per record in batch order, acknowledged exactly
    if a committed transaction wrote the record, rejected exactly if it failed alone, no record
    written by two commits, and a single record's failure is raised rather than isolated.
   */
  lemma WriteSettlesExactly<P>(oracle: Oracle<P>, payloads: seq<P>, asked: nat)
    ensures var outcome := WholeWrite(oracle, payloads, asked);
            && CommitsInOrder(outcome.log) && SettlesExactly(outcome, 0, |payloads|)
            && (outcome.settled.Err? ==> outcome.settled.error != Committed)
            && (outcome.settled == Err(Deterministic) <==> |payloads| <= 1 && oracle(asked, payloads) == Deterministic)
  {
    var outcome := WholeWrite(oracle, payloads, asked);
    var attempt := outcome.log[0];
    if attempt.verdict == Committed {
      forall k | 0 <= k < |payloads| ensures CommittedAt(outcome.log, k) && !FailedAlone(outcome.log, k) {
        assert Covers(outcome.log[0], k);
      }
    } else if |payloads| > 1 && attempt.verdict == Deterministic {
      var inner := Isolation(oracle, payloads, 0, asked + 1);
      IsolationSettlesExactly(oracle, payloads, 0, asked + 1);
      IsolationRaisesTransient(oracle, payloads, 0, asked + 1);
      forall k | 0 <= k < |payloads|
        ensures CommittedAt(outcome.log, k) <==> CommittedAt(inner.log, k)
        ensures FailedAlone(outcome.log, k) <==> FailedAlone(inner.log, k)
      {
        CommittedAtConcat([attempt], inner.log, k);
      }
    }
  }

  lemma {:induction false} IsolationRaisesTransient<P>(oracle: Oracle<P>, payloads: seq<P>, at: nat, asked: nat)
    requires payloads != []
    ensures Isolation(oracle, payloads, at, asked).settled.Err? ==> Isolation(oracle, payloads, at, asked).settled.error == Transient
    decreases |payloads|
  {
    if |payloads| > 1 {
      var middle := |payloads| / 2;
      IsolationRaisesTransient(oracle, payloads[..middle], at, asked + 1);
      var left := Half(oracle, payloads[..middle], at, asked);
      IsolationRaisesTransient(oracle, payloads[middle..], at + middle, asked + |left.log| + 1);
    }
  }

  // ---- poison records ---------------------------------------------------------------------

  predicate HasPoison<P(!new)>(poison: P -> bool, batch: seq<P>) {
    exists i :: 0 <= i < |batch| && poison(batch[i])
  }

  function PoisonCount<P>(poison: P -> bool, batch: seq<P>): nat {
    if batch == [] then 0 else (if poison(batch[0]) then 1 else 0) + PoisonCount(poison, batch[1..])
  }

  /** Each attempt either breaks off, or fails deterministically exactly when it contains a poison record. */
  ghost predicate FailsOnPoison<P(!new)>(oracle: Oracle<P>, poison: P -> bool) {
    forall k, batch :: oracle(k, batch) != Transient ==> (oracle(k, batch) == Deterministic <==> HasPoison(poison, batch))
  }

  ghost predicate NeverTransient<P(!new)>(oracle: Oracle<P>) {
    forall k, batch :: oracle(k, batch) != Transient
  }

  lemma {:induction false} PoisonCountConcat<P(!new)>(poison: P -> bool, a: seq<P>, b: seq<P>)
    ensures PoisonCount(poison, a + b) == PoisonCount(poison, a) + PoisonCount(poison, b)
  {
    if a == [] {
      assert a + b == b;
    } else {
      assert (a + b)[1..] == a[1..] + b;
      PoisonCountConcat(poison, a[1..], b);
    }
  }

  lemma {:induction false} PoisonCountIsPositive<P(!new)>(poison: P -> bool, batch: seq<P>)
    ensures PoisonCount(poison, batch) > 0 <==> HasPoison(poison, batch)
    ensures PoisonCount(poison, batch) <= |batch|
  {
    if batch != [] {
      PoisonCountIsPositive(poison, batch[1..]);
      if HasPoison(poison, batch[1..]) {
        var i :| 0 <= i < |batch| - 1 && poison(batch[1..][i]);
        assert poison(batch[i + 1]);
      }
      if HasPoison(poison, batch) && !poison(batch[0]) {
        var i :| 0 <= i < |batch| && poison(batch[i]);
        assert poison(batch[1..][i - 1]);
      }
    }
  }

  ghost predicate RejectsPoison<P>(poison: P -> bool, batch: seq<P>, settled: Result<seq<Settlement>, Verdict>) {
    settled.Ok? ==> |settled.value| == |batch| && forall k :: 0 <= k < |batch| ==> (settled.value[k] == Reject <==> poison(batch[k]))
  }

  lemma {:induction false} HalfRejectsPoison<P(!new)>(oracle: Oracle<P>, poison: P -> bool, half: seq<P>, at: nat, asked: nat)
    requires half != [] && FailsOnPoison(oracle, poison)
    ensures RejectsPoison(poison, half, Half(oracle, half, at, asked).settled)
    ensures NeverTransient(oracle) ==> Half(oracle, half, at, asked).settled.Ok?
    decreases |half|, 1
  {
    if oracle(asked, half) == Deterministic {
      IsolationRejectsPoison(oracle, poison, half, at, asked + 1);
    }
  }

  lemma {:induction false} IsolationRejectsPoison<P(!new)>(oracle: Oracle<P>, poison: P -> bool, payloads: seq<P>, at: nat, asked: nat)
    requires payloads != [] && FailsOnPoison(oracle, poison) && HasPoison(poison, payloads)
    ensures RejectsPoison(poison, payloads, Isolation(oracle, payloads, at, asked).settled)
    ensures NeverTransient(oracle) ==> Isolation(oracle, payloads, at, asked).settled.Ok?
    decreases |payloads|, 0
  {
    if |payloads| > 1 {
      var middle := |payloads| / 2;
      var left := Half(oracle, payloads[..middle], at, asked);
      HalfRejectsPoison(oracle, poison, payloads[..middle], at, asked);
      HalfRejectsPoison(oracle, poison, payloads[middle..], at + middle, asked + |left.log|);
    }
  }

  function CeilLog2(n: nat): nat {
    if n <= 1 then 0 else 1 + CeilLog2((n + 1) / 2)
  }

  function TwoTo(n: nat): nat {
    if n == 0 then 1 else 2 * TwoTo(n - 1)
  }

  /** `CeilLog2` is the least exponent whose power of two reaches n. */
  lemma {:induction false} CeilLog2IsTheLeastExponent(n: nat)
    requires n >= 1
    ensures n <= TwoTo(CeilLog2(n))
    ensures n > 1 ==> TwoTo(CeilLog2(n) - 1) < n
  {
    if n > 1 {
      CeilLog2IsTheLeastExponent((n + 1) / 2);
      if n == 2 {
      } else {
        assert TwoTo(CeilLog2(n) - 1) == 2 * TwoTo(CeilLog2((n + 1) / 2) - 1);
      }
    }
  }

  lemma {:induction false} CeilLog2Monotone(m: nat, n: nat)
    requires m <= n
    ensures CeilLog2(m) <= CeilLog2(n)
  {
    if n > 1 && m > 1 {
      CeilLog2Monotone((m + 1) / 2, (n + 1) / 2);
    }
  }

  /** The writes that narrow p poison records down through k halvings. */
  function Budget(p: nat, k: nat): nat {
    if p == 0 then 0 else Budget(p - 1, k) + 2 * k
  }

  lemma {:induction false} BudgetIsTheProduct(p: nat, k: nat)
    ensures Budget(p, k) == 2 * p * k
  {
    if p > 0 {
      BudgetIsTheProduct(p - 1, k);
      assert 2 * p * k == 2 * (p - 1) * k + 2 * k;
    }
  }

  lemma {:induction false} HalfWrites<P(!new)>(oracle: Oracle<P>, poison: P -> bool, half: seq<P>, at: nat, asked: nat)
    requires half != [] && FailsOnPoison(oracle, poison)
    ensures |Half(oracle, half, at, asked).log| <= 1 + Budget(PoisonCount(poison, half), CeilLog2(|half|))
    decreases |half|, 1
  {
    if oracle(asked, half) == Deterministic {
      IsolationWrites(oracle, poison, half, at, asked + 1);
    }
  }

  lemma {:induction false} IsolationWrites<P(!new)>(oracle: Oracle<P>, poison: P -> bool, payloads: seq<P>, at: nat, asked: nat)
    requires payloads != [] && FailsOnPoison(oracle, poison) && HasPoison(poison, payloads)
    ensures |Isolation(oracle, payloads, at, asked).log| <= Budget(PoisonCount(poison, payloads), CeilLog2(|payloads|))
    decreases |payloads|, 0
  {
    if |payloads| > 1 {
      var a, b := payloads[..|payloads| / 2], payloads[|payloads| / 2..];
      var left := Half(oracle, a, at, asked);
      HalfWrites(oracle, poison, a, at, asked);
      HalfWrites(oracle, poison, b, at + |a|, asked + |left.log|);
      assert payloads == a + b;
      HalvesBudget(poison, payloads, a, b);
    }
  }

  lemma HalvesCount<P(!new)>(poison: P -> bool, payloads: seq<P>, a: seq<P>, b: seq<P>)
    requires payloads == a + b && HasPoison(poison, payloads)
    ensures PoisonCount(poison, payloads) == PoisonCount(poison, a) + PoisonCount(poison, b) >= 1
  {
    PoisonCountConcat(poison, a, b);
    PoisonCountIsPositive(poison, payloads);
  }

  lemma HalvesLog(n: nat)
    requires n > 1
    ensures CeilLog2(n - n / 2) == CeilLog2(n) - 1 && CeilLog2(n / 2) <= CeilLog2(n) - 1
  {
    assert n - n / 2 == (n + 1) / 2;
    CeilLog2Monotone(n / 2, n - n / 2);
  }

  lemma HalvesBudget<P(!new)>(poison: P -> bool, payloads: seq<P>, a: seq<P>, b: seq<P>)
    requires |payloads| > 1 && payloads == a + b && |a| == |payloads| / 2 && HasPoison(poison, payloads)
    ensures (1 + Budget(PoisonCount(poison, a), CeilLog2(|a|))) + (1 + Budget(PoisonCount(poison, b), CeilLog2(|b|)))
         <= Budget(PoisonCount(poison, payloads), CeilLog2(|payloads|))
  {
    HalvesCount(poison, payloads, a, b);
    HalvesLog(|payloads|);
    SplitBudget(PoisonCount(poison, a), PoisonCount(poison, b), CeilLog2(|a|), CeilLog2(|b|),
                PoisonCount(poison, payloads), CeilLog2(|payloads|));
  }

  lemma SplitBudget(p: nat, q: nat, j: nat, k: nat, total: nat, n: nat)
    requires total == p + q >= 1 && j <= k && n == k + 1
    ensures (1 + Budget(p, j)) + (1 + Budget(q, k)) <= Budget(total, n)
  {
    BudgetGrows(p, j, k);
    BudgetAdds(p, q, k);
    BudgetOneMore(total, k);
  }

  lemma {:induction false} BudgetGrows(p: nat, j: nat, k: nat)
    requires j <= k
    ensures Budget(p, j) <= Budget(p, k)
  {
    if p > 0 {
      BudgetGrows(p - 1, j, k);
    }
  }

  lemma {:induction false} BudgetAdds(p: nat, q: nat, k: nat)
    ensures Budget(p + q, k) == Budget(p, k) + Budget(q, k)
  {
    if q > 0 {
      BudgetAdds(p, q - 1, k);
    }
  }

  lemma {:induction false} BudgetOneMore(p: nat, k: nat)
    ensures Budget(p, k + 1) == Budget(p, k) + 2 * p
  {
    if p > 0 {
      BudgetOneMore(p - 1, k);
    }
  }

  /**
    When a batch fails exactly if it contains a poison record, a batch of n with p of them
    rejects exactly those p, acknowledges every other record, and costs at most
    1 + 2·p·⌈log2 n⌉ transactions; breaking off early never costs more.
   */
  lemma PoisonIsIsolated<P(!new)>(oracle: Oracle<P>, poison: P -> bool, payloads: seq<P>, asked: nat)
    requires FailsOnPoison(oracle, poison)
    ensures var outcome := WholeWrite(oracle, payloads, asked);
            && RejectsPoison(poison, payloads, outcome.settled)
            && |outcome.log| <= 1 + 2 * PoisonCount(poison, payloads) * CeilLog2(|payloads|)
            && (NeverTransient(oracle) && (|payloads| > 1 || !HasPoison(poison, payloads)) ==> outcome.settled.Ok?)
  {
    PoisonCountIsPositive(poison, payloads);
    BudgetIsTheProduct(PoisonCount(poison, payloads), CeilLog2(|payloads|));
    if |payloads| > 1 && oracle(asked, payloads) == Deterministic {
      IsolationRejectsPoison(oracle, poison, payloads, 0, asked + 1);
      IsolationWrites(oracle, poison, payloads, 0, asked + 1);
    }
  }

  // ---- what was written -------------------------------------------------------------------

  /** The records of the committed transactions, in the order they committed. */
  function Written<P>(payloads: seq<P>, log: seq<Attempt>): seq<P>
    requires Within(log, 0, |payloads|)
  {
    if log == [] then []
    else (if log[0].verdict == Committed then payloads[log[0].lo..log[0].hi] else []) + Written(payloads, log[1..])
  }

  function Healthy<P>(poison: P -> bool, batch: seq<P>): seq<P> {
    if batch == [] then [] else (if poison(batch[0]) then [] else [batch[0]]) + Healthy(poison, batch[1..])
  }

  lemma {:induction false} HealthyConcat<P>(poison: P -> bool, a: seq<P>, b: seq<P>)
    ensures Healthy(poison, a + b) == Healthy(poison, a) + Healthy(poison, b)
  {
    if a == [] {
      assert a + b == b;
    } else {
      assert (a + b)[1..] == a[1..] + b;
      HealthyConcat(poison, a[1..], b);
    }
  }

  lemma {:induction false} HealthyOfClean<P(!new)>(poison: P -> bool, batch: seq<P>)
    requires !HasPoison(poison, batch)
    ensures Healthy(poison, batch) == batch
  {
    if batch != [] {
      assert !poison(batch[0]);
      forall i | 0 <= i < |batch| - 1 ensures !poison(batch[1..][i]) {
        assert batch[1..][i] == batch[i + 1];
      }
      HealthyOfClean(poison, batch[1..]);
    }
  }

  lemma {:induction false} WrittenConcat<P>(payloads: seq<P>, a: seq<Attempt>, b: seq<Attempt>)
    requires Within(a, 0, |payloads|) && Within(b, 0, |payloads|)
    ensures Within(a + b, 0, |payloads|) && Written(payloads, a + b) == Written(payloads, a) + Written(payloads, b)
  {
    if a == [] {
      assert a + b == b;
    } else {
      assert (a + b)[1..] == a[1..] + b && (a + b)[0] == a[0];
      WrittenConcat(payloads, a[1..], b);
    }
  }

  /**
    The slice from `at` wrote its healthy records as far as `cut`, and all of them when nothing
    was raised.
   */
  ghost predicate WroteUpTo<P>(poison: P -> bool, payloads: seq<P>, outcome: Outcome, at: nat, n: nat, cut: nat)
    requires at + n <= |payloads|
  {
    && Within(outcome.log, 0, |payloads|)
    && at <= cut <= at + n
    && (outcome.settled.Ok? ==> cut == at + n)
    && Written(payloads, outcome.log) == Healthy(poison, payloads[at..cut])
  }

  lemma WrittenOne<P>(payloads: seq<P>, attempt: Attempt)
    requires attempt.lo <= attempt.hi <= |payloads|
    ensures Written(payloads, [attempt]) == if attempt.verdict == Committed then payloads[attempt.lo..attempt.hi] else []
  {
    assert Written(payloads, [attempt][1..]) == [];
  }

  lemma {:induction false} HalfWritesHealthyPrefix<P(!new)>(
    oracle: Oracle<P>, poison: P -> bool, payloads: seq<P>, at: nat, n: nat, asked: nat) returns (cut: nat)
    requires n > 0 && at + n <= |payloads| && FailsOnPoison(oracle, poison)
    ensures WroteUpTo(poison, payloads, Half(oracle, payloads[at..at + n], at, asked), at, n, cut)
    decreases n, 1
  {
    var half := payloads[at..at + n];
    var attempt := Attempt(at, at + n, oracle(asked, half));
    WrittenOne(payloads, attempt);
    match attempt.verdict
    case Committed =>
      HealthyOfClean(poison, half);
      cut := at + n;
    case Transient =>
      assert payloads[at..at] == [];
      cut := at;
    case Deterministic =>
      cut := IsolationWritesHealthyPrefix(oracle, poison, payloads, at, n, asked + 1);
      WrittenConcat(payloads, [attempt], Isolation(oracle, half, at, asked + 1).log);
  }

  lemma JoinWroteUpTo<P(!new)>(poison: P -> bool, payloads: seq<P>, left: Outcome, right: Outcome, at: nat, m: nat, n: nat, cut: nat)
    requires at + m + n <= |payloads| && left.settled.Ok?
    requires WroteUpTo(poison, payloads, left, at, m, at + m) && WroteUpTo(poison, payloads, right, at + m, n, cut)
    ensures WroteUpTo(poison, payloads, Join(left, right), at, m + n, cut)
  {
    WrittenConcat(payloads, left.log, right.log);
    HealthyConcat(poison, payloads[at..at + m], payloads[at + m..cut]);
    assert payloads[at..cut] == payloads[at..at + m] + payloads[at + m..cut];
  }

  lemma HalvesOfSlice<P>(payloads: seq<P>, at: nat, n: nat, middle: nat)
    requires middle <= n && at + n <= |payloads|
    ensures payloads[at..at + n][..middle] == payloads[at..at + middle]
    ensures payloads[at..at + n][middle..] == payloads[at + middle..at + middle + (n - middle)]
  {
  }

  lemma IsolationInHalves<P>(oracle: Oracle<P>, payloads: seq<P>, at: nat, n: nat, middle: nat, asked: nat)
    requires n > 1 && at + n <= |payloads| && middle == n / 2
    ensures var left := Half(oracle, payloads[at..at + middle], at, asked);
            Isolation(oracle, payloads[at..at + n], at, asked) ==
              if left.settled.Err? then left
              else Join(left, Half(oracle, payloads[at + middle..at + middle + (n - middle)], at + middle, asked + |left.log|))
  {
    HalvesOfSlice(payloads, at, n, middle);
  }

  lemma LeftWroteUpTo<P>(poison: P -> bool, payloads: seq<P>, left: Outcome, at: nat, m: nat, n: nat, cut: nat)
    requires m <= n && at + n <= |payloads| && left.settled.Err? && WroteUpTo(poison, payloads, left, at, m, cut)
    ensures WroteUpTo(poison, payloads, left, at, n, cut)
  {
  }

  lemma RejectedWritesNothing<P(!new)>(oracle: Oracle<P>, poison: P -> bool, payloads: seq<P>, at: nat, asked: nat)
    requires at + 1 <= |payloads| && HasPoison(poison, payloads[at..at + 1])
    ensures WroteUpTo(poison, payloads, Isolation(oracle, payloads[at..at + 1], at, asked), at, 1, at + 1)
  {
    var slice := payloads[at..at + 1];
    assert slice == [payloads[at]] && poison(payloads[at]);
    assert Healthy(poison, slice) == [] + Healthy(poison, slice[1..]);
  }

  lemma BrokenOffLeft<P(!new)>(oracle: Oracle<P>, poison: P -> bool, payloads: seq<P>, at: nat, n: nat, middle: nat, asked: nat, cut: nat)
    requires n > 1 && at + n <= |payloads| && middle == n / 2
    requires Half(oracle, payloads[at..at + middle], at, asked).settled.Err?
    requires WroteUpTo(poison, payloads, Half(oracle, payloads[at..at + middle], at, asked), at, middle, cut)
    ensures WroteUpTo(poison, payloads, Isolation(oracle, payloads[at..at + n], at, asked), at, n, cut)
  {
    IsolationInHalves(oracle, payloads, at, n, middle, asked);
    LeftWroteUpTo(poison, payloads, Half(oracle, payloads[at..at + middle], at, asked), at, middle, n, cut);
  }

  lemma BothHalves<P(!new)>(oracle: Oracle<P>, poison: P -> bool, payloads: seq<P>, at: nat, n: nat, middle: nat, asked: nat,
                            left: Outcome, right: Outcome, leftCut: nat, cut: nat)
    requires n > 1 && at + n <= |payloads| && middle == n / 2
    requires left == Half(oracle, payloads[at..at + middle], at, asked) && left.settled.Ok?
    requires right == Half(oracle, payloads[at + middle..at + middle + (n - middle)], at + middle, asked + |left.log|)
    requires WroteUpTo(poison, payloads, left, at, middle, leftCut) && WroteUpTo(poison, payloads, right, at + middle, n - middle, cut)
    ensures WroteUpTo(poison, payloads, Isolation(oracle, payloads[at..at + n], at, asked), at, n, cut)
  {
    IsolationInHalves(oracle, payloads, at, n, middle, asked);
    assert leftCut == at + middle;
    JoinWroteUpTo(poison, payloads, left, right, at, middle, n - middle, cut);
    assert Isolation(oracle, payloads[at..at + n], at, asked) == Join(left, right);
  }

  lemma {:induction false} IsolationWritesHealthyPrefix<P(!new)>(
    oracle: Oracle<P>, poison: P -> bool, payloads: seq<P>, at: nat, n: nat, asked: nat) returns (cut: nat)
    requires n > 0 && at + n <= |payloads| && FailsOnPoison(oracle, poison) && HasPoison(poison, payloads[at..at + n])
    ensures WroteUpTo(poison, payloads, Isolation(oracle, payloads[at..at + n], at, asked), at, n, cut)
    decreases n, 0
  {
    if n == 1 {
      RejectedWritesNothing(oracle, poison, payloads, at, asked);
      cut := at + 1;
    } else {
      var middle := n / 2;
      var left := Half(oracle, payloads[at..at + middle], at, asked);
      var leftCut := HalfWritesHealthyPrefix(oracle, poison, payloads, at, middle, asked);
      if left.settled.Err? {
        cut := leftCut;
        BrokenOffLeft(oracle, poison, payloads, at, n, middle, asked, cut);
      } else {
        var right := Half(oracle, payloads[at + middle..at + middle + (n - middle)], at + middle, asked + |left.log|);
        cut := HalfWritesHealthyPrefix(oracle, poison, payloads, at + middle, n - middle, asked + |left.log|);
        BothHalves(oracle, poison, payloads, at, n, middle, asked, left, right, leftCut, cut);
      }
    }
  }

  /**
    A write that is not broken off commits exactly the healthy records, each once and in batch
    order; one that is broken off has committed a prefix of them and settled nothing.
   */
  lemma WriteCommitsHealthyPrefix<P(!new)>(oracle: Oracle<P>, poison: P -> bool, payloads: seq<P>, asked: nat) returns (cut: nat)
    requires FailsOnPoison(oracle, poison)
    ensures WroteUpTo(poison, payloads, WholeWrite(oracle, payloads, asked), 0, |payloads|, cut)
  {
    var attempt := Attempt(0, |payloads|, oracle(asked, payloads));
    WrittenOne(payloads, attempt);
    assert payloads[0..0] == [];
    if payloads == [] || (|payloads| == 1 && attempt.verdict != Committed) {
      cut := 0;
      assert payloads == [] ==> !HasPoison(poison, payloads);
    } else {
      assert payloads[0..0 + |payloads|] == payloads;
      cut := HalfWritesHealthyPrefix(oracle, poison, payloads, 0, |payloads|, asked);
      assert WholeWrite(oracle, payloads, asked) == Half(oracle, payloads, 0, asked);
    }
  }

  // ---- what was attempted -----------------------------------------------------------------

  /** Each attempt is one call of the oracle, in turn, over the records it names. */
  ghost predicate Answered<P>(oracle: Oracle<P>, payloads: seq<P>, log: seq<Attempt>, asked: nat) {
    forall i :: 0 <= i < |log| ==>
      log[i].lo <= log[i].hi <= |payloads| && log[i].verdict == oracle(asked + i, payloads[log[i].lo..log[i].hi])
  }

  /** A transient answer is the last one, and is what is raised. */
  ghost predicate StopsAtTransient(outcome: Outcome) {
    && (forall i :: 0 <= i < |outcome.log| && outcome.log[i].verdict == Transient ==>
          i == |outcome.log| - 1 && outcome.settled == Err(Transient))
    && (outcome.settled == Err(Transient) ==> outcome.log != [] && outcome.log[|outcome.log| - 1].verdict == Transient)
  }

  lemma AnsweredConcat<P>(oracle: Oracle<P>, payloads: seq<P>, a: seq<Attempt>, b: seq<Attempt>, asked: nat)
    requires Answered(oracle, payloads, a, asked) && Answered(oracle, payloads, b, asked + |a|)
    ensures Answered(oracle, payloads, a + b, asked)
  {
    forall i | 0 <= i < |a + b|
      ensures (a + b)[i].lo <= (a + b)[i].hi <= |payloads| && (a + b)[i].verdict == oracle(asked + i, payloads[(a + b)[i].lo..(a + b)[i].hi])
    {
      if i >= |a| {
        assert (a + b)[i] == b[i - |a|] && asked + i == asked + |a| + (i - |a|);
      }
    }
  }

  lemma NarrowedIsAnswered<P>(oracle: Oracle<P>, payloads: seq<P>, attempt: Attempt, inner: Outcome, asked: nat)
    requires attempt.lo <= attempt.hi <= |payloads| && attempt.verdict == oracle(asked, payloads[attempt.lo..attempt.hi]) == Deterministic
    requires Answered(oracle, payloads, inner.log, asked + 1) && StopsAtTransient(inner)
    ensures var outcome := Outcome([attempt] + inner.log, inner.settled);
            Answered(oracle, payloads, outcome.log, asked) && StopsAtTransient(outcome)
  {
    AnsweredConcat(oracle, payloads, [attempt], inner.log, asked);
  }

  lemma {:induction false} HalfIsAnswered<P>(oracle: Oracle<P>, payloads: seq<P>, at: nat, n: nat, asked: nat)
    requires n > 0 && at + n <= |payloads|
    ensures var outcome := Half(oracle, payloads[at..at + n], at, asked);
            Answered(oracle, payloads, outcome.log, asked) && StopsAtTransient(outcome)
    decreases n, 1
  {
    var half := payloads[at..at + n];
    var attempt := Attempt(at, at + n, oracle(asked, half));
    if attempt.verdict == Deterministic {
      IsolationIsAnswered(oracle, payloads, at, n, asked + 1);
      NarrowedIsAnswered(oracle, payloads, attempt, Isolation(oracle, half, at, asked + 1), asked);
    }
  }

  lemma {:induction false} IsolationIsAnswered<P>(oracle: Oracle<P>, payloads: seq<P>, at: nat, n: nat, asked: nat)
    requires n > 0 && at + n <= |payloads|
    ensures var outcome := Isolation(oracle, payloads[at..at + n], at, asked);
            Answered(oracle, payloads, outcome.log, asked) && StopsAtTransient(outcome)
    decreases n, 0
  {
    if n > 1 {
      var middle := n / 2;
      var left := Half(oracle, payloads[at..at + middle], at, asked);
      HalfIsAnswered(oracle, payloads, at, middle, asked);
      IsolationInHalves(oracle, payloads, at, n, middle, asked);
      if left.settled.Ok? {
        HalfIsAnswered(oracle, payloads, at + middle, n - middle, asked + |left.log|);
        JoinIsAnswered(oracle, payloads, left,
                       Half(oracle, payloads[at + middle..at + middle + (n - middle)], at + middle, asked + |left.log|), asked);
      }
    }
  }

  lemma JoinIsAnswered<P>(oracle: Oracle<P>, payloads: seq<P>, left: Outcome, right: Outcome, asked: nat)
    requires left.settled.Ok? && StopsAtTransient(left) && StopsAtTransient(right)
    requires Answered(oracle, payloads, left.log, asked) && Answered(oracle, payloads, right.log, asked + |left.log|)
    ensures Answered(oracle, payloads, Join(left, right).log, asked) && StopsAtTransient(Join(left, right))
  {
    AnsweredConcat(oracle, payloads, left.log, right.log, asked);
  }

  /**
    The whole batch is tried first; a transient answer, or the failure of a batch of at most one
    record, is raised at once; any other deterministic failure is narrowed, first by the first
    half, and a transient answer on the way ends it.
   */
  lemma WriteAsksInTurn<P>(oracle: Oracle<P>, payloads: seq<P>, asked: nat)
    ensures var outcome := WholeWrite(oracle, payloads, asked);
            && Answered(oracle, payloads, outcome.log, asked) && StopsAtTransient(outcome)
            && outcome.log != [] && outcome.log[0].lo == 0 && outcome.log[0].hi == |payloads|
            && (oracle(asked, payloads) == Committed ==> |outcome.log| == 1 && outcome.settled.Ok?)
            && (oracle(asked, payloads) != Committed && |payloads| <= 1 ==> |outcome.log| == 1 && outcome.settled == Err(oracle(asked, payloads)))
            && (oracle(asked, payloads) == Deterministic && |payloads| > 1 ==>
                  |outcome.log| > 1 && outcome.log[1].lo == 0 && outcome.log[1].hi == |payloads| / 2)
  {
    assert payloads[0..|payloads|] == payloads;
    var attempt := Attempt(0, |payloads|, oracle(asked, payloads));
    if |payloads| > 1 && attempt.verdict == Deterministic {
      var inner := Isolation(oracle, payloads, 0, asked + 1);
      IsolationIsAnswered(oracle, payloads, 0, |payloads|, asked + 1);
      NarrowedIsAnswered(oracle, payloads, attempt, inner, asked);
      FirstHalfIsNext(oracle, payloads, asked + 1);
      assert WholeWrite(oracle, payloads, asked).log == [attempt] + inner.log;
    }
  }

  lemma FirstHalfIsNext<P>(oracle: Oracle<P>, payloads: seq<P>, asked: nat)
    requires |payloads| > 1
    ensures var log := Isolation(oracle, payloads, 0, asked).log;
            log != [] && log[0].lo == 0 && log[0].hi == |payloads| / 2
  {
    var left := Half(oracle, payloads[..|payloads| / 2], 0, asked);
    assert left.log != [] && left.log[0].lo == 0 && left.log[0].hi == |payloads| / 2;
  }
}
