/**
  Batches broken off by a transient failure and delivered again: however often, and wherever each
  was cut, the database ends as one undisturbed delivery would leave it, update times aside.
 */
module RetryConvergence {
  import opened Wrappers
  import opened Rows
  import opened GraphWrites
  import opened Catalog
  import opened PoisonIsolation

  /** The database without its update times. */
  function Timeless(db: Database): Database {
    Database(Still(db.entities), db.graph)
  }

  function Frozen(ctx: Context): Context {
    ctx.(now := 0)
  }

  /** Writing records one at a time, all of them resolved. */
  function Saved(ctx: Context, table: Table, db: Database, m: Message): Database {
    var after := Persist(ctx, table, db, m);
    if after.Some? then after.value else db
  }

  function SavedAll(ctx: Context, table: Table, db: Database, messages: seq<Message>): Database {
    if messages == [] then db
    else Saved(ctx, table, SavedAll(ctx, table, db, messages[..|messages| - 1]), messages[|messages| - 1])
  }

  lemma {:induction false} SavedAllIsPersistAll(ctx: Context, table: Table, db: Database, messages: seq<Message>)
    requires Resolved(ctx, table, messages)
    ensures PersistAll(ctx, table, db, messages) == Some(SavedAll(ctx, table, db, messages))
  {
    if messages != [] {
      var init, last := messages[..|messages| - 1], messages[|messages| - 1];
      assert messages == init + [last];
      SavedAllIsPersistAll(ctx, table, db, init);
    }
  }

  lemma {:induction false} SavedAllConcat(ctx: Context, table: Table, db: Database, a: seq<Message>, b: seq<Message>)
    ensures SavedAll(ctx, table, db, a + b) == SavedAll(ctx, table, SavedAll(ctx, table, db, a), b)
  {
    if b == [] {
      assert a + b == a;
    } else {
      var init, last := b[..|b| - 1], b[|b| - 1];
      assert (a + b)[..|a + b| - 1] == a + init && (a + b)[|a + b| - 1] == last;
      SavedAllConcat(ctx, table, db, a, init);
    }
  }

  // ---- update times decide nothing --------------------------------------------------------

  lemma SavedIsTimeless(ctx: Context, table: Table, db: Database, m: Message)
    ensures Timeless(Saved(ctx, table, db, m)) == Saved(Frozen(ctx), table, Timeless(db), m)
  {
    SameGate(table, db, m);
    SameRowTimeless(ctx, table, db, m);
    SameChange(ctx, table, m);
    if ctx.resolve(DocId(table, m.id)).Some? {
      TimelessPut(db.entities, DocId(table, m.id), Persisted(ctx, table, Lookup(db.entities, DocId(table, m.id)), m));
    }
  }

  function Still(entities: map<DocId, Entity>): map<DocId, Entity> {
    map d | d in entities :: entities[d].(updatedAt := 0)
  }

  lemma TimelessPut(entities: map<DocId, Entity>, doc: DocId, row: Entity)
    ensures Still(entities[doc := row]) == Still(entities)[doc := row.(updatedAt := 0)]
  {
  }

  lemma SameGate(table: Table, db: Database, m: Message)
    ensures Unchanged(Lookup(db.entities, DocId(table, m.id)), m) <==> Unchanged(Lookup(Timeless(db).entities, DocId(table, m.id)), m)
  {
  }

  lemma SameRowTimeless(ctx: Context, table: Table, db: Database, m: Message)
    ensures Persisted(ctx, table, Lookup(db.entities, DocId(table, m.id)), m).(updatedAt := 0)
         == Persisted(Frozen(ctx), table, Lookup(Timeless(db).entities, DocId(table, m.id)), m)
  {
  }

  lemma SameChange(ctx: Context, table: Table, m: Message)
    ensures ChangeOf(ctx, table, m) == ChangeOf(Frozen(ctx), table, m)
  {
  }

  lemma {:induction false} SavedAllIsTimeless(ctx: Context, table: Table, db: Database, messages: seq<Message>)
    ensures Timeless(SavedAll(ctx, table, db, messages)) == SavedAll(Frozen(ctx), table, Timeless(db), messages)
  {
    if messages != [] {
      var init, last := messages[..|messages| - 1], messages[|messages| - 1];
      SavedAllIsTimeless(ctx, table, db, init);
      SavedIsTimeless(ctx, table, SavedAll(ctx, table, db, init), last);
    }
  }

  // ---- writing again changes nothing ------------------------------------------------------

  /** A row that holds a message's content, with nothing left to fill in. */
  predicate Holds(ctx: Context, table: Table, db: Database, m: Message) {
    var doc := DocId(table, m.id);
    && Unchanged(Lookup(db.entities, doc), m)
    && (table == RELEASES ==> db.entities[doc].media.Some?)
    && db.entities[doc].item == ctx.resolve(doc) && db.entities[doc].updatedAt == ctx.now
  }

  lemma SavedHolds(ctx: Context, table: Table, db: Database, m: Message)
    requires ctx.resolve(DocId(table, m.id)).Some?
    ensures Holds(ctx, table, Saved(ctx, table, db, m), m)
  {
  }

  lemma OthersHold(ctx: Context, table: Table, db: Database, m: Message, other: Message)
    requires Holds(ctx, table, db, other) && m.id != other.id
    ensures Holds(ctx, table, Saved(ctx, table, db, m), other)
  {
    assert DocId(table, m.id) != DocId(table, other.id);
  }

  lemma SavingHeldIsNothing(ctx: Context, table: Table, db: Database, m: Message)
    requires Holds(ctx, table, db, m)
    ensures Saved(ctx, table, db, m) == db
  {
    var doc := DocId(table, m.id);
    assert db.entities[doc := db.entities[doc]] == db.entities;
  }

  lemma {:induction false} SavedAllHold(ctx: Context, table: Table, db: Database, messages: seq<Message>)
    requires OnePerDocument(messages) && Resolved(ctx, table, messages)
    ensures forall m :: m in messages ==> Holds(ctx, table, SavedAll(ctx, table, db, messages), m)
  {
    if messages != [] {
      var init, last := messages[..|messages| - 1], messages[|messages| - 1];
      assert messages == init + [last];
      LastIsNew(init, last);
      SavedAllHold(ctx, table, db, init);
      var before := SavedAll(ctx, table, db, init);
      SavedHolds(ctx, table, before, last);
      forall m | m in init ensures Holds(ctx, table, SavedAll(ctx, table, db, messages), m) {
        assert m.id in IdsOf(init);
        OthersHold(ctx, table, before, last, m);
      }
    }
  }

  lemma {:induction false} SavingAllHeldIsNothing(ctx: Context, table: Table, db: Database, messages: seq<Message>)
    requires forall m :: m in messages ==> Holds(ctx, table, db, m)
    ensures SavedAll(ctx, table, db, messages) == db
  {
    if messages != [] {
      var init, last := messages[..|messages| - 1], messages[|messages| - 1];
      assert messages == init + [last];
      SavingAllHeldIsNothing(ctx, table, db, init);
      SavingHeldIsNothing(ctx, table, db, last);
    }
  }

  /** A shorter prefix after a longer one changes nothing. */
  lemma ShorterAgain(ctx: Context, table: Table, db: Database, messages: seq<Message>, p: nat, c: nat)
    requires c <= p <= |messages| && OnePerDocument(messages[..p]) && Resolved(ctx, table, messages[..p])
    ensures SavedAll(ctx, table, SavedAll(ctx, table, db, messages[..p]), messages[..c]) == SavedAll(ctx, table, db, messages[..p])
  {
    SavedAllHold(ctx, table, db, messages[..p]);
    assert forall m :: m in messages[..c] ==> m in messages[..p];
    SavingAllHeldIsNothing(ctx, table, SavedAll(ctx, table, db, messages[..p]), messages[..c]);
  }

  /** A whole list after its beginning leaves what the whole list leaves. */
  lemma LongerAgain(ctx: Context, table: Table, db: Database, a: seq<Message>, b: seq<Message>)
    requires OnePerDocument(a) && Resolved(ctx, table, a)
    ensures SavedAll(ctx, table, SavedAll(ctx, table, db, a), a + b) == SavedAll(ctx, table, db, a + b)
  {
    var before := SavedAll(ctx, table, db, a);
    SavedAllHold(ctx, table, db, a);
    SavingAllHeldIsNothing(ctx, table, before, a);
    SavedAllConcat(ctx, table, before, a, b);
    SavedAllConcat(ctx, table, db, a, b);
  }

  lemma PrefixOfDistinct(ctx: Context, table: Table, messages: seq<Message>, p: nat)
    requires OnePerDocument(messages) && Resolved(ctx, table, messages) && p <= |messages|
    ensures OnePerDocument(messages[..p]) && Resolved(ctx, table, messages[..p])
  {
  }

  /** A delivery as far as `c` after one as far as `p` leaves what the further of the two leaves. */
  lemma PrefixAgain(ctx: Context, table: Table, db: Database, messages: seq<Message>, p: nat, c: nat)
    requires OnePerDocument(messages) && Resolved(ctx, table, messages) && p <= |messages| && c <= |messages|
    ensures SavedAll(ctx, table, SavedAll(ctx, table, db, messages[..p]), messages[..c])
         == SavedAll(ctx, table, db, messages[..if p < c then c else p])
  {
    PrefixOfDistinct(ctx, table, messages, p);
    if c <= p {
      ShorterAgain(ctx, table, db, messages, p, c);
    } else {
      assert messages[..c] == messages[..p] + messages[p..c];
      LongerAgain(ctx, table, db, messages[..p], messages[p..c]);
    }
  }

  // ---- replaying what a delivery committed ------------------------------------------------

  /** One attempt of a delivery on the database: a committed one is a batch transaction. */
  function Attempted(ctx: Context, table: Table, db: Database, payloads: seq<Message>, attempt: Attempt): Database
    requires attempt.lo <= attempt.hi <= |payloads|
  {
    var after := ProcessBatch(ctx, table, db, payloads[attempt.lo..attempt.hi]);
    if attempt.verdict == Committed && after.Some? then after.value else db
  }

  function Replay(ctx: Context, clock: nat -> int, table: Table, db: Database, payloads: seq<Message>, log: seq<Attempt>, n: nat): Database
    requires Within(log, 0, |payloads|)
    decreases |log|
  {
    if log == [] then db
    else Replay(ctx, clock, table, Attempted(ctx.(now := clock(n)), table, db, payloads, log[0]), payloads, log[1..], n + 1)
  }

  lemma BatchIsSavedAll(ctx: Context, table: Table, db: Database, messages: seq<Message>)
    requires OnePerDocument(messages) && Resolved(ctx, table, messages) && Identified(ctx, db.entities)
    ensures ProcessBatch(ctx, table, db, messages) == Some(SavedAll(ctx, table, db, messages))
    ensures Identified(ctx, SavedAll(ctx, table, db, messages).entities)
  {
    BatchRefinesSingle(ctx, table, db, messages);
    SavedAllIsPersistAll(ctx, table, db, messages);
    IdentitySurvives(ctx, table, db, Latest(messages));
  }

  lemma AttemptedIsSaved(ctx: Context, table: Table, db: Database, payloads: seq<Message>, attempt: Attempt)
    requires attempt.lo <= attempt.hi <= |payloads|
    requires OnePerDocument(payloads) && Resolved(ctx, table, payloads) && Identified(ctx, db.entities)
    ensures var written := if attempt.verdict == Committed then payloads[attempt.lo..attempt.hi] else [];
            var after := Attempted(ctx, table, db, payloads, attempt);
            Timeless(after) == SavedAll(Frozen(ctx), table, Timeless(db), written) && Identified(ctx, after.entities)
  {
    if attempt.verdict == Committed {
      var slice := payloads[attempt.lo..attempt.hi];
      assert forall m :: m in slice ==> m in payloads;
      BatchIsSavedAll(ctx, table, db, slice);
      SavedAllIsTimeless(ctx, table, db, slice);
    }
  }

  /** A delivery leaves, update times aside, the records it wrote, one at a time. */
  lemma {:induction false} ReplayIsSaved(
    ctx: Context, clock: nat -> int, table: Table, db: Database, payloads: seq<Message>, log: seq<Attempt>, n: nat)
    requires Within(log, 0, |payloads|)
    requires OnePerDocument(payloads) && Resolved(ctx, table, payloads) && Identified(ctx, db.entities)
    ensures Timeless(Replay(ctx, clock, table, db, payloads, log, n)) == SavedAll(Frozen(ctx), table, Timeless(db), Written(payloads, log))
    ensures Identified(ctx, Replay(ctx, clock, table, db, payloads, log, n).entities)
    decreases |log|
  {
    if log != [] {
      var now := ctx.(now := clock(n));
      var first := if log[0].verdict == Committed then payloads[log[0].lo..log[0].hi] else [];
      AttemptedIsSaved(now, table, db, payloads, log[0]);
      assert Frozen(now) == Frozen(ctx);
      ReplayIsSaved(ctx, clock, table, Attempted(now, table, db, payloads, log[0]), payloads, log[1..], n + 1);
      SavedAllConcat(Frozen(ctx), table, Timeless(db), first, Written(payloads, log[1..]));
    }
  }

  // ---- deliveries -------------------------------------------------------------------------

  /** One delivery of the batch: how its attempts are answered, and when each runs. */
  datatype Delivery = Delivery(oracle: Oracle<Message>, clock: nat -> int)

  function Delivered(ctx: Context, table: Table, db: Database, payloads: seq<Message>, delivery: Delivery): Database
    requires Within(WholeWrite(delivery.oracle, payloads, 0).log, 0, |payloads|)
  {
    Replay(ctx, delivery.clock, table, db, payloads, WholeWrite(delivery.oracle, payloads, 0).log, 0)
  }

  lemma {:induction false} HealthyMembers(poison: Message -> bool, batch: seq<Message>)
    requires OnePerDocument(batch)
    ensures OnePerDocument(Healthy(poison, batch)) && forall m :: m in Healthy(poison, batch) ==> m in batch
  {
    if batch != [] {
      assert batch == [batch[0]] + batch[1..];
      HealthyMembers(poison, batch[1..]);
      var kept := Healthy(poison, batch[1..]);
      forall i | 0 <= i < |kept| ensures kept[i].id != batch[0].id {
        assert kept[i] in batch[1..];
      }
    }
  }

  /** A delivery writes a prefix of the healthy records, all of them when nothing broke it off. */
  lemma DeliveryWritesAPrefix(ctx: Context, table: Table, db: Database, payloads: seq<Message>, delivery: Delivery, poison: Message -> bool)
    returns (c: nat)
    requires OnePerDocument(payloads) && Resolved(ctx, table, payloads) && Identified(ctx, db.entities)
    requires FailsOnPoison(delivery.oracle, poison)
    ensures c <= |Healthy(poison, payloads)| && Within(WholeWrite(delivery.oracle, payloads, 0).log, 0, |payloads|)
    ensures WholeWrite(delivery.oracle, payloads, 0).settled.Ok? ==> c == |Healthy(poison, payloads)|
    ensures var after := Delivered(ctx, table, db, payloads, delivery);
            Timeless(after) == SavedAll(Frozen(ctx), table, Timeless(db), Healthy(poison, payloads)[..c]) && Identified(ctx, after.entities)
  {
    var outcome := WholeWrite(delivery.oracle, payloads, 0);
    var cut := WriteCommitsHealthyPrefix(delivery.oracle, poison, payloads, 0);
    assert payloads[0..cut] == payloads[..cut];
    HealthyConcat(poison, payloads[..cut], payloads[cut..]);
    assert payloads == payloads[..cut] + payloads[cut..];
    c := |Healthy(poison, payloads[..cut])|;
    assert Healthy(poison, payloads)[..c] == Healthy(poison, payloads[..cut]);
    if outcome.settled.Ok? {
      assert payloads[cut..] == [];
    }
    ReplayIsSaved(ctx, delivery.clock, table, db, payloads, outcome.log, 0);
  }

  ghost predicate Deliverable(delivery: Delivery, poison: Message -> bool) {
    FailsOnPoison(delivery.oracle, poison)
  }

  ghost function AfterAll(ctx: Context, table: Table, db: Database, payloads: seq<Message>, deliveries: seq<Delivery>): Database {
    if deliveries == [] then db
    else
      var before := AfterAll(ctx, table, db, payloads, deliveries[..|deliveries| - 1]);
      var last := deliveries[|deliveries| - 1];
      if Within(WholeWrite(last.oracle, payloads, 0).log, 0, |payloads|) then Delivered(ctx, table, before, payloads, last) else before
  }

  lemma {:induction false} DeliveriesWriteAPrefix(
    ctx: Context, table: Table, db: Database, payloads: seq<Message>, deliveries: seq<Delivery>, poison: Message -> bool) returns (p: nat)
    requires OnePerDocument(payloads) && Resolved(ctx, table, payloads) && Identified(ctx, db.entities)
    requires forall i :: 0 <= i < |deliveries| ==> Deliverable(deliveries[i], poison)
    ensures p <= |Healthy(poison, payloads)|
    ensures deliveries != [] && WholeWrite(deliveries[|deliveries| - 1].oracle, payloads, 0).settled.Ok? ==> p == |Healthy(poison, payloads)|
    ensures var after := AfterAll(ctx, table, db, payloads, deliveries);
            Timeless(after) == SavedAll(Frozen(ctx), table, Timeless(db), Healthy(poison, payloads)[..p]) && Identified(ctx, after.entities)
  {
    if deliveries == [] {
      p := 0;
    } else {
      var earlier := DeliveriesWriteAPrefix(ctx, table, db, payloads, deliveries[..|deliveries| - 1], poison);
      var before := AfterAll(ctx, table, db, payloads, deliveries[..|deliveries| - 1]);
      var last := deliveries[|deliveries| - 1];
      assert Deliverable(last, poison);
      var c := DeliveryWritesAPrefix(ctx, table, before, payloads, last, poison);
      HealthyMembers(poison, payloads);
      assert Resolved(Frozen(ctx), table, Healthy(poison, payloads));
      PrefixAgain(Frozen(ctx), table, Timeless(db), Healthy(poison, payloads), earlier, c);
      p := if earlier < c then c else earlier;
    }
  }

  /**
    However many deliveries were broken off, and wherever: once one is not, the database is what
    its healthy records leave written one at a time, and so what one undisturbed delivery leaves.
   */
  lemma RetriesConverge(ctx: Context, table: Table, db: Database, payloads: seq<Message>, deliveries: seq<Delivery>, once: Delivery,
                        poison: Message -> bool)
    requires OnePerDocument(payloads) && Resolved(ctx, table, payloads) && Identified(ctx, db.entities)
    requires (forall i :: 0 <= i < |deliveries| ==> Deliverable(deliveries[i], poison)) && Deliverable(once, poison)
    requires deliveries != [] && WholeWrite(deliveries[|deliveries| - 1].oracle, payloads, 0).settled.Ok?
    requires WholeWrite(once.oracle, payloads, 0).settled.Ok?
    ensures Timeless(AfterAll(ctx, table, db, payloads, deliveries)) == Timeless(AfterAll(ctx, table, db, payloads, [once]))
    ensures Some(Timeless(AfterAll(ctx, table, db, payloads, deliveries)))
         == PersistAll(Frozen(ctx), table, Timeless(db), Healthy(poison, payloads))
  {
    var p := DeliveriesWriteAPrefix(ctx, table, db, payloads, deliveries, poison);
    var q := DeliveriesWriteAPrefix(ctx, table, db, payloads, [once], poison);
    var healthy := Healthy(poison, payloads);
    assert healthy[..p] == healthy && healthy[..q] == healthy;
    HealthyMembers(poison, payloads);
    SavedAllIsPersistAll(Frozen(ctx), table, Timeless(db), healthy);
  }
}
