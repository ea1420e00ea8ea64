/**
 The batch manager (internal/batch/manager.go:247-285, 337-459): the manager of Managers over the
 batches of BatchRuns.  A batch begins when Start registers it; Close cancels it.
 */
module BatchManagers {
  import Lists
  import opened Runs
  import opened Managers
  import Batches
  import B = BatchRuns

  type BatchManager = Manager<B.Batch>

  /** The requested concurrency, if it is in range. */
  function Allowed(concurrency: int, limit: nat): nat {
    if concurrency <= 0 || concurrency > limit then limit else concurrency
  }

  /** A new batch of a non-empty plan. */
  ghost predicate Begins(limit: nat, b: B.Batch) {
    exists entries: seq<Batches.Entry>, concurrency: int :: entries != [] && b == B.NewBatch(entries, Allowed(concurrency, limit))
  }

  /** `limit` is the largest concurrency of one batch. */
  ghost function BatchesUpTo(limit: nat): Kind<B.Batch, B.Step> {
    Kind(B.PROTOCOL, (id: Id, b: B.Batch) => Begins(limit, b), B.Cancel, (b: B.Batch) => b.cancelRequested, (b: B.Batch) => b.done)
  }

  ghost predicate Stored(limit: nat, m: BatchManager) {
    limit >= 1 && Reachable(BatchesUpTo(limit), m)
  }

  ghost predicate Later(limit: nat, m: BatchManager, n: BatchManager) {
    Leads(Protocol(BatchesUpTo(limit)), m, n)
  }

  /** An end and a request are final, and cancelling achieves one of them. */
  lemma BatchStep(b: B.Batch, step: B.Step)
    requires B.Inv(b) && B.Enabled(b, step)
    ensures b.done ==> B.Next(b, step).done
    ensures b.cancelRequested ==> B.Next(b, step).cancelRequested
    ensures step.Cancel? ==> B.Next(b, step).done || B.Next(b, step).cancelRequested
  {
  }

  lemma BatchesAreLawful(limit: nat)
    requires limit >= 1
    ensures Lawful(BatchesUpTo(limit), B.Inv)
  {
    var k := BatchesUpTo(limit);
    B.StepsKeepInv();
    forall id, b | k.begins(id, b) ensures B.Inv(b) {
      var entries: seq<Batches.Entry>, concurrency: int :| entries != [] && b == B.NewBatch(entries, Allowed(concurrency, limit));
      B.NewBatchInv(entries, Allowed(concurrency, limit));
    }
    forall b, step | B.Inv(b) && B.Enabled(b, step) ensures Lasting(k, b, step) {
      BatchStep(b, step);
    }
    forall b | B.Inv(b) ensures Cancellable(k, b) {
      BatchStep(b, B.Cancel);
    }
  }

  lemma StoredInv(limit: nat, m: BatchManager)
    requires Stored(limit, m)
    ensures Lawful(BatchesUpTo(limit), B.Inv) && Inv(BatchesUpTo(limit), B.Inv, m)
  {
    BatchesAreLawful(limit);
    ReachableInv(BatchesUpTo(limit), B.Inv, m);
  }

  lemma StoredBatchInv(limit: nat, m: BatchManager, id: Id)
    requires Stored(limit, m) && id in m.items
    ensures B.Inv(m.items[id].value)
  {
    StoredInv(limit, m);
    assert ItemInv(BatchesUpTo(limit), B.Inv, id, m.items[id]);
  }

  lemma DoneIsTerminal(limit: nat, m: BatchManager, id: Id)
    requires Stored(limit, m) && id in m.items
    ensures m.items[id].value.done <==> Batches.Terminal(m.items[id].value.state)
  {
    StoredBatchInv(limit, m, id);
  }

  lemma StoredSweep(limit: nat, m: BatchManager)
    requires Stored(limit, m)
    ensures SweepInv(BatchesUpTo(limit), m)
  {
    StoredInv(limit, m);
  }

  // ---- what holds after every run ----

  /** Whatever the manager does around it, a batch only makes runs of its own: all of BatchRuns applies to it. */
  lemma EveryBatchIsReachable(limit: nat, m: BatchManager, id: Id)
      returns (entries: seq<Batches.Entry>, concurrency: nat)
    requires Stored(limit, m) && id in m.items
    ensures |entries| >= 1 && 1 <= concurrency <= limit && Leads(B.PROTOCOL, B.NewBatch(entries, concurrency), m.items[id].value)
    ensures B.Reachable(m.items[id].value)
  {
    StoredInv(limit, m);
    assert ItemInv(BatchesUpTo(limit), B.Inv, id, m.items[id]);
    entries, concurrency := GrownFrom(limit, id, m.items[id].value);
  }

  lemma GrownFrom(limit: nat, id: Id, b: B.Batch) returns (entries: seq<Batches.Entry>, concurrency: nat)
    requires limit >= 1 && Grown(BatchesUpTo(limit), id, b)
    ensures |entries| >= 1 && 1 <= concurrency <= limit && Leads(B.PROTOCOL, B.NewBatch(entries, concurrency), b)
    ensures B.Reachable(b)
  {
    var start :| Begins(limit, start) && Leads(B.PROTOCOL, start, b);
    var asked: int;
    entries, asked :| entries != [] && start == B.NewBatch(entries, Allowed(asked, limit));
    concurrency := Allowed(asked, limit);
  }

  /** ... and it stays, and moves on from where it was. */
  lemma BatchesMoveOn(limit: nat, m: BatchManager, n: BatchManager, id: Id)
    requires Stored(limit, m) && Later(limit, m, n) && id in m.items
    ensures id in n.items && Leads(B.PROTOCOL, m.items[id].value, n.items[id].value)
  {
    StoredInv(limit, m);
    ItemsMoveOn(BatchesUpTo(limit), B.Inv, m, n, id);
  }

  function ActiveBatches(m: BatchManager): set<Id> {
    set id | id in m.items && !Batches.Terminal(m.items[id].value.state)
  }

  /** Batches that have not ended never exceed the limit, and every token taken is accounted for. */
  lemma BatchesWithinCapacity(limit: nat, m: BatchManager)
    requires Stored(limit, m)
    ensures |ActiveBatches(m)| <= m.capacity
    ensures m.tokens == m.starting + m.refused + |Holding(m.items)| <= m.capacity
  {
    StoredCapacity(limit, m);
    ActiveAreActive(limit, m);
  }

  lemma StoredCapacity(limit: nat, m: BatchManager)
    requires Stored(limit, m)
    ensures |Active(BatchesUpTo(limit), m.items)| <= m.capacity
    ensures m.tokens == m.starting + m.refused + |Holding(m.items)| <= m.capacity
  {
    StoredInv(limit, m);
    CapacityBoundsActiveWork(BatchesUpTo(limit), B.Inv, m);
  }

  lemma ActiveAreActive(limit: nat, m: BatchManager)
    requires Stored(limit, m)
    ensures ActiveBatches(m) == Active(BatchesUpTo(limit), m.items)
  {
    forall id | id in m.items ensures m.items[id].value.done <==> Batches.Terminal(m.items[id].value.state) {
      DoneIsTerminal(limit, m, id);
    }
  }

  function RunningIn(items: map<Id, Item<B.Batch>>, ids: seq<Id>): nat
    requires forall id :: id in ids ==> id in items
  {
    if ids == [] then 0
    else RunningIn(items, ids[..|ids| - 1]) + items[ids[|ids| - 1]].value.summary.running
  }

  /** What is running belongs to a batch that has not ended, and is at most `limit` in each. */
  lemma RunningInOne(limit: nat, m: BatchManager, id: Id)
    requires Stored(limit, m) && id in m.items
    ensures m.items[id].value.summary.running <= if id in ActiveBatches(m) then limit else 0
  {
    var b := m.items[id].value;
    var entries, concurrency := EveryBatchIsReachable(limit, m, id);
    B.ConcurrencyBoundsRunning(entries, concurrency, b);
    B.ReachableInv(b);
    if b.done {
      B.DoneAddsUp(b);
    }
  }

  lemma OneMoreShare(sum: nat, share: nat, k: nat, limit: nat, counted: bool)
    requires sum <= k * limit && share <= if counted then limit else 0
    ensures sum + share <= (k + if counted then 1 else 0) * limit
  {
    assert (k + 1) * limit == k * limit + limit;
  }

  function Among(ids: seq<Id>, active: set<Id>): set<Id> {
    set id | id in ids && id in active
  }

  lemma AmongMore(front: seq<Id>, last: Id, active: set<Id>)
    requires last !in front
    ensures |Among(front + [last], active)| == |Among(front, active)| + if last in active then 1 else 0
  {
    assert Among(front + [last], active) == Among(front, active) + if last in active then {last} else {};
  }

  lemma {:induction false} RunningInActive(items: map<Id, Item<B.Batch>>, ids: seq<Id>, active: set<Id>, limit: nat)
    requires Lists.NoRepetition(ids) && forall id :: id in ids ==> id in items
    requires forall id :: id in ids ==> items[id].value.summary.running <= if id in active then limit else 0
    ensures RunningIn(items, ids) <= |Among(ids, active)| * limit
  {
    if ids != [] {
      var front, last := ids[..|ids| - 1], ids[|ids| - 1];
      RunningInActive(items, front, active, limit);
      assert ids == front + [last];
      assert last !in front;
      AmongMore(front, last, active);
      OneMoreShare(RunningIn(items, front), items[last].value.summary.running, |Among(front, active)|, limit, last in active);
    }
  }

  /** Over all batches, the running entries never exceed the two limits multiplied. */
  lemma RunningIsBounded(limit: nat, m: BatchManager, ids: seq<Id>)
    requires Stored(limit, m) && Lists.NoRepetition(ids) && forall id :: id in ids ==> id in m.items
    ensures RunningIn(m.items, ids) <= m.capacity * limit
  {
    var active := ActiveBatches(m);
    forall id | id in ids ensures m.items[id].value.summary.running <= if id in active then limit else 0 {
      RunningInOne(limit, m, id);
    }
    RunningInActive(m.items, ids, active, limit);
    Lists.SubsetSize(Among(ids, active), active);
    BatchesWithinCapacity(limit, m);
    Product(|Among(ids, active)|, m.capacity, limit);
  }

  lemma Product(a: nat, b: nat, c: nat)
    requires a <= b
    ensures a * c <= b * c
  {
  }

  /** Nothing leaks: with nobody inside Start and every execution returned, all tokens are free. */
  lemma QuietBatchesAreFree(limit: nat, m: BatchManager)
    requires Stored(limit, m) && m.starting == 0 && m.refused == 0
    requires forall id :: id in m.items ==> m.items[id].released
    ensures m.tokens == 0
  {
    StoredInv(limit, m);
    QuietMeansFree(m);
  }

  /** What has ended stays as it ended, with its results and its summary. */
  lemma EndIsFinal(limit: nat, m: BatchManager, n: BatchManager, id: Id)
    requires Stored(limit, m) && Later(limit, m, n) && id in m.items && m.items[id].value.done
    ensures id in n.items
    ensures var b, c := m.items[id].value, n.items[id].value;
            c.done && c.state == b.state && c.results == b.results && c.summary == b.summary
  {
    var _, _ := EveryBatchIsReachable(limit, m, id);
    BatchesMoveOn(limit, m, n, id);
    B.FinishedIsFinal(m.items[id].value, n.items[id].value);
  }

  ghost predicate WillBeCancelled(b: B.Batch) {
    B.Inv(b) && b.cancelRequested && (b.done ==> b.state.Cancelled?)
  }

  lemma RequestDecides(b: B.Batch, c: B.Batch)
    requires WillBeCancelled(b) && Leads(B.PROTOCOL, b, c)
    ensures WillBeCancelled(c)
  {
    forall x, step | WillBeCancelled(x) && B.Enabled(x, step) ensures WillBeCancelled(B.Next(x, step)) {
      B.StepKeepsInv(x, step);
    }
    LeadsKeeps(B.PROTOCOL, WillBeCancelled, b, c);
  }

  /**
   Once the sweeping Close has returned, whatever batch exists later existed then, and it has
   ended for good or will end as cancelled.
   */
  lemma CloseEndsBatches(limit: nat, m: BatchManager, n: BatchManager, id: Id)
    requires Stored(limit, m) && m.closing.Swept? && Later(limit, m, n) && id in n.items
    ensures id in m.items
    ensures var b, c := m.items[id].value, n.items[id].value;
            if b.done then c.done && c.state == b.state
            else c.cancelRequested && (c.done ==> c.state.Cancelled?)
  {
    StoredInv(limit, m);
    CloseGuarantee(BatchesUpTo(limit), B.Inv, m, n, id);
    if m.items[id].value.done {
      EndIsFinal(limit, m, n, id);
    } else {
      StoredBatchInv(limit, m, id);
      RequestDecides(m.items[id].value, n.items[id].value);
    }
  }

  predicate SettledBatch(b: B.Batch) {
    b.done || b.cancelRequested
  }

  /**
   A second Close returns at once; all batches are settled exactly when the first Close has
   returned, or what that has yet to visit is settled anyway.
   */
  lemma SecondCloseSettlesIff(limit: nat, m: BatchManager)
    requires Stored(limit, m) && Enabled(BatchesUpTo(limit), m, CloseAgain)
    ensures (forall id :: id in m.items ==> SettledBatch(m.items[id].value))
            <==> m.closing.Swept? || forall id :: id in m.closing.todo ==> id in m.items && SettledBatch(m.items[id].value)
  {
    StoredSweep(limit, m);
    SecondCloseIff(BatchesUpTo(limit), m);
  }

  /** A batch gets the workers that were asked for, within the limit and the plan; an unusable request gets the limit. */
  lemma WorkersAsAsked(entries: seq<Batches.Entry>, asked: int, limit: nat)
    ensures var workers := |B.NewBatch(entries, Allowed(asked, limit)).workers|;
            && (1 <= asked <= limit ==> workers == if asked <= |entries| then asked else |entries|)
            && (asked < 1 || asked > limit ==> workers == if limit <= |entries| then limit else |entries|)
  {
  }
}
