/**
 The worker pool of one batch (internal/batch/manager.go:404-525) with Cancel, Close and the
 caller's context racing against it, as a transition system over the critical sections.
 */
module BatchRuns {
  import opened Lists
  import opened Options
  import opened Runs
  import opened Batches

  datatype Worker =
    | Idle
    | Taken(i: nat)
    | Admitted(i: nat)                  // the context was not cancelled when asked
    | Executing(i: nat)                 // inside runEntry
    | Finishing(i: nat, result: Result)
    | Gone

  predicate Holds(w: Worker) {
    !w.Idle? && !w.Gone?
  }

  datatype Batch = Batch(entries: seq<Entry>, state: State, results: seq<Result>, summary: Summary,
                         cancelRequested: bool, contextDone: bool, begun: bool, done: bool,
                         next: nat, workers: seq<Worker>, finished: set<nat>)

  function NewBatch(entries: seq<Entry>, concurrency: nat): Batch {
    var results := seq(|entries|, i requires 0 <= i < |entries| => ResultForEntry(entries[i]));
    Batch(entries, Starting, results, SummaryOf(results), false, false, false, false, 0,
          seq(if concurrency > |entries| then |entries| else concurrency, _ => Idle), {})
  }

  datatype Step =
    | Cancel                 // Cancel, or Close visiting this batch
    | ContextDone            // the context is cancelled, by them or by the caller of Start
    | Begin
    | Take(w: nat)
    | Leave(w: nat)
    | Decide(w: nat)         // unsupported, cancelled, or admitted
    | MarkRunning(w: nat)
    | Return(w: nat, diagnostic: Diagnostic, context: ContextError, panicked: bool)
    | Finish(w: nat)
    | End                    // after all workers are gone

  predicate Enabled(b: Batch, step: Step) {
    match step
    case Cancel => true
    case ContextDone => true
    case Begin => !b.begun
    case Take(w) => b.begun && w < |b.workers| && b.workers[w].Idle? && b.next < |b.entries|
    case Leave(w) => b.begun && w < |b.workers| && b.workers[w].Idle? && b.next >= |b.entries|
    case Decide(w) => w < |b.workers| && b.workers[w].Taken? && b.workers[w].i < |b.entries|
    case MarkRunning(w) => w < |b.workers| && b.workers[w].Admitted? && b.workers[w].i < |b.results|
    case Return(w, _, context, _) =>
      w < |b.workers| && b.workers[w].Executing? && b.workers[w].i < |b.entries| && (context.ContextCanceled? ==> b.contextDone)
    case Finish(w) => w < |b.workers| && b.workers[w].Finishing? && b.workers[w].i < |b.results|
    case End => b.begun && !b.done && forall w :: 0 <= w < |b.workers| ==> b.workers[w].Gone?
  }

  function WithResult(b: Batch, i: nat, r: Result): Batch
    requires i < |b.results|
  {
    var results := b.results[i := r];
    b.(results := results, summary := SummaryOf(results))
  }

  function Decision(b: Batch, i: nat): Worker
    requires i < |b.entries|
  {
    if b.entries[i].unsupported then Finishing(i, UnsupportedResult(b.entries[i]))
    else if b.cancelRequested || b.contextDone then Finishing(i, CancelledResult(b.entries[i]))
    else Admitted(i)
  }

  function Next(b: Batch, step: Step): Batch {
    if !Enabled(b, step) then b else
    match step
    case Cancel => b.(cancelRequested := b.cancelRequested || !Terminal(b.state), state := Requested(b.state))
    case ContextDone => b.(contextDone := true)
    case Begin => b.(begun := true, state := Begun(b.state))
    case Take(w) => b.(workers := b.workers[w := Taken(b.next)], next := b.next + 1)
    case Leave(w) => b.(workers := b.workers[w := Gone])
    case Decide(w) => b.(workers := b.workers[w := Decision(b, b.workers[w].i)])
    case MarkRunning(w) =>
      var i := b.workers[w].i;
      WithResult(b.(workers := b.workers[w := Executing(i)]), i, Started(b.results[i]))
    case Return(w, diagnostic, context, panicked) =>
      var i := b.workers[w].i;
      b.(workers := b.workers[w := Finishing(i, EntryResult(b.entries[i], diagnostic, context, panicked))])
    case Finish(w) =>
      var i := b.workers[w].i;
      WithResult(b.(workers := b.workers[w := Idle], finished := b.finished + {i}), i, b.workers[w].result)
    case End =>
      b.(done := true, summary := SummaryOf(b.results),
         state := EndState(b.cancelRequested || b.contextDone))
  }

  const PROTOCOL: System<Batch, Step> := System(Enabled, Next)

  ghost predicate Reachable(b: Batch) {
    exists entries, concurrency ::
      |entries| >= 1 && concurrency >= 1 && Leads(PROTOCOL, NewBatch(entries, concurrency), b)
  }

  // ---- the invariant ----

  /** A result that an entry can end with.  Only a timed-out complete report is left without a final state. */
  ghost predicate FinalFor(b: Batch, entry: Entry, r: Result) {
    && r.id == entry.id && r.captured == entry.captured
    && !r.outcome.NotRun?
    && (TerminalEntry(r.state) <==> !r.error.TimedOut?)
    && (r.error.TimedOut? ==> r.state.EntryQueued? && r.outcome.Partial? && r.report.Some? && r.report.value.status.ReportComplete?)
    && (entry.unsupported <==> r.error.UnsupportedService?)
    && (r.outcome.OutcomeCancelled? ==> b.cancelRequested || b.contextDone)
  }

  ghost predicate Held(b: Batch, i: nat) {
    exists v :: 0 <= v < |b.workers| && Holds(b.workers[v]) && b.workers[v].i == i
  }

  ghost predicate Slots(b: Batch) {
    && b.next <= |b.entries|
    && (forall v :: 0 <= v < |b.workers| && Holds(b.workers[v]) ==> b.workers[v].i < b.next && b.workers[v].i !in b.finished)
    && (forall v, w :: 0 <= v < w < |b.workers| && Holds(b.workers[v]) && Holds(b.workers[w]) ==> b.workers[v].i != b.workers[w].i)
    && (forall i :: 0 <= i < b.next && i !in b.finished ==> Held(b, i))
    && (forall i :: i in b.finished ==> i < b.next)
    && (forall v :: 0 <= v < |b.workers| && b.workers[v].Gone? ==> b.next == |b.entries|)
  }

  /** What the result of a job looks like while a worker holds it. */
  ghost predicate WorkerOk(b: Batch, w: Worker) {
    Holds(w) ==>
      && w.i < |b.entries| && w.i < |b.results|
      && (w.Taken? ==> b.results[w.i] == ResultForEntry(b.entries[w.i]))
      && (w.Admitted? ==> b.results[w.i] == ResultForEntry(b.entries[w.i]) && !b.entries[w.i].unsupported)
      && (w.Executing? ==> b.results[w.i] == ResultForEntry(b.entries[w.i]).(state := EntryRunning) && !b.entries[w.i].unsupported)
      && (w.Finishing? ==> FinalFor(b, b.entries[w.i], w.result))
  }

  ghost predicate ResultOk(b: Batch, i: nat)
    requires i < |b.results| == |b.entries|
  {
    var r := b.results[i];
    && r.id == b.entries[i].id && r.captured == b.entries[i].captured
    && (i in b.finished ==> FinalFor(b, b.entries[i], r))
    && (i >= b.next ==> r == ResultForEntry(b.entries[i]))
  }

  ghost predicate ResultsOk(b: Batch) {
    && |b.results| == |b.entries|
    && b.summary == SummaryOf(b.results)
    && (forall i :: 0 <= i < |b.entries| ==> ResultOk(b, i))
    && (forall v :: 0 <= v < |b.workers| ==> WorkerOk(b, b.workers[v]))
  }

  ghost predicate Life(b: Batch) {
    && |b.workers| >= 1
    && (b.done <==> Terminal(b.state))
    && (b.done ==> b.begun && !b.state.Failed? && forall w :: 0 <= w < |b.workers| ==> b.workers[w].Gone?)
    && (!b.done && b.cancelRequested ==> b.state.Cancelling?)
    && (!b.done && !b.cancelRequested ==> b.state == if b.begun then Running else Starting)
    && (!b.begun ==> forall w :: 0 <= w < |b.workers| ==> b.workers[w].Idle?)
  }

  ghost predicate Inv(b: Batch) {
    Slots(b) && ResultsOk(b) && Life(b)
  }

  lemma NewBatchInv(entries: seq<Entry>, concurrency: nat)
    requires |entries| >= 1 && concurrency >= 1
    ensures Inv(NewBatch(entries, concurrency))
  {
  }

  /** What a step of worker w does to the slots. */
  ghost predicate Advances(b: Batch, c: Batch, w: nat) {
    && w < |b.workers| == |c.workers| && c.entries == b.entries
    && (forall v :: 0 <= v < |b.workers| && v != w ==> c.workers[v] == b.workers[v])
    && var worker, moved := b.workers[w], c.workers[w];
       || (worker.Idle? && Holds(moved) && moved.i == b.next < |b.entries| && c.next == b.next + 1 && c.finished == b.finished)
       || (worker.Idle? && moved.Gone? && b.next >= |b.entries| && c.next == b.next && c.finished == b.finished)
       || (Holds(worker) && moved.Idle? && c.next == b.next && c.finished == b.finished + {worker.i})
       || (Holds(worker) && Holds(moved) && moved.i == worker.i && c.next == b.next && c.finished == b.finished)
  }

  lemma AdvanceKeepsHeld(b: Batch, c: Batch, w: nat, i: nat)
    requires Slots(b) && Advances(b, c, w) && i < c.next && i !in c.finished
    ensures Held(c, i)
  {
    if i < b.next {
      assert Held(b, i);
      var v :| 0 <= v < |b.workers| && Holds(b.workers[v]) && b.workers[v].i == i;
      assert Holds(c.workers[v]) && c.workers[v].i == i;
    } else {
      assert Holds(c.workers[w]) && c.workers[w].i == i;
    }
  }

  lemma AdvanceKeepsSlots(b: Batch, c: Batch, w: nat)
    requires Slots(b) && Advances(b, c, w)
    ensures Slots(c)
  {
    forall i | 0 <= i < c.next && i !in c.finished ensures Held(c, i) {
      AdvanceKeepsHeld(b, c, w, i);
    }
  }

  predicate OfWorker(step: Step) {
    !step.Cancel? && !step.ContextDone? && !step.Begin? && !step.End?
  }

  lemma NextAdvances(b: Batch, step: Step)
    requires Enabled(b, step) && OfWorker(step)
    ensures Advances(b, Next(b, step), step.w)
  {
  }

  lemma StepKeepsSlots(b: Batch, step: Step)
    requires Slots(b) && Enabled(b, step)
    ensures Slots(Next(b, step))
  {
    var c := Next(b, step);
    if OfWorker(step) {
      NextAdvances(b, step);
      AdvanceKeepsSlots(b, c, step.w);
    } else {
      assert c.workers == b.workers && c.finished == b.finished && c.next == b.next && c.entries == b.entries;
      forall i | Held(b, i) ensures Held(c, i) {
        var v :| 0 <= v < |b.workers| && Holds(b.workers[v]) && b.workers[v].i == i;
        assert Holds(c.workers[v]);
      }
    }
  }

  lemma StepKeepsLife(b: Batch, step: Step)
    requires Life(b) && Enabled(b, step)
    ensures Life(Next(b, step))
  {
    if OfWorker(step) {
      assert b.begun && !b.workers[step.w].Gone?;
    }
  }

  lemma EntryResultIsFinal(b: Batch, entry: Entry, diagnostic: Diagnostic, context: ContextError, panicked: bool)
    requires !entry.unsupported && (context.ContextCanceled? ==> b.contextDone)
    ensures FinalFor(b, entry, EntryResult(entry, diagnostic, context, panicked))
  {
  }

  lemma TakeMovesWorker(b: Batch, w: nat)
    requires Inv(b) && Enabled(b, Take(w))
    ensures WorkerOk(Next(b, Take(w)), Next(b, Take(w)).workers[w])
  {
    assert ResultOk(b, b.next);
  }

  lemma ReturnMovesWorker(b: Batch, w: nat, diagnostic: Diagnostic, context: ContextError, panicked: bool)
    requires Enabled(b, Return(w, diagnostic, context, panicked)) && WorkerOk(b, b.workers[w])
    ensures WorkerOk(Next(b, Return(w, diagnostic, context, panicked)), Next(b, Return(w, diagnostic, context, panicked)).workers[w])
  {
    EntryResultIsFinal(b, b.entries[b.workers[w].i], diagnostic, context, panicked);
  }

  lemma OtherMovesWorker(b: Batch, step: Step)
    requires Enabled(b, step) && (step.Leave? || step.Decide? || step.MarkRunning? || step.Finish?) && WorkerOk(b, b.workers[step.w])
    ensures WorkerOk(Next(b, step), Next(b, step).workers[step.w])
  {
  }

  /** The worker that moved is right about its job. */
  lemma StepMovesWorker(b: Batch, step: Step)
    requires Inv(b) && Enabled(b, step) && OfWorker(step)
    ensures WorkerOk(Next(b, step), Next(b, step).workers[step.w])
  {
    assert WorkerOk(b, b.workers[step.w]);
    match step
    case Take(w) => TakeMovesWorker(b, w);
    case Return(w, diagnostic, context, panicked) => ReturnMovesWorker(b, w, diagnostic, context, panicked);
    case _ => OtherMovesWorker(b, step);
  }

  /** A step keeps the sizes and the flags. */
  lemma StepKeepsFrame(b: Batch, step: Step)
    requires Enabled(b, step)
    ensures var c := Next(b, step);
            && c.entries == b.entries && |c.workers| == |b.workers| && |c.results| == |b.results|
            && (b.cancelRequested ==> c.cancelRequested) && (b.contextDone ==> c.contextDone)
            && (!OfWorker(step) ==> c.results == b.results && c.workers == b.workers && c.finished == b.finished && c.next == b.next)
  {
  }

  lemma StepKeepsTally(b: Batch, step: Step)
    requires Enabled(b, step) && b.summary == SummaryOf(b.results)
    ensures Next(b, step).summary == SummaryOf(Next(b, step).results)
  {
    match step
    case MarkRunning(w) =>
    case Finish(w) =>
    case End =>
    case _ => assert Next(b, step).results == b.results && Next(b, step).summary == b.summary;
  }

  /** Results change only where the moving worker writes. */
  lemma StepWrites(b: Batch, step: Step)
    requires Enabled(b, step) && OfWorker(step)
    ensures var c := Next(b, step);
            && |c.workers| == |b.workers| && (forall v :: 0 <= v < |b.workers| && v != step.w ==> c.workers[v] == b.workers[v])
            && (step.Finish? ==> c.finished == b.finished + {b.workers[step.w].i}
                                 && c.results == b.results[b.workers[step.w].i := b.workers[step.w].result])
            && (!step.Finish? ==> c.finished == b.finished)
            && (step.MarkRunning? ==> c.results == b.results[b.workers[step.w].i := Started(b.results[b.workers[step.w].i])])
            && (!step.Finish? && !step.MarkRunning? ==> c.results == b.results)
            && b.next <= c.next
  {
  }

  lemma OthersStay(b: Batch, step: Step, v: nat)
    requires Inv(b) && Enabled(b, step) && v < |b.workers| && (OfWorker(step) ==> v != step.w)
    ensures WorkerOk(Next(b, step), b.workers[v])
  {
    StepKeepsFrame(b, step);
    if OfWorker(step) {
      StepWrites(b, step);
    }
    assert WorkerOk(b, b.workers[v]);
  }

  lemma StepKeepsResult(b: Batch, step: Step, i: nat)
    requires Inv(b) && Enabled(b, step) && i < |b.entries|
    ensures |Next(b, step).results| == |Next(b, step).entries| == |b.entries| && ResultOk(Next(b, step), i)
  {
    StepKeepsFrame(b, step);
    assert ResultOk(b, i);
    if OfWorker(step) {
      StepWrites(b, step);
      assert WorkerOk(b, b.workers[step.w]);
    }
  }

  lemma StepKeepsResults(b: Batch, step: Step)
    requires Inv(b) && Enabled(b, step)
    ensures ResultsOk(Next(b, step))
  {
    var c := Next(b, step);
    StepKeepsFrame(b, step);
    StepKeepsTally(b, step);
    forall i | 0 <= i < |c.entries| ensures |c.results| == |c.entries| && ResultOk(c, i) {
      StepKeepsResult(b, step, i);
    }
    forall v | 0 <= v < |c.workers| ensures WorkerOk(c, c.workers[v]) {
      if OfWorker(step) && v == step.w {
        StepMovesWorker(b, step);
      } else {
        OthersStay(b, step, v);
      }
    }
  }

  lemma StepKeepsInv(b: Batch, step: Step)
    requires Inv(b) && Enabled(b, step)
    ensures Inv(Next(b, step))
  {
    StepKeepsSlots(b, step);
    StepKeepsResults(b, step);
    StepKeepsLife(b, step);
  }

  lemma StepsKeepInv()
    ensures Keeps(PROTOCOL, Inv)
  {
    forall b, step | Inv(b) && Enabled(b, step) ensures Inv(Next(b, step)) {
      StepKeepsInv(b, step);
    }
  }

  lemma ReachableInv(b: Batch)
    requires Reachable(b)
    ensures Inv(b)
  {
    var entries, concurrency :|
      |entries| >= 1 && concurrency >= 1 && Leads(PROTOCOL, NewBatch(entries, concurrency), b);
    NewBatchInv(entries, concurrency);
    StepsKeepInv();
    LeadsKeeps(PROTOCOL, Inv, NewBatch(entries, concurrency), b);
  }

  // ---- what every reachable batch satisfies ----

  /** Results never change places, and the stored summary is the tally of the stored results. */
  lemma ResultsStayAligned(b: Batch)
    requires Reachable(b)
    ensures |b.results| == |b.entries| && b.summary == SummaryOf(b.results)
    ensures forall i :: 0 <= i < |b.entries| ==> b.results[i].id == b.entries[i].id && b.results[i].captured == b.entries[i].captured
  {
    ReachableInv(b);
    forall i | 0 <= i < |b.entries| ensures b.results[i].id == b.entries[i].id && b.results[i].captured == b.entries[i].captured {
      assert ResultOk(b, i);
    }
  }

  function HeldBy(workers: seq<Worker>): set<nat> {
    if workers == [] then {}
    else
      var w := workers[|workers| - 1];
      HeldBy(workers[..|workers| - 1]) + if Holds(w) then {w.i} else {}
  }

  lemma {:induction false} HeldByCounts(workers: seq<Worker>)
    ensures |HeldBy(workers)| <= |workers|
    ensures forall v :: 0 <= v < |workers| && Holds(workers[v]) ==> workers[v].i in HeldBy(workers)
  {
    if workers != [] {
      var n := |workers| - 1;
      HeldByCounts(workers[..n]);
      assert forall v :: 0 <= v < n ==> workers[..n][v] == workers[v];
    }
  }

  function RunningAt(results: seq<Result>): set<nat> {
    set i: nat | i < |results| && results[i].state.EntryRunning?
  }

  lemma {:induction false} RunningCount(results: seq<Result>)
    ensures Count(results, (r: Result) => r.state.EntryRunning?) == |RunningAt(results)|
  {
    if results == [] {
      assert RunningAt(results) == {};
    } else {
      var n := |results| - 1;
      RunningCount(results[..n]);
      assert RunningAt(results) == RunningAt(results[..n]) + if results[n].state.EntryRunning? then {n} else {};
    }
  }

  lemma RunningIsHeld(b: Batch, i: nat)
    requires Inv(b) && i in RunningAt(b.results)
    ensures i in HeldBy(b.workers)
  {
    assert ResultOk(b, i);
    assert Held(b, i);
    HeldByCounts(b.workers);
  }

  /** At most `concurrency` entries run at once, and the summary says so. */
  lemma ConcurrencyBoundsRunning(entries: seq<Entry>, concurrency: nat, b: Batch)
    requires |entries| >= 1 && concurrency >= 1 && Leads(PROTOCOL, NewBatch(entries, concurrency), b)
    ensures |RunningAt(b.results)| == b.summary.running <= concurrency
  {
    ReachableInv(b);
    SummaryAddsUp(b.results);
    RunningCount(b.results);
    HeldByCounts(b.workers);
    forall i | i in RunningAt(b.results) ensures i in HeldBy(b.workers) {
      RunningIsHeld(b, i);
    }
    SubsetSize(RunningAt(b.results), HeldBy(b.workers));
    var few := (c: Batch) => |c.workers| <= concurrency;
    forall c, step | few(c) && Enabled(c, step) ensures few(Next(c, step)) {
      StepKeepsFrame(c, step);
    }
    assert Keeps(PROTOCOL, few);
    LeadsKeeps(PROTOCOL, few, NewBatch(entries, concurrency), b);
  }

  /** Every entry is finished at most once: what is written again was not written before. */
  lemma FinishIsTheFirst(b: Batch, w: nat)
    requires Reachable(b) && Enabled(b, Finish(w))
    ensures b.workers[w].i !in b.finished && b.workers[w].i < b.next
    ensures forall i :: i in b.finished && i < |b.results| ==> Next(b, Finish(w)).results[i] == b.results[i]
  {
    ReachableInv(b);
    assert forall i :: i in b.finished ==> ResultOk(b, i);
  }

  /** The early return of `markRunning` is never taken: its entry was still queued. */
  lemma MarkRunningAlwaysMarks(b: Batch, w: nat)
    requires Reachable(b) && Enabled(b, MarkRunning(w))
    ensures b.results[b.workers[w].i].state.EntryQueued?
    ensures Next(b, MarkRunning(w)).results[b.workers[w].i].state.EntryRunning?
  {
    ReachableInv(b);
    assert WorkerOk(b, b.workers[w]);
  }

  /** What is finished in b is still there in c. */
  ghost predicate Preserves(b: Batch, c: Batch) {
    && Inv(c) && c.entries == b.entries && |c.results| == |b.results| && b.finished <= c.finished
    && (forall i :: i in b.finished && i < |b.results| ==> c.results[i] == b.results[i])
    && (b.done ==> c.done && c.state == b.state && c.results == b.results && c.summary == b.summary)
  }

  lemma StepPreserves(b: Batch, c: Batch, step: Step)
    requires Preserves(b, c) && Enabled(c, step)
    ensures Preserves(b, Next(c, step))
  {
    StepKeepsInv(c, step);
    StepKeepsFrame(c, step);
    if OfWorker(step) {
      StepWrites(c, step);
      assert WorkerOk(c, c.workers[step.w]);
    }
  }

  lemma RunPreserves(b: Batch, c: Batch)
    requires Inv(b) && Leads(PROTOCOL, b, c)
    ensures Preserves(b, c)
  {
    var kept := (x: Batch) => Preserves(b, x);
    forall x, step | kept(x) && Enabled(x, step) ensures kept(Next(x, step)) {
      StepPreserves(b, x, step);
    }
    assert Keeps(PROTOCOL, kept);
    LeadsKeeps(PROTOCOL, kept, b, c);
  }

  /** Finished results are final, and a batch that is done never changes again. */
  lemma FinishedIsFinal(b: Batch, c: Batch)
    requires Reachable(b) && Leads(PROTOCOL, b, c)
    ensures b.finished <= c.finished && |c.results| == |b.results| == |b.entries|
    ensures forall i :: i in b.finished ==> i < |b.results| && c.results[i] == b.results[i]
    ensures b.done ==> c.done && c.state == b.state && c.results == b.results && c.summary == b.summary
  {
    ReachableInv(b);
    RunPreserves(b, c);
  }

  // ---- when it is done ----

  lemma DoneMeansFinished(b: Batch)
    requires Inv(b) && b.done
    ensures forall i :: 0 <= i < |b.results| ==> i < |b.entries| && FinalFor(b, b.entries[i], b.results[i])
  {
    assert b.workers[0].Gone?;
    forall i | 0 <= i < |b.results| ensures i < |b.entries| && FinalFor(b, b.entries[i], b.results[i]) {
      assert ResultOk(b, i);
      assert i in b.finished || Held(b, i);
    }
  }

  /**
   At termination every entry has an outcome and the five outcome counts add up to the total;
   nothing runs; and what is still counted as queued is exactly what timed out after a complete report.
   */
  lemma DoneAddsUp(b: Batch)
    requires Reachable(b) && b.done
    ensures var s := b.summary;
            && s.total == |b.entries| == |b.results|
            && s.passed + s.failed + s.partial_ + s.unsupported + s.cancelled == s.total
            && s.running == 0 && s.queued + s.completed == s.total
            && s.queued == Count(b.results, (r: Result) => r.error.TimedOut?)
            && s.failed == |s.failedIds| == |s.failedIdentities|
    ensures forall i :: 0 <= i < |b.entries| ==> b.results[i].id == b.entries[i].id && !b.results[i].outcome.NotRun?
    ensures forall i :: 0 <= i < |b.entries| ==> (b.entries[i].unsupported <==> b.results[i].error.UnsupportedService?)
  {
    ReachableInv(b);
    DoneMeansFinished(b);
    SummaryAddsUp(b.results);
    forall r | r in b.results ensures !r.outcome.NotRun? && !r.state.EntryRunning? && (r.state.EntryQueued? <==> r.error.TimedOut?) {
      var i :| 0 <= i < |b.results| && b.results[i] == r;
      assert FinalFor(b, b.entries[i], r);
      assert TerminalEntry(r.state) || r.state.EntryQueued?;
    }
    CountZeroIff(b.results, (r: Result) => r.outcome.NotRun?);
    CountZeroIff(b.results, (r: Result) => r.state.EntryRunning?);
    CountAgrees(b.results, (r: Result) => r.state.EntryQueued?, (r: Result) => r.error.TimedOut?);
  }

  /** All entries count as completed exactly when no stored result says that it timed out. */
  lemma QueuedTimedOut(b: Batch)
    requires Reachable(b) && b.done
    ensures b.summary.completed == b.summary.total <==> forall i :: 0 <= i < |b.results| ==> !b.results[i].error.TimedOut?
  {
    DoneAddsUp(b);
    CountZeroIff(b.results, (r: Result) => r.error.TimedOut?);
  }

  /** The probe run of an entry comes back with a complete report when the entry's time is over. */
  predicate ReturnsLate(step: Step) {
    step.Return? && step.context.DeadlineExceeded? && step.diagnostic.status.ReportComplete?
  }

  ghost predicate SomeReturnLate(run: seq<Step>) {
    exists k :: 0 <= k < |run| && ReturnsLate(run[k])
  }

  lemma SomeReturnLateTail(run: seq<Step>)
    requires run != []
    ensures SomeReturnLate(run) <==> ReturnsLate(run[0]) || SomeReturnLate(run[1..])
  {
    var rest := run[1..];
    if k :| 0 <= k < |run| && ReturnsLate(run[k]) {
      assert k > 0 ==> ReturnsLate(rest[k - 1]);
    }
    if k :| 0 <= k < |rest| && ReturnsLate(rest[k]) {
      assert ReturnsLate(run[k + 1]);
    }
  }

  ghost predicate StoredLate(b: Batch, i: nat) {
    i in b.finished && i < |b.results| && b.results[i].error.TimedOut?
  }

  predicate HeldLate(w: Worker) {
    w.Finishing? && w.result.error.TimedOut?
  }

  /** A timed-out result is stored, or a worker is about to store it. */
  ghost predicate SomeLate(b: Batch) {
    (exists i :: StoredLate(b, i)) || exists v :: 0 <= v < |b.workers| && HeldLate(b.workers[v])
  }

  /** A worker comes to hold a timed-out result exactly by a late return. */
  lemma HeldLateIff(b: Batch, step: Step)
    requires Enabled(b, step) && OfWorker(step)
    ensures HeldLate(Next(b, step).workers[step.w]) <==> ReturnsLate(step)
    ensures HeldLate(b.workers[step.w]) ==> step.Finish?
  {
  }

  /** A worker's step stores what it holds and leaves the other stored results alone. */
  lemma StoredLateIff(b: Batch, step: Step, i: nat)
    requires Inv(b) && Enabled(b, step) && OfWorker(step)
    ensures StoredLate(Next(b, step), i) <==>
              StoredLate(b, i) || (step.Finish? && i == b.workers[step.w].i && HeldLate(b.workers[step.w]))
  {
    StepWrites(b, step);
    assert WorkerOk(b, b.workers[step.w]);
  }

  lemma WorkerStepLate(b: Batch, step: Step)
    requires Inv(b) && Enabled(b, step) && OfWorker(step)
    ensures SomeLate(Next(b, step)) <==> SomeLate(b) || ReturnsLate(step)
  {
    var c := Next(b, step);
    StepWrites(b, step);
    HeldLateIff(b, step);
    if SomeLate(c) {
      LateBefore(b, step);
    }
    if i :| StoredLate(b, i) {
      StoredLateIff(b, step, i);
    } else if v :| 0 <= v < |b.workers| && HeldLate(b.workers[v]) {
      if v == step.w {
        StoredLateIff(b, step, b.workers[v].i);
      } else {
        assert HeldLate(c.workers[v]);
      }
    } else if ReturnsLate(step) {
      assert HeldLate(c.workers[step.w]);
    }
  }

  lemma LateBefore(b: Batch, step: Step)
    requires Inv(b) && Enabled(b, step) && OfWorker(step) && SomeLate(Next(b, step))
    ensures SomeLate(b) || ReturnsLate(step)
  {
    var c := Next(b, step);
    StepWrites(b, step);
    HeldLateIff(b, step);
    if i :| StoredLate(c, i) {
      StoredLateIff(b, step, i);
    } else {
      var v :| 0 <= v < |c.workers| && HeldLate(c.workers[v]);
      if v != step.w {
        assert HeldLate(b.workers[v]);
      }
    }
  }

  lemma OtherStepLate(b: Batch, step: Step)
    requires Enabled(b, step) && !OfWorker(step)
    ensures SomeLate(Next(b, step)) <==> SomeLate(b)
  {
    StepKeepsFrame(b, step);
    assert forall i :: StoredLate(Next(b, step), i) <==> StoredLate(b, i);
  }

  lemma {:induction false} LateOverRun(b: Batch, run: seq<Step>)
    requires Inv(b) && Valid(PROTOCOL, b, run)
    ensures SomeLate(After(PROTOCOL, b, run)) <==> SomeLate(b) || SomeReturnLate(run)
    decreases |run|
  {
    if run != [] {
      StepKeepsInv(b, run[0]);
      if OfWorker(run[0]) {
        WorkerStepLate(b, run[0]);
      } else {
        OtherStepLate(b, run[0]);
      }
      LateOverRun(Next(b, run[0]), run[1..]);
      SomeReturnLateTail(run);
    }
  }

  lemma DoneIsLateIff(b: Batch)
    requires Inv(b) && b.done
    ensures SomeLate(b) <==> exists i :: 0 <= i < |b.results| && b.results[i].error.TimedOut?
  {
    DoneMeansFinished(b);
    assert b.workers[0].Gone?;
    forall i | 0 <= i < |b.results| ensures i in b.finished {
      assert i in b.finished || Held(b, i);
    }
    if i :| 0 <= i < |b.results| && b.results[i].error.TimedOut? {
      assert StoredLate(b, i);
    }
  }

  /**
   Over every run that ends a batch: all entries count as completed exactly when no probe run came
   back with a complete report after its time was over.  Such an entry is left queued.
   */
  lemma EndsWithoutQueuedIff(entries: seq<Entry>, concurrency: nat, run: seq<Step>)
    requires |entries| >= 1 && concurrency >= 1 && Valid(PROTOCOL, NewBatch(entries, concurrency), run)
    requires After(PROTOCOL, NewBatch(entries, concurrency), run).done
    ensures var s := After(PROTOCOL, NewBatch(entries, concurrency), run).summary;
            s.completed == s.total <==> !SomeReturnLate(run)
  {
    var start := NewBatch(entries, concurrency);
    var b := After(PROTOCOL, start, run);
    NewBatchInv(entries, concurrency);
    assert Leads(PROTOCOL, start, b);
    ReachableInv(b);
    LateOverRun(start, run);
    assert !SomeLate(start);
    DoneIsLateIff(b);
    QueuedTimedOut(b);
  }

  /** An entry that one worker has taken up to its probe run, in a batch with nothing else. */
  lemma OneEntryRuns(entry: Entry) returns (b: Batch)
    requires !entry.unsupported
    ensures Leads(PROTOCOL, NewBatch([entry], 1), b)
    ensures b.entries == [entry] && b.workers == [Executing(0)] && |b.results| == 1 && b.next == 1
    ensures b.begun && !b.done && !b.cancelRequested && !b.contextDone
  {
    var b0 := NewBatch([entry], 1);
    var b1 := Next(b0, Begin);
    var b2 := Next(b1, Take(0));
    var b3 := Next(b2, Decide(0));
    b := Next(b3, MarkRunning(0));
    assert b0.workers == [Idle] && b2.workers == [Taken(0)] && b3.workers == [Admitted(0)];
    Stay(PROTOCOL, b);
    Prepend(PROTOCOL, b3, MarkRunning(0), b);
    Prepend(PROTOCOL, b2, Decide(0), b);
    Prepend(PROTOCOL, b1, Take(0), b);
    Prepend(PROTOCOL, b0, Begin, b);
  }

  lemma OneEntryEnds(b: Batch, entry: Entry, diagnostic: Diagnostic) returns (c: Batch)
    requires b.entries == [entry] && b.workers == [Executing(0)] && |b.results| == 1 && b.next == 1 && b.begun && !b.done
    ensures Leads(PROTOCOL, b, c) && c.done
    ensures c.results == [EntryResult(entry, diagnostic, DeadlineExceeded, false)] && c.summary == SummaryOf(c.results)
  {
    var result := EntryResult(entry, diagnostic, DeadlineExceeded, false);
    var b1 := Next(b, Return(0, diagnostic, DeadlineExceeded, false));
    var b2 := Next(b1, Finish(0));
    var b3 := Next(b2, Leave(0));
    c := Next(b3, End);
    assert b1.workers == [Finishing(0, result)] && b2.workers == [Idle] && b2.results == [result] && b3.workers == [Gone];
    Stay(PROTOCOL, c);
    Prepend(PROTOCOL, b3, End, c);
    Prepend(PROTOCOL, b2, Leave(0), c);
    Prepend(PROTOCOL, b1, Finish(0), c);
    Prepend(PROTOCOL, b, Return(0, diagnostic, DeadlineExceeded, false), c);
  }

  /** A batch that is done with its only entry still queued. */
  lemma LateEntryStaysQueued(entry: Entry) returns (b: Batch)
    requires !entry.unsupported
    ensures Leads(PROTOCOL, NewBatch([entry], 1), b) && b.done
    ensures |b.results| == 1 && b.results[0].state.EntryQueued? && b.summary.queued == 1 && b.summary.completed == 0
  {
    var running := OneEntryRuns(entry);
    var diagnostic := Diagnostic(ReportComplete, DestinationStatus.Reachable, NoReason);
    b := OneEntryEnds(running, entry, diagnostic);
    Chain(PROTOCOL, NewBatch([entry], 1), running, b);
    SummaryOfOne(b.results[0]);
  }

  lemma SummaryOfOne(r: Result)
    ensures SummaryOf([r]) == Tallied(EMPTY_SUMMARY, r)
  {
    assert [r][..0] == [];
  }

  /** The batch was cancelled, or its context was, before its last critical section. */
  ghost predicate CancelledInTime(run: seq<Step>) {
    exists i :: 0 <= i < |run| && (run[i].Cancel? || run[i].ContextDone?) && forall j :: 0 <= j < i ==> !run[j].End?
  }

  lemma CancelledInTimeTail(run: seq<Step>)
    requires run != [] && !run[0].End?
    ensures CancelledInTime(run) <==> run[0].Cancel? || run[0].ContextDone? || CancelledInTime(run[1..])
  {
    var rest := run[1..];
    if CancelledInTime(run) && !run[0].Cancel? && !run[0].ContextDone? {
      var i :| 0 <= i < |run| && (run[i].Cancel? || run[i].ContextDone?) && forall j :: 0 <= j < i ==> !run[j].End?;
      assert rest[i - 1] == run[i] && forall j :: 0 <= j < i - 1 ==> !rest[j].End?;
    }
    if CancelledInTime(rest) {
      var i :| 0 <= i < |rest| && (rest[i].Cancel? || rest[i].ContextDone?) && forall j :: 0 <= j < i ==> !rest[j].End?;
      assert run[i + 1] == rest[i] && forall j :: 1 <= j < i + 1 ==> run[j] == rest[j - 1];
    }
  }

  /** The last critical section looks at both flags, which only Cancel and the context set. */
  lemma StepFlags(b: Batch, step: Step)
    requires Inv(b) && !b.done && Enabled(b, step)
    ensures var c := Next(b, step);
            if step.End? then c.done && (c.state.Cancelled? <==> b.cancelRequested || b.contextDone)
            else !c.done && (c.cancelRequested || c.contextDone <==> b.cancelRequested || b.contextDone || step.Cancel? || step.ContextDone?)
  {
  }

  lemma {:induction false} EndsCancelledFrom(b: Batch, run: seq<Step>)
    requires Inv(b) && !b.done && Valid(PROTOCOL, b, run) && After(PROTOCOL, b, run).done
    ensures After(PROTOCOL, b, run).state.Cancelled? <==> b.cancelRequested || b.contextDone || CancelledInTime(run)
    decreases |run|
  {
    var c := Next(b, run[0]);
    StepKeepsInv(b, run[0]);
    StepFlags(b, run[0]);
    if run[0].End? {
      assert Leads(PROTOCOL, c, After(PROTOCOL, c, run[1..]));
      RunPreserves(c, After(PROTOCOL, c, run[1..]));
    } else {
      EndsCancelledFrom(c, run[1..]);
      CancelledInTimeTail(run);
    }
  }

  /**
   Over every run that ends a batch: it is cancelled exactly when Cancel, Close or the caller's
   context came before its last critical section, and completed otherwise.
   */
  lemma EndsCancelledIff(entries: seq<Entry>, concurrency: nat, run: seq<Step>)
    requires |entries| >= 1 && concurrency >= 1 && Valid(PROTOCOL, NewBatch(entries, concurrency), run)
    requires After(PROTOCOL, NewBatch(entries, concurrency), run).done
    ensures var b := After(PROTOCOL, NewBatch(entries, concurrency), run);
            (b.state.Cancelled? <==> CancelledInTime(run)) && (b.state.Completed? <==> !CancelledInTime(run))
  {
    var start := NewBatch(entries, concurrency);
    NewBatchInv(entries, concurrency);
    EndsCancelledFrom(start, run);
    assert Leads(PROTOCOL, start, After(PROTOCOL, start, run));
    ReachableInv(After(PROTOCOL, start, run));
  }

  // ---- progress ----

  function Weight(w: Worker): nat {
    match w
    case Idle => 1
    case Taken(_) => 6
    case Admitted(_) => 5
    case Executing(_) => 4
    case Finishing(_, _) => 2
    case Gone => 0
  }

  function Load(workers: seq<Worker>): nat {
    if workers == [] then 0 else Load(workers[..|workers| - 1]) + Weight(workers[|workers| - 1])
  }

  lemma {:induction false} LoadUpdate(workers: seq<Worker>, v: nat, w: Worker)
    requires v < |workers|
    ensures Load(workers[v := w]) == Load(workers) - Weight(workers[v]) + Weight(w)
  {
    var n := |workers| - 1;
    if v == n {
      assert workers[v := w][..n] == workers[..n];
    } else {
      LoadUpdate(workers[..n], v, w);
      assert workers[v := w][..n] == workers[..n][v := w];
    }
  }

  /** The work left: jobs in the queue, jobs in hand, and the two ends of `execute`. */
  function Remaining(b: Batch): int {
    6 * (|b.entries| - b.next) + Load(b.workers) + One(!b.begun) + One(!b.done)
  }

  predicate OfBatch(step: Step) {
    !step.Cancel? && !step.ContextDone?
  }

  /** Every step of the batch itself uses up work; a cancellation leaves it as it is. */
  lemma StepsUseUpWork(b: Batch, step: Step)
    requires Reachable(b) && Enabled(b, step)
    ensures Remaining(b) >= 0
    ensures if OfBatch(step) then Remaining(Next(b, step)) < Remaining(b) else Remaining(Next(b, step)) == Remaining(b)
  {
    ReachableInv(b);
    if OfWorker(step) {
      WorkerUsesUp(b, step);
    }
  }

  /** The worker that moved weighs less, even with the job it may have taken. */
  lemma MovedWeighsLess(b: Batch, step: Step)
    requires Enabled(b, step) && OfWorker(step)
    ensures var c := Next(b, step);
            && c.entries == b.entries && c.begun == b.begun && c.done == b.done
            && |c.workers| == |b.workers| && c.workers == b.workers[step.w := c.workers[step.w]]
            && Weight(c.workers[step.w]) < Weight(b.workers[step.w]) + 6 * (c.next - b.next)
  {
  }

  lemma WorkerUsesUp(b: Batch, step: Step)
    requires Enabled(b, step) && OfWorker(step)
    ensures Remaining(Next(b, step)) < Remaining(b)
  {
    MovedWeighsLess(b, step);
    LoadUpdate(b.workers, step.w, Next(b, step).workers[step.w]);
  }

  /** Until the batch is done, one of its own steps is possible, whatever was cancelled and when. */
  lemma NeverStuck(b: Batch)
    requires Reachable(b) && !b.done
    ensures exists step :: OfBatch(step) && Enabled(b, step)
  {
    ReachableInv(b);
    if !b.begun {
      assert Enabled(b, Begin);
    } else if w :| 0 <= w < |b.workers| && !b.workers[w].Gone? {
      var worker := b.workers[w];
      var step :=
        if worker.Taken? then Decide(w)
        else if worker.Admitted? then MarkRunning(w)
        else if worker.Executing? then
          Return(w, Diagnostic(ReportComplete, DestinationStatus.Reachable, NoReason), NoContextError, false)
        else if worker.Finishing? then Finish(w)
        else if b.next < |b.entries| then Take(w)
        else Leave(w);
      assert WorkerOk(b, b.workers[w]);
      assert Enabled(b, step);
    } else {
      assert Enabled(b, End);
    }
  }
}
