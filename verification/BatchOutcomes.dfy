/**
 What a finished batch says of its entries, in terms of what their probe runs returned
 (internal/batch/manager.go:404-525, 586-624, 694-725).
 */
module BatchOutcomes {
  import opened Lists
  import opened Options
  import opened Runs
  import opened Batches
  import Targets
  import opened BatchRuns

  // ---- what a run of the pool returned for an entry ----

  predicate ReturnsFor(b: Batch, step: Step, i: nat) {
    step.Return? && step.w < |b.workers| && b.workers[step.w] == Executing(i)
  }

  /** The step with which the probe run of entry i came back; there is one at most. */
  function ReturnOf(b: Batch, run: seq<Step>, i: nat): Option<Step>
    decreases |run|
  {
    if run == [] then None else if ReturnsFor(b, run[0], i) then Some(run[0]) else ReturnOf(Next(b, run[0]), run[1..], i)
  }

  /** The result that an entry is owed. */
  function Owed(entry: Entry, ret: Option<Step>): Result {
    if entry.unsupported then UnsupportedResult(entry)
    else if ret.None? || !ret.value.Return? then CancelledResult(entry)
    else EntryResult(entry, ret.value.diagnostic, ret.value.context, ret.value.panicked)
  }

  ghost predicate WorkerTells(b: Batch, ret: Option<Step>, w: Worker) {
    Holds(w) ==>
      && (!w.Finishing? ==> ret.None?)
      && (w.Finishing? && w.i < |b.entries| ==> w.result == Owed(b.entries[w.i], ret))
  }

  ghost predicate Tells(b: Batch, i: nat, ret: Option<Step>) {
    && (ret.Some? ==> ret.value.Return?)
    && (i >= b.next ==> ret.None?)
    && (forall v :: 0 <= v < |b.workers| && Holds(b.workers[v]) && b.workers[v].i == i ==> WorkerTells(b, ret, b.workers[v]))
    && (i in b.finished && i < |b.results| && i < |b.entries| ==> b.results[i] == Owed(b.entries[i], ret))
  }

  function Later(b: Batch, i: nat, ret: Option<Step>, step: Step): Option<Step> {
    if ret.None? && ReturnsFor(b, step, i) then Some(step) else ret
  }

  /** The worker that holds or takes the entry, after its step. */
  lemma MoverTells(b: Batch, step: Step, i: nat, ret: Option<Step>)
    requires Inv(b) && Enabled(b, step) && OfWorker(step) && Tells(b, i, ret)
    requires var moved := Next(b, step).workers[step.w]; Holds(moved) && moved.i == i
    ensures WorkerTells(Next(b, step), Later(b, i, ret, step), Next(b, step).workers[step.w])
  {
    assert WorkerOk(b, b.workers[step.w]);
    if !step.Take? {
      assert Holds(b.workers[step.w]) && b.workers[step.w].i == i;
      assert WorkerTells(b, ret, b.workers[step.w]);
    }
  }

  lemma FinishedTells(b: Batch, step: Step, i: nat, ret: Option<Step>)
    requires Inv(b) && Enabled(b, step) && OfWorker(step) && Tells(b, i, ret)
    requires i in Next(b, step).finished
    ensures Later(b, i, ret, step) == ret
    ensures i < |Next(b, step).results| && i < |b.entries| ==> Next(b, step).results[i] == Owed(b.entries[i], ret)
  {
    StepWrites(b, step);
    assert WorkerOk(b, b.workers[step.w]);
    if step.Finish? && b.workers[step.w].i == i {
      assert WorkerTells(b, ret, b.workers[step.w]);
    }
  }

  lemma WorkerStepTells(b: Batch, step: Step, i: nat, ret: Option<Step>)
    requires Inv(b) && Enabled(b, step) && OfWorker(step) && Tells(b, i, ret)
    ensures Tells(Next(b, step), i, Later(b, i, ret, step))
  {
    var c, later := Next(b, step), Later(b, i, ret, step);
    StepWrites(b, step);
    StepKeepsFrame(b, step);
    forall v | 0 <= v < |c.workers| && Holds(c.workers[v]) && c.workers[v].i == i ensures WorkerTells(c, later, c.workers[v]) {
      if v == step.w {
        MoverTells(b, step, i, ret);
      } else {
        OtherTells(b, step, i, ret, v);
      }
    }
    if i in c.finished {
      FinishedTells(b, step, i, ret);
    }
  }

  lemma OtherTells(b: Batch, step: Step, i: nat, ret: Option<Step>, v: nat)
    requires Inv(b) && Enabled(b, step) && OfWorker(step) && Tells(b, i, ret)
    requires v < |b.workers| && v != step.w && Holds(b.workers[v]) && b.workers[v].i == i
    ensures Later(b, i, ret, step) == ret && WorkerTells(Next(b, step), ret, b.workers[v])
  {
    StepKeepsFrame(b, step);
    assert WorkerTells(b, ret, b.workers[v]);
    assert !(Holds(b.workers[step.w]) && b.workers[step.w].i == i);
  }

  lemma OtherStepTells(b: Batch, step: Step, i: nat, ret: Option<Step>)
    requires Enabled(b, step) && !OfWorker(step) && Tells(b, i, ret)
    ensures Later(b, i, ret, step) == ret && Tells(Next(b, step), i, ret)
  {
    StepKeepsFrame(b, step);
    forall v | 0 <= v < |b.workers| && Holds(b.workers[v]) && b.workers[v].i == i ensures WorkerTells(Next(b, step), ret, b.workers[v]) {
      assert WorkerTells(b, ret, b.workers[v]);
    }
  }

  lemma {:induction false} RunTells(b: Batch, run: seq<Step>, i: nat, ret: Option<Step>)
    requires Inv(b) && Valid(PROTOCOL, b, run) && Tells(b, i, ret)
    ensures Tells(After(PROTOCOL, b, run), i, if ret.Some? then ret else ReturnOf(b, run, i))
    decreases |run|
  {
    if run != [] {
      if OfWorker(run[0]) {
        WorkerStepTells(b, run[0], i, ret);
      } else {
        OtherStepTells(b, run[0], i, ret);
      }
      StepKeepsInv(b, run[0]);
      RunTells(Next(b, run[0]), run[1..], i, Later(b, i, ret, run[0]));
    }
  }

  lemma {:induction false} EntriesStay(b: Batch, run: seq<Step>)
    requires Valid(PROTOCOL, b, run)
    ensures After(PROTOCOL, b, run).entries == b.entries
    decreases |run|
  {
    if run != [] {
      StepKeepsFrame(b, run[0]);
      EntriesStay(Next(b, run[0]), run[1..]);
    }
  }

  // ---- verdicts ----

  /** The probe run was cancelled under way. */
  predicate Aborted(ret: Step) {
    ret.Return? && ret.context.ContextCanceled? && !ret.panicked
  }

  /** The probe run came back with a result that counts: not cancelled, and not late. */
  predicate Counts(entry: Entry, ret: Option<Step>) {
    !entry.unsupported && ret.Some? && ret.value.Return? && !Aborted(ret.value) && !ReturnsLate(ret.value)
  }

  predicate Passes(entry: Entry, ret: Option<Step>) {
    Counts(entry, ret) && ret.value.diagnostic.status.ReportComplete? && ret.value.diagnostic.destination.Reachable?
  }

  /** Seen unreachable or degraded by a report that is not merely incomplete, or undetermined for a concrete reason by a complete one. */
  predicate Fails(entry: Entry, ret: Option<Step>) {
    Counts(entry, ret) &&
    var d := ret.value.diagnostic;
    || ((d.destination.Unreachable? || d.destination.Degraded?) && !d.status.ReportIncomplete?)
    || (d.destination.Undetermined? && d.status.ReportComplete? && d.reason.Concrete?)
  }

  predicate Unserved(entry: Entry, ret: Option<Step>) {
    entry.unsupported ||
    (Counts(entry, ret) && var d := ret.value.diagnostic; d.destination.Undetermined? && d.status.ReportComplete? && d.reason.ReasonUnsupported?)
  }

  predicate IsCancelled(entry: Entry, ret: Option<Step>) {
    !entry.unsupported && (ret.None? || Aborted(ret.value))
  }

  /** Outcome, state and report of a result, from what the entry's probe run returned. */
  ghost predicate Verdict(entry: Entry, ret: Option<Step>, r: Result) {
    && r.id == entry.id && r.captured == entry.captured && !r.outcome.NotRun?
    && (r.outcome.Passed? <==> Passes(entry, ret))
    && (r.outcome.OutcomeFailed? <==> Fails(entry, ret))
    && (r.outcome.Unsupported? <==> Unserved(entry, ret))
    && (r.outcome.OutcomeCancelled? <==> IsCancelled(entry, ret))
    && (r.state.EntryUnsupported? <==> entry.unsupported)
    && (r.state.EntryCancelled? <==> IsCancelled(entry, ret))
    && (r.state.EntryCompleted? <==> Counts(entry, ret))
    && (r.error.UnsupportedService? <==> entry.unsupported)
    && (r.error.WasCancelled? <==> IsCancelled(entry, ret))
    && (r.error.RunnerPanicked? <==> Counts(entry, ret) && ret.value.Return? && ret.value.panicked)
    && (r.error.TimedOut? <==> !entry.unsupported && ret.Some? && !Aborted(ret.value) && ReturnsLate(ret.value))
    && (r.report == if entry.unsupported || ret.None? || !ret.value.Return? then None else Some(ret.value.diagnostic))
  }

  lemma OwedVerdict(entry: Entry, ret: Option<Step>)
    requires ret.Some? ==> ret.value.Return?
    ensures Verdict(entry, ret, Owed(entry, ret))
  {
  }

  /**
   Over every run that ends a batch: each entry has the outcome, state and report that its probe
   run brought back - passed for a complete report of a reachable destination, failed for an
   unreachable or degraded one, and so on.
   */
  lemma EveryEntryHasItsVerdict(entries: seq<Entry>, concurrency: nat, run: seq<Step>, i: nat)
    requires |entries| >= 1 && concurrency >= 1 && Valid(PROTOCOL, NewBatch(entries, concurrency), run)
    requires After(PROTOCOL, NewBatch(entries, concurrency), run).done && i < |entries|
    ensures var start := NewBatch(entries, concurrency);
            var b := After(PROTOCOL, start, run);
            |b.results| == |entries| && Verdict(entries[i], ReturnOf(start, run, i), b.results[i])
  {
    var start := NewBatch(entries, concurrency);
    var b := After(PROTOCOL, start, run);
    NewBatchInv(entries, concurrency);
    RunTells(start, run, i, None);
    EntriesStay(start, run);
    assert Leads(PROTOCOL, start, b);
    ReachableInv(b);
    DoneIsFinished(b, i);
    OwedVerdict(entries[i], ReturnOf(start, run, i));
  }

  lemma DoneIsFinished(b: Batch, i: nat)
    requires Inv(b) && b.done && i < |b.entries|
    ensures i in b.finished
  {
    assert b.workers[0].Gone?;
    assert i in b.finished || Held(b, i);
  }

  // ---- cancellation keeps entries from starting ----

  ghost predicate UnderWay(b: Batch, i: nat) {
    exists v :: 0 <= v < |b.workers| && (b.workers[v] == Admitted(i) || b.workers[v] == Executing(i))
  }

  lemma StepStartsNothing(b: Batch, step: Step, i: nat)
    requires (b.cancelRequested || b.contextDone) && Enabled(b, step) && UnderWay(Next(b, step), i)
    ensures UnderWay(b, i)
  {
    StepKeepsFrame(b, step);
    var c := Next(b, step);
    var v :| 0 <= v < |c.workers| && (c.workers[v] == Admitted(i) || c.workers[v] == Executing(i));
    if OfWorker(step) && step.w == v {
      assert step.MarkRunning? && b.workers[v] == Admitted(i);
    } else {
      assert b.workers[v] == c.workers[v];
    }
  }

  /** Once a batch is cancelled, only what was under way already is still probed. */
  lemma {:induction false} NothingStartsOnceCancelled(b: Batch, run: seq<Step>, i: nat)
    requires (b.cancelRequested || b.contextDone) && Valid(PROTOCOL, b, run) && !UnderWay(b, i)
    ensures ReturnOf(b, run, i).None? && !UnderWay(After(PROTOCOL, b, run), i)
    decreases |run|
  {
    if run != [] {
      var c := Next(b, run[0]);
      StepKeepsFrame(b, run[0]);
      if UnderWay(c, i) {
        StepStartsNothing(b, run[0], i);
      }
      assert !ReturnsFor(b, run[0], i);
      NothingStartsOnceCancelled(c, run[1..], i);
    }
  }

  // ---- the tally of the verdicts ----

  lemma {:induction false} SummaryCounts(results: seq<Result>)
    ensures var s := SummaryOf(results);
            && s.passed == Count(results, (r: Result) => r.outcome.Passed?)
            && s.failed == Count(results, (r: Result) => r.outcome.OutcomeFailed?)
            && s.partial_ == Count(results, (r: Result) => r.outcome.Partial?)
            && s.unsupported == Count(results, (r: Result) => r.outcome.Unsupported?)
            && s.cancelled == Count(results, (r: Result) => r.outcome.OutcomeCancelled?)
  {
    if results != [] {
      SummaryCounts(results[..|results| - 1]);
    }
  }

  /** The entries below n with a verdict. */
  ghost function Those(n: nat, p: nat -> bool): set<nat> {
    set i: nat | i < n && p(i)
  }

  lemma {:induction false} CountIsThose<T>(s: seq<T>, p: T -> bool, q: nat -> bool)
    requires forall i :: 0 <= i < |s| ==> p(s[i]) == q(i)
    ensures Count(s, p) == |Those(|s|, q)|
  {
    if s == [] {
      assert Those(0, q) == {};
    } else {
      var n := |s| - 1;
      assert forall i :: 0 <= i < n ==> s[..n][i] == s[i];
      CountIsThose(s[..n], p, q);
      assert Those(|s|, q) == Those(n, q) + if q(n) then {n} else {};
    }
  }

  /** The four verdicts on entry i in a run, and how its failure is listed. */
  predicate PassedIn(entries: seq<Entry>, concurrency: nat, run: seq<Step>, i: nat) {
    i < |entries| && Passes(entries[i], ReturnOf(NewBatch(entries, concurrency), run, i))
  }

  predicate FailedIn(entries: seq<Entry>, concurrency: nat, run: seq<Step>, i: nat) {
    i < |entries| && Fails(entries[i], ReturnOf(NewBatch(entries, concurrency), run, i))
  }

  predicate UnservedIn(entries: seq<Entry>, concurrency: nat, run: seq<Step>, i: nat) {
    i < |entries| && Unserved(entries[i], ReturnOf(NewBatch(entries, concurrency), run, i))
  }

  predicate CancelledIn(entries: seq<Entry>, concurrency: nat, run: seq<Step>, i: nat) {
    i < |entries| && IsCancelled(entries[i], ReturnOf(NewBatch(entries, concurrency), run, i))
  }

  ghost predicate Ended(entries: seq<Entry>, concurrency: nat, run: seq<Step>) {
    && |entries| >= 1 && concurrency >= 1 && Valid(PROTOCOL, NewBatch(entries, concurrency), run)
    && After(PROTOCOL, NewBatch(entries, concurrency), run).done
  }

  lemma EndedSummary(entries: seq<Entry>, concurrency: nat, run: seq<Step>)
    requires Ended(entries, concurrency, run)
    ensures var b := After(PROTOCOL, NewBatch(entries, concurrency), run);
            |b.results| == |entries| && b.summary == SummaryOf(b.results)
  {
    var start := NewBatch(entries, concurrency);
    NewBatchInv(entries, concurrency);
    EntriesStay(start, run);
    assert Leads(PROTOCOL, start, After(PROTOCOL, start, run));
    ReachableInv(After(PROTOCOL, start, run));
  }

  /** What the finished results say, entry by entry. */
  lemma EndedOutcomes(entries: seq<Entry>, concurrency: nat, run: seq<Step>, results: seq<Result>)
    requires Ended(entries, concurrency, run) && results == After(PROTOCOL, NewBatch(entries, concurrency), run).results
    ensures |results| == |entries|
    ensures forall i :: 0 <= i < |results| ==> results[i].outcome.Passed? == PassedIn(entries, concurrency, run, i)
    ensures forall i :: 0 <= i < |results| ==> results[i].outcome.OutcomeFailed? == FailedIn(entries, concurrency, run, i)
    ensures forall i :: 0 <= i < |results| ==> results[i].outcome.Unsupported? == UnservedIn(entries, concurrency, run, i)
    ensures forall i :: 0 <= i < |results| ==> results[i].outcome.OutcomeCancelled? == CancelledIn(entries, concurrency, run, i)
    ensures forall i :: 0 <= i < |results| ==> results[i].id == entries[i].id && results[i].captured == entries[i].captured
  {
    EndedSummary(entries, concurrency, run);
    forall i | 0 <= i < |results|
      ensures Verdict(entries[i], ReturnOf(NewBatch(entries, concurrency), run, i), results[i])
    {
      EveryEntryHasItsVerdict(entries, concurrency, run, i);
    }
  }

  /** So the tally of a finished batch counts the entries whose probe runs passed, failed, and so on. */
  lemma TallyOfVerdicts(entries: seq<Entry>, concurrency: nat, run: seq<Step>)
    requires Ended(entries, concurrency, run)
    ensures var s := After(PROTOCOL, NewBatch(entries, concurrency), run).summary;
            && s.passed == |Those(|entries|, (i: nat) => PassedIn(entries, concurrency, run, i))|
            && s.failed == |Those(|entries|, (i: nat) => FailedIn(entries, concurrency, run, i))|
            && s.unsupported == |Those(|entries|, (i: nat) => UnservedIn(entries, concurrency, run, i))|
            && s.cancelled == |Those(|entries|, (i: nat) => CancelledIn(entries, concurrency, run, i))|
  {
    var results := After(PROTOCOL, NewBatch(entries, concurrency), run).results;
    EndedSummary(entries, concurrency, run);
    EndedOutcomes(entries, concurrency, run, results);
    SummaryCounts(results);
    CountIsThose(results, (r: Result) => r.outcome.Passed?, (i: nat) => PassedIn(entries, concurrency, run, i));
    CountIsThose(results, (r: Result) => r.outcome.OutcomeFailed?, (i: nat) => FailedIn(entries, concurrency, run, i));
    CountIsThose(results, (r: Result) => r.outcome.Unsupported?, (i: nat) => UnservedIn(entries, concurrency, run, i));
    CountIsThose(results, (r: Result) => r.outcome.OutcomeCancelled?, (i: nat) => CancelledIn(entries, concurrency, run, i));
  }

  /** How a failed endpoint is listed: as a target of its service, with the hostname and port that were captured. */
  function Listed(c: Captured): string {
    Targets.TargetIdentity(c.hostname, c.service, c.port)
  }

  /** ... and lists exactly the failed ones, by identifier and by notation. */
  lemma FailedAreListed(entries: seq<Entry>, concurrency: nat, run: seq<Step>, name: string)
    requires Ended(entries, concurrency, run)
    ensures var s := After(PROTOCOL, NewBatch(entries, concurrency), run).summary;
            && (name in s.failedIds <==> exists i: nat :: FailedIn(entries, concurrency, run, i) && entries[i].id == name)
            && (name in s.failedIdentities <==> exists i: nat :: FailedIn(entries, concurrency, run, i) && Listed(entries[i].captured) == name)
  {
    var results := After(PROTOCOL, NewBatch(entries, concurrency), run).results;
    EndedSummary(entries, concurrency, run);
    EndedOutcomes(entries, concurrency, run, results);
    FailedIdsAreTheFailed(results, name);
    FailedIdentitiesAreTheFailed(results, name);
    if i: nat :| FailedIn(entries, concurrency, run, i) && Listed(entries[i].captured) == name {
      assert FailedAs(results[i], name);
    }
  }

  // ---- the concurrency is used ----

  /** The first k workers run the first k entries, and nothing else has happened. */
  ghost predicate Filled(b: Batch, k: nat) {
    && b.begun && !b.done && !b.cancelRequested && !b.contextDone && b.next == k <= |b.workers| <= |b.entries| == |b.results|
    && (forall i :: 0 <= i < |b.entries| ==> !b.entries[i].unsupported)
    && (forall v :: 0 <= v < k ==> b.workers[v] == Executing(v) && b.results[v].state.EntryRunning?)
    && (forall v :: k <= v < |b.workers| ==> b.workers[v].Idle?)
    && (forall i :: k <= i < |b.results| ==> b.results[i] == ResultForEntry(b.entries[i]))
  }

  lemma TakenIsRunning(b: Batch, k: nat) returns (c: Batch)
    requires Filled(b, k) && k < |b.workers|
    ensures Leads(PROTOCOL, b, c) && Filled(c, k + 1) && c.entries == b.entries && |c.workers| == |b.workers|
  {
    var b1 := Next(b, Take(k));
    assert b1.workers == b.workers[k := Taken(k)] && b1.results == b.results;
    c := AdmittedIsRunning(b1, k);
    assert c.workers == b.workers[k := Executing(k)];
    Prepend(PROTOCOL, b, Take(k), c);
  }

  lemma AdmittedIsRunning(b: Batch, k: nat) returns (c: Batch)
    requires k < |b.workers| && k < |b.entries| == |b.results| && b.workers[k] == Taken(k) && b.results[k] == ResultForEntry(b.entries[k])
    requires b.begun && !b.done && !b.cancelRequested && !b.contextDone && !b.entries[k].unsupported
    ensures Leads(PROTOCOL, b, c) && c.results == b.results[k := Started(b.results[k])]
    ensures c == b.(workers := b.workers[k := Executing(k)], results := c.results, summary := c.summary)
  {
    var b2 := Next(b, Decide(k));
    assert b2.workers == b.workers[k := Admitted(k)] && b2.results == b.results;
    c := Next(b2, MarkRunning(k));
    assert c.workers == b.workers[k := Executing(k)] && c.results == b.results[k := Started(b.results[k])];
    Stay(PROTOCOL, c);
    Prepend(PROTOCOL, b2, MarkRunning(k), c);
    Prepend(PROTOCOL, b, Decide(k), c);
  }

  lemma {:induction false} FillUp(b: Batch, k: nat) returns (c: Batch)
    requires Filled(b, k)
    ensures Leads(PROTOCOL, b, c) && Filled(c, |c.workers|) && c.entries == b.entries && |c.workers| == |b.workers|
    decreases |b.workers| - k
  {
    if k == |b.workers| {
      c := b;
      Stay(PROTOCOL, b);
    } else {
      var d := TakenIsRunning(b, k);
      c := FillUp(d, k + 1);
      Chain(PROTOCOL, b, d, c);
    }
  }

  /** As many entries as the concurrency admits, and there are, can run at once. */
  lemma ConcurrencyIsReached(entries: seq<Entry>, concurrency: nat) returns (b: Batch)
    requires forall i :: 0 <= i < |entries| ==> !entries[i].unsupported
    ensures Leads(PROTOCOL, NewBatch(entries, concurrency), b) && b.entries == entries
    ensures |b.workers| == if concurrency <= |entries| then concurrency else |entries|
    ensures forall v :: 0 <= v < |b.workers| ==> b.workers[v] == Executing(v) && v < |b.results| && b.results[v].state.EntryRunning?
  {
    var start := NewBatch(entries, concurrency);
    var begun := Next(start, Begin);
    b := FillUp(begun, 0);
    Prepend(PROTOCOL, start, Begin, b);
  }
}
