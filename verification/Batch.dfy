/**
 One validation batch (internal/batch/manager.go:337-357, 378-525, 565-630, 694-725): the results
 and the summary that its mutex guards, the classification of one report, and the tally.
 */
module Batches {
  import opened Lists
  import opened Options
  import Targets

  datatype State = Starting | Running | Cancelling | Completed | Cancelled | Failed

  predicate Terminal(s: State) {
    s.Completed? || s.Cancelled? || s.Failed?
  }

  datatype EntryState = EntryQueued | EntryRunning | EntryCompleted | EntryCancelled | EntryUnsupported

  predicate TerminalEntry(s: EntryState) {
    s.EntryCompleted? || s.EntryCancelled? || s.EntryUnsupported?
  }

  datatype Outcome = Passed | OutcomeFailed | Partial | Unsupported | OutcomeCancelled | NotRun

  /** What the browser capture saw of an endpoint; active validation never changes it. */
  datatype Captured = Captured(hostname: string, identity: string, service: string, port: nat, failed: bool,
                               observations: nat, connections: nat, successes: nat, failures: nat)

  /** How an endpoint is listed: `TargetIdentity` looks at hostname, service and port, not at the report's target. */
  function Notation(c: Captured): string {
    Targets.TargetIdentity(c.hostname, c.service, c.port)
  }

  datatype Entry = Entry(id: string, captured: Captured, unsupported: bool)

  datatype ReportStatus = ReportComplete | ReportIncomplete | ReportError | ReportUnknown

  datatype DestinationStatus = Reachable | Unreachable | Degraded | Undetermined

  datatype FailureReason = NoReason | ReasonNone | ReasonUnknown | ReasonUnsupported | Concrete(reason: string)

  datatype Diagnostic = Diagnostic(status: ReportStatus, destination: DestinationStatus, reason: FailureReason)

  datatype Error = NoError | UnsupportedService | WasCancelled | TimedOut | RunnerPanicked

  datatype Result = Result(id: string, captured: Captured, state: EntryState, outcome: Outcome,
                           report: Option<Diagnostic>, error: Error)

  datatype ContextError = NoContextError | ContextCanceled | DeadlineExceeded

  // ---- one entry ----

  function ResultForEntry(entry: Entry): Result {
    Result(entry.id, entry.captured, EntryQueued, NotRun, None, NoError)
  }

  function UnsupportedResult(entry: Entry): Result {
    ResultForEntry(entry).(state := EntryUnsupported, outcome := Unsupported, error := UnsupportedService)
  }

  function CancelledResult(entry: Entry): Result {
    ResultForEntry(entry).(state := EntryCancelled, outcome := OutcomeCancelled, error := WasCancelled)
  }

  function ClassifyOutcome(d: Diagnostic): Outcome {
    if d.status.ReportError? || d.status.ReportUnknown? then
      if d.destination.Unreachable? || d.destination.Degraded? then OutcomeFailed else Partial
    else if d.status.ReportIncomplete? then Partial
    else
      match d.destination
      case Reachable => Passed
      case Unreachable => OutcomeFailed
      case Degraded => OutcomeFailed
      case Undetermined =>
        if d.reason.ReasonUnsupported? then Unsupported
        else if d.reason.Concrete? then OutcomeFailed
        else Partial
  }

  /** `runEntry`: a panic leaves an error report; the timeout branch does not set the state. */
  function EntryResult(entry: Entry, diagnostic: Diagnostic, context: ContextError, panicked: bool): Result {
    var result := ResultForEntry(entry).(report := Some(diagnostic));
    if context.ContextCanceled? && !panicked then
      result.(state := EntryCancelled, outcome := OutcomeCancelled, error := WasCancelled)
    else if context.DeadlineExceeded? && diagnostic.status.ReportComplete? then
      result.(outcome := Partial, error := TimedOut)
    else
      result.(state := EntryCompleted, outcome := ClassifyOutcome(diagnostic),
              error := if panicked then RunnerPanicked else NoError)
  }

  // ---- the tally ----

  datatype Summary = Summary(total: nat, queued: nat, running: nat, completed: nat,
                             passed: nat, failed: nat, partial_: nat, unsupported: nat, cancelled: nat,
                             capturedFailures: nat, validationFailures: nat,
                             failedIds: seq<string>, failedIdentities: seq<string>)

  const EMPTY_SUMMARY: Summary := Summary(0, 0, 0, 0, 0, 0, 0, 0, 0, 0, 0, [], [])

  function One(b: bool): nat {
    if b then 1 else 0
  }

  function Tallied(s: Summary, r: Result): Summary {
    var failed := r.outcome.OutcomeFailed?;
    Summary(s.total + 1,
            s.queued + One(r.state.EntryQueued?), s.running + One(r.state.EntryRunning?),
            s.completed + One(TerminalEntry(r.state)),
            s.passed + One(r.outcome.Passed?), s.failed + One(failed), s.partial_ + One(r.outcome.Partial?),
            s.unsupported + One(r.outcome.Unsupported?), s.cancelled + One(r.outcome.OutcomeCancelled?),
            s.capturedFailures + One(r.captured.failed), s.validationFailures + One(failed),
            if failed then s.failedIds + [r.id] else s.failedIds,
            if failed then s.failedIdentities + [Notation(r.captured)] else s.failedIdentities)
  }

  function SummaryOf(results: seq<Result>): Summary {
    if results == [] then EMPTY_SUMMARY
    else Tallied(SummaryOf(results[..|results| - 1]), results[|results| - 1])
  }

  /** The first switch of the loop of `summarize`. */
  function StateCounted(s: Summary, state: EntryState): Summary {
    match state
    case EntryQueued => s.(queued := s.queued + 1)
    case EntryRunning => s.(running := s.running + 1)
    case EntryCompleted => s.(completed := s.completed + 1)
    case EntryUnsupported => s.(completed := s.completed + 1)
    case EntryCancelled => s.(completed := s.completed + 1)
  }

  /** ... and the second. */
  function OutcomeCounted(s: Summary, r: Result): Summary {
    match r.outcome
    case Passed => s.(passed := s.passed + 1)
    case OutcomeFailed =>
      s.(failed := s.failed + 1, validationFailures := s.validationFailures + 1,
         failedIds := s.failedIds + [r.id], failedIdentities := s.failedIdentities + [Notation(r.captured)])
    case Partial => s.(partial_ := s.partial_ + 1)
    case Unsupported => s.(unsupported := s.unsupported + 1)
    case OutcomeCancelled => s.(cancelled := s.cancelled + 1)
    case NotRun => s
  }

  function Counted(s: Summary, r: Result): Summary {
    var t := StateCounted(s, r.state);
    OutcomeCounted(if r.captured.failed then t.(capturedFailures := t.capturedFailures + 1) else t, r)
  }

  lemma CountedIsTallied(s: Summary, r: Result, total: nat)
    ensures Counted(s.(total := total), r) == Tallied(s, r).(total := total)
  {
  }

  /** `summarize`. */
  method Summarize(results: seq<Result>) returns (s: Summary)
    ensures s == SummaryOf(results)
  {
    s := EMPTY_SUMMARY.(total := |results|);
    for i := 0 to |results|
      invariant s == SummaryOf(results[..i]).(total := |results|)
    {
      assert results[..i + 1][..i] == results[..i];
      CountedIsTallied(SummaryOf(results[..i]), results[i], |results|);
      s := Counted(s, results[i]);
    }
    assert results[..|results|] == results;
    SummaryTotal(results);
  }

  lemma {:induction false} SummaryTotal(results: seq<Result>)
    ensures SummaryOf(results).total == |results|
  {
    if results != [] {
      SummaryTotal(results[..|results| - 1]);
    }
  }

  /** What the tally of any list of results adds up to. */
  lemma {:induction false} SummaryAddsUp(results: seq<Result>)
    ensures var s := SummaryOf(results);
            && s.total == |results| == s.queued + s.running + s.completed
            && s.queued == Count(results, (r: Result) => r.state.EntryQueued?)
            && s.running == Count(results, (r: Result) => r.state.EntryRunning?)
            && s.passed + s.failed + s.partial_ + s.unsupported + s.cancelled
               + Count(results, (r: Result) => r.outcome.NotRun?) == s.total
            && s.failed == s.validationFailures == |s.failedIds| == |s.failedIdentities|
            && s.capturedFailures == Count(results, (r: Result) => r.captured.failed)
  {
    if results != [] {
      SummaryAddsUp(results[..|results| - 1]);
    }
  }

  lemma {:induction false} FailedIdsAreTheFailed(results: seq<Result>, id: string)
    ensures id in SummaryOf(results).failedIds <==> exists i :: 0 <= i < |results| && results[i].id == id && results[i].outcome.OutcomeFailed?
  {
    if results != [] {
      var n := |results| - 1;
      FailedIdsAreTheFailed(results[..n], id);
      assert forall i :: 0 <= i < n ==> results[..n][i] == results[i];
    }
  }

  predicate FailedAs(r: Result, notation: string) {
    r.outcome.OutcomeFailed? && Notation(r.captured) == notation
  }

  lemma FailedIdentitiesGrow(s: Summary, r: Result, notation: string)
    ensures notation in Tallied(s, r).failedIdentities <==> notation in s.failedIdentities || FailedAs(r, notation)
  {
  }

  lemma {:induction false} FailedIdentitiesAreTheFailed(results: seq<Result>, notation: string)
    ensures notation in SummaryOf(results).failedIdentities <==> exists i :: 0 <= i < |results| && FailedAs(results[i], notation)
  {
    if results != [] {
      var n := |results| - 1;
      FailedIdentitiesAreTheFailed(results[..n], notation);
      FailedIdentitiesGrow(SummaryOf(results[..n]), results[n], notation);
      assert forall i :: 0 <= i < n ==> results[..n][i] == results[i];
    }
  }

  // ---- what the critical sections do to states and results ----

  function Started(r: Result): Result {
    if TerminalEntry(r.state) then r else r.(state := EntryRunning)
  }

  function Requested(s: State): State {
    if Terminal(s) then s else Cancelling
  }

  function Begun(s: State): State {
    if s.Starting? then Running else s
  }

  function EndState(cancelled: bool): State {
    if cancelled then Cancelled else Completed
  }

  // ---- the object ----

  class ManagedBatch {
    const entries: seq<Entry>
    var state: State
    var results: seq<Result>
    var summary: Summary
    var cancelRequested: bool
    var contextDone: bool
    var done: bool

    ghost predicate Valid()
      reads this
    {
      && |results| == |entries|
      && (forall i :: 0 <= i < |results| ==> results[i].id == entries[i].id && results[i].captured == entries[i].captured)
      && summary == SummaryOf(results)
    }

    constructor (entries: seq<Entry>)
      ensures Valid() && this.entries == entries && state == Starting && !cancelRequested && !contextDone && !done
      ensures forall i :: 0 <= i < |entries| ==> results[i] == ResultForEntry(entries[i])
    {
      this.entries := entries;
      state, cancelRequested, contextDone, done := Starting, false, false, false;
      results := seq(|entries|, i requires 0 <= i < |entries| => ResultForEntry(entries[i]));
      new;
      summary := Summarize(results);
    }

    method MarkRunning(index: int)
      requires Valid()
      modifies this`results, this`summary
      ensures Valid()
      ensures results == if 0 <= index < |old(results)| then old(results)[index := Started(old(results)[index])] else old(results)
    {
      if index < 0 || index >= |results| || TerminalEntry(results[index].state) {
        return;
      }
      results := results[index := results[index].(state := EntryRunning)];
      summary := Summarize(results);
    }

    method Finish(index: int, result: Result)
      requires Valid()
      requires 0 <= index < |results| ==> result.id == entries[index].id && result.captured == entries[index].captured
      modifies this`results, this`summary
      ensures Valid()
      ensures results == if 0 <= index < |old(results)| then old(results)[index := result] else old(results)
    {
      if index < 0 || index >= |results| {
        return;
      }
      results := results[index := result];
      summary := Summarize(results);
    }

    method ContextCancelled() returns (cancelled: bool)
      ensures cancelled == (cancelRequested || contextDone)
    {
      cancelled := cancelRequested || contextDone;
    }

    method Cancel()
      modifies this`cancelRequested, this`state
      ensures cancelRequested == (old(cancelRequested) || !Terminal(old(state))) && state == Requested(old(state))
    {
      if Terminal(state) {
        return;
      }
      cancelRequested := true;
      if state.Starting? || state.Running? {
        state := Cancelling;
      }
    }

    method Begin()
      modifies this`state
      ensures state == Begun(old(state))
    {
      if state.Starting? {
        state := Running;
      }
    }

    /** The last critical section of `execute`. */
    method End()
      requires Valid() && !done
      modifies this`state, this`summary, this`done
      ensures Valid() && done
      ensures state == EndState(cancelRequested || contextDone)
    {
      if cancelRequested || contextDone {
        state := Cancelled;
      } else {
        state := Completed;
      }
      summary := Summarize(results);
      done := true;
    }
  }
}
