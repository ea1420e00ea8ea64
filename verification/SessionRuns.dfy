/**
 What every run of one session keeps, whatever the interleaving of emits, cancellations,
 subscriptions, reads and the final critical section.
 */
module SessionRuns {
  import opened Runs
  import opened Sessions

  datatype Step =
    | Emit(event: Event)
    | Cancel
    | Subscribe(c: ChannelId, after: nat)
    | Unsubscribe(c: ChannelId)
    | Take(c: ChannelId)
    | Finish(report: Report, panicked: bool, deadlineExceeded: bool)

  /** `execute` reaches its final section once; a reader can only take what is buffered. */
  predicate Enabled(s: Session, step: Step) {
    match step
    case Subscribe(c, _) => c !in s.channels
    case Take(c) => c in s.channels && s.channels[c].buffer != []
    case Finish(_, _, _) => !s.done
    case _ => true
  }

  function Next(s: Session, step: Step): Session {
    match step
    case Emit(event) => Emitted(s, event)
    case Cancel => CancelRequested(s)
    case Subscribe(c, after) => Subscribed(s, c, after)
    case Unsubscribe(c) => Unsubscribed(s, c)
    case Take(c) => Taken(s, c)
    case Finish(report, panicked, deadlineExceeded) => Finished(s, report, panicked, deadlineExceeded)
  }

  const PROTOCOL: System<Session, Step> := System(Enabled, Next)

  lemma EmitKeepsInv(s: Session, event: Event)
    requires Inv(s)
    ensures Inv(Emitted(s, event))
  {
    EmittedKeepsStreams(s, event);
  }

  lemma CancelKeepsInv(s: Session)
    requires Inv(s)
    ensures Inv(CancelRequested(s))
  {
  }

  lemma UnsubscribeKeepsInv(s: Session, c: ChannelId)
    requires Inv(s)
    ensures Inv(Unsubscribed(s, c))
  {
    UnsubscribedKeepsStreams(s, c);
  }

  lemma TakeKeepsInv(s: Session, c: ChannelId)
    requires Inv(s) && c in s.channels && s.channels[c].buffer != []
    ensures Inv(Taken(s, c))
  {
    TakenKeepsStreams(s, c);
  }

  lemma StepKeepsInv(s: Session, step: Step)
    requires Inv(s) && Enabled(s, step)
    ensures Inv(Next(s, step))
  {
    match step
    case Emit(event) => EmitKeepsInv(s, event);
    case Cancel => CancelKeepsInv(s);
    case Subscribe(c, after) => SubscribedKeepsInv(s, c, after);
    case Unsubscribe(c) => UnsubscribeKeepsInv(s, c);
    case Take(c) => TakeKeepsInv(s, c);
    case Finish(report, panicked, deadlineExceeded) => FinishedKeepsInv(s, report, panicked, deadlineExceeded);
  }

  lemma StepsKeepInv()
    ensures Keeps(PROTOCOL, Inv)
  {
    forall s, step | Inv(s) && Enabled(s, step) ensures Inv(Next(s, step)) {
      StepKeepsInv(s, step);
    }
  }

  ghost predicate Reachable(s: Session) {
    exists id :: Leads(PROTOCOL, NewSession(id), s)
  }

  lemma NewSessionInv(id: string)
    ensures Inv(NewSession(id))
  {
  }

  /** Every run keeps the invariant. */
  lemma ReachableInv(s: Session)
    requires Reachable(s)
    ensures Inv(s)
  {
    var id :| Leads(PROTOCOL, NewSession(id), s);
    StepsKeepInv();
    NewSessionInv(id);
    LeadsKeeps(PROTOCOL, Inv, NewSession(id), s);
  }

  // ---- the log and the streams ----

  /** After n emits the log is exactly the last min(n, 4096) events, numbered up to n. */
  lemma BoundedLogIsWindow(s: Session)
    requires Reachable(s)
    ensures var n := |s.history|;
            && s.nextSequence == n
            && |s.events| == (if n < 4096 then n else 4096)
            && forall i :: 0 <= i < |s.events| ==>
                 s.events[i] == s.history[n - |s.events| + i] && s.events[i].sequence == n - |s.events| + i + 1
  {
    ReachableInv(s);
    assert LogInv(s);
  }

  /** Gapless delivery: one contiguous run, up to the newest event exactly while subscribed. */
  lemma GaplessDelivery(s: Session, c: ChannelId)
    requires Reachable(s) && c in s.channels
    ensures var ch := s.channels[c];
            && ch.First() + |ch.Stream()| <= |s.history|
            && (forall i :: 0 <= i < |ch.Stream()| ==>
                  ch.Stream()[i] == s.history[ch.First() + i] && ch.Stream()[i].sequence == ch.First() + i + 1)
            && (c in s.subscribers <==> !ch.closed)
            && (c in s.subscribers ==> ch.First() + |ch.Stream()| == s.nextSequence)
  {
    ReachableInv(s);
    StreamIsContiguous(s, c);
  }

  lemma StreamIsContiguous(s: Session, c: ChannelId)
    requires StreamsInv(s) && c in s.channels
    ensures var ch := s.channels[c];
            && ch.First() + |ch.Stream()| <= |s.history|
            && (forall i :: 0 <= i < |ch.Stream()| ==>
                  ch.Stream()[i] == s.history[ch.First() + i] && ch.Stream()[i].sequence == ch.First() + i + 1)
            && (c in s.subscribers <==> !ch.closed)
            && (c in s.subscribers ==> ch.First() + |ch.Stream()| == s.nextSequence)
  {
    assert ChannelInv(s.history, s.channels[c], c in s.subscribers);
  }

  /** The same subscription, and a stream that was only appended to - not at all once closed. */
  ghost predicate Continues(old_: Channel, new_: Channel) {
    && new_.after == old_.after && new_.joined == old_.joined && new_.oldest == old_.oldest
    && old_.received <= new_.received
    && old_.Stream() <= new_.Stream()
    && (old_.closed ==> new_.closed && new_.Stream() == old_.Stream())
  }

  lemma EmittedContinues(s: Session, event: Event, c: ChannelId)
    requires StreamsInv(s) && c in s.channels
    ensures Continues(s.channels[c], Emitted(s, event).channels[c])
  {
    assert c in s.subscribers <==> !s.channels[c].closed;
  }

  lemma {:induction false} FindingsContinue(s: Session, findings: seq<string>, c: ChannelId)
    requires StreamsInv(s) && c in s.channels
    ensures c in EmittedFindings(s, findings).channels
    ensures Continues(s.channels[c], EmittedFindings(s, findings).channels[c])
  {
    if findings != [] {
      var shorter := EmittedFindings(s, findings[..|findings| - 1]);
      FindingsContinue(s, findings[..|findings| - 1], c);
      FindingsKeepStreams(s, findings[..|findings| - 1]);
      EmittedContinues(shorter, FindingEvent(findings[|findings| - 1]), c);
    }
  }

  lemma TakenContinues(s: Session, c: ChannelId, d: ChannelId)
    requires c in s.channels
    ensures c in Taken(s, d).channels
    ensures Continues(s.channels[c], Taken(s, d).channels[c])
  {
    if d in s.channels && s.channels[d].buffer != [] {
      var ch := s.channels[d];
      assert ch.received + [ch.buffer[0]] + ch.buffer[1..] == ch.Stream();
    }
  }

  lemma ContinuesTransitive(a: Channel, b: Channel, c: Channel)
    requires Continues(a, b) && Continues(b, c)
    ensures Continues(a, c)
  {
  }

  lemma AllClosedContinues(s: Session, c: ChannelId)
    requires c in s.channels
    ensures c in AllClosed(s).channels && Continues(s.channels[c], AllClosed(s).channels[c])
  {
  }

  lemma FinishedContinues(s: Session, report: Report, panicked: bool, deadlineExceeded: bool, c: ChannelId)
    requires StreamsInv(s) && c in s.channels
    ensures c in Finished(s, report, panicked, deadlineExceeded).channels
    ensures Continues(s.channels[c], Finished(s, report, panicked, deadlineExceeded).channels[c])
  {
    var decided := Decided(s, report, panicked, deadlineExceeded);
    var emitted := EmittedFindings(decided, report.findings);
    var told := Emitted(emitted, LastEvent(decided.state));
    FindingsContinue(decided, report.findings, c);
    FindingsKeepStreams(decided, report.findings);
    EmittedContinues(emitted, LastEvent(decided.state), c);
    AllClosedContinues(told, c);
    ContinuesTransitive(s.channels[c], emitted.channels[c], told.channels[c]);
    ContinuesTransitive(s.channels[c], told.channels[c], AllClosed(told).channels[c]);
  }

  lemma StepContinues(s: Session, step: Step, c: ChannelId)
    requires Inv(s) && Enabled(s, step) && c in s.channels
    ensures c in Next(s, step).channels
    ensures Continues(s.channels[c], Next(s, step).channels[c])
  {
    match step
    case Emit(event) => EmittedContinues(s, event, c);
    case Take(d) => TakenContinues(s, c, d);
    case Finish(report, panicked, deadlineExceeded) => FinishedContinues(s, report, panicked, deadlineExceeded, c);
    case Unsubscribe(d) => assert c in s.subscribers <==> !s.channels[c].closed;
    case _ =>
  }

  /** Closing is final: whatever follows, a closed channel never gets another event. */
  lemma ClosedIsFinal(s: Session, t: Session, c: ChannelId)
    requires Inv(s) && Leads(PROTOCOL, s, t) && c in s.channels
    ensures Inv(t) && c in t.channels && Continues(s.channels[c], t.channels[c])
  {
    var continued := (x: Session) => Inv(x) && c in x.channels && Continues(s.channels[c], x.channels[c]);
    forall x, step | continued(x) && Enabled(x, step) ensures continued(Next(x, step)) {
      StepContinues(x, step, c);
      StepKeepsInv(x, step);
      ContinuesTransitive(s.channels[c], x.channels[c], Next(x, step).channels[c]);
    }
    LeadsKeeps(PROTOCOL, continued, s, t);
  }

  ghost predicate AllNewer(stream: seq<Event>, after: nat) {
    forall i :: 0 <= i < |stream| ==> stream[i].sequence > after
  }

  /** A position that had been reached: nothing at or before it is ever delivered. */
  lemma NewerForever(s: Session, c: ChannelId, after: nat, u: Session)
    requires Inv(s) && c !in s.channels && Leads(PROTOCOL, Subscribed(s, c, after), u)
    requires Terminal(s.state) || after <= s.nextSequence
    ensures c in u.channels && AllNewer(u.channels[c].Stream(), after)
  {
    SubscribedKeepsInv(s, c, after);
    ClosedIsFinal(Subscribed(s, c, after), u, c);
    StreamIsContiguous(u, c);
    ReplayIsSuffix(s, after);
    StreamIsNewer(Subscribed(s, c, after).channels[c], u.channels[c]);
  }

  lemma StreamIsNewer(before: Channel, ch: Channel)
    requires Continues(before, ch)
    requires forall i :: 0 <= i < |ch.Stream()| ==> ch.Stream()[i].sequence == ch.First() + i + 1
    requires before.after <= before.joined || (before.closed && before.Stream() == [])
    ensures AllNewer(ch.Stream(), before.after)
  {
  }

  lemma FirstDelivery(t: Session, c: ChannelId, event: Event)
    requires c in t.subscribers && c in t.channels && t.channels[c].Stream() == [] && t.channels[c].HasRoom()
    ensures c in Emitted(t, event).channels && Emitted(t, event).channels[c].Stream() == [Stamp(t, event)]
  {
  }

  lemma FutureSubscription(s: Session, c: ChannelId, after: nat)
    requires Inv(s) && !Terminal(s.state) && after > s.nextSequence
    ensures var t := Subscribed(s, c, after);
            && c in t.subscribers && c in t.channels && t.channels[c].Stream() == [] && t.channels[c].HasRoom()
            && t.nextSequence == s.nextSequence
  {
    ReplayIsSuffix(s, after);
  }

  /** A position still in the future: the very next event is delivered although it is older. */
  lemma NextEventDelivered(s: Session, c: ChannelId, after: nat, event: Event)
    requires Inv(s) && c !in s.channels && !Terminal(s.state) && after > s.nextSequence
    ensures var u := Emitted(Subscribed(s, c, after), event);
            c in u.channels && !AllNewer(u.channels[c].Stream(), after)
  {
    FutureSubscription(s, c, after);
    FirstDelivery(Subscribed(s, c, after), c, event);
    var stream := Emitted(Subscribed(s, c, after), event).channels[c].Stream();
    assert stream[0] == Stamp(Subscribed(s, c, after), event) && stream[0].sequence <= after;
  }

  ghost predicate AlwaysNewer(t: Session, c: ChannelId, after: nat) {
    forall u :: Leads(PROTOCOL, t, u) ==> c in u.channels && AllNewer(u.channels[c].Stream(), after)
  }

  /**
   The promise "events after `after`" holds for the whole life of a subscription exactly if the
   requested position had been reached, or nothing more can be delivered: only the replay filters.
   */
  lemma OnlyNewerEventsIff(s: Session, c: ChannelId, after: nat)
    requires Inv(s) && c !in s.channels
    ensures AlwaysNewer(Subscribed(s, c, after), c, after) <==> Terminal(s.state) || after <= s.nextSequence
  {
    var t := Subscribed(s, c, after);
    if Terminal(s.state) || after <= s.nextSequence {
      forall u | Leads(PROTOCOL, t, u) ensures c in u.channels && AllNewer(u.channels[c].Stream(), after) {
        NewerForever(s, c, after, u);
      }
    } else {
      var event := Event(ResultUpdated, 0, "", "");
      NextEventDelivered(s, c, after, event);
      Stay(PROTOCOL, Emitted(t, event));
      Prepend(PROTOCOL, t, Emit(event), Emitted(t, event));
    }
  }

  lemma StreamsJoin(history: seq<Event>, first: Channel, second: Channel)
    requires first.received != [] && second.after == first.First() + |first.received|
    requires exists b :: ChannelInv(history, first, b)
    requires exists b :: ChannelInv(history, second, b)
    ensures var end := second.First() + |second.Stream()|;
            (first.First() <= end <= |history| && first.received + second.Stream() == history[first.First()..end])
            <==> second.oldest <= second.after <= second.joined
  {
    var end := second.First() + |second.Stream()|;
    var whole := first.received + second.Stream();
    if second.First() == second.after {
      assert whole == history[first.First()..end];
    }
    assert |whole| == |first.received| + |second.Stream()|;
  }

  lemma SubscriptionsJoin(s: Session, c: ChannelId, d: ChannelId)
    requires StreamsInv(s) && c in s.channels && d in s.channels
    requires var first, second := s.channels[c], s.channels[d];
             first.received != [] && second.after == first.received[|first.received| - 1].sequence
    ensures var first, second := s.channels[c], s.channels[d];
            var end := second.First() + |second.Stream()|;
            (first.First() <= end <= |s.history| && first.received + second.Stream() == s.history[first.First()..end])
            <==> second.oldest <= second.after <= second.joined
  {
    var first := s.channels[c];
    assert ChannelInv(s.history, first, c in s.subscribers);
    assert ChannelInv(s.history, s.channels[d], d in s.subscribers);
    StreamsJoin(s.history, first, s.channels[d]);
  }

  /**
   A reader that resubscribes from the last sequence number it received has the whole history
   from its first event on, without loss or duplicate, exactly if the position was neither
   evicted from the log nor still in the future at that moment.
   */
  lemma ResubscriptionReconstructs(s: Session, c: ChannelId, d: ChannelId)
    requires Reachable(s) && c in s.channels && d in s.channels
    requires var first, second := s.channels[c], s.channels[d];
             first.received != [] && second.after == first.received[|first.received| - 1].sequence
    ensures var first, second := s.channels[c], s.channels[d];
            var end := second.First() + |second.Stream()|;
            (first.First() <= end <= |s.history| && first.received + second.Stream() == s.history[first.First()..end])
            <==> second.oldest <= second.after <= second.joined
  {
    ReachableInv(s);
    SubscriptionsJoin(s, c, d);
  }

  // ---- the end of a session ----

  lemma {:induction false} FindingsFillBuffer(s: Session, findings: seq<string>, c: ChannelId)
    requires StreamsInv(s) && c in s.subscribers
    ensures var t := EmittedFindings(s, findings);
            && c in t.channels
            && |t.history| == |s.history| + |findings|
            && t.channels[c].capacity == s.channels[c].capacity
            && (c in t.subscribers <==> |s.channels[c].buffer| + |findings| <= s.channels[c].capacity)
            && (c in t.subscribers ==> |t.channels[c].buffer| == |s.channels[c].buffer| + |findings|)
            && (c !in t.subscribers ==> t.channels[c].First() + |t.channels[c].Stream()| < |t.history|)
  {
    assert ChannelInv(s.history, s.channels[c], true);
    if findings != [] {
      var shorter := EmittedFindings(s, findings[..|findings| - 1]);
      FindingsFillBuffer(s, findings[..|findings| - 1], c);
      FindingsKeepStreams(s, findings[..|findings| - 1]);
      assert ChannelInv(shorter.history, shorter.channels[c], c in shorter.subscribers);
    }
  }

  lemma LastEmitFills(s: Session, event: Event, c: ChannelId)
    requires StreamsInv(s) && c in s.channels
    ensures var t := AllClosed(Emitted(s, event));
            && c in t.channels && t.channels[c].closed
            && (t.channels[c].First() + |t.channels[c].Stream()| == |t.history| <==> c in s.subscribers && s.channels[c].HasRoom())
            && t.history[|t.history| - 1].kind == event.kind
  {
    assert ChannelInv(s.history, s.channels[c], c in s.subscribers);
  }

  lemma FindingsLeaveRoom(s: Session, findings: seq<string>, c: ChannelId)
    requires StreamsInv(s) && c in s.subscribers
    ensures var t := EmittedFindings(s, findings);
            && StreamsInv(t) && c in t.channels && t.cancelRequested == s.cancelRequested
            && (c in t.subscribers && t.channels[c].HasRoom() <==> |s.channels[c].buffer| + |findings| + 1 <= s.channels[c].capacity)
  {
    FindingsFillBuffer(s, findings, c);
    FindingsKeepStreams(s, findings);
  }

  /** A subscriber hears of the end exactly if its buffer has room for all the closing events. */
  lemma LastEventDelivered(s: Session, report: Report, panicked: bool, deadlineExceeded: bool, c: ChannelId)
    requires StreamsInv(s) && c in s.subscribers
    ensures var t := Finished(s, report, panicked, deadlineExceeded);
            && c in t.channels && t.channels[c].closed
            && (t.channels[c].First() + |t.channels[c].Stream()| == |t.history|
                <==> |s.channels[c].buffer| + |report.findings| + 1 <= s.channels[c].capacity)
            && t.history[|t.history| - 1].kind == (if s.cancelRequested then DiagnosisCancelled else DiagnosisCompleted)
  {
    var decided := Decided(s, report, panicked, deadlineExceeded);
    FindingsLeaveRoom(decided, report.findings, c);
    LastEmitFills(EmittedFindings(decided, report.findings), LastEvent(decided.state), c);
    assert LastEvent(decided.state).kind == if s.cancelRequested then DiagnosisCancelled else DiagnosisCompleted;
  }

  /** A subscriber without room for the closing events does not hear of the end. */
  lemma FullBufferMisses(s: Session, report: Report, c: ChannelId)
    requires Inv(s) && !s.done && c in s.subscribers && c in s.channels
    requires |s.channels[c].buffer| + |report.findings| + 1 > s.channels[c].capacity
    ensures var t := Finished(s, report, false, false);
            t.done && c in t.channels && t.channels[c].First() + |t.channels[c].Stream()| < |t.history|
  {
    LastEventDelivered(s, report, false, false, c);
    FinishedKeepsInv(s, report, false, false);
    StreamIsContiguous(Finished(s, report, false, false), c);
  }

  lemma SubscribedAndFinished(id: string, report: Report)
    ensures Reachable(Finished(Subscribed(NewSession(id), 0, 0), report, false, false))
  {
    var start := NewSession(id);
    var open := Next(start, Subscribe(0, 0));
    var end := Next(open, Finish(report, false, false));
    Stay(PROTOCOL, end);
    Prepend(PROTOCOL, open, Finish(report, false, false), end);
    Prepend(PROTOCOL, start, Subscribe(0, 0), end);
  }

  lemma FirstSubscription(id: string)
    ensures var s := Subscribed(NewSession(id), 0, 0);
            Inv(s) && !s.done && 0 in s.subscribers && 0 in s.channels
            && s.channels[0].buffer == [] && s.channels[0].capacity == SUBSCRIBER_BUFFER
  {
    NewSessionInv(id);
    SubscribedKeepsInv(NewSession(id), 0, 0);
  }

  /** Such a session: one subscription, and as many findings as its channel has room for. */
  lemma LastEventMissed(id: string) returns (s: Session)
    ensures Reachable(s) && s.done && 0 in s.channels
    ensures s.channels[0].First() + |s.channels[0].Stream()| < |s.history|
  {
    var open := Subscribed(NewSession(id), 0, 0);
    var report := Report(ReportComplete, seq(SUBSCRIBER_BUFFER, _ => "finding"));
    FirstSubscription(id);
    FullBufferMisses(open, report, 0);
    SubscribedAndFinished(id, report);
    s := Finished(open, report, false, false);
  }

  /** Terminal states are absorbing, and done stays closed. */
  lemma TerminalIsAbsorbing(s: Session, t: Session)
    requires Inv(s) && s.done && Leads(PROTOCOL, s, t)
    ensures t.state == s.state && t.report == s.report && t.cancelRequested == s.cancelRequested && t.done
  {
    var ended := (x: Session) => x.done && Terminal(x.state) && x.state == s.state && x.report == s.report
                                 && x.cancelRequested == s.cancelRequested;
    assert Keeps(PROTOCOL, ended);
    LeadsKeeps(PROTOCOL, ended, s, t);
  }

  predicate Finishes(step: Step) { step.Finish? }

  predicate Cancels(step: Step) { step.Cancel? }

  predicate IsDone(s: Session) { s.done }

  predicate IsRequested(s: Session) { s.cancelRequested }

  /** Cancellation was requested before the final critical section. */
  ghost predicate CancelledInTime(steps: seq<Step>) {
    exists i :: 0 <= i < |steps| && steps[i].Cancel? && forall j :: 0 <= j < i ==> !steps[j].Finish?
  }

  lemma CancelledInTimeIs(steps: seq<Step>)
    ensures CancelledInTime(steps) <==> InTime(steps, Cancels, Finishes)
  {
    if i :| 0 <= i < |steps| && steps[i].Cancel? && forall j :: 0 <= j < i ==> !steps[j].Finish? {
      assert Cancels(steps[i]) && forall j :: 0 <= j < i ==> !Finishes(steps[j]);
    }
    if i :| 0 <= i < |steps| && Cancels(steps[i]) && forall j :: 0 <= j < i ==> !Finishes(steps[j]) {
      assert steps[i].Cancel? && forall j :: 0 <= j < i ==> Finishes(steps[j]) == steps[j].Finish?;
    }
  }

  lemma StepRequests(s: Session, step: Step)
    requires Inv(s) && Enabled(s, step)
    ensures !s.done ==> (Next(s, step).cancelRequested <==> s.cancelRequested || step.Cancel?) && (Next(s, step).done <==> step.Finish?)
    ensures s.done ==> Next(s, step).cancelRequested == s.cancelRequested && Next(s, step).done && !step.Finish?
  {
    if step.Finish? {
      FinishedIsDecided(s, step.report, step.panicked, step.deadlineExceeded);
    }
  }

  /** The final section leaves the decision as it was made. */
  lemma FinishedIsDecided(s: Session, report: Report, panicked: bool, deadlineExceeded: bool)
    requires StreamsInv(s)
    ensures var t, d := Finished(s, report, panicked, deadlineExceeded), Decided(s, report, panicked, deadlineExceeded);
            t.state == d.state && t.report == d.report && t.cancelRequested == s.cancelRequested && t.done
  {
    FindingsKeepStreams(Decided(s, report, panicked, deadlineExceeded), report.findings);
  }

  lemma SessionsEndOnce()
    ensures EndsOnce(PROTOCOL, Inv, IsDone, IsRequested, Finishes, Cancels)
  {
    StepsKeepInv();
    forall s, step | Inv(s) && Enabled(s, step)
      ensures !IsDone(s) ==> (IsDone(Next(s, step)) <==> Finishes(step)) && (IsRequested(Next(s, step)) <==> IsRequested(s) || Cancels(step))
      ensures IsDone(s) ==> IsDone(Next(s, step)) && !Finishes(step) && IsRequested(Next(s, step)) == IsRequested(s)
    {
      StepRequests(s, step);
    }
  }

  /** The flag of a run: raised by a cancel before the final section, and by nothing else. */
  lemma CancelRequestedIff(s: Session, run: seq<Step>)
    requires Inv(s) && !s.done && Valid(PROTOCOL, s, run)
    ensures After(PROTOCOL, s, run).cancelRequested <==> s.cancelRequested || CancelledInTime(run)
  {
    SessionsEndOnce();
    RunFlags(PROTOCOL, Inv, IsDone, IsRequested, Finishes, Cancels, s, run);
    CancelledInTimeIs(run);
  }

  /** A session that has ended is cancelled exactly if cancellation came before its final section. */
  lemma EndsCancelledIff(id: string, run: seq<Step>)
    requires Valid(PROTOCOL, NewSession(id), run) && After(PROTOCOL, NewSession(id), run).done
    ensures After(PROTOCOL, NewSession(id), run).state.Cancelled? <==> CancelledInTime(run)
  {
    NewSessionInv(id);
    CancelRequestedIff(NewSession(id), run);
    StepsKeepInv();
    RunKeeps(PROTOCOL, Inv, NewSession(id), run);
    RequestedIsCancelled(After(PROTOCOL, NewSession(id), run));
  }

  lemma RequestedIsCancelled(s: Session)
    requires Inv(s) && s.done
    ensures s.state.Cancelled? <==> s.cancelRequested
  {
  }

  // ---- how a session ends ----

  /** The end that a final section makes: state and report, given whether cancellation came before. */
  ghost predicate EndedBy(s: Session, cancelled: bool, report: Report, panicked: bool, deadlineExceeded: bool) {
    && (s.state.Cancelled? <==> cancelled)
    && (s.state.Failed? <==> !cancelled && (panicked || deadlineExceeded))
    && (s.state.Completed? <==> !cancelled && !panicked && !deadlineExceeded)
    && s.report.Some? && s.report.value.findings == report.findings
    && (deadlineExceeded && report.status.ReportComplete? ==> s.report.value.status.ReportIncomplete?)
    && (!deadlineExceeded || !report.status.ReportComplete? ==> s.report.value == report)
  }

  lemma DecidedEnds(s: Session, report: Report, panicked: bool, deadlineExceeded: bool)
    ensures EndedBy(Decided(s, report, panicked, deadlineExceeded), s.cancelRequested, report, panicked, deadlineExceeded)
  {
  }

  lemma SameEnd(s: Session, t: Session, cancelled: bool, report: Report, panicked: bool, deadlineExceeded: bool)
    requires EndedBy(s, cancelled, report, panicked, deadlineExceeded) && t.state == s.state && t.report == s.report
    ensures EndedBy(t, cancelled, report, panicked, deadlineExceeded)
  {
  }

  lemma FinishEnds(s: Session, t: Session, report: Report, panicked: bool, deadlineExceeded: bool)
    requires Inv(s) && !s.done && Leads(PROTOCOL, Finished(s, report, panicked, deadlineExceeded), t)
    ensures EndedBy(t, s.cancelRequested, report, panicked, deadlineExceeded)
  {
    DecidedEnds(s, report, panicked, deadlineExceeded);
    FinishedIsDecided(s, report, panicked, deadlineExceeded);
    FinishedKeepsInv(s, report, panicked, deadlineExceeded);
    TerminalIsAbsorbing(Finished(s, report, panicked, deadlineExceeded), t);
    SameEnd(Decided(s, report, panicked, deadlineExceeded), t, s.cancelRequested, report, panicked, deadlineExceeded);
  }

  /** A cancel stands before position k. */
  ghost predicate CancelBefore(run: seq<Step>, k: nat) {
    exists j :: 0 <= j < k && j < |run| && run[j].Cancel?
  }

  lemma CancelBeforeIs(run: seq<Step>, k: nat)
    ensures CancelBefore(run, k) <==> Before(run, k, Cancels)
  {
    assert forall j :: 0 <= j < |run| ==> (run[j].Cancel? <==> Cancels(run[j]));
  }

  lemma EndsFrom(s: Session, run: seq<Step>, end: Session) returns (k: nat, b: Session)
    requires Inv(s) && !s.done && Valid(PROTOCOL, s, run) && end == After(PROTOCOL, s, run) && end.done
    ensures k < |run| && run[k].Finish? && forall j :: 0 <= j < |run| && j != k ==> !run[j].Finish?
    ensures Inv(b) && !b.done && (b.cancelRequested <==> s.cancelRequested || CancelBefore(run, k))
    ensures Leads(PROTOCOL, Next(b, run[k]), end)
  {
    SessionsEndOnce();
    k, b := RunEnds(PROTOCOL, Inv, IsDone, IsRequested, Finishes, Cancels, s, run);
    assert forall j :: 0 <= j < |run| ==> (run[j].Finish? <==> Finishes(run[j]));
    CancelBeforeIs(run, k);
  }

  /**
   Every run that ends a session has one final section, and ends as that says: cancelled if a cancel
   came before, else failed after a panic or the deadline, else completed; with the runner's
   report, which is never complete past the deadline.
   */
  lemma EndsAs(id: string, run: seq<Step>) returns (k: nat)
    requires Valid(PROTOCOL, NewSession(id), run) && After(PROTOCOL, NewSession(id), run).done
    ensures k < |run| && run[k].Finish? && forall j :: 0 <= j < |run| && j != k ==> !run[j].Finish?
    ensures EndedBy(After(PROTOCOL, NewSession(id), run), CancelBefore(run, k), run[k].report, run[k].panicked, run[k].deadlineExceeded)
  {
    NewSessionInv(id);
    k := EndsAsFrom(NewSession(id), run, After(PROTOCOL, NewSession(id), run));
  }

  lemma EndsAsFrom(s: Session, run: seq<Step>, end: Session) returns (k: nat)
    requires Inv(s) && !s.done && !s.cancelRequested && Valid(PROTOCOL, s, run) && end == After(PROTOCOL, s, run) && end.done
    ensures k < |run| && run[k].Finish? && forall j :: 0 <= j < |run| && j != k ==> !run[j].Finish?
    ensures EndedBy(end, CancelBefore(run, k), run[k].report, run[k].panicked, run[k].deadlineExceeded)
  {
    var b := s;
    k, b := EndsFrom(s, run, end);
    FinishLeads(b, run[k], end);
  }

  lemma FinishLeads(b: Session, step: Step, end: Session)
    requires Inv(b) && !b.done && step.Finish? && Leads(PROTOCOL, Next(b, step), end)
    ensures EndedBy(end, b.cancelRequested, step.report, step.panicked, step.deadlineExceeded)
  {
    FinishEnds(b, end, step.report, step.panicked, step.deadlineExceeded);
  }

  /** From position n on, the history tells the findings in order. */
  ghost predicate TellsFindings(history: seq<Event>, n: nat, findings: seq<string>) {
    forall i :: 0 <= i < |findings| ==> TellsFinding(history, n + i, findings[i])
  }

  predicate TellsFinding(history: seq<Event>, k: nat, finding: string) {
    k < |history| && history[k].kind.FindingUpdated? && history[k].body == finding
  }

  lemma TellsOneMore(history: seq<Event>, n: nat, findings: seq<string>, finding: string, event: Event)
    requires TellsFindings(history, n, findings) && |history| == n + |findings|
    requires event.kind.FindingUpdated? && event.body == finding
    ensures TellsFindings(history + [event], n, findings + [finding])
  {
    var h, f := history + [event], findings + [finding];
    forall i | 0 <= i < |f| ensures TellsFinding(h, n + i, f[i]) {
      if i < |findings| {
        assert TellsFinding(history, n + i, findings[i]);
      }
    }
  }

  lemma {:induction false} FindingsAreTold(s: Session, findings: seq<string>)
    ensures var t := EmittedFindings(s, findings);
            |t.history| == |s.history| + |findings| && s.history <= t.history && TellsFindings(t.history, |s.history|, findings)
  {
    if findings != [] {
      var front, last := findings[..|findings| - 1], findings[|findings| - 1];
      var shorter := EmittedFindings(s, front);
      FindingsAreTold(s, front);
      TellsOneMore(shorter.history, |s.history|, front, last, Stamp(shorter, FindingEvent(last)));
      assert findings == front + [last];
    }
  }

  /** The final section tells the findings in order, and then how the session ended. */
  lemma ClosingEvents(s: Session, report: Report, panicked: bool, deadlineExceeded: bool)
    ensures var t, n := Finished(s, report, panicked, deadlineExceeded), |s.history|;
            && |t.history| == n + |report.findings| + 1 && s.history <= t.history
            && TellsFindings(t.history, n, report.findings)
            && t.history[n + |report.findings|].kind == if s.cancelRequested then DiagnosisCancelled else DiagnosisCompleted
  {
    var decided := Decided(s, report, panicked, deadlineExceeded);
    var told := EmittedFindings(decided, report.findings);
    FindingsAreTold(decided, report.findings);
    var t := Finished(s, report, panicked, deadlineExceeded);
    assert t.history == told.history + [Stamp(told, LastEvent(decided.state))];
  }
}
