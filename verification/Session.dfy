/**
 One diagnostic session (internal/session/session.go): its bounded event log, its subscribers and
 its lifecycle.  `ManagedSession` holds the fields that the session's mutex guards; each of its
 methods is one critical section and computes a function on the value `Session`.  `Session`
 additionally remembers every event ever emitted and, per channel, what its reader has taken.
 */
module Sessions {
  import opened Options

  const MAX_EVENT_HISTORY: nat := 4096
  const SUBSCRIBER_BUFFER: nat := 256

  datatype State = Running | Cancelling | Completed | Cancelled | Failed

  predicate Terminal(s: State) {
    s.Completed? || s.Cancelled? || s.Failed?
  }

  datatype EventType =
    | DiagnosisStarted | ProbeStarted | ProbeCompleted | ResultUpdated
    | FindingUpdated | DiagnosisCompleted | DiagnosisCancelled

  datatype Event = Event(kind: EventType, sequence: nat, sessionId: string, body: string)

  datatype ReportStatus = ReportComplete | ReportIncomplete | ReportError | ReportUnknown

  datatype Report = Report(status: ReportStatus, findings: seq<string>)

  type ChannelId = nat

  /**
   A subscriber's channel.  `buffer` is what the channel holds, `received` what its reader has
   taken; `after`, `joined` and `oldest` record the subscription: the requested position, the last
   sequence number at that moment and the number of events already evicted then.
   */
  datatype Channel = Channel(capacity: nat, buffer: seq<Event>, received: seq<Event>, closed: bool,
                             after: nat, joined: nat, oldest: nat)
  {
    function Stream(): seq<Event> { received + buffer }

    predicate HasRoom() { |buffer| < capacity }

    /** The number of history events that precede this subscriber's stream. */
    function First(): nat { From(after, oldest, joined) }
  }

  /** `after`, brought into the range lo..hi. */
  function From(after: nat, lo: nat, hi: nat): nat {
    if after < lo then lo else if after < hi then after else hi
  }

  datatype Session = Session(id: string, state: State, cancelRequested: bool, report: Option<Report>, done: bool,
                             events: seq<Event>, nextSequence: nat,
                             channels: map<ChannelId, Channel>, subscribers: set<ChannelId>,
                             history: seq<Event>)

  function NewSession(id: string): Session {
    Session(id, Running, false, None, false, [], 0, map[], {}, [])
  }

  // ---- what each critical section computes ----

  function Stamp(s: Session, event: Event): Event {
    event.(sequence := s.nextSequence + 1, sessionId := s.id)
  }

  /** Appends, evicting the oldest entry of a full log. */
  function Remember(events: seq<Event>, event: Event): seq<Event> {
    if |events| == MAX_EVENT_HISTORY then events[1..] + [event] else events + [event]
  }

  /** The non-blocking send: a channel without room is closed instead. */
  function Offer(c: Channel, event: Event): Channel {
    if c.HasRoom() then c.(buffer := c.buffer + [event]) else c.(closed := true)
  }

  function OfferedTo(channels: map<ChannelId, Channel>, to: set<ChannelId>, event: Event): map<ChannelId, Channel> {
    map c | c in channels :: if c in to then Offer(channels[c], event) else channels[c]
  }

  function Accepting(channels: map<ChannelId, Channel>, to: set<ChannelId>): set<ChannelId> {
    set c | c in to && c in channels && channels[c].HasRoom()
  }

  function Emitted(s: Session, event: Event): Session {
    var stamped := Stamp(s, event);
    s.(nextSequence := s.nextSequence + 1,
       events := Remember(s.events, stamped),
       history := s.history + [stamped],
       channels := OfferedTo(s.channels, s.subscribers, stamped),
       subscribers := Accepting(s.channels, s.subscribers))
  }

  /** The retained events with a sequence number greater than `after`. */
  function Newer(events: seq<Event>, after: nat): seq<Event> {
    if events == [] then []
    else
      var last := events[|events| - 1];
      var front := Newer(events[..|events| - 1], after);
      if last.sequence > after then front + [last] else front
  }

  function Subscribed(s: Session, c: ChannelId, after: nat): Session {
    var evicted := if |s.events| <= s.nextSequence then s.nextSequence - |s.events| else 0;
    var size := if |s.events| + 1 > SUBSCRIBER_BUFFER then |s.events| + 1 else SUBSCRIBER_BUFFER;
    var channel := Channel(size, Newer(s.events, after), [], Terminal(s.state),
                           after, s.nextSequence, evicted);
    s.(channels := s.channels[c := channel],
       subscribers := if Terminal(s.state) then s.subscribers else s.subscribers + {c})
  }

  function Unsubscribed(s: Session, c: ChannelId): Session {
    if c !in s.subscribers || c !in s.channels then s
    else s.(subscribers := s.subscribers - {c}, channels := s.channels[c := s.channels[c].(closed := true)])
  }

  function CancelRequested(s: Session): Session {
    if Terminal(s.state) then s
    else s.(cancelRequested := true, state := if s.state.Running? then Cancelling else s.state)
  }

  /** The reader takes the oldest buffered event. */
  function Taken(s: Session, c: ChannelId): Session {
    if c !in s.channels || s.channels[c].buffer == [] then s
    else
      var ch := s.channels[c];
      s.(channels := s.channels[c := ch.(buffer := ch.buffer[1..], received := ch.received + [ch.buffer[0]])])
  }

  /** A report that came back after the overall budget cannot claim completeness. */
  function Judged(report: Report, deadlineExceeded: bool): Report {
    if deadlineExceeded && report.status.ReportComplete? then report.(status := ReportIncomplete) else report
  }

  function Decided(s: Session, report: Report, panicked: bool, deadlineExceeded: bool): Session {
    s.(report := Some(Judged(report, deadlineExceeded)),
       state := if s.cancelRequested then Cancelled
                else if panicked || deadlineExceeded then Failed else Completed)
  }

  function FindingEvent(finding: string): Event {
    Event(FindingUpdated, 0, "", finding)
  }

  function LastEvent(state: State): Event {
    Event(if state.Cancelled? then DiagnosisCancelled else DiagnosisCompleted, 0, "", "")
  }

  function EmittedFindings(s: Session, findings: seq<string>): Session {
    if findings == [] then s
    else Emitted(EmittedFindings(s, findings[..|findings| - 1]), FindingEvent(findings[|findings| - 1]))
  }

  function ClosedTo(channels: map<ChannelId, Channel>, to: set<ChannelId>): map<ChannelId, Channel> {
    map c | c in channels :: if c in to then channels[c].(closed := true) else channels[c]
  }

  function AllClosed(s: Session): Session {
    s.(channels := ClosedTo(s.channels, s.subscribers), subscribers := {}, done := true)
  }

  function Finished(s: Session, report: Report, panicked: bool, deadlineExceeded: bool): Session {
    var decided := Decided(s, report, panicked, deadlineExceeded);
    AllClosed(Emitted(EmittedFindings(decided, report.findings), LastEvent(decided.state)))
  }

  // ---- invariants ----

  /** The log is the last min(n, 4096) of the n events ever emitted, numbered 1 to n. */
  ghost predicate LogInv(s: Session) {
    && s.nextSequence == |s.history|
    && (forall i :: 0 <= i < |s.history| ==> s.history[i].sequence == i + 1 && s.history[i].sessionId == s.id)
    && |s.events| == (if |s.history| < MAX_EVENT_HISTORY then |s.history| else MAX_EVENT_HISTORY)
    && s.events == s.history[|s.history| - |s.events|..]
  }

  /**
   A stream is one contiguous run of the history, from its start point; it reaches the newest
   event exactly as long as the channel is subscribed, that is, open.
   */
  ghost predicate ChannelInv(history: seq<Event>, ch: Channel, subscribed: bool) {
    && ch.oldest <= ch.joined <= |history|
    && |ch.buffer| <= ch.capacity
    && ch.joined <= ch.First() + |ch.received| + |ch.buffer| <= |history|
    && (forall i :: 0 <= i < |ch.received| ==> ch.received[i] == history[ch.First() + i])
    && (forall i :: 0 <= i < |ch.buffer| ==> ch.buffer[i] == history[ch.First() + |ch.received| + i])
    && (subscribed <==> !ch.closed)
    && (subscribed ==> ch.First() + |ch.received| + |ch.buffer| == |history|)
  }

  ghost predicate Streams(history: seq<Event>, channels: map<ChannelId, Channel>, subscribers: set<ChannelId>) {
    forall c :: c in channels ==> ChannelInv(history, channels[c], c in subscribers)
  }

  ghost predicate StreamsInv(s: Session) {
    && LogInv(s)
    && s.subscribers <= s.channels.Keys
    && Streams(s.history, s.channels, s.subscribers)
  }

  ghost predicate LifecycleInv(s: Session) {
    && (s.done <==> Terminal(s.state))
    && (s.done <==> s.report.Some?)
    && (s.done ==> s.subscribers == {})
    && (s.state.Running? ==> !s.cancelRequested)
    && (s.state.Cancelling? ==> s.cancelRequested)
    && (s.done ==> (s.state.Cancelled? <==> s.cancelRequested))
  }

  ghost predicate Inv(s: Session) {
    StreamsInv(s) && LifecycleInv(s)
  }

  lemma OpenSubscribers(s: Session)
    requires StreamsInv(s)
    ensures s.subscribers <= s.channels.Keys
    ensures forall c :: c in s.subscribers ==> !s.channels[c].closed
  {
  }

  /** One channel is set, and the others stay. */
  lemma StreamsUpdate(history: seq<Event>, channels: map<ChannelId, Channel>, subscribers: set<ChannelId>,
                      c: ChannelId, ch: Channel, among: set<ChannelId>)
    requires Streams(history, channels, subscribers) && ChannelInv(history, ch, c in among)
    requires forall d :: d != c ==> (d in among <==> d in subscribers)
    ensures Streams(history, channels[c := ch], among)
  {
    var updated := channels[c := ch];
    forall d | d in updated ensures ChannelInv(history, updated[d], d in among) {
      if d != c {
        assert updated[d] == channels[d] && (d in among) == (d in subscribers);
        assert ChannelInv(history, channels[d], d in subscribers);
      }
    }
  }

  lemma ChannelSetKeepsStreams(s: Session, c: ChannelId, ch: Channel, among: set<ChannelId>)
    requires StreamsInv(s) && ChannelInv(s.history, ch, c in among) && among <= s.channels.Keys + {c}
    requires forall d :: d != c ==> (d in among <==> d in s.subscribers)
    ensures StreamsInv(s.(channels := s.channels[c := ch], subscribers := among))
  {
    StreamsUpdate(s.history, s.channels, s.subscribers, c, ch, among);
  }

  lemma OfferKeepsChannel(history: seq<Event>, ch: Channel, event: Event)
    requires ChannelInv(history, ch, true)
    ensures ChannelInv(history + [event], Offer(ch, event), ch.HasRoom())
  {
  }

  /** Remembering one more event keeps the log a window of the history. */
  lemma RememberKeepsWindow(history: seq<Event>, events: seq<Event>, event: Event)
    requires |events| == (if |history| < MAX_EVENT_HISTORY then |history| else MAX_EVENT_HISTORY)
    requires events == history[|history| - |events|..]
    ensures var t, all := Remember(events, event), history + [event];
            && |t| == (if |all| < MAX_EVENT_HISTORY then |all| else MAX_EVENT_HISTORY)
            && t == all[|all| - |t|..]
  {
    var k := |history| - |events|;
    AppendToTail(history, k, event);
    if |events| == MAX_EVENT_HISTORY {
      AppendToTail(history, k + 1, event);
      assert events[1..] == history[k + 1..];
    }
  }

  lemma AppendToTail<T>(s: seq<T>, k: nat, x: T)
    requires k <= |s|
    ensures (s + [x])[k..] == s[k..] + [x]
  {
  }

  lemma EmittedKeepsLog(s: Session, event: Event)
    requires LogInv(s) && s.subscribers <= s.channels.Keys
    ensures LogInv(Emitted(s, event))
  {
    RememberKeepsWindow(s.history, s.events, Stamp(s, event));
  }

  lemma OfferedKeepChannels(history: seq<Event>, channels: map<ChannelId, Channel>, to: set<ChannelId>, event: Event)
    requires Streams(history, channels, to)
    ensures Streams(history + [event], OfferedTo(channels, to, event), Accepting(channels, to))
  {
    forall c | c in channels
      ensures ChannelInv(history + [event], OfferedTo(channels, to, event)[c], c in Accepting(channels, to))
    {
      if c in to {
        OfferKeepsChannel(history, channels[c], event);
      }
    }
  }

  lemma EmittedKeepsStreams(s: Session, event: Event)
    requires StreamsInv(s)
    ensures StreamsInv(Emitted(s, event))
  {
    EmittedKeepsLog(s, event);
    OfferedKeepChannels(s.history, s.channels, s.subscribers, Stamp(s, event));
  }

  lemma {:induction false} FindingsKeepStreams(s: Session, findings: seq<string>)
    requires StreamsInv(s)
    ensures StreamsInv(EmittedFindings(s, findings))
    ensures EmittedFindings(s, findings) ==
            s.(nextSequence := EmittedFindings(s, findings).nextSequence,
               events := EmittedFindings(s, findings).events,
               history := EmittedFindings(s, findings).history,
               channels := EmittedFindings(s, findings).channels,
               subscribers := EmittedFindings(s, findings).subscribers)
  {
    if findings != [] {
      var shorter := EmittedFindings(s, findings[..|findings| - 1]);
      FindingsKeepStreams(s, findings[..|findings| - 1]);
      EmittedKeepsStreams(shorter, FindingEvent(findings[|findings| - 1]));
    }
  }

  lemma TailExtends<T>(s: seq<T>, k: nat)
    requires k < |s|
    ensures s[k..] == s[..|s| - 1][k..] + [s[|s| - 1]]
  {
  }

  /** Of consecutively numbered events, those newer than `after` are a suffix. */
  lemma {:induction false} NewerIsSuffix(events: seq<Event>, lo: nat, after: nat)
    requires forall i :: 0 <= i < |events| ==> events[i].sequence == lo + i + 1
    ensures Newer(events, after) == events[From(after, lo, lo + |events|) - lo..]
  {
    if events != [] {
      var n := |events| - 1;
      NewerIsSuffix(events[..n], lo, after);
      if after <= lo + n {
        TailExtends(events, From(after, lo, lo + n) - lo);
      }
    }
  }

  lemma RetainedNumbers(s: Session)
    requires LogInv(s)
    ensures forall i :: 0 <= i < |s.events| ==> s.events[i].sequence == |s.history| - |s.events| + i + 1
  {
  }

  lemma TailOfTail<T>(s: seq<T>, i: nat, j: nat)
    requires i <= j <= |s|
    ensures s[i..][j - i..] == s[j..]
  {
  }

  /** What a log that holds all events newer than `after`, as far as they are retained, gives out. */
  ghost function RetainedAfter(s: Session, after: nat): seq<Event>
    requires LogInv(s)
  {
    s.history[From(after, |s.history| - |s.events|, |s.history|)..]
  }

  lemma ReplayIsSuffix(s: Session, after: nat)
    requires LogInv(s)
    ensures Newer(s.events, after) == RetainedAfter(s, after)
  {
    var lo := |s.history| - |s.events|;
    RetainedNumbers(s);
    NewerIsSuffix(s.events, lo, after);
    TailOfTail(s.history, lo, From(after, lo, |s.history|));
  }

  /** The replay is no longer than the log. */
  lemma {:induction false} ReplayFits(events: seq<Event>, after: nat)
    ensures |Newer(events, after)| <= |events|
  {
    if events != [] {
      ReplayFits(events[..|events| - 1], after);
    }
  }

  lemma NewChannelInv(history: seq<Event>, replay: seq<Event>, capacity: nat, closed: bool, after: nat, oldest: nat)
    requires oldest <= |history| && replay == history[From(after, oldest, |history|)..] && |replay| <= capacity
    ensures ChannelInv(history, Channel(capacity, replay, [], closed, after, |history|, oldest), !closed)
  {
  }

  lemma SubscribedKeepsStreams(s: Session, c: ChannelId, after: nat)
    requires StreamsInv(s) && c !in s.channels
    ensures StreamsInv(Subscribed(s, c, after))
  {
    ReplayIsSuffix(s, after);
    ReplayFits(s.events, after);
    var t := Subscribed(s, c, after);
    var ch := t.channels[c];
    NewChannelInv(s.history, ch.buffer, ch.capacity, ch.closed, after, ch.oldest);
    ChannelSetKeepsStreams(s, c, ch, t.subscribers);
  }

  lemma SubscribedKeepsInv(s: Session, c: ChannelId, after: nat)
    requires Inv(s) && c !in s.channels
    ensures Inv(Subscribed(s, c, after))
  {
    SubscribedKeepsStreams(s, c, after);
  }

  lemma ClosedKeepsChannel(history: seq<Event>, ch: Channel)
    requires ChannelInv(history, ch, true)
    ensures ChannelInv(history, ch.(closed := true), false)
  {
  }

  lemma UnsubscribedKeepsStreams(s: Session, c: ChannelId)
    requires StreamsInv(s)
    ensures StreamsInv(Unsubscribed(s, c))
  {
    if c in s.subscribers {
      ClosedKeepsChannel(s.history, s.channels[c]);
      ChannelSetKeepsStreams(s, c, s.channels[c].(closed := true), s.subscribers - {c});
    }
  }

  lemma AllClosedKeepsStreams(s: Session)
    requires StreamsInv(s)
    ensures StreamsInv(AllClosed(s))
  {
    var t := AllClosed(s);
    forall c | c in t.channels ensures ChannelInv(t.history, t.channels[c], c in t.subscribers) {
      if c in s.subscribers {
        ClosedKeepsChannel(s.history, s.channels[c]);
      }
    }
  }

  lemma DecidedKeepsStreams(s: Session, report: Report, panicked: bool, deadlineExceeded: bool)
    requires StreamsInv(s)
    ensures StreamsInv(Decided(s, report, panicked, deadlineExceeded))
  {
  }

  lemma FinishedKeepsStreams(s: Session, report: Report, panicked: bool, deadlineExceeded: bool)
    requires StreamsInv(s)
    ensures StreamsInv(Finished(s, report, panicked, deadlineExceeded))
  {
    var decided := Decided(s, report, panicked, deadlineExceeded);
    DecidedKeepsStreams(s, report, panicked, deadlineExceeded);
    FindingsKeepStreams(decided, report.findings);
    var emitted := EmittedFindings(decided, report.findings);
    EmittedKeepsStreams(emitted, LastEvent(decided.state));
    AllClosedKeepsStreams(Emitted(emitted, LastEvent(decided.state)));
  }

  lemma FinishedKeepsInv(s: Session, report: Report, panicked: bool, deadlineExceeded: bool)
    requires Inv(s) && !s.done
    ensures Inv(Finished(s, report, panicked, deadlineExceeded))
  {
    FinishedKeepsStreams(s, report, panicked, deadlineExceeded);
    FindingsKeepStreams(Decided(s, report, panicked, deadlineExceeded), report.findings);
  }

  lemma TakenKeepsChannel(history: seq<Event>, ch: Channel, subscribed: bool)
    requires ChannelInv(history, ch, subscribed) && ch.buffer != []
    ensures ChannelInv(history, ch.(buffer := ch.buffer[1..], received := ch.received + [ch.buffer[0]]), subscribed)
  {
  }

  lemma TakenKeepsStreams(s: Session, c: ChannelId)
    requires StreamsInv(s) && c in s.channels && s.channels[c].buffer != []
    ensures StreamsInv(Taken(s, c))
  {
    var ch := s.channels[c];
    TakenKeepsChannel(s.history, ch, c in s.subscribers);
    ChannelSetKeepsStreams(s, c, ch.(buffer := ch.buffer[1..], received := ch.received + [ch.buffer[0]]), s.subscribers);
  }

  // ---- the object ----

  class ManagedSession {
    const id: string
    var state: State
    var cancelRequested: bool
    var report: Option<Report>
    var done: bool  // the done channel is closed
    var events: seq<Event>
    var nextSequence: nat
    var channels: map<ChannelId, Channel>  // every channel ever handed out
    var subscribers: set<ChannelId>
    ghost var history: seq<Event>

    ghost function Abs(): Session
      reads this
    {
      Session(id, state, cancelRequested, report, done, events, nextSequence, channels, subscribers, history)
    }

    constructor (id: string)
      ensures Abs() == NewSession(id)
    {
      this.id := id;
      state, cancelRequested, report, done := Running, false, None, false;
      events, nextSequence, channels, subscribers := [], 0, map[], {};
      history := [];
    }

    /** A send to a channel; sending to a closed channel panics and to a full one blocks. */
    method Send(c: ChannelId, event: Event)
      requires c in channels && !channels[c].closed && channels[c].HasRoom()
      modifies this`channels
      ensures channels == old(channels)[c := old(channels)[c].(buffer := old(channels)[c].buffer + [event])]
    {
      channels := channels[c := channels[c].(buffer := channels[c].buffer + [event])];
    }

    /** Closing a channel; closing a closed channel panics. */
    method Close(c: ChannelId)
      requires c in channels && !channels[c].closed
      modifies this`channels
      ensures channels == old(channels)[c := old(channels)[c].(closed := true)]
    {
      channels := channels[c := channels[c].(closed := true)];
    }

    /** The loop over the subscribers: send to the ones with room, drop the others. */
    method Broadcast(stamped: Event)
      requires subscribers <= channels.Keys
      requires forall c :: c in subscribers ==> !channels[c].closed
      modifies this`channels, this`subscribers
      ensures channels == OfferedTo(old(channels), old(subscribers), stamped)
      ensures subscribers == Accepting(old(channels), old(subscribers))
    {
      ghost var before, all := channels, subscribers;
      var todo := subscribers;
      while todo != {}
        invariant todo <= all
        invariant channels == OfferedTo(before, all - todo, stamped)
        invariant subscribers == todo + Accepting(before, all - todo)
        decreases todo
      {
        var c :| c in todo;
        todo := todo - {c};
        assert all - todo == (all - (todo + {c})) + {c};
        assert channels[c] == before[c];
        if channels[c].HasRoom() {
          Send(c, stamped);
        } else {
          subscribers := subscribers - {c};
          Close(c);
        }
      }
      assert all - todo == all;
    }

    /** The bounded log: a full slice is shifted down in place and its last entry overwritten. */
    method Retain(stamped: Event)
      modifies this`events, this`history
      ensures events == Remember(old(events), stamped)
      ensures history == old(history) + [stamped]
    {
      if |events| == MAX_EVENT_HISTORY {
        events := events[1..] + events[|events| - 1..];
        events := events[|events| - 1 := stamped];
      } else {
        events := events + [stamped];
      }
      history := history + [stamped];
    }

    method EmitLocked(event: Event)
      requires subscribers <= channels.Keys
      requires forall c :: c in subscribers ==> !channels[c].closed
      modifies this
      ensures Abs() == Emitted(old(Abs()), event)
    {
      nextSequence := nextSequence + 1;
      var stamped := event.(sequence := nextSequence, sessionId := id);
      Retain(stamped);
      Broadcast(stamped);
    }

    method Emit(event: Event)
      requires Inv(Abs())
      modifies this
      ensures Abs() == Emitted(old(Abs()), event)
      ensures Inv(Abs())
    {
      OpenSubscribers(Abs());
      EmittedKeepsStreams(Abs(), event);
      EmitLocked(event);
    }

    method Cancel()
      requires Inv(Abs())
      modifies this
      ensures Abs() == CancelRequested(old(Abs()))
      ensures Inv(Abs())
    {
      if !Terminal(state) {
        cancelRequested := true;
        if state.Running? {
          state := Cancelling;
        }
      }
    }

    method EventsAfter(after: nat) returns (result: seq<Event>)
      requires Inv(Abs())
      ensures result == Newer(events, after)
      ensures result == RetainedAfter(Abs(), after)
    {
      result := [];
      for i := 0 to |events|
        invariant result == Newer(events[..i], after)
      {
        assert events[..i + 1][..i] == events[..i];
        if events[i].sequence > after {
          result := result + [events[i]];
        }
      }
      assert events[..|events|] == events;
      ReplayIsSuffix(Abs(), after);
    }

    /** The replay loop: every send finds room, so it does not block while the lock is held. */
    method Replay(c: ChannelId, after: nat)
      requires c in channels && channels[c].buffer == [] && !channels[c].closed && |events| < channels[c].capacity
      modifies this`channels
      ensures channels == old(channels)[c := old(channels)[c].(buffer := Newer(events, after))]
    {
      ghost var before := channels;
      for i := 0 to |events|
        invariant channels == before[c := before[c].(buffer := Newer(events[..i], after))]
        invariant |Newer(events[..i], after)| <= i
      {
        assert events[..i + 1][..i] == events[..i];
        assert channels[c].buffer == Newer(events[..i], after);
        if events[i].sequence > after {
          Send(c, events[i]);
        }
        assert channels[c].buffer == Newer(events[..i + 1], after);
      }
      assert events[..|events|] == events;
    }

    /** A new channel with room for the whole log and one more event. */
    method Open(c: ChannelId, after: nat)
      requires |events| <= nextSequence
      modifies this`channels
      ensures var size := if |events| + 1 > SUBSCRIBER_BUFFER then |events| + 1 else SUBSCRIBER_BUFFER;
              channels == old(channels)[c := Channel(size, [], [], false, after, nextSequence, nextSequence - |events|)]
    {
      var bufferSize := SUBSCRIBER_BUFFER;
      if |events| + 1 > bufferSize {
        bufferSize := |events| + 1;
      }
      channels := channels[c := Channel(bufferSize, [], [], false, after, nextSequence, nextSequence - |events|)];
    }

    method Attach(c: ChannelId, after: nat)
      requires c !in channels && |events| <= nextSequence
      modifies this`channels, this`subscribers
      ensures Abs() == Subscribed(old(Abs()), c, after)
    {
      Open(c, after);
      Replay(c, after);
      if Terminal(state) {
        Close(c);
      } else {
        subscribers := subscribers + {c};
      }
    }

    method Subscribe(c: ChannelId, after: nat)
      requires Inv(Abs()) && c !in channels
      modifies this
      ensures Abs() == Subscribed(old(Abs()), c, after)
      ensures Inv(Abs())
    {
      SubscribedKeepsInv(Abs(), c, after);
      Attach(c, after);
    }

    method Unsubscribe(c: ChannelId)
      requires Inv(Abs())
      modifies this
      ensures Abs() == Unsubscribed(old(Abs()), c)
      ensures Inv(Abs())
    {
      if c in subscribers {
        subscribers := subscribers - {c};
        Close(c);
        UnsubscribedKeepsStreams(old(Abs()), c);
      }
    }

    method EmitFindings(findings: seq<string>)
      requires StreamsInv(Abs())
      modifies this
      ensures Abs() == EmittedFindings(old(Abs()), findings)
      ensures StreamsInv(Abs())
    {
      for i := 0 to |findings|
        invariant Abs() == EmittedFindings(old(Abs()), findings[..i])
        invariant StreamsInv(Abs())
      {
        assert findings[..i + 1][..i] == findings[..i];
        OpenSubscribers(Abs());
        EmittedKeepsStreams(Abs(), FindingEvent(findings[i]));
        EmitLocked(FindingEvent(findings[i]));
      }
      assert findings[..|findings|] == findings;
    }

    method CloseSubscribers()
      requires subscribers <= channels.Keys
      requires forall c :: c in subscribers ==> !channels[c].closed
      modifies this`channels, this`subscribers
      ensures channels == ClosedTo(old(channels), old(subscribers)) && subscribers == {}
    {
      ghost var before, all := channels, subscribers;
      while subscribers != {}
        invariant subscribers <= all
        invariant channels == ClosedTo(before, all - subscribers)
        decreases subscribers
      {
        var c :| c in subscribers;
        subscribers := subscribers - {c};
        assert all - subscribers == (all - (subscribers + {c})) + {c};
        Close(c);
      }
      assert all - subscribers == all;
    }

    method Decide(result: Report, panicked: bool, deadlineExceeded: bool)
      modifies this`report, this`state
      ensures Abs() == Decided(old(Abs()), result, panicked, deadlineExceeded)
    {
      var final := result;
      if deadlineExceeded && final.status.ReportComplete? {
        final := final.(status := ReportIncomplete);
      }
      report := Some(final);
      if cancelRequested {
        state := Cancelled;
      } else if panicked || deadlineExceeded {
        state := Failed;
      } else {
        state := Completed;
      }
    }

    /** The findings and the last event. */
    method EmitEnd(findings: seq<string>)
      requires StreamsInv(Abs())
      modifies this
      ensures Abs() == Emitted(EmittedFindings(old(Abs()), findings), LastEvent(old(state)))
      ensures StreamsInv(Abs())
    {
      FindingsKeepStreams(Abs(), findings);
      EmitFindings(findings);
      OpenSubscribers(Abs());
      EmittedKeepsStreams(Abs(), LastEvent(state));
      EmitLocked(LastEvent(state));
    }

    method EndLocked()
      requires StreamsInv(Abs())
      modifies this
      ensures Abs() == AllClosed(old(Abs()))
    {
      OpenSubscribers(Abs());
      CloseSubscribers();
      done := true;
    }

    method FinishLocked(result: Report, panicked: bool, deadlineExceeded: bool)
      requires StreamsInv(Abs())
      modifies this
      ensures Abs() == Finished(old(Abs()), result, panicked, deadlineExceeded)
    {
      DecidedKeepsStreams(Abs(), result, panicked, deadlineExceeded);
      Decide(result, panicked, deadlineExceeded);
      EmitEnd(result.findings);
      EndLocked();
    }

    /** The last critical section of `execute`. */
    method Finish(result: Report, panicked: bool, deadlineExceeded: bool)
      requires Inv(Abs()) && !done
      modifies this
      ensures Abs() == Finished(old(Abs()), result, panicked, deadlineExceeded)
      ensures Inv(Abs())
    {
      FinishedKeepsInv(Abs(), result, panicked, deadlineExceeded);
      FinishLocked(result, panicked, deadlineExceeded);
    }
  }
}
