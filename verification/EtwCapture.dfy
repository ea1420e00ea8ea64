/**
 The bounded event consumer of one capture (internal/packet/etw_windows.go:180-224, 254-363, 599-625).
 `Bounded` is one event with both tables capped, `Unbounded` the same without caps; a capture
 reported as complete has seen exactly what the unbounded consumer sees.
 */
module EtwCaptures {
  import opened Decimal
  import opened EtwReaders
  import opened Options
  import opened Packets

  const MAX_OBSERVATIONS: nat := 256
  const MAX_FLOWS: nat := 256

  datatype Flow = Flow(localAddress: string, localPort: nat, remoteAddress: string, remotePort: nat,
                       processId: nat, connectionId: string)

  datatype Record = Record(tcpip: bool, eventId: nat, header32: bool, processId: nat, timestamp: int, payload: seq<Byte>)

  /**
   The scope of the capture: the probe's identity, its process, the requested port, and the
   requested identity where it is an address.  What comes from other packages: `ip6` and `hex`
   print, `address` is the canonical spelling, `equalFold` compares without case, `timestamp` is
   `etwTimestamp`.
   */
  datatype Scope = Scope(sessionId: string, probeId: string, correlationId: string, processId: nat,
                         literal: Option<string>, port: nat, equalFold: (string, string) -> bool,
                         ip6: seq<Byte> -> string, hex: nat -> string, address: string -> string, timestamp: int -> Time)

  datatype Consumer = Consumer(observations: seq<Observation>, flows: map<nat, Flow>, eventsLost: nat, parseErrors: nat)

  const EMPTY_CONSUMER: Consumer := Consumer([], map[], 0, 0)

  // ---- one event ----

  function TcpObservation(f: Flow, kind: Kind, direction: Direction, at: Time): Observation {
    var o := BLANK.(kind := kind, protocol := Tcp, direction := direction, localAddress := f.localAddress, localPort := f.localPort,
                    processId := f.processId, connectionId := f.connectionId, observedAt := at);
    if direction.Inbound? then
      o.(sourceAddress := f.remoteAddress, sourcePort := f.remotePort, destinationAddress := f.localAddress, destinationPort := f.localPort)
    else
      o.(sourceAddress := f.localAddress, sourcePort := f.localPort, destinationAddress := f.remoteAddress, destinationPort := f.remotePort)
  }

  /** `etwTargetCandidate`: a hostname is compared by process and port only. */
  predicate Candidate(scope: Scope, o: Observation) {
    match scope.literal
    case Some(expected) => scope.equalFold(o.sourceAddress, expected) || scope.equalFold(o.destinationAddress, expected)
    case None =>
      o.protocol.Tcp? && o.processId == scope.processId && scope.port != 0 && (o.sourcePort == scope.port || o.destinationPort == scope.port)
  }

  predicate FlowInScope(scope: Scope, f: Flow) {
    (scope.processId == 0 || f.processId == 0 || f.processId == scope.processId)
    && Candidate(scope, TcpObservation(f, OutboundSyn, Outbound, Zero))
  }

  function FlowOf(scope: Scope, local: seq<Byte>, remote: seq<Byte>, processId: nat, connectionId: string): Option<Flow> {
    var (localAddress, localPort) := SocketAddress(scope.ip6, local);
    var (remoteAddress, remotePort) := SocketAddress(scope.ip6, remote);
    if localAddress == "" || remoteAddress == "" then None
    else Some(Flow(localAddress, localPort, remoteAddress, remotePort, processId, connectionId))
  }

  function TcbName(scope: Scope, tcb: nat): string {
    "tcb-" + scope.hex(tcb)
  }

  function IcmpKind(e: IcmpEvent): Kind {
    if (e.direction == 0 && (e.icmpType == 8 || e.icmpType == 128)) || (e.direction == 1 && (e.icmpType == 0 || e.icmpType == 129)) then
      if e.direction == 0 then OutboundEcho else InboundEcho
    else if (e.transport == 1 && e.icmpType == 11) || (e.transport == 58 && e.icmpType == 3) then TimeExceeded
    else if (e.transport == 1 && e.icmpType == 3) || (e.transport == 58 && e.icmpType == 1) then Unreachable
    else NoKind
  }

  /** What a record means, given the flows known so far. */
  datatype Meaning =
    | Undecodable
    | Nothing
    | Remember(tcb: nat, flow: Flow, seen: Option<Observation>)
    | Saw(observation: Observation)

  function MeaningOfRequest(scope: Scope, r: Record): Meaning {
    match TcpRequestOf(r.payload, r.header32)
    case None => Undecodable
    case Some(request) =>
      match FlowOf(scope, request.local, request.remote, r.processId, TcbName(scope, request.tcb))
      case None => Undecodable
      case Some(flow) =>
        if !FlowInScope(scope, flow) then Nothing
        else Remember(request.tcb, flow,
                      if r.eventId == 1183 || r.eventId == 1184 then Some(TcpObservation(flow, TcpRst, Inbound, scope.timestamp(r.timestamp)))
                      else None)
  }

  function MeaningOfSend(scope: Scope, flows: map<nat, Flow>, r: Record): Meaning {
    match Uint(r.payload, Width(r.header32))
    case None => Undecodable
    case Some((tcb, _)) =>
      if tcb !in flows then Nothing
      else Saw(TcpObservation(flows[tcb], OutboundSyn, Outbound, scope.timestamp(r.timestamp)))
  }

  function MeaningOfEndpoint(scope: Scope, r: Record): Meaning {
    match EndpointEventOf(r.payload, r.header32)
    case None => Undecodable
    case Some(e) =>
      match FlowOf(scope, e.local, e.remote, e.processId, if e.tcb != 0 then TcbName(scope, e.tcb) else "")
      case None => Undecodable
      case Some(flow) =>
        if !FlowInScope(scope, flow) then Nothing
        else Saw(TcpObservation(flow, HandshakeConfirmed, Inbound, scope.timestamp(r.timestamp)))
  }

  function MeaningOfIcmp(scope: Scope, r: Record): Meaning {
    match IcmpEventOf(r.payload)
    case None => Undecodable
    case Some(e) =>
      var (source, destination) := (SocketAddress(scope.ip6, e.source).0, SocketAddress(scope.ip6, e.destination).0);
      if source == "" || destination == "" then Undecodable
      else if IcmpKind(e).NoKind? then Nothing
      else Saw(BLANK.(kind := IcmpKind(e), protocol := Icmp, direction := if e.direction == 0 then Outbound else Inbound,
                      sourceAddress := source, destinationAddress := destination,
                      icmpType := e.icmpType % 256, icmpCode := e.icmpCode % 256, observedAt := scope.timestamp(r.timestamp)))
  }

  predicate IsRequest(eventId: nat) {
    eventId == 1002 || 1182 <= eventId <= 1185
  }

  function MeaningOf(scope: Scope, flows: map<nat, Flow>, r: Record): Meaning {
    if IsRequest(r.eventId) then MeaningOfRequest(scope, r)
    else if r.eventId == 1004 then MeaningOfSend(scope, flows, r)
    else if r.eventId == 1033 then MeaningOfEndpoint(scope, r)
    else if r.eventId == 1422 then MeaningOfIcmp(scope, r)
    else Nothing
  }

  /** Events of other providers and empty ones are not looked at. */
  predicate Ignored(r: Record) {
    !r.tcpip || r.payload == []
  }

  function ObservationId(scope: Scope, n: nat): string {
    scope.correlationId + "/etw-" + Padded(n)
  }

  /** The last loop of `consume`: an observation about the target is stamped and kept. */
  function Kept(scope: Scope, observations: seq<Observation>, o: Observation): seq<Observation> {
    if !Candidate(scope, o) then observations
    else observations + [Normalized(scope.address, o.(sessionId := scope.sessionId, probeId := scope.probeId,
                                                      correlationId := scope.correlationId,
                                                      id := ObservationId(scope, |observations| + 1)))]
  }

  /** What a decodable event adds. */
  function Learned(scope: Scope, c: Consumer, m: Meaning): Consumer {
    match m
    case Undecodable => c
    case Nothing => c
    case Remember(tcb, flow, None) => c.(flows := c.flows[tcb := flow])
    case Remember(tcb, flow, Some(o)) => c.(flows := c.flows[tcb := flow], observations := Kept(scope, c.observations, o))
    case Saw(o) => c.(observations := Kept(scope, c.observations, o))
  }

  function Unbounded(scope: Scope, c: Consumer, r: Record): Consumer {
    if Ignored(r) then c else Learned(scope, c, MeaningOf(scope, c.flows, r))
  }

  function Bounded(scope: Scope, c: Consumer, r: Record): Consumer {
    if Ignored(r) then c
    else if |c.observations| >= MAX_OBSERVATIONS then c.(eventsLost := c.eventsLost + 1)
    else
      var m := MeaningOf(scope, c.flows, r);
      if m.Undecodable? then c.(parseErrors := c.parseErrors + 1)
      else if m.Remember? && m.tcb !in c.flows && |c.flows| >= MAX_FLOWS then c.(eventsLost := c.eventsLost + 1)
      else Learned(scope, c, m)
  }

  function AllBounded(scope: Scope, rs: seq<Record>): Consumer {
    if rs == [] then EMPTY_CONSUMER else Bounded(scope, AllBounded(scope, rs[..|rs| - 1]), rs[|rs| - 1])
  }

  function AllUnbounded(scope: Scope, rs: seq<Record>): Consumer {
    if rs == [] then EMPTY_CONSUMER else Unbounded(scope, AllUnbounded(scope, rs[..|rs| - 1]), rs[|rs| - 1])
  }

  // ---- the object ----

  datatype CaptureResult = CaptureResult(observations: seq<Observation>, complete: bool, eventsLost: nat, cancelled: bool, error: string)

  const INCOMPLETE := "ETW TCP/IP event decoding was incomplete"

  class EtwCapture {
    const scope: Scope
    var observations: seq<Observation>
    var tcbFlows: map<nat, Flow>
    var eventsLost: nat
    var parseErrors: nat
    var processError: string
    var cancelled: bool
    var processComplete: bool

    ghost function Abs(): Consumer
      reads this
    {
      Consumer(observations, tcbFlows, eventsLost, parseErrors)
    }

    constructor (scope: Scope)
      ensures this.scope == scope && Abs() == EMPTY_CONSUMER && processError == "" && !cancelled && !processComplete
    {
      this.scope := scope;
      observations, tcbFlows, eventsLost, parseErrors := [], map[], 0, 0;
      processError, cancelled, processComplete := "", false, false;
    }

    /** The part of `consume` that decodes. */
    method Decode(record: Record) returns (m: Meaning)
      ensures m == MeaningOf(scope, tcbFlows, record)
    {
      if IsRequest(record.eventId) {
        var request := ParseTcpRequest(record.payload, record.header32);
        if request.None? {
          return Undecodable;
        }
        var flow := FlowOf(scope, request.value.local, request.value.remote, record.processId, TcbName(scope, request.value.tcb));
        if flow.None? {
          return Undecodable;
        }
        if !FlowInScope(scope, flow.value) {
          return Nothing;
        }
        var seen := if record.eventId == 1183 || record.eventId == 1184
          then Some(TcpObservation(flow.value, TcpRst, Inbound, scope.timestamp(record.timestamp))) else None;
        return Remember(request.value.tcb, flow.value, seen);
      } else if record.eventId == 1004 {
        var tcb, ok := ParsePointer(record.payload, record.header32);
        if !ok {
          return Undecodable;
        }
        if tcb !in tcbFlows {
          return Nothing;
        }
        return Saw(TcpObservation(tcbFlows[tcb], OutboundSyn, Outbound, scope.timestamp(record.timestamp)));
      } else if record.eventId == 1033 {
        var event := ParseEndpointEvent(record.payload, record.header32);
        if event.None? {
          return Undecodable;
        }
        var name := if event.value.tcb != 0 then TcbName(scope, event.value.tcb) else "";
        var flow := FlowOf(scope, event.value.local, event.value.remote, event.value.processId, name);
        if flow.None? {
          return Undecodable;
        }
        if !FlowInScope(scope, flow.value) {
          return Nothing;
        }
        return Saw(TcpObservation(flow.value, HandshakeConfirmed, Inbound, scope.timestamp(record.timestamp)));
      } else if record.eventId == 1422 {
        var event := ParseIcmpEvent(record.payload);
        return if event.None? then Undecodable else MeaningOfIcmp(scope, record);
      }
      m := Nothing;
    }

    /** `consume`. */
    method Consume(record: Record)
      modifies this`observations, this`tcbFlows, this`eventsLost, this`parseErrors
      ensures Abs() == Bounded(scope, old(Abs()), record)
    {
      if Ignored(record) {
        return;
      }
      if |observations| >= MAX_OBSERVATIONS {
        eventsLost := eventsLost + 1;
        return;
      }
      var m := Decode(record);
      match m {
        case Undecodable => parseErrors := parseErrors + 1;
        case Nothing =>
        case Remember(tcb, flow, seen) =>
          if tcb !in tcbFlows && |tcbFlows| >= MAX_FLOWS {
            eventsLost := eventsLost + 1;
          } else {
            tcbFlows := tcbFlows[tcb := flow];
            if seen.Some? {
              observations := Kept(scope, observations, seen.value);
            }
          }
        case Saw(o) =>
          observations := Kept(scope, observations, o);
      }
    }

    /** `process`, after the last event: the status of the trace and what the system lost. */
    method Process(failure: string, logfileLost: nat, propertiesLost: nat)
      modifies this`eventsLost, this`parseErrors, this`processError, this`processComplete
      ensures processComplete
      ensures parseErrors == old(parseErrors) + if failure != "" then 1 else 0
      ensures eventsLost >= old(eventsLost) && eventsLost >= logfileLost && eventsLost >= propertiesLost
      ensures eventsLost == old(eventsLost) || eventsLost == logfileLost || eventsLost == propertiesLost
      ensures processError == if failure != "" then failure
                              else if old(processError) == "" && parseErrors != 0 then INCOMPLETE else old(processError)
    {
      if failure != "" {
        parseErrors := parseErrors + 1;
        processError := failure;
      }
      if logfileLost > eventsLost {
        eventsLost := logfileLost;
      }
      if propertiesLost > eventsLost {
        eventsLost := propertiesLost;
      }
      if parseErrors != 0 && processError == "" {
        processError := INCOMPLETE;
      }
      processComplete := true;
    }

    /** `Stop`, once the trace has ended. */
    method Stop() returns (result: CaptureResult)
      ensures result == CaptureResult(observations, processComplete && parseErrors == 0 && eventsLost == 0 && !cancelled,
                                      eventsLost, cancelled, processError)
    {
      result := CaptureResult(observations, processComplete && parseErrors == 0 && eventsLost == 0 && !cancelled,
                              eventsLost, cancelled, processError);
    }
  }

  /** A whole capture: the events in order, the end of the trace, then `Stop`. */
  method Capture(scope: Scope, rs: seq<Record>, failure: string, logfileLost: nat, propertiesLost: nat, cancel: bool)
    returns (result: CaptureResult)
    ensures result.observations == AllBounded(scope, rs).observations
    ensures result.complete <==> AllBounded(scope, rs).eventsLost == 0 && AllBounded(scope, rs).parseErrors == 0
                                 && failure == "" && logfileLost == 0 && propertiesLost == 0 && !cancel
    ensures result.complete ==> result.eventsLost == 0 && result.error == "" && !result.cancelled
    ensures result.cancelled <==> cancel
    ensures !result.complete ==> result.cancelled || result.eventsLost != 0 || result.error != ""
  {
    var capture := new EtwCapture(scope);
    for i := 0 to |rs|
      invariant capture.Abs() == AllBounded(scope, rs[..i])
      invariant capture.processError == "" && !capture.cancelled && capture.scope == scope
    {
      assert rs[..i + 1][..i] == rs[..i];
      capture.Consume(rs[i]);
    }
    assert rs[..|rs|] == rs;
    capture.cancelled := cancel;
    capture.Process(failure, logfileLost, propertiesLost);
    result := capture.Stop();
  }

  // ---- the caps ----

  ghost predicate WithinCaps(c: Consumer) {
    |c.observations| <= MAX_OBSERVATIONS && |c.flows| <= MAX_FLOWS
  }

  lemma BoundedStaysWithin(scope: Scope, c: Consumer, r: Record)
    requires WithinCaps(c)
    ensures WithinCaps(Bounded(scope, c, r))
  {
    var m := MeaningOf(scope, c.flows, r);
    if m.Remember? {
      assert c.flows[m.tcb := m.flow].Keys == c.flows.Keys + {m.tcb};
      assert m.tcb in c.flows ==> c.flows.Keys + {m.tcb} == c.flows.Keys;
    }
  }

  /** Both tables stay within their caps, for any records. */
  lemma {:induction false} TablesAreBounded(scope: Scope, rs: seq<Record>)
    ensures |AllBounded(scope, rs).observations| <= 256 && |AllBounded(scope, rs).flows| <= 256
  {
    if rs != [] {
      TablesAreBounded(scope, rs[..|rs| - 1]);
      BoundedStaysWithin(scope, AllBounded(scope, rs[..|rs| - 1]), rs[|rs| - 1]);
    }
  }

  /** The record is handled without loss by a consumer in this state. */
  predicate Handled(scope: Scope, c: Consumer, r: Record) {
    Ignored(r) ||
    var m := MeaningOf(scope, c.flows, r);
    && |c.observations| < MAX_OBSERVATIONS
    && !m.Undecodable?
    && (m.Remember? && m.tcb !in c.flows ==> |c.flows| < MAX_FLOWS)
  }

  predicate AllHandled(scope: Scope, rs: seq<Record>) {
    rs == [] || (AllHandled(scope, rs[..|rs| - 1]) && Handled(scope, AllUnbounded(scope, rs[..|rs| - 1]), rs[|rs| - 1]))
  }

  lemma UnboundedCountsNothing(scope: Scope, c: Consumer, r: Record)
    ensures Unbounded(scope, c, r).eventsLost == c.eventsLost && Unbounded(scope, c, r).parseErrors == c.parseErrors
  {
  }

  lemma HandledAgrees(scope: Scope, c: Consumer, r: Record)
    ensures Handled(scope, c, r) ==> Bounded(scope, c, r) == Unbounded(scope, c, r)
    ensures !Handled(scope, c, r) ==> Bounded(scope, c, r).eventsLost + Bounded(scope, c, r).parseErrors == c.eventsLost + c.parseErrors + 1
  {
  }

  lemma BoundedCounts(scope: Scope, c: Consumer, r: Record)
    ensures Bounded(scope, c, r).eventsLost >= c.eventsLost && Bounded(scope, c, r).parseErrors >= c.parseErrors
  {
  }

  /**
   The bounded consumer counts no loss and no undecodable event exactly when the unbounded one
   could handle every event within the caps, and then they are in the same state.
   */
  lemma {:induction false} LosslessIff(scope: Scope, rs: seq<Record>)
    ensures AllBounded(scope, rs).eventsLost == 0 && AllBounded(scope, rs).parseErrors == 0 <==> AllHandled(scope, rs)
    ensures AllHandled(scope, rs) ==> AllBounded(scope, rs) == AllUnbounded(scope, rs)
  {
    if rs != [] {
      var front, r := rs[..|rs| - 1], rs[|rs| - 1];
      LosslessIff(scope, front);
      BoundedCounts(scope, AllBounded(scope, front), r);
      HandledAgrees(scope, AllUnbounded(scope, front), r);
      UnboundedCountsNothing(scope, AllUnbounded(scope, front), r);
    }
  }

  /** Every event was decodable along the unbounded run. */
  predicate AllDecodable(scope: Scope, rs: seq<Record>) {
    rs == [] || (AllDecodable(scope, rs[..|rs| - 1])
                 && (Ignored(rs[|rs| - 1]) || !MeaningOf(scope, AllUnbounded(scope, rs[..|rs| - 1]).flows, rs[|rs| - 1]).Undecodable?))
  }

  /** A capture without loss refines the capture without caps. */
  lemma {:induction false} LosslessIsUnbounded(scope: Scope, rs: seq<Record>)
    requires AllBounded(scope, rs).eventsLost == 0 && AllBounded(scope, rs).parseErrors == 0
    ensures AllBounded(scope, rs).observations == AllUnbounded(scope, rs).observations
    ensures AllDecodable(scope, rs)
  {
    LosslessIff(scope, rs);
    if rs != [] {
      LosslessIff(scope, rs[..|rs| - 1]);
      LosslessIsUnbounded(scope, rs[..|rs| - 1]);
    }
  }

  // ---- identifiers ----

  ghost predicate Numbered(scope: Scope, observations: seq<Observation>) {
    forall i :: 0 <= i < |observations| ==> observations[i].id == ObservationId(scope, i + 1)
  }

  lemma NumberedAppend(scope: Scope, observations: seq<Observation>, o: Observation)
    requires Numbered(scope, observations) && o.id == ObservationId(scope, |observations| + 1)
    ensures Numbered(scope, observations + [o])
  {
  }

  lemma KeptIsNumbered(scope: Scope, observations: seq<Observation>, o: Observation)
    requires Numbered(scope, observations)
    ensures Numbered(scope, Kept(scope, observations, o))
  {
    var kept := Kept(scope, observations, o);
    if |kept| > |observations| {
      NumberedAppend(scope, observations, kept[|observations|]);
    }
  }

  lemma LearnedIsNumbered(scope: Scope, c: Consumer, m: Meaning)
    requires Numbered(scope, c.observations)
    ensures Numbered(scope, Learned(scope, c, m).observations)
  {
    if m.Saw? {
      KeptIsNumbered(scope, c.observations, m.observation);
    } else if m.Remember? && m.seen.Some? {
      KeptIsNumbered(scope, c.observations, m.seen.value);
    }
  }

  /** Observation n is named by its number, so names are distinct and not empty. */
  lemma {:induction false} ObservationIds(scope: Scope, rs: seq<Record>)
    ensures Numbered(scope, AllBounded(scope, rs).observations)
  {
    if rs != [] {
      var c := AllBounded(scope, rs[..|rs| - 1]);
      ObservationIds(scope, rs[..|rs| - 1]);
      LearnedIsNumbered(scope, c, MeaningOf(scope, c.flows, rs[|rs| - 1]));
    }
  }

  lemma ObservationIdsDistinct(scope: Scope, rs: seq<Record>, i: nat, j: nat)
    requires i < j < |AllBounded(scope, rs).observations|
    ensures AllBounded(scope, rs).observations[i].id != AllBounded(scope, rs).observations[j].id
    ensures AllBounded(scope, rs).observations[i].id != ""
  {
    ObservationIds(scope, rs);
    if ObservationId(scope, i + 1) == ObservationId(scope, j + 1) {
      var prefix := scope.correlationId + "/etw-";
      assert ObservationId(scope, i + 1)[|prefix|..] == Padded(i + 1);
      assert ObservationId(scope, j + 1)[|prefix|..] == Padded(j + 1);
      PaddedInjective(i + 1, j + 1);
    }
  }
}
