/**
 What a capture lets one conclude in the cases that leave something open
 (internal/packet/packet.go:174-221, 443-560, 634-713; internal/packet/etw_windows.go:286-345,
 436-504, 599-623): failed captures, missing emissions, answers without a key, events of others.
 */
module PacketConclusions {
  import opened Decimal
  import opened EtwCaptures
  import opened EtwReaders
  import opened Lists
  import opened Options
  import opened Orders
  import opened Packets
  import opened PacketExchanges
  import opened PacketFacts
  import opened PacketFlows

  // ---- what a capture that is not available says ----

  predicate Undisturbed(input: Input) {
    !input.cancelled && !input.capture.cancelled
  }

  /** Cancellation comes before failures, a failed start before a failed stop, failures before losses. */
  lemma StatusIs(input: Input)
    ensures StatusOf(input).StatusCancelled? <==> input.cancelled || input.capture.cancelled
    ensures StatusOf(input).StatusUnsupported? <==> Undisturbed(input) && input.startError.NotSupported?
    ensures StatusOf(input).StatusPrivilege? <==>
              Undisturbed(input) && (input.startError.InsufficientPrivilege? || (input.startError.NoFailure? && input.stopError.InsufficientPrivilege?))
    ensures StatusOf(input).StatusPartial? <==>
              Undisturbed(input) && input.startError.NoFailure? && input.stopError.NoFailure? && input.capture.error == "" && input.capture.eventsLost != 0
  {
  }

  /** Nothing is said of the packets of a capture that is not available. */
  lemma UnavailableSaysNothing(env: Env, input: Input)
    requires !StatusOf(input).Available?
    ensures var e := EvidenceOf(env, input);
            && e.status == StatusOf(input) && e.emission.EmissionUnknown? && e.certainty.Unobservable? && e.matched == [] && e.observations == []
            && (e.outcome == OutcomeCancelled <==> input.cancelled || input.capture.cancelled)
            && (e.outcome == CaptureUnavailable <==> !input.cancelled && !input.capture.cancelled)
  {
    EvidenceCases(env, input);
    StatusIs(input);
  }

  // ---- when an emission counts as missing ----

  ghost predicate SomeEmission(env: Env, input: Input) {
    exists o :: o in RelevantObservations(env, input.probe, input.tuple, input.capture.observations)
                && if input.probe.probeType.PathProbe? then o.kind.OutboundEcho? else IsTcpEmission(input.tuple, o)
  }

  lemma EmissionSeenIff(env: Env, input: Input, s: seq<Observation>)
    requires s == RelevantObservations(env, input.probe, input.tuple, input.capture.observations)
    ensures !input.probe.probeType.PathProbe? ==> (TcpFlow(env, s, input.tuple).emission.EmissionObserved? <==> SomeEmission(env, input))
    ensures !input.probe.probeType.PathProbe? ==> (TcpFlow(env, s, input.tuple).emission.EmissionUnknown? <==> !SomeEmission(env, input))
    ensures input.probe.probeType.PathProbe? ==> (PathFlow(env, s).emission.EmissionObserved? <==> SomeEmission(env, input))
    ensures input.probe.probeType.PathProbe? ==> (PathFlow(env, s).emission.EmissionUnknown? <==> !SomeEmission(env, input))
  {
    if input.probe.probeType.PathProbe? {
      NotEmpty(PathEmissions(s));
    } else {
      TcpOutcomeIff(env, s, input.tuple);
      TcpUnseen(env, s, input.tuple);
    }
  }

  lemma TcpUnseen(env: Env, s: seq<Observation>, tuple: Tuple)
    ensures TcpFlow(env, s, tuple).emission.EmissionUnknown? <==> !TcpFlow(env, s, tuple).emission.EmissionObserved?
  {
  }

  lemma TcpIsSent(env: Env, s: seq<Observation>, tuple: Tuple)
    ensures !TcpFlow(env, s, tuple).outcome.ProbeNotEmitted?
  {
    assert forall k: Kind :: !TcpOutcome(k).ProbeNotEmitted?;
  }

  lemma PathIsSent(env: Env, s: seq<Observation>)
    ensures !PathFlow(env, s).outcome.ProbeNotEmitted?
  {
    assert forall k: Kind :: !PathOutcome(k).ProbeNotEmitted?;
  }

  /**
   The probe is said not to have been sent exactly if the capture is available, none of its packets
   was seen, the probe ran, and its packets could have been told: a path probe must have passed, a
   TCP probe must have a known remote address.
   */
  lemma NotEmittedIff(env: Env, input: Input)
    ensures EvidenceOf(env, input).outcome.ProbeNotEmitted? <==>
              && StatusOf(input).Available? && !SomeEmission(env, input) && input.started
              && if input.probe.probeType.PathProbe? then input.passed
                 else input.tuple.remoteAddress != "" || env.isAddress(input.probe.target.literalIp)
    ensures EvidenceOf(env, input).outcome.ProbeNotEmitted? <==> EvidenceOf(env, input).emission.EmissionNotObserved?
  {
    var s := RelevantObservations(env, input.probe, input.tuple, input.capture.observations);
    EvidenceCases(env, input);
    AvailableIff(input);
    EmissionSeenIff(env, input, s);
    if input.probe.probeType.PathProbe? {
      PathIsSent(env, s);
    } else {
      TcpIsSent(env, s, input.tuple);
    }
  }

  // ---- answers without a key ----

  /** No field of the answer that could name its request is known. */
  predicate Unkeyed(r: Observation) {
    && r.icmpIdentifier == 0 && r.icmpSequence == 0 && r.quotedIcmpIdentifier == 0 && r.quotedIcmpSequence == 0
    && r.probeTtl == 0 && r.probeAttempt == 0
  }

  /** Nothing else says that the answer is to another request. */
  predicate Compatible(env: Env, e: Observation, r: Observation) {
    && (r.correlationId == "" || e.correlationId == "" || r.correlationId == e.correlationId)
    && (r.quotedDestinationAddress == "" || e.destinationAddress == "" || env.address(r.quotedDestinationAddress) == env.address(e.destinationAddress))
    && (r.quotedDestinationPort == 0 || e.destinationPort == 0 || r.quotedDestinationPort == e.destinationPort)
  }

  ghost predicate OneEmission(s: seq<Observation>, e: Observation) {
    PathEmissions(s) == [e]
  }

  lemma NonePasses(s: seq<Observation>, p: Observation -> bool, q: Observation -> bool)
    requires Filtered(s, q) == [] && forall o :: p(o) ==> q(o)
    ensures Filtered(s, p) == []
  {
    NotEmpty(Filtered(s, p));
    NotEmpty(Filtered(s, q));
  }

  lemma {:induction false} FewerPass(s: seq<Observation>, p: Observation -> bool, q: Observation -> bool, e: Observation)
    requires Filtered(s, q) == [e] && p(e) && forall o :: p(o) ==> q(o)
    ensures Filtered(s, p) == [e]
  {
    var n := |s| - 1;
    if q(s[n]) {
      assert |Filtered(s, q)| == |Filtered(s[..n], q)| + 1;
      assert s[n] == e;
      NonePasses(s[..n], p, q);
    } else {
      FewerPass(s[..n], p, q, e);
    }
  }

  lemma UnkeyedPairIff(env: Env, s: seq<Observation>, e: Observation, r: Observation)
    requires OneEmission(s, e) && Unkeyed(r)
    ensures PathPair(env, e, r, 1, s) <==> Compatible(env, e, r) && ((r.correlationId != "" && r.correlationId == e.correlationId) || |s| <= 2)
  {
    assert e in PathEmissions(s);
    if r.correlationId == e.correlationId {
      FewerPass(s, (o: Observation) => o.kind.OutboundEcho? && o.correlationId == r.correlationId, (o: Observation) => o.kind.OutboundEcho?, e);
    }
  }

  lemma UnkeyedAnsweredIff(env: Env, s: seq<Observation>, e: Observation, r: Observation)
    requires OneEmission(s, e) && Unkeyed(r) && IsPathAnswer(r)
    ensures PathAnswered(env, s, r) <==> Compatible(env, e, r) && ((r.correlationId != "" && r.correlationId == e.correlationId) || |s| <= 2)
  {
    UnkeyedPairIff(env, s, e, r);
    forall d ensures d in s && d.kind.OutboundEcho? <==> d == e {
      EmissionsAre(s, d);
    }
  }

  /** r stands at one place only. */
  ghost predicate Once(s: seq<Observation>, r: Observation) {
    forall i, j :: 0 <= i < j < |s| && s[i] == r ==> s[j] != r
  }

  lemma OnlyAnswerIs(env: Env, s: seq<Observation>, r: Observation)
    requires OneAnswer(s, r) && PathAnswered(env, s, r) && |PathEmissions(s)| == 1
    ensures Positive(PathFlow(env, s).outcome) <==> Keyed(r) || Once(s, r)
  {
    var i := FirstOf(s, r);
    assert EarliestPathAnswer(env, s, i);
    PathOutcomeIff(env, s, i);
    assert OnlyAnswer(env, s, i) <==> Once(s, r);
  }

  /**
   An answer without a key counts only as the only one, to the only request, and then only under the
   request's correlation, or when nothing else was seen.
   */
  lemma UnkeyedAnswerIff(env: Env, s: seq<Observation>, e: Observation, r: Observation)
    requires OneEmission(s, e) && OneAnswer(s, r) && Once(s, r) && Unkeyed(r) && IsPathAnswer(r)
    ensures Positive(PathFlow(env, s).outcome) <==>
              Compatible(env, e, r) && ((r.correlationId != "" && r.correlationId == e.correlationId) || |s| <= 2)
  {
    UnkeyedAnsweredIff(env, s, e, r);
    if PathAnswered(env, s, r) {
      OnlyAnswerIs(env, s, r);
    } else {
      NoAnswerAtAll(env, s, r);
    }
  }

  lemma NoAnswerAtAll(env: Env, s: seq<Observation>, r: Observation)
    requires OneAnswer(s, r) && !PathAnswered(env, s, r)
    ensures !Positive(PathFlow(env, s).outcome)
  {
    PathUnansweredIff(env, s);
  }

  /** Several requests under the answer's correlation, none of which shares a key with it: nothing is guessed. */
  lemma NothingIsGuessed(env: Env, s: seq<Observation>, r: Observation, c: Observation, d: Observation)
    requires r in s && c in s && d in s && c != d && c.kind.OutboundEcho? && d.kind.OutboundEcho?
    requires c.correlationId == r.correlationId && d.correlationId == r.correlationId
    requires forall e :: e in s && e.kind.OutboundEcho? ==> NoSharedKey(e, r)
    ensures !PathAnswered(env, s, r)
  {
    TwoEmissions(s, c, d, (o: Observation) => o.kind.OutboundEcho?);
    TwoEmissions(s, c, d, (o: Observation) => o.kind.OutboundEcho? && o.correlationId == r.correlationId);
    forall e | e in s && e.kind.OutboundEcho? ensures !PathPair(env, e, r, |PathEmissions(s)|, s) {
    }
  }

  predicate NoSharedKey(e: Observation, r: Observation) {
    && (e.icmpIdentifier == 0 || (r.icmpIdentifier == 0 && r.quotedIcmpIdentifier == 0))
    && (e.icmpSequence == 0 || (r.icmpSequence == 0 && r.quotedIcmpSequence == 0))
    && (e.probeTtl == 0 || r.probeTtl == 0) && (e.probeAttempt == 0 || r.probeAttempt == 0)
  }

  lemma TwoEmissions(s: seq<Observation>, c: Observation, d: Observation, p: Observation -> bool)
    requires c in s && d in s && c != d && p(c) && p(d)
    ensures |Filtered(s, p)| >= 2
  {
    var f := Filtered(s, p);
    assert c in f && d in f;
    var i :| 0 <= i < |f| && f[i] == c;
    var j :| 0 <= j < |f| && f[j] == d;
    assert i != j;
  }

  // ---- how a match is described ----

  /** By the strongest identity that an emission of the probe carries. */
  lemma TcpMethodSays(env: Env, s: seq<Observation>, tuple: Tuple)
    requires TcpFlow(env, s, tuple).emission.EmissionObserved?
    ensures var emissions := TcpEmissions(s, tuple);
            TcpFlow(env, s, tuple).method_ ==
              if exists o :: o in emissions && o.correlationId != "" then "correlation_id_and_" + "tcp_tuple"
              else if exists o :: o in emissions && (o.probeId != "" || o.sessionId != "") then "probe_identity_and_" + "tcp_tuple"
              else "process_and_tcp_tuple"
  {
  }

  lemma PathMethodSays(env: Env, s: seq<Observation>, r: Observation)
    requires Positive(PathFlow(env, s).outcome)
    requires r == Responses(s, PathEmissions(s), IsPathAnswer, PathPairing(env, |PathEmissions(s)|, s))[0]
    ensures var emissions := PathEmissions(s);
            PathFlow(env, s).method_ ==
              if exists o :: o in emissions && o.correlationId != ""
              then if Keyed(r) then "correlation_id_and_" + "path_key" else "correlation_id_and_" + "unique_path_tuple"
              else if exists o :: o in emissions && (o.probeId != "" || o.sessionId != "")
              then if Keyed(r) then "probe_identity_and_" + "path_key" else "probe_identity_and_" + "unique_path_tuple"
              else if Keyed(r) then "path_key" else "unique_path_tuple"
  {
  }

  // ---- names ----

  /** A captured identifier stays; an observation without one is named by its place. */
  lemma NamedByPlace(env: Env, p: Probe, tuple: Tuple, s: seq<Observation>, i: nat) returns (k: nat)
    requires i < |RelevantObservations(env, p, tuple, s)|
    ensures k < |s|
    ensures RelevantObservations(env, p, tuple, s)[i].id ==
              if s[k].id != "" then s[k].id else p.correlationId + "/observation-" + Padded(i + 1)
  {
    k := RetainedFrom(env, p, tuple, s, i);
    IdentifiedAt(p.correlationId, SortBy(ObservationLe, Chosen(env, p, tuple, s)), i);
  }

  lemma IdentifiedAt(correlationId: string, s: seq<Observation>, i: nat)
    requires i < |s|
    ensures Identified(correlationId, s)[i].id == if s[i].id != "" then s[i].id else correlationId + "/observation-" + Padded(i + 1)
  {
  }

  lemma SameControlBlock(scope: Scope, a: nat, b: nat)
    requires TcbName(scope, a) == TcbName(scope, b)
    ensures scope.hex(a) == scope.hex(b)
  {
    assert TcbName(scope, a)[4..] == scope.hex(a) && TcbName(scope, b)[4..] == scope.hex(b);
  }

  /** An observation without a protocol gets that of its kind. */
  lemma ProtocolIsOfKind(address: string -> string, o: Observation)
    ensures var n := Normalized(address, o);
            && (n.protocol.Tcp? <==> o.protocol.Tcp? || (o.protocol.NoProtocol? && o.kind in {OutboundSyn, InboundSynAck, TcpRst, HandshakeConfirmed}))
            && (n.protocol.Icmp? <==> o.protocol.Icmp? || (o.protocol.NoProtocol? && o.kind in {OutboundEcho, InboundEcho, TimeExceeded, Unreachable}))
  {
  }

  // ---- events of others ----

  /** The connection is another process's, or not to the target. */
  predicate OutOfScope(scope: Scope, f: Flow) {
    || (scope.processId != 0 && f.processId != 0 && f.processId != scope.processId)
    || match scope.literal
       case Some(expected) => !scope.equalFold(f.localAddress, expected) && !scope.equalFold(f.remoteAddress, expected)
       case None => f.processId != scope.processId || scope.port == 0 || (f.localPort != scope.port && f.remotePort != scope.port)
  }

  lemma ScopeIff(scope: Scope, f: Flow)
    ensures FlowInScope(scope, f) <==> !OutOfScope(scope, f)
  {
  }

  /** Its events are decoded, and change nothing. */
  lemma OthersAreIgnored(scope: Scope, c: Consumer, r: Record, tcb: nat, f: Flow)
    requires IsRequestOf(scope, r, tcb, f) || IsCompletionOf(scope, r, f)
    requires OutOfScope(scope, f)
    ensures Unbounded(scope, c, r) == c && Handled(scope, c, r) == (|c.observations| < MAX_OBSERVATIONS)
  {
    ScopeIff(scope, f);
    if IsRequestOf(scope, r, tcb, f) {
      OtherRequest(scope, c.flows, r, tcb, f);
    } else {
      OtherCompletion(scope, c.flows, r, f);
    }
  }

  lemma OtherRequest(scope: Scope, flows: map<nat, Flow>, r: Record, tcb: nat, f: Flow)
    requires IsRequestOf(scope, r, tcb, f) && !FlowInScope(scope, f)
    ensures !Ignored(r) && MeaningOf(scope, flows, r) == Nothing
  {
    var request: TcpRequest, rest: seq<Byte> :|
      && request.tcb == tcb && TcpRequestFits(request, r.header32) && SpellsEnds(scope, request.local, request.remote, f)
      && r.payload == TcpRequestLayout(request, r.header32, rest);
    TcpRequestInverts(request, r.header32, rest);
    SpelledFlow(scope, request.local, request.remote, f);
    NothingRequested(scope, flows, r, request, f);
  }

  lemma NothingRequested(scope: Scope, flows: map<nat, Flow>, r: Record, request: TcpRequest, f: Flow)
    requires IsRequest(r.eventId) && TcpRequestOf(r.payload, r.header32) == Some(request) && !FlowInScope(scope, f)
    requires FlowOf(scope, request.local, request.remote, r.processId, TcbName(scope, request.tcb)) == Some(f)
    ensures MeaningOf(scope, flows, r) == Nothing
  {
  }

  lemma OtherCompletion(scope: Scope, flows: map<nat, Flow>, r: Record, f: Flow)
    requires IsCompletionOf(scope, r, f) && !FlowInScope(scope, f)
    ensures !Ignored(r) && MeaningOf(scope, flows, r) == Nothing
  {
    var event: EndpointEvent, rest: seq<Byte> :|
      && EndpointEventFits(event, r.header32) && SpellsEnds(scope, event.local, event.remote, f)
      && f.processId == event.processId && f.connectionId == (if event.tcb != 0 then TcbName(scope, event.tcb) else "")
      && r.payload == EndpointEventLayout(event, r.header32, rest);
    EndpointEventInverts(event, r.header32, rest);
    SpelledFlow(scope, event.local, event.remote, f);
    NothingCompleted(scope, flows, r, event, f);
  }

  lemma NothingCompleted(scope: Scope, flows: map<nat, Flow>, r: Record, event: EndpointEvent, f: Flow)
    requires r.eventId == 1033 && EndpointEventOf(r.payload, r.header32) == Some(event) && !FlowInScope(scope, f)
    requires FlowOf(scope, event.local, event.remote, event.processId, if event.tcb != 0 then TcbName(scope, event.tcb) else "") == Some(f)
    ensures MeaningOf(scope, flows, r) == Nothing
  {
  }

  // ---- ICMP ----

  /** Echo requests go out and replies come in; the error types differ between ICMP (1) and ICMPv6 (58). */
  function MessageKind(transport: nat, outbound: bool, icmpType: nat): Kind {
    if outbound && icmpType in {8, 128} then OutboundEcho
    else if !outbound && icmpType in {0, 129} then InboundEcho
    else if (transport, icmpType) in {(1, 11), (58, 3)} then TimeExceeded
    else if (transport, icmpType) in {(1, 3), (58, 1)} then Unreachable
    else NoKind
  }

  ghost predicate IsIcmpOf(scope: Scope, r: Record, e: IcmpEvent, source: string, destination: string) {
    && r.tcpip && r.eventId == 1422 && IcmpEventFits(e) && e.direction <= 1
    && (exists port :: Spells(scope, e.source, source, port)) && (exists port :: Spells(scope, e.destination, destination, port))
    && source != "" && destination != ""
    && exists rest: seq<Byte> :: r.payload == IcmpEventLayout(e, rest)
  }

  /** What an ICMP event shows: the kind of message, from its source to its destination, or nothing. */
  lemma IcmpIsSeen(scope: Scope, flows: map<nat, Flow>, r: Record, e: IcmpEvent, source: string, destination: string)
    requires IsIcmpOf(scope, r, e, source, destination)
    ensures var (kind, m) := (MessageKind(e.transport, e.direction == 0, e.icmpType), MeaningOf(scope, flows, r));
            && !Ignored(r)
            && (kind.NoKind? <==> m == Nothing)
            && (!kind.NoKind? ==>
                  && m.Saw? && m.observation.kind == kind && m.observation.protocol.Icmp?
                  && m.observation.sourceAddress == source && m.observation.destinationAddress == destination
                  && (m.observation.direction.Outbound? <==> e.direction == 0) && (m.observation.direction.Inbound? <==> e.direction == 1)
                  && m.observation.observedAt == scope.timestamp(r.timestamp))
  {
    var rest: seq<Byte> :| r.payload == IcmpEventLayout(e, rest);
    IcmpEventInverts(e, rest);
    var port :| Spells(scope, e.source, source, port);
    SpelledDecodes(scope, e.source, source, port);
    var far :| Spells(scope, e.destination, destination, far);
    SpelledDecodes(scope, e.destination, destination, far);
    KindIs(e);
    ParsedIcmp(scope, flows, r, e, source, destination);
  }

  lemma KindIs(e: IcmpEvent)
    requires e.direction <= 1
    ensures IcmpKind(e) == MessageKind(e.transport, e.direction == 0, e.icmpType)
  {
  }

  lemma ParsedIcmp(scope: Scope, flows: map<nat, Flow>, r: Record, e: IcmpEvent, source: string, destination: string)
    requires r.eventId == 1422 && IcmpEventOf(r.payload) == Some(e) && source != "" && destination != ""
    requires SocketAddress(scope.ip6, e.source).0 == source && SocketAddress(scope.ip6, e.destination).0 == destination
    ensures var m := MeaningOf(scope, flows, r);
            && (IcmpKind(e).NoKind? <==> m == Nothing)
            && (!IcmpKind(e).NoKind? ==>
                  && m.Saw? && m.observation.kind == IcmpKind(e) && m.observation.protocol.Icmp?
                  && m.observation.sourceAddress == source && m.observation.destinationAddress == destination
                  && (m.observation.direction.Outbound? <==> e.direction == 0) && (m.observation.direction.Inbound? <==> e.direction != 0)
                  && m.observation.observedAt == scope.timestamp(r.timestamp))
  {
  }
}
