/**
 Exchanges followed through the whole lane, from the bytes of the events to the conclusion
 (internal/packet/etw_windows.go:286-385, 599-623; internal/packet/packet.go:102-172, 292-604,
 634-713): a connection's own handshake is its answer, another connection's is not.
 */
module PacketExchanges {
  import opened EtwCaptures
  import opened EtwReaders
  import opened Lists
  import opened Options
  import opened Orders
  import opened Packets
  import opened PacketFacts
  import opened PacketFlows

  // ---- two flows ----

  /** Nothing that both flows know tells them apart. */
  predicate SameConnection(env: Env, f: Flow, g: Flow) {
    && (f.connectionId == "" || g.connectionId == "" || f.connectionId == g.connectionId)
    && (f.localPort == 0 || g.localPort == 0 || f.localPort == g.localPort)
    && (f.remotePort == 0 || g.remotePort == 0 || f.remotePort == g.remotePort)
    && (f.localAddress == "" || g.localAddress == "" || env.address(f.localAddress) == env.address(g.localAddress))
    && (f.remoteAddress == "" || g.remoteAddress == "" || env.address(f.remoteAddress) == env.address(g.remoteAddress))
  }

  predicate IsReply(kind: Kind) {
    kind.HandshakeConfirmed? || kind.TcpRst? || kind.InboundSynAck?
  }

  function Concluded(kind: Kind): Outcome
    requires IsReply(kind)
  {
    match kind
    case HandshakeConfirmed => HandshakeSeen
    case TcpRst => RstReceived
    case _ => SynAckReceived
  }

  lemma PairIff(env: Env, f: Flow, g: Flow, kind: Kind, t: Time, u: Time)
    ensures TcpPair(env, TcpObservation(f, OutboundSyn, Outbound, t), TcpObservation(g, kind, Inbound, u)) <==> SameConnection(env, f, g)
  {
  }

  lemma ExchangeOf(env: Env, e: Observation, r: Observation, tuple: Tuple)
    requires IsTcpEmission(tuple, e) && IsTcpAnswer(r) && !e.kind.TcpRst?
    ensures TcpFlow(env, [e, r], tuple).outcome == if TcpPair(env, e, r) then Concluded(r.kind) else NoMatchingResponse
  {
    assert forall o :: o in [e, r] <==> o == e || o == r;
    TcpOutcomeIff(env, [e, r], tuple);
    assert !IsTcpEmission(tuple, r) && !IsTcpAnswer(e);
    assert TcpAnswered(env, [e, r], tuple, r) <==> TcpPair(env, e, r);
    if TcpPair(env, e, r) {
      var i := TcpOutcomeIsEarliest(env, [e, r], tuple);
    }
  }

  /**
   What the consumer sees of a connection attempt and of an outcome is an answered exchange exactly
   when both are of one connection; what is concluded is the kind of the answer.
   */
  lemma FlowsAnswerIff(env: Env, f: Flow, g: Flow, kind: Kind, t: Time, u: Time, tuple: Tuple)
    requires kind.HandshakeConfirmed? || kind.TcpRst? || kind.InboundSynAck?
    requires tuple.localPort == 0 || tuple.localPort == f.localPort
    ensures var s := [TcpObservation(f, OutboundSyn, Outbound, t), TcpObservation(g, kind, Inbound, u)];
            TcpFlow(env, s, tuple).outcome ==
              if !SameConnection(env, f, g) then NoMatchingResponse
              else match kind
                   case HandshakeConfirmed => HandshakeSeen
                   case TcpRst => RstReceived
                   case _ => SynAckReceived
  {
    PairIff(env, f, g, kind, t, u);
    ExchangeOf(env, TcpObservation(f, OutboundSyn, Outbound, t), TcpObservation(g, kind, Inbound, u), tuple);
  }

  // ---- the events of one connection ----

  /** The bytes of a socket address of either family. */
  ghost predicate Spells(scope: Scope, bytes: seq<Byte>, address: string, port: nat) {
    && port < 65536
    && ((exists four: seq<Byte>, rest: seq<Byte> :: |four| == 4 && bytes == SockaddrIn(port, four) + rest && address == Dotted(four))
        || exists family: nat, flow: seq<Byte>, sixteen: seq<Byte>, rest: seq<Byte> ::
             && (family == 10 || family == 23) && |flow| == 4 && |sixteen| == 16
             && bytes == SockaddrIn6(family, port, flow, sixteen, rest) && address == scope.ip6(sixteen))
  }

  ghost predicate SpellsEnds(scope: Scope, local: seq<Byte>, remote: seq<Byte>, f: Flow) {
    && Spells(scope, local, f.localAddress, f.localPort) && Spells(scope, remote, f.remoteAddress, f.remotePort)
    && f.localAddress != "" && f.remoteAddress != ""
  }

  /** A TCP event that carries a control block and both ends: connect requested, begun, failed. */
  ghost predicate IsRequestOf(scope: Scope, r: Record, tcb: nat, f: Flow) {
    && r.tcpip && r.eventId in {1002, 1182, 1183, 1184, 1185} && f.processId == r.processId && f.connectionId == TcbName(scope, tcb)
    && exists request: TcpRequest, rest: seq<Byte> ::
         && request.tcb == tcb && TcpRequestFits(request, r.header32) && SpellsEnds(scope, request.local, request.remote, f)
         && r.payload == TcpRequestLayout(request, r.header32, rest)
  }

  /** The event of a segment sent for a control block. */
  ghost predicate IsSendOf(r: Record, tcb: nat) {
    && r.tcpip && r.eventId == 1004 && tcb < Pow256(Width(r.header32))
    && exists rest: seq<Byte> :: r.payload == Encode(tcb, Width(r.header32)) + rest
  }

  /** The event of a completed connection. */
  ghost predicate IsCompletionOf(scope: Scope, r: Record, f: Flow) {
    && r.tcpip && r.eventId == 1033
    && exists event: EndpointEvent, rest: seq<Byte> ::
         && EndpointEventFits(event, r.header32) && SpellsEnds(scope, event.local, event.remote, f)
         && f.processId == event.processId && f.connectionId == (if event.tcb != 0 then TcbName(scope, event.tcb) else "")
         && r.payload == EndpointEventLayout(event, r.header32, rest)
  }

  /** The connection is to the target, as far as the scope knows. */
  predicate InScope(scope: Scope, f: Flow) {
    && (scope.processId == 0 || f.processId == 0 || f.processId == scope.processId)
    && match scope.literal
       case Some(expected) => scope.equalFold(f.remoteAddress, expected)
       case None => f.processId == scope.processId && scope.port != 0 && f.remotePort == scope.port
  }

  lemma SpelledDecodes(scope: Scope, bytes: seq<Byte>, address: string, port: nat)
    requires Spells(scope, bytes, address, port)
    ensures SocketAddress(scope.ip6, bytes) == (address, port)
  {
    var zeros: seq<Byte> := [0, 0, 0, 0];
    if four: seq<Byte>, rest: seq<Byte> :| |four| == 4 && bytes == SockaddrIn(port, four) + rest && address == Dotted(four) {
      SocketAddressesDecode(scope.ip6, 23, port, four, zeros + zeros + zeros + zeros, zeros, rest);
    } else {
      var family: nat, flow: seq<Byte>, sixteen: seq<Byte>, rest: seq<Byte> :|
        && (family == 10 || family == 23) && |flow| == 4 && |sixteen| == 16
        && bytes == SockaddrIn6(family, port, flow, sixteen, rest) && address == scope.ip6(sixteen);
      SocketAddressesDecode(scope.ip6, family, port, zeros, sixteen, flow, rest);
    }
  }

  lemma SpelledFlow(scope: Scope, local: seq<Byte>, remote: seq<Byte>, f: Flow)
    requires SpellsEnds(scope, local, remote, f)
    ensures FlowOf(scope, local, remote, f.processId, f.connectionId) == Some(f)
  {
    SpelledDecodes(scope, local, f.localAddress, f.localPort);
    SpelledDecodes(scope, remote, f.remoteAddress, f.remotePort);
  }

  /** Whatever is seen of a connection in scope is about the target. */
  lemma InScopeIsCandidate(scope: Scope, f: Flow, kind: Kind, direction: Direction, at: Time)
    requires InScope(scope, f)
    ensures FlowInScope(scope, f) && Candidate(scope, TcpObservation(f, kind, direction, at))
  {
  }

  lemma MeaningOfParsedRequest(scope: Scope, flows: map<nat, Flow>, r: Record, request: TcpRequest, f: Flow)
    requires IsRequest(r.eventId) && TcpRequestOf(r.payload, r.header32) == Some(request) && FlowInScope(scope, f)
    requires FlowOf(scope, request.local, request.remote, r.processId, TcbName(scope, request.tcb)) == Some(f)
    ensures MeaningOf(scope, flows, r) ==
              Remember(request.tcb, f, if r.eventId == 1183 || r.eventId == 1184
                                       then Some(TcpObservation(f, TcpRst, Inbound, scope.timestamp(r.timestamp))) else None)
  {
  }

  lemma RequestMeans(scope: Scope, flows: map<nat, Flow>, r: Record, tcb: nat, f: Flow)
    requires IsRequestOf(scope, r, tcb, f) && InScope(scope, f)
    ensures !Ignored(r)
    ensures MeaningOf(scope, flows, r) ==
              Remember(tcb, f, if r.eventId == 1183 || r.eventId == 1184
                               then Some(TcpObservation(f, TcpRst, Inbound, scope.timestamp(r.timestamp))) else None)
  {
    var request: TcpRequest, rest: seq<Byte> :|
      && request.tcb == tcb && TcpRequestFits(request, r.header32) && SpellsEnds(scope, request.local, request.remote, f)
      && r.payload == TcpRequestLayout(request, r.header32, rest);
    TcpRequestInverts(request, r.header32, rest);
    SpelledFlow(scope, request.local, request.remote, f);
    InScopeIsCandidate(scope, f, OutboundSyn, Outbound, Zero);
    MeaningOfParsedRequest(scope, flows, r, request, f);
  }

  lemma SendMeans(scope: Scope, flows: map<nat, Flow>, r: Record, tcb: nat)
    requires IsSendOf(r, tcb) && tcb in flows
    ensures !Ignored(r)
    ensures MeaningOf(scope, flows, r) == Saw(TcpObservation(flows[tcb], OutboundSyn, Outbound, scope.timestamp(r.timestamp)))
  {
    var rest: seq<Byte> :| r.payload == Encode(tcb, Width(r.header32)) + rest;
    UintInverts(tcb, Width(r.header32), rest);
  }

  lemma MeaningOfParsedEvent(scope: Scope, flows: map<nat, Flow>, r: Record, event: EndpointEvent, f: Flow)
    requires r.eventId == 1033 && EndpointEventOf(r.payload, r.header32) == Some(event) && FlowInScope(scope, f)
    requires FlowOf(scope, event.local, event.remote, event.processId, if event.tcb != 0 then TcbName(scope, event.tcb) else "") == Some(f)
    ensures MeaningOf(scope, flows, r) == Saw(TcpObservation(f, HandshakeConfirmed, Inbound, scope.timestamp(r.timestamp)))
  {
  }

  lemma CompletionMeans(scope: Scope, flows: map<nat, Flow>, r: Record, f: Flow)
    requires IsCompletionOf(scope, r, f) && InScope(scope, f)
    ensures !Ignored(r)
    ensures MeaningOf(scope, flows, r) == Saw(TcpObservation(f, HandshakeConfirmed, Inbound, scope.timestamp(r.timestamp)))
  {
    var event: EndpointEvent, rest: seq<Byte> :|
      && EndpointEventFits(event, r.header32) && SpellsEnds(scope, event.local, event.remote, f)
      && f.processId == event.processId && f.connectionId == (if event.tcb != 0 then TcbName(scope, event.tcb) else "")
      && r.payload == EndpointEventLayout(event, r.header32, rest);
    EndpointEventInverts(event, r.header32, rest);
    SpelledFlow(scope, event.local, event.remote, f);
    InScopeIsCandidate(scope, f, OutboundSyn, Outbound, Zero);
    MeaningOfParsedEvent(scope, flows, r, event, f);
  }

  // ---- a capture without loss ----

  ghost predicate Lossless(scope: Scope, rs: seq<Record>) {
    AllBounded(scope, rs).eventsLost == 0 && AllBounded(scope, rs).parseErrors == 0
  }

  lemma {:induction false} LosslessPrefix(scope: Scope, rs: seq<Record>, n: nat)
    requires n <= |rs| && Lossless(scope, rs)
    ensures Lossless(scope, rs[..n])
  {
    if n < |rs| {
      var front := rs[..|rs| - 1];
      BoundedCounts(scope, AllBounded(scope, front), rs[|rs| - 1]);
      LosslessPrefix(scope, front, n);
      assert front[..n] == rs[..n];
    } else {
      assert rs[..n] == rs;
    }
  }

  /** Every event of it did what a consumer without caps does. */
  lemma StepIs(scope: Scope, rs: seq<Record>, n: nat)
    requires n < |rs| && Lossless(scope, rs)
    ensures AllBounded(scope, rs[..n + 1]) == Unbounded(scope, AllBounded(scope, rs[..n]), rs[n])
  {
    LosslessPrefix(scope, rs, n);
    LosslessPrefix(scope, rs, n + 1);
    assert rs[..n + 1][..n] == rs[..n];
    HandledAgrees(scope, AllBounded(scope, rs[..n]), rs[n]);
  }

  lemma LearnedGrows(scope: Scope, c: Consumer, r: Record, o: Observation)
    requires o in c.observations
    ensures o in Bounded(scope, c, r).observations
  {
  }

  lemma {:induction false} ObservationsStay(scope: Scope, rs: seq<Record>, n: nat, o: Observation)
    requires n <= |rs| && o in AllBounded(scope, rs[..n]).observations
    ensures o in AllBounded(scope, rs).observations
  {
    if n < |rs| {
      var front := rs[..|rs| - 1];
      assert front[..n] == rs[..n];
      ObservationsStay(scope, front, n, o);
      LearnedGrows(scope, AllBounded(scope, front), rs[|rs| - 1], o);
    } else {
      assert rs[..n] == rs;
    }
  }

  /** The event names this control block anew. */
  predicate Names(r: Record, tcb: nat) {
    r.tcpip && IsRequest(r.eventId) && var request := TcpRequestOf(r.payload, r.header32); request.Some? && request.value.tcb == tcb
  }

  lemma FlowKept(scope: Scope, c: Consumer, r: Record, tcb: nat)
    requires tcb in c.flows && !Names(r, tcb)
    ensures tcb in Unbounded(scope, c, r).flows && Unbounded(scope, c, r).flows[tcb] == c.flows[tcb]
  {
  }

  ghost predicate Knows(c: Consumer, tcb: nat, f: Flow) {
    tcb in c.flows && c.flows[tcb] == f
  }

  lemma StepKnows(scope: Scope, rs: seq<Record>, n: nat, tcb: nat, f: Flow)
    requires n < |rs| && Lossless(scope, rs) && Knows(AllBounded(scope, rs[..n]), tcb, f) && !Names(rs[n], tcb)
    ensures Knows(AllBounded(scope, rs[..n + 1]), tcb, f)
  {
    StepIs(scope, rs, n);
    FlowKept(scope, AllBounded(scope, rs[..n]), rs[n], tcb);
  }

  lemma {:induction false} FlowStays(scope: Scope, rs: seq<Record>, i: nat, j: nat, tcb: nat, f: Flow)
    requires i < j <= |rs| && Lossless(scope, rs) && Knows(AllBounded(scope, rs[..i + 1]), tcb, f)
    requires forall m :: i < m < j ==> !Names(rs[m], tcb)
    ensures Knows(AllBounded(scope, rs[..j]), tcb, f)
    decreases j
  {
    if j > i + 1 {
      FlowStays(scope, rs, i, j - 1, tcb, f);
      StepKnows(scope, rs, j - 1, tcb, f);
    }
  }

  // ---- what is kept of the connection ----

  /** The consumer's observation number n. */
  function Sighting(scope: Scope, o: Observation, n: nat): Observation {
    Normalized(scope.address, o.(sessionId := scope.sessionId, probeId := scope.probeId, correlationId := scope.correlationId,
                                 id := ObservationId(scope, n)))
  }

  lemma SawIsKept(scope: Scope, rs: seq<Record>, n: nat, o: Observation) returns (m: nat)
    requires n < |rs| && Lossless(scope, rs) && Candidate(scope, o) && !Ignored(rs[n])
    requires var meaning := MeaningOf(scope, AllBounded(scope, rs[..n]).flows, rs[n]);
             meaning == Saw(o) || (meaning.Remember? && meaning.seen == Some(o))
    ensures m > 0 && Sighting(scope, o, m) in AllBounded(scope, rs).observations
  {
    StepIs(scope, rs, n);
    m := |AllBounded(scope, rs[..n]).observations| + 1;
    ObservationsStay(scope, rs, n + 1, Sighting(scope, o, m));
  }

  lemma EmissionIsKept(scope: Scope, rs: seq<Record>, i: nat, j: nat, tcb: nat, f: Flow) returns (m: nat)
    requires i < j < |rs| && Lossless(scope, rs) && InScope(scope, f)
    requires IsRequestOf(scope, rs[i], tcb, f) && IsSendOf(rs[j], tcb) && forall n :: i < n < j ==> !Names(rs[n], tcb)
    ensures m > 0 && Sighting(scope, TcpObservation(f, OutboundSyn, Outbound, scope.timestamp(rs[j].timestamp)), m)
                     in AllBounded(scope, rs).observations
  {
    StepIs(scope, rs, i);
    RequestMeans(scope, AllBounded(scope, rs[..i]).flows, rs[i], tcb, f);
    FlowStays(scope, rs, i, j, tcb, f);
    SendMeans(scope, AllBounded(scope, rs[..j]).flows, rs[j], tcb);
    InScopeIsCandidate(scope, f, OutboundSyn, Outbound, scope.timestamp(rs[j].timestamp));
    m := SawIsKept(scope, rs, j, TcpObservation(f, OutboundSyn, Outbound, scope.timestamp(rs[j].timestamp)));
  }

  lemma CompletionIsKept(scope: Scope, rs: seq<Record>, k: nat, f: Flow) returns (m: nat)
    requires k < |rs| && Lossless(scope, rs) && InScope(scope, f) && IsCompletionOf(scope, rs[k], f)
    ensures m > 0 && Sighting(scope, TcpObservation(f, HandshakeConfirmed, Inbound, scope.timestamp(rs[k].timestamp)), m)
                     in AllBounded(scope, rs).observations
  {
    CompletionMeans(scope, AllBounded(scope, rs[..k]).flows, rs[k], f);
    InScopeIsCandidate(scope, f, HandshakeConfirmed, Inbound, scope.timestamp(rs[k].timestamp));
    m := SawIsKept(scope, rs, k, TcpObservation(f, HandshakeConfirmed, Inbound, scope.timestamp(rs[k].timestamp)));
  }

  lemma FailureIsKept(scope: Scope, rs: seq<Record>, k: nat, tcb: nat, f: Flow) returns (m: nat)
    requires k < |rs| && Lossless(scope, rs) && InScope(scope, f) && IsRequestOf(scope, rs[k], tcb, f) && FailedConnect(rs[k])
    ensures m > 0 && Sighting(scope, TcpObservation(f, TcpRst, Inbound, scope.timestamp(rs[k].timestamp)), m)
                     in AllBounded(scope, rs).observations
  {
    RequestMeans(scope, AllBounded(scope, rs[..k]).flows, rs[k], tcb, f);
    InScopeIsCandidate(scope, f, TcpRst, Inbound, scope.timestamp(rs[k].timestamp));
    m := SawIsKept(scope, rs, k, TcpObservation(f, TcpRst, Inbound, scope.timestamp(rs[k].timestamp)));
  }

  /** The kinds of answer that the events can show. */
  predicate FailedConnect(r: Record) {
    r.tcpip && (r.eventId == 1183 || r.eventId == 1184)
  }

  predicate Completed(r: Record) {
    r.tcpip && r.eventId == 1033
  }

  predicate Expected(rsts: bool, handshakes: bool, o: Observation) {
    !o.kind.InboundSynAck? && (o.kind.TcpRst? ==> rsts) && (o.kind.HandshakeConfirmed? ==> handshakes)
  }

  lemma KindOfSeen(scope: Scope, flows: map<nat, Flow>, r: Record, m: Meaning)
    requires m == MeaningOf(scope, flows, r) && r.tcpip
    ensures m.Saw? ==> Expected(FailedConnect(r), Completed(r), m.observation)
    ensures m.Remember? && m.seen.Some? ==> Expected(FailedConnect(r), Completed(r), m.seen.value)
  {
    if IsRequest(r.eventId) {
      KindOfRequested(scope, r, m);
    } else if r.eventId == 1422 {
      KindOfIcmp(scope, r, m);
    }
  }

  lemma KindOfRequested(scope: Scope, r: Record, m: Meaning)
    requires m == MeaningOfRequest(scope, r) && r.tcpip
    ensures !m.Saw? && (m.Remember? && m.seen.Some? ==> Expected(FailedConnect(r), Completed(r), m.seen.value))
  {
  }

  lemma KindOfIcmp(scope: Scope, r: Record, m: Meaning)
    requires m == MeaningOfIcmp(scope, r)
    ensures !m.Remember? && (m.Saw? ==> Expected(FailedConnect(r), Completed(r), m.observation))
  {
  }

  lemma KeptIsOf(scope: Scope, observations: seq<Observation>, o: Observation, x: Observation)
    requires x in Kept(scope, observations, o) && x !in observations
    ensures x.kind == o.kind
  {
  }

  lemma LearnedIsOf(scope: Scope, c: Consumer, m: Meaning, x: Observation)
    requires x in Learned(scope, c, m).observations && x !in c.observations
    ensures (m.Saw? && x.kind == m.observation.kind) || (m.Remember? && m.seen.Some? && x.kind == m.seen.value.kind)
  {
    if m.Saw? {
      KeptIsOf(scope, c.observations, m.observation, x);
    } else if m.Remember? && m.seen.Some? {
      KeptIsOf(scope, c.observations, m.seen.value, x);
    }
  }

  lemma BoundedLearns(scope: Scope, c: Consumer, r: Record)
    ensures Bounded(scope, c, r).observations == c.observations
            || (r.tcpip && Bounded(scope, c, r).observations == Learned(scope, c, MeaningOf(scope, c.flows, r)).observations)
  {
  }

  lemma KindOfMeaning(scope: Scope, c: Consumer, r: Record, o: Observation)
    requires o in Bounded(scope, c, r).observations && o !in c.observations
    ensures Expected(FailedConnect(r), Completed(r), o)
  {
    BoundedLearns(scope, c, r);
    LearnedIsOf(scope, c, MeaningOf(scope, c.flows, r), o);
    KindOfSeen(scope, c.flows, r, MeaningOf(scope, c.flows, r));
  }

  lemma {:induction false} KindsSeen(scope: Scope, rs: seq<Record>, o: Observation)
    requires o in AllBounded(scope, rs).observations
    ensures Expected(exists m :: 0 <= m < |rs| && FailedConnect(rs[m]), exists m :: 0 <= m < |rs| && Completed(rs[m]), o)
  {
    if rs != [] {
      var n := |rs| - 1;
      if o in AllBounded(scope, rs[..n]).observations {
        KindsSeen(scope, rs[..n], o);
        assert forall m :: 0 <= m < n ==> rs[..n][m] == rs[m];
      } else {
        KindOfMeaning(scope, AllBounded(scope, rs[..n]), rs[n], o);
      }
    }
  }

  // ---- the probe's own connection ----

  /** Spelling the address twice changes nothing, and comparison looks through the spelling. */
  predicate Stable(env: Env, scope: Scope, x: string) {
    env.canonical(x) == scope.address(x) == env.canonical(scope.address(x)) && env.address(scope.address(x)) == env.address(x)
  }

  predicate StableEnds(env: Env, scope: Scope, f: Flow) {
    scope.address("") == "" && Stable(env, scope, "") && Stable(env, scope, f.localAddress) && Stable(env, scope, f.remoteAddress)
  }

  predicate InWindow(p: Probe, at: Time) {
    at.Zero? || ((p.start.Zero? || p.start.t <= at.t) && (p.end.Zero? || at.t <= p.end.t))
  }

  /** The connection that the probe made, or would make. */
  predicate OwnConnection(env: Env, p: Probe, tuple: Tuple, f: Flow) {
    && (p.processId == 0 || f.processId == 0 || f.processId == p.processId)
    && f.localPort != 0 && (tuple.localPort == 0 || tuple.localPort == f.localPort)
    && (tuple.localAddress == "" || env.address(tuple.localAddress) == env.address(f.localAddress))
    && (p.target.port == 0 || p.target.port == f.remotePort)
    && env.address(f.remoteAddress) ==
         if tuple.remoteAddress != "" then tuple.remoteAddress
         else if p.target.selected.Some? then env.address(p.target.selected.value)
         else env.address(p.target.literalIp)
  }

  predicate SameIdentity(p: Probe, scope: Scope) {
    p.sessionId == scope.sessionId && p.probeId == scope.probeId && p.correlationId == scope.correlationId
  }

  lemma SightingIsRelevant(env: Env, p: Probe, tuple: Tuple, scope: Scope, f: Flow, kind: Kind, at: Time, n: nat)
    requires StableEnds(env, scope, f) && SameIdentity(p, scope) && OwnConnection(env, p, tuple, f) && InWindow(p, at)
    requires p.probeType.TcpProbe?
    requires kind.OutboundSyn? || kind.HandshakeConfirmed? || kind.TcpRst?
    ensures var o := Sighting(scope, TcpObservation(f, kind, if kind.OutboundSyn? then Outbound else Inbound, at), n);
            Normalized(env.canonical, o) == o && Relevant(env, p, tuple, o)
  {
  }

  lemma IdentifiedKeeps(correlationId: string, s: seq<Observation>, o: Observation)
    requires o in s && o.id != ""
    ensures o in Identified(correlationId, s)
  {
    var i :| 0 <= i < |s| && s[i] == o;
    assert Identified(correlationId, s)[i] == o;
  }

  lemma ChosenKeeps(env: Env, p: Probe, tuple: Tuple, s: seq<Observation>, o: Observation)
    requires o in s && Normalized(env.canonical, o) == o && Relevant(env, p, tuple, o)
    ensures o in Chosen(env, p, tuple, s)
  {
    var k :| 0 <= k < |s| && s[k] == o;
    assert NormalizedAll(env, s)[k] == o;
  }

  /** What is relevant stays among the observations that are looked at. */
  lemma RetainedIn(env: Env, p: Probe, tuple: Tuple, s: seq<Observation>, o: Observation)
    requires o in s && o.id != "" && Normalized(env.canonical, o) == o && Relevant(env, p, tuple, o)
    ensures o in RelevantObservations(env, p, tuple, s)
  {
    ChosenKeeps(env, p, tuple, s, o);
    SameElements(Chosen(env, p, tuple, s), SortBy(ObservationLe, Chosen(env, p, tuple, s)));
    IdentifiedKeeps(p.correlationId, SortBy(ObservationLe, Chosen(env, p, tuple, s)), o);
  }

  lemma PairOfSightings(env: Env, scope: Scope, f: Flow, g: Flow, kind: Kind, t: Time, u: Time, m: nat, n: nat, tuple: Tuple, s: seq<Observation>)
    requires StableEnds(env, scope, f) && StableEnds(env, scope, g) && SameConnection(env, f, g) && (kind.HandshakeConfirmed? || kind.TcpRst?)
    requires tuple.localPort == 0 || tuple.localPort == f.localPort
    requires Sighting(scope, TcpObservation(f, OutboundSyn, Outbound, t), m) in s
    ensures TcpAnswered(env, s, tuple, Sighting(scope, TcpObservation(g, kind, Inbound, u), n))
  {
    var e, r := Sighting(scope, TcpObservation(f, OutboundSyn, Outbound, t), m), Sighting(scope, TcpObservation(g, kind, Inbound, u), n);
    assert IsTcpEmission(tuple, e) && IsTcpAnswer(r) && TcpPair(env, e, r);
  }

  lemma EventIdNotBlank(scope: Scope, o: Observation, n: nat)
    ensures Sighting(scope, o, n).id != ""
  {
  }

  lemma SightingIsRetained(env: Env, p: Probe, tuple: Tuple, s: seq<Observation>, scope: Scope, f: Flow, kind: Kind, at: Time, n: nat)
    requires p.probeType.TcpProbe? && StableEnds(env, scope, f) && SameIdentity(p, scope)
    requires OwnConnection(env, p, tuple, f) && InWindow(p, at) && (kind.OutboundSyn? || kind.HandshakeConfirmed? || kind.TcpRst?)
    requires Sighting(scope, TcpObservation(f, kind, if kind.OutboundSyn? then Outbound else Inbound, at), n) in s
    ensures Sighting(scope, TcpObservation(f, kind, if kind.OutboundSyn? then Outbound else Inbound, at), n) in RelevantObservations(env, p, tuple, s)
  {
    var o := TcpObservation(f, kind, if kind.OutboundSyn? then Outbound else Inbound, at);
    SightingIsRelevant(env, p, tuple, scope, f, kind, at, n);
    EventIdNotBlank(scope, o, n);
    RetainedIn(env, p, tuple, s, Sighting(scope, o, n));
  }

  lemma AnsweredIsPositive(env: Env, s: seq<Observation>, tuple: Tuple, r: Observation)
    requires r in s && TcpAnswered(env, s, tuple, r)
    ensures Positive(TcpFlow(env, s, tuple).outcome) && TcpFlow(env, s, tuple).emission.EmissionObserved?
  {
    TcpOutcomeIff(env, s, tuple);
    TcpFlowCases(env, s, tuple);
  }

  lemma TcpEvidence(env: Env, input: Input, s: seq<Observation>)
    requires StatusOf(input).Available? && input.probe.probeType.TcpProbe?
    requires s == RelevantObservations(env, input.probe, input.tuple, input.capture.observations)
    requires TcpFlow(env, s, input.tuple).emission.EmissionObserved?
    ensures EvidenceOf(env, input) == TcpFlow(env, s, input.tuple)
  {
    EvidenceCases(env, input);
  }

  /** What was kept of one connection's attempt and outcome answers the probe. */
  lemma AnswerIsSeen(env: Env, p: Probe, tuple: Tuple, observations: seq<Observation>, scope: Scope, f: Flow, g: Flow, kind: Kind,
                     t: Time, u: Time, m: nat, n: nat)
    requires p.probeType.TcpProbe? && StableEnds(env, scope, f) && StableEnds(env, scope, g)
    requires SameIdentity(p, scope) && SameConnection(env, f, g) && (kind.HandshakeConfirmed? || kind.TcpRst?)
    requires OwnConnection(env, p, tuple, f) && InWindow(p, t) && OwnConnection(env, p, tuple, g) && InWindow(p, u)
    requires Sighting(scope, TcpObservation(f, OutboundSyn, Outbound, t), m) in observations
    requires Sighting(scope, TcpObservation(g, kind, Inbound, u), n) in observations
    ensures var flow := TcpFlow(env, RelevantObservations(env, p, tuple, observations), tuple);
            Positive(flow.outcome) && flow.emission.EmissionObserved?
  {
    var s := RelevantObservations(env, p, tuple, observations);
    SightingIsRetained(env, p, tuple, observations, scope, f, OutboundSyn, t, m);
    SightingIsRetained(env, p, tuple, observations, scope, g, kind, u, n);
    PairOfSightings(env, scope, f, g, kind, t, u, m, n, tuple, s);
    AnsweredIsPositive(env, s, tuple, Sighting(scope, TcpObservation(g, kind, Inbound, u), n));
  }

  /** The kind of a retained observation is that of a captured one. */
  lemma OnlyExpected(env: Env, p: Probe, tuple: Tuple, observations: seq<Observation>, scope: Scope, rs: seq<Record>)
    requires observations == AllBounded(scope, rs).observations
    requires Positive(TcpFlow(env, RelevantObservations(env, p, tuple, observations), tuple).outcome)
    ensures var flow := TcpFlow(env, RelevantObservations(env, p, tuple, observations), tuple);
            && flow.certainty.ConfirmedResponse? && (flow.outcome == HandshakeSeen || flow.outcome == RstReceived)
            && (flow.outcome == RstReceived ==> exists m :: 0 <= m < |rs| && FailedConnect(rs[m]))
            && (flow.outcome == HandshakeSeen ==> exists m :: 0 <= m < |rs| && Completed(rs[m]))
  {
    var s := RelevantObservations(env, p, tuple, observations);
    var i := TcpOutcomeIsEarliest(env, s, tuple);
    var k := RetainedFrom(env, p, tuple, observations, i);
    assert s[i].kind == observations[k].kind;
    KindsSeen(scope, rs, observations[k]);
  }

  /** The request and, with nothing in between that names its control block anew, a send of the probe's connection. */
  ghost predicate Attempted(env: Env, p: Probe, tuple: Tuple, scope: Scope, rs: seq<Record>, i: nat, j: nat, tcb: nat, f: Flow) {
    && i < j < |rs| && IsRequestOf(scope, rs[i], tcb, f) && IsSendOf(rs[j], tcb) && (forall n :: i < n < j ==> !Names(rs[n], tcb))
    && OfProbe(env, p, tuple, scope, f, rs[j])
  }

  /** The event is about the probe's connection, in time. */
  ghost predicate OfProbe(env: Env, p: Probe, tuple: Tuple, scope: Scope, f: Flow, r: Record) {
    InScope(scope, f) && StableEnds(env, scope, f) && OwnConnection(env, p, tuple, f) && InWindow(p, scope.timestamp(r.timestamp))
  }

  /** The probe and the capture of it belong together, and nothing of the capture was lost. */
  ghost predicate CapturedWell(input: Input, scope: Scope, rs: seq<Record>) {
    StatusOf(input).Available? && Reports(scope, rs, input.capture) && input.probe.probeType.TcpProbe? && SameIdentity(input.probe, scope)
  }

  lemma SeenIsConcluded(env: Env, input: Input, scope: Scope, rs: seq<Record>, i: nat, j: nat, tcb: nat, f: Flow, g: Flow, kind: Kind, u: Time, n: nat)
    requires CapturedWell(input, scope, rs) && Lossless(scope, rs) && Attempted(env, input.probe, input.tuple, scope, rs, i, j, tcb, f)
    requires (kind.HandshakeConfirmed? || kind.TcpRst?) && SameConnection(env, f, g) && StableEnds(env, scope, g)
    requires OwnConnection(env, input.probe, input.tuple, g) && InWindow(input.probe, u)
    requires Sighting(scope, TcpObservation(g, kind, Inbound, u), n) in AllBounded(scope, rs).observations
    ensures ConcludedFrom(EvidenceOf(env, input), rs)
  {
    var observations := input.capture.observations;
    var m := EmissionIsKept(scope, rs, i, j, tcb, f);
    AnswerIsSeen(env, input.probe, input.tuple, observations, scope, f, g, kind, scope.timestamp(rs[j].timestamp), u, m, n);
    OnlyExpected(env, input.probe, input.tuple, observations, scope, rs);
    TcpEvidence(env, input, RelevantObservations(env, input.probe, input.tuple, observations));
  }

  /** A confirmed answer, of a kind that the events can show. */
  ghost predicate ConcludedFrom(e: Evidence, rs: seq<Record>) {
    && e.emission.EmissionObserved? && e.certainty.ConfirmedResponse? && (e.outcome == HandshakeSeen || e.outcome == RstReceived)
    && (e.outcome == RstReceived ==> exists m :: 0 <= m < |rs| && FailedConnect(rs[m]))
    && (e.outcome == HandshakeSeen ==> exists m :: 0 <= m < |rs| && Completed(rs[m]))
  }

  lemma WellIsLossless(input: Input, scope: Scope, rs: seq<Record>)
    requires CapturedWell(input, scope, rs)
    ensures Lossless(scope, rs) && input.capture.observations == AllBounded(scope, rs).observations
  {
    AvailableIff(input);
  }

  /**
   End to end: in a capture without loss that holds, in any company, the request, a send and the
   completion of the probe's connection, the probe is answered - by the handshake, unless some
   connection attempt failed too.
   */
  lemma HandshakeIsSeen(env: Env, input: Input, scope: Scope, rs: seq<Record>, i: nat, j: nat, k: nat, tcb: nat, f: Flow, g: Flow)
    requires CapturedWell(input, scope, rs) && Attempted(env, input.probe, input.tuple, scope, rs, i, j, tcb, f) && SameConnection(env, f, g)
    requires k < |rs| && IsCompletionOf(scope, rs[k], g) && OfProbe(env, input.probe, input.tuple, scope, g, rs[k])
    ensures ConcludedFrom(EvidenceOf(env, input), rs)
    ensures (forall n :: 0 <= n < |rs| ==> !FailedConnect(rs[n])) ==> EvidenceOf(env, input).outcome == HandshakeSeen
  {
    WellIsLossless(input, scope, rs);
    var n := CompletionIsKept(scope, rs, k, g);
    SeenIsConcluded(env, input, scope, rs, i, j, tcb, f, g, HandshakeConfirmed, scope.timestamp(rs[k].timestamp), n);
  }

  /** Likewise for an attempt that failed: a reset, unless some connection was completed too. */
  lemma FailureIsSeen(env: Env, input: Input, scope: Scope, rs: seq<Record>, i: nat, j: nat, k: nat, tcb: nat, f: Flow, g: Flow)
    requires CapturedWell(input, scope, rs) && Attempted(env, input.probe, input.tuple, scope, rs, i, j, tcb, f) && SameConnection(env, f, g)
    requires k < |rs| && IsRequestOf(scope, rs[k], tcb, g) && FailedConnect(rs[k]) && OfProbe(env, input.probe, input.tuple, scope, g, rs[k])
    ensures ConcludedFrom(EvidenceOf(env, input), rs)
    ensures (forall n :: 0 <= n < |rs| ==> !Completed(rs[n])) ==> EvidenceOf(env, input).outcome == RstReceived
  {
    WellIsLossless(input, scope, rs);
    var n := FailureIsKept(scope, rs, k, tcb, g);
    SeenIsConcluded(env, input, scope, rs, i, j, tcb, f, g, TcpRst, scope.timestamp(rs[k].timestamp), n);
  }

  // ---- nothing foreign is looked at ----

  /** The local end as an observation tells it, or as its direction does. */
  function LocalPortOf(o: Observation): nat {
    if o.localPort != 0 then o.localPort else if o.direction.Inbound? then o.destinationPort else o.sourcePort
  }

  function LocalAddressOf(o: Observation): string {
    if o.localAddress != "" then o.localAddress else if o.direction.Inbound? then o.destinationAddress else o.sourceAddress
  }

  /** The far end that the probe is known, or else chosen, or else asked to have. */
  function RemoteOf(env: Env, p: Probe, tuple: Tuple): string {
    if tuple.remoteAddress != "" then tuple.remoteAddress
    else if p.target.selected.Some? then env.address(p.target.selected.value)
    else env.address(p.target.literalIp)
  }

  /**
   What is retained for a TCP probe is of no other session, probe, process or time; it is on the
   probe's local port, and one of its ends is the requested port - the far end, for an attempt.
   */
  lemma RetainedIsOfProbe(env: Env, p: Probe, tuple: Tuple, s: seq<Observation>, i: nat)
    requires p.probeType.TcpProbe? && i < |RelevantObservations(env, p, tuple, s)|
    ensures var o := RelevantObservations(env, p, tuple, s)[i];
            && (o.sessionId == "" || p.sessionId == "" || o.sessionId == p.sessionId)
            && (o.probeId == "" || p.probeId == "" || o.probeId == p.probeId)
            && (o.correlationId == "" || p.correlationId == "" || o.correlationId == p.correlationId)
            && (o.processId == 0 || p.processId == 0 || o.processId == p.processId)
            && InWindow(p, o.observedAt)
            && (tuple.localPort == 0 || LocalPortOf(o) == tuple.localPort)
            && (p.target.port == 0 || o.kind.OutboundEcho? || o.destinationPort == p.target.port
                || (o.sourcePort == p.target.port && !o.kind.OutboundSyn? && !o.direction.Outbound?))
  {
    var k := RetainedFrom(env, p, tuple, s, i);
  }

  /** ... and its ends are the probe's, as far as these are known. */
  lemma RetainedIsBetweenEnds(env: Env, p: Probe, tuple: Tuple, s: seq<Observation>, i: nat)
    requires p.probeType.TcpProbe? && i < |RelevantObservations(env, p, tuple, s)|
    ensures var o := Normalized(env.canonical, RelevantObservations(env, p, tuple, s)[i]);
            && (tuple.localAddress == "" || env.address(LocalAddressOf(o)) == env.address(tuple.localAddress))
            && (RemoteOf(env, p, tuple) == "" || IsAddress(env, o.sourceAddress, RemoteOf(env, p, tuple))
                || IsAddress(env, o.destinationAddress, RemoteOf(env, p, tuple)))
  {
    var k := RetainedFrom(env, p, tuple, s, i);
  }

  predicate IsAddress(env: Env, a: string, remote: string) {
    env.address(a) == remote || env.matches(a)
  }

  /** Only what has the target's address, at an end or in a quoted packet, is retained for a path probe. */
  lemma RetainedIsOnPath(env: Env, p: Probe, tuple: Tuple, s: seq<Observation>, i: nat)
    requires p.probeType.PathProbe? && i < |RelevantObservations(env, p, tuple, s)| && env.address(p.target.literalIp) != ""
    ensures var o := RelevantObservations(env, p, tuple, s)[i];
            InWindow(p, o.observedAt) &&
            exists a :: a in [o.sourceAddress, o.destinationAddress, o.quotedSourceAddress, o.quotedDestinationAddress]
                        && (env.address(a) == env.address(p.target.literalIp) || env.matches(a))
  {
    var o := RelevantObservations(env, p, tuple, s)[i];
    var k := RetainedFrom(env, p, tuple, s, i);
    var ends := [o.sourceAddress, o.destinationAddress, o.quotedSourceAddress, o.quotedDestinationAddress];
    assert ends[0] in ends && ends[1] in ends && ends[2] in ends && ends[3] in ends;
  }

  // ---- path probes ----

  /** An echo reply carries the identifier and the sequence of its request. */
  predicate RepliesTo(e: Observation, r: Observation) {
    && r.kind.InboundEcho? && r.icmpIdentifier == e.icmpIdentifier && r.icmpSequence == e.icmpSequence
    && r.quotedIcmpIdentifier == 0 && r.quotedIcmpSequence == 0 && r.quotedDestinationAddress == "" && r.quotedDestinationPort == 0
  }

  /** An error quotes its request. */
  predicate Quotes(e: Observation, r: Observation) {
    && (r.kind.TimeExceeded? || r.kind.Unreachable?) && r.icmpIdentifier == 0 && r.icmpSequence == 0
    && r.quotedIcmpIdentifier == e.icmpIdentifier && r.quotedIcmpSequence == e.icmpSequence
    && r.quotedDestinationAddress == e.destinationAddress && r.quotedDestinationPort == e.destinationPort
  }

  /** The answer is to this request: it replies to it or quotes it, and carries nothing that says otherwise. */
  predicate CausedBy(e: Observation, r: Observation) {
    && (RepliesTo(e, r) || Quotes(e, r))
    && (r.correlationId == "" || r.correlationId == e.correlationId)
    && (r.probeTtl == 0 || r.probeTtl == e.probeTtl) && (r.probeAttempt == 0 || r.probeAttempt == e.probeAttempt)
  }

  /** They share an identifier, a sequence or a TTL. */
  predicate SharesKey(e: Observation, r: Observation) {
    e.icmpIdentifier != 0 || e.icmpSequence != 0 || r.probeTtl != 0
  }

  /** Another request, with something that tells it from the one that caused the answer. */
  predicate ToldApart(env: Env, e: Observation, r: Observation, d: Observation) {
    || (e.icmpIdentifier != 0 && d.icmpIdentifier != 0 && e.icmpIdentifier != d.icmpIdentifier)
    || (e.icmpSequence != 0 && d.icmpSequence != 0 && e.icmpSequence != d.icmpSequence)
    || (r.probeTtl != 0 && d.probeTtl != 0 && e.probeTtl != d.probeTtl)
    || (r.probeAttempt != 0 && d.probeAttempt != 0 && e.probeAttempt != d.probeAttempt)
    || (r.correlationId != "" && d.correlationId != "" && e.correlationId != d.correlationId)
    || (Quotes(e, r) && e.destinationAddress != "" && d.destinationAddress != "" && env.address(e.destinationAddress) != env.address(d.destinationAddress))
    || (Quotes(e, r) && e.destinationPort != 0 && d.destinationPort != 0 && e.destinationPort != d.destinationPort)
  }

  ghost predicate OthersToldApart(env: Env, s: seq<Observation>, e: Observation, r: Observation) {
    forall d :: d in s && d.kind.OutboundEcho? && d != e ==> ToldApart(env, e, r, d)
  }

  lemma OwnPair(env: Env, e: Observation, r: Observation, n: nat, s: seq<Observation>)
    requires CausedBy(e, r) && (SharesKey(e, r) || r.probeAttempt != 0)
    ensures PathPair(env, e, r, n, s)
  {
  }

  lemma NoForeignPair(env: Env, e: Observation, r: Observation, d: Observation, n: nat, s: seq<Observation>)
    requires CausedBy(e, r) && ToldApart(env, e, r, d)
    ensures !PathPair(env, d, r, n, s)
  {
  }

  lemma PairsWithOwn(env: Env, s: seq<Observation>, e: Observation, r: Observation, d: Observation, n: nat)
    requires CausedBy(e, r) && SharesKey(e, r) && OthersToldApart(env, s, e, r) && d in s && d.kind.OutboundEcho?
    ensures PathPair(env, d, r, n, s) <==> d == e
  {
    if d == e {
      OwnPair(env, e, r, n, s);
    } else {
      NoForeignPair(env, e, r, d, n, s);
    }
  }

  lemma EmissionsAre(s: seq<Observation>, d: Observation)
    ensures d in PathEmissions(s) <==> d in s && d.kind.OutboundEcho?
  {
  }

  lemma OwnIsAnswered(env: Env, s: seq<Observation>, e: Observation, r: Observation)
    requires e.kind.OutboundEcho? && CausedBy(e, r) && SharesKey(e, r) && OthersToldApart(env, s, e, r)
    ensures PathAnswered(env, s, r) <==> e in s
  {
    forall d | d in s && d.kind.OutboundEcho? ensures PathPair(env, d, r, |PathEmissions(s)|, s) <==> d == e {
      PairsWithOwn(env, s, e, r, d, |PathEmissions(s)|);
    }
    CauseIsKey(e, r);
  }

  lemma OnlyOwnAnswers(env: Env, s: seq<Observation>, e: Observation, r: Observation)
    requires e.kind.OutboundEcho? && CausedBy(e, r) && SharesKey(e, r) && OthersToldApart(env, s, e, r)
    ensures PathAnswered(env, s, r) <==> e in s
    ensures e in s ==> var k := Mate(PathEmissions(s), r, PathPairing(env, |PathEmissions(s)|, s));
                       k < |PathEmissions(s)| && PathEmissions(s)[k] == e
  {
    OwnIsAnswered(env, s, e, r);
    if e in s {
      var emissions := PathEmissions(s);
      var pair := PathPairing(env, |emissions|, s);
      PathAnswersAre(env, s, r);
      var d := emissions[Mate(emissions, r, pair)];
      EmissionsAre(s, d);
      assert pair(d, r);
      PairsWithOwn(env, s, e, r, d, |emissions|);
    }
  }

  lemma CauseIsKey(e: Observation, r: Observation)
    requires CausedBy(e, r) && SharesKey(e, r)
    ensures Keyed(r) && IsPathAnswer(r)
  {
  }

  /** What is concluded from one answer. */
  predicate SaysKind(f: Evidence, kind: Kind) {
    match kind
    case InboundEcho => f.outcome == EchoReplyReceived && f.certainty.ConfirmedResponse?
    case TimeExceeded => f.outcome == TimeExceededReceived && f.certainty.ObservedResponder?
    case _ => f.outcome == UnreachableReceived && f.certainty.ObservedResponder?
  }

  ghost predicate OneAnswer(s: seq<Observation>, r: Observation) {
    r in s && forall o :: o in s && IsPathAnswer(o) ==> o == r
  }

  lemma FirstOf(s: seq<Observation>, r: Observation) returns (i: nat)
    requires r in s
    ensures i < |s| && s[i] == r && forall j :: 0 <= j < i ==> s[j] != r
  {
    i := 0;
    while s[i] != r
      invariant i < |s| && r in s[i..] && forall j :: 0 <= j < i ==> s[j] != r
      decreases |s| - i
    {
      assert s[i..] == [s[i]] + s[i + 1..];
      i := i + 1;
    }
  }

  lemma AnswerSaysKind(env: Env, s: seq<Observation>, r: Observation)
    requires OneAnswer(s, r) && PathAnswered(env, s, r) && Keyed(r)
    ensures SaysKind(PathFlow(env, s), r.kind) && Positive(PathFlow(env, s).outcome)
  {
    var i := FirstOf(s, r);
    assert EarliestPathAnswer(env, s, i);
    PathOutcomeIff(env, s, i);
    CertaintyFollows(env, s);
  }

  lemma CertaintyFollows(env: Env, s: seq<Observation>)
    requires Positive(PathFlow(env, s).outcome)
    ensures PathFlow(env, s).certainty.ConfirmedResponse? || PathFlow(env, s).certainty.ObservedResponder?
    ensures PathFlow(env, s).matched == UniqueOf(PairIds(s, PathEmissions(s), IsPathAnswer, PathPairing(env, |PathEmissions(s)|, s)))
  {
  }

  lemma MatchedAreTwo(env: Env, s: seq<Observation>, e: Observation, r: Observation, id: string)
    requires e in s && e.kind.OutboundEcho? && CausedBy(e, r) && SharesKey(e, r) && OthersToldApart(env, s, e, r) && OneAnswer(s, r)
    requires Positive(PathFlow(env, s).outcome)
    ensures id in PathFlow(env, s).matched <==> id == e.id || id == r.id
  {
    var emissions := PathEmissions(s);
    var pair := PathPairing(env, |emissions|, s);
    OnlyOwnAnswers(env, s, e, r);
    PathAnswersAre(env, s, r);
    CertaintyFollows(env, s);
    MatchedFrom(s, emissions, IsPathAnswer, pair, PathFlow(env, s).matched);
    assert NamesPair(s, emissions, IsPathAnswer, pair, e.id) && NamesPair(s, emissions, IsPathAnswer, pair, r.id);
  }

  /** Among any number of path requests that something tells apart, a reply or an error is attributed to its own. */
  lemma ReplyIsAttributed(env: Env, s: seq<Observation>, e: Observation, r: Observation, id: string)
    requires e in s && e.kind.OutboundEcho? && CausedBy(e, r) && SharesKey(e, r) && OthersToldApart(env, s, e, r) && OneAnswer(s, r)
    ensures SaysKind(PathFlow(env, s), r.kind)
    ensures id in PathFlow(env, s).matched <==> id == e.id || id == r.id
  {
    OnlyOwnAnswers(env, s, e, r);
    CauseIsKey(e, r);
    AnswerSaysKind(env, s, r);
    MatchedAreTwo(env, s, e, r, id);
  }

  /** ... and to none when its own was not seen. */
  lemma StrayReplyIsIgnored(env: Env, s: seq<Observation>, e: Observation, r: Observation)
    requires e !in s && e.kind.OutboundEcho? && CausedBy(e, r) && SharesKey(e, r) && OthersToldApart(env, s, e, r) && OneAnswer(s, r)
    ensures !Positive(PathFlow(env, s).outcome) && PathFlow(env, s).matched == []
  {
    OnlyOwnAnswers(env, s, e, r);
    PathUnansweredIff(env, s);
  }
}
