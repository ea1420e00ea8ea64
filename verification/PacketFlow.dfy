/**
 Correlating a probe with the packets seen around it (internal/packet/packet.go:102-241, 292-713):
 which observations belong to the probe, in which order they are looked at, which of them answer
 which, and what may be concluded.
 */
module PacketFlows {
  import opened Decimal
  import opened EtwCaptures
  import opened Lists
  import opened Options
  import opened Orders
  import opened Packets

  datatype ProbeType = TcpProbe | PathProbe | OtherProbe

  datatype Target = Target(literalIp: string, selected: Option<string>, identity: string, port: nat)

  /** The probe: its identity, process and window, and the target it was aimed at. */
  datatype Probe = Probe(sessionId: string, probeId: string, correlationId: string, probeType: ProbeType, processId: nat,
                         start: Time, end: Time, target: Target)

  /** The endpoints of the probe's own TCP connection, where it reported one. */
  datatype Tuple = Tuple(localAddress: string, localPort: nat, remoteAddress: string, remotePort: nat)

  /** What comes from other packages: two spellings of an address, whether the target has an address, whether a string is one. */
  datatype Env = Env(canonical: string -> string, address: string -> string, matches: string -> bool, isAddress: string -> bool)

  datatype Failure = NoFailure | InsufficientPrivilege | NotSupported | OtherFailure

  datatype Input = Input(probe: Probe, tuple: Tuple, passed: bool, started: bool, capture: CaptureResult,
                         startError: Failure, stopError: Failure, cancelled: bool)

  datatype Status = Available | StatusUnsupported | StatusPrivilege | StatusPartial | StatusError | StatusCancelled

  datatype Emission = EmissionUnknown | EmissionObserved | EmissionNotObserved

  datatype Outcome =
    | CaptureUnavailable | OutcomeCancelled | ProbeNotEmitted | NoMatchingResponse
    | SynAckReceived | HandshakeSeen | RstReceived | EchoReplyReceived | TimeExceededReceived | UnreachableReceived

  datatype Certainty = Unobservable | ConfirmedResponse | ObservedResponder

  datatype Evidence = Evidence(status: Status, emission: Emission, outcome: Outcome, certainty: Certainty, method_: string,
                       matched: seq<string>, observations: seq<Observation>)

  predicate Positive(o: Outcome) {
    !o.CaptureUnavailable? && !o.OutcomeCancelled? && !o.ProbeNotEmitted? && !o.NoMatchingResponse?
  }

  // ---- availability ----

  /** `captureStatus`. */
  function StatusOf(input: Input): Status {
    if input.cancelled || input.capture.cancelled then StatusCancelled
    else if input.startError.InsufficientPrivilege? then StatusPrivilege
    else if input.startError.NotSupported? then StatusUnsupported
    else if !input.startError.NoFailure? then StatusError
    else if input.stopError.InsufficientPrivilege? then StatusPrivilege
    else if !input.stopError.NoFailure? then StatusError
    else if input.capture.error != "" then StatusError
    else if input.capture.eventsLost != 0 then StatusPartial
    else if !input.capture.complete then StatusError
    else Available
  }

  // ---- which observations belong to the probe ----

  predicate NoConflict(a: string, b: string) {
    a == "" || b == "" || a == b
  }

  predicate IdentityMatches(o: Observation, p: Probe) {
    NoConflict(o.sessionId, p.sessionId) && NoConflict(o.probeId, p.probeId) && NoConflict(o.correlationId, p.correlationId)
  }

  predicate ProcessMatches(o: Observation, processId: nat) {
    processId == 0 || o.processId == 0 || o.processId == processId
  }

  predicate WithinWindow(at: Time, start: Time, end: Time) {
    at.Zero? || ((start.Zero? || start.t <= at.t) && (end.Zero? || at.t <= end.t))
  }

  /** `tcpTargetMatches`. */
  predicate TcpTargetMatches(env: Env, o: Observation, target: Target, tuple: Tuple) {
    var remote := if tuple.remoteAddress != "" then tuple.remoteAddress
                  else if target.selected.Some? then env.address(target.selected.value)
                  else env.address(target.literalIp);
    var localPort := if o.localPort != 0 then o.localPort else if o.direction.Inbound? then o.destinationPort else o.sourcePort;
    var localAddress := if o.localAddress != "" then o.localAddress else if o.direction.Inbound? then o.destinationAddress else o.sourceAddress;
    && (tuple.localPort != 0 ==> localPort == tuple.localPort)
    && (tuple.localAddress != "" ==> env.address(localAddress) == env.address(tuple.localAddress))
    && (target.port != 0 && !o.kind.OutboundEcho? ==>
          if o.kind.OutboundSyn? || o.direction.Outbound? then o.destinationPort == target.port
          else o.sourcePort == target.port || o.destinationPort == target.port)
    && (remote != "" ==> env.address(o.sourceAddress) == remote || env.matches(o.sourceAddress)
                         || env.address(o.destinationAddress) == remote || env.matches(o.destinationAddress))
  }

  /** `pathTargetMatches`. */
  predicate PathTargetMatches(env: Env, o: Observation, target: Target) {
    var literal := env.address(target.literalIp);
    var selected := if literal == "" && target.selected.Some? then env.address(target.selected.value) else literal;
    var expected := if selected == "" && target.literalIp == "" then env.address(target.identity) else selected;
    expected != "" &&
    (env.address(o.sourceAddress) == expected || env.matches(o.sourceAddress)
     || env.address(o.destinationAddress) == expected || env.matches(o.destinationAddress)
     || env.address(o.quotedSourceAddress) == expected || env.matches(o.quotedSourceAddress)
     || env.address(o.quotedDestinationAddress) == expected || env.matches(o.quotedDestinationAddress))
  }

  /** The filter of `relevantObservations`, on a normalized observation. */
  predicate Relevant(env: Env, p: Probe, tuple: Tuple, o: Observation) {
    IdentityMatches(o, p) && ProcessMatches(o, p.processId) && WithinWindow(o.observedAt, p.start, p.end)
    && if p.probeType.TcpProbe? then TcpTargetMatches(env, Normalized(env.canonical, o), p.target, tuple) else PathTargetMatches(env, o, p.target)
  }

  function NormalizedAll(env: Env, s: seq<Observation>): (r: seq<Observation>)
    ensures |r| == |s| && forall i :: 0 <= i < |s| ==> r[i] == Normalized(env.canonical, s[i])
  {
    seq(|s|, i requires 0 <= i < |s| => Normalized(env.canonical, s[i]))
  }

  /** Observation order: time, with unknown times last, then identifier. */
  predicate ObservationLe(a: Observation, b: Observation) {
    if a.observedAt != b.observedAt then
      if a.observedAt.Zero? then false else b.observedAt.Zero? || a.observedAt.t < b.observedAt.t
    else StringLe(a.id, b.id)
  }

  function Chosen(env: Env, p: Probe, tuple: Tuple, s: seq<Observation>): seq<Observation> {
    Filtered(NormalizedAll(env, s), o => Relevant(env, p, tuple, o))
  }

  /** Observations without an identifier are named by their place. */
  function Identified(correlationId: string, s: seq<Observation>): (r: seq<Observation>)
    ensures |r| == |s|
  {
    seq(|s|, i requires 0 <= i < |s| =>
      if s[i].id == "" then s[i].(id := correlationId + "/observation-" + Padded(i + 1)) else s[i])
  }

  /** `relevantObservations`. */
  function RelevantObservations(env: Env, p: Probe, tuple: Tuple, s: seq<Observation>): seq<Observation> {
    Identified(p.correlationId, SortBy(ObservationLe, Chosen(env, p, tuple, s)))
  }

  // ---- pairs ----

  predicate NoPortConflict(a: int, b: int) {
    a == 0 || b == 0 || a == b
  }

  predicate NoAddressConflict(env: Env, a: string, b: string) {
    a == "" || b == "" || env.address(a) == env.address(b)
  }

  /** `tcpPair`: no field that both sides know differs. */
  predicate TcpPair(env: Env, e: Observation, r: Observation) {
    && NoConflict(e.connectionId, r.connectionId)
    && NoPortConflict(e.sourcePort, r.destinationPort) && NoPortConflict(e.destinationPort, r.sourcePort)
    && NoAddressConflict(env, e.sourceAddress, r.destinationAddress) && NoAddressConflict(env, e.destinationAddress, r.sourceAddress)
  }

  predicate BothKnown(a: int, b: int) {
    a != 0 && b != 0
  }

  predicate SameCorrelation(e: Observation, r: Observation) {
    r.correlationId != "" && r.correlationId == e.correlationId
  }

  /** The part of `pathPair` that rejects. */
  predicate NoPathConflict(env: Env, e: Observation, r: Observation) {
    && NoConflict(r.correlationId, e.correlationId)
    && NoPortConflict(r.icmpIdentifier, e.icmpIdentifier) && NoPortConflict(r.icmpSequence, e.icmpSequence)
    && NoPortConflict(r.quotedIcmpIdentifier, e.icmpIdentifier) && NoPortConflict(r.quotedIcmpSequence, e.icmpSequence)
    && NoPortConflict(r.probeTtl, e.probeTtl) && NoPortConflict(r.probeAttempt, e.probeAttempt)
    && NoAddressConflict(env, r.quotedDestinationAddress, e.destinationAddress)
    && NoPortConflict(r.quotedDestinationPort, e.destinationPort)
  }

  predicate StrongKey(e: Observation, r: Observation) {
    BothKnown(r.icmpIdentifier, e.icmpIdentifier) || BothKnown(r.icmpSequence, e.icmpSequence)
    || BothKnown(r.quotedIcmpIdentifier, e.icmpIdentifier) || BothKnown(r.quotedIcmpSequence, e.icmpSequence)
    || BothKnown(r.probeTtl, e.probeTtl) || BothKnown(r.probeAttempt, e.probeAttempt)
  }

  /** `pathPair`: no conflict, and a shared key, or a correlation of one emission, or the only pair there is. */
  predicate PathPair(env: Env, e: Observation, r: Observation, emissions: nat, s: seq<Observation>) {
    NoPathConflict(env, e, r)
    && (StrongKey(e, r)
        || (SameCorrelation(e, r) && |Filtered(s, (o: Observation) => o.kind.OutboundEcho? && o.correlationId == r.correlationId)| == 1)
        || (emissions == 1 && |s| <= 2))
  }

  // ---- answers ----

  /** Position of the first emission that the response pairs with. */
  function Mate(emissions: seq<Observation>, r: Observation, pair: (Observation, Observation) -> bool): (k: nat)
    ensures k <= |emissions|
    ensures k < |emissions| ==> pair(emissions[k], r)
    ensures forall j :: 0 <= j < k ==> !pair(emissions[j], r)
  {
    if emissions == [] then 0
    else
      var n := |emissions| - 1;
      var k := Mate(emissions[..n], r, pair);
      assert forall j :: 0 <= j < n ==> emissions[..n][j] == emissions[j];
      if k < n || pair(emissions[n], r) then k else |emissions|
  }

  predicate Answers(emissions: seq<Observation>, candidate: Observation -> bool, pair: (Observation, Observation) -> bool, r: Observation) {
    candidate(r) && Mate(emissions, r, pair) < |emissions|
  }

  /** The answers in order, and the identifiers of each with its emission. */
  function Responses(s: seq<Observation>, emissions: seq<Observation>, candidate: Observation -> bool,
                     pair: (Observation, Observation) -> bool): seq<Observation> {
    Filtered(s, o => Answers(emissions, candidate, pair, o))
  }

  function PairIds(s: seq<Observation>, emissions: seq<Observation>, candidate: Observation -> bool,
                   pair: (Observation, Observation) -> bool): seq<string> {
    if s == [] then [] else
    var r := s[|s| - 1];
    PairIds(s[..|s| - 1], emissions, candidate, pair)
    + if Answers(emissions, candidate, pair, r) then [emissions[Mate(emissions, r, pair)].id, r.id] else []
  }

  method FindMate(emissions: seq<Observation>, r: Observation, pair: (Observation, Observation) -> bool) returns (k: nat)
    ensures k == Mate(emissions, r, pair)
  {
    k := 0;
    while k < |emissions|
      invariant k <= |emissions|
      invariant forall j :: 0 <= j < k ==> !pair(emissions[j], r)
    {
      if pair(emissions[k], r) {
        break;
      }
      k := k + 1;
    }
  }

  /** The nested loops of `correlateTCP` and `correlatePath`. */
  method MatchResponses(s: seq<Observation>, emissions: seq<Observation>, candidate: Observation -> bool,
                        pair: (Observation, Observation) -> bool) returns (responses: seq<Observation>, ids: seq<string>)
    ensures responses == Responses(s, emissions, candidate, pair)
    ensures ids == PairIds(s, emissions, candidate, pair)
  {
    responses, ids := [], [];
    for i := 0 to |s|
      invariant responses == Responses(s[..i], emissions, candidate, pair)
      invariant ids == PairIds(s[..i], emissions, candidate, pair)
    {
      assert s[..i + 1][..i] == s[..i];
      if candidate(s[i]) {
        var k := FindMate(emissions, s[i], pair);
        if k < |emissions| {
          responses := responses + [s[i]];
          ids := ids + [emissions[k].id, s[i].id];
        }
      }
    }
    assert s[..|s|] == s;
  }

  predicate IsTcpAnswer(o: Observation) {
    (o.kind.InboundSynAck? || o.kind.TcpRst? || o.kind.HandshakeConfirmed?) && o.direction.Inbound?
  }

  predicate IsPathAnswer(o: Observation) {
    o.kind.InboundEcho? || o.kind.TimeExceeded? || o.kind.Unreachable?
  }

  function TcpEmissions(s: seq<Observation>, tuple: Tuple): seq<Observation> {
    var syns := Filtered(s, (o: Observation) => o.kind.OutboundSyn?);
    if tuple.localPort == 0 then syns
    else Filtered(syns, (o: Observation) => o.sourcePort == tuple.localPort || o.localPort == tuple.localPort)
  }

  function PathEmissions(s: seq<Observation>): seq<Observation> {
    Filtered(s, (o: Observation) => o.kind.OutboundEcho?)
  }

  // ---- conclusions ----

  /** How the match is described: by the strongest identity any emission carries. */
  function MethodName(emissions: seq<Observation>, suffix: string, fallback: string): string {
    if exists o :: o in emissions && o.correlationId != "" then "correlation_id_and_" + suffix
    else if exists o :: o in emissions && (o.probeId != "" || o.sessionId != "") then "probe_identity_and_" + suffix
    else fallback
  }

  const TCP_TUPLE := "tcp_tuple"
  const PROCESS_TUPLE := "process_and_tcp_tuple"
  const PATH_KEY := "path_key"
  const UNIQUE_TUPLE := "unique_path_tuple"

  function TcpOutcome(k: Kind): Outcome {
    if k.InboundSynAck? then SynAckReceived else if k.HandshakeConfirmed? then HandshakeSeen else RstReceived
  }

  function PathOutcome(k: Kind): Outcome {
    if k.InboundEcho? then EchoReplyReceived else if k.TimeExceeded? then TimeExceededReceived else UnreachableReceived
  }

  function Blank(status: Status): Evidence {
    Evidence(status, EmissionUnknown, CaptureUnavailable, Unobservable, "", [], [])
  }

  function TcpPairing(env: Env): (Observation, Observation) -> bool {
    (e, r) => TcpPair(env, e, r)
  }

  function PathPairing(env: Env, emissions: nat, s: seq<Observation>): (Observation, Observation) -> bool {
    (e, r) => PathPair(env, e, r, emissions, s)
  }

  /** `correlateTCP`. */
  function TcpFlow(env: Env, s: seq<Observation>, tuple: Tuple): Evidence {
    var emissions := TcpEmissions(s, tuple);
    var responses := Responses(s, emissions, IsTcpAnswer, TcpPairing(env));
    var flow := Blank(Available).(observations := s);
    if emissions == [] then flow
    else
      var observed := flow.(emission := EmissionObserved, method_ := MethodName(emissions, TCP_TUPLE, PROCESS_TUPLE));
      if responses == [] then observed.(outcome := NoMatchingResponse)
      else observed.(outcome := TcpOutcome(responses[0].kind), certainty := ConfirmedResponse,
                     matched := UniqueOf(PairIds(s, emissions, IsTcpAnswer, TcpPairing(env))))
  }

  /** Some path key is on the response. */
  predicate Keyed(r: Observation) {
    r.icmpSequence != 0 || r.icmpIdentifier != 0 || r.probeTtl != 0 || r.quotedIcmpSequence != 0 || r.quotedIcmpIdentifier != 0
  }

  /** `correlatePath`. */
  function PathFlow(env: Env, s: seq<Observation>): Evidence {
    var emissions := PathEmissions(s);
    var pair := PathPairing(env, |emissions|, s);
    var responses := Responses(s, emissions, IsPathAnswer, pair);
    var flow := Blank(Available).(observations := s);
    if emissions == [] then flow
    else
      var observed := flow.(emission := EmissionObserved);
      if responses == [] then observed.(outcome := NoMatchingResponse)
      else
        var selected := responses[0];
        var certain := observed.(outcome := PathOutcome(selected.kind),
                                 certainty := if selected.kind.InboundEcho? then ConfirmedResponse else ObservedResponder,
                                 matched := UniqueOf(PairIds(s, emissions, IsPathAnswer, pair)));
        if Keyed(selected) then certain.(method_ := MethodName(emissions, PATH_KEY, PATH_KEY))
        else if |emissions| == 1 && |responses| == 1 then certain.(method_ := MethodName(emissions, UNIQUE_TUPLE, UNIQUE_TUPLE))
        else observed.(outcome := NoMatchingResponse)
  }

  /** `canClassifyProbeNotEmitted`. */
  predicate CanClassify(env: Env, p: Probe, tuple: Tuple, passed: bool) {
    if p.probeType.PathProbe? then passed else tuple.remoteAddress != "" || env.isAddress(p.target.literalIp)
  }

  /** The probe ran, the capture is complete, and absence of its packets would mean something. */
  predicate MayBeMissing(env: Env, input: Input) {
    input.started && input.capture.complete && CanClassify(env, input.probe, input.tuple, input.passed)
  }

  /** What an available capture shows of the probe. */
  function Shown(env: Env, p: Probe, tuple: Tuple, missing: bool, s: seq<Observation>): Evidence {
    var flow := if p.probeType.PathProbe? then PathFlow(env, s) else TcpFlow(env, s, tuple);
    if flow.emission.EmissionUnknown? && missing then flow.(emission := EmissionNotObserved, outcome := ProbeNotEmitted)
    else flow
  }

  /** `Correlate`. */
  function EvidenceOf(env: Env, input: Input): Evidence {
    var status := StatusOf(input);
    if status.StatusCancelled? then Blank(status).(outcome := OutcomeCancelled)
    else if !status.Available? then Blank(status)
    else Shown(env, input.probe, input.tuple, MayBeMissing(env, input),
               RelevantObservations(env, input.probe, input.tuple, input.capture.observations))
  }

  // ---- the procedures ----

  method ChooseRelevant(env: Env, p: Probe, tuple: Tuple, input: seq<Observation>) returns (result: seq<Observation>)
    ensures result == Chosen(env, p, tuple, input)
  {
    result := [];
    var all := NormalizedAll(env, input);
    var relevant := o => Relevant(env, p, tuple, o);
    for i := 0 to |input|
      invariant result == Filtered(all[..i], relevant)
    {
      assert all[..i + 1][..i] == all[..i];
      if relevant(all[i]) {
        result := result + [all[i]];
      }
    }
    assert all[..|input|] == all;
  }

  method IdentifyAll(correlationId: string, sorted: seq<Observation>) returns (result: seq<Observation>)
    ensures result == Identified(correlationId, sorted)
  {
    result := sorted;
    for i := 0 to |result|
      invariant |result| == |sorted|
      invariant forall j :: i <= j < |sorted| ==> result[j] == sorted[j]
      invariant forall j :: 0 <= j < i ==> result[j] == Identified(correlationId, sorted)[j]
    {
      if result[i].id == "" {
        result := result[i := result[i].(id := correlationId + "/observation-" + Padded(i + 1))];
      }
    }
    assert result == Identified(correlationId, sorted);
  }

  method CollectRelevant(env: Env, p: Probe, tuple: Tuple, input: seq<Observation>) returns (result: seq<Observation>)
    ensures result == RelevantObservations(env, p, tuple, input)
  {
    result := ChooseRelevant(env, p, tuple, input);
    result := IdentifyAll(p.correlationId, SortBy(ObservationLe, result));
  }

  method CorrelateTcp(env: Env, s: seq<Observation>, tuple: Tuple) returns (flow: Evidence)
    ensures flow == TcpFlow(env, s, tuple)
  {
    flow := Blank(Available).(observations := s);
    var emissions := TcpEmissions(s, tuple);
    if emissions == [] {
      return;
    }
    flow := flow.(emission := EmissionObserved, method_ := MethodName(emissions, TCP_TUPLE, PROCESS_TUPLE));
    var responses, ids := MatchResponses(s, emissions, IsTcpAnswer, TcpPairing(env));
    if responses == [] {
      flow := flow.(outcome := NoMatchingResponse);
      return;
    }
    var matched := SortedUnique(ids);
    flow := flow.(outcome := TcpOutcome(responses[0].kind), certainty := ConfirmedResponse, matched := matched);
  }

  method CorrelatePath(env: Env, s: seq<Observation>) returns (flow: Evidence)
    ensures flow == PathFlow(env, s)
  {
    flow := Blank(Available).(observations := s);
    var emissions := PathEmissions(s);
    if emissions == [] {
      return;
    }
    flow := flow.(emission := EmissionObserved);
    var responses, ids := MatchResponses(s, emissions, IsPathAnswer, PathPairing(env, |emissions|, s));
    if responses == [] {
      flow := flow.(outcome := NoMatchingResponse);
      return;
    }
    var selected := responses[0];
    var name;
    if Keyed(selected) {
      name := MethodName(emissions, PATH_KEY, PATH_KEY);
    } else if |emissions| == 1 && |responses| == 1 {
      name := MethodName(emissions, UNIQUE_TUPLE, UNIQUE_TUPLE);
    } else {
      flow := flow.(outcome := NoMatchingResponse);
      return;
    }
    var matched := SortedUnique(ids);
    flow := flow.(outcome := PathOutcome(selected.kind), method_ := name, matched := matched,
                  certainty := if selected.kind.InboundEcho? then ConfirmedResponse else ObservedResponder);
  }

  method Correlate(env: Env, input: Input) returns (flow: Evidence)
    ensures flow == EvidenceOf(env, input)
  {
    var status := StatusOf(input);
    flow := Blank(status);
    if status.StatusCancelled? {
      flow := flow.(outcome := OutcomeCancelled);
      return;
    }
    if !status.Available? {
      return;
    }
    var s := CollectRelevant(env, input.probe, input.tuple, input.capture.observations);
    if input.probe.probeType.PathProbe? {
      flow := CorrelatePath(env, s);
    } else {
      flow := CorrelateTcp(env, s, input.tuple);
    }
    if flow.emission.EmissionUnknown? && MayBeMissing(env, input) {
      flow := flow.(emission := EmissionNotObserved, outcome := ProbeNotEmitted);
    }
  }
}
