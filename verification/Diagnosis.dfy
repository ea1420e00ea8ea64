/**
 Selecting findings from failure candidates and successes (internal/diagnosis/diagnosis.go:86-152,
 592-755, 766-873, 984-1045): the prioritised rules, contradiction by successes, extension reasons
 and the supporting gateway finding.
 */
module Diagnosis {
  import opened Lists
  import opened Options
  import opened Orders

  datatype Reason =
    | InterfaceDown | NoIPAddress | NoRoute | InvalidRoute | EffectiveRouteDifference
    | DnsNxDomain | DnsNoAnswer | DnsTimeout | DnsResolverFailure
    | ProxyAuthenticationRequired | ProxyConnectDenied | DirectEgressRestricted
    | ProxyConfigurationDivergence | ProxyConfigurationFailure | ProxyUnavailable
    | NetworkUnreachable | FirewallBlocked
    | TcpTimeout | TcpConnectionRefused | TcpConnectionReset | TcpSynNotObserved
    | TlsInterceptionSuspected | TlsTrustStoreMismatch | TlsHandshakeFailure | CertificateValidationFailure
    | HttpStatusCode | HttpFailure
    | SshTimeout | SshBannerMalformed | SshNonSshResponse | SshHandshakeFailure
    | RdpTimeout | RdpNegotiationRejected | RdpNegotiationMalformed | RdpNegotiationFailure
    | ProbeExecution
    | GatewayUnreachable | SmbTimeout | SmbProtocolRejection | SmbMalformedResponse | SmbConnectionRefused
    | Absent | ReasonNone | ReasonUnknown | ReasonUnsupported | IcmpFailure | PathObserving | PathCancellation
    | Extension(name: string)            // any other reason

  /** The policy, earliest decisive boundary first. */
  const RULES: seq<Reason> :=
    [ InterfaceDown, NoIPAddress, NoRoute, InvalidRoute, EffectiveRouteDifference,
      DnsNxDomain, DnsNoAnswer, DnsTimeout, DnsResolverFailure,
      ProxyAuthenticationRequired, ProxyConnectDenied, DirectEgressRestricted,
      ProxyConfigurationDivergence, ProxyConfigurationFailure, ProxyUnavailable,
      NetworkUnreachable, FirewallBlocked,
      TcpTimeout, TcpConnectionRefused, TcpConnectionReset, TcpSynNotObserved,
      TlsInterceptionSuspected, TlsTrustStoreMismatch, TlsHandshakeFailure, CertificateValidationFailure,
      HttpStatusCode, HttpFailure,
      SshTimeout, SshBannerMalformed, SshNonSshResponse, SshHandshakeFailure,
      RdpTimeout, RdpNegotiationRejected, RdpNegotiationMalformed, RdpNegotiationFailure,
      ProbeExecution ]

  datatype Layer =
    | Interface | IPConfiguration | Route | Gateway | Dns | Proxy | Network | Tcp | Tls | Http | Ssh | Rdp | Smb
    | Destination | UnknownLayer | Icmp | OtherLayer(layer: string)

  datatype Domain =
    | Local | Routing | GatewayDomain | DnsDomain | ProxyDomain | Policy | NetworkDomain | Firewall | Transport
    | TlsDomain | HttpDomain | SshDomain | RdpDomain | SmbDomain | UnknownDomain | OtherDomain(domain: string)

  datatype Target = Target(identity: string, literalIp: string, selected: Option<string>, tested: Option<string>, port: nat)

  datatype Candidate = Candidate(reason: Reason, layer: Layer, domain: Domain, target: Target,
                                 probeNames: seq<string>, evidenceIds: seq<string>, comparative: bool, supporting: bool)

  datatype Success = Success(layer: Layer, target: Target)

  datatype Finding = Finding(reason: Reason, layer: Layer, domain: Domain, probeNames: seq<string>, evidenceIds: seq<string>)

  datatype RouteDisposition = RouteUnknown | OnLink | Routed | OtherRoute

  datatype State = State(candidates: seq<Candidate>, successes: seq<Success>, route: RouteDisposition, hasGateway: bool)

  /** Case folding, address matching and the spelling of reasons and domains come from other packages. */
  datatype Env = Env(equalFold: (string, string) -> bool, matches: (Target, string) -> bool,
                     reasonName: Reason -> string, domainName: Domain -> string)

  // ---- tables ----

  predicate Active(r: Reason) {
    !r.Absent? && !r.ReasonNone? && !r.ReasonUnknown? && !r.ReasonUnsupported? && !r.IcmpFailure? && !r.PathObserving? && !r.PathCancellation?
  }

  function Semantics(r: Reason): (Layer, Domain) {
    match r
    case InterfaceDown => (Interface, Local)
    case NoIPAddress => (IPConfiguration, Local)
    case NoRoute => (Route, Routing)
    case InvalidRoute => (Route, Routing)
    case EffectiveRouteDifference => (Route, Routing)
    case GatewayUnreachable => (Gateway, GatewayDomain)
    case DnsNxDomain => (Dns, DnsDomain)
    case DnsNoAnswer => (Dns, DnsDomain)
    case DnsTimeout => (Dns, DnsDomain)
    case DnsResolverFailure => (Dns, DnsDomain)
    case ProxyConfigurationFailure => (Proxy, ProxyDomain)
    case ProxyConfigurationDivergence => (Proxy, ProxyDomain)
    case ProxyUnavailable => (Proxy, ProxyDomain)
    case ProxyConnectDenied => (Proxy, ProxyDomain)
    case ProxyAuthenticationRequired => (Proxy, ProxyDomain)
    case DirectEgressRestricted => (Network, Policy)
    case NetworkUnreachable => (Network, NetworkDomain)
    case FirewallBlocked => (Network, Firewall)
    case TcpSynNotObserved => (Tcp, Local)
    case TcpTimeout => (Tcp, Transport)
    case TcpConnectionRefused => (Tcp, Transport)
    case TcpConnectionReset => (Tcp, Transport)
    case TlsHandshakeFailure => (Tls, TlsDomain)
    case CertificateValidationFailure => (Tls, TlsDomain)
    case TlsTrustStoreMismatch => (Tls, TlsDomain)
    case TlsInterceptionSuspected => (Tls, TlsDomain)
    case HttpStatusCode => (Http, HttpDomain)
    case HttpFailure => (Http, HttpDomain)
    case SshTimeout => (Ssh, SshDomain)
    case SshBannerMalformed => (Ssh, SshDomain)
    case SshNonSshResponse => (Ssh, SshDomain)
    case SshHandshakeFailure => (Ssh, SshDomain)
    case RdpTimeout => (Rdp, RdpDomain)
    case RdpNegotiationRejected => (Rdp, RdpDomain)
    case RdpNegotiationMalformed => (Rdp, RdpDomain)
    case RdpNegotiationFailure => (Rdp, RdpDomain)
    case SmbTimeout => (Smb, SmbDomain)
    case SmbProtocolRejection => (Smb, SmbDomain)
    case SmbMalformedResponse => (Smb, SmbDomain)
    case SmbConnectionRefused => (Tcp, Transport)
    case _ => (UnknownLayer, UnknownDomain)
  }

  function Rank(l: Layer): nat {
    match l
    case Interface => 10
    case IPConfiguration => 10
    case Route => 20
    case Gateway => 30
    case Dns => 40
    case Proxy => 50
    case Network => 60
    case Tcp => 70
    case Tls => 80
    case Http => 90
    case Ssh => 95
    case Rdp => 95
    case Smb => 90
    case Destination => 100
    case UnknownLayer => 1000
    case Icmp => 2000
    case OtherLayer(name) => if name == "" then 1000 else 1100
  }

  /** `isGenericReason`: active, not the gateway, and not in the table. */
  predicate Generic(r: Reason) {
    Active(r) && !r.GatewayUnreachable? && r !in RULES
  }

  // ---- correlation and contradiction ----

  function IdentityOf(t: Target): string {
    if t.identity != "" then t.identity
    else if t.tested.Some? then t.tested.value
    else if t.selected.Some? then t.selected.value
    else t.literalIp
  }

  function Addresses(t: Target): seq<string> {
    (if t.literalIp != "" then [t.literalIp] else [])
    + (if t.selected.Some? then [t.selected.value] else [])
    + (if t.tested.Some? then [t.tested.value] else [])
  }

  predicate AddressesCorrelate(env: Env, a: Target, b: Target) {
    exists x, y :: x in Addresses(a) && y in Addresses(b) && (env.equalFold(x, y) || env.matches(a, y) || env.matches(b, x))
  }

  predicate OnEndpoint(l: Layer) {
    l.Tcp? || l.Tls? || l.Http? || l.Ssh? || l.Rdp? || l.Destination?
  }

  predicate TargetsCorrelate(env: Env, a: Target, b: Target, l: Layer) {
    && (IdentityOf(a) != "" && IdentityOf(b) != "" && !env.equalFold(IdentityOf(a), IdentityOf(b)) ==> AddressesCorrelate(env, a, b))
    && (OnEndpoint(l) && a.port != 0 && b.port != 0 ==> a.port == b.port)
  }

  predicate ComparativeReason(r: Reason) {
    r.DirectEgressRestricted? || r.EffectiveRouteDifference? || r.TlsInterceptionSuspected? || r.TlsTrustStoreMismatch? || r.ProxyConfigurationDivergence?
  }

  predicate BeyondTcp(l: Layer) {
    l.Tls? || l.Http? || l.Smb? || l.Ssh? || l.Rdp?
  }

  /** `successfulLayerContradicts`. */
  predicate LayerContradicts(r: Reason, failed: Layer, succeeded: Layer) {
    !ComparativeReason(r) &&
    match failed
    case Interface => succeeded.Tcp? || BeyondTcp(succeeded)
    case IPConfiguration => succeeded.Tcp? || BeyondTcp(succeeded)
    case Route => succeeded.Tcp? || BeyondTcp(succeeded)
    case Gateway => succeeded.Tcp? || BeyondTcp(succeeded)
    case Network => succeeded.Tcp? || BeyondTcp(succeeded)
    case Dns => succeeded.Dns?
    case Proxy => succeeded.Proxy?
    case Tcp => succeeded.Tcp? || BeyondTcp(succeeded)
    case Tls => BeyondTcp(succeeded)
    case Http => succeeded.Http?
    case Ssh => succeeded.Ssh?
    case Rdp => succeeded.Rdp?
    case Smb => succeeded.Smb?
    case _ => false
  }

  predicate ContradictedBy(env: Env, c: Candidate, s: Success) {
    TargetsCorrelate(env, c.target, s.target, c.layer) && LayerContradicts(c.reason, c.layer, s.layer)
  }

  /** No success speaks against the candidate. */
  predicate Viable(env: Env, c: Candidate, successes: seq<Success>) {
    c.comparative || forall s :: s in successes ==> !ContradictedBy(env, c, s)
  }

  // ---- merging ----

  function AllNames(cs: seq<Candidate>): seq<string> {
    if cs == [] then [] else AllNames(cs[..|cs| - 1]) + cs[|cs| - 1].probeNames
  }

  function AllIds(cs: seq<Candidate>): seq<string> {
    if cs == [] then [] else AllIds(cs[..|cs| - 1]) + cs[|cs| - 1].evidenceIds
  }

  predicate SomeComparative(cs: seq<Candidate>) {
    exists c :: c in cs && c.comparative
  }

  /** `mergeCandidates` of a non-empty list. */
  function Merged(cs: seq<Candidate>): Candidate
    requires cs != []
  {
    cs[0].(probeNames := UniqueOf(AllNames(cs)), evidenceIds := UniqueOf(AllIds(cs)), comparative := SomeComparative(cs))
  }

  /** The layer and domain a finding shows. */
  function Shown(c: Candidate): (Layer, Domain) {
    if Semantics(c.reason).0.UnknownLayer? then (c.layer, c.domain) else Semantics(c.reason)
  }

  function MakeFinding(c: Candidate): Finding {
    Finding(c.reason, Shown(c).0, Shown(c).1, UniqueOf(c.probeNames), UniqueOf(c.evidenceIds))
  }

  // ---- built-in reasons ----

  predicate Supports(env: Env, s: State, r: Reason, c: Candidate) {
    c.reason == r && !c.supporting && Viable(env, c, s.successes)
  }

  function ViableFor(env: Env, s: State, r: Reason): seq<Candidate> {
    Filtered(s.candidates, c => Supports(env, s, r, c))
  }

  /** The first rule from k on that has a viable candidate; |RULES| if there is none. */
  function Winning(env: Env, s: State, k: nat): (w: nat)
    requires k <= |RULES|
    ensures k <= w <= |RULES|
    ensures w < |RULES| ==> ViableFor(env, s, RULES[w]) != []
    ensures forall j :: k <= j < w ==> ViableFor(env, s, RULES[j]) == []
    decreases |RULES| - k
  {
    if k == |RULES| || ViableFor(env, s, RULES[k]) != [] then k else Winning(env, s, k + 1)
  }

  function BuiltIn(env: Env, s: State): Option<Candidate> {
    var w := Winning(env, s, 0);
    if w == |RULES| then None else Some(Merged(ViableFor(env, s, RULES[w])))
  }

  // ---- extension reasons ----

  predicate SupportsGeneric(env: Env, s: State, c: Candidate) {
    Generic(c.reason) && !c.supporting && Viable(env, c, s.successes)
  }

  function JoinNul(s: seq<string>): string {
    if s == [] then "" else if |s| == 1 then s[0] else s[0] + [0 as char] + JoinNul(s[1..])
  }

  /** Layer rank, then reason, domain and probe names. */
  predicate GenericLe(env: Env, a: Candidate, b: Candidate) {
    if Rank(a.layer) != Rank(b.layer) then Rank(a.layer) < Rank(b.layer)
    else if env.reasonName(a.reason) != env.reasonName(b.reason) then StringLe(env.reasonName(a.reason), env.reasonName(b.reason))
    else if env.domainName(a.domain) != env.domainName(b.domain) then StringLe(env.domainName(a.domain), env.domainName(b.domain))
    else StringLe(JoinNul(UniqueOf(a.probeNames)), JoinNul(UniqueOf(b.probeNames)))
  }

  function GenericOrder(env: Env): (Candidate, Candidate) -> bool {
    (a, b) => GenericLe(env, a, b)
  }

  function Generics(env: Env, s: State): seq<Candidate> {
    SortBy(GenericOrder(env), Filtered(s.candidates, c => SupportsGeneric(env, s, c)))
  }

  predicate SameFailure(a: Candidate, b: Candidate) {
    a.reason == b.reason && a.layer == b.layer && a.domain == b.domain
  }

  function AlikeFirst(ordered: seq<Candidate>): (r: seq<Candidate>)
    requires ordered != []
    ensures r != []
  {
    assert ordered[0] in Filtered(ordered, c => SameFailure(c, ordered[0]));
    Filtered(ordered, c => SameFailure(c, ordered[0]))
  }

  /** `genericFailure`. */
  function ExtensionFailure(env: Env, s: State): Option<Candidate> {
    if Generics(env, s) == [] then None else Some(Merged(AlikeFirst(Generics(env, s))))
  }

  // ---- the gateway ----

  predicate GatewaySpeaks(env: Env, s: State, c: Candidate) {
    && !s.route.OnLink?
    && c.reason.GatewayUnreachable?
    && !(s.route.Routed? && !s.hasGateway)
    && Viable(env, c, s.successes)
  }

  function GatewayCandidates(env: Env, s: State): seq<Candidate> {
    Filtered(s.candidates, c => GatewaySpeaks(env, s, c))
  }

  function GatewayFindings(env: Env, s: State): seq<Finding> {
    var g := GatewayCandidates(env, s);
    if g == [] then [] else [MakeFinding(Merged(g))]
  }

  // ---- the selection ----

  predicate ExtensionWins(b: Option<Candidate>, e: Option<Candidate>) {
    e.Some? && (b.None? || Rank(e.value.layer) < Rank(b.value.layer))
  }

  /** `selectFindings`. */
  function Select(env: Env, s: State): seq<Finding> {
    var b, e := BuiltIn(env, s), ExtensionFailure(env, s);
    (if ExtensionWins(b, e) then [MakeFinding(e.value)] else if b.Some? then [MakeFinding(b.value)] else [])
    + GatewayFindings(env, s)
  }

  // ---- the procedures ----

  method IsContradicted(env: Env, c: Candidate, successes: seq<Success>) returns (contradicted: bool)
    ensures contradicted == !Viable(env, c, successes)
  {
    if c.comparative {
      return false;
    }
    for i := 0 to |successes|
      invariant forall j :: 0 <= j < i ==> !ContradictedBy(env, c, successes[j])
    {
      if !TargetsCorrelate(env, c.target, successes[i].target, c.layer) {
        continue;
      }
      if LayerContradicts(c.reason, c.layer, successes[i].layer) {
        assert successes[i] in successes;
        return true;
      }
    }
    contradicted := false;
  }

  method CandidatesForReason(env: Env, s: State, r: Reason) returns (viable: seq<Candidate>)
    ensures viable == ViableFor(env, s, r)
  {
    viable := [];
    for i := 0 to |s.candidates|
      invariant viable == Filtered(s.candidates[..i], c => Supports(env, s, r, c))
    {
      var c := s.candidates[i];
      FilteredStep(s.candidates, i, c => Supports(env, s, r, c));
      if c.reason == r && !c.supporting {
        var contradicted := IsContradicted(env, c, s.successes);
        if !contradicted {
          viable := viable + [c];
        }
      }
    }
    assert s.candidates[..|s.candidates|] == s.candidates;
  }

  lemma FilteredStep<T(!new)>(s: seq<T>, i: nat, p: T -> bool)
    requires i < |s|
    ensures Filtered(s[..i + 1], p) == Filtered(s[..i], p) + if p(s[i]) then [s[i]] else []
  {
    assert s[..i + 1] == s[..i] + [s[i]];
    FilteredSnoc(s[..i], s[i], p);
  }

  method MergeCandidates(cs: seq<Candidate>) returns (merged: Candidate)
    requires cs != []
    ensures merged == Merged(cs)
  {
    var names, ids, comparative := cs[0].probeNames, cs[0].evidenceIds, cs[0].comparative;
    assert cs[..1] == [cs[0]];
    assert AllNames(cs[..1]) == names && AllIds(cs[..1]) == ids by {
      assert cs[..1][..0] == [];
      assert AllNames([]) == [] && AllIds([]) == [];
    }
    for i := 1 to |cs|
      invariant names == AllNames(cs[..i]) && ids == AllIds(cs[..i])
      invariant comparative == SomeComparative(cs[..i])
    {
      assert cs[..i + 1][..i] == cs[..i];
      ComparativeSnoc(cs[..i], cs[i]);
      assert cs[..i + 1] == cs[..i] + [cs[i]];
      names, ids, comparative := names + cs[i].probeNames, ids + cs[i].evidenceIds, comparative || cs[i].comparative;
    }
    assert cs[..|cs|] == cs;
    names := SortedUnique(names);
    ids := SortedUnique(ids);
    merged := cs[0].(probeNames := names, evidenceIds := ids, comparative := comparative);
  }

  lemma ComparativeSnoc(cs: seq<Candidate>, c: Candidate)
    ensures SomeComparative(cs + [c]) <==> SomeComparative(cs) || c.comparative
  {
    assert forall x :: x in cs + [c] <==> x in cs || x == c;
  }

  method FindBuiltIn(env: Env, s: State) returns (b: Option<Candidate>)
    ensures b == BuiltIn(env, s)
  {
    for k := 0 to |RULES|
      invariant Winning(env, s, k) == Winning(env, s, 0)
    {
      var viable := CandidatesForReason(env, s, RULES[k]);
      if viable != [] {
        var merged := MergeCandidates(viable);
        return Some(merged);
      }
    }
    b := None;
  }

  method FindExtension(env: Env, s: State) returns (e: Option<Candidate>)
    ensures e == ExtensionFailure(env, s)
  {
    var ordered := [];
    for i := 0 to |s.candidates|
      invariant ordered == Filtered(s.candidates[..i], c => SupportsGeneric(env, s, c))
    {
      var c := s.candidates[i];
      FilteredStep(s.candidates, i, c => SupportsGeneric(env, s, c));
      if Generic(c.reason) && !c.supporting {
        var contradicted := IsContradicted(env, c, s.successes);
        if !contradicted {
          ordered := ordered + [c];
        }
      }
    }
    assert s.candidates[..|s.candidates|] == s.candidates;
    ordered := SortBy(GenericOrder(env), ordered);
    if ordered == [] {
      return None;
    }
    var selected := AlikeFirst(ordered);
    var merged := MergeCandidates(selected);
    e := Some(merged);
  }

  method FindGateway(env: Env, s: State) returns (g: seq<Finding>)
    ensures g == GatewayFindings(env, s)
  {
    var speaking := [];
    for i := 0 to |s.candidates|
      invariant speaking == Filtered(s.candidates[..i], c => GatewaySpeaks(env, s, c))
    {
      var c := s.candidates[i];
      FilteredStep(s.candidates, i, c => GatewaySpeaks(env, s, c));
      if s.route.OnLink? || !c.reason.GatewayUnreachable? || (s.route.Routed? && !s.hasGateway) {
        continue;
      }
      var contradicted := IsContradicted(env, c, s.successes);
      if !contradicted {
        speaking := speaking + [c];
      }
    }
    assert s.candidates[..|s.candidates|] == s.candidates;
    if speaking == [] {
      return [];
    }
    var merged := MergeCandidates(speaking);
    g := [MakeFinding(merged)];
  }

  method SelectFindings(env: Env, s: State) returns (findings: seq<Finding>)
    ensures findings == Select(env, s)
  {
    var builtIn := FindBuiltIn(env, s);
    var extension := FindExtension(env, s);
    var gateway := FindGateway(env, s);
    if extension.Some? && (builtIn.None? || Rank(extension.value.layer) < Rank(builtIn.value.layer)) {
      return [MakeFinding(extension.value)] + gateway;
    }
    if builtIn.Some? {
      return [MakeFinding(builtIn.value)] + gateway;
    }
    findings := gateway;
  }
}
