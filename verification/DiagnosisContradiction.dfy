/**
 Which failures a success speaks against, and which failures come first, said of the findings
 themselves (internal/diagnosis/diagnosis.go:103-152, 592-740, 840-873, 1010-1072).
 */
module DiagnosisContradictions {
  import opened Lists
  import opened Options
  import opened Orders
  import opened Diagnosis
  import opened DiagnosisFacts
  import opened DiagnosisOrder

  // ---- a candidate that is not there ----

  function Without(s: State, k: nat): State
    requires k < |s.candidates|
  {
    s.(candidates := s.candidates[..k] + s.candidates[k + 1..])
  }

  lemma FilteredDropped<T(!new)>(a: seq<T>, x: T, b: seq<T>, p: T -> bool)
    requires !p(x)
    ensures Filtered((a + [x]) + b, p) == Filtered(a + b, p)
  {
    FilteredAppend(a + [x], b, p);
    FilteredSnoc(a, x, p);
    FilteredAppend(a, b, p);
  }

  lemma FilteredWithout<T(!new)>(a: seq<T>, k: nat, p: T -> bool)
    requires k < |a| && !p(a[k])
    ensures Filtered(a[..k] + a[k + 1..], p) == Filtered(a, p)
  {
    Apart(a, k);
    FilteredDropped(a[..k], a[k], a[k + 1..], p);
  }

  lemma Apart<T>(a: seq<T>, k: nat)
    requires k < |a|
    ensures a == (a[..k] + [a[k]]) + a[k + 1..]
  {
  }

  lemma SameWinner(env: Env, s: State, t: State)
    requires forall r :: ViableFor(env, s, r) == ViableFor(env, t, r)
    ensures Winning(env, s, 0) == Winning(env, t, 0)
  {
    var v, w := Winning(env, s, 0), Winning(env, t, 0);
    if v < |RULES| {
      assert ViableFor(env, t, RULES[v]) != [];
    }
    if w < |RULES| {
      assert ViableFor(env, s, RULES[w]) != [];
    }
  }

  lemma SameParts(env: Env, s: State, t: State)
    requires forall r :: ViableFor(env, s, r) == ViableFor(env, t, r)
    requires Generics(env, s) == Generics(env, t) && GatewayCandidates(env, s) == GatewayCandidates(env, t)
    ensures Select(env, s) == Select(env, t)
  {
    SameWinner(env, s, t);
    assert Winners(env, s) == Winners(env, t);
    SelectIs(env, s);
    SelectIs(env, t);
  }

  /** A candidate that is not viable might as well not be there. */
  lemma NotViableIsIdle(env: Env, s: State, k: nat)
    requires k < |s.candidates| && !Viable(env, s.candidates[k], s.successes)
    ensures Select(env, s) == Select(env, Without(s, k))
  {
    NeverFoundIsIdle(env, s, k);
  }

  /** A supporting candidate that is not about the gateway might as well not be there, either. */
  lemma SupportingIsIdle(env: Env, s: State, k: nat)
    requires k < |s.candidates| && s.candidates[k].supporting && !s.candidates[k].reason.GatewayUnreachable?
    ensures Select(env, s) == Select(env, Without(s, k))
  {
    NeverFoundIsIdle(env, s, k);
  }

  /** No part of the selection takes up the candidate. */
  lemma NeverFoundIsIdle(env: Env, s: State, k: nat)
    requires k < |s.candidates|
    requires var c := s.candidates[k];
             !GatewaySpeaks(env, s, c) && !SupportsGeneric(env, s, c) && forall r :: !Supports(env, s, r, c)
    ensures Select(env, s) == Select(env, Without(s, k))
  {
    var t := Without(s, k);
    forall r ensures ViableFor(env, s, r) == ViableFor(env, t, r) {
      FilteredWithout(s.candidates, k, c => Supports(env, s, r, c));
      FilteredAgrees(t.candidates, c => Supports(env, s, r, c), c => Supports(env, t, r, c));
    }
    FilteredWithout(s.candidates, k, c => SupportsGeneric(env, s, c));
    FilteredAgrees(t.candidates, c => SupportsGeneric(env, s, c), c => SupportsGeneric(env, t, c));
    FilteredWithout(s.candidates, k, c => GatewaySpeaks(env, s, c));
    FilteredAgrees(t.candidates, c => GatewaySpeaks(env, s, c), c => GatewaySpeaks(env, t, c));
    SameParts(env, s, t);
  }

  // ---- what a success speaks against ----

  /** Comparative observations are about two lanes; that one works says nothing against them. */
  predicate Excused(c: Candidate) {
    c.comparative || c.reason in {DirectEgressRestricted, EffectiveRouteDifference, TlsInterceptionSuspected, TlsTrustStoreMismatch,
                                  ProxyConfigurationDivergence}
  }

  /** A working connection: at TCP or at anything that runs over it. */
  const CONNECTED: set<Layer> := {Tcp, Tls, Http, Smb, Ssh, Rdp}

  /** What there is no connection without. */
  const BELOW: set<Layer> := {Interface, IPConfiguration, Route, Gateway, Network, Tcp}

  predicate SpeaksAgainst(succeeded: Layer, failed: Layer) {
    || (failed in BELOW && succeeded in CONNECTED)
    || (failed == Tls && succeeded in CONNECTED - {Tcp})
    || (failed in {Dns, Proxy, Http, Ssh, Rdp, Smb} && succeeded == failed)
  }

  /** The name a target goes by: the requested one, else the tested, the selected, or the literal address. */
  predicate GoesBy(t: Target, x: string) {
    x != "" &&
    if t.identity != "" then x == t.identity
    else if t.tested.Some? then x == t.tested.value
    else if t.selected.Some? then x == t.selected.value
    else x == t.literalIp
  }

  predicate HasAddress(t: Target, x: string) {
    (x == t.literalIp && x != "") || t.selected == Some(x) || t.tested == Some(x)
  }

  ghost predicate SameName(env: Env, a: Target, b: Target) {
    forall x, y :: GoesBy(a, x) && GoesBy(b, y) ==> env.equalFold(x, y)
  }

  ghost predicate ShareAddress(env: Env, a: Target, b: Target) {
    exists x, y :: HasAddress(a, x) && HasAddress(b, y) && (env.equalFold(x, y) || env.matches(a, y) || env.matches(b, x))
  }

  predicate OtherPort(l: Layer, a: Target, b: Target) {
    l in {Tcp, Tls, Http, Ssh, Rdp, Destination} && a.port != 0 && b.port != 0 && a.port != b.port
  }

  /** The failure and the success are about one place. */
  ghost predicate OnePlace(env: Env, l: Layer, a: Target, b: Target) {
    (SameName(env, a, b) || ShareAddress(env, a, b)) && !OtherPort(l, a, b)
  }

  lemma AddressesAre(t: Target, x: string)
    ensures x in Addresses(t) <==> HasAddress(t, x)
  {
  }

  lemma NamesAre(env: Env, a: Target, b: Target)
    ensures SameName(env, a, b) <==> IdentityOf(a) == "" || IdentityOf(b) == "" || env.equalFold(IdentityOf(a), IdentityOf(b))
  {
    assert forall x :: GoesBy(a, x) <==> x != "" && x == IdentityOf(a);
    assert forall x :: GoesBy(b, x) <==> x != "" && x == IdentityOf(b);
    if IdentityOf(a) != "" && IdentityOf(b) != "" {
      assert GoesBy(a, IdentityOf(a)) && GoesBy(b, IdentityOf(b));
    }
  }

  lemma AddressesCorrelateIff(env: Env, a: Target, b: Target)
    ensures AddressesCorrelate(env, a, b) <==> ShareAddress(env, a, b)
  {
    forall x ensures (x in Addresses(a) <==> HasAddress(a, x)) && (x in Addresses(b) <==> HasAddress(b, x)) {
      AddressesAre(a, x);
      AddressesAre(b, x);
    }
  }

  lemma CorrelateIff(env: Env, l: Layer, a: Target, b: Target)
    ensures TargetsCorrelate(env, a, b, l) <==> OnePlace(env, l, a, b)
  {
    NamesAre(env, a, b);
    AddressesCorrelateIff(env, a, b);
  }

  lemma AgainstIff(r: Reason, failed: Layer, succeeded: Layer)
    ensures LayerContradicts(r, failed, succeeded) <==> !ComparativeReason(r) && SpeaksAgainst(succeeded, failed)
  {
  }

  ghost predicate Refutes(env: Env, x: Success, c: Candidate) {
    !Excused(c) && SpeaksAgainst(x.layer, c.layer) && OnePlace(env, c.layer, c.target, x.target)
  }

  /** A candidate is viable exactly when no success at its place speaks against it. */
  lemma ViableIff(env: Env, c: Candidate, successes: seq<Success>)
    ensures Viable(env, c, successes) <==> forall x :: x in successes ==> !Refutes(env, x, c)
  {
    forall x ensures ContradictedBy(env, c, x) && !c.comparative <==> Refutes(env, x, c) {
      CorrelateIff(env, c.layer, c.target, x.target);
      AgainstIff(c.reason, c.layer, x.layer);
    }
  }

  /** A refuted candidate contributes nothing to any finding. */
  lemma RefutedIsIdle(env: Env, s: State, k: nat, x: Success)
    requires k < |s.candidates| && x in s.successes && Refutes(env, x, s.candidates[k])
    ensures Select(env, s) == Select(env, Without(s, k))
  {
    ViableIff(env, s.candidates[k], s.successes);
    NotViableIsIdle(env, s, k);
  }

  /**
   With a working connection at the same place, no failure of the interface, the addresses, the
   route, the gateway, the network or TCP itself stands.
   */
  lemma ConnectionClearsBelow(env: Env, s: State, k: nat, x: Success)
    requires k < |s.candidates| && x in s.successes && x.layer in {Tcp, Tls, Http, Smb, Ssh, Rdp}
    requires var c := s.candidates[k];
             && !Excused(c) && c.layer in {Interface, IPConfiguration, Route, Gateway, Network, Tcp}
             && OnePlace(env, c.layer, c.target, x.target)
    ensures Select(env, s) == Select(env, Without(s, k))
  {
    RefutedIsIdle(env, s, k, x);
  }

  /** TLS is cleared by itself and by what runs over it; the rest only by themselves. */
  lemma SuccessClearsItsOwn(env: Env, s: State, k: nat, x: Success)
    requires k < |s.candidates| && x in s.successes
    requires var c := s.candidates[k];
             && !Excused(c) && OnePlace(env, c.layer, c.target, x.target)
             && if c.layer == Tls then x.layer in {Tls, Http, Smb, Ssh, Rdp}
                else c.layer in {Dns, Proxy, Http, Ssh, Rdp, Smb} && x.layer == c.layer
    ensures Select(env, s) == Select(env, Without(s, k))
  {
    RefutedIsIdle(env, s, k, x);
  }

  lemma SameViable(env: Env, s: State, t: State)
    requires t == s.(successes := t.successes)
    requires forall c :: c in s.candidates ==> Viable(env, c, s.successes) == Viable(env, c, t.successes)
    ensures Select(env, s) == Select(env, t)
  {
    forall r ensures ViableFor(env, s, r) == ViableFor(env, t, r) {
      FilteredAgrees(s.candidates, c => Supports(env, s, r, c), c => Supports(env, t, r, c));
    }
    FilteredAgrees(s.candidates, c => SupportsGeneric(env, s, c), c => SupportsGeneric(env, t, c));
    FilteredAgrees(s.candidates, c => GatewaySpeaks(env, s, c), c => GatewaySpeaks(env, t, c));
    SameParts(env, s, t);
  }

  /**
   Any other success changes nothing: one below the failed layer, at another place, on another
   port, or beside a comparative observation.
   */
  lemma OtherSuccessIsIdle(env: Env, s: State, x: Success)
    requires forall c :: c in s.candidates ==> !Refutes(env, x, c)
    ensures Select(env, s.(successes := s.successes + [x])) == Select(env, s)
  {
    var t := s.(successes := s.successes + [x]);
    forall c | c in s.candidates ensures Viable(env, c, s.successes) == Viable(env, c, t.successes) {
      ViableIff(env, c, s.successes);
      ViableIff(env, c, t.successes);
      assert forall y :: y in t.successes <==> y in s.successes || y == x;
    }
    SameViable(env, s, t);
  }

  /** A success at a lower layer never removes a candidate from a higher one. */
  lemma LowerSuccessIsIdle(env: Env, s: State, x: Success)
    requires Rank(x.layer) < 1000 && forall c :: c in s.candidates ==> Rank(x.layer) < Rank(c.layer)
    ensures Select(env, s.(successes := s.successes + [x])) == Select(env, s)
  {
    forall c | c in s.candidates ensures !Refutes(env, x, c) {
      LowerSpeaksNot(x.layer, c.layer);
    }
    OtherSuccessIsIdle(env, s, x);
  }

  lemma LowerSpeaksNot(succeeded: Layer, failed: Layer)
    requires Rank(succeeded) < Rank(failed)
    ensures !SpeaksAgainst(succeeded, failed)
  {
  }

  /** All failures below a working connection at one place: nothing is found. */
  lemma HealthyNetworkIsSilent(env: Env, s: State, x: Success)
    requires x in s.successes && x.layer in {Tcp, Tls, Http, Smb, Ssh, Rdp}
    requires forall c :: c in s.candidates ==>
               && !Excused(c) && c.layer in {Interface, IPConfiguration, Route, Gateway, Network, Tcp}
               && OnePlace(env, c.layer, c.target, x.target)
    ensures Select(env, s) == []
  {
    forall c | c in s.candidates ensures !Viable(env, c, s.successes) {
      assert Refutes(env, x, c);
      ViableIff(env, c, s.successes);
    }
    SilentIff(env, s);
  }

  // ---- the gateway ----

  /** The gateway is named exactly when it is in use and some unrefuted candidate blames it. */
  lemma GatewayIsNamedIff(env: Env, s: State)
    ensures (exists f :: f in Select(env, s) && f.reason.GatewayUnreachable?) <==>
              && !s.route.OnLink? && (s.route.Routed? ==> s.hasGateway)
              && exists c :: c in s.candidates && c.reason.GatewayUnreachable? && forall x :: x in s.successes ==> !Refutes(env, x, c)
  {
    var findings, named := Select(env, s), GatewayFindings(env, s);
    GatewayReason(env, s);
    HeadIsNoGateway(env, s);
    NoGatewayIff(env, s);
    forall c ensures Viable(env, c, s.successes) <==> forall x :: x in s.successes ==> !Refutes(env, x, c) {
      ViableIff(env, c, s.successes);
    }
    if named != [] {
      assert findings[|findings| - 1] == named[0];
    } else {
      assert forall f :: f in findings ==> !f.reason.GatewayUnreachable?;
    }
  }

  /** Every finding is of the winning rule, an extension failure, or the gateway. */
  lemma FindingReasons(env: Env, s: State, f: Finding)
    requires f in Select(env, s)
    ensures f in GatewayFindings(env, s) || Generic(f.reason) || (Winning(env, s, 0) < |RULES| && f.reason == RULES[Winning(env, s, 0)])
  {
    BuiltInReason(env, s);
    ExtensionReason(env, s);
  }

  lemma HeadIsNoGateway(env: Env, s: State)
    ensures GatewayFindings(env, s) == [] ==> forall f :: f in Select(env, s) ==> !f.reason.GatewayUnreachable?
    ensures GatewayFindings(env, s) != [] ==> Select(env, s) != [] && Select(env, s)[|Select(env, s)| - 1] == GatewayFindings(env, s)[0]
  {
    GatewayReason(env, s);
    SelectIs(env, s);
    if GatewayFindings(env, s) == [] {
      forall f | f in Select(env, s) ensures !f.reason.GatewayUnreachable? {
        FindingReasons(env, s, f);
        RulesHaveNoGateway();
      }
    }
  }

  // ---- which failure comes first ----

  /** Where the policy places a reason; the policy block stands among the proxy failures. */
  function Place(r: Reason): nat {
    match r
    case InterfaceDown => 0
    case NoIPAddress => 1
    case NoRoute => 2
    case InvalidRoute => 3
    case EffectiveRouteDifference => 4
    case DnsNxDomain => 5
    case DnsNoAnswer => 6
    case DnsTimeout => 7
    case DnsResolverFailure => 8
    case ProxyAuthenticationRequired => 9
    case ProxyConnectDenied => 10
    case DirectEgressRestricted => 11
    case ProxyConfigurationDivergence => 12
    case ProxyConfigurationFailure => 13
    case ProxyUnavailable => 14
    case NetworkUnreachable => 15
    case FirewallBlocked => 16
    case TcpTimeout => 17
    case TcpConnectionRefused => 18
    case TcpConnectionReset => 19
    case TcpSynNotObserved => 20
    case TlsInterceptionSuspected => 21
    case TlsTrustStoreMismatch => 22
    case TlsHandshakeFailure => 23
    case CertificateValidationFailure => 24
    case HttpStatusCode => 25
    case HttpFailure => 26
    case SshTimeout => 27
    case SshBannerMalformed => 28
    case SshNonSshResponse => 29
    case SshHandshakeFailure => 30
    case RdpTimeout => 31
    case RdpNegotiationRejected => 32
    case RdpNegotiationMalformed => 33
    case RdpNegotiationFailure => 34
    case ProbeExecution => 35
    case _ => 36
  }

  lemma RulePlaces(k: nat)
    requires k < |RULES|
    ensures Place(RULES[k]) == k
  {
    if k <= 14 {
      EarlyRules(k);
    } else if k <= 24 {
      MiddleRules(k);
    } else {
      LateRules(k);
    }
  }

  lemma EarlyRules(k: nat)
    requires k <= 14
    ensures Place(RULES[k]) == k
  {
  }

  lemma MiddleRules(k: nat)
    requires 15 <= k <= 24
    ensures Place(RULES[k]) == k
  {
  }

  lemma LateRules(k: nat)
    requires 25 <= k < |RULES|
    ensures Place(RULES[k]) == k
  {
  }

  lemma PlaceRanks(r: Reason)
    requires Place(r) < 36
    ensures var k := Place(r);
            Rank(Semantics(r).0) ==
              if k <= 1 then 10 else if k <= 4 then 20 else if k <= 8 then 40 else if k <= 10 then 50 else if k == 11 then 60
              else if k <= 14 then 50 else if k <= 16 then 60 else if k <= 20 then 70 else if k <= 24 then 80
              else if k <= 26 then 90 else if k <= 34 then 95 else 1000
  {
  }

  /** The policy goes from boundary to boundary, except for the policy block. */
  lemma BoundariesAscend(r: Reason, later: Reason)
    requires Place(r) < Place(later) < 36 && !r.DirectEgressRestricted? && !later.DirectEgressRestricted?
    ensures Rank(Semantics(r).0) <= Rank(Semantics(later).0)
  {
    PlaceRanks(r);
    PlaceRanks(later);
  }

  /** Within one boundary, the specific failures precede the broad one. */
  predicate Specific(r: Reason, broad: Reason) {
    match broad
    case DnsResolverFailure => r in {DnsNxDomain, DnsNoAnswer, DnsTimeout}
    case ProxyUnavailable => r in {ProxyAuthenticationRequired, ProxyConnectDenied, ProxyConfigurationDivergence, ProxyConfigurationFailure}
    case TlsHandshakeFailure => r in {TlsInterceptionSuspected, TlsTrustStoreMismatch}
    case HttpFailure => r == HttpStatusCode
    case SshHandshakeFailure => r in {SshTimeout, SshBannerMalformed, SshNonSshResponse}
    case RdpNegotiationFailure => r in {RdpTimeout, RdpNegotiationRejected, RdpNegotiationMalformed}
    case _ => false
  }

  lemma SpecificComesFirst(r: Reason, broad: Reason)
    requires Specific(r, broad)
    ensures Place(r) < Place(broad) < 36
  {
  }

  lemma SomeRuleApplies(env: Env, s: State, c: Candidate) returns (j: nat)
    requires c in s.candidates && !c.supporting && Viable(env, c, s.successes) && c.reason in RULES
    ensures j < |RULES| && RULES[j] == c.reason && Winning(env, s, 0) <= j
  {
    j :| 0 <= j < |RULES| && RULES[j] == c.reason;
    WinningIsFirst(env, s);
    assert Supports(env, s, RULES[j], c);
    assert RuleApplies(env, s, j);
  }

  lemma SomethingIsFound(env: Env, s: State)
    requires Winning(env, s, 0) < |RULES|
    ensures Select(env, s) != []
  {
    SilentParts(env, s);
  }

  lemma WinnerIsNotLater(env: Env, s: State, c: Candidate, later: Reason)
    requires c in s.candidates && !c.supporting && Viable(env, c, s.successes) && c.reason in RULES && Place(c.reason) < Place(later)
    ensures Winning(env, s, 0) < |RULES| && RULES[Winning(env, s, 0)] != later
  {
    var w := Winning(env, s, 0);
    var j := SomeRuleApplies(env, s, c);
    RulePlaces(j);
    RulePlaces(w);
  }

  lemma GatewayFound(env: Env, s: State, f: Finding)
    requires f in GatewayFindings(env, s)
    ensures f.reason.GatewayUnreachable?
  {
    GatewayReason(env, s);
  }

  /** A later failure is never found while one that precedes it is viable. */
  lemma EarlierFailureWins(env: Env, s: State, c: Candidate, later: Reason)
    requires c in s.candidates && !c.supporting && Viable(env, c, s.successes)
    requires c.reason in RULES && later in RULES && Place(c.reason) < Place(later)
    ensures Select(env, s) != [] && forall f :: f in Select(env, s) ==> f.reason != later
  {
    WinnerIsNotLater(env, s, c, later);
    SomethingIsFound(env, s);
    forall f | f in Select(env, s) ensures f.reason != later {
      FindingReasons(env, s, f);
      if f in GatewayFindings(env, s) {
        GatewayFound(env, s, f);
        RulesHaveNoGateway();
      }
    }
  }

  // ---- what a finding shows ----

  /** Layer and domain go together, but for local failures, the network's three domains and an attempt that never left. */
  lemma DomainFollowsLayer(r: Reason)
    ensures var (l, d) := Semantics(r);
            && (l.Dns? <==> d.DnsDomain?) && (l.Proxy? <==> d.ProxyDomain?) && (l.Tls? <==> d.TlsDomain?) && (l.Http? <==> d.HttpDomain?)
            && (l.Ssh? <==> d.SshDomain?) && (l.Rdp? <==> d.RdpDomain?) && (l.Smb? <==> d.SmbDomain?)
            && (l.Route? <==> d.Routing?) && (l.Gateway? <==> d.GatewayDomain?) && (l.Gateway? <==> r.GatewayUnreachable?)
            && (l.Interface? || l.IPConfiguration? || r.TcpSynNotObserved? <==> d.Local?)
            && (l.Tcp? <==> d.Transport? || r.TcpSynNotObserved?)
            && (l.Network? <==> d.Policy? || d.NetworkDomain? || d.Firewall?)
            && (d.Policy? <==> r.DirectEgressRestricted?) && (d.Firewall? <==> r.FirewallBlocked?)
            && (l.UnknownLayer? <==> d.UnknownDomain?)
            && (l.Smb? <==> r.SmbTimeout? || r.SmbProtocolRejection? || r.SmbMalformedResponse?) && (r.SmbConnectionRefused? ==> l.Tcp?)
  {
  }

  /** An extension failure has no rule. */
  lemma ExtensionHasNoRule(env: Env, s: State)
    requires Generics(env, s) != []
    ensures MakeFinding(Merged(AlikeFirst(Generics(env, s)))).reason !in RULES
  {
    var extensions := Generics(env, s);
    WinnersHaveRules(env, s);
    FirstIsAlike(extensions);
    MergedShows(AlikeFirst(extensions));
    FindingReason(Merged(AlikeFirst(extensions)));
    assert extensions[0] in extensions;
  }

  lemma HeadWithRule(env: Env, s: State, f: Finding)
    requires f in Head(Winners(env, s), Generics(env, s)) && f.reason in RULES
    ensures Winners(env, s) != [] && f == MakeFinding(Merged(Winners(env, s)))
  {
    if Generics(env, s) != [] {
      ExtensionHasNoRule(env, s);
    }
    HeadIsOne(Winners(env, s), Generics(env, s), f);
  }

  lemma HeadIsOne(winners: seq<Candidate>, extensions: seq<Candidate>, f: Finding)
    requires f in Head(winners, extensions)
    ensures (extensions != [] && f == MakeFinding(Merged(AlikeFirst(extensions)))) || (winners != [] && f == MakeFinding(Merged(winners)))
  {
  }

  lemma BuiltInFinding(env: Env, s: State, f: Finding)
    requires f in Select(env, s) && f.reason in RULES
    ensures var viable := ViableFor(env, s, f.reason);
            f.probeNames == UniqueOf(AllNames(viable)) && f.evidenceIds == UniqueOf(AllIds(viable))
  {
    SelectIs(env, s);
    if f in GatewayFindings(env, s) {
      GatewayFound(env, s, f);
      RulesHaveNoGateway();
    }
    HeadWithRule(env, s, f);
    MergedFinding(Winners(env, s), Winners(env, s)[0]);
    ViableForAre(env, s, RULES[Winning(env, s, 0)]);
    assert Winners(env, s)[0] in Winners(env, s);
  }

  /** Evidence behind a built-in finding: the probes and evidence of exactly the viable candidates with its reason. */
  lemma FindingCitesIff(env: Env, s: State, f: Finding, x: string)
    requires f in Select(env, s) && f.reason in RULES
    ensures x in f.probeNames <==> exists c :: c in s.candidates && Supports(env, s, f.reason, c) && x in c.probeNames
    ensures x in f.evidenceIds <==> exists c :: c in s.candidates && Supports(env, s, f.reason, c) && x in c.evidenceIds
    ensures StrictlyAscending(f.probeNames) && StrictlyAscending(f.evidenceIds)
  {
    var viable := ViableFor(env, s, f.reason);
    BuiltInFinding(env, s, f);
    InAllNames(viable, x);
    UniqueOfIs(AllNames(viable));
    UniqueOfIs(AllIds(viable));
    assert x in f.probeNames <==> x in Elements(f.probeNames);
    assert x in f.evidenceIds <==> x in Elements(f.evidenceIds);
  }

  // ---- which extension failure ----

  /** By rank, then by the names of reason and domain, then by the probes. */
  ghost predicate SortsFirst(env: Env, e: Candidate, c: Candidate) {
    var (r, d, p) := (env.reasonName, env.domainName, (x: Candidate) => JoinNul(UniqueOf(x.probeNames)));
    && Rank(e.layer) <= Rank(c.layer)
    && (Rank(e.layer) == Rank(c.layer) ==> StringLe(r(e.reason), r(c.reason)))
    && (Rank(e.layer) == Rank(c.layer) && r(e.reason) == r(c.reason) ==> StringLe(d(e.domain), d(c.domain)))
    && (Rank(e.layer) == Rank(c.layer) && r(e.reason) == r(c.reason) && d(e.domain) == d(c.domain) ==> StringLe(p(e), p(c)))
  }

  lemma LeSortsFirst(env: Env, e: Candidate, c: Candidate)
    requires GenericLe(env, e, c)
    ensures SortsFirst(env, e, c)
  {
    StringLeIsOrder();
  }

  /** The extension failure that is found is the one that sorts first. */
  lemma FirstExtensionIs(env: Env, s: State, c: Candidate)
    requires c in s.candidates && SupportsGeneric(env, s, c)
    ensures Generics(env, s) != [] && SortsFirst(env, Generics(env, s)[0], c)
    ensures ExtensionFailure(env, s).Some? && ExtensionFailure(env, s).value.reason == Generics(env, s)[0].reason
            && ExtensionFailure(env, s).value.layer == Generics(env, s)[0].layer
  {
    GenericsAre(env, s, c);
    ExtensionReason(env, s);
    GenericsAreSorted(env, s);
    FirstIsLeast(GenericOrder(env), Generics(env, s), c);
    LeSortsFirst(env, Generics(env, s)[0], c);
  }

  predicate PlainNames(s: seq<string>) {
    forall i :: 0 <= i < |s| ==> s[i] != "" && forall j :: 0 <= j < |s[i]| ==> s[i][j] != 0 as char
  }

  lemma NulSplits(p: string, x: string, q: string, y: string)
    requires (forall i :: 0 <= i < |p| ==> p[i] != 0 as char) && (forall i :: 0 <= i < |q| ==> q[i] != 0 as char)
    requires p + [0 as char] + x == q + [0 as char] + y
    ensures p == q && x == y
  {
    var a, b := p + [0 as char] + x, q + [0 as char] + y;
    assert a[|p|] == 0 as char && b[|q|] == 0 as char;
    assert forall i :: 0 <= i < |p| ==> a[i] == p[i];
    assert forall i :: 0 <= i < |q| ==> b[i] == q[i];
    assert |p| == |q|;
    assert p == a[..|p|] && q == b[..|q|] && x == a[|p| + 1..] && y == b[|q| + 1..];
  }

  lemma NulStays(p: string, x: string, q: string)
    requires forall i :: 0 <= i < |q| ==> q[i] != 0 as char
    ensures p + [0 as char] + x != q
  {
    assert (p + [0 as char] + x)[|p|] == 0 as char;
  }

  /** Lists of names are compared as lists: the separator keeps the names apart. */
  lemma {:induction false} JoinedApart(a: seq<string>, b: seq<string>)
    requires PlainNames(a) && PlainNames(b) && JoinNul(a) == JoinNul(b)
    ensures a == b
    decreases |a|
  {
    if |a| > 1 && |b| > 1 {
      NulSplits(a[0], JoinNul(a[1..]), b[0], JoinNul(b[1..]));
      JoinedApart(a[1..], b[1..]);
      assert a == [a[0]] + a[1..] && b == [b[0]] + b[1..];
    } else if |a| > 1 {
      NulStays(a[0], JoinNul(a[1..]), if b == [] then "" else b[0]);
    } else if |b| > 1 {
      NulStays(b[0], JoinNul(b[1..]), if a == [] then "" else a[0]);
    }
  }
}
