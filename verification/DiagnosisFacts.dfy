/**
 What the selection of findings guarantees: two findings at most, none passed over, nothing gained
 by a success, and when the order of the candidates matters.
 */
module DiagnosisFacts {
  import opened Lists
  import opened Options
  import opened Orders
  import opened Diagnosis

  // ---- at most two ----

  lemma MergedReason(cs: seq<Candidate>, r: Reason)
    requires cs != [] && forall c :: c in cs ==> c.reason == r
    ensures Merged(cs).reason == r
  {
    assert cs[0] in cs;
  }

  lemma FindingReason(c: Candidate)
    ensures MakeFinding(c).reason == c.reason && MakeFinding(c).layer == Shown(c).0 && MakeFinding(c).domain == Shown(c).1
  {
  }

  lemma BuiltInReason(env: Env, s: State)
    ensures BuiltIn(env, s).Some? ==> Winning(env, s, 0) < |RULES| && BuiltIn(env, s).value.reason == RULES[Winning(env, s, 0)]
  {
    var w := Winning(env, s, 0);
    if w < |RULES| {
      MergedReason(ViableFor(env, s, RULES[w]), RULES[w]);
    }
  }

  lemma RulesHaveNoGateway()
    ensures GatewayUnreachable !in RULES
  {
  }

  lemma GenericsAre(env: Env, s: State, c: Candidate)
    ensures c in Generics(env, s) <==> c in s.candidates && SupportsGeneric(env, s, c)
  {
    SameElements(Filtered(s.candidates, c => SupportsGeneric(env, s, c)), Generics(env, s));
  }

  lemma ExtensionReason(env: Env, s: State)
    ensures ExtensionFailure(env, s).Some? ==> Generics(env, s) != [] && Generic(ExtensionFailure(env, s).value.reason)
    ensures ExtensionFailure(env, s).Some? ==>
              ExtensionFailure(env, s).value.reason == Generics(env, s)[0].reason && ExtensionFailure(env, s).value.layer == Generics(env, s)[0].layer
  {
    if Generics(env, s) != [] {
      var first, alike := Generics(env, s)[0], AlikeFirst(Generics(env, s));
      GenericsAre(env, s, first);
      assert alike[0] in alike;
    }
  }

  lemma GatewayMerged(cs: seq<Candidate>)
    requires cs != [] && forall c :: c in cs ==> c.reason.GatewayUnreachable?
    ensures MakeFinding(Merged(cs)).reason.GatewayUnreachable? && MakeFinding(Merged(cs)).layer.Gateway?
  {
    MergedReason(cs, GatewayUnreachable);
    FindingReason(Merged(cs));
    GatewayShows(Merged(cs));
  }

  lemma GatewayShows(c: Candidate)
    requires c.reason.GatewayUnreachable?
    ensures Shown(c) == (Gateway, GatewayDomain)
  {
  }

  lemma GatewayReason(env: Env, s: State)
    ensures |GatewayFindings(env, s)| <= 1
    ensures GatewayFindings(env, s) != [] ==>
              GatewayFindings(env, s)[0].reason.GatewayUnreachable? && GatewayFindings(env, s)[0].layer.Gateway?
  {
    if GatewayCandidates(env, s) != [] {
      GatewayMerged(GatewayCandidates(env, s));
    }
  }

  /** At most two findings; the second is always the gateway, and then the first is not. */
  lemma AtMostTwo(env: Env, s: State)
    ensures |Select(env, s)| <= 2
    ensures |Select(env, s)| == 2 ==> Select(env, s)[1].reason.GatewayUnreachable? && !Select(env, s)[0].reason.GatewayUnreachable?
  {
    BuiltInReason(env, s);
    ExtensionReason(env, s);
    GatewayReason(env, s);
    RulesHaveNoGateway();
  }

  // ---- nothing is passed over ----

  /** Some viable candidate has the reason of rule k. */
  ghost predicate RuleApplies(env: Env, s: State, k: nat) {
    k < |RULES| && exists c :: c in s.candidates && Supports(env, s, RULES[k], c)
  }

  lemma ViableForIff(env: Env, s: State, r: Reason)
    ensures ViableFor(env, s, r) != [] <==> exists c :: c in s.candidates && Supports(env, s, r, c)
  {
    NotEmpty(ViableFor(env, s, r));
  }

  lemma WinningIsFirst(env: Env, s: State)
    ensures var w := Winning(env, s, 0);
            && (w < |RULES| ==> RuleApplies(env, s, w))
            && (forall k :: 0 <= k < w ==> !RuleApplies(env, s, k))
  {
    var w := Winning(env, s, 0);
    forall k | 0 <= k < |RULES| ensures RuleApplies(env, s, k) <==> ViableFor(env, s, RULES[k]) != [] {
      ViableForIff(env, s, RULES[k]);
    }
  }

  lemma GenericOrderIsOrder(env: Env)
    ensures TotalPreorder(GenericOrder(env))
  {
    StringLeIsOrder();
    forall a, b, c | GenericLe(env, a, b) && GenericLe(env, b, c) ensures GenericLe(env, a, c) {
      GenericLeTransitive(env, a, b, c);
    }
  }

  lemma GenericLeTransitive(env: Env, a: Candidate, b: Candidate, c: Candidate)
    requires GenericLe(env, a, b) && GenericLe(env, b, c)
    ensures GenericLe(env, a, c)
  {
    StringLeIsOrder();
    if Rank(a.layer) == Rank(c.layer) {
      assert Rank(a.layer) == Rank(b.layer);
      if env.reasonName(a.reason) == env.reasonName(c.reason) {
        assert env.reasonName(a.reason) == env.reasonName(b.reason);
        if env.domainName(a.domain) == env.domainName(c.domain) {
          assert env.domainName(a.domain) == env.domainName(b.domain);
        }
      }
    }
  }

  /** The extension has the lowest layer rank of all viable extension candidates. */
  lemma ExtensionIsLowest(env: Env, s: State, c: Candidate)
    requires c in s.candidates && SupportsGeneric(env, s, c)
    ensures ExtensionFailure(env, s).Some? && Rank(ExtensionFailure(env, s).value.layer) <= Rank(c.layer)
  {
    var ordered := Generics(env, s);
    GenericsAre(env, s, c);
    ExtensionReason(env, s);
    GenericOrderIsOrder(env);
    SortBySorted(GenericOrder(env), Filtered(s.candidates, c => SupportsGeneric(env, s, c)));
    FirstIsLeast(GenericOrder(env), ordered, c);
    assert GenericOrder(env)(ordered[0], c);
  }

  /** The winning rule's reason, no earlier rule applying, no extension strictly lower. */
  ghost predicate RuleIsBest(env: Env, s: State, r: Reason) {
    var w := Winning(env, s, 0);
    && w < |RULES| && r == RULES[w] && RuleApplies(env, s, w)
    && (forall k :: 0 <= k < w ==> !RuleApplies(env, s, k))
    && (forall c :: c in s.candidates && SupportsGeneric(env, s, c) ==> Rank(ViableFor(env, s, RULES[w])[0].layer) <= Rank(c.layer))
  }

  /** A viable extension of minimal rank, strictly below that of the rule that would have won. */
  ghost predicate ExtensionIsBest(env: Env, s: State, c: Candidate) {
    && c in s.candidates && SupportsGeneric(env, s, c)
    && (forall d :: d in s.candidates && SupportsGeneric(env, s, d) ==> Rank(c.layer) <= Rank(d.layer))
    && (Winning(env, s, 0) < |RULES| ==> Rank(c.layer) < Rank(ViableFor(env, s, RULES[Winning(env, s, 0)])[0].layer))
  }

  lemma ExtensionWinsBest(env: Env, s: State)
    requires ExtensionWins(BuiltIn(env, s), ExtensionFailure(env, s))
    ensures Generics(env, s) != [] && ExtensionIsBest(env, s, Generics(env, s)[0])
    ensures ExtensionFailure(env, s).value.reason == Generics(env, s)[0].reason
  {
    ExtensionReason(env, s);
    var c := Generics(env, s)[0];
    GenericsAre(env, s, c);
    forall d | d in s.candidates && SupportsGeneric(env, s, d) ensures Rank(c.layer) <= Rank(d.layer) {
      ExtensionIsLowest(env, s, d);
    }
  }

  lemma RuleWinsBest(env: Env, s: State)
    requires !ExtensionWins(BuiltIn(env, s), ExtensionFailure(env, s)) && BuiltIn(env, s).Some?
    ensures RuleIsBest(env, s, BuiltIn(env, s).value.reason)
  {
    WinningIsFirst(env, s);
    BuiltInReason(env, s);
    forall c | c in s.candidates && SupportsGeneric(env, s, c)
      ensures Rank(ViableFor(env, s, RULES[Winning(env, s, 0)])[0].layer) <= Rank(c.layer)
    {
      ExtensionIsLowest(env, s, c);
    }
  }

  lemma SelectCases(env: Env, s: State)
    ensures ExtensionWins(BuiltIn(env, s), ExtensionFailure(env, s)) ==>
              Select(env, s) != [] && Select(env, s)[0].reason == ExtensionFailure(env, s).value.reason
    ensures !ExtensionWins(BuiltIn(env, s), ExtensionFailure(env, s)) && BuiltIn(env, s).Some? ==>
              Select(env, s) != [] && Select(env, s)[0].reason == BuiltIn(env, s).value.reason
    ensures !ExtensionWins(BuiltIn(env, s), ExtensionFailure(env, s)) && BuiltIn(env, s).None? ==> Select(env, s) == GatewayFindings(env, s)
  {
  }

  /**
   The first finding is the best there is: if it has a built-in reason, no earlier rule applies and
   no viable extension has a strictly lower layer rank than the rule's first viable candidate; if
   it is an extension, its rank is minimal and strictly below that of the rule that would have won.
   */
  lemma SelectionIsOptimal(env: Env, s: State)
    requires Select(env, s) != [] && !Select(env, s)[0].reason.GatewayUnreachable?
    ensures RuleIsBest(env, s, Select(env, s)[0].reason)
            || exists c :: ExtensionIsBest(env, s, c) && c.reason == Select(env, s)[0].reason
  {
    SelectCases(env, s);
    GatewayReason(env, s);
    if ExtensionWins(BuiltIn(env, s), ExtensionFailure(env, s)) {
      ExtensionWinsBest(env, s);
    } else if BuiltIn(env, s).Some? {
      RuleWinsBest(env, s);
    }
  }

  lemma SilentParts(env: Env, s: State)
    ensures Select(env, s) == [] <==> Winning(env, s, 0) == |RULES| && Generics(env, s) == [] && GatewayCandidates(env, s) == []
  {
  }

  lemma NoGenericsIff(env: Env, s: State)
    ensures Generics(env, s) == [] <==> forall c :: c in s.candidates ==> !SupportsGeneric(env, s, c)
  {
    NotEmpty(Generics(env, s));
    forall c ensures c in Generics(env, s) <==> c in s.candidates && SupportsGeneric(env, s, c) {
      GenericsAre(env, s, c);
    }
  }

  lemma NoGatewayIff(env: Env, s: State)
    ensures GatewayCandidates(env, s) == [] <==> forall c :: c in s.candidates ==> !GatewaySpeaks(env, s, c)
  {
    NotEmpty(GatewayCandidates(env, s));
  }

  /** There is no finding exactly when no rule applies and nothing viable speaks for an extension or the gateway. */
  lemma SilentIff(env: Env, s: State)
    ensures Select(env, s) == [] <==>
              && (forall k :: 0 <= k < |RULES| ==> !RuleApplies(env, s, k))
              && (forall c :: c in s.candidates ==> !SupportsGeneric(env, s, c) && !GatewaySpeaks(env, s, c))
  {
    SilentParts(env, s);
    NoGenericsIff(env, s);
    NoGatewayIff(env, s);
    WinningIsFirst(env, s);
  }

  // ---- successes only take away ----

  /** More successes never make a candidate viable, and never remove a comparative one. */
  lemma SuccessesOnlyContradict(env: Env, c: Candidate, some: seq<Success>, more: seq<Success>)
    ensures Viable(env, c, some + more) ==> Viable(env, c, some)
    ensures c.comparative ==> Viable(env, c, some + more)
    ensures ComparativeReason(c.reason) ==> Viable(env, c, some + more)
  {
    assert forall x :: x in some ==> x in some + more;
  }

  lemma MoreSuccesses(env: Env, s: State, more: seq<Success>, c: Candidate)
    ensures Viable(env, c, s.successes + more) ==> Viable(env, c, s.successes)
    ensures GatewaySpeaks(env, s.(successes := s.successes + more), c) ==> GatewaySpeaks(env, s, c)
    ensures SupportsGeneric(env, s.(successes := s.successes + more), c) ==> SupportsGeneric(env, s, c)
    ensures forall r :: Supports(env, s.(successes := s.successes + more), r, c) ==> Supports(env, s, r, c)
  {
    SuccessesOnlyContradict(env, c, s.successes, more);
  }

  lemma RuleStillApplies(env: Env, s: State, more: seq<Success>, k: nat)
    requires RuleApplies(env, s.(successes := s.successes + more), k)
    ensures RuleApplies(env, s, k)
  {
    var t := s.(successes := s.successes + more);
    var c :| c in t.candidates && Supports(env, t, RULES[k], c);
    MoreSuccesses(env, s, more, c);
  }

  /** So with more successes the winning rule is never an earlier one, and extensions only disappear. */
  lemma SuccessesOnlyWeaken(env: Env, s: State, more: seq<Success>)
    ensures Winning(env, s, 0) <= Winning(env, s.(successes := s.successes + more), 0)
    ensures forall c :: c in Generics(env, s.(successes := s.successes + more)) ==> c in Generics(env, s)
    ensures GatewayFindings(env, s) == [] ==> GatewayFindings(env, s.(successes := s.successes + more)) == []
  {
    var t := s.(successes := s.successes + more);
    WinningIsFirst(env, s);
    WinningIsFirst(env, t);
    if Winning(env, t, 0) < |RULES| {
      RuleStillApplies(env, s, more, Winning(env, t, 0));
    }
    forall c ensures c in Generics(env, t) ==> c in Generics(env, s) {
      GenericsAre(env, s, c);
      GenericsAre(env, t, c);
      MoreSuccesses(env, s, more, c);
    }
    forall c ensures GatewaySpeaks(env, t, c) ==> GatewaySpeaks(env, s, c) {
      MoreSuccesses(env, s, more, c);
    }
    NoGatewayIff(env, s);
    NoGatewayIff(env, t);
  }

  // ---- the order of candidates and successes ----

  /** Two states with the same candidates and successes, in any order. */
  ghost predicate Rearranged(s: State, t: State) {
    && multiset(s.candidates) == multiset(t.candidates)
    && (forall x :: x in s.successes <==> x in t.successes)
    && s.route == t.route && s.hasGateway == t.hasGateway
  }

  /** Candidates that make the same finding make the same one together, in any order. */
  ghost predicate Agree(cs: seq<Candidate>) {
    forall c, d :: c in cs && d in cs ==> c.reason == d.reason && Shown(c) == Shown(d)
  }

  lemma {:induction false} InAllNames(cs: seq<Candidate>, x: string)
    ensures x in AllNames(cs) <==> exists c :: c in cs && x in c.probeNames
    ensures x in AllIds(cs) <==> exists c :: c in cs && x in c.evidenceIds
  {
    if cs != [] {
      var front, last := cs[..|cs| - 1], cs[|cs| - 1];
      InAllNames(front, x);
      assert cs == front + [last];
      assert forall c :: c in cs <==> c in front || c == last;
    }
  }

  lemma NamesOfSame(a: seq<Candidate>, b: seq<Candidate>)
    requires forall c :: c in a <==> c in b
    ensures UniqueOf(AllNames(a)) == UniqueOf(AllNames(b)) && UniqueOf(AllIds(a)) == UniqueOf(AllIds(b))
  {
    forall x ensures (x in AllNames(a) <==> x in AllNames(b)) && (x in AllIds(a) <==> x in AllIds(b)) {
      InAllNames(a, x);
      InAllNames(b, x);
    }
    assert Elements(AllNames(a)) == Elements(AllNames(b)) && Elements(AllIds(a)) == Elements(AllIds(b));
    UniqueOfSet(AllNames(a), AllNames(b));
    UniqueOfSet(AllIds(a), AllIds(b));
  }

  lemma AgreeingFindings(a: seq<Candidate>, b: seq<Candidate>)
    requires multiset(a) == multiset(b) && a != [] && b != [] && Agree(a)
    ensures MakeFinding(Merged(a)) == MakeFinding(Merged(b))
  {
    SameElements(a, b);
    NamesOfSame(a, b);
    assert a[0] in a && b[0] in a;
    MergedShows(a);
    MergedShows(b);
    SameFindings(Merged(a), Merged(b));
  }

  lemma MergedShows(cs: seq<Candidate>)
    requires cs != []
    ensures Merged(cs).reason == cs[0].reason && Shown(Merged(cs)) == Shown(cs[0])
    ensures Merged(cs).probeNames == UniqueOf(AllNames(cs)) && Merged(cs).evidenceIds == UniqueOf(AllIds(cs))
  {
  }

  lemma SameFindings(c: Candidate, d: Candidate)
    requires c.reason == d.reason && Shown(c) == Shown(d) && c.probeNames == d.probeNames && c.evidenceIds == d.evidenceIds
    ensures MakeFinding(c) == MakeFinding(d)
  {
  }

  lemma SameViability(env: Env, s: State, t: State, c: Candidate)
    requires Rearranged(s, t)
    ensures Viable(env, c, s.successes) == Viable(env, c, t.successes)
  {
  }

  lemma {:induction false} FilteredAgrees<T(!new)>(a: seq<T>, p: T -> bool, q: T -> bool)
    requires forall x :: x in a ==> p(x) == q(x)
    ensures Filtered(a, p) == Filtered(a, q)
  {
    if a != [] {
      assert a == a[..|a| - 1] + [a[|a| - 1]];
      FilteredAgrees(a[..|a| - 1], p, q);
    }
  }

  lemma ViableForPermutes(env: Env, s: State, t: State, r: Reason)
    requires Rearranged(s, t)
    ensures multiset(ViableFor(env, s, r)) == multiset(ViableFor(env, t, r))
    ensures ViableFor(env, s, r) == [] <==> ViableFor(env, t, r) == []
  {
    var p, q := c => Supports(env, s, r, c), c => Supports(env, t, r, c);
    forall c ensures p(c) == q(c) {
      SameViability(env, s, t, c);
    }
    FilteredPermutes(s.candidates, t.candidates, p);
    FilteredAgrees(t.candidates, p, q);
    SameElements(ViableFor(env, s, r), ViableFor(env, t, r));
  }

  lemma WinningPermutes(env: Env, s: State, t: State)
    requires Rearranged(s, t)
    ensures Winning(env, s, 0) == Winning(env, t, 0)
  {
    var v, w := Winning(env, s, 0), Winning(env, t, 0);
    if v < |RULES| {
      ViableForPermutes(env, s, t, RULES[v]);
    }
    if w < |RULES| {
      ViableForPermutes(env, s, t, RULES[w]);
    }
  }

  lemma GatewayCandidatesPermute(env: Env, s: State, t: State)
    requires Rearranged(s, t)
    ensures multiset(GatewayCandidates(env, s)) == multiset(GatewayCandidates(env, t))
  {
    var p, q := c => GatewaySpeaks(env, s, c), c => GatewaySpeaks(env, t, c);
    forall c ensures p(c) == q(c) {
      SameViability(env, s, t, c);
    }
    FilteredPermutes(s.candidates, t.candidates, p);
    FilteredAgrees(t.candidates, p, q);
  }

  lemma GatewaysAgree(env: Env, s: State)
    ensures Agree(GatewayCandidates(env, s))
  {
  }

  lemma GatewayPermutes(env: Env, s: State, t: State)
    requires Rearranged(s, t)
    ensures GatewayFindings(env, s) == GatewayFindings(env, t)
  {
    var a, b := GatewayCandidates(env, s), GatewayCandidates(env, t);
    GatewayCandidatesPermute(env, s, t);
    SameElements(a, b);
    if a != [] {
      GatewaysAgree(env, s);
      AgreeingFindings(a, b);
    }
  }

  /** Each reason comes with one layer and one domain. */
  ghost predicate OneLayerEach(cs: seq<Candidate>) {
    forall c, d :: c in cs && d in cs && c.reason == d.reason ==> c.layer == d.layer && c.domain == d.domain
  }

  ghost predicate NamesTellApart(env: Env) {
    forall r, q :: env.reasonName(r) == env.reasonName(q) ==> r == q
  }

  lemma GenericsPermute(env: Env, s: State, t: State)
    requires Rearranged(s, t)
    ensures multiset(Generics(env, s)) == multiset(Generics(env, t))
  {
    var p, q := c => SupportsGeneric(env, s, c), c => SupportsGeneric(env, t, c);
    forall c ensures p(c) == q(c) {
      SameViability(env, s, t, c);
    }
    FilteredPermutes(s.candidates, t.candidates, p);
    FilteredAgrees(t.candidates, p, q);
  }

  /** The first extension is the same failure in both. */
  lemma FirstGenericPermutes(env: Env, s: State, t: State)
    requires Rearranged(s, t) && OneLayerEach(s.candidates) && NamesTellApart(env) && Generics(env, s) != []
    ensures Generics(env, t) != [] && SameFailure(Generics(env, s)[0], Generics(env, t)[0])
  {
    var a, b := Generics(env, s), Generics(env, t);
    GenericsPermute(env, s, t);
    SameElements(a, b);
    assert a[0] in b && b[0] in a;
    GenericOrderIsOrder(env);
    SortBySorted(GenericOrder(env), Filtered(s.candidates, c => SupportsGeneric(env, s, c)));
    SortBySorted(GenericOrder(env), Filtered(t.candidates, c => SupportsGeneric(env, t, c)));
    FirstIsLeast(GenericOrder(env), a, b[0]);
    FirstIsLeast(GenericOrder(env), b, a[0]);
    TiedReasons(env, a[0], b[0]);
    GenericsAre(env, s, a[0]);
    GenericsAre(env, s, b[0]);
  }

  lemma TiedReasons(env: Env, a: Candidate, b: Candidate)
    requires NamesTellApart(env) && GenericLe(env, a, b) && GenericLe(env, b, a)
    ensures a.reason == b.reason
  {
    StringLeIsOrder();
  }

  lemma AlikePermutes(a: seq<Candidate>, b: seq<Candidate>)
    requires a != [] && b != [] && multiset(a) == multiset(b) && SameFailure(a[0], b[0])
    ensures MakeFinding(Merged(AlikeFirst(a))) == MakeFinding(Merged(AlikeFirst(b)))
  {
    FilteredPermutes(a, b, c => SameFailure(c, a[0]));
    FilteredAgrees(b, c => SameFailure(c, a[0]), c => SameFailure(c, b[0]));
    AgreeingFindings(AlikeFirst(a), AlikeFirst(b));
  }

  lemma ExtensionPermutes(env: Env, s: State, t: State)
    requires Rearranged(s, t) && OneLayerEach(s.candidates) && NamesTellApart(env)
    ensures ExtensionFailure(env, s).None? <==> ExtensionFailure(env, t).None?
    ensures ExtensionFailure(env, s).Some? ==>
              MakeFinding(ExtensionFailure(env, s).value) == MakeFinding(ExtensionFailure(env, t).value)
              && ExtensionFailure(env, s).value.layer == ExtensionFailure(env, t).value.layer
  {
    var a, b := Generics(env, s), Generics(env, t);
    GenericsPermute(env, s, t);
    SameElements(a, b);
    if a != [] {
      FirstGenericPermutes(env, s, t);
      ExtensionReason(env, s);
      ExtensionReason(env, t);
      AlikePermutes(a, b);
    }
  }

  lemma MergedPermutes(a: seq<Candidate>, b: seq<Candidate>, r: Reason)
    requires multiset(a) == multiset(b) && a != [] && b != [] && OneLayerEach(a) && forall c :: c in a ==> c.reason == r
    ensures MakeFinding(Merged(a)) == MakeFinding(Merged(b)) && Merged(a).layer == Merged(b).layer
  {
    SameElements(a, b);
    assert a[0] in a && b[0] in a;
    AgreeingFindings(a, b);
  }

  lemma ViableForAre(env: Env, s: State, r: Reason)
    ensures forall c :: c in ViableFor(env, s, r) ==> c in s.candidates && c.reason == r
  {
  }

  lemma BuiltInIs(env: Env, s: State, w: nat)
    requires w == Winning(env, s, 0) < |RULES|
    ensures BuiltIn(env, s) == Some(Merged(ViableFor(env, s, RULES[w])))
  {
  }

  lemma BuiltInPermutes(env: Env, s: State, t: State)
    requires Rearranged(s, t) && OneLayerEach(s.candidates)
    ensures BuiltIn(env, s).None? <==> BuiltIn(env, t).None?
    ensures BuiltIn(env, s).Some? ==>
              MakeFinding(BuiltIn(env, s).value) == MakeFinding(BuiltIn(env, t).value)
              && BuiltIn(env, s).value.layer == BuiltIn(env, t).value.layer
  {
    WinningPermutes(env, s, t);
    var w := Winning(env, s, 0);
    if w < |RULES| {
      var r := RULES[w];
      BuiltInIs(env, s, w);
      BuiltInIs(env, t, w);
      ViableForPermutes(env, s, t, r);
      ViableForAre(env, s, r);
      MergedPermutes(ViableFor(env, s, r), ViableFor(env, t, r), r);
    }
  }

  /** When each reason comes with one layer and domain, no order of arrival changes the findings. */
  lemma OrderIsForgotten(env: Env, s: State, t: State)
    requires Rearranged(s, t) && OneLayerEach(s.candidates) && NamesTellApart(env)
    ensures Select(env, s) == Select(env, t)
  {
    BuiltInPermutes(env, s, t);
    ExtensionPermutes(env, s, t);
    GatewayPermutes(env, s, t);
  }

  // ---- candidates as they are collected ----

  /** `addReasonCandidate`: the layer and domain of the reason, or the given ones where it has none. */
  function Added(r: Reason, fallback: Layer, fallbackDomain: Domain, target: Target, names: seq<string>, ids: seq<string>,
                 comparative: bool): Option<Candidate> {
    if !Active(r) then None
    else
      var (layer, domain) := if Semantics(r).0.UnknownLayer? then (fallback, fallbackDomain) else Semantics(r);
      Some(Candidate(r, layer, if domain == OtherDomain("") then UnknownDomain else domain, target, names, ids, comparative, r.GatewayUnreachable?))
  }

  /** Only a probe execution failure and extension reasons can be collected with different layers. */
  lemma CollectedLayersAgree(r: Reason, l: Layer, d: Domain, t: Target, names: seq<string>, ids: seq<string>, comparative: bool)
    requires !r.ProbeExecution? && !r.Extension? && Active(r)
    ensures Added(r, l, d, t, names, ids, comparative).Some?
    ensures (Added(r, l, d, t, names, ids, comparative).value.layer, Added(r, l, d, t, names, ids, comparative).value.domain) == Semantics(r)
  {
  }
}
