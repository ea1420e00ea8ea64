/**
 Exactly when the order in which candidates were collected shows in the findings
 (internal/diagnosis/diagnosis.go:592-690, 734-755).
 */
module DiagnosisOrder {
  import opened Lists
  import opened Options
  import opened Orders
  import opened Diagnosis
  import opened DiagnosisFacts

  // ---- the condition ----

  function AlikeTo(cs: seq<Candidate>, e: Candidate): seq<Candidate> {
    Filtered(cs, c => SameFailure(c, e))
  }

  /** The failures of e and f show the same reason, layer and domain, and have the same probes and evidence behind them. */
  ghost predicate ShowTheSame(cs: seq<Candidate>, e: Candidate, f: Candidate) {
    && e.reason == f.reason && Shown(e) == Shown(f)
    && Elements(AllNames(AlikeTo(cs, e))) == Elements(AllNames(AlikeTo(cs, f)))
    && Elements(AllIds(AlikeTo(cs, e))) == Elements(AllIds(AlikeTo(cs, f)))
  }

  /** No extension failure sorts before e. */
  ghost predicate TiesFirst(env: Env, cs: seq<Candidate>, e: Candidate) {
    e in cs && forall c :: c in cs ==> GenericLe(env, e, c)
  }

  ghost predicate TiesAgree(env: Env, cs: seq<Candidate>) {
    forall e, f :: TiesFirst(env, cs, e) && TiesFirst(env, cs, f) ==> ShowTheSame(cs, e, f)
  }

  /** The viable candidates of the winning rule, if any. */
  function Winners(env: Env, s: State): seq<Candidate> {
    if Winning(env, s, 0) < |RULES| then ViableFor(env, s, RULES[Winning(env, s, 0)]) else []
  }

  predicate Ahead(e: Candidate, v: Candidate) {
    Rank(e.layer) < Rank(v.layer)
  }

  /**
   All candidates of the winning rule are on one side of the extension failures, and those that
   decide the finding - the extension failures that tie for first, or the winners - agree in what
   they show.
   */
  ghost predicate OrderIsIdle(env: Env, s: State) {
    var winners, extensions := Winners(env, s), Generics(env, s);
    if extensions == [] then Agree(winners)
    else if forall v :: v in winners ==> Ahead(extensions[0], v) then TiesAgree(env, extensions)
    else (forall v :: v in winners ==> !Ahead(extensions[0], v)) && Agree(winners)
  }

  ghost predicate OrderIsFree(env: Env, s: State) {
    forall t :: Rearranged(s, t) ==> Select(env, t) == Select(env, s)
  }

  /** The winners disagree only over a probe execution failure: every other rule has its own layer and domain. */
  lemma RulesAgree(env: Env, s: State)
    requires Winning(env, s, 0) < |RULES| && !RULES[Winning(env, s, 0)].ProbeExecution?
    ensures Agree(Winners(env, s))
  {
    RulesShow(Winning(env, s, 0));
    ViableForAre(env, s, RULES[Winning(env, s, 0)]);
  }

  lemma RulesShow(k: nat)
    requires k < |RULES| && !RULES[k].ProbeExecution?
    ensures !Semantics(RULES[k]).0.UnknownLayer?
  {
  }

  // ---- the first finding ----

  /** The first finding, from the winners and the sorted extension failures. */
  function Head(winners: seq<Candidate>, extensions: seq<Candidate>): seq<Finding> {
    if extensions != [] && (winners == [] || Ahead(extensions[0], winners[0])) then [MakeFinding(Merged(AlikeFirst(extensions)))]
    else if winners != [] then [MakeFinding(Merged(winners))]
    else []
  }

  lemma SelectIs(env: Env, s: State)
    ensures Select(env, s) == Head(Winners(env, s), Generics(env, s)) + GatewayFindings(env, s)
  {
    PartsAre(env, s);
    HeadIs(BuiltIn(env, s), ExtensionFailure(env, s), Winners(env, s), Generics(env, s));
  }

  lemma PartsAre(env: Env, s: State)
    ensures BuiltIn(env, s) == if Winners(env, s) == [] then None else Some(Merged(Winners(env, s)))
    ensures ExtensionFailure(env, s) == if Generics(env, s) == [] then None else Some(Merged(AlikeFirst(Generics(env, s))))
  {
    if Winning(env, s, 0) < |RULES| {
      BuiltInIs(env, s, Winning(env, s, 0));
    }
  }

  lemma HeadIs(b: Option<Candidate>, e: Option<Candidate>, winners: seq<Candidate>, extensions: seq<Candidate>)
    requires b == if winners == [] then None else Some(Merged(winners))
    requires e == if extensions == [] then None else Some(Merged(AlikeFirst(extensions)))
    ensures (if ExtensionWins(b, e) then [MakeFinding(e.value)] else if b.Some? then [MakeFinding(b.value)] else [])
            == Head(winners, extensions)
  {
    if extensions != [] {
      FirstIsAlike(extensions);
    }
  }

  lemma WinnersPermute(env: Env, s: State, t: State)
    requires Rearranged(s, t)
    ensures multiset(Winners(env, s)) == multiset(Winners(env, t))
  {
    WinningPermutes(env, s, t);
    if Winning(env, s, 0) < |RULES| {
      ViableForPermutes(env, s, t, RULES[Winning(env, s, 0)]);
    }
  }

  lemma HeadsDecide(env: Env, s: State, t: State)
    requires Rearranged(s, t)
    ensures Select(env, s) == Select(env, t) <==> Head(Winners(env, s), Generics(env, s)) == Head(Winners(env, t), Generics(env, t))
  {
    SelectIs(env, s);
    SelectIs(env, t);
    GatewayPermutes(env, s, t);
    var a, b, g := Head(Winners(env, s), Generics(env, s)), Head(Winners(env, t), Generics(env, t)), GatewayFindings(env, s);
    SameTail(a, b, g);
  }

  lemma SameTail<T>(a: seq<T>, b: seq<T>, g: seq<T>)
    ensures a + g == b + g <==> a == b
  {
    if a + g == b + g {
      assert |a + g| == |a| + |g| && |b + g| == |b| + |g|;
      assert (a + g)[..|a|] == a && (b + g)[..|b|] == b;
    }
  }

  lemma GenericsAreSorted(env: Env, s: State)
    ensures TotalPreorder(GenericOrder(env)) && SortedBy(GenericOrder(env), Generics(env, s))
  {
    GenericOrderIsOrder(env);
    SortBySorted(GenericOrder(env), Filtered(s.candidates, c => SupportsGeneric(env, s, c)));
  }

  /** What comes first ties for first, in any arrangement. */
  lemma FirstTies(env: Env, s: State, t: State)
    requires Rearranged(s, t) && Generics(env, s) != []
    ensures Generics(env, t) != [] && TiesFirst(env, Generics(env, s), Generics(env, t)[0])
  {
    var a, b := Generics(env, s), Generics(env, t);
    GenericsPermute(env, s, t);
    SameElements(a, b);
    GenericsAreSorted(env, t);
    forall c | c in a ensures GenericLe(env, b[0], c) {
      FirstIsLeast(GenericOrder(env), b, c);
      assert GenericOrder(env)(b[0], c);
    }
  }

  lemma TiesRankAlike(env: Env, cs: seq<Candidate>, e: Candidate, f: Candidate)
    requires TiesFirst(env, cs, e) && TiesFirst(env, cs, f)
    ensures Rank(e.layer) == Rank(f.layer)
  {
    assert GenericLe(env, e, f) && GenericLe(env, f, e);
  }

  // ---- when two extensions make the same finding ----

  lemma UniqueOfIff(a: seq<string>, b: seq<string>)
    ensures UniqueOf(a) == UniqueOf(b) <==> Elements(a) == Elements(b)
    ensures UniqueOf(UniqueOf(a)) == UniqueOf(a)
  {
    UniqueOfIs(a);
    UniqueOfIs(b);
    if Elements(a) == Elements(b) {
      UniqueOfSet(a, b);
    }
    UniqueOfIs(UniqueOf(a));
    AscendingUniquely(UniqueOf(UniqueOf(a)), UniqueOf(a));
  }

  lemma MergedFinding(cs: seq<Candidate>, e: Candidate)
    requires cs != [] && SameFailure(cs[0], e)
    ensures MakeFinding(Merged(cs)) == Finding(e.reason, Shown(e).0, Shown(e).1, UniqueOf(AllNames(cs)), UniqueOf(AllIds(cs)))
  {
    MergedShows(cs);
    UniqueOfIff(AllNames(cs), []);
    UniqueOfIff(AllIds(cs), []);
  }

  lemma AlikeNames(a: seq<Candidate>, b: seq<Candidate>, e: Candidate)
    requires multiset(a) == multiset(b)
    ensures Elements(AllNames(AlikeTo(a, e))) == Elements(AllNames(AlikeTo(b, e)))
    ensures Elements(AllIds(AlikeTo(a, e))) == Elements(AllIds(AlikeTo(b, e)))
  {
    SameElements(a, b);
    NamesOfSame(AlikeTo(a, e), AlikeTo(b, e));
    UniqueOfIff(AllNames(AlikeTo(a, e)), AllNames(AlikeTo(b, e)));
    UniqueOfIff(AllIds(AlikeTo(a, e)), AllIds(AlikeTo(b, e)));
  }

  lemma FirstIsAlike(cs: seq<Candidate>)
    requires cs != []
    ensures AlikeTo(cs, cs[0]) == AlikeFirst(cs) && AlikeFirst(cs) != [] && SameFailure(AlikeFirst(cs)[0], cs[0])
  {
    assert AlikeFirst(cs)[0] in AlikeFirst(cs);
  }

  lemma ExtensionsShow(a: seq<Candidate>, b: seq<Candidate>)
    requires a != [] && b != [] && multiset(a) == multiset(b)
    ensures MakeFinding(Merged(AlikeFirst(a))) == MakeFinding(Merged(AlikeFirst(b))) <==> ShowTheSame(a, a[0], b[0])
  {
    FirstIsAlike(a);
    FirstIsAlike(b);
    MergedFinding(AlikeFirst(a), a[0]);
    MergedFinding(AlikeFirst(b), b[0]);
    AlikeNames(a, b, b[0]);
    UniqueOfIff(AllNames(AlikeTo(a, a[0])), AllNames(AlikeTo(b, b[0])));
    UniqueOfIff(AllIds(AlikeTo(a, a[0])), AllIds(AlikeTo(b, b[0])));
  }

  // ---- the condition is enough ----

  lemma IdleIsFree(env: Env, s: State, t: State)
    requires OrderIsIdle(env, s) && Rearranged(s, t)
    ensures Select(env, t) == Select(env, s)
  {
    var v, w, a, b := Winners(env, s), Winners(env, t), Generics(env, s), Generics(env, t);
    HeadsDecide(env, s, t);
    WinnersPermute(env, s, t);
    GenericsPermute(env, s, t);
    SameElements(a, b);
    if a != [] {
      FirstTies(env, s, s);
      FirstTies(env, s, t);
      TiesRankAlike(env, a, a[0], b[0]);
      if forall c :: c in v ==> Ahead(a[0], c) {
        ExtensionHeads(v, w, a, b);
      } else {
        WinnerHeads(v, w, a, b);
      }
    } else {
      WinnerHeads(v, w, a, b);
    }
  }

  /** Where the extension wins in both arrangements. */
  lemma ExtensionHeads(v: seq<Candidate>, w: seq<Candidate>, a: seq<Candidate>, b: seq<Candidate>)
    requires multiset(v) == multiset(w) && multiset(a) == multiset(b) && a != [] && b != []
    requires Rank(a[0].layer) == Rank(b[0].layer) && forall c :: c in v ==> Ahead(a[0], c)
    ensures Head(v, a) == Head(w, b) <==> ShowTheSame(a, a[0], b[0])
  {
    AllAhead(v, v, a[0], a[0]);
    AllAhead(v, w, a[0], b[0]);
    ExtensionsShow(a, b);
  }

  /** Where no extension is ahead in either. */
  lemma WinnerHeads(v: seq<Candidate>, w: seq<Candidate>, a: seq<Candidate>, b: seq<Candidate>)
    requires multiset(v) == multiset(w) && multiset(a) == multiset(b) && Agree(v)
    requires if a == [] then b == [] else b != [] && v != [] && Rank(a[0].layer) == Rank(b[0].layer) && forall c :: c in v ==> !Ahead(a[0], c)
    ensures Head(v, a) == Head(w, b)
  {
    SameElements(v, w);
    if v != [] {
      assert v[0] in v && w[0] in w;
      AgreeingFindings(v, w);
    }
  }

  lemma AllAhead(v: seq<Candidate>, w: seq<Candidate>, e: Candidate, f: Candidate)
    requires multiset(v) == multiset(w) && Rank(e.layer) == Rank(f.layer) && forall c :: c in v ==> Ahead(e, c)
    ensures w == [] || Ahead(f, w[0])
  {
    SameElements(v, w);
    assert w != [] ==> w[0] in w;
  }

  // ---- and needed ----

  /** Moves the candidate at a position to the front. */
  function ToFront(s: State, i: nat): State
    requires i < |s.candidates|
  {
    s.(candidates := [s.candidates[i]] + (s.candidates[..i] + s.candidates[i + 1..]))
  }

  lemma ToFrontRearranges(s: State, i: nat)
    requires i < |s.candidates|
    ensures Rearranged(s, ToFront(s, i))
  {
    var c := s.candidates;
    assert c == c[..i] + [c[i]] + c[i + 1..];
  }

  lemma FilteredFront<T(!new)>(x: T, rest: seq<T>, p: T -> bool)
    requires p(x)
    ensures Filtered([x] + rest, p) == [x] + Filtered(rest, p)
  {
    FilteredAppend([x], rest, p);
    FilteredSnoc([], x, p);
    assert [] + [x] == [x];
  }

  /** A winner at the front of the candidates is the first winner. */
  lemma WinnerToFront(env: Env, s: State, x: Candidate) returns (t: State)
    requires x in Winners(env, s)
    ensures Rearranged(s, t) && Winners(env, t) != [] && Winners(env, t)[0] == x
  {
    var w := Winning(env, s, 0);
    ViableForAre(env, s, RULES[w]);
    var i: nat :| i < |s.candidates| && s.candidates[i] == x;
    t := ToFront(s, i);
    ToFrontRearranges(s, i);
    WinningPermutes(env, s, t);
    FilteredFront(x, s.candidates[..i] + s.candidates[i + 1..], c => Supports(env, t, RULES[w], c));
  }

  lemma LeastInserts(le: (Candidate, Candidate) -> bool, x: Candidate, rest: seq<Candidate>)
    requires forall y :: y in rest ==> le(x, y)
    ensures SortBy(le, [x] + rest)[0] == x
  {
    var sorted := SortBy(le, rest);
    SameElements(rest, sorted);
    assert ([x] + rest)[1..] == rest;
    assert sorted != [] ==> sorted[0] in sorted;
    assert SortBy(le, [x] + rest) == Insert(le, ([x] + rest)[0], sorted);
    assert ([x] + rest)[0] == x;
  }

  /** An extension failure that ties for first comes first when it is at the front: the sort is stable. */
  lemma ExtensionToFront(env: Env, s: State, x: Candidate) returns (t: State)
    requires TiesFirst(env, Generics(env, s), x)
    ensures Rearranged(s, t) && Generics(env, t) != [] && Generics(env, t)[0] == x
  {
    GenericsAre(env, s, x);
    var i: nat :| i < |s.candidates| && s.candidates[i] == x;
    t := ToFront(s, i);
    ToFrontRearranges(s, i);
    var rest := s.candidates[..i] + s.candidates[i + 1..];
    var p := c => SupportsGeneric(env, t, c);
    FilteredFront(x, rest, p);
    forall y | y in Filtered(rest, p) ensures GenericOrder(env)(x, y) {
      GenericsAre(env, s, y);
      assert y in s.candidates;
    }
    LeastInserts(GenericOrder(env), x, Filtered(rest, p));
  }

  lemma WinnersHaveRules(env: Env, s: State)
    ensures forall v :: v in Winners(env, s) ==> v.reason in RULES
    ensures forall e :: e in Generics(env, s) ==> e.reason !in RULES
  {
    if Winning(env, s, 0) < |RULES| {
      ViableForAre(env, s, RULES[Winning(env, s, 0)]);
    }
    forall e | e in Generics(env, s) ensures e.reason !in RULES {
      GenericsAre(env, s, e);
    }
  }

  /** Ties that disagree: one of them makes another finding than the first. */
  lemma DisagreeingTies(env: Env, s: State) returns (t: State)
    requires Generics(env, s) != [] && (forall v :: v in Winners(env, s) ==> Ahead(Generics(env, s)[0], v))
    requires !TiesAgree(env, Generics(env, s))
    ensures Rearranged(s, t) && Select(env, t) != Select(env, s)
  {
    var a := Generics(env, s);
    FirstTies(env, s, s);
    var e, f :| TiesFirst(env, a, e) && TiesFirst(env, a, f) && !ShowTheSame(a, e, f);
    var x := if ShowTheSame(a, a[0], e) then f else e;
    assert !ShowTheSame(a, a[0], x);
    t := ExtensionToFront(env, s, x);
    TiesRankAlike(env, a, a[0], x);
    GenericsPermute(env, s, t);
    WinnersPermute(env, s, t);
    ExtensionHeads(Winners(env, s), Winners(env, t), a, Generics(env, t));
    HeadsDecide(env, s, t);
  }

  /** Winners on both sides: the first of them decides between a rule and an extension. */
  lemma DividedWinners(env: Env, s: State, x: Candidate) returns (t: State)
    requires Generics(env, s) != [] && Winners(env, s) != [] && x in Winners(env, s)
    requires Ahead(Generics(env, s)[0], x) != Ahead(Generics(env, s)[0], Winners(env, s)[0])
    ensures Rearranged(s, t) && Select(env, t) != Select(env, s)
  {
    t := WinnerToFront(env, s, x);
    FirstTies(env, s, s);
    FirstTies(env, s, t);
    TiesRankAlike(env, Generics(env, s), Generics(env, s)[0], Generics(env, t)[0]);
    HeadReasons(env, s);
    HeadReasons(env, t);
    HeadsDecide(env, s, t);
  }

  lemma HeadReasons(env: Env, s: State)
    requires Generics(env, s) != [] && Winners(env, s) != []
    ensures var head := Head(Winners(env, s), Generics(env, s));
            |head| == 1 && (head[0].reason in RULES <==> !Ahead(Generics(env, s)[0], Winners(env, s)[0]))
  {
    WinnersHaveRules(env, s);
    assert Generics(env, s)[0] in Generics(env, s) && Winners(env, s)[0] in Winners(env, s);
    HeadReason(Winners(env, s), Generics(env, s));
  }

  lemma HeadReason(winners: seq<Candidate>, extensions: seq<Candidate>)
    requires winners != [] && extensions != []
    ensures var head := Head(winners, extensions);
            |head| == 1 && head[0].reason == if Ahead(extensions[0], winners[0]) then extensions[0].reason else winners[0].reason
  {
    FirstIsAlike(extensions);
    MergedFinding(AlikeFirst(extensions), extensions[0]);
    MergedShows(winners);
  }

  /** Winners that show different layers or domains: the first of them decides. */
  lemma DisagreeingWinners(env: Env, s: State) returns (t: State)
    requires !Agree(Winners(env, s))
    requires Generics(env, s) == [] || forall v :: v in Winners(env, s) ==> !Ahead(Generics(env, s)[0], v)
    ensures Rearranged(s, t) && Select(env, t) != Select(env, s)
  {
    var winners := Winners(env, s);
    ViableForAre(env, s, RULES[Winning(env, s, 0)]);
    var c, d :| c in winners && d in winners && (c.reason != d.reason || Shown(c) != Shown(d));
    assert c.reason == d.reason;
    var x := if Shown(c) != Shown(winners[0]) then c else d;
    t := WinnerToFront(env, s, x);
    GenericsPermute(env, s, t);
    SameElements(Generics(env, s), Generics(env, t));
    if Generics(env, s) != [] {
      FirstTies(env, s, s);
      FirstTies(env, s, t);
      TiesRankAlike(env, Generics(env, s), Generics(env, s)[0], Generics(env, t)[0]);
    }
    WinnersPermute(env, s, t);
    ShownHeads(winners, Winners(env, t), Generics(env, s), Generics(env, t));
    HeadsDecide(env, s, t);
  }

  lemma ShownHeads(v: seq<Candidate>, w: seq<Candidate>, a: seq<Candidate>, b: seq<Candidate>)
    requires multiset(v) == multiset(w) && v != [] && w != [] && Shown(v[0]) != Shown(w[0])
    requires if a == [] then b == [] else b != [] && Rank(a[0].layer) == Rank(b[0].layer) && forall c :: c in v ==> !Ahead(a[0], c)
    ensures Head(v, a) != Head(w, b)
  {
    SameElements(v, w);
    assert v[0] in v && w[0] in w;
    MergedShows(v);
    MergedShows(w);
  }

  lemma FreeIsIdle(env: Env, s: State)
    requires OrderIsFree(env, s)
    ensures OrderIsIdle(env, s)
  {
    var winners, extensions := Winners(env, s), Generics(env, s);
    if extensions != [] && (forall v :: v in winners ==> Ahead(extensions[0], v)) {
      if !TiesAgree(env, extensions) {
        var t := DisagreeingTies(env, s);
      }
    } else if extensions == [] || forall v :: v in winners ==> !Ahead(extensions[0], v) {
      if !Agree(winners) {
        var t := DisagreeingWinners(env, s);
      }
    } else {
      var u :| u in winners && !Ahead(extensions[0], u);
      var v :| v in winners && Ahead(extensions[0], v);
      var t := DividedWinners(env, s, if Ahead(extensions[0], winners[0]) then u else v);
    }
  }

  /** For any candidates and successes: the findings are the same in every order exactly if the order is idle. */
  lemma OrderMattersIff(env: Env, s: State)
    ensures OrderIsFree(env, s) <==> OrderIsIdle(env, s)
  {
    if OrderIsIdle(env, s) {
      forall t | Rearranged(s, t) ensures Select(env, t) == Select(env, s) {
        IdleIsFree(env, s, t);
      }
    } else if OrderIsFree(env, s) {
      FreeIsIdle(env, s);
    }
  }

  // ---- a state in which it shows ----

  /** One failure of another reason, seen at two layers of the same rank. */
  function SeenAt(layer: Layer): Candidate {
    Candidate(Extension("x"), layer, UnknownDomain, Target("", "", None, None, 0), [], [], false, false)
  }

  function TwoLayers(): State {
    State([SeenAt(Http), SeenAt(Smb)], [], RouteUnknown, false)
  }

  lemma ExtensionIsNoRule()
    ensures Extension("x") !in RULES && Generic(Extension("x"))
  {
  }

  lemma SeenIsViable(env: Env, layer: Layer)
    ensures Viable(env, SeenAt(layer), TwoLayers().successes)
  {
  }

  lemma SeenIsGeneric(env: Env, layer: Layer)
    ensures SupportsGeneric(env, TwoLayers(), SeenAt(layer))
  {
    ExtensionIsNoRule();
    SeenIsViable(env, layer);
  }

  lemma Candidates(c: Candidate)
    ensures c in TwoLayers().candidates <==> c == SeenAt(Http) || c == SeenAt(Smb)
  {
    assert TwoLayers().candidates[0] == SeenAt(Http) && TwoLayers().candidates[1] == SeenAt(Smb);
  }

  lemma ExtensionsAre(env: Env, c: Candidate)
    ensures c in Generics(env, TwoLayers()) <==> c == SeenAt(Http) || c == SeenAt(Smb)
  {
    GenericsAre(env, TwoLayers(), c);
    Candidates(c);
    SeenIsGeneric(env, Http);
    SeenIsGeneric(env, Smb);
  }

  lemma SameRankTies(env: Env, e: Layer, f: Layer)
    requires Rank(e) == Rank(f)
    ensures GenericLe(env, SeenAt(e), SeenAt(f))
  {
    StringLeTotal(JoinNul(UniqueOf([])), JoinNul(UniqueOf([])));
  }

  predicate Seen(c: Candidate) {
    c == SeenAt(Http) || c == SeenAt(Smb)
  }

  lemma TiesWith(env: Env, c: Candidate, d: Candidate)
    requires Seen(c) && Seen(d)
    ensures GenericLe(env, c, d)
  {
    SameRankTies(env, c.layer, d.layer);
  }

  lemma AllTie(env: Env, cs: seq<Candidate>, e: Candidate)
    requires e in cs && forall c :: c in cs ==> Seen(c)
    ensures TiesFirst(env, cs, e)
  {
    forall c | c in cs ensures GenericLe(env, e, c) {
      TiesWith(env, e, c);
    }
  }

  lemma BothTie(env: Env, e: Candidate)
    requires Seen(e)
    ensures TiesFirst(env, Generics(env, TwoLayers()), e)
  {
    var cs := Generics(env, TwoLayers());
    forall c ensures c in cs <==> Seen(c) {
      ExtensionsAre(env, c);
    }
    AllTie(env, cs, e);
  }

  lemma NoRule(env: Env, k: nat)
    requires k < |RULES|
    ensures !RuleApplies(env, TwoLayers(), k)
  {
    ExtensionIsNoRule();
    assert RULES[k] in RULES;
    forall c | c in TwoLayers().candidates ensures c.reason != RULES[k] {
      Candidates(c);
    }
  }

  lemma NoWinners(env: Env)
    ensures Winners(env, TwoLayers()) == []
  {
    WinningIsFirst(env, TwoLayers());
    forall k | 0 <= k < |RULES| ensures !RuleApplies(env, TwoLayers(), k) {
      NoRule(env, k);
    }
  }

  lemma Disagreement(env: Env, cs: seq<Candidate>, e: Candidate, f: Candidate)
    requires TiesFirst(env, cs, e) && TiesFirst(env, cs, f) && Shown(e) != Shown(f)
    ensures cs != [] && !TiesAgree(env, cs)
  {
    assert !ShowTheSame(cs, e, f);
  }

  lemma LayersShow()
    ensures Shown(SeenAt(Http)) != Shown(SeenAt(Smb))
  {
  }

  lemma NotIdle(env: Env, s: State)
    requires Generics(env, s) != [] && !TiesAgree(env, Generics(env, s)) && Winners(env, s) == []
    ensures !OrderIsIdle(env, s)
  {
  }

  /** Two extension failures that tie for first and show different layers. */
  lemma OrderShows(env: Env)
    ensures !OrderIsFree(env, TwoLayers())
  {
    BothTie(env, SeenAt(Http));
    BothTie(env, SeenAt(Smb));
    LayersShow();
    Disagreement(env, Generics(env, TwoLayers()), SeenAt(Http), SeenAt(Smb));
    NoWinners(env);
    NotIdle(env, TwoLayers());
    OrderMattersIff(env, TwoLayers());
  }
}
