/**
 What a validation plan holds: every selected destination/mechanism pair in exactly one entry,
 counts that add up, merged outcomes, targets for what is supported, distinct identifiers.
 */
module PlanFacts {
  import opened Options
  import opened Decimal
  import opened Lists
  import opened Orders
  import opened Targets
  import opened Plans

  // ---- the selected pairs ----

  lemma {:induction false} PairsOfAre(env: Env, selection: Selection, d: Destination, mechanisms: seq<string>, p: Pair)
    ensures p in PairsOf(env, selection, d, mechanisms)
            <==> p.destination == d && p.mechanism in mechanisms && IsSelected(env, EntryFor(env, d, p.mechanism), selection)
  {
    if mechanisms != [] {
      var front := mechanisms[..|mechanisms| - 1];
      PairsOfAre(env, selection, d, front, p);
      assert mechanisms == front + [mechanisms[|front|]];
    }
  }

  /** The destination names the mechanism and is selected with it. */
  predicate Chosen(env: Env, selection: Selection, p: Pair) {
    p.mechanism in Mechanisms(p.destination) && IsSelected(env, EntryFor(env, p.destination, p.mechanism), selection)
  }

  lemma PairsOfChosen(env: Env, selection: Selection, d: Destination, p: Pair)
    ensures p in PairsOf(env, selection, d, Mechanisms(d)) <==> p.destination == d && Chosen(env, selection, p)
  {
    PairsOfAre(env, selection, d, Mechanisms(d), p);
  }

  lemma InConcat<T>(a: seq<T>, b: seq<T>, x: T)
    ensures x in a + b <==> x in a || x in b
  {
  }

  lemma InSnoc<T>(s: seq<T>, x: T)
    requires s != []
    ensures x in s <==> x in s[..|s| - 1] || x == s[|s| - 1]
  {
    assert s == s[..|s| - 1] + [s[|s| - 1]];
  }

  /** A pair is worked on exactly when its destination was captured and it is chosen. */
  lemma {:induction false} PairsAre(env: Env, selection: Selection, ds: seq<Destination>, p: Pair)
    ensures p in Pairs(env, selection, ds) <==> p.destination in ds && Chosen(env, selection, p)
  {
    if ds != [] {
      var front, d := ds[..|ds| - 1], ds[|ds| - 1];
      PairsAre(env, selection, front, p);
      PairsOfChosen(env, selection, d, p);
      InSnoc(ds, p.destination);
      InConcat(Pairs(env, selection, front), PairsOf(env, selection, d, Mechanisms(d)), p);
    }
  }

  /** The selector is a name of the pair: its identity, its hostname or one of the two endpoint notations. */
  predicate IsName(env: Env, d: Destination, mechanism: string, selector: string) {
    var e, value := EntryFor(env, d, mechanism), env.clean(selector);
    value != "" && (value == env.lower(e.identity) || value == env.lower(e.hostname)
                    || value == env.lower(TargetIdentity(e.hostname, e.service, e.port))
                    || value == env.lower(JoinHostPort(e.hostname, e.port)))
  }

  /** Some pair of the capture goes by one of the selectors. */
  ghost predicate SomeName(env: Env, ds: seq<Destination>, selectors: seq<string>) {
    exists d, m, s :: d in ds && m in Mechanisms(d) && s in selectors && IsName(env, d, m, s)
  }

  lemma NoPairsIff(env: Env, selectors: seq<string>, ds: seq<Destination>)
    requires env.lower("") == ""
    ensures Pairs(env, Selected(selectors), ds) != [] <==> SomeName(env, ds, selectors)
  {
    var pairs := Pairs(env, Selected(selectors), ds);
    if pairs != [] {
      var p := pairs[0];
      PairsAre(env, Selected(selectors), ds, p);
      var s :| s in selectors && Matches(env, EntryFor(env, p.destination, p.mechanism), s);
      assert IsName(env, p.destination, p.mechanism, s);
    }
    if d, m, s :| d in ds && m in Mechanisms(d) && s in selectors && IsName(env, d, m, s) {
      assert Matches(env, EntryFor(env, d, m), s);
      PairsAre(env, Selected(selectors), ds, Pair(d, m));
    }
  }

  lemma EmptyPlanIff(env: Env, selection: Selection, ds: seq<Destination>)
    requires !selection.Invalid? && (selection.Selected? ==> selection.selectors != [])
    ensures PlanOf(env, selection, Some(ds)) == Refused(EmptyPlan) <==> Pairs(env, selection, ds) == []
  {
    var groups := Groups(env, Pairs(env, selection, ds));
    assert groups == [] <==> Pairs(env, selection, ds) == [];
    SameElements(groups, SortBy(EntryLe, groups));
    assert PlanOf(env, selection, Some(ds)) == PlanFrom(PlanEntries(env, selection, ds));
  }

  /** A selection comes out empty exactly when no selector is a name of a captured pair. */
  lemma SelectionIsEmptyIff(env: Env, ds: seq<Destination>, selectors: seq<string>)
    requires env.lower("") == "" && selectors != []
    ensures PlanOf(env, Selected(selectors), Some(ds)) == Refused(EmptyPlan) <==> !SomeName(env, ds, selectors)
  {
    NoPairsIff(env, selectors, ds);
    EmptyPlanIff(env, Selected(selectors), ds);
  }

  /**
   Selectors are compared before identifiers are assigned, although the documentation of Request
   promises plan identifiers: for any capture, the identifier that the plan gave to one of its
   entries selects nothing exactly when it is not, by chance, a name of some captured pair.
   */
  lemma PlanIdSelectsNothing(env: Env, ds: seq<Destination>, e: Entry)
    requires env.lower("") == "" && PlanOf(env, All, Some(ds)).Plan? && e in PlanOf(env, All, Some(ds)).entries
    ensures PlanOf(env, Selected([e.id]), Some(ds)) == Refused(EmptyPlan)
            <==> forall d, m :: d in ds && m in Mechanisms(d) ==> !IsName(env, d, m, e.id)
  {
    SelectionIsEmptyIff(env, ds, [e.id]);
    assert SomeName(env, ds, [e.id]) <==> exists d, m :: d in ds && m in Mechanisms(d) && IsName(env, d, m, e.id) by {
      if d, m :| d in ds && m in Mechanisms(d) && IsName(env, d, m, e.id) {
        assert e.id in [e.id];
      }
    }
  }

  const FIRST_ID: string := "endpoint-" + Padded(1)

  /** A concrete capture for which that happens. */
  lemma PlanIdIsNoName()
    ensures var env := Env(s => s, s => s, (host, service, port) => Some(host));
            var ds := [Destination("a.example", 443, CONNECT, [], CONNECTED, 1, 1, 1, 0, false)];
            var plan := PlanOf(env, All, Some(ds));
            && plan.Plan? && |plan.entries| == 1 && plan.entries[0].id == FIRST_ID
            && PlanOf(env, Selected([FIRST_ID]), Some(ds)) == Refused(EmptyPlan)
  {
    var env := Env(s => s, s => s, (host, service, port) => Some(host));
    var d := Destination("a.example", 443, CONNECT, [], CONNECTED, 1, 1, 1, 0, false);
    PlanOfOne(env, d);
    NoNameOfOne(env, d);
  }

  lemma PlanOfOne(env: Env, d: Destination)
    requires d.mechanism == CONNECT && d.mechanisms == []
    ensures var plan := PlanOf(env, All, Some([d]));
            plan.Plan? && |plan.entries| == 1 && plan.entries[0].id == FIRST_ID
  {
    OnePair(env, d);
    OneGroup(env, Pair(d, CONNECT));
  }

  lemma NoNameOfOne(env: Env, d: Destination)
    requires env == Env(s => s, s => s, (host, service, port) => Some(host))
    requires d == Destination("a.example", 443, CONNECT, [], CONNECTED, 1, 1, 1, 0, false)
    ensures PlanOf(env, Selected([FIRST_ID]), Some([d])) == Refused(EmptyPlan)
  {
    OnePair(env, d);
    NotFirstId(env, d);
    SelectionIsEmptyIff(env, [d], [FIRST_ID]);
  }

  lemma NotFirstId(env: Env, d: Destination)
    requires env == Env(s => s, s => s, (host, service, port) => Some(host))
    requires d == Destination("a.example", 443, CONNECT, [], CONNECTED, 1, 1, 1, 0, false)
    ensures !IsName(env, d, CONNECT, FIRST_ID)
  {
    var e := EntryFor(env, d, CONNECT);
    assert e.identity == "a.example" && e.hostname == "a.example" && e.id == "";
    assert TargetIdentity(e.hostname, e.service, e.port)[0] == 'h' && JoinHostPort(e.hostname, e.port)[0] == 'a';
  }

  lemma OneGroup(env: Env, p: Pair)
    ensures Groups(env, [p]) == [Merged(EntryFor(env, p.destination, p.mechanism), p.destination)]
    ensures SortBy(EntryLe, Groups(env, [p])) == Groups(env, [p])
  {
    assert [p][..0] == [];
    assert Groups(env, []) == [];
    var g := Groups(env, [p])[0];
    assert [g][1..] == [] && SortBy(EntryLe, []) == [];
  }

  lemma OnePair(env: Env, d: Destination)
    requires d.mechanism == CONNECT && d.mechanisms == []
    ensures Pairs(env, All, [d]) == [Pair(d, CONNECT)] && Mechanisms(d) == [CONNECT]
  {
    assert AllAdded([CONNECT], []) == [CONNECT];
    assert [d][..0] == [];
    assert Pairs(env, All, []) == [];
    assert [CONNECT][..0] == [];
    assert PairsOf(env, All, d, []) == [];
  }

  // ---- what an entry holds ----

  /** The destinations of the pairs with a key, in order. */
  function CapturedOf(env: Env, pairs: seq<Pair>, key: string): seq<Destination> {
    if pairs == [] then [] else
    var p := pairs[|pairs| - 1];
    CapturedOf(env, pairs[..|pairs| - 1], key) + if PairKey(env, p) == key then [p.destination] else []
  }

  function Sum(f: Destination -> nat, ds: seq<Destination>): nat {
    if ds == [] then 0 else Sum(f, ds[..|ds| - 1]) + f(ds[|ds| - 1])
  }

  ghost predicate SomeFailed(ds: seq<Destination>) {
    exists d :: d in ds && CaptureFailed(d)
  }

  /** The destination whose observation an entry shows. */
  function ShownOf(ds: seq<Destination>): Destination
    requires ds != []
  {
    if |ds| == 1 || ShownOf(ds[..|ds| - 1]).host != "" then if |ds| == 1 then ds[0] else ShownOf(ds[..|ds| - 1]) else ds[|ds| - 1]
  }

  /** It is the first with a hostname; without any, the last. */
  lemma {:induction false} ShownIs(ds: seq<Destination>) returns (i: nat)
    requires ds != []
    ensures i < |ds| && ShownOf(ds) == ds[i] && (forall j :: 0 <= j < i ==> ds[j].host == "") && (ds[i].host == "" ==> i == |ds| - 1)
  {
    var n := |ds| - 1;
    if n == 0 {
      i := 0;
    } else {
      i := ShownIs(ds[..n]);
      if ds[i].host == "" {
        i := n;
      }
    }
  }

  lemma ShownAppend(ds: seq<Destination>, d: Destination)
    ensures ShownOf(ds + [d]) == if ds != [] && ShownOf(ds).host != "" then ShownOf(ds) else d
  {
    assert (ds + [d])[..|ds|] == ds;
  }

  /** An entry is what its destinations make of it, and is unsupported exactly when it has no target. */
  ghost predicate WellMerged(e: Entry) {
    && e.captured != []
    && e.observations == Sum((d: Destination) => d.observations, e.captured)
    && e.connections == Sum((d: Destination) => d.connections, e.captured)
    && e.successes == Sum((d: Destination) => d.successes, e.captured)
    && e.failures == Sum((d: Destination) => d.failures, e.captured)
    && e.outcome == OutcomeOf(e.captured)
    && e.observed == ShownOf(e.captured)
    && (e.failed <==> SomeFailed(e.captured))
    && (e.unsupported <==> e.target.None?)
    && (e.target.Some? ==> e.identity == e.hostname == e.target.value && (e.service == HTTP || e.service == HTTPS))
  }

  lemma {:induction false} FailuresFail(ds: seq<Destination>)
    ensures Sum((d: Destination) => d.failures, ds) > 0 ==> SomeFailed(ds)
  {
    if ds != [] {
      FailuresFail(ds[..|ds| - 1]);
      FailedAppend(ds[..|ds| - 1], ds[|ds| - 1]);
      assert ds == ds[..|ds| - 1] + [ds[|ds| - 1]];
    }
  }

  lemma SumAppend(f: Destination -> nat, ds: seq<Destination>, d: Destination)
    ensures Sum(f, ds + [d]) == Sum(f, ds) + f(d)
  {
    assert (ds + [d])[..|ds|] == ds;
  }

  lemma OutcomeAppend(ds: seq<Destination>, d: Destination)
    ensures OutcomeOf(ds + [d]) == MergeOutcome(OutcomeOf(ds), d.outcome)
  {
    assert (ds + [d])[..|ds|] == ds;
  }

  lemma FailedAppend(ds: seq<Destination>, d: Destination)
    ensures SomeFailed(ds + [d]) <==> SomeFailed(ds) || CaptureFailed(d)
  {
    assert forall x :: x in ds + [d] <==> x in ds || x == d;
  }

  lemma MergedCounts(e: Entry, d: Destination)
    ensures var m := Merged(e, d);
            && Sum((x: Destination) => x.observations, m.captured) == Sum((x: Destination) => x.observations, e.captured) + d.observations
            && Sum((x: Destination) => x.connections, m.captured) == Sum((x: Destination) => x.connections, e.captured) + d.connections
            && Sum((x: Destination) => x.successes, m.captured) == Sum((x: Destination) => x.successes, e.captured) + d.successes
            && Sum((x: Destination) => x.failures, m.captured) == Sum((x: Destination) => x.failures, e.captured) + d.failures
  {
    SumAppend((x: Destination) => x.observations, e.captured, d);
    SumAppend((x: Destination) => x.connections, e.captured, d);
    SumAppend((x: Destination) => x.successes, e.captured, d);
    SumAppend((x: Destination) => x.failures, e.captured, d);
  }

  lemma MergedIsWell(e: Entry, d: Destination)
    requires WellMerged(e)
    ensures WellMerged(Merged(e, d))
  {
    MergedCounts(e, d);
    OutcomeAppend(e.captured, d);
    FailedAppend(e.captured, d);
    ShownAppend(e.captured, d);
    FailuresFail(e.captured);
  }

  lemma FirstIsWell(env: Env, d: Destination, mechanism: string)
    ensures WellMerged(Merged(EntryFor(env, d, mechanism), d))
  {
    var e := EntryFor(env, d, mechanism);
    MergedCounts(e, d);
    MergeOutcomeIsJoin(d.outcome, d.outcome, "");
    OutcomeAppend([], d);
    FailedAppend([], d);
    ShownAppend([], d);
    assert e.captured == [] && [] + [d] == [d];
    assert OutcomeOf([]) == "" && !SomeFailed([]);
  }

  /** Each group is well merged and holds exactly the destinations of the pairs with its key. */
  ghost predicate Collects(env: Env, pairs: seq<Pair>, groups: seq<Entry>) {
    && DistinctKeys(groups)
    && (forall i :: 0 <= i < |groups| ==> WellMerged(groups[i]) && groups[i].captured == CapturedOf(env, pairs, KeyOf(groups[i])))
    && (forall key :: CapturedOf(env, pairs, key) != [] ==> Position(groups, key) < |groups|)
  }

  lemma CapturedAppend(env: Env, pairs: seq<Pair>, p: Pair, key: string)
    ensures CapturedOf(env, pairs + [p], key) == CapturedOf(env, pairs, key) + if PairKey(env, p) == key then [p.destination] else []
  {
    assert (pairs + [p])[..|pairs|] == pairs;
  }

  lemma PositionHas(groups: seq<Entry>, i: nat, key: string)
    requires i < |groups| && KeyOf(groups[i]) == key
    ensures Position(groups, key) <= i
  {
  }

  lemma OtherKeys(groups: seq<Entry>, key: string, i: nat)
    requires DistinctKeys(groups) && i < |groups| && i != Position(groups, key)
    ensures KeyOf(groups[i]) != key
  {
    if KeyOf(groups[i]) == key {
      PositionHas(groups, i, key);
    }
  }

  lemma GrownCollects(env: Env, pairs: seq<Pair>, p: Pair, groups: seq<Entry>)
    requires Collects(env, pairs, groups)
    ensures Collects(env, pairs + [p], Grown(env, groups, p))
  {
    var key, grown := PairKey(env, p), Grown(env, groups, p);
    var k := Position(groups, key);
    GrownKeys(env, groups, p);
    forall i | 0 <= i < |grown| ensures WellMerged(grown[i]) && grown[i].captured == CapturedOf(env, pairs + [p], KeyOf(grown[i])) {
      CapturedAppend(env, pairs, p, KeyOf(grown[i]));
      if i == k {
        GrownAtKey(env, pairs, p, groups);
      } else {
        assert grown[i] == groups[i];
        OtherKeys(groups, key, i);
      }
    }
    forall x | CapturedOf(env, pairs + [p], x) != [] ensures Position(grown, x) < |grown| {
      CapturedAppend(env, pairs, p, x);
      GrownHasKey(env, p, groups, x);
    }
  }

  lemma GrownAtKey(env: Env, pairs: seq<Pair>, p: Pair, groups: seq<Entry>)
    requires Collects(env, pairs, groups)
    ensures var key, grown := PairKey(env, p), Grown(env, groups, p);
            var k := Position(groups, key);
            k < |grown| && WellMerged(grown[k]) && KeyOf(grown[k]) == key
            && grown[k].captured == CapturedOf(env, pairs, key) + [p.destination]
  {
    var k := Position(groups, PairKey(env, p));
    if k < |groups| {
      MergedKeepsKey(groups[k], p.destination);
      MergedIsWell(groups[k], p.destination);
    } else {
      MergedKeepsKey(EntryFor(env, p.destination, p.mechanism), p.destination);
      FirstIsWell(env, p.destination, p.mechanism);
    }
  }

  lemma GrownHasKey(env: Env, p: Pair, groups: seq<Entry>, x: string)
    requires x == PairKey(env, p) || Position(groups, x) < |groups|
    ensures Position(Grown(env, groups, p), x) < |Grown(env, groups, p)|
  {
    var grown := Grown(env, groups, p);
    var k := Position(groups, PairKey(env, p));
    var i := if x == PairKey(env, p) then k else Position(groups, x);
    if k < |groups| {
      MergedKeepsKey(groups[k], p.destination);
    } else {
      MergedKeepsKey(EntryFor(env, p.destination, p.mechanism), p.destination);
    }
    assert i < |grown| && KeyOf(grown[i]) == x;
    PositionHas(grown, i, x);
  }

  lemma {:induction false} GroupsCollect(env: Env, pairs: seq<Pair>)
    ensures Collects(env, pairs, Groups(env, pairs))
  {
    if pairs != [] {
      var front, p := pairs[..|pairs| - 1], pairs[|pairs| - 1];
      assert pairs == front + [p];
      GroupsCollect(env, front);
      GrownCollects(env, front, p, Groups(env, front));
    }
  }

  /** The entries of a plan are the groups, in another order and numbered. */
  lemma PlanEntriesAre(env: Env, selection: Selection, ds: seq<Destination>)
    requires PlanOf(env, selection, Some(ds)).Plan?
    ensures PlanOf(env, selection, Some(ds)).entries == Numbered(SortBy(EntryLe, Groups(env, Pairs(env, selection, ds))))
  {
    PlanIsFrom(env, selection, ds);
  }

  lemma FromEntries(entries: seq<Entry>)
    ensures PlanFrom(entries).Plan? ==> PlanFrom(entries).entries == entries
  {
  }

  lemma PlanIsFrom(env: Env, selection: Selection, ds: seq<Destination>)
    ensures PlanOf(env, selection, Some(ds)).Plan? ==> PlanOf(env, selection, Some(ds)).entries == PlanEntries(env, selection, ds)
  {
    FromEntries(PlanEntries(env, selection, ds));
  }

  lemma NumberedIsGroup(groups: seq<Entry>, e: Entry)
    requires e in Numbered(SortBy(EntryLe, groups)) && forall g :: g in groups ==> g.id == ""
    ensures e.(id := "") in groups
  {
    var sorted := SortBy(EntryLe, groups);
    SameElements(groups, sorted);
    var i :| 0 <= i < |sorted| && Numbered(sorted)[i] == e;
    assert sorted[i] in groups;
    assert e.(id := "") == sorted[i];
  }

  lemma GroupIsNumbered(groups: seq<Entry>, g: Entry) returns (i: nat)
    requires g in groups
    ensures i < |Numbered(SortBy(EntryLe, groups))| && Numbered(SortBy(EntryLe, groups))[i].(id := g.id) == g
  {
    var sorted := SortBy(EntryLe, groups);
    SameElements(groups, sorted);
    i :| 0 <= i < |sorted| && sorted[i] == g;
  }

  lemma {:induction false} NoIds(env: Env, pairs: seq<Pair>)
    ensures forall e :: e in Groups(env, pairs) ==> e.id == ""
  {
    if pairs != [] {
      NoIds(env, pairs[..|pairs| - 1]);
    }
  }

  /**
   Every selected pair is in exactly one entry: an entry holds exactly the destinations of the
   pairs with its key, no two entries share a key, and every pair has an entry.
   */
  lemma EntriesPartitionPairs(env: Env, selection: Selection, ds: seq<Destination>, e: Entry)
    requires PlanOf(env, selection, Some(ds)).Plan? && e in PlanOf(env, selection, Some(ds)).entries
    ensures e.captured == CapturedOf(env, Pairs(env, selection, ds), KeyOf(e))
    ensures WellMerged(e)
  {
    var pairs := Pairs(env, selection, ds);
    PlanEntriesAre(env, selection, ds);
    NoIds(env, pairs);
    NumberedIsGroup(Groups(env, pairs), e);
    GroupsCollect(env, pairs);
    assert KeyOf(e.(id := "")) == KeyOf(e);
  }

  lemma {:induction false} PairIsCaptured(env: Env, pairs: seq<Pair>, p: Pair)
    requires p in pairs
    ensures p.destination in CapturedOf(env, pairs, PairKey(env, p))
  {
    var front := pairs[..|pairs| - 1];
    assert pairs == front + [pairs[|front|]];
    if p != pairs[|front|] {
      PairIsCaptured(env, front, p);
    }
  }

  lemma EveryPairHasAnEntry(env: Env, selection: Selection, ds: seq<Destination>, p: Pair) returns (i: nat)
    requires p in Pairs(env, selection, ds) && PlanOf(env, selection, Some(ds)).Plan?
    ensures var plan := PlanOf(env, selection, Some(ds));
            i < |plan.entries| && KeyOf(plan.entries[i]) == PairKey(env, p) && p.destination in plan.entries[i].captured
  {
    var pairs := Pairs(env, selection, ds);
    GroupsCollect(env, pairs);
    PairIsCaptured(env, pairs, p);
    var group := Groups(env, pairs)[Position(Groups(env, pairs), PairKey(env, p))];
    PlanEntriesAre(env, selection, ds);
    i := GroupIsNumbered(Groups(env, pairs), group);
    assert KeyOf(PlanOf(env, selection, Some(ds)).entries[i]) == KeyOf(group);
  }

  // ---- conservation ----

  function SumEntries(f: Destination -> nat, entries: seq<Entry>): nat {
    if entries == [] then 0 else Sum(f, entries[0].captured) + SumEntries(f, entries[1..])
  }

  lemma {:induction false} SumEntriesUpdate(f: Destination -> nat, entries: seq<Entry>, k: nat, e: Entry)
    requires k < |entries|
    ensures SumEntries(f, entries[k := e]) == SumEntries(f, entries) - Sum(f, entries[k].captured) + Sum(f, e.captured)
  {
    if k == 0 {
      assert entries[k := e][1..] == entries[1..];
    } else {
      SumEntriesUpdate(f, entries[1..], k - 1, e);
      assert entries[k := e][1..] == entries[1..][k - 1 := e];
    }
  }

  lemma {:induction false} SumEntriesAppend(f: Destination -> nat, entries: seq<Entry>, e: Entry)
    ensures SumEntries(f, entries + [e]) == SumEntries(f, entries) + Sum(f, e.captured)
  {
    if entries != [] {
      SumEntriesAppend(f, entries[1..], e);
      assert (entries + [e])[1..] == entries[1..] + [e];
    } else {
      assert [e][1..] == [];
    }
  }

  function SumPairs(f: Destination -> nat, pairs: seq<Pair>): nat {
    if pairs == [] then 0 else SumPairs(f, pairs[..|pairs| - 1]) + f(pairs[|pairs| - 1].destination)
  }

  lemma {:induction false} GroupsConserve(env: Env, f: Destination -> nat, pairs: seq<Pair>)
    ensures SumEntries(f, Groups(env, pairs)) == SumPairs(f, pairs)
  {
    if pairs != [] {
      var front, p := pairs[..|pairs| - 1], pairs[|pairs| - 1];
      GroupsConserve(env, f, front);
      var groups := Groups(env, front);
      var k := Position(groups, PairKey(env, p));
      if k < |groups| {
        SumEntriesUpdate(f, groups, k, Merged(groups[k], p.destination));
        SumAppend(f, groups[k].captured, p.destination);
      } else {
        var e := EntryFor(env, p.destination, p.mechanism);
        SumEntriesAppend(f, groups, Merged(e, p.destination));
        SumAppend(f, [], p.destination);
        assert e.captured == [];
      }
    }
  }

  lemma {:induction false} SumOfInsert(f: Destination -> nat, e: Entry, entries: seq<Entry>)
    ensures SumEntries(f, Insert(EntryLe, e, entries)) == Sum(f, e.captured) + SumEntries(f, entries)
  {
    if entries != [] {
      SumOfInsert(f, e, entries[1..]);
      assert ([e] + entries)[1..] == entries;
    } else {
      assert [e][1..] == [];
    }
  }

  lemma {:induction false} SumOfSorted(f: Destination -> nat, entries: seq<Entry>)
    ensures SumEntries(f, SortBy(EntryLe, entries)) == SumEntries(f, entries)
  {
    if entries != [] {
      SumOfSorted(f, entries[1..]);
      SumOfInsert(f, entries[0], SortBy(EntryLe, entries[1..]));
    }
  }

  lemma {:induction false} SumIgnoresIds(f: Destination -> nat, a: seq<Entry>, b: seq<Entry>)
    requires |a| == |b| && forall i :: 0 <= i < |a| ==> a[i].captured == b[i].captured
    ensures SumEntries(f, a) == SumEntries(f, b)
  {
    if a != [] {
      SumIgnoresIds(f, a[1..], b[1..]);
    }
  }

  /** Nothing is lost or counted twice: any measure of destinations adds up to the same over entries and pairs. */
  lemma PlanConserves(env: Env, selection: Selection, ds: seq<Destination>, f: Destination -> nat)
    requires PlanOf(env, selection, Some(ds)).Plan?
    ensures SumEntries(f, PlanOf(env, selection, Some(ds)).entries) == SumPairs(f, Pairs(env, selection, ds))
  {
    var pairs := Pairs(env, selection, ds);
    GroupsConserve(env, f, pairs);
    SumOfSorted(f, Groups(env, pairs));
    SumIgnoresIds(f, Numbered(SortBy(EntryLe, Groups(env, pairs))), SortBy(EntryLe, Groups(env, pairs)));
  }

  // ---- identifiers and keys ----

  lemma {:induction false} CountNoRepetition<T>(s: seq<T>)
    requires forall x :: multiset(s)[x] <= 1
    ensures NoRepetition(s)
  {
    if s != [] {
      var front, last := s[..|s| - 1], s[|s| - 1];
      assert s == front + [last];
      assert forall x :: multiset(s)[x] == multiset(front)[x] + multiset{last}[x];
      CountNoRepetition(front);
      assert last !in front by {
        assert multiset(s)[last] == multiset(front)[last] + 1;
      }
    }
  }

  lemma SortedKeysDistinct(groups: seq<Entry>)
    requires DistinctKeys(groups)
    ensures DistinctKeys(SortBy(EntryLe, groups))
  {
    var sorted := SortBy(EntryLe, groups);
    DistinctKeysSeparate(groups);
    forall x ensures multiset(sorted)[x] <= 1 {
      NoRepetitionCount(groups, x);
    }
    CountNoRepetition(sorted);
    SameElements(groups, sorted);
    forall i, j | 0 <= i < j < |sorted| ensures KeyOf(sorted[i]) != KeyOf(sorted[j]) {
      KeysTellApart(groups, sorted[i], sorted[j]);
    }
  }

  lemma KeysTellApart(groups: seq<Entry>, x: Entry, y: Entry)
    requires DistinctKeys(groups) && x in groups && y in groups && x != y
    ensures KeyOf(x) != KeyOf(y)
  {
    var i :| 0 <= i < |groups| && groups[i] == x;
    var j :| 0 <= j < |groups| && groups[j] == y;
  }

  lemma NumbersTellApart(m: nat, n: nat)
    requires "endpoint-" + Padded(m) == "endpoint-" + Padded(n)
    ensures m == n
  {
    assert ("endpoint-" + Padded(m))[|"endpoint-"|..] == Padded(m);
    assert ("endpoint-" + Padded(n))[|"endpoint-"|..] == Padded(n);
    PaddedInjective(m, n);
  }

  /** Plan identifiers are distinct, for any number of entries, and so are identity, service and port. */
  lemma PlanIdsDistinct(env: Env, selection: Selection, ds: seq<Destination>, i: nat, j: nat)
    requires PlanOf(env, selection, Some(ds)).Plan? && i < j < |PlanOf(env, selection, Some(ds)).entries|
    ensures PlanOf(env, selection, Some(ds)).entries[i].id != PlanOf(env, selection, Some(ds)).entries[j].id
    ensures KeyOf(PlanOf(env, selection, Some(ds)).entries[i]) != KeyOf(PlanOf(env, selection, Some(ds)).entries[j])
  {
    var groups := Groups(env, Pairs(env, selection, ds));
    PlanEntriesAre(env, selection, ds);
    GroupsHaveDistinctKeys(env, Pairs(env, selection, ds));
    SortedKeysDistinct(groups);
    NumberedTellApart(SortBy(EntryLe, groups), i, j);
  }

  lemma NumberedTellApart(sorted: seq<Entry>, i: nat, j: nat)
    requires DistinctKeys(sorted) && i < j < |sorted|
    ensures Numbered(sorted)[i].id != Numbered(sorted)[j].id
    ensures KeyOf(Numbered(sorted)[i]) != KeyOf(Numbered(sorted)[j])
  {
    if Numbered(sorted)[i].id == Numbered(sorted)[j].id {
      NumbersTellApart(i + 1, j + 1);
    }
    assert KeyOf(Numbered(sorted)[i]) == KeyOf(sorted[i]) && KeyOf(Numbered(sorted)[j]) == KeyOf(sorted[j]);
  }

  predicate NulFree(s: string) {
    forall i :: 0 <= i < |s| ==> s[i] != 0 as char
  }

  lemma NulSplit(p: string, x: string, q: string, y: string)
    requires NulFree(p) && NulFree(q) && p + NUL + x == q + NUL + y
    ensures p == q && x == y
  {
    var a, b := p + NUL + x, q + NUL + y;
    assert a[|p|] == 0 as char && b[|q|] == 0 as char;
    assert forall i :: 0 <= i < |p| ==> a[i] == p[i];
    assert forall i :: 0 <= i < |q| ==> b[i] == q[i];
    assert |p| == |q|;
    assert p == a[..|p|] && q == b[..|q|] && x == a[|p| + 1..] && y == b[|q| + 1..];
  }

  lemma JoinsAgree(a: string, s: string, m: nat, b: string, t: string, n: nat)
    requires NulFree(a) && NulFree(b) && NulFree(s) && NulFree(t) && Join(a, s, m) == Join(b, t, n)
    ensures a == b && s == t && m == n
  {
    assert Join(a, s, m) == a + NUL + (s + NUL + Dec(m));
    assert Join(b, t, n) == b + NUL + (t + NUL + Dec(n));
    NulSplit(a, s + NUL + Dec(m), b, t + NUL + Dec(n));
    NulSplit(s, Dec(m), t, Dec(n));
    DecInjective(m, n);
  }

  function KeyService(service: string): string {
    if service == "" then UNSUPPORTED else service
  }

  lemma KeyServices(s: string, t: string)
    requires s in {"", HTTP, HTTPS} && t in {"", HTTP, HTTPS}
    ensures NulFree(KeyService(s))
    ensures KeyService(s) == KeyService(t) ==> s == t
  {
    assert s != "" ==> KeyService(s)[0] == 'h';
    assert t != "" ==> KeyService(t)[0] == 'h';
    assert UNSUPPORTED[0] == 'u';
  }

  /** For names without NUL, entries are merged exactly when identity, service and port agree. */
  lemma KeysAgreeIff(a: Entry, b: Entry)
    requires NulFree(a.identity) && NulFree(b.identity)
    requires a.service in {"", HTTP, HTTPS} && b.service in {"", HTTP, HTTPS}
    ensures KeyOf(a) == KeyOf(b) <==> a.identity == b.identity && a.service == b.service && a.port == b.port
  {
    KeyServices(a.service, b.service);
    KeyServices(b.service, a.service);
    if KeyOf(a) == KeyOf(b) {
      JoinsAgree(a.identity, KeyService(a.service), a.port, b.identity, KeyService(b.service), b.port);
    }
  }
}
