/**
 Which work a plan holds, in which order and for which service, said of the plan itself
 (internal/batch/plan.go:92-159, 194-330).
 */
module PlanSelections {
  import opened Decimal
  import opened Options
  import opened Lists
  import opened Orders
  import opened Targets
  import opened Plans
  import opened PlanFacts

  // ---- the selected pairs ----

  /** The destination names the mechanism; one that names none goes by the blank one. */
  ghost predicate NamesMechanism(d: Destination, m: string) {
    if m != "" then m == d.mechanism || m in d.mechanisms
    else d.mechanism == "" && forall x :: x in d.mechanisms ==> x == ""
  }

  /** The capture saw it fail: a failure, a concrete reason, or an outcome other than connected. */
  predicate SeenFailing(d: Destination) {
    d.failures >= 1 || d.concreteReason || d.outcome != "connected"
  }

  /** What the selection asks for. */
  ghost predicate Wanted(env: Env, selection: Selection, p: Pair) {
    || selection.All?
    || (selection.FailedOnly? && SeenFailing(p.destination))
    || (selection.Selected? && exists s :: s in selection.selectors && IsName(env, p.destination, p.mechanism, s))
  }

  /** A pair is worked on exactly when it was captured, its destination names the mechanism, and it is wanted. */
  lemma WorkedOnIff(env: Env, selection: Selection, ds: seq<Destination>, p: Pair)
    requires env.lower("") == ""
    ensures p in Pairs(env, selection, ds) <==>
              p.destination in ds && NamesMechanism(p.destination, p.mechanism) && Wanted(env, selection, p)
  {
    PairsAre(env, selection, ds, p);
    MechanismsAre(p.destination);
    SelectedIff(env, selection, p.destination, p.mechanism);
  }

  lemma SelectedIff(env: Env, selection: Selection, d: Destination, m: string)
    requires env.lower("") == ""
    ensures IsSelected(env, EntryFor(env, d, m), selection) <==> Wanted(env, selection, Pair(d, m))
  {
    if selection.Selected? {
      forall s ensures Matches(env, EntryFor(env, d, m), s) <==> IsName(env, d, m, s) {
        assert EntryFor(env, d, m).id == "";
      }
    }
  }

  lemma {:induction false} CapturedFrom(env: Env, pairs: seq<Pair>, key: string, d: Destination) returns (m: string)
    requires d in CapturedOf(env, pairs, key)
    ensures Pair(d, m) in pairs && PairKey(env, Pair(d, m)) == key
  {
    var front, p := pairs[..|pairs| - 1], pairs[|pairs| - 1];
    assert pairs == front + [p];
    if d in CapturedOf(env, front, key) {
      m := CapturedFrom(env, front, key, d);
    } else {
      m := p.mechanism;
    }
  }

  /** Every destination behind an entry was captured and is there through a mechanism that was wanted. */
  lemma EntriesAreWanted(env: Env, selection: Selection, ds: seq<Destination>, e: Entry, d: Destination) returns (m: string)
    requires env.lower("") == "" && PlanOf(env, selection, Some(ds)).Plan?
    requires e in PlanOf(env, selection, Some(ds)).entries && d in e.captured
    ensures d in ds && NamesMechanism(d, m) && Wanted(env, selection, Pair(d, m)) && PairKey(env, Pair(d, m)) == KeyOf(e)
  {
    EntriesPartitionPairs(env, selection, ds, e);
    m := CapturedFrom(env, Pairs(env, selection, ds), KeyOf(e), d);
    WorkedOnIff(env, selection, ds, Pair(d, m));
  }

  lemma FailingEntry(env: Env, ds: seq<Destination>, e: Entry)
    requires env.lower("") == "" && PlanOf(env, FailedOnly, Some(ds)).Plan? && e in PlanOf(env, FailedOnly, Some(ds)).entries
    ensures e.failed && forall d :: d in e.captured ==> d in ds && SeenFailing(d)
  {
    forall d | d in e.captured ensures d in ds && SeenFailing(d) {
      var m := EntriesAreWanted(env, FailedOnly, ds, e, d);
    }
    EntriesPartitionPairs(env, FailedOnly, ds, e);
    assert e.captured[0] in e.captured && SeenFailing(e.captured[0]);
    assert CaptureFailed(e.captured[0]);
  }

  /** A plan of failures holds failing destinations only, and there is none exactly when nothing was seen failing. */
  lemma FailedOnlyHoldsFailures(env: Env, ds: seq<Destination>, plan: Plan)
    requires env.lower("") == "" && plan == PlanOf(env, FailedOnly, Some(ds))
    ensures plan == Refused(EmptyPlan) <==> forall d :: d in ds ==> !SeenFailing(d)
    ensures plan.Plan? ==> forall e :: e in plan.entries ==> e.failed && forall d :: d in e.captured ==> d in ds && SeenFailing(d)
  {
    NothingFailedIff(env, ds);
    if plan.Plan? {
      forall e | e in plan.entries ensures e.failed && forall d :: d in e.captured ==> d in ds && SeenFailing(d) {
        FailingEntry(env, ds, e);
      }
    }
  }

  lemma FailingIsWorkedOn(env: Env, ds: seq<Destination>, d: Destination)
    requires env.lower("") == "" && d in ds && SeenFailing(d)
    ensures Pairs(env, FailedOnly, ds) != []
  {
    MechanismsAre(d);
    var p := Pair(d, Mechanisms(d)[0]);
    assert p.mechanism in Mechanisms(d);
    WorkedOnIff(env, FailedOnly, ds, p);
    assert p in Pairs(env, FailedOnly, ds);
  }

  lemma NothingFailedIff(env: Env, ds: seq<Destination>)
    requires env.lower("") == ""
    ensures PlanOf(env, FailedOnly, Some(ds)) == Refused(EmptyPlan) <==> forall d :: d in ds ==> !SeenFailing(d)
  {
    EmptyPlanIff(env, FailedOnly, ds);
    var pairs := Pairs(env, FailedOnly, ds);
    if pairs != [] {
      assert pairs[0] in pairs;
      WorkedOnIff(env, FailedOnly, ds, pairs[0]);
    } else if d :| d in ds && SeenFailing(d) {
      FailingIsWorkedOn(env, ds, d);
    }
  }

  /** When there is no plan, and why. */
  lemma RefusedIff(env: Env, selection: Selection, destinations: Option<seq<Destination>>)
    ensures var plan := PlanOf(env, selection, destinations);
            && (plan == Refused(CaptureMissing) <==> destinations.None?)
            && (plan == Refused(InvalidSelection) <==> destinations.Some? && selection.Invalid?)
            && (plan == Refused(EmptySelection) <==> destinations.Some? && selection == Selected([]))
            && (plan == Refused(EmptyPlan) <==> destinations.Some? && !selection.Invalid? && selection != Selected([])
                                                && Pairs(env, selection, destinations.value) == [])
            && (plan.Plan? ==> plan.entries != [])
  {
    if destinations.Some? && !selection.Invalid? && selection != Selected([]) {
      EmptyPlanIff(env, selection, destinations.value);
    }
  }

  // ---- which service, on which port ----

  ghost predicate Identifiable(env: Env, d: Destination) {
    && NulFree(env.clean(d.host))
    && forall s, n :: env.parse(env.clean(d.host), s, n).Some? ==> NulFree(env.parse(env.clean(d.host), s, n).value)
  }

  /**
   A destination captured through a plain request is probed as HTTP, one captured through CONNECT
   as HTTPS, both under the parsed identity where it parses; any other mechanism stays unserved.
   */
  lemma MechanismDecidesService(env: Env, selection: Selection, ds: seq<Destination>, e: Entry, d: Destination) returns (m: string)
    requires env.lower("") == "" && PlanOf(env, selection, Some(ds)).Plan?
    requires e in PlanOf(env, selection, Some(ds)).entries && d in e.captured
    requires (forall x :: x in ds ==> Identifiable(env, x)) && NulFree(e.identity) && e.service in {"", HTTP, HTTPS}
    ensures NamesMechanism(d, m) && e.port == d.port
    ensures e.service == match m
                         case "plain_http" => HTTP
                         case "CONNECT" => HTTPS
                         case _ => ""
    ensures e.identity == var parsed := env.parse(env.clean(d.host), e.service, d.port);
                          if e.service != "" && parsed.Some? then parsed.value else env.clean(d.host)
  {
    m := EntriesAreWanted(env, selection, ds, e, d);
    KeysAgreeIff(e, EntryFor(env, d, m));
  }

  // ---- in which order ----

  ghost predicate InOrder(a: Entry, b: Entry) {
    && StringLe(a.identity, b.identity)
    && (a.identity == b.identity ==> StringLe(a.service, b.service))
    && (a.identity == b.identity && a.service == b.service ==> a.port <= b.port)
  }

  lemma LeIsInOrder(a: Entry, b: Entry)
    requires EntryLe(a, b)
    ensures InOrder(a, b)
  {
    StringLeIsOrder();
  }

  lemma SortedInOrder(groups: seq<Entry>, i: nat, j: nat)
    requires i < j < |SortBy(EntryLe, groups)|
    ensures InOrder(SortBy(EntryLe, groups)[i], SortBy(EntryLe, groups)[j])
  {
    EntryLeIsOrder();
    SortBySorted(EntryLe, groups);
    LeIsInOrder(SortBy(EntryLe, groups)[i], SortBy(EntryLe, groups)[j]);
  }

  lemma NumberedInOrder(sorted: seq<Entry>, i: nat, j: nat)
    requires i < j < |sorted| && InOrder(sorted[i], sorted[j])
    ensures var (a, b) := (Numbered(sorted)[i], Numbered(sorted)[j]);
            a.id == "endpoint-" + Padded(i + 1) && b.id == "endpoint-" + Padded(j + 1) && InOrder(a, b)
  {
  }

  /** Entries stand in order of identity, then service, then port, and are numbered from one. */
  lemma PlanIsOrdered(env: Env, selection: Selection, ds: seq<Destination>, i: nat, j: nat)
    requires PlanOf(env, selection, Some(ds)).Plan? && i < j < |PlanOf(env, selection, Some(ds)).entries|
    ensures var (a, b) := (PlanOf(env, selection, Some(ds)).entries[i], PlanOf(env, selection, Some(ds)).entries[j]);
            a.id == "endpoint-" + Padded(i + 1) && b.id == "endpoint-" + Padded(j + 1) && InOrder(a, b)
  {
    PlanEntriesAre(env, selection, ds);
    SortedInOrder(Groups(env, Pairs(env, selection, ds)), i, j);
    NumberedInOrder(SortBy(EntryLe, Groups(env, Pairs(env, selection, ds))), i, j);
  }
}
