/**
 Building the validation plan of a browser capture (internal/batch/plan.go:92-159, 194-244,
 259-364).  The entries are accumulated in a map that is then read in any order; the plan
 does not depend on that order.
 */
module Plans {
  import opened Options
  import opened Decimal
  import opened Lists
  import opened Orders
  import opened Targets

  /**
   What comes from other packages: `clean` lowers, trims and drops a final dot, `lower` lowers,
   and `parse` is `model.ParseTarget` with an explicit service and port, of which only the
   identity can differ from what was asked.
   */
  datatype Env = Env(clean: string -> string, lower: string -> string, parse: (string, string, nat) -> Option<string>)

  datatype Destination = Destination(host: string, port: nat, mechanism: string, mechanisms: seq<string>, outcome: string,
                                     observations: nat, connections: nat, successes: nat, failures: nat,
                                     concreteReason: bool)

  datatype Entry = Entry(id: string, hostname: string, identity: string, port: nat, service: string, mechanism: string,
                         target: Option<string>, unsupported: bool, outcome: string, failed: bool,
                         observations: nat, connections: nat, successes: nat, failures: nat,
                         observed: Destination, captured: seq<Destination>)

  datatype Selection = All | FailedOnly | Selected(selectors: seq<string>) | Invalid

  datatype Error = CaptureMissing | InvalidSelection | EmptySelection | EmptyPlan

  datatype Plan = Plan(entries: seq<Entry>) | Refused(error: Error)

  const CONNECTED := "connected"
  const MIXED := "mixed"
  const CONNECT := "CONNECT"
  const PLAIN_HTTP := "plain_http"
  const UNSUPPORTED := "unsupported"

  // ---- the merged outcome ----

  /** `mergeCaptureOutcome`. */
  function MergeOutcome(left: string, right: string): string {
    if left == "" then right
    else if right == "" || left == right then left
    else if (left == CONNECTED && right != "" && right != CONNECTED) || (right == CONNECTED && left != "" && left != CONNECTED) then MIXED
    else MIXED
  }

  /** It is a join: empty at the bottom, mixed on top, everything else side by side. */
  lemma MergeOutcomeIsJoin(a: string, b: string, c: string)
    ensures MergeOutcome(a, b) == MergeOutcome(b, a)
    ensures MergeOutcome(MergeOutcome(a, b), c) == MergeOutcome(a, MergeOutcome(b, c))
    ensures MergeOutcome(a, a) == a && MergeOutcome(a, "") == a
    ensures a != "" ==> MergeOutcome(a, MIXED) == MIXED
    ensures a != "" && b != "" && a != b ==> MergeOutcome(a, b) == "mixed"
  {
  }

  function OutcomeOf(ds: seq<Destination>): string {
    if ds == [] then "" else MergeOutcome(OutcomeOf(ds[..|ds| - 1]), ds[|ds| - 1].outcome)
  }

  /** An outcome is the merged one exactly when it is the only one there is, or there are two and it is mixed. */
  lemma {:induction false} OutcomeOfIs(ds: seq<Destination>, x: string)
    ensures x != "" && x != MIXED ==>
              (OutcomeOf(ds) == x <==> (exists d :: d in ds && d.outcome == x) && forall d :: d in ds ==> d.outcome == "" || d.outcome == x)
    ensures OutcomeOf(ds) == "" <==> forall d :: d in ds ==> d.outcome == ""
  {
    if ds != [] {
      var front, d := ds[..|ds| - 1], ds[|ds| - 1];
      OutcomeOfIs(front, x);
      assert ds == front + [d];
      assert forall e :: e in ds <==> e in front || e == d;
      if OutcomeOf(front) != "" && OutcomeOf(front) != x {
        OutcomeOfIs(front, OutcomeOf(front));
      }
    }
  }

  // ---- one destination ----

  /** `captureFailed`. */
  predicate CaptureFailed(d: Destination) {
    d.failures > 0 || d.concreteReason || d.outcome != CONNECTED
  }

  function Service(mechanism: string): string {
    if mechanism == PLAIN_HTTP then HTTP else if mechanism == CONNECT then HTTPS else ""
  }

  /** `planEntryForDestination` without the key. */
  function EntryFor(env: Env, d: Destination, mechanism: string): Entry {
    var host := env.clean(d.host);
    var service := Service(mechanism);
    var parsed := env.parse(host, service, d.port);
    var entry := Entry("", host, host, d.port, service, mechanism, None, true, d.outcome, CaptureFailed(d), 0, 0, 0, 0, d, []);
    if service == "" || parsed.None? then entry
    else entry.(target := parsed, unsupported := false, hostname := parsed.value, identity := parsed.value)
  }

  const NUL: string := [0 as char]

  function Join(identity: string, service: string, port: nat): string {
    identity + NUL + service + NUL + Dec(port)
  }

  /** The key of an entry: identity, service and port between NUL characters. */
  function KeyOf(e: Entry): string {
    Join(e.identity, if e.service == "" then UNSUPPORTED else e.service, e.port)
  }

  /** `destinationMechanisms`: the mechanisms of a destination, in order, without blanks and repetitions. */
  function Mechanisms(d: Destination): seq<string> {
    var values := AllAdded(Added([], d.mechanism), d.mechanisms);
    if values == [] then [""] else values
  }

  /** A destination stands for each of its mechanisms once, or for the blank one when it names none. */
  lemma MechanismsAre(d: Destination)
    ensures Mechanisms(d) != [] && NoRepetition(Mechanisms(d))
    ensures forall x :: x != "" ==> (x in Mechanisms(d) <==> x == d.mechanism || x in d.mechanisms)
    ensures "" in Mechanisms(d) <==> d.mechanism == "" && forall x :: x in d.mechanisms ==> x == ""
  {
    AllAddedIs(Added([], d.mechanism), d.mechanisms);
    var values := AllAdded(Added([], d.mechanism), d.mechanisms);
    assert values != [] ==> values[0] in values;
  }

  method DestinationMechanisms(d: Destination) returns (values: seq<string>)
    ensures values == Mechanisms(d)
  {
    values := Added([], d.mechanism);
    for i := 0 to |d.mechanisms|
      invariant values == AllAdded(Added([], d.mechanism), d.mechanisms[..i])
    {
      assert d.mechanisms[..i + 1][..i] == d.mechanisms[..i];
      values := Added(values, d.mechanisms[i]);
    }
    assert d.mechanisms[..|d.mechanisms|] == d.mechanisms;
    if values == [] {
      values := [""];
    }
  }

  // ---- selection ----

  /** `selectorMatches`. */
  predicate Matches(env: Env, e: Entry, selector: string) {
    var value := env.clean(selector);
    value != "" &&
    (value == env.lower(e.id) || value == env.lower(e.identity) || value == env.lower(e.hostname)
     || value == env.lower(TargetIdentity(e.hostname, e.service, e.port))
     || value == env.lower(JoinHostPort(e.hostname, e.port)))
  }

  /** `selectedDestination`. */
  predicate IsSelected(env: Env, e: Entry, selection: Selection) {
    match selection
    case All => true
    case FailedOnly => e.failed
    case Selected(selectors) => exists s :: s in selectors && Matches(env, e, s)
    case Invalid => false
  }

  // ---- accumulation ----

  /** `mergePlanEntry`. */
  function Merged(e: Entry, d: Destination): Entry {
    e.(captured := e.captured + [d],
       observations := e.observations + d.observations, connections := e.connections + d.connections,
       successes := e.successes + d.successes, failures := e.failures + d.failures,
       failed := e.failed || e.failures + d.failures > 0 || CaptureFailed(d),
       outcome := MergeOutcome(e.outcome, d.outcome),
       observed := if e.observed.host == "" then d else e.observed)
  }

  /** What one destination contributes through one mechanism. */
  datatype Pair = Pair(destination: Destination, mechanism: string)

  function PairKey(env: Env, p: Pair): string {
    KeyOf(EntryFor(env, p.destination, p.mechanism))
  }

  function PairsOf(env: Env, selection: Selection, d: Destination, mechanisms: seq<string>): seq<Pair> {
    if mechanisms == [] then [] else
    var rest, m := PairsOf(env, selection, d, mechanisms[..|mechanisms| - 1]), mechanisms[|mechanisms| - 1];
    if IsSelected(env, EntryFor(env, d, m), selection) then rest + [Pair(d, m)] else rest
  }

  /** The selected destination/mechanism pairs, in order. */
  function Pairs(env: Env, selection: Selection, ds: seq<Destination>): seq<Pair> {
    if ds == [] then [] else
    var d := ds[|ds| - 1];
    Pairs(env, selection, ds[..|ds| - 1]) + PairsOf(env, selection, d, Mechanisms(d))
  }

  /** The accumulated entries in the order in which their keys first occur. */
  function Position(groups: seq<Entry>, key: string): (k: nat)
    ensures k <= |groups|
    ensures k < |groups| ==> KeyOf(groups[k]) == key
    ensures forall i :: 0 <= i < k ==> KeyOf(groups[i]) != key
  {
    if groups == [] then 0
    else
      var k := Position(groups[..|groups| - 1], key);
      if k < |groups| - 1 || KeyOf(groups[|groups| - 1]) == key then k else |groups|
  }

  function Grown(env: Env, groups: seq<Entry>, p: Pair): seq<Entry> {
    var k := Position(groups, PairKey(env, p));
    if k < |groups| then groups[k := Merged(groups[k], p.destination)]
    else groups + [Merged(EntryFor(env, p.destination, p.mechanism), p.destination)]
  }

  function Groups(env: Env, pairs: seq<Pair>): seq<Entry> {
    if pairs == [] then [] else Grown(env, Groups(env, pairs[..|pairs| - 1]), pairs[|pairs| - 1])
  }

  // ---- order and numbering ----

  predicate EntryLe(a: Entry, b: Entry) {
    if a.identity != b.identity then StringLe(a.identity, b.identity)
    else if a.service != b.service then StringLe(a.service, b.service)
    else a.port <= b.port
  }

  function Numbered(entries: seq<Entry>): seq<Entry> {
    seq(|entries|, i requires 0 <= i < |entries| => entries[i].(id := "endpoint-" + Padded(i + 1)))
  }

  /** The plan: no map, no order of iteration. */
  function PlanOf(env: Env, selection: Selection, destinations: Option<seq<Destination>>): Plan {
    if destinations.None? then Refused(CaptureMissing)
    else if selection.Invalid? then Refused(InvalidSelection)
    else if selection.Selected? && selection.selectors == [] then Refused(EmptySelection)
    else
      PlanFrom(PlanEntries(env, selection, destinations.value))
  }

  function PlanEntries(env: Env, selection: Selection, ds: seq<Destination>): seq<Entry> {
    Numbered(SortBy(EntryLe, Groups(env, Pairs(env, selection, ds))))
  }

  function PlanFrom(entries: seq<Entry>): Plan {
    if entries == [] then Refused(EmptyPlan) else Plan(entries)
  }

  // ---- the groups and the map ----

  ghost predicate DistinctKeys(entries: seq<Entry>) {
    forall i, j :: 0 <= i < j < |entries| ==> KeyOf(entries[i]) != KeyOf(entries[j])
  }

  /** The map holds the groups under their keys. */
  ghost predicate Mirrors(m: map<string, Entry>, groups: seq<Entry>) {
    && (forall i :: 0 <= i < |groups| ==> KeyOf(groups[i]) in m && m[KeyOf(groups[i])] == groups[i])
    && (forall k :: k in m ==> KeyOf(m[k]) == k && m[k] in groups)
  }

  lemma GrownKeys(env: Env, groups: seq<Entry>, p: Pair)
    requires DistinctKeys(groups)
    ensures DistinctKeys(Grown(env, groups, p))
  {
    var k := Position(groups, PairKey(env, p));
    assert k < |groups| ==> KeyOf(Merged(groups[k], p.destination)) == KeyOf(groups[k]);
  }

  lemma {:induction false} GroupsHaveDistinctKeys(env: Env, pairs: seq<Pair>)
    ensures DistinctKeys(Groups(env, pairs))
  {
    if pairs != [] {
      GroupsHaveDistinctKeys(env, pairs[..|pairs| - 1]);
      GrownKeys(env, Groups(env, pairs[..|pairs| - 1]), pairs[|pairs| - 1]);
    }
  }

  lemma MirrorsPut(m: map<string, Entry>, groups: seq<Entry>, k: nat, e: Entry)
    requires Mirrors(m, groups) && DistinctKeys(groups) && k < |groups| && KeyOf(groups[k]) == KeyOf(e)
    ensures Mirrors(m[KeyOf(e) := e], groups[k := e])
  {
    var put, now := m[KeyOf(e) := e], groups[k := e];
    forall i | 0 <= i < |now| ensures KeyOf(now[i]) in put && put[KeyOf(now[i])] == now[i] {
      assert i != k ==> now[i] == groups[i];
    }
    forall x | x in put ensures KeyOf(put[x]) == x && put[x] in now {
      if x != KeyOf(e) {
        var i :| 0 <= i < |groups| && groups[i] == m[x];
        assert now[i] == groups[i];
      } else {
        assert now[k] == e;
      }
    }
  }

  lemma MirrorsAdd(m: map<string, Entry>, groups: seq<Entry>, e: Entry)
    requires Mirrors(m, groups) && KeyOf(e) !in m
    ensures Mirrors(m[KeyOf(e) := e], groups + [e])
  {
    assert forall x :: x in groups + [e] <==> x in groups || x == e;
  }

  lemma MergedKeepsKey(e: Entry, d: Destination)
    ensures KeyOf(Merged(e, d)) == KeyOf(e)
  {
  }

  /** Looking the key up in the map and in the groups is the same. */
  lemma MirrorsGrown(env: Env, m: map<string, Entry>, groups: seq<Entry>, p: Pair)
    requires Mirrors(m, groups) && DistinctKeys(groups)
    ensures var key := PairKey(env, p);
            var e := Merged(if key in m then m[key] else EntryFor(env, p.destination, p.mechanism), p.destination);
            Mirrors(m[key := e], Grown(env, groups, p))
  {
    var key := PairKey(env, p);
    var k := Position(groups, key);
    if k < |groups| {
      assert m[key] == groups[k];
      MergedKeepsKey(groups[k], p.destination);
      MirrorsPut(m, groups, k, Merged(groups[k], p.destination));
    } else {
      assert key !in m;
      MergedKeepsKey(EntryFor(env, p.destination, p.mechanism), p.destination);
      MirrorsAdd(m, groups, Merged(EntryFor(env, p.destination, p.mechanism), p.destination));
    }
  }

  lemma {:induction false} NoRepetitionCount<T>(s: seq<T>, x: T)
    requires NoRepetition(s)
    ensures multiset(s)[x] == if x in s then 1 else 0
  {
    if s != [] {
      var front, last := s[..|s| - 1], s[|s| - 1];
      NoRepetitionCount(front, x);
      assert s == front + [last];
      assert last !in front;
    }
  }

  lemma SameWithoutRepetition<T>(a: seq<T>, b: seq<T>)
    requires NoRepetition(a) && NoRepetition(b) && forall x :: x in a <==> x in b
    ensures multiset(a) == multiset(b)
  {
    forall x ensures multiset(a)[x] == multiset(b)[x] {
      NoRepetitionCount(a, x);
      NoRepetitionCount(b, x);
    }
  }

  lemma EntryLeIsOrder()
    ensures TotalPreorder(EntryLe)
  {
    StringLeIsOrder();
    forall a, b, c | EntryLe(a, b) && EntryLe(b, c) ensures EntryLe(a, c) {
      assert StringLe(a.identity, c.identity);
      if a.identity == c.identity {
        assert a.identity == b.identity;
        assert StringLe(a.service, c.service);
      }
    }
  }

  /** The sort key separates the grouping keys. */
  lemma DistinctKeysSeparate(entries: seq<Entry>)
    requires DistinctKeys(entries)
    ensures Separates(EntryLe, entries) && NoRepetition(entries)
  {
    StringLeIsOrder();
    forall x, y | x in entries && y in entries && EntryLe(x, y) && EntryLe(y, x) ensures x == y {
      assert KeyOf(x) == KeyOf(y);
      var i :| 0 <= i < |entries| && entries[i] == x;
      var j :| 0 <= j < |entries| && entries[j] == y;
      assert i == j;
    }
  }

  /** Whatever the order in which the map is read, the sorted entries are the same. */
  lemma ReadingOrderIsForgotten(read: seq<Entry>, groups: seq<Entry>)
    requires DistinctKeys(groups) && NoRepetition(read) && forall e :: e in read <==> e in groups
    ensures SortBy(EntryLe, read) == SortBy(EntryLe, groups)
  {
    DistinctKeysSeparate(groups);
    SameWithoutRepetition(groups, read);
    EntryLeIsOrder();
    SortForgetsArrival(EntryLe, groups, read);
  }

  // ---- the procedure ----

  method Accumulate(env: Env, selection: Selection, d: Destination, before: map<string, Entry>, ghost pairs: seq<Pair>)
    returns (m: map<string, Entry>)
    requires Mirrors(before, Groups(env, pairs))
    ensures Mirrors(m, Groups(env, pairs + PairsOf(env, selection, d, Mechanisms(d))))
  {
    m := before;
    var mechanisms := DestinationMechanisms(d);
    assert pairs + [] == pairs;
    for i := 0 to |mechanisms|
      invariant Mirrors(m, Groups(env, pairs + PairsOf(env, selection, d, mechanisms[..i])))
    {
      var entry := EntryFor(env, d, mechanisms[i]);
      MirrorsStep(env, selection, d, mechanisms, i, pairs, m);
      if IsSelected(env, entry, selection) {
        var key := KeyOf(entry);
        m := m[key := Merged(if key in m then m[key] else entry, d)];
      }
    }
    assert mechanisms[..|mechanisms|] == mechanisms;
  }

  lemma MirrorsStep(env: Env, selection: Selection, d: Destination, mechanisms: seq<string>, i: nat, pairs: seq<Pair>, m: map<string, Entry>)
    requires i < |mechanisms| && Mirrors(m, Groups(env, pairs + PairsOf(env, selection, d, mechanisms[..i])))
    ensures var entry := EntryFor(env, d, mechanisms[i]);
            var key := KeyOf(entry);
            Mirrors(if IsSelected(env, entry, selection) then m[key := Merged(if key in m then m[key] else entry, d)] else m,
                    Groups(env, pairs + PairsOf(env, selection, d, mechanisms[..i + 1])))
  {
    var so, p := pairs + PairsOf(env, selection, d, mechanisms[..i]), Pair(d, mechanisms[i]);
    assert mechanisms[..i + 1][..i] == mechanisms[..i];
    if IsSelected(env, EntryFor(env, d, mechanisms[i]), selection) {
      GroupsHaveDistinctKeys(env, so);
      MirrorsGrown(env, m, Groups(env, so), p);
      assert (so + [p])[..|so|] == so;
      assert pairs + PairsOf(env, selection, d, mechanisms[..i + 1]) == so + [p];
    }
  }

  /** `range entries`: the values of the map in an order that the program does not choose. */
  method ReadMap(m: map<string, Entry>, ghost groups: seq<Entry>) returns (entries: seq<Entry>)
    requires Mirrors(m, groups)
    ensures NoRepetition(entries) && forall e :: e in entries <==> e in groups
  {
    entries := [];
    var left := m.Keys;
    while left != {}
      invariant left <= m.Keys
      invariant forall e :: e in entries <==> KeyOf(e) in m && KeyOf(e) !in left && m[KeyOf(e)] == e
      invariant NoRepetition(entries)
      decreases |left|
    {
      var key :| key in left;
      left := left - {key};
      assert KeyOf(m[key]) == key;
      entries := entries + [m[key]];
    }
  }

  method AccumulateAll(env: Env, selection: Selection, ds: seq<Destination>) returns (m: map<string, Entry>)
    ensures Mirrors(m, Groups(env, Pairs(env, selection, ds)))
  {
    m := map[];
    for i := 0 to |ds|
      invariant Mirrors(m, Groups(env, Pairs(env, selection, ds[..i])))
    {
      assert ds[..i + 1][..i] == ds[..i];
      m := Accumulate(env, selection, ds[i], m, Pairs(env, selection, ds[..i]));
    }
    assert ds[..|ds|] == ds;
  }

  /** Reading, sorting and numbering the entries. */
  method Arrange(m: map<string, Entry>, ghost groups: seq<Entry>) returns (entries: seq<Entry>)
    requires Mirrors(m, groups) && DistinctKeys(groups)
    ensures entries == Numbered(SortBy(EntryLe, groups))
  {
    var read := ReadMap(m, groups);
    ReadingOrderIsForgotten(read, groups);
    entries := Numbered(SortBy(EntryLe, read));
  }

  /** `BuildPlan`. */
  method BuildPlan(env: Env, selection: Selection, destinations: Option<seq<Destination>>) returns (plan: Plan)
    ensures plan == PlanOf(env, selection, destinations)
  {
    if destinations.None? {
      return Refused(CaptureMissing);
    }
    if selection.Invalid? {
      return Refused(InvalidSelection);
    }
    if selection.Selected? && selection.selectors == [] {
      return Refused(EmptySelection);
    }
    var m := AccumulateAll(env, selection, destinations.value);
    GroupsHaveDistinctKeys(env, Pairs(env, selection, destinations.value));
    var entries := Arrange(m, Groups(env, Pairs(env, selection, destinations.value)));
    if entries == [] {
      return Refused(EmptyPlan);
    }
    plan := Plan(entries);
  }
}
