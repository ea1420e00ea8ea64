/**
 When the node identifiers of a path graph are distinct.  Only responder nodes get a search for
 an unused identifier, so two layers without responders may share one.
 */
module PathGraphIds {
  import opened Decimal
  import opened FreshNames
  import opened Lists
  import opened Orders
  import opened PathGraphs
  import opened PathGraphFacts

  // ---- identifiers tell kinds and ranges apart ----

  function KindId(gid: string, k: Kind, tail: string): string {
    gid + "/node-" + (KindName(k) + "-" + tail)
  }

  function RangeTail(from: nat, to: nat, token: string): string {
    Dec(from) + "-" + (Dec(to) + "-" + token)
  }

  lemma KindHasNoDash(k: Kind)
    ensures NoDash(KindName(k)) && KindName(k) != ""
  {
  }

  /** The names differ in length or, where they do not, in their first letter. */
  lemma KindLetters(k: Kind)
    ensures |KindName(k)| == match k { case Vantage => 13 case Responding => 9 case UnobservableRange => 18 case UnknownRange => 13 case Destination => 24 }
    ensures KindName(k)[0] ==
              match k { case Vantage => 'p' case Responding => 'r' case UnobservableRange => 'u' case UnknownRange => 'u' case Destination => 'd' }
  {
  }

  lemma KindNames(k: Kind, l: Kind)
    ensures NoDash(KindName(k))
    ensures KindName(k) == KindName(l) ==> k == l
  {
    KindHasNoDash(k);
    KindLetters(k);
    KindLetters(l);
  }

  lemma CutPrefix(p: string, x: string, y: string)
    requires p + x == p + y
    ensures x == y
  {
    assert x == (p + x)[|p|..] && y == (p + y)[|p|..];
  }

  lemma KindsApart(gid: string, k: Kind, x: string, l: Kind, y: string)
    requires KindId(gid, k, x) == KindId(gid, l, y)
    ensures k == l && x == y
  {
    CutPrefix(gid + "/node-", KindName(k) + "-" + x, KindName(l) + "-" + y);
    KindNames(k, l);
    KindNames(l, k);
    FirstDashSplit(KindName(k), x, KindName(l), y);
  }

  lemma RangesApart(a: nat, b: nat, x: string, c: nat, d: nat, y: string)
    requires RangeTail(a, b, x) == RangeTail(c, d, y)
    ensures a == c && b == d
  {
    DecHasNoDash(a);
    DecHasNoDash(c);
    FirstDashSplit(Dec(a), Dec(b) + "-" + x, Dec(c), Dec(d) + "-" + y);
    DecInjective(a, c);
    DecHasNoDash(b);
    DecHasNoDash(d);
    FirstDashSplit(Dec(b), x, Dec(d), y);
    DecInjective(b, d);
  }

  ghost predicate OfKind(gid: string, k: Kind, id: string) {
    exists tail :: id == KindId(gid, k, tail)
  }

  lemma NodeIdOfKind(gid: string, k: Kind, from: nat, to: nat, token: string)
    ensures NodeId(gid, k, from, to, token) == KindId(gid, k, RangeTail(from, to, token))
    ensures OfKind(gid, k, NodeId(gid, k, from, to, token))
  {
  }

  /** A suffix joins the tail of the identifier. */
  lemma SuffixedOfKind(gid: string, k: Kind, tail: string, n: nat)
    ensures OfKind(gid, k, Suffixed(KindId(gid, k, tail), n))
  {
    assert Suffixed(KindId(gid, k, tail), n) == KindId(gid, k, tail + "-" + Dec(n));
  }

  /** A fresh name keeps the kind of its base. */
  lemma FreshOfKind(gid: string, k: Kind, tail: string, taken: set<string>)
    ensures OfKind(gid, k, FreshName(KindId(gid, k, tail), taken))
  {
    var base := KindId(gid, k, tail);
    if base in taken {
      assert Tried(base, 2) == {};
      var n := FreshFromIsLeast(base, taken, 2);
      SuffixedOfKind(gid, k, tail, n);
    }
  }

  // ---- one layer at a time ----

  ghost predicate Named(gid: string, token: string -> string, layer: Layer) {
    && (forall id :: id in layer.nodeIds ==> OfKind(gid, layer.kind, id))
    && (IsRange(layer.kind) ==> layer.nodeIds == [NodeId(gid, layer.kind, layer.from, layer.to, token(""))])
  }

  /** Two layers without responders that get the same identifier. */
  ghost predicate Clash(a: Layer, b: Layer) {
    IsRange(a.kind) && a.kind == b.kind && a.from == b.from && a.to == b.to
  }

  ghost predicate NoClash(layers: seq<Layer>) {
    forall j, k :: 0 <= j < k < |layers| ==> !Clash(layers[j], layers[k])
  }

  ghost predicate AllNamed(gid: string, token: string -> string, layers: seq<Layer>) {
    forall k :: 0 <= k < |layers| ==> Named(gid, token, layers[k])
  }

  ghost predicate Consistent(gid: string, token: string -> string, g: Graph) {
    && AllNamed(gid, token, g.layers)
    && (forall k :: 0 <= k < |g.layers| ==> !g.layers[k].kind.Destination?)
    && Ids(g.nodes) == Flatten(g.layers)
    && (NoRepetition(Ids(g.nodes)) <==> NoClash(g.layers))
  }

  lemma IdsAppend(nodes: seq<Node>, node: Node)
    ensures Ids(nodes + [node]) == Ids(nodes) + [node.id]
  {
  }

  lemma OneMore(s: seq<string>, x: string)
    ensures NoRepetition(s + [x]) <==> NoRepetition(s) && x !in s
  {
    NoRepetitionAppend(s, [x]);
    assert NoRepetition([x]);
    assert x in [x];
  }

  /** One responder: its identifier is of the kind, and brings in no duplicate. */
  lemma ResponderIsFresh(gid: string, token: string -> string, o: Observation, ttl: nat, r: Responder, nodes: seq<Node>)
    ensures var id := FreshName(NodeId(gid, Responding, ttl, ttl, token(r.address)), Range(Ids(nodes)));
            && OfKind(gid, Responding, id)
            && (NoRepetition(Ids(nodes + [ResponderNode(o, id, ttl, r)])) <==> NoRepetition(Ids(nodes)))
  {
    var id := FreshName(NodeId(gid, Responding, ttl, ttl, token(r.address)), Range(Ids(nodes)));
    NodeIdOfKind(gid, Responding, ttl, ttl, token(r.address));
    FreshOfKind(gid, Responding, RangeTail(ttl, ttl, token(r.address)), Range(Ids(nodes)));
    IdsAppend(nodes, ResponderNode(o, id, ttl, r));
    OneMore(Ids(nodes), id);
    assert id !in Ids(nodes);
  }

  ghost predicate AllOfKind(gid: string, k: Kind, nodes: seq<Node>, from: nat) {
    forall j :: from <= j < |nodes| ==> OfKind(gid, k, nodes[j].id)
  }

  /** The responders of a hop bring in no duplicate. */
  lemma {:induction false} RespondersAreFresh(gid: string, token: string -> string, o: Observation, ttl: nat,
                                              rs: seq<Responder>, nodes: seq<Node>)
    ensures var all := WithResponders(gid, token, o, ttl, rs, nodes);
            (NoRepetition(Ids(all)) <==> NoRepetition(Ids(nodes))) && AllOfKind(gid, Responding, all, |nodes|)
    decreases |rs|
  {
    if rs != [] {
      var id := FreshName(NodeId(gid, Responding, ttl, ttl, token(rs[0].address)), Range(Ids(nodes)));
      var more := nodes + [ResponderNode(o, id, ttl, rs[0])];
      ResponderIsFresh(gid, token, o, ttl, rs[0], nodes);
      RespondersAreFresh(gid, token, o, ttl, rs[1..], more);
      WithRespondersGrows(gid, token, o, ttl, rs[1..], more);
      FirstOfKind(gid, Responding, WithResponders(gid, token, o, ttl, rs[1..], more), more);
    }
  }

  lemma FirstOfKind(gid: string, k: Kind, all: seq<Node>, more: seq<Node>)
    requires |all| >= |more| > 0 && all[..|more|] == more
    requires OfKind(gid, k, more[|more| - 1].id) && AllOfKind(gid, k, all, |more|)
    ensures AllOfKind(gid, k, all, |more| - 1)
  {
    assert all[|more| - 1] == all[..|more|][|more| - 1];
  }

  lemma NoClashAppend(layers: seq<Layer>, layer: Layer)
    ensures NoClash(layers + [layer]) <==> NoClash(layers) && forall k :: 0 <= k < |layers| ==> !Clash(layers[k], layer)
  {
    var s := layers + [layer];
    assert forall k :: 0 <= k < |layers| ==> s[k] == layers[k];
    assert s[|layers|] == layer;
    if NoClash(s) {
      forall j, k | 0 <= j < k < |layers| ensures !Clash(layers[j], layers[k]) {
        assert !Clash(s[j], s[k]);
      }
      forall k | 0 <= k < |layers| ensures !Clash(layers[k], layer) {
        assert !Clash(s[k], s[|layers|]);
      }
    }
  }

  /** An identifier without search is taken exactly when an earlier layer has the same kind and range. */
  lemma TakenIff(gid: string, token: string -> string, layers: seq<Layer>, layer: Layer)
    requires AllNamed(gid, token, layers)
    requires IsRange(layer.kind) || layer.kind.Destination?
    requires forall k :: 0 <= k < |layers| ==> !layers[k].kind.Destination?
    requires layer.nodeIds == [NodeId(gid, layer.kind, layer.from, layer.to, token(""))]
             || (layer.kind.Destination? && |layer.nodeIds| == 1 && OfKind(gid, Destination, layer.nodeIds[0]))
    ensures layer.nodeIds[0] in Flatten(layers) <==> exists k :: 0 <= k < |layers| && Clash(layers[k], layer)
  {
    var id := layer.nodeIds[0];
    if id in Flatten(layers) {
      var k := FromFlatten(layers, id);
      assert Named(gid, token, layers[k]);
      NodeIdOfKind(gid, layer.kind, layer.from, layer.to, token(""));
      SameKind(gid, layers[k].kind, layer.kind, id);
      SameRange(gid, token, layers[k], layer);
      assert Clash(layers[k], layer);
    }
    if k :| 0 <= k < |layers| && Clash(layers[k], layer) {
      assert Named(gid, token, layers[k]);
      InFlatten(layers, k, id);
    }
  }

  lemma SameKind(gid: string, k: Kind, l: Kind, id: string)
    requires OfKind(gid, k, id) && OfKind(gid, l, id)
    ensures k == l
  {
    var x :| id == KindId(gid, k, x);
    var y :| id == KindId(gid, l, y);
    KindsApart(gid, k, x, l, y);
  }

  lemma SameRange(gid: string, token: string -> string, a: Layer, b: Layer)
    requires a.kind == b.kind && IsRange(a.kind) && Named(gid, token, a) && |b.nodeIds| == 1 && b.nodeIds[0] in a.nodeIds
    requires b.nodeIds == [NodeId(gid, b.kind, b.from, b.to, token(""))]
    ensures a.from == b.from && a.to == b.to
  {
    var x, y := RangeTail(a.from, a.to, token("")), RangeTail(b.from, b.to, token(""));
    NodeIdOfKind(gid, a.kind, a.from, a.to, token(""));
    NodeIdOfKind(gid, b.kind, b.from, b.to, token(""));
    KindsApart(gid, a.kind, x, b.kind, y);
    RangesApart(a.from, a.to, token(""), b.from, b.to, token(""));
  }

  /** A layer of one node that got no search. */
  lemma SingleLayerKeeps(gid: string, token: string -> string, g: Graph, node: Node, layer: Layer)
    requires Consistent(gid, token, g) && IsRange(layer.kind)
    requires layer.nodeIds == [node.id] == [NodeId(gid, layer.kind, layer.from, layer.to, token(""))]
    ensures Consistent(gid, token, Graph(g.nodes + [node], g.layers + [layer]))
  {
    NodeIdOfKind(gid, layer.kind, layer.from, layer.to, token(""));
    TakenIff(gid, token, g.layers, layer);
    NoClashAppend(g.layers, layer);
    IdsAppend(g.nodes, node);
    OneMore(Ids(g.nodes), node.id);
    FlattenAppend(g.layers, layer);
  }

  lemma ResponderLayerKeeps(gid: string, token: string -> string, o: Observation, h: seq<Hop>, i: nat, g: Graph)
    requires Consistent(gid, token, g) && i < |h| && KindOf(h[i]).Responding?
    ensures Consistent(gid, token, WithRun(gid, token, o, h, i, g))
  {
    var rs := SortBy(ResponderLe, h[i].responders);
    var r := WithRun(gid, token, o, h, i, g);
    var layer := r.layers[|g.layers|];
    WithRespondersGrows(gid, token, o, h[i].ttl, rs, g.nodes);
    RespondersAreFresh(gid, token, o, h[i].ttl, rs, g.nodes);
    RunIsFlat(gid, token, o, h, i, g);
    NoClashAppend(g.layers, layer);
    LayerOfResponders(gid, token, r.nodes, |g.nodes|, layer);
    OneMoreNamed(gid, token, g.layers, layer);
    assert r.layers == g.layers + [layer];
  }

  lemma OneMoreNamed(gid: string, token: string -> string, layers: seq<Layer>, layer: Layer)
    requires AllNamed(gid, token, layers) && Named(gid, token, layer)
    ensures AllNamed(gid, token, layers + [layer])
  {
  }

  lemma LayerOfResponders(gid: string, token: string -> string, nodes: seq<Node>, from: nat, layer: Layer)
    requires from <= |nodes| && AllOfKind(gid, Responding, nodes, from)
    requires layer.kind.Responding? && layer.nodeIds == Ids(nodes[from..])
    ensures Named(gid, token, layer)
  {
    forall id | id in layer.nodeIds ensures OfKind(gid, Responding, id) {
      var k :| 0 <= k < |layer.nodeIds| && layer.nodeIds[k] == id;
      assert id == nodes[from + k].id;
    }
  }

  lemma RunKeepsConsistent(gid: string, token: string -> string, o: Observation, h: seq<Hop>, i: nat, g: Graph)
    requires Consistent(gid, token, g) && i < |h|
    ensures Consistent(gid, token, WithRun(gid, token, o, h, i, g))
  {
    if KindOf(h[i]).Responding? {
      ResponderLayerKeeps(gid, token, o, h, i, g);
    } else {
      var from, to := h[i].ttl, h[RunEnd(h, i) - 1].ttl;
      var node := RangeNode(gid, token, KindOf(h[i]), from, to);
      SingleLayerKeeps(gid, token, g, node, Layer(node.kind, from, to, [node.id]));
    }
  }

  lemma {:induction false} RunsKeepConsistent(gid: string, token: string -> string, o: Observation, h: seq<Hop>, i: nat, g: Graph)
    requires Consistent(gid, token, g) && i <= |h|
    ensures Consistent(gid, token, WithRuns(gid, token, o, h, i, g))
    decreases |h| - i
  {
    if i < |h| {
      RunKeepsConsistent(gid, token, o, h, i, g);
      RunsKeepConsistent(gid, token, o, h, RunEnd(h, i), WithRun(gid, token, o, h, i, g));
    }
  }

  lemma StartIsConsistent(gid: string, token: string -> string)
    ensures Consistent(gid, token, Start(gid, token))
  {
    var start := Start(gid, token);
    FlattenAppend([], start.layers[0]);
    assert [] + start.layers == start.layers;
    NodeIdOfKind(gid, Vantage, 0, 0, token(""));
    assert Ids(start.nodes) == [start.nodes[0].id];
  }

  lemma DestinationKeeps(gid: string, token: string -> string, o: Observation, g: Graph)
    requires Consistent(gid, token, g)
    ensures var r := WithDestination(gid, token, o, g);
            (NoRepetition(Ids(r.nodes)) <==> NoClash(r.layers)) && (NoClash(r.layers) <==> NoClash(g.layers))
  {
    var r := WithDestination(gid, token, o, g);
    var node, layer := r.nodes[|g.nodes|], r.layers[|g.layers|];
    NodeIdOfKind(gid, Destination, 0, 0, token(o.destination));
    TakenIff(gid, token, g.layers, layer);
    IdsAppend(g.nodes, node);
    OneMore(Ids(g.nodes), node.id);
    NoClashAppend(g.layers, layer);
  }

  lemma DistinctIffNoClash(gid: string, token: string -> string, o: Observation)
    ensures NoRepetition(Ids(GraphOf(gid, token, o).nodes)) <==> NoClash(GraphOf(gid, token, o).layers)
  {
    var h := SortBy(HopLe, o.hops);
    StartIsConsistent(gid, token);
    RunsKeepConsistent(gid, token, o, h, 0, Start(gid, token));
    DestinationKeeps(gid, token, o, WithRuns(gid, token, o, h, 0, Start(gid, token)));
  }

  // ---- in terms of the hops ----

  /** The hop is a layer of its own. */
  ghost predicate Alone(h: seq<Hop>, i: nat) {
    && i < |h|
    && (i == 0 || !Joined(h, i - 1))
    && (i + 1 == |h| || !Joined(h, i))
  }

  /** Two hops without responders, of one kind and TTL, each a layer of its own. */
  ghost predicate Twins(h: seq<Hop>, i: nat, j: nat) {
    && i < j < |h|
    && IsRange(KindOf(h[i])) && KindOf(h[i]) == KindOf(h[j]) && h[i].ttl == h[j].ttl
    && Alone(h, i) && Alone(h, j)
  }

  ghost predicate HasTwins(h: seq<Hop>) {
    exists i: nat, j: nat :: Twins(h, i, j)
  }

  lemma ClashIsTwins(gid: string, token: string -> string, h: seq<Hop>, cuts: seq<Cut>, a: Layer, b: Layer, j: nat, k: nat)
    requires SortedBy(HopLe, h) && Partition(h, 0, cuts) && j < k < |cuts|
    requires Fits(gid, token, h, cuts[j], a) && Fits(gid, token, h, cuts[k], b)
    requires Clash(a, b)
    ensures HasTwins(h)
  {
    FittingIsConsecutive(gid, token, h, cuts, j, a, cuts[j].first);
    FittingIsConsecutive(gid, token, h, cuts, k, b, cuts[k].first);
    CutsAscend(h, cuts, j, k);
    assert HopLe(h[cuts[j].end - 1], h[cuts[k].first]);
    assert cuts[j].end == cuts[j].first + 1 && cuts[k].end == cuts[k].first + 1;
    ShortCutIsAlone(h, cuts, j);
    ShortCutIsAlone(h, cuts, k);
    assert Twins(h, cuts[j].first, cuts[k].first);
  }

  lemma ShortCutIsAlone(h: seq<Hop>, cuts: seq<Cut>, k: nat)
    requires Partition(h, 0, cuts) && k < |cuts| && cuts[k].end == cuts[k].first + 1
    ensures Alone(h, cuts[k].first)
  {
    assert k > 0 ==> cuts[k - 1].end == cuts[k].first && !Joined(h, cuts[k - 1].end - 1);
  }

  lemma JoinedInside(h: seq<Hop>, cuts: seq<Cut>, k: nat, m: int)
    requires Partition(h, 0, cuts) && k < |cuts| && cuts[k].first <= m < cuts[k].end - 1
    ensures Joined(h, m)
  {
  }

  lemma AloneIsCut(h: seq<Hop>, cuts: seq<Cut>, i: nat, k: nat)
    requires Alone(h, i) && Partition(h, 0, cuts) && k < |cuts| && cuts[k].first <= i < cuts[k].end
    ensures cuts[k] == Cut(i, i + 1)
  {
    if cuts[k].first < i {
      JoinedInside(h, cuts, k, i - 1);
    } else if i < cuts[k].end - 1 {
      JoinedInside(h, cuts, k, i);
    }
  }

  lemma TwinCuts(h: seq<Hop>, i: nat, j: nat) returns (k: nat, l: nat)
    requires Twins(h, i, j)
    ensures k < l < |Cuts(h, 0)| && Cuts(h, 0)[k] == Cut(i, i + 1) && Cuts(h, 0)[l] == Cut(j, j + 1)
  {
    CutsPartition(h, 0);
    k := CutAt(h, 0, i);
    l := CutAt(h, 0, j);
    AloneIsCut(h, Cuts(h, 0), i, k);
    AloneIsCut(h, Cuts(h, 0), j, l);
    if l < k {
      CutsAscend(h, Cuts(h, 0), l, k);
    }
  }

  lemma TwinsClash(gid: string, token: string -> string, h: seq<Hop>, a: Layer, b: Layer, i: nat, j: nat)
    requires Twins(h, i, j) && Fits(gid, token, h, Cut(i, i + 1), a) && Fits(gid, token, h, Cut(j, j + 1), b)
    ensures Clash(a, b)
  {
  }

  lemma ClashOfTwins(gid: string, token: string -> string, h: seq<Hop>, layers: seq<Layer>, i: nat, j: nat)
    requires Staged(gid, token, h, Cuts(h, 0), layers) && Twins(h, i, j)
    ensures !NoClash(layers)
  {
    var k, l := TwinCuts(h, i, j);
    TwinsClash(gid, token, h, layers[k + 1], layers[l + 1], i, j);
    assert Clash(layers[k + 1], layers[l + 1]);
  }

  lemma ClashingPair(gid: string, token: string -> string, h: seq<Hop>, cuts: seq<Cut>, layers: seq<Layer>) returns (j: nat, k: nat)
    requires Staged(gid, token, h, cuts, layers) && !NoClash(layers)
    ensures j < k < |cuts| && Clash(layers[j + 1], layers[k + 1])
  {
    var m, n :| 0 <= m < n < |layers| && Clash(layers[m], layers[n]);
    assert m > 0 && n < |cuts| + 1;
    j, k := m - 1, n - 1;
  }

  lemma TwinsOfClash(gid: string, token: string -> string, h: seq<Hop>, cuts: seq<Cut>, layers: seq<Layer>)
    requires SortedBy(HopLe, h) && Partition(h, 0, cuts)
    requires Staged(gid, token, h, cuts, layers) && !NoClash(layers)
    ensures HasTwins(h)
  {
    var j, k := ClashingPair(gid, token, h, cuts, layers);
    ClashIsTwins(gid, token, h, cuts, layers[j + 1], layers[k + 1], j, k);
  }

  /**
   The exact condition: node identifiers are pairwise distinct unless two hops without responders,
   of the same kind and with the same TTL, are layers of their own.
   */
  lemma NodeIdsDistinctIff(gid: string, token: string -> string, o: Observation)
    ensures NoRepetition(Ids(GraphOf(gid, token, o).nodes)) <==> !HasTwins(SortBy(HopLe, o.hops))
  {
    DistinctIffNoClash(gid, token, o);
    LayersPartitionHops(gid, token, o);
    var h, layers := SortBy(HopLe, o.hops), GraphOf(gid, token, o).layers;
    if HasTwins(h) {
      var i: nat, j: nat :| Twins(h, i, j);
      ClashOfTwins(gid, token, h, layers, i, j);
    } else if !NoClash(layers) {
      TwinsOfClash(gid, token, h, Cuts(h, 0), layers);
    }
  }

  /** A walk that comes back to where it started. */
  ghost predicate Cyclic(edges: seq<Edge>) {
    exists w :: Walk(edges, w) && |w| > 1 && w[0] == w[|w| - 1]
  }

  lemma WalkBetween(edges: seq<Edge>, w: seq<string>, j: nat, k: nat)
    requires Walk(edges, w) && j <= k < |w|
    ensures Walk(edges, w[j..k + 1])
  {
    var part := w[j..k + 1];
    forall m | 0 < m < |part| ensures Edge(part[m - 1], part[m]) in edges {
      assert part[m - 1] == w[j + m - 1] && part[m] == w[j + m];
      assert Edge(w[j + m - 1], w[j + m]) in edges;
    }
  }

  /** A node in two layers is on a cycle. */
  lemma SharedIsCyclic(layers: seq<Layer>, j: nat, k: nat, id: string) returns (w: seq<string>)
    requires NonEmptyLayers(layers) && j < k < |layers| && layers[j].nodeIds == layers[k].nodeIds == [id]
    ensures Walk(Edges(layers), w) && |w| > 1 && w[0] == w[|w| - 1]
  {
    var whole := LayerChoiceIsWalk(layers, j, id);
    ChoicesAgree(layers, whole, k, id);
    WalkBetween(Edges(layers), whole, j, k);
    w := whole[j..k + 1];
  }

  lemma ChoicesAgree(layers: seq<Layer>, w: seq<string>, k: nat, id: string)
    requires |w| == |layers| && k < |layers| && layers[k].nodeIds == [id]
    requires forall m :: 0 <= m < |w| ==> w[m] in layers[m].nodeIds
    ensures w[k] == id
  {
  }

  lemma TwinLayers(gid: string, token: string -> string, h: seq<Hop>, layers: seq<Layer>, i: nat, j: nat) returns (k: nat, l: nat, id: string)
    requires Staged(gid, token, h, Cuts(h, 0), layers) && Twins(h, i, j)
    ensures k < l < |layers| && layers[k].nodeIds == layers[l].nodeIds == [id]
  {
    k, l := TwinCuts(h, i, j);
    var a, b := layers[k + 1], layers[l + 1];
    assert Fits(gid, token, h, Cut(i, i + 1), a) && Fits(gid, token, h, Cut(j, j + 1), b);
    TwinsClash(gid, token, h, a, b, i, j);
    k, l, id := k + 1, l + 1, a.nodeIds[0];
  }

  /** The graph has a cycle exactly when two such hops share an identifier. */
  lemma CyclicIff(gid: string, token: string -> string, o: Observation)
    ensures Cyclic(Edges(GraphOf(gid, token, o).layers)) <==> HasTwins(SortBy(HopLe, o.hops))
  {
    var h, layers := SortBy(HopLe, o.hops), GraphOf(gid, token, o).layers;
    NodeIdsDistinctIff(gid, token, o);
    if HasTwins(h) {
      LayersPartitionHops(gid, token, o);
      LayersAreNonEmpty(gid, token, o);
      var i: nat, j: nat :| Twins(h, i, j);
      var k, l, id := TwinLayers(gid, token, h, layers, i, j);
      var w := SharedIsCyclic(layers, k, l, id);
    } else if Cyclic(Edges(layers)) {
      var w :| Walk(Edges(layers), w) && |w| > 1 && w[0] == w[|w| - 1];
      NoCycle(gid, token, o, w);
    }
  }

  /** In particular distinct TTLs among the hops without responders are enough, in any order of arrival. */
  lemma DistinctTtlsSuffice(gid: string, token: string -> string, o: Observation)
    requires forall i, j :: 0 <= i < j < |SortBy(HopLe, o.hops)| && SortBy(HopLe, o.hops)[i].responders == [] && SortBy(HopLe, o.hops)[j].responders == []
               ==> SortBy(HopLe, o.hops)[i].ttl != SortBy(HopLe, o.hops)[j].ttl
    ensures NoRepetition(Ids(GraphOf(gid, token, o).nodes))
  {
    NodeIdsDistinctIff(gid, token, o);
  }

  /** Without that, identifiers do collide. */
  lemma RepeatedTtlCollides(gid: string, token: string -> string)
    ensures var hop := Hop(3, Unobservable, []);
            !NoRepetition(Ids(GraphOf(gid, token, Observation("192.0.2.1", false, false, [hop, hop])).nodes))
  {
    var hop := Hop(3, Unobservable, []);
    var hops := [hop, hop];
    assert SortBy(HopLe, hops[1..]) == [hop] by {
      assert hops[1..] == [hop];
      assert SortBy(HopLe, [hop][1..]) == [];
    }
    assert SortBy(HopLe, hops) == hops;
    assert Twins(hops, 0, 1);
    NodeIdsDistinctIff(gid, token, Observation("192.0.2.1", false, false, hops));
  }

  // ---- the order of arrival ----

  ghost predicate SameHops(a: seq<Hop>, b: seq<Hop>) {
    && |a| == |b|
    && forall i :: 0 <= i < |a| ==> a[i].ttl == b[i].ttl && a[i].state == b[i].state && multiset(a[i].responders) == multiset(b[i].responders)
  }

  lemma SameKinds(a: Hop, b: Hop)
    requires a.state == b.state && multiset(a.responders) == multiset(b.responders)
    ensures KindOf(a) == KindOf(b)
    ensures SortBy(ResponderLe, a.responders) == SortBy(ResponderLe, b.responders)
  {
    SameElements(a.responders, b.responders);
    ResponderLeIsOrder();
    SortForgetsArrival(ResponderLe, a.responders, b.responders);
  }

  lemma {:induction false} SameRunEnds(a: seq<Hop>, b: seq<Hop>, i: nat)
    requires SameHops(a, b) && i < |a|
    ensures RunEnd(a, i) == RunEnd(b, i)
    decreases |a| - i
  {
    SameKinds(a[i], b[i]);
    if i + 1 < |a| {
      SameKinds(a[i + 1], b[i + 1]);
      SameRunEnds(a, b, i + 1);
    }
  }

  lemma SameRun(gid: string, token: string -> string, o: Observation, p: Observation, a: seq<Hop>, b: seq<Hop>, i: nat, g: Graph)
    requires SameHops(a, b) && i < |a| && p == o.(hops := p.hops)
    ensures WithRun(gid, token, o, a, i, g) == WithRun(gid, token, p, b, i, g)
  {
    SameRunEnds(a, b, i);
    SameKinds(a[i], b[i]);
    SameResponders(gid, token, o, p, a[i].ttl, SortBy(ResponderLe, a[i].responders), g.nodes);
  }

  lemma {:induction false} SameRuns(gid: string, token: string -> string, o: Observation, p: Observation, a: seq<Hop>, b: seq<Hop>, i: nat, g: Graph)
    requires SameHops(a, b) && i <= |a| && p == o.(hops := p.hops)
    ensures WithRuns(gid, token, o, a, i, g) == WithRuns(gid, token, p, b, i, g)
    decreases |a| - i
  {
    if i < |a| {
      SameRunEnds(a, b, i);
      SameRun(gid, token, o, p, a, b, i, g);
      SameRuns(gid, token, o, p, a, b, RunEnd(a, i), WithRun(gid, token, o, a, i, g));
    }
  }

  lemma {:induction false} SameResponders(gid: string, token: string -> string, o: Observation, p: Observation, ttl: nat, rs: seq<Responder>, nodes: seq<Node>)
    requires p == o.(hops := p.hops)
    ensures WithResponders(gid, token, o, ttl, rs, nodes) == WithResponders(gid, token, p, ttl, rs, nodes)
    decreases |rs|
  {
    if rs != [] {
      var id := FreshName(NodeId(gid, Responding, ttl, ttl, token(rs[0].address)), Range(Ids(nodes)));
      SameResponders(gid, token, o, p, ttl, rs[1..], nodes + [ResponderNode(o, id, ttl, rs[0])]);
    }
  }

  /** The graph does not depend on the order in which responders were reported. */
  lemma ArrivalOfRespondersIsForgotten(gid: string, token: string -> string, o: Observation, p: Observation)
    requires p == o.(hops := p.hops) && SameHops(SortBy(HopLe, o.hops), SortBy(HopLe, p.hops))
    ensures GraphOf(gid, token, o) == GraphOf(gid, token, p)
  {
    SameRuns(gid, token, o, p, SortBy(HopLe, o.hops), SortBy(HopLe, p.hops), 0, Start(gid, token));
  }

  /** Nor on the order of the hops, when each TTL is reported once. */
  lemma ArrivalOfHopsIsForgotten(gid: string, token: string -> string, o: Observation, p: Observation)
    requires p == o.(hops := p.hops) && multiset(o.hops) == multiset(p.hops) && Separates(HopLe, o.hops)
    ensures GraphOf(gid, token, o) == GraphOf(gid, token, p)
  {
    HopLeIsOrder();
    SortForgetsArrival(HopLe, o.hops, p.hops);
    ArrivalOfRespondersIsForgotten(gid, token, o, p);
  }
}
