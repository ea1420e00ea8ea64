/**
 What the path graph is: its layers partition the hops into maximal runs, its nodes are counted,
 its edges are exactly those between consecutive layers, and when its identifiers are distinct.
 */
module PathGraphFacts {
  import opened Lists
  import opened Orders
  import opened PathGraphs

  // ---- layers partition the hops ----

  /** Consecutive non-empty stretches from i to the end ... */
  ghost predicate Tiling(h: seq<Hop>, i: nat, cuts: seq<Cut>) {
    && (if i >= |h| then cuts == [] else cuts != [] && cuts[0].first == i && cuts[|cuts| - 1].end == |h|)
    && (forall k :: 0 <= k < |cuts| ==> i <= cuts[k].first < cuts[k].end <= |h|)
    && (forall k :: 0 < k < |cuts| ==> cuts[k - 1].end == cuts[k].first)
  }

  /** ... joined inside ... */
  ghost predicate JoinedWithin(h: seq<Hop>, cut: Cut) {
    cut.end <= |h| && forall m :: cut.first <= m < cut.end - 1 ==> Joined(h, m)
  }

  ghost predicate Seam(h: seq<Hop>, cut: Cut) {
    0 < cut.end < |h| ==> !Joined(h, cut.end - 1)
  }

  /** ... and not joined at the seams. */
  ghost predicate Partition(h: seq<Hop>, i: nat, cuts: seq<Cut>) {
    && Tiling(h, i, cuts)
    && (forall k :: 0 <= k < |cuts| ==> JoinedWithin(h, cuts[k]))
    && (forall k :: 0 <= k < |cuts| ==> Seam(h, cuts[k]))
  }

  lemma {:induction false} CutsPartition(h: seq<Hop>, i: nat)
    requires i <= |h|
    ensures Partition(h, i, Cuts(h, i))
    decreases |h| - i
  {
    if i < |h| {
      var e := RunEnd(h, i);
      CutsPartition(h, e);
      PartitionExtends(h, i, e, Cuts(h, e));
    }
  }

  lemma PartitionExtends(h: seq<Hop>, i: nat, e: nat, rest: seq<Cut>)
    requires i < |h| && e == RunEnd(h, i) && Partition(h, e, rest)
    ensures Partition(h, i, [Cut(i, e)] + rest)
  {
    TilingExtends(h, i, e, rest);
    JoinedExtends(h, Cut(i, e), rest);
    SeamsExtend(h, Cut(i, e), rest);
  }

  lemma JoinedExtends(h: seq<Hop>, cut: Cut, rest: seq<Cut>)
    requires JoinedWithin(h, cut) && forall k :: 0 <= k < |rest| ==> JoinedWithin(h, rest[k])
    ensures var cuts := [cut] + rest; forall k :: 0 <= k < |cuts| ==> JoinedWithin(h, cuts[k])
  {
  }

  lemma SeamsExtend(h: seq<Hop>, cut: Cut, rest: seq<Cut>)
    requires Seam(h, cut) && forall k :: 0 <= k < |rest| ==> Seam(h, rest[k])
    ensures var cuts := [cut] + rest; forall k :: 0 <= k < |cuts| ==> Seam(h, cuts[k])
  {
  }

  lemma TilingExtends(h: seq<Hop>, i: nat, e: nat, rest: seq<Cut>)
    requires i < e <= |h| && Tiling(h, e, rest)
    ensures Tiling(h, i, [Cut(i, e)] + rest)
  {
    var cuts := [Cut(i, e)] + rest;
    assert forall k :: 0 < k < |cuts| ==> cuts[k] == rest[k - 1];
  }

  lemma {:induction false} CutAt(h: seq<Hop>, i: nat, m: nat) returns (k: nat)
    requires i <= m < |h|
    ensures k < |Cuts(h, i)| && Cuts(h, i)[k].first <= m < Cuts(h, i)[k].end
    decreases |h| - i
  {
    if m < RunEnd(h, i) {
      k := 0;
    } else {
      k := CutAt(h, RunEnd(h, i), m);
      k := k + 1;
    }
  }

  lemma {:induction false} CutsAscend(h: seq<Hop>, cuts: seq<Cut>, j: nat, k: nat)
    requires Partition(h, 0, cuts) && j < k < |cuts|
    ensures cuts[j].end <= cuts[k].first
    decreases k
  {
    if j < k - 1 {
      CutsAscend(h, cuts, j, k - 1);
    }
  }

  /** Inside a stretch the TTLs are consecutive and the kind is the same. */
  lemma {:induction false} StretchIsUniform(h: seq<Hop>, first: nat, last: nat)
    requires first <= last < |h| && forall m :: first <= m < last ==> Joined(h, m)
    ensures h[last].ttl == h[first].ttl + (last - first) && KindOf(h[last]) == KindOf(h[first])
    decreases last
  {
    if first < last {
      StretchIsUniform(h, first, last - 1);
      assert Joined(h, last - 1);
    }
  }

  ghost predicate Fits(gid: string, token: string -> string, h: seq<Hop>, cut: Cut, layer: Layer) {
    && cut.first < cut.end <= |h|
    && layer.kind == KindOf(h[cut.first]) && layer.from == h[cut.first].ttl && layer.to == h[cut.end - 1].ttl
    && (layer.kind.Responding? ==> cut.end == cut.first + 1 && |layer.nodeIds| == |h[cut.first].responders|)
    && (IsRange(layer.kind) ==> layer.nodeIds == [NodeId(gid, layer.kind, layer.from, layer.to, token(""))])
  }

  lemma RespondersFit(gid: string, token: string -> string, o: Observation, h: seq<Hop>, i: nat, g: Graph)
    requires i < |h| && KindOf(h[i]).Responding?
    ensures var r := WithRun(gid, token, o, h, i, g);
            |r.layers| == |g.layers| + 1 && g.layers <= r.layers
            && Fits(gid, token, h, Cut(i, i + 1), r.layers[|g.layers|])
  {
    WithRespondersGrows(gid, token, o, h[i].ttl, SortBy(ResponderLe, h[i].responders), g.nodes);
  }

  lemma RangeFits(gid: string, token: string -> string, o: Observation, h: seq<Hop>, i: nat, g: Graph)
    requires i < |h| && !KindOf(h[i]).Responding?
    ensures var r := WithRun(gid, token, o, h, i, g);
            |r.layers| == |g.layers| + 1 && g.layers <= r.layers
            && Fits(gid, token, h, Cut(i, RunEnd(h, i)), r.layers[|g.layers|])
  {
  }

  lemma RunFits(gid: string, token: string -> string, o: Observation, h: seq<Hop>, i: nat, g: Graph)
    requires i < |h|
    ensures var r := WithRun(gid, token, o, h, i, g);
            |r.layers| == |g.layers| + 1 && g.layers <= r.layers
            && Fits(gid, token, h, Cut(i, RunEnd(h, i)), r.layers[|g.layers|])
  {
    if KindOf(h[i]).Responding? {
      RespondersFit(gid, token, o, h, i, g);
      assert RunEnd(h, i) == i + 1;
    } else {
      RangeFits(gid, token, o, h, i, g);
    }
  }

  ghost predicate AllFit(gid: string, token: string -> string, h: seq<Hop>, cuts: seq<Cut>, layers: seq<Layer>, k: nat) {
    && |layers| == k + |cuts|
    && forall j :: 0 <= j < |cuts| ==> Fits(gid, token, h, cuts[j], layers[k + j])
  }

  lemma AllFitExtends(gid: string, token: string -> string, h: seq<Hop>, cut: Cut, cuts: seq<Cut>, layers: seq<Layer>, k: nat)
    requires AllFit(gid, token, h, cuts, layers, k + 1) && Fits(gid, token, h, cut, layers[k])
    ensures AllFit(gid, token, h, [cut] + cuts, layers, k)
  {
    forall j | 0 <= j < |cuts| + 1 ensures Fits(gid, token, h, ([cut] + cuts)[j], layers[k + j]) {
      if j > 0 {
        assert Fits(gid, token, h, cuts[j - 1], layers[k + 1 + (j - 1)]);
      }
    }
  }

  /** From hop i on, the layers added are those of the cuts, in order. */
  lemma {:induction false} LayersFollowCuts(gid: string, token: string -> string, o: Observation, h: seq<Hop>, i: nat, g: Graph)
    requires i <= |h|
    ensures var r := WithRuns(gid, token, o, h, i, g);
            g.layers <= r.layers && AllFit(gid, token, h, Cuts(h, i), r.layers, |g.layers|)
    decreases |h| - i
  {
    if i < |h| {
      var f, e := WithRun(gid, token, o, h, i, g), RunEnd(h, i);
      RunFits(gid, token, o, h, i, g);
      LayersFollowCuts(gid, token, o, h, e, f);
      AllFitExtends(gid, token, h, Cut(i, e), Cuts(h, e), WithRuns(gid, token, o, h, i, g).layers, |g.layers|);
    }
  }

  /** The vantage, one layer per cut, the destination. */
  ghost predicate Staged(gid: string, token: string -> string, h: seq<Hop>, cuts: seq<Cut>, layers: seq<Layer>) {
    && |layers| == |cuts| + 2
    && layers[0].kind.Vantage? && |layers[0].nodeIds| == 1
    && layers[|cuts| + 1].kind.Destination? && |layers[|cuts| + 1].nodeIds| == 1
    && forall k :: 0 <= k < |cuts| ==> Fits(gid, token, h, cuts[k], layers[k + 1])
  }

  /**
   The layers of the graph are the vantage, then one per maximal stretch of the hops in TTL
   order, then the destination.
   */
  lemma LayersPartitionHops(gid: string, token: string -> string, o: Observation)
    ensures var h, layers := SortBy(HopLe, o.hops), GraphOf(gid, token, o).layers;
            var cuts := Cuts(h, 0);
            && multiset(h) == multiset(o.hops) && SortedBy(HopLe, h)
            && Partition(h, 0, cuts)
            && Staged(gid, token, h, cuts, layers)
  {
    var h := SortBy(HopLe, o.hops);
    HopLeIsOrder();
    SortBySorted(HopLe, o.hops);
    CutsPartition(h, 0);
    LayersFollowCuts(gid, token, o, h, 0, Start(gid, token));
    assert WithRuns(gid, token, o, h, 0, Start(gid, token)).layers[0] == Start(gid, token).layers[0];
  }

  /** A layer covers hops of one kind with consecutive TTLs. */
  lemma FittingIsConsecutive(gid: string, token: string -> string, h: seq<Hop>, cuts: seq<Cut>, k: nat, layer: Layer, m: nat)
    requires Partition(h, 0, cuts) && k < |cuts| && Fits(gid, token, h, cuts[k], layer) && cuts[k].first <= m < cuts[k].end
    ensures KindOf(h[m]) == layer.kind && h[m].ttl == layer.from + (m - cuts[k].first)
    ensures layer.to == layer.from + (cuts[k].end - 1 - cuts[k].first)
  {
    StretchIsUniform(h, cuts[k].first, m);
    StretchIsUniform(h, cuts[k].first, cuts[k].end - 1);
  }

  // ---- the nodes are those of the layers ----

  function Flatten(layers: seq<Layer>): seq<string> {
    if layers == [] then [] else Flatten(layers[..|layers| - 1]) + layers[|layers| - 1].nodeIds
  }

  lemma FlattenAppend(layers: seq<Layer>, layer: Layer)
    ensures Flatten(layers + [layer]) == Flatten(layers) + layer.nodeIds
  {
    assert (layers + [layer])[..|layers|] == layers;
  }

  lemma IdsSplit(nodes: seq<Node>, k: nat)
    requires k <= |nodes|
    ensures Ids(nodes) == Ids(nodes[..k]) + Ids(nodes[k..])
  {
  }

  /** More nodes in one more layer. */
  lemma LayerIsFlat(before: seq<Node>, nodes: seq<Node>, layers: seq<Layer>, layer: Layer)
    requires Ids(before) == Flatten(layers) && |before| <= |nodes| && nodes[..|before|] == before
    requires layer.nodeIds == Ids(nodes[|before|..])
    ensures Ids(nodes) == Flatten(layers + [layer])
  {
    FlattenAppend(layers, layer);
    IdsSplit(nodes, |before|);
  }

  lemma RunIsFlat(gid: string, token: string -> string, o: Observation, h: seq<Hop>, i: nat, g: Graph)
    requires i < |h| && Ids(g.nodes) == Flatten(g.layers)
    ensures var r := WithRun(gid, token, o, h, i, g); Ids(r.nodes) == Flatten(r.layers)
  {
    var r := WithRun(gid, token, o, h, i, g);
    WithRespondersGrows(gid, token, o, h[i].ttl, SortBy(ResponderLe, h[i].responders), g.nodes);
    LayerIsFlat(g.nodes, r.nodes, g.layers, r.layers[|g.layers|]);
  }

  lemma {:induction false} RunsAreFlat(gid: string, token: string -> string, o: Observation, h: seq<Hop>, i: nat, g: Graph)
    requires i <= |h| && Ids(g.nodes) == Flatten(g.layers)
    ensures var r := WithRuns(gid, token, o, h, i, g); Ids(r.nodes) == Flatten(r.layers)
    decreases |h| - i
  {
    if i < |h| {
      RunIsFlat(gid, token, o, h, i, g);
      RunsAreFlat(gid, token, o, h, RunEnd(h, i), WithRun(gid, token, o, h, i, g));
    }
  }

  /** Every node is in exactly one place of one layer, in the order of the layers. */
  lemma NodesAreTheLayers(gid: string, token: string -> string, o: Observation)
    ensures Ids(GraphOf(gid, token, o).nodes) == Flatten(GraphOf(gid, token, o).layers)
  {
    var start := Start(gid, token);
    assert Ids(start.nodes) == Flatten(start.layers) by {
      FlattenAppend([], start.layers[0]);
      assert [] + start.layers == start.layers;
    }
    var h := SortBy(HopLe, o.hops);
    RunsAreFlat(gid, token, o, h, 0, start);
    var g, r := WithRuns(gid, token, o, h, 0, start), GraphOf(gid, token, o);
    FlattenAppend(g.layers, r.layers[|r.layers| - 1]);
    IdsSplit(r.nodes, |g.nodes|);
    assert r.nodes[..|g.nodes|] == g.nodes;
  }

  // ---- how many nodes ----

  function TotalResponders(h: seq<Hop>): nat {
    if h == [] then 0 else |h[0].responders| + TotalResponders(h[1..])
  }

  lemma {:induction false} TotalOfInsert(x: Hop, h: seq<Hop>)
    ensures TotalResponders(Insert(HopLe, x, h)) == |x.responders| + TotalResponders(h)
  {
    if h != [] {
      TotalOfInsert(x, h[1..]);
      assert ([x] + h)[1..] == h;
    }
  }

  lemma {:induction false} TotalOfSorted(h: seq<Hop>)
    ensures TotalResponders(SortBy(HopLe, h)) == TotalResponders(h)
  {
    if h != [] {
      TotalOfSorted(h[1..]);
      TotalOfInsert(h[0], SortBy(HopLe, h[1..]));
    }
  }

  function RangeLayers(layers: seq<Layer>): nat {
    if layers == [] then 0
    else RangeLayers(layers[..|layers| - 1]) + if IsRange(layers[|layers| - 1].kind) then 1 else 0
  }

  lemma RangeLayersAppend(layers: seq<Layer>, layer: Layer)
    ensures RangeLayers(layers + [layer]) == RangeLayers(layers) + if IsRange(layer.kind) then 1 else 0
  {
    assert (layers + [layer])[..|layers|] == layers;
  }

  /** A stretch without responders contributes none. */
  lemma {:induction false} StretchHasNoResponders(h: seq<Hop>, i: nat, e: nat)
    requires i < e <= |h| && !KindOf(h[i]).Responding? && forall m :: i <= m < e - 1 ==> Joined(h, m)
    ensures TotalResponders(h[i..]) == TotalResponders(h[e..])
    decreases e - i
  {
    assert h[i..][1..] == h[i + 1..];
    if i + 1 < e {
      assert Joined(h, i);
      StretchHasNoResponders(h, i + 1, e);
    }
  }

  lemma {:induction false} RunsCount(gid: string, token: string -> string, o: Observation, h: seq<Hop>, i: nat, g: Graph)
    requires i <= |h|
    ensures var r := WithRuns(gid, token, o, h, i, g);
            |r.nodes| - RangeLayers(r.layers) == |g.nodes| - RangeLayers(g.layers) + TotalResponders(h[i..])
    decreases |h| - i
  {
    if i < |h| {
      var e, f := RunEnd(h, i), WithRun(gid, token, o, h, i, g);
      WithRespondersGrows(gid, token, o, h[i].ttl, SortBy(ResponderLe, h[i].responders), g.nodes);
      RangeLayersAppend(g.layers, f.layers[|g.layers|]);
      if KindOf(h[i]).Responding? {
        assert h[i..][1..] == h[i + 1..];
      } else {
        StretchHasNoResponders(h, i, e);
      }
      RunsCount(gid, token, o, h, e, f);
    }
  }

  /** Two end nodes, one node per responder and one per range layer. */
  lemma NodeCount(gid: string, token: string -> string, o: Observation)
    ensures var g := GraphOf(gid, token, o);
            |g.nodes| == 2 + TotalResponders(o.hops) + RangeLayers(g.layers)
  {
    var h := SortBy(HopLe, o.hops);
    var start := Start(gid, token);
    RunsCount(gid, token, o, h, 0, start);
    TotalOfSorted(o.hops);
    assert h[0..] == h;
    RangeLayersAppend([], start.layers[0]);
    assert [] + start.layers == start.layers;
    var g := WithRuns(gid, token, o, h, 0, start);
    RangeLayersAppend(g.layers, GraphOf(gid, token, o).layers[|g.layers|]);
  }

  // ---- edges ----

  lemma {:induction false} PairsAre(from: seq<string>, to: seq<string>, e: Edge)
    ensures e in Pairs(from, to) <==> e.from in from && e.to in to
    ensures |Pairs(from, to)| == |from| * |to|
  {
    if from != [] {
      var n := |from| - 1;
      PairsAre(from[..n], to, e);
      assert from == from[..n] + [from[n]];
      RowIs(from[n], to, e);
      assert |from| * |to| == n * |to| + |to|;
    }
  }

  lemma RowIs(from: string, to: seq<string>, e: Edge)
    ensures e in Row(from, to) <==> e.from == from && e.to in to
  {
    if e.from == from && e.to in to {
      var j :| 0 <= j < |to| && to[j] == e.to;
      assert Row(from, to)[j] == e;
    }
  }

  ghost predicate Between(layers: seq<Layer>, k: nat, e: Edge) {
    0 < k < |layers| && e.from in layers[k - 1].nodeIds && e.to in layers[k].nodeIds
  }

  /** The edges are exactly the pairs of nodes of consecutive layers. */
  lemma {:induction false} EdgesAre(layers: seq<Layer>, e: Edge)
    ensures e in Edges(layers) <==> exists k :: Between(layers, k, e)
  {
    var n := |layers| - 1;
    if n > 0 {
      EdgesAre(layers[..n], e);
      PairsAre(layers[n - 1].nodeIds, layers[n].nodeIds, e);
      if e in Edges(layers[..n]) {
        var k :| Between(layers[..n], k, e);
        assert Between(layers, k, e);
      } else if e in Edges(layers) {
        assert Between(layers, n, e);
      }
      if k :| Between(layers, k, e) {
        assert k == n || Between(layers[..n], k, e);
      }
    }
  }

  function Products(layers: seq<Layer>): nat {
    var n := |layers| - 1;
    if n <= 0 then 0 else Products(layers[..n]) + |layers[n - 1].nodeIds| * |layers[n].nodeIds|
  }

  lemma {:induction false} EdgeCount(layers: seq<Layer>)
    ensures |Edges(layers)| == Products(layers)
  {
    var n := |layers| - 1;
    if n > 0 {
      EdgeCount(layers[..n]);
      PairsAre(layers[n - 1].nodeIds, layers[n].nodeIds, Edge("", ""));
    }
  }

  // ---- walks ----

  ghost predicate Walk(edges: seq<Edge>, w: seq<string>) {
    w != [] && forall k :: 0 < k < |w| ==> Edge(w[k - 1], w[k]) in edges
  }

  ghost predicate NonEmptyLayers(layers: seq<Layer>) {
    forall k :: 0 <= k < |layers| ==> layers[k].nodeIds != []
  }

  lemma LayersAreNonEmpty(gid: string, token: string -> string, o: Observation)
    ensures NonEmptyLayers(GraphOf(gid, token, o).layers)
  {
    LayersPartitionHops(gid, token, o);
    var h, layers := SortBy(HopLe, o.hops), GraphOf(gid, token, o).layers;
    var cuts := Cuts(h, 0);
    forall k | 0 <= k < |layers| ensures layers[k].nodeIds != [] {
      if 0 < k < |cuts| + 1 {
        assert Fits(gid, token, h, cuts[k - 1], layers[k - 1 + 1]);
      }
    }
  }

  /** Picking one node of each layer gives a walk. */
  lemma LayerChoiceIsWalk(layers: seq<Layer>, k: nat, id: string) returns (w: seq<string>)
    requires NonEmptyLayers(layers) && k < |layers| && id in layers[k].nodeIds
    ensures Walk(Edges(layers), w) && |w| == |layers| && w[k] == id
    ensures forall m :: 0 <= m < |w| ==> w[m] in layers[m].nodeIds
    ensures w[0] in layers[0].nodeIds && w[|w| - 1] in layers[|layers| - 1].nodeIds
  {
    w := seq(|layers|, j requires 0 <= j < |layers| => if j == k then id else layers[j].nodeIds[0]);
    forall j | 0 < j < |w| ensures Edge(w[j - 1], w[j]) in Edges(layers) {
      assert Between(layers, j, Edge(w[j - 1], w[j]));
      EdgesAre(layers, Edge(w[j - 1], w[j]));
    }
  }

  /** Every node is on a walk from the vantage to the destination that visits one node per layer. */
  lemma EveryNodeIsOnAWalk(gid: string, token: string -> string, o: Observation, id: string) returns (w: seq<string>)
    requires id in Ids(GraphOf(gid, token, o).nodes)
    ensures var layers := GraphOf(gid, token, o).layers;
            && Walk(Edges(layers), w) && |w| == |layers| >= 2 && id in w
            && layers[0].kind.Vantage? && layers[0].nodeIds == [w[0]]
            && layers[|w| - 1].kind.Destination? && layers[|w| - 1].nodeIds == [w[|w| - 1]]
  {
    var layers := GraphOf(gid, token, o).layers;
    LayersAreNonEmpty(gid, token, o);
    LayersPartitionHops(gid, token, o);
    NodesAreTheLayers(gid, token, o);
    var k := FromFlatten(layers, id);
    w := LayerChoiceIsWalk(layers, k, id);
    OnlyElement(layers[0].nodeIds, w[0]);
    OnlyElement(layers[|layers| - 1].nodeIds, w[|w| - 1]);
  }

  lemma OnlyElement(s: seq<string>, x: string)
    requires |s| == 1 && x in s
    ensures s == [x]
  {
  }

  lemma NoRepetitionAppend(a: seq<string>, b: seq<string>)
    ensures NoRepetition(a + b) <==> NoRepetition(a) && NoRepetition(b) && forall x :: x in a ==> x !in b
  {
    var s := a + b;
    if NoRepetition(s) {
      forall i, j | 0 <= i < j < |a| ensures a[i] != a[j] {
        assert s[i] != s[j];
      }
      forall i, j | 0 <= i < j < |b| ensures b[i] != b[j] {
        assert s[|a| + i] != s[|a| + j];
      }
      forall x | x in a ensures x !in b {
        var i :| 0 <= i < |a| && a[i] == x;
        assert forall j :: 0 <= j < |b| ==> b[j] == s[|a| + j] && s[i] != s[|a| + j];
      }
    } else {
      var i, j :| 0 <= i < j < |s| && s[i] == s[j];
      if i < |a| <= j {
        assert s[i] in a && s[j] in b;
      }
    }
  }

  lemma {:induction false} InFlatten(layers: seq<Layer>, k: nat, id: string)
    requires k < |layers| && id in layers[k].nodeIds
    ensures id in Flatten(layers)
  {
    var n := |layers| - 1;
    if k < n {
      InFlatten(layers[..n], k, id);
    }
  }

  lemma {:induction false} FromFlatten(layers: seq<Layer>, id: string) returns (k: nat)
    requires id in Flatten(layers)
    ensures k < |layers| && id in layers[k].nodeIds
  {
    var n := |layers| - 1;
    if id in layers[n].nodeIds {
      k := n;
    } else {
      k := FromFlatten(layers[..n], id);
    }
  }

  /** With distinct identifiers, a node is in one layer only. */
  lemma {:induction false} OneLayerEach(layers: seq<Layer>, j: nat, k: nat, id: string)
    requires NoRepetition(Flatten(layers)) && j < k < |layers| && id in layers[j].nodeIds
    ensures id !in layers[k].nodeIds
  {
    var n := |layers| - 1;
    NoRepetitionAppend(Flatten(layers[..n]), layers[n].nodeIds);
    if k < n {
      OneLayerEach(layers[..n], j, k, id);
    } else {
      InFlatten(layers[..n], j, id);
    }
  }

  /** A walk climbs one layer per edge. */
  lemma {:induction false} WalksClimb(layers: seq<Layer>, w: seq<string>, k: nat)
    requires NoRepetition(Flatten(layers)) && Walk(Edges(layers), w) && k < |layers| && w[0] in layers[k].nodeIds
    ensures k + |w| - 1 < |layers| && w[|w| - 1] in layers[k + |w| - 1].nodeIds
    decreases |w|
  {
    var n := |w| - 1;
    if n > 0 {
      WalksClimb(layers, w[..n], k);
      var e := Edge(w[n - 1], w[n]);
      EdgesAre(layers, e);
      var m: nat :| Between(layers, m, e);
      var at := k + n - 1;
      if at < m - 1 {
        OneLayerEach(layers, at, m - 1, w[n - 1]);
      } else if m - 1 < at {
        OneLayerEach(layers, m - 1, at, w[n - 1]);
      }
    }
  }

  lemma NoReturn(layers: seq<Layer>, w: seq<string>)
    requires NoRepetition(Flatten(layers)) && Walk(Edges(layers), w) && |w| > 1
    ensures w[0] != w[|w| - 1]
  {
    var e := Edge(w[0], w[1]);
    EdgesAre(layers, e);
    var m: nat :| Between(layers, m, e);
    WalksClimb(layers, w, m - 1);
    OneLayerEach(layers, m - 1, m - 1 + |w| - 1, w[0]);
  }

  /** With distinct identifiers there is no cycle. */
  lemma NoCycle(gid: string, token: string -> string, o: Observation, w: seq<string>)
    requires NoRepetition(Ids(GraphOf(gid, token, o).nodes))
    requires Walk(Edges(GraphOf(gid, token, o).layers), w) && |w| > 1
    ensures w[0] != w[|w| - 1]
  {
    NodesAreTheLayers(gid, token, o);
    NoReturn(GraphOf(gid, token, o).layers, w);
  }
}
