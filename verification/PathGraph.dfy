/**
 The path graph (internal/web/path_graph.go:137-277, 344-363, 526-562, 591-610): hops in TTL
 order are cut into layers, each layer gets nodes with identifiers, and consecutive layers are
 joined completely.
 */
module PathGraphs {
  import opened Decimal
  import opened FreshNames
  import opened Orders

  datatype HopState = Unknown | Observed | Unobservable

  datatype Responder = Responder(address: string, response: string, rtt: int, reached: bool)

  datatype Hop = Hop(ttl: nat, state: HopState, responders: seq<Responder>)

  datatype Kind = Vantage | Responding | UnobservableRange | UnknownRange | Destination

  datatype Node = Node(id: string, kind: Kind, from: nat, to: nat, address: string, confirmed: bool)

  datatype Layer = Layer(kind: Kind, from: nat, to: nat, nodeIds: seq<string>)

  datatype Edge = Edge(from: string, to: string)

  /** Hops first to end - 1 of the hops in TTL order. */
  datatype Cut = Cut(first: nat, end: nat)

  datatype Observation = Observation(destination: string, reached: bool, tcpConnected: bool, hops: seq<Hop>)

  datatype Graph = Graph(nodes: seq<Node>, layers: seq<Layer>)

  // ---- kinds and identifiers ----

  function KindName(k: Kind): string {
    match k
    case Vantage => "probe_vantage"
    case Responding => "responder"
    case UnobservableRange => "unobservable_range"
    case UnknownRange => "unknown_range"
    case Destination => "destination_confirmation"
  }

  predicate IsRange(k: Kind) {
    k.UnobservableRange? || k.UnknownRange?
  }

  /** `pathGraphHopKind`. */
  function KindOf(hop: Hop): (k: Kind)
    ensures k.Responding? || IsRange(k)
    ensures k.Responding? <==> hop.responders != []
  {
    if hop.responders != [] then Responding
    else if hop.state.Unobservable? || hop.state.Observed? then UnobservableRange
    else UnknownRange
  }

  /** The `%s/node-%s-%d-%d-%s` of `graphNode`; `token` is the cleaned address. */
  function NodeId(gid: string, kind: Kind, from: nat, to: nat, token: string): string {
    gid + "/node-" + (KindName(kind) + "-" + (Dec(from) + "-" + (Dec(to) + "-" + token)))
  }

  function Ids(nodes: seq<Node>): (ids: seq<string>)
    ensures |ids| == |nodes|
    ensures forall i :: 0 <= i < |nodes| ==> ids[i] == nodes[i].id
  {
    seq(|nodes|, i requires 0 <= i < |nodes| => nodes[i].id)
  }

  // ---- orders ----

  predicate HopLe(a: Hop, b: Hop) {
    a.ttl <= b.ttl
  }

  /** `orderedPathResponders`: address, response, round-trip time, then not reached before reached. */
  predicate ResponderLe(a: Responder, b: Responder) {
    if a.address != b.address then StringLe(a.address, b.address)
    else if a.response != b.response then StringLe(a.response, b.response)
    else if a.rtt != b.rtt then a.rtt < b.rtt
    else a.reached ==> b.reached
  }

  lemma HopLeIsOrder()
    ensures TotalPreorder(HopLe)
  {
  }

  lemma ResponderLeIsOrder()
    ensures TotalPreorder(ResponderLe)
    ensures forall a, b :: ResponderLe(a, b) && ResponderLe(b, a) ==> a == b
  {
    StringLeIsOrder();
    forall a, b, c | ResponderLe(a, b) && ResponderLe(b, c) ensures ResponderLe(a, c) {
      assert StringLe(a.address, c.address);
    }
  }

  // ---- cutting the hops ----

  /** Two neighbouring hops without responders share a layer. */
  predicate Joined(h: seq<Hop>, i: nat)
    requires i + 1 < |h|
  {
    !KindOf(h[i]).Responding? && KindOf(h[i + 1]) == KindOf(h[i]) && h[i + 1].ttl == h[i].ttl + 1
  }

  /** One past the last hop of the layer that hop i is in. */
  function RunEnd(h: seq<Hop>, i: nat): (e: nat)
    requires i < |h|
    ensures i < e <= |h|
    ensures forall k :: i <= k < e - 1 ==> Joined(h, k)
    ensures e < |h| ==> !Joined(h, e - 1)
    decreases |h| - i
  {
    if i + 1 < |h| && Joined(h, i) then RunEnd(h, i + 1) else i + 1
  }

  /** Where the layers begin and end, from hop i on. */
  function Cuts(h: seq<Hop>, i: nat): seq<Cut>
    requires i <= |h|
    decreases |h| - i
  {
    if i == |h| then [] else [Cut(i, RunEnd(h, i))] + Cuts(h, RunEnd(h, i))
  }

  // ---- building ----

  function ResponderNode(o: Observation, id: string, ttl: nat, r: Responder): Node {
    Node(id, Responding, ttl, ttl, r.address, r.reached || (o.reached && r.address == o.destination))
  }

  /** The responders of one hop; each gets an identifier that no earlier node has. */
  ghost function WithResponders(gid: string, token: string -> string, o: Observation, ttl: nat,
                                rs: seq<Responder>, nodes: seq<Node>): seq<Node>
    decreases |rs|
  {
    if rs == [] then nodes else
    var id := FreshName(NodeId(gid, Responding, ttl, ttl, token(rs[0].address)), Range(Ids(nodes)));
    WithResponders(gid, token, o, ttl, rs[1..], nodes + [ResponderNode(o, id, ttl, rs[0])])
  }

  lemma {:induction false} WithRespondersGrows(gid: string, token: string -> string, o: Observation, ttl: nat,
                                               rs: seq<Responder>, nodes: seq<Node>)
    ensures var all := WithResponders(gid, token, o, ttl, rs, nodes);
            |all| == |nodes| + |rs| && all[..|nodes|] == nodes
    decreases |rs|
  {
    if rs != [] {
      var id := FreshName(NodeId(gid, Responding, ttl, ttl, token(rs[0].address)), Range(Ids(nodes)));
      var more := nodes + [ResponderNode(o, id, ttl, rs[0])];
      WithRespondersGrows(gid, token, o, ttl, rs[1..], more);
      var all := WithResponders(gid, token, o, ttl, rs, nodes);
      assert all[..|nodes|] == all[..|more|][..|nodes|];
    }
  }

  /** The node of a layer without responders. */
  function RangeNode(gid: string, token: string -> string, kind: Kind, from: nat, to: nat): Node {
    Node(NodeId(gid, kind, from, to, token("")), kind, from, to, "", false)
  }

  /** The layer of hops i to RunEnd(h, i) - 1. */
  ghost function WithRun(gid: string, token: string -> string, o: Observation, h: seq<Hop>, i: nat, g: Graph): Graph
    requires i < |h|
  {
    if KindOf(h[i]).Responding? then
      var nodes := WithResponders(gid, token, o, h[i].ttl, SortBy(ResponderLe, h[i].responders), g.nodes);
      WithRespondersGrows(gid, token, o, h[i].ttl, SortBy(ResponderLe, h[i].responders), g.nodes);
      Graph(nodes, g.layers + [Layer(Responding, h[i].ttl, h[i].ttl, Ids(nodes[|g.nodes|..]))])
    else
      var from, to := h[i].ttl, h[RunEnd(h, i) - 1].ttl;
      var node := RangeNode(gid, token, KindOf(h[i]), from, to);
      Graph(g.nodes + [node], g.layers + [Layer(node.kind, from, to, [node.id])])
  }

  /** All layers from hop i on. */
  ghost function WithRuns(gid: string, token: string -> string, o: Observation, h: seq<Hop>, i: nat, g: Graph): Graph
    requires i <= |h|
    decreases |h| - i
  {
    if i == |h| then g else WithRuns(gid, token, o, h, RunEnd(h, i), WithRun(gid, token, o, h, i, g))
  }

  function Start(gid: string, token: string -> string): Graph {
    var node := Node(NodeId(gid, Vantage, 0, 0, token("")), Vantage, 0, 0, "", false);
    Graph([node], [Layer(Vantage, 0, 0, [node.id])])
  }

  function WithDestination(gid: string, token: string -> string, o: Observation, g: Graph): Graph {
    var node := Node(NodeId(gid, Destination, 0, 0, token(o.destination)), Destination, 0, 0, o.destination,
                     o.reached || o.tcpConnected);
    Graph(g.nodes + [node], g.layers + [Layer(Destination, 0, 0, [node.id])])
  }

  ghost function GraphOf(gid: string, token: string -> string, o: Observation): Graph {
    WithDestination(gid, token, o, WithRuns(gid, token, o, SortBy(HopLe, o.hops), 0, Start(gid, token)))
  }

  // ---- edges ----

  function Row(from: string, to: seq<string>): seq<Edge> {
    seq(|to|, j requires 0 <= j < |to| => Edge(from, to[j]))
  }

  function Pairs(from: seq<string>, to: seq<string>): seq<Edge> {
    if from == [] then [] else Pairs(from[..|from| - 1], to) + Row(from[|from| - 1], to)
  }

  function Edges(layers: seq<Layer>): seq<Edge> {
    var n := |layers| - 1;
    if n <= 0 then [] else Edges(layers[..n]) + Pairs(layers[n - 1].nodeIds, layers[n].nodeIds)
  }

  // ---- the procedure ----

  method AddResponders(gid: string, token: string -> string, o: Observation, hop: Hop, before: seq<Node>)
    returns (nodes: seq<Node>, ids: seq<string>)
    ensures nodes == WithResponders(gid, token, o, hop.ttl, SortBy(ResponderLe, hop.responders), before)
    ensures |nodes| >= |before| && ids == Ids(nodes[|before|..])
  {
    nodes, ids := AddSorted(gid, token, o, hop.ttl, SortBy(ResponderLe, hop.responders), before);
  }

  method AddSorted(gid: string, token: string -> string, o: Observation, ttl: nat, responders: seq<Responder>, before: seq<Node>)
    returns (nodes: seq<Node>, ids: seq<string>)
    ensures nodes == WithResponders(gid, token, o, ttl, responders, before)
    ensures |nodes| >= |before| && ids == Ids(nodes[|before|..])
  {
    nodes, ids := before, [];
    assert responders[0..] == responders;
    for k := 0 to |responders|
      invariant |nodes| >= |before| && ids == Ids(nodes[|before|..])
      invariant WithResponders(gid, token, o, ttl, responders[k..], nodes) == WithResponders(gid, token, o, ttl, responders, before)
    {
      var base := NodeId(gid, Responding, ttl, ttl, token(responders[k].address));
      var id := UniqueName(base, Ids(nodes));
      var node := ResponderNode(o, id, ttl, responders[k]);
      assert responders[k..][1..] == responders[k + 1..];
      IdsOfLast(nodes, |before|, node);
      nodes := nodes + [node];
      ids := ids + [id];
    }
  }

  lemma IdsOfLast(nodes: seq<Node>, k: nat, node: Node)
    requires k <= |nodes|
    ensures Ids((nodes + [node])[k..]) == Ids(nodes[k..]) + [node.id]
  {
    assert (nodes + [node])[k..] == nodes[k..] + [node];
  }

  /** The inner loop: the last hop of the layer that begins at hop `index`. */
  method FindEnd(h: seq<Hop>, index: nat) returns (end: nat)
    requires index < |h| && !KindOf(h[index]).Responding?
    ensures end + 1 == RunEnd(h, index)
  {
    end := index;
    while end + 1 < |h| && KindOf(h[end + 1]) == KindOf(h[index]) && h[end + 1].ttl == h[end].ttl + 1
      invariant index <= end < |h| && KindOf(h[end]) == KindOf(h[index])
      invariant RunEnd(h, end) == RunEnd(h, index)
    {
      end := end + 1;
    }
  }

  method AddRun(gid: string, token: string -> string, o: Observation, h: seq<Hop>, index: nat, before: Graph)
    returns (g: Graph, next: nat)
    requires index < |h|
    ensures g == WithRun(gid, token, o, h, index, before) && next == RunEnd(h, index)
  {
    var kind := KindOf(h[index]);
    if kind.Responding? {
      var nodes, ids := AddResponders(gid, token, o, h[index], before.nodes);
      g := Graph(nodes, before.layers + [Layer(Responding, h[index].ttl, h[index].ttl, ids)]);
      next := index + 1;
    } else {
      var end := FindEnd(h, index);
      var node := RangeNode(gid, token, kind, h[index].ttl, h[end].ttl);
      g := Graph(before.nodes + [node], before.layers + [Layer(kind, h[index].ttl, h[end].ttl, [node.id])]);
      next := end + 1;
    }
  }

  method AddRuns(gid: string, token: string -> string, o: Observation, h: seq<Hop>, start: Graph) returns (g: Graph)
    ensures g == WithRuns(gid, token, o, h, 0, start)
  {
    g := start;
    var index := 0;
    while index < |h|
      invariant index <= |h|
      invariant WithRuns(gid, token, o, h, index, g) == WithRuns(gid, token, o, h, 0, start)
      decreases |h| - index
    {
      g, index := AddRun(gid, token, o, h, index, g);
    }
  }

  method JoinLayers(from: seq<string>, to: seq<string>, before: seq<Edge>) returns (edges: seq<Edge>)
    ensures edges == before + Pairs(from, to)
  {
    edges := before;
    for i := 0 to |from|
      invariant edges == before + Pairs(from[..i], to)
    {
      ghost var row := edges;
      for j := 0 to |to|
        invariant edges == row + Row(from[i], to)[..j]
      {
        edges := edges + [Edge(from[i], to[j])];
      }
      assert from[..i + 1][..i] == from[..i];
    }
    assert from[..|from|] == from;
  }

  method JoinAll(layers: seq<Layer>) returns (edges: seq<Edge>)
    requires layers != []
    ensures edges == Edges(layers)
  {
    edges := [];
    for k := 1 to |layers|
      invariant edges == Edges(layers[..k])
    {
      assert layers[..k + 1][..k] == layers[..k];
      edges := JoinLayers(layers[k - 1].nodeIds, layers[k].nodeIds, edges);
    }
    assert layers[..|layers|] == layers;
  }

  /** `buildPathGraphView`. */
  method Build(gid: string, token: string -> string, o: Observation) returns (g: Graph, edges: seq<Edge>)
    ensures g == GraphOf(gid, token, o)
    ensures edges == Edges(g.layers)
  {
    g := AddRuns(gid, token, o, SortBy(HopLe, o.hops), Start(gid, token));
    g := WithDestination(gid, token, o, g);
    edges := JoinAll(g.layers);
  }
}
