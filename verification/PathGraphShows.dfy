/**
 What the path graph says of each hop and each responder (internal/web/path_graph.go:167-251,
 344-352), and that it says nothing else.
 */
module PathGraphShows {
  import opened FreshNames
  import opened Lists
  import opened Orders
  import opened PathGraphs
  import opened PathGraphFacts

  // ---- hops ----

  /**
   Each hop is in the range of one layer, which shows responders if it has any, an unobservable
   range if it was observed or unobservable without any, and an unknown range otherwise.
   */
  lemma HopIsShown(gid: string, token: string -> string, o: Observation, m: nat) returns (k: nat)
    requires m < |SortBy(HopLe, o.hops)|
    ensures var hop, layers := SortBy(HopLe, o.hops)[m], GraphOf(gid, token, o).layers;
            && 0 < k < |layers| - 1 && layers[k].from <= hop.ttl <= layers[k].to
            && (layers[k].kind.Responding? <==> hop.responders != [])
            && (layers[k].kind.UnobservableRange? <==> hop.responders == [] && (hop.state.Unobservable? || hop.state.Observed?))
            && (layers[k].kind.UnknownRange? <==> hop.responders == [] && hop.state.Unknown?)
  {
    var h, layers := SortBy(HopLe, o.hops), GraphOf(gid, token, o).layers;
    LayersPartitionHops(gid, token, o);
    var j := CutAt(h, 0, m);
    k := j + 1;
    FittingIsConsecutive(gid, token, h, Cuts(h, 0), j, layers[k], m);
  }

  /** Hops are taken in order of TTL, and those of one TTL as they were observed. */
  lemma HopsStandInOrder(o: Observation, ttl: nat)
    ensures SortedBy(HopLe, SortBy(HopLe, o.hops))
    ensures Filtered(SortBy(HopLe, o.hops), (hop: Hop) => hop.ttl == ttl) == Filtered(o.hops, (hop: Hop) => hop.ttl == ttl)
  {
    HopLeIsOrder();
    SortBySorted(HopLe, o.hops);
    SortKeepsTies(HopLe, o.hops, (hop: Hop) => hop.ttl == ttl);
  }

  // ---- responders ----

  /** The node of a responder, confirmed if it is known to be the destination. */
  predicate Shows(o: Observation, ttl: nat, r: Responder, node: Node) {
    && node.kind.Responding? && node.from == ttl && node.to == ttl && node.address == r.address
    && (node.confirmed <==> r.reached || (o.reached && r.address == o.destination))
  }

  /** The nodes with that of the first responder, to which the others are added. */
  lemma FirstThenRest(gid: string, token: string -> string, o: Observation, ttl: nat, rs: seq<Responder>, nodes: seq<Node>) returns (more: seq<Node>)
    requires rs != []
    ensures |more| == |nodes| + 1 && Shows(o, ttl, rs[0], more[|nodes|])
    ensures WithResponders(gid, token, o, ttl, rs, nodes) == WithResponders(gid, token, o, ttl, rs[1..], more)
  {
    more := nodes + [ResponderNode(o, FreshName(NodeId(gid, Responding, ttl, ttl, token(rs[0].address)), Range(Ids(nodes))), ttl, rs[0])];
  }

  lemma AtPrefix(all: seq<Node>, more: seq<Node>, k: nat)
    requires |more| <= |all| && all[..|more|] == more && k < |more|
    ensures all[k] == more[k]
  {
    assert all[..|more|][k] == all[k];
  }

  ghost predicate EachShown(o: Observation, ttl: nat, rs: seq<Responder>, all: seq<Node>, from: nat) {
    |all| == from + |rs| && forall k :: 0 <= k < |rs| ==> Shows(o, ttl, rs[k], all[from + k])
  }

  lemma FirstToo(o: Observation, ttl: nat, rs: seq<Responder>, all: seq<Node>, from: nat)
    requires rs != [] && EachShown(o, ttl, rs[1..], all, from + 1) && Shows(o, ttl, rs[0], all[from])
    ensures EachShown(o, ttl, rs, all, from)
  {
    forall k | 0 <= k < |rs| ensures Shows(o, ttl, rs[k], all[from + k]) {
      if k > 0 {
        assert Shows(o, ttl, rs[1..][k - 1], all[from + 1 + (k - 1)]);
      }
    }
  }

  lemma {:induction false} EachIsShown(gid: string, token: string -> string, o: Observation, ttl: nat, rs: seq<Responder>, nodes: seq<Node>,
                                       all: seq<Node>)
    requires all == WithResponders(gid, token, o, ttl, rs, nodes)
    ensures EachShown(o, ttl, rs, all, |nodes|)
    decreases |rs|
  {
    if rs != [] {
      var more := FirstThenRest(gid, token, o, ttl, rs, nodes);
      WithRespondersGrows(gid, token, o, ttl, rs[1..], more);
      AtPrefix(all, more, |nodes|);
      EachIsShown(gid, token, o, ttl, rs[1..], more, all);
      FirstToo(o, ttl, rs, all, |nodes|);
    }
  }

  /** The node is that of some responder of the hops. */
  ghost predicate ShowsSome(o: Observation, h: seq<Hop>, node: Node) {
    exists hop, r :: hop in h && r in hop.responders && Shows(o, hop.ttl, r, node)
  }

  /** A range without responders names nobody. */
  predicate ShowsNobody(node: Node) {
    IsRange(node.kind) && node.address == "" && !node.confirmed
  }

  lemma RunGrows(gid: string, token: string -> string, o: Observation, h: seq<Hop>, i: nat, g: Graph)
    requires i < |h|
    ensures g.nodes <= WithRun(gid, token, o, h, i, g).nodes
  {
    WithRespondersGrows(gid, token, o, h[i].ttl, SortBy(ResponderLe, h[i].responders), g.nodes);
  }

  lemma {:induction false} RunsGrow(gid: string, token: string -> string, o: Observation, h: seq<Hop>, i: nat, g: Graph)
    requires i <= |h|
    ensures g.nodes <= WithRuns(gid, token, o, h, i, g).nodes
    decreases |h| - i
  {
    if i < |h| {
      RunGrows(gid, token, o, h, i, g);
      RunsGrow(gid, token, o, h, RunEnd(h, i), WithRun(gid, token, o, h, i, g));
    }
  }

  lemma ShownAt(o: Observation, ttl: nat, rs: seq<Responder>, all: seq<Node>, from: nat, r: Responder) returns (n: nat)
    requires EachShown(o, ttl, rs, all, from) && r in rs
    ensures n < |all| && Shows(o, ttl, r, all[n])
  {
    var k :| 0 <= k < |rs| && rs[k] == r;
    n := from + k;
  }

  lemma RespondersAreShown(gid: string, token: string -> string, o: Observation, h: seq<Hop>, i: nat, g: Graph, r: Responder) returns (n: nat)
    requires i < |h| && r in h[i].responders
    ensures var nodes := WithRun(gid, token, o, h, i, g).nodes; n < |nodes| && Shows(o, h[i].ttl, r, nodes[n])
  {
    var rs := SortBy(ResponderLe, h[i].responders);
    SameElements(h[i].responders, rs);
    var all := WithResponders(gid, token, o, h[i].ttl, rs, g.nodes);
    EachIsShown(gid, token, o, h[i].ttl, rs, g.nodes, all);
    n := ShownAt(o, h[i].ttl, rs, all, |g.nodes|, r);
  }

  lemma {:induction false} ShownFrom(gid: string, token: string -> string, o: Observation, h: seq<Hop>, i: nat, g: Graph, m: nat, r: Responder)
    returns (n: nat)
    requires i <= m < |h| && r in h[m].responders
    ensures var nodes := WithRuns(gid, token, o, h, i, g).nodes; n < |nodes| && Shows(o, h[m].ttl, r, nodes[n])
    decreases |h| - i
  {
    var e, f := RunEnd(h, i), WithRun(gid, token, o, h, i, g);
    if m >= e {
      n := ShownFrom(gid, token, o, h, e, f, m, r);
    } else {
      StretchIsUniform(h, i, m);
      assert m == i;
      n := RespondersAreShown(gid, token, o, h, i, g, r);
      RunsGrow(gid, token, o, h, e, f);
    }
  }

  /** Every responder of every hop has its node. */
  lemma ResponderIsShown(gid: string, token: string -> string, o: Observation, hop: Hop, r: Responder) returns (n: nat)
    requires hop in o.hops && r in hop.responders
    ensures var nodes := GraphOf(gid, token, o).nodes; n < |nodes| && Shows(o, hop.ttl, r, nodes[n])
  {
    var h := SortBy(HopLe, o.hops);
    SameElements(o.hops, h);
    var m :| 0 <= m < |h| && h[m] == hop;
    n := ShownFrom(gid, token, o, h, 0, Start(gid, token), m, r);
  }

  // ---- and nothing else ----

  ghost predicate Accounted(o: Observation, h: seq<Hop>, nodes: seq<Node>, from: nat) {
    forall n :: from <= n < |nodes| ==> ShowsSome(o, h, nodes[n]) || ShowsNobody(nodes[n])
  }

  lemma RunIsAccounted(gid: string, token: string -> string, o: Observation, h: seq<Hop>, i: nat, g: Graph)
    requires i < |h|
    ensures Accounted(o, h, WithRun(gid, token, o, h, i, g).nodes, |g.nodes|)
  {
    var nodes := WithRun(gid, token, o, h, i, g).nodes;
    if KindOf(h[i]).Responding? {
      var rs := SortBy(ResponderLe, h[i].responders);
      SameElements(h[i].responders, rs);
      WithRespondersGrows(gid, token, o, h[i].ttl, rs, g.nodes);
      EachIsShown(gid, token, o, h[i].ttl, rs, g.nodes, nodes);
      forall n | |g.nodes| <= n < |nodes| ensures ShowsSome(o, h, nodes[n]) {
        assert Shows(o, h[i].ttl, rs[n - |g.nodes|], nodes[|g.nodes| + (n - |g.nodes|)]);
        assert h[i] in h && rs[n - |g.nodes|] in h[i].responders;
      }
    }
  }

  lemma {:induction false} RunsAreAccounted(gid: string, token: string -> string, o: Observation, h: seq<Hop>, i: nat, g: Graph)
    requires i <= |h|
    ensures Accounted(o, h, WithRuns(gid, token, o, h, i, g).nodes, |g.nodes|)
    decreases |h| - i
  {
    if i < |h| {
      var e, f := RunEnd(h, i), WithRun(gid, token, o, h, i, g);
      RunGrows(gid, token, o, h, i, g);
      RunIsAccounted(gid, token, o, h, i, g);
      RunsAreAccounted(gid, token, o, h, e, f);
      RunsGrow(gid, token, o, h, e, f);
      forall n | |g.nodes| <= n < |f.nodes| ensures WithRuns(gid, token, o, h, e, f).nodes[n] == f.nodes[n] {
      }
    }
  }

  /** Every node is the vantage, the destination, a responder that was seen, or a range that names nobody. */
  lemma NodeIsAccounted(gid: string, token: string -> string, o: Observation, n: nat)
    requires n < |GraphOf(gid, token, o).nodes|
    ensures var nodes := GraphOf(gid, token, o).nodes;
            if n == 0 then nodes[n].kind.Vantage? && !nodes[n].confirmed && nodes[n].address == ""
            else if n == |nodes| - 1 then
              nodes[n].kind.Destination? && nodes[n].address == o.destination && (nodes[n].confirmed <==> o.reached || o.tcpConnected)
            else ShowsSome(o, o.hops, nodes[n]) || ShowsNobody(nodes[n])
  {
    var h := SortBy(HopLe, o.hops);
    SameElements(o.hops, h);
    RunsAreAccounted(gid, token, o, h, 0, Start(gid, token));
    RunsGrow(gid, token, o, h, 0, Start(gid, token));
    var inner := WithRuns(gid, token, o, h, 0, Start(gid, token)).nodes;
    assert inner[0] == Start(gid, token).nodes[0];
    assert ShowsSome(o, h, GraphOf(gid, token, o).nodes[n]) ==> ShowsSome(o, o.hops, GraphOf(gid, token, o).nodes[n]);
  }

  // ---- in which order the responders of a hop stand ----

  /** By address, response and round-trip time; of two that agree in these, the one that did not reach comes first. */
  ghost predicate StandsBefore(a: Responder, b: Responder) {
    && StringLe(a.address, b.address)
    && (a.address == b.address ==> StringLe(a.response, b.response))
    && (a.address == b.address && a.response == b.response ==> a.rtt <= b.rtt)
    && (a.address == b.address && a.response == b.response && a.rtt == b.rtt ==> !a.reached || b.reached)
  }

  lemma LeStandsBefore(a: Responder, b: Responder)
    requires ResponderLe(a, b)
    ensures StandsBefore(a, b)
  {
    StringLeIsOrder();
  }

  /** The nodes of a hop show its responders in that order. */
  lemma RespondersStandInOrder(gid: string, token: string -> string, o: Observation, ttl: nat, rs: seq<Responder>, nodes: seq<Node>, i: nat, j: nat)
    requires i < j < |rs|
    ensures var (sorted, all) := (SortBy(ResponderLe, rs), WithResponders(gid, token, o, ttl, SortBy(ResponderLe, rs), nodes));
            && StandsBefore(sorted[i], sorted[j]) && |all| == |nodes| + |rs|
            && Shows(o, ttl, sorted[i], all[|nodes| + i]) && Shows(o, ttl, sorted[j], all[|nodes| + j])
  {
    var sorted := SortBy(ResponderLe, rs);
    ResponderLeIsOrder();
    SortBySorted(ResponderLe, rs);
    LeStandsBefore(sorted[i], sorted[j]);
    EachIsShown(gid, token, o, ttl, sorted, nodes, WithResponders(gid, token, o, ttl, sorted, nodes));
  }
}
