/**
 The snapshot of a browser capture (internal/capture/capture.go:433-482): totals, unique addresses
 and the sorted destinations, made of the destination table in whatever order that is read.
 */
module CaptureSnapshots {
  import opened Accumulators
  import opened Lists
  import opened Options
  import opened Orders

  // ---- addresses ----

  /** The host of an endpoint; `split` is the host part of `net.SplitHostPort`. */
  function HostOf(split: string -> Option<string>, endpoint: string): string {
    if split(endpoint).Some? then split(endpoint).value else endpoint
  }

  function AddressesOf(split: string -> Option<string>, d: Destination): set<string> {
    (set a | a in d.candidates) + (set e | e in d.endpoints && (split(e).Some? || e != "") :: HostOf(split, e))
  }

  function AddressesAt(split: string -> Option<string>, m: Table, keys: seq<string>): set<string>
    requires forall k :: k in keys ==> k in m
  {
    if keys == [] then {} else AddressesAt(split, m, keys[..|keys| - 1]) + AddressesOf(split, m[keys[|keys| - 1]])
  }

  /** The two inner loops, for one destination. */
  method Gather(split: string -> Option<string>, d: Destination, so: set<string>) returns (addresses: set<string>)
    ensures addresses == so + AddressesOf(split, d)
  {
    addresses := so;
    for i := 0 to |d.candidates|
      invariant addresses == so + set a | a in d.candidates[..i]
    {
      assert d.candidates[..i + 1] == d.candidates[..i] + [d.candidates[i]];
      addresses := addresses + {d.candidates[i]};
    }
    assert d.candidates[..|d.candidates|] == d.candidates;
    ghost var first := addresses;
    for i := 0 to |d.endpoints|
      invariant addresses == first + set e | e in d.endpoints[..i] && (split(e).Some? || e != "") :: HostOf(split, e)
    {
      assert d.endpoints[..i + 1] == d.endpoints[..i] + [d.endpoints[i]];
      var endpoint := d.endpoints[i];
      if split(endpoint).Some? {
        addresses := addresses + {split(endpoint).value};
      } else if endpoint != "" {
        addresses := addresses + {endpoint};
      }
    }
    assert d.endpoints[..|d.endpoints|] == d.endpoints;
  }

  // ---- the snapshot ----

  datatype Snapshot = Snapshot(destinations: seq<Destination>, addresses: nat, observations: nat, failures: nat)

  function Read(m: Table, keys: seq<string>): (r: seq<Destination>)
    requires forall k :: k in keys ==> k in m
    ensures |r| == |keys|
  {
    if keys == [] then [] else Read(m, keys[..|keys| - 1]) + [m[keys[|keys| - 1]]]
  }

  predicate DestinationLe(a: Destination, b: Destination) {
    if a.host != b.host then StringLe(a.host, b.host)
    else if a.port != b.port then a.port < b.port
    else StringLe(a.mechanism, b.mechanism)
  }

  function SnapshotOf(split: string -> Option<string>, m: Table, keys: seq<string>): Snapshot
    requires forall k :: k in keys ==> k in m
  {
    Snapshot(SortBy(DestinationLe, Read(m, keys)), |AddressesAt(split, m, keys)|,
             SumOver(m, keys, ObservationsOf), SumOver(m, keys, FailureCountOf))
  }

  /** The keys of the table, each once, in some order. */
  ghost predicate Order(m: Table, keys: seq<string>) {
    NoRepetition(keys) && forall k :: k in keys <==> k in m
  }

  ghost predicate IsSnapshot(split: string -> Option<string>, m: Table, s: Snapshot) {
    exists keys :: Order(m, keys) && s == SnapshotOf(split, m, keys)
  }

  lemma ReadIsSnapshot(split: string -> Option<string>, m: Table, keys: seq<string>)
    requires Order(m, keys)
    ensures IsSnapshot(split, m, SnapshotOf(split, m, keys))
  {
  }

  /** `observationLocked`; keys is the order in which the map happens to be read. */
  method TakeSnapshot(split: string -> Option<string>, m: Table) returns (s: Snapshot, ghost keys: seq<string>)
    ensures Order(m, keys) && s == SnapshotOf(split, m, keys)
    ensures IsSnapshot(split, m, s)
  {
    var destinations, addresses, observations, failures := [], {}, 0, 0;
    keys := [];
    var left := m.Keys;
    while left != {}
      invariant left <= m.Keys && NoRepetition(keys)
      invariant forall k :: k in keys <==> k in m && k !in left
      invariant destinations == Read(m, keys) && addresses == AddressesAt(split, m, keys)
      invariant observations == SumOver(m, keys, ObservationsOf) && failures == SumOver(m, keys, FailureCountOf)
      decreases |left|
    {
      var key :| key in left;
      left := left - {key};
      assert (keys + [key])[..|keys|] == keys;
      destinations := destinations + [m[key]];
      observations := observations + m[key].observations;
      failures := failures + m[key].failures;
      addresses := Gather(split, m[key], addresses);
      keys := keys + [key];
    }
    s := Snapshot(SortBy(DestinationLe, destinations), |addresses|, observations, failures);
    ReadIsSnapshot(split, m, keys);
  }

  // ---- the order of reading ----

  /** Every destination is stored under its own host and port. */
  ghost predicate Keyed(lower: string -> string, m: Table) {
    forall k :: k in m ==> KeyOf(lower, m[k].host, m[k].port) == k
  }

  lemma {:induction false} TableIsKeyed(lower: string -> string, log: seq<Record>)
    ensures Keyed(lower, TableOf(lower, log))
  {
    if log != [] {
      TableIsKeyed(lower, log[..|log| - 1]);
    }
  }

  lemma DestinationLeIsOrder()
    ensures TotalPreorder(DestinationLe)
  {
    StringLeIsOrder();
    forall a, b, c | DestinationLe(a, b) && DestinationLe(b, c) ensures DestinationLe(a, c) {
      if a.host == c.host {
        assert a.host == b.host;
      }
    }
  }

  lemma {:induction false} ReadIs(m: Table, keys: seq<string>, d: Destination)
    requires forall k :: k in keys ==> k in m
    ensures d in Read(m, keys) <==> exists k :: k in keys && m[k] == d
  {
    if keys != [] {
      var front, last := keys[..|keys| - 1], keys[|keys| - 1];
      ReadIs(m, front, d);
      assert forall k :: k in keys <==> k in front || k == last by {
        assert keys == front + [last];
      }
    }
  }

  /** No two destinations are tied: they differ in host or port. */
  lemma DestinationsSeparate(lower: string -> string, m: Table, keys: seq<string>)
    requires Keyed(lower, m) && forall k :: k in keys ==> k in m
    ensures Separates(DestinationLe, Read(m, keys))
  {
    StringLeIsOrder();
    forall x, y | x in Read(m, keys) && y in Read(m, keys) && DestinationLe(x, y) && DestinationLe(y, x) ensures x == y {
      ReadIs(m, keys, x);
      ReadIs(m, keys, y);
      assert x.host == y.host && x.port == y.port;
    }
  }

  lemma {:induction false} ReadIsBag(m: Table, a: seq<string>, b: seq<string>)
    requires multiset(a) == multiset(b) && forall k :: k in a ==> k in m
    ensures (forall k :: k in b ==> k in m) && multiset(Read(m, a)) == multiset(Read(m, b))
  {
    SameElements(a, b);
    if a != [] {
      var front, x := a[..|a| - 1], a[|a| - 1];
      var c, d := TakeOut(a, b);
      assert a == front + [x] && forall k :: k in c + d ==> k in b;
      ReadIsBag(m, front, c + d);
      ReadMiddle(m, c, x, d);
    }
  }

  lemma ReadMiddle(m: Table, c: seq<string>, x: string, d: seq<string>)
    requires forall k :: k in c + [x] + d ==> k in m
    ensures forall k :: k in c + d ==> k in c + [x] + d
    ensures multiset(Read(m, c + [x] + d)) == multiset(Read(m, c + d)) + multiset{m[x]}
  {
    assert forall k :: k in c || k == x || k in d ==> k in c + [x] + d;
    ReadSplits(m, c + [x], d);
    ReadSplits(m, c, d);
    assert (c + [x])[..|c|] == c && (c + [x])[|c|] == x;
    WithoutMiddle(Read(m, c), m[x], Read(m, d));
  }

  lemma {:induction false} ReadSplits(m: Table, a: seq<string>, b: seq<string>)
    requires (forall k :: k in a ==> k in m) && forall k :: k in b ==> k in m
    ensures Read(m, a + b) == Read(m, a) + Read(m, b)
    decreases |b|
  {
    if b == [] {
      assert a + b == a;
    } else {
      var front, x := b[..|b| - 1], b[|b| - 1];
      ReadSplits(m, a, front);
      assert (a + b)[..|a + b| - 1] == a + front;
    }
  }

  lemma SameBag(a: seq<string>, b: seq<string>)
    requires NoRepetition(a) && NoRepetition(b) && forall k :: k in a <==> k in b
    ensures multiset(a) == multiset(b)
  {
    forall k ensures multiset(a)[k] == multiset(b)[k] {
      OnceEach(a, k);
      OnceEach(b, k);
    }
  }

  lemma {:induction false} OnceEach(a: seq<string>, k: string)
    requires NoRepetition(a)
    ensures multiset(a)[k] == if k in a then 1 else 0
  {
    if a != [] {
      var front, last := a[..|a| - 1], a[|a| - 1];
      OnceEach(front, k);
      assert a == front + [last];
    }
  }

  /** The destinations of a snapshot do not depend on the order in which the map was read. */
  lemma SnapshotOrderIsForgotten(lower: string -> string, log: seq<Record>, a: seq<string>, b: seq<string>)
    requires Order(TableOf(lower, log), a) && Order(TableOf(lower, log), b)
    ensures SortBy(DestinationLe, Read(TableOf(lower, log), a)) == SortBy(DestinationLe, Read(TableOf(lower, log), b))
  {
    var m := TableOf(lower, log);
    TableIsKeyed(lower, log);
    SameBag(a, b);
    ReadIsBag(m, a, b);
    DestinationLeIsOrder();
    DestinationsSeparate(lower, m, a);
    SortForgetsArrival(DestinationLe, Read(m, a), Read(m, b));
  }

  // ---- the addresses are those of the log ----

  lemma {:induction false} AddressesAtAre(split: string -> Option<string>, m: Table, keys: seq<string>, x: string)
    requires forall k :: k in keys ==> k in m
    ensures x in AddressesAt(split, m, keys) <==> exists k :: k in keys && x in AddressesOf(split, m[k])
  {
    if keys != [] {
      var front, last := keys[..|keys| - 1], keys[|keys| - 1];
      AddressesAtAre(split, m, front, x);
      assert forall k :: k in keys <==> k in front || k == last by {
        assert keys == front + [last];
      }
    }
  }

  /** The record names x as a candidate, or connected to it. */
  predicate Names(split: string -> Option<string>, r: Record, x: string) {
    (x != "" && x in r.candidates) || (r.endpoint != "" && HostOf(split, r.endpoint) == x)
  }

  lemma AgreedAddresses(split: string -> Option<string>, d: Destination, log: seq<Record>, x: string)
    requires Agrees(d, log)
    ensures x in AddressesOf(split, d) <==> exists r :: r in log && Names(split, r, x)
  {
    DistinctIs(log, CandidatesOf);
    DistinctIs(log, EndpointsOf);
    assert x in d.candidates <==> Mentions(log, CandidatesOf, x);
    if e :| e in d.endpoints && (split(e).Some? || e != "") && HostOf(split, e) == x {
      assert Mentions(log, EndpointsOf, e);
      var r :| r in log && e in EndpointsOf(r);
      assert Names(split, r, x);
    }
    if r :| r in log && Names(split, r, x) {
      NamedIsThere(split, d, log, r, x);
    }
  }

  lemma NamedIsThere(split: string -> Option<string>, d: Destination, log: seq<Record>, r: Record, x: string)
    requires Agrees(d, log) && r in log && Names(split, r, x)
    ensures x in AddressesOf(split, d)
  {
    DistinctIs(log, CandidatesOf);
    DistinctIs(log, EndpointsOf);
    if x != "" && x in r.candidates {
      assert x in CandidatesOf(r);
      assert Mentions(log, CandidatesOf, x);
    } else {
      assert r.endpoint in EndpointsOf(r);
      assert Mentions(log, EndpointsOf, r.endpoint);
      assert r.endpoint in d.endpoints;
    }
  }

  lemma {:induction false} OfIs(lower: string -> string, log: seq<Record>, key: string, r: Record)
    ensures r in Of(lower, log, key) <==> r in log && Accepted(r) && RecordKey(lower, r) == key
  {
    if log != [] {
      var front, last := log[..|log| - 1], log[|log| - 1];
      OfIs(lower, front, key, r);
      assert log == front + [last];
      OfAppend(lower, front, last, key);
    }
  }

  /** The addresses of a snapshot are exactly those that accepted records name. */
  lemma SnapshotAddresses(lower: string -> string, split: string -> Option<string>, log: seq<Record>, keys: seq<string>, x: string)
    requires Order(TableOf(lower, log), keys)
    ensures x in AddressesAt(split, TableOf(lower, log), keys) <==> exists r :: r in log && Accepted(r) && Names(split, r, x)
  {
    var m := TableOf(lower, log);
    AddressesAtAre(split, m, keys, x);
    if k :| k in keys && x in AddressesOf(split, m[k]) {
      TableAgrees(lower, log, k);
      AgreedAddresses(split, m[k], Of(lower, log, k), x);
      var r :| r in Of(lower, log, k) && Names(split, r, x);
      OfIs(lower, log, k, r);
    }
    if r :| r in log && Accepted(r) && Names(split, r, x) {
      var k := RecordKey(lower, r);
      OfIs(lower, log, k, r);
      TableAgrees(lower, log, k);
      AgreedAddresses(split, m[k], Of(lower, log, k), x);
    }
  }
}
