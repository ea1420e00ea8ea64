/**
 What the destinations of a capture say of the records (internal/capture/capture.go:433-569), in
 plain terms: which records count, what is one destination, how it went, in which order it stands.
 */
module AccumulatorFacts {
  import opened Decimal
  import opened Lists
  import opened Options
  import opened Orders
  import opened Accumulators
  import opened CaptureSnapshots

  // ---- which records count ----

  /** A record without a host or a port changes nothing; any other adds one observation to its destination. */
  lemma RecordCountsIff(lower: string -> string, log: seq<Record>, r: Record)
    ensures var (before, now) := (TableOf(lower, log), TableOf(lower, log + [r]));
            if r.host == "" || r.port == 0 then now == before
            else
              var key := KeyOf(lower, r.host, r.port);
              && now.Keys == before.Keys + {key}
              && now[key].observations == 1 + (if key in before then before[key].observations else 0)
              && forall k :: k in before && k != key ==> now[k] == before[k]
  {
    assert (log + [r])[..|log|] == log;
    OneMoreObservation(lower, TableOf(lower, log), r);
  }

  lemma OneMoreObservation(lower: string -> string, m: Table, r: Record)
    ensures var now := Recorded(lower, m, r);
            if r.host == "" || r.port == 0 then now == m
            else
              var key := KeyOf(lower, r.host, r.port);
              && now.Keys == m.Keys + {key}
              && now[key].observations == 1 + (if key in m then m[key].observations else 0)
              && forall k :: k in m && k != key ==> now[k] == m[k]
  {
  }

  // ---- what is one destination ----

  ghost predicate LastColonAt(s: string, k: nat) {
    k < |s| && s[k] == ':' && forall i :: k < i < |s| ==> s[i] != ':'
  }

  lemma LastColon(p: string, n: nat)
    ensures LastColonAt(p + ":" + Dec(n), |p|)
  {
    var s := p + ":" + Dec(n);
    forall i | |p| < i < |s| ensures s[i] != ':' {
      assert s[i] == Dec(n)[i - |p| - 1];
    }
  }

  lemma ColonSplit(p: string, m: nat, q: string, n: nat)
    requires p + ":" + Dec(m) == q + ":" + Dec(n)
    ensures p == q && m == n
  {
    LastColon(p, m);
    LastColon(q, n);
    var a, b := p + ":" + Dec(m), q + ":" + Dec(n);
    assert |p| == |q|;
    assert p == a[..|p|] && q == b[..|q|];
    assert Dec(m) == a[|p| + 1..] && Dec(n) == b[|q| + 1..];
    DecInjective(m, n);
  }

  /** Records belong to one destination exactly when their hosts agree but for case, and their ports agree. */
  lemma SameDestinationIff(lower: string -> string, r: Record, q: Record)
    ensures RecordKey(lower, r) == RecordKey(lower, q) <==> lower(r.host) == lower(q.host) && r.port == q.port
  {
    if RecordKey(lower, r) == RecordKey(lower, q) {
      ColonSplit(lower(r.host), r.port, lower(q.host), q.port);
    }
  }

  // ---- how it went ----

  /** Mixed if some record succeeded and some failed, connected if none failed, and else as the last one ended. */
  lemma OutcomeIs(lower: string -> string, log: seq<Record>, key: string)
    requires key in TableOf(lower, log)
    ensures var d, records := TableOf(lower, log)[key], Of(lower, log, key);
            && records != []
            && d.outcome ==
                 if exists r :: r in records && r.failure == "" then
                   if exists r :: r in records && r.failure != "" then "mixed" else "connected"
                 else records[|records| - 1].outcome
  {
    var records := Of(lower, log, key);
    TableAgrees(lower, log, key);
    CountZeroIff(records, Succeeded);
    CountZeroIff(records, FailedRecord);
    SomeSucceeded(records);
  }

  lemma SomeSucceeded(records: seq<Record>)
    ensures (exists r :: r in records && r.failure == "") <==> exists i :: 0 <= i < |records| && Succeeded(records[i])
    ensures (exists r :: r in records && r.failure != "") <==> exists i :: 0 <= i < |records| && FailedRecord(records[i])
  {
    if r :| r in records && r.failure == "" {
      var i :| 0 <= i < |records| && records[i] == r;
      assert Succeeded(records[i]);
    }
    if r :| r in records && r.failure != "" {
      var i :| 0 <= i < |records| && records[i] == r;
      assert FailedRecord(records[i]);
    }
  }

  /** At most sixteen reasons are kept: all different ones, or the first sixteen of them. */
  lemma ReasonsAreCut(lower: string -> string, log: seq<Record>, key: string)
    requires key in TableOf(lower, log)
    ensures var kept, all := TableOf(lower, log)[key].failureReasons, Distinct(Of(lower, log, key), FailuresOf);
            |kept| <= 16 && kept <= all && (|all| <= 16 ==> kept == all) && (|all| > 16 ==> |kept| == 16)
  {
    TableAgrees(lower, log, key);
  }

  // ---- in which order they stand ----

  ghost predicate StandsBefore(a: Destination, b: Destination) {
    && StringLe(a.host, b.host)
    && (a.host == b.host ==> a.port <= b.port)
    && (a.host == b.host && a.port == b.port ==> StringLe(a.mechanism, b.mechanism))
  }

  lemma LeStandsBefore(a: Destination, b: Destination)
    requires DestinationLe(a, b)
    ensures StandsBefore(a, b)
  {
    StringLeIsOrder();
  }

  /** By host, then port, then mechanism. */
  lemma SnapshotIsOrdered(split: string -> Option<string>, m: Table, keys: seq<string>, i: nat, j: nat)
    requires (forall k :: k in keys ==> k in m) && i < j < |SnapshotOf(split, m, keys).destinations|
    ensures StandsBefore(SnapshotOf(split, m, keys).destinations[i], SnapshotOf(split, m, keys).destinations[j])
  {
    DestinationLeIsOrder();
    SortBySorted(DestinationLe, Read(m, keys));
    LeStandsBefore(SortBy(DestinationLe, Read(m, keys))[i], SortBy(DestinationLe, Read(m, keys))[j]);
  }

  /** ... and they are the stored ones, each once. */
  lemma SnapshotHoldsAll(split: string -> Option<string>, m: Table, keys: seq<string>, d: Destination)
    requires forall k :: k in keys <==> k in m
    ensures d in SnapshotOf(split, m, keys).destinations <==> exists k :: k in m && m[k] == d
    ensures |SnapshotOf(split, m, keys).destinations| == |keys|
  {
    ReadIs(m, keys, d);
    SameElements(Read(m, keys), SortBy(DestinationLe, Read(m, keys)));
  }
}
