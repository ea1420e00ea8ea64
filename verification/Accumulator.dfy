/**
 What a browser capture remembers of its destinations (internal/capture/capture.go:433-569): an
 accumulator per destination, updated record by record, and the snapshot made of them.  The
 accumulator is compared with the log of all records.
 */
module Accumulators {
  import opened Decimal
  import opened Lists
  import opened Orders

  const MAX_FAILURE_REASONS: nat := 16

  datatype Record = Record(host: string, authority: string, port: nat, mechanism: string, candidates: seq<string>,
                           endpoint: string, address: string, outcome: string, failure: string, attempted: bool, at: int)

  datatype Destination = Destination(host: string, authority: string, port: nat, mechanism: string, mechanisms: seq<string>,
                                     candidates: seq<string>, endpoints: seq<string>, endpoint: string, address: string,
                                     outcome: string, failureReason: string, failureReasons: seq<string>,
                                     observations: nat, connections: nat, successes: nat, failures: nat,
                                     firstSeen: int, lastSeen: int)

  const CONNECTED := "connected"
  const MIXED := "mixed"

  predicate Accepted(r: Record) {
    r.host != "" && r.port != 0
  }

  /** `destinationKey`; `lower` is `strings.ToLower`. */
  function KeyOf(lower: string -> string, host: string, port: nat): string {
    lower(host) + ":" + Dec(port)
  }

  function RecordKey(lower: string -> string, r: Record): string {
    KeyOf(lower, r.host, r.port)
  }

  // ---- one record ----

  function First16(values: seq<string>): seq<string> {
    if |values| >= MAX_FAILURE_REASONS then values[..MAX_FAILURE_REASONS] else values
  }

  function Fresh(r: Record): Destination {
    Destination(r.host, r.authority, r.port, r.mechanism, [], [], [], "", "", "", "", [], 0, 0, 0, 0, r.at, r.at)
  }

  function OutcomeOf(successes: nat, failures: nat, latest: string): string {
    if successes > 0 && failures > 0 then MIXED else if successes > 0 then CONNECTED else latest
  }

  /** What a record says about the destination ... */
  function Described(d: Destination, r: Record): Destination {
    d.(lastSeen := r.at, observations := d.observations + 1,
       mechanism := if d.mechanism == "" then r.mechanism else d.mechanism,
       mechanisms := Added(d.mechanisms, r.mechanism),
       candidates := AllAdded(d.candidates, r.candidates),
       connections := d.connections + if r.attempted then 1 else 0,
       endpoints := Added(d.endpoints, r.endpoint),
       endpoint := if r.endpoint != "" then r.endpoint else d.endpoint,
       address := if r.endpoint != "" then r.address else d.address)
  }

  /** ... and how it went. */
  function Concluded(d: Destination, r: Record): Destination {
    var failed := r.failure != "";
    var successes := d.successes + if failed then 0 else 1;
    var failures := d.failures + if failed then 1 else 0;
    d.(failureReasons := if failed then First16(Added(d.failureReasons, r.failure)) else d.failureReasons,
       failureReason := if failed && d.failureReason == "" then r.failure else d.failureReason,
       successes := successes, failures := failures, outcome := OutcomeOf(successes, failures, r.outcome))
  }

  function Accumulated(d: Destination, r: Record): Destination {
    Concluded(Described(d, r), r)
  }

  type Table = map<string, Destination>

  function Recorded(lower: string -> string, m: Table, r: Record): Table {
    if !Accepted(r) then m
    else
      var key := RecordKey(lower, r);
      m[key := Accumulated(if key in m then m[key] else Fresh(r), r)]
  }

  function TableOf(lower: string -> string, log: seq<Record>): Table {
    if log == [] then map[] else Recorded(lower, TableOf(lower, log[..|log| - 1]), log[|log| - 1])
  }

  // ---- the object ----

  class CaptureSession {
    const lower: string -> string
    var destinations: Table

    constructor (lower: string -> string)
      ensures this.lower == lower && destinations == map[]
    {
      this.lower := lower;
      destinations := map[];
    }

    static method AppendUnique(values: seq<string>, value: string) returns (result: seq<string>)
      ensures result == Added(values, value)
    {
      if value == "" {
        return values;
      }
      for i := 0 to |values|
        invariant value !in values[..i]
      {
        if values[i] == value {
          return values;
        }
      }
      assert values[..|values|] == values;
      result := values + [value];
    }

    static method AppendAll(values: seq<string>, more: seq<string>) returns (result: seq<string>)
      ensures result == AllAdded(values, more)
    {
      result := values;
      for i := 0 to |more|
        invariant result == AllAdded(values, more[..i])
      {
        assert more[..i + 1][..i] == more[..i];
        result := AppendUnique(result, more[i]);
      }
      assert more[..|more|] == more;
    }

    static method Describe(before: Destination, r: Record) returns (d: Destination)
      ensures d == Described(before, r)
    {
      d := before.(lastSeen := r.at, observations := before.observations + 1);
      if d.mechanism == "" {
        d := d.(mechanism := r.mechanism);
      }
      var mechanisms := AppendUnique(d.mechanisms, r.mechanism);
      var candidates := AppendAll(d.candidates, r.candidates);
      d := d.(mechanisms := mechanisms, candidates := candidates);
      if r.attempted {
        d := d.(connections := d.connections + 1);
      }
      if r.endpoint != "" {
        var endpoints := AppendUnique(d.endpoints, r.endpoint);
        d := d.(endpoints := endpoints, endpoint := r.endpoint, address := r.address);
      }
    }

    static method Conclude(before: Destination, r: Record) returns (d: Destination)
      ensures d == Concluded(before, r)
    {
      d := before;
      if r.failure != "" {
        var reasons := AppendUnique(d.failureReasons, r.failure);
        if d.failureReason == "" {
          d := d.(failureReason := r.failure);
        }
        if |reasons| >= MAX_FAILURE_REASONS {
          reasons := reasons[..MAX_FAILURE_REASONS];
        }
        d := d.(failureReasons := reasons, failures := d.failures + 1);
      } else {
        d := d.(successes := d.successes + 1);
      }
      if d.successes > 0 && d.failures > 0 {
        d := d.(outcome := MIXED);
      } else if d.successes > 0 {
        d := d.(outcome := CONNECTED);
      } else {
        d := d.(outcome := r.outcome);
      }
    }

    /** `record`. */
    method Record(r: Record)
      modifies this`destinations
      ensures destinations == Recorded(lower, old(destinations), r)
    {
      if r.host == "" || r.port == 0 {
        return;
      }
      var key := KeyOf(lower, r.host, r.port);
      var d := Describe(if key in destinations then destinations[key] else Fresh(r), r);
      d := Conclude(d, r);
      destinations := destinations[key := d];
    }
  }

  // ---- the log ----

  predicate Attempted(r: Record) { r.attempted }

  predicate Succeeded(r: Record) { r.failure == "" }

  predicate FailedRecord(r: Record) { r.failure != "" }

  predicate Any(r: Record) { true }

  function AcceptedAnd(p: Record -> bool): Record -> bool {
    r => Accepted(r) && p(r)
  }

  function MechanismOf(r: Record): string { r.mechanism }

  function FailureOf(r: Record): string { r.failure }

  function MechanismsOf(r: Record): seq<string> { [r.mechanism] }

  function CandidatesOf(r: Record): seq<string> { r.candidates }

  function EndpointsOf(r: Record): seq<string> { [r.endpoint] }

  function FailuresOf(r: Record): seq<string> { [r.failure] }

  function ObservationsOf(d: Destination): nat { d.observations }

  function FailureCountOf(d: Destination): nat { d.failures }

  /** The accepted records of one destination, in order. */
  function Of(lower: string -> string, log: seq<Record>, key: string): seq<Record> {
    if log == [] then [] else
    var r := log[|log| - 1];
    Of(lower, log[..|log| - 1], key) + if Accepted(r) && RecordKey(lower, r) == key then [r] else []
  }

  /** The different non-empty values of a field, in order of first appearance. */
  function Distinct(log: seq<Record>, field: Record -> seq<string>): seq<string> {
    if log == [] then [] else AllAdded(Distinct(log[..|log| - 1], field), field(log[|log| - 1]))
  }

  /** The first non-empty value of a field. */
  function FirstOf(log: seq<Record>, field: Record -> string): string {
    if log == [] then "" else
    var x := FirstOf(log[..|log| - 1], field);
    if x != "" then x else field(log[|log| - 1])
  }

  /** The record that last connected, if any. */
  function LastConnected(log: seq<Record>): (string, string) {
    if log == [] then ("", "")
    else if log[|log| - 1].endpoint != "" then (log[|log| - 1].endpoint, log[|log| - 1].address)
    else LastConnected(log[..|log| - 1])
  }

  /** What the records of one destination amount to, field by field. */
  ghost predicate Agrees(d: Destination, log: seq<Record>) {
    && log != []
    && d.host == log[0].host && d.authority == log[0].authority && d.port == log[0].port
    && d.firstSeen == log[0].at && d.lastSeen == log[|log| - 1].at
    && d.observations == |log|
    && d.connections == Count(log, Attempted)
    && d.successes == Count(log, Succeeded)
    && d.failures == Count(log, FailedRecord)
    && d.outcome == OutcomeOf(d.successes, d.failures, log[|log| - 1].outcome)
    && d.mechanism == FirstOf(log, MechanismOf)
    && d.failureReason == FirstOf(log, FailureOf)
    && d.mechanisms == Distinct(log, MechanismsOf)
    && d.candidates == Distinct(log, CandidatesOf)
    && d.endpoints == Distinct(log, EndpointsOf)
    && d.failureReasons == First16(Distinct(log, FailuresOf))
    && (d.endpoint, d.address) == LastConnected(log)
  }

  // ---- one more record ----

  lemma DistinctAppend(log: seq<Record>, r: Record, field: Record -> seq<string>)
    ensures Distinct(log + [r], field) == AllAdded(Distinct(log, field), field(r))
  {
    assert (log + [r])[..|log|] == log;
  }

  lemma FirstAppend(log: seq<Record>, r: Record, field: Record -> string)
    ensures FirstOf(log + [r], field) == if FirstOf(log, field) != "" then FirstOf(log, field) else field(r)
  {
    assert (log + [r])[..|log|] == log;
  }

  lemma LastAppend(log: seq<Record>, r: Record)
    ensures LastConnected(log + [r]) == if r.endpoint != "" then (r.endpoint, r.address) else LastConnected(log)
  {
    assert (log + [r])[..|log|] == log;
  }

  lemma AddOne(values: seq<string>, value: string)
    ensures AllAdded(values, [value]) == Added(values, value)
  {
    assert [value][..0] == [];
  }

  /** Cutting after 16 at every step is cutting once at the end. */
  lemma CutOnce(values: seq<string>, value: string)
    ensures First16(Added(First16(values), value)) == First16(Added(values, value))
    ensures First16(Added(values, "")) == First16(values)
  {
  }

  lemma CountsAgree(d: Destination, log: seq<Record>, r: Record)
    requires Agrees(d, log)
    ensures var e := Accumulated(d, r);
            && e.connections == Count(log + [r], Attempted)
            && e.successes == Count(log + [r], Succeeded)
            && e.failures == Count(log + [r], FailedRecord)
  {
    CountAppend(log, r, Attempted);
    CountAppend(log, r, Succeeded);
    CountAppend(log, r, FailedRecord);
  }

  lemma ListsAgree(d: Destination, log: seq<Record>, r: Record)
    requires Agrees(d, log)
    ensures var e := Accumulated(d, r);
            && e.mechanisms == Distinct(log + [r], MechanismsOf)
            && e.candidates == Distinct(log + [r], CandidatesOf)
            && e.endpoints == Distinct(log + [r], EndpointsOf)
            && e.failureReasons == First16(Distinct(log + [r], FailuresOf))
  {
    DistinctAppend(log, r, MechanismsOf);
    DistinctAppend(log, r, CandidatesOf);
    DistinctAppend(log, r, EndpointsOf);
    DistinctAppend(log, r, FailuresOf);
    AddOne(d.mechanisms, r.mechanism);
    AddOne(d.endpoints, r.endpoint);
    AddOne(Distinct(log, FailuresOf), r.failure);
    CutOnce(Distinct(log, FailuresOf), r.failure);
  }

  lemma OneMoreAgrees(d: Destination, log: seq<Record>, r: Record)
    requires Agrees(d, log)
    ensures Agrees(Accumulated(d, r), log + [r])
  {
    CountsAgree(d, log, r);
    ListsAgree(d, log, r);
    FirstAppend(log, r, MechanismOf);
    FirstAppend(log, r, FailureOf);
    LastAppend(log, r);
  }

  lemma FirstAgrees(r: Record)
    ensures Agrees(Accumulated(Fresh(r), r), [r])
  {
    assert [] + [r] == [r];
    CountAppend([], r, Attempted);
    CountAppend([], r, Succeeded);
    CountAppend([], r, FailedRecord);
    DistinctAppend([], r, MechanismsOf);
    DistinctAppend([], r, CandidatesOf);
    DistinctAppend([], r, EndpointsOf);
    DistinctAppend([], r, FailuresOf);
    FirstAppend([], r, MechanismOf);
    FirstAppend([], r, FailureOf);
    LastAppend([], r);
    AddOne([], r.mechanism);
    AddOne([], r.endpoint);
    AddOne([], r.failure);
  }

  // ---- the accumulator agrees with the log ----

  lemma OfAppend(lower: string -> string, log: seq<Record>, r: Record, key: string)
    ensures Of(lower, log + [r], key)
            == if Accepted(r) && RecordKey(lower, r) == key then Of(lower, log, key) + [r] else Of(lower, log, key)
  {
    assert (log + [r])[..|log|] == log;
  }

  lemma {:induction false} InOf(lower: string -> string, log: seq<Record>, r: Record)
    requires r in log && Accepted(r)
    ensures r in Of(lower, log, RecordKey(lower, r))
  {
    var front, last := log[..|log| - 1], log[|log| - 1];
    assert log == front + [last];
    if r != last {
      InOf(lower, front, r);
    }
  }

  ghost predicate EntryAgrees(lower: string -> string, m: Table, log: seq<Record>, key: string) {
    && (key in m <==> Of(lower, log, key) != [])
    && (key in m ==> Agrees(m[key], Of(lower, log, key)))
  }

  lemma RecordedElsewhere(lower: string -> string, m: Table, r: Record, key: string)
    requires !(Accepted(r) && RecordKey(lower, r) == key)
    ensures key in Recorded(lower, m, r) <==> key in m
    ensures key in m ==> Recorded(lower, m, r)[key] == m[key]
  {
  }

  lemma AgreesHere(d: Destination, before: seq<Record>, r: Record, known: bool)
    requires known ==> Agrees(d, before)
    requires !known ==> d == Fresh(r) && before == []
    ensures Agrees(Accumulated(d, r), before + [r])
  {
    if known {
      OneMoreAgrees(d, before, r);
    } else {
      FirstAgrees(r);
      assert [] + [r] == [r];
    }
  }

  lemma StepAgrees(lower: string -> string, m: Table, log: seq<Record>, r: Record, key: string)
    requires EntryAgrees(lower, m, log, key)
    ensures EntryAgrees(lower, Recorded(lower, m, r), log + [r], key)
  {
    OfAppend(lower, log, r, key);
    if Accepted(r) && RecordKey(lower, r) == key {
      AgreesHere(if key in m then m[key] else Fresh(r), Of(lower, log, key), r, key in m);
    } else {
      RecordedElsewhere(lower, m, r, key);
    }
  }

  /** For any sequence of records, every destination is what its accepted records amount to. */
  lemma {:induction false} TableAgrees(lower: string -> string, log: seq<Record>, key: string)
    ensures EntryAgrees(lower, TableOf(lower, log), log, key)
  {
    if log != [] {
      var front, r := log[..|log| - 1], log[|log| - 1];
      TableAgrees(lower, front, key);
      StepAgrees(lower, TableOf(lower, front), front, r, key);
      assert log == front + [r];
    }
  }

  lemma {:induction false} EveryRecordCounts(log: seq<Record>)
    ensures Count(log, Succeeded) + Count(log, FailedRecord) == |log|
  {
    if log != [] {
      var front, r := log[..|log| - 1], log[|log| - 1];
      EveryRecordCounts(front);
      assert log == front + [r];
      CountAppend(front, r, Succeeded);
      CountAppend(front, r, FailedRecord);
    }
  }

  /** Observations are successes plus failures, and the outcome is mixed exactly when there are both. */
  lemma OutcomeIsMixedIff(lower: string -> string, log: seq<Record>, key: string)
    requires key in TableOf(lower, log) && forall r :: r in log ==> r.outcome != MIXED
    ensures var d, records := TableOf(lower, log)[key], Of(lower, log, key);
            && d.observations == |records| == d.successes + d.failures
            && (d.outcome == MIXED <==> (exists r :: r in records && Succeeded(r)) && exists r :: r in records && FailedRecord(r))
  {
    var records := Of(lower, log, key);
    TableAgrees(lower, log, key);
    EveryRecordCounts(records);
    CountZeroIff(records, Succeeded);
    CountZeroIff(records, FailedRecord);
    assert records[|records| - 1] in records;
    assert CONNECTED != MIXED;
  }

  // ---- lists without repetition ----

  ghost predicate Mentions(log: seq<Record>, field: Record -> seq<string>, x: string) {
    x != "" && exists r :: r in log && x in field(r)
  }

  /** The lists of an accumulator hold each non-empty value of the log once. */
  lemma {:induction false} DistinctIs(log: seq<Record>, field: Record -> seq<string>)
    ensures NoRepetition(Distinct(log, field)) && "" !in Distinct(log, field)
    ensures forall x :: x in Distinct(log, field) <==> Mentions(log, field, x)
  {
    if log != [] {
      var front, r := log[..|log| - 1], log[|log| - 1];
      DistinctIs(front, field);
      AllAddedIs(Distinct(front, field), field(r));
      assert log == front + [r];
      assert forall y :: y in log <==> y in front || y == r;
    }
  }

  // ---- the snapshot ----

  function SumOver(m: Table, keys: seq<string>, f: Destination -> nat): nat
    requires forall k :: k in keys ==> k in m
  {
    if keys == [] then 0 else SumOver(m, keys[..|keys| - 1], f) + f(m[keys[|keys| - 1]])
  }

  /** How many of the keys a record has: one, if its key is among them. */
  function Hits(lower: string -> string, keys: seq<string>, r: Record): nat {
    if keys == [] then 0
    else Hits(lower, keys[..|keys| - 1], r) + if Accepted(r) && RecordKey(lower, r) == keys[|keys| - 1] then 1 else 0
  }

  lemma {:induction false} HitsOnce(lower: string -> string, keys: seq<string>, r: Record)
    requires NoRepetition(keys)
    ensures Hits(lower, keys, r) == if Accepted(r) && RecordKey(lower, r) in keys then 1 else 0
  {
    if keys != [] {
      var front, key := keys[..|keys| - 1], keys[|keys| - 1];
      HitsOnce(lower, front, r);
      assert keys == front + [key];
      assert key !in front;
    }
  }

  function Counts(lower: string -> string, keys: seq<string>, log: seq<Record>, p: Record -> bool): nat {
    if keys == [] then 0 else Counts(lower, keys[..|keys| - 1], log, p) + Count(Of(lower, log, keys[|keys| - 1]), p)
  }

  lemma {:induction false} CountsAppend(lower: string -> string, keys: seq<string>, log: seq<Record>, r: Record, p: Record -> bool)
    ensures Counts(lower, keys, log + [r], p) == Counts(lower, keys, log, p) + if p(r) then Hits(lower, keys, r) else 0
  {
    if keys != [] {
      var front, key := keys[..|keys| - 1], keys[|keys| - 1];
      CountsAppend(lower, front, log, r, p);
      OfAppend(lower, log, r, key);
      if Accepted(r) && RecordKey(lower, r) == key {
        CountAppend(Of(lower, log, key), r, p);
      } else {
        assert Of(lower, log + [r], key) == Of(lower, log, key);
      }
    }
  }

  lemma {:induction false} NoCounts(lower: string -> string, keys: seq<string>, p: Record -> bool)
    ensures Counts(lower, keys, [], p) == 0
  {
    if keys != [] {
      NoCounts(lower, keys[..|keys| - 1], p);
    }
  }

  /** Adding up over all keys is counting in the log. */
  lemma {:induction false} CountsAddUp(lower: string -> string, keys: seq<string>, log: seq<Record>, p: Record -> bool)
    requires NoRepetition(keys) && forall r :: r in log && Accepted(r) ==> RecordKey(lower, r) in keys
    ensures Counts(lower, keys, log, p) == Count(log, AcceptedAnd(p))
  {
    if log == [] {
      NoCounts(lower, keys, p);
    } else {
      var front, r := log[..|log| - 1], log[|log| - 1];
      assert log == front + [r];
      CountsAddUp(lower, keys, front, p);
      CountsAppend(lower, keys, front, r, p);
      HitsOnce(lower, keys, r);
      CountAppend(front, r, AcceptedAnd(p));
      assert r in log;
    }
  }

  lemma {:induction false} SumsAreCounts(lower: string -> string, log: seq<Record>, keys: seq<string>)
    requires forall k :: k in keys ==> k in TableOf(lower, log)
    ensures SumOver(TableOf(lower, log), keys, ObservationsOf) == Counts(lower, keys, log, Any)
    ensures SumOver(TableOf(lower, log), keys, FailureCountOf) == Counts(lower, keys, log, FailedRecord)
  {
    if keys != [] {
      var front, key := keys[..|keys| - 1], keys[|keys| - 1];
      SumsAreCounts(lower, log, front);
      assert key in keys;
      TableAgrees(lower, log, key);
      AllPass(Of(lower, log, key));
    }
  }

  lemma {:induction false} AllPass(log: seq<Record>)
    ensures Count(log, Any) == |log|
  {
    if log != [] {
      var front, r := log[..|log| - 1], log[|log| - 1];
      AllPass(front);
      assert log == front + [r];
      CountAppend(front, r, Any);
    }
  }

  lemma EveryKeyIsRead(lower: string -> string, log: seq<Record>, keys: seq<string>)
    requires forall k :: k in keys <==> k in TableOf(lower, log)
    ensures forall r :: r in log && Accepted(r) ==> RecordKey(lower, r) in keys
  {
    forall r | r in log && Accepted(r) ensures RecordKey(lower, r) in keys {
      TableAgrees(lower, log, RecordKey(lower, r));
      InOf(lower, log, r);
    }
  }

  /** The totals of a snapshot are those of the log, in whatever order the map was read. */
  lemma SnapshotObservations(lower: string -> string, log: seq<Record>, keys: seq<string>)
    requires NoRepetition(keys) && forall k :: k in keys <==> k in TableOf(lower, log)
    ensures SumOver(TableOf(lower, log), keys, ObservationsOf) == Count(log, Accepted)
  {
    EveryKeyIsRead(lower, log, keys);
    SumsAreCounts(lower, log, keys);
    CountsAddUp(lower, keys, log, Any);
    forall r ensures AcceptedAnd(Any)(r) == Accepted(r) {
      assert Any(r);
    }
    CountAgrees(log, AcceptedAnd(Any), Accepted);
  }

  lemma SnapshotFailures(lower: string -> string, log: seq<Record>, keys: seq<string>)
    requires NoRepetition(keys) && forall k :: k in keys <==> k in TableOf(lower, log)
    ensures SumOver(TableOf(lower, log), keys, FailureCountOf) == Count(log, AcceptedAnd(FailedRecord))
  {
    EveryKeyIsRead(lower, log, keys);
    SumsAreCounts(lower, log, keys);
    CountsAddUp(lower, keys, log, FailedRecord);
  }
}
