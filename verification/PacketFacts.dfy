/**
 What may be concluded from packets: nothing negative from a capture that lost something, positive
 outcomes from the earliest matching answer only, and nothing from the order of arrival.
 */
module PacketFacts {
  import opened EtwCaptures
  import opened Lists
  import opened Orders
  import opened Packets
  import opened PacketFlows

  // ---- negative conclusions ----

  predicate Negative(o: Outcome) {
    o.NoMatchingResponse? || o.ProbeNotEmitted?
  }

  lemma MissingOnlyIfMayBe(env: Env, p: Probe, tuple: Tuple, s: seq<Observation>)
    ensures !Shown(env, p, tuple, false, s).outcome.ProbeNotEmitted?
  {
  }

  /** What an available capture is. */
  lemma AvailableIff(input: Input)
    ensures StatusOf(input).Available? <==>
              && input.capture.complete && input.capture.eventsLost == 0 && input.capture.error == "" && !input.capture.cancelled
              && !input.cancelled && input.startError.NoFailure? && input.stopError.NoFailure?
  {
  }

  lemma EvidenceCases(env: Env, input: Input)
    ensures StatusOf(input).Available? ==>
              EvidenceOf(env, input) == Shown(env, input.probe, input.tuple, MayBeMissing(env, input),
                                              RelevantObservations(env, input.probe, input.tuple, input.capture.observations))
    ensures !StatusOf(input).Available? ==>
              EvidenceOf(env, input) == Blank(StatusOf(input)).(outcome := if StatusOf(input).StatusCancelled? then OutcomeCancelled else CaptureUnavailable)
  {
  }

  /** A negative outcome needs a complete capture without loss, failure or cancellation. */
  lemma NegativeNeedsCompleteCapture(env: Env, input: Input)
    requires Negative(EvidenceOf(env, input).outcome)
    ensures input.capture.complete && input.capture.eventsLost == 0 && input.capture.error == "" && !input.capture.cancelled
    ensures !input.cancelled && input.startError.NoFailure? && input.stopError.NoFailure?
    ensures EvidenceOf(env, input).outcome.ProbeNotEmitted? ==> MayBeMissing(env, input)
  {
    EvidenceCases(env, input);
    AvailableIff(input);
    MissingOnlyIfMayBe(env, input.probe, input.tuple,
                       RelevantObservations(env, input.probe, input.tuple, input.capture.observations));
  }

  /** What `Stop` reports about the records it consumed. */
  ghost predicate Reports(scope: Scope, rs: seq<Record>, capture: CaptureResult) {
    && capture.observations == AllBounded(scope, rs).observations
    && (capture.complete ==> AllBounded(scope, rs).eventsLost == 0 && AllBounded(scope, rs).parseErrors == 0)
  }

  /**
   So for any events with any bytes: a negative outcome is what a consumer without caps, to which
   every event was decodable, would have given as well.
   */
  lemma NegativeIsUncapped(env: Env, input: Input, scope: Scope, rs: seq<Record>)
    requires Reports(scope, rs, input.capture)
    requires Negative(EvidenceOf(env, input).outcome)
    ensures AllDecodable(scope, rs)
    ensures EvidenceOf(env, input.(capture := input.capture.(observations := AllUnbounded(scope, rs).observations))) == EvidenceOf(env, input)
  {
    NegativeNeedsCompleteCapture(env, input);
    LosslessIsUnbounded(scope, rs);
    assert input.capture.(observations := AllUnbounded(scope, rs).observations) == input.capture;
  }

  // ---- mates ----

  /** Some emission pairs with the response. */
  lemma MateIff(emissions: seq<Observation>, r: Observation, pair: (Observation, Observation) -> bool)
    ensures Mate(emissions, r, pair) < |emissions| <==> exists e :: e in emissions && pair(e, r)
  {
    if e :| e in emissions && pair(e, r) {
      var j :| 0 <= j < |emissions| && emissions[j] == e;
      assert !(j < Mate(emissions, r, pair));
    }
  }

  // ---- TCP ----

  predicate IsTcpEmission(tuple: Tuple, o: Observation) {
    o.kind.OutboundSyn? && (tuple.localPort == 0 || o.sourcePort == tuple.localPort || o.localPort == tuple.localPort)
  }

  lemma TcpEmissionsAre(s: seq<Observation>, tuple: Tuple, o: Observation)
    ensures o in TcpEmissions(s, tuple) <==> o in s && IsTcpEmission(tuple, o)
  {
  }

  /** An inbound response that agrees with some emission in every field both know. */
  ghost predicate TcpAnswered(env: Env, s: seq<Observation>, tuple: Tuple, r: Observation) {
    IsTcpAnswer(r) && exists e :: e in s && IsTcpEmission(tuple, e) && TcpPair(env, e, r)
  }

  lemma TcpAnswersAre(env: Env, s: seq<Observation>, tuple: Tuple, r: Observation)
    ensures Answers(TcpEmissions(s, tuple), IsTcpAnswer, TcpPairing(env), r) <==> TcpAnswered(env, s, tuple, r)
  {
    var emissions, pair := TcpEmissions(s, tuple), TcpPairing(env);
    MateIff(emissions, r, pair);
    if e :| e in s && IsTcpEmission(tuple, e) && TcpPair(env, e, r) {
      TcpEmissionsAre(s, tuple, e);
      assert pair(e, r);
    }
    if e :| e in emissions && pair(e, r) {
      TcpEmissionsAre(s, tuple, e);
    }
  }

  lemma SomeTcpEmission(s: seq<Observation>, tuple: Tuple)
    ensures TcpEmissions(s, tuple) != [] <==> exists e :: e in s && IsTcpEmission(tuple, e)
  {
    NotEmpty(TcpEmissions(s, tuple));
    forall o ensures o in TcpEmissions(s, tuple) <==> o in s && IsTcpEmission(tuple, o) {
      TcpEmissionsAre(s, tuple, o);
    }
  }

  lemma SomeTcpResponse(env: Env, s: seq<Observation>, tuple: Tuple)
    ensures Responses(s, TcpEmissions(s, tuple), IsTcpAnswer, TcpPairing(env)) != [] <==> exists r :: r in s && TcpAnswered(env, s, tuple, r)
  {
    NotEmpty(Responses(s, TcpEmissions(s, tuple), IsTcpAnswer, TcpPairing(env)));
    forall r ensures Answers(TcpEmissions(s, tuple), IsTcpAnswer, TcpPairing(env), r) <==> TcpAnswered(env, s, tuple, r) {
      TcpAnswersAre(env, s, tuple, r);
    }
  }

  lemma TcpFlowCases(env: Env, s: seq<Observation>, tuple: Tuple)
    ensures var f, emissions := TcpFlow(env, s, tuple), TcpEmissions(s, tuple);
            var responses := Responses(s, emissions, IsTcpAnswer, TcpPairing(env));
            && (f.emission.EmissionObserved? <==> emissions != [])
            && (Positive(f.outcome) <==> emissions != [] && responses != [])
            && (f.outcome.NoMatchingResponse? <==> emissions != [] && responses == [])
  {
  }

  /** When a TCP probe is found answered, unanswered, or not found at all. */
  lemma TcpOutcomeIff(env: Env, s: seq<Observation>, tuple: Tuple)
    ensures var f := TcpFlow(env, s, tuple);
            && (f.emission.EmissionObserved? <==> exists e :: e in s && IsTcpEmission(tuple, e))
            && (Positive(f.outcome) <==> exists r :: r in s && TcpAnswered(env, s, tuple, r))
            && (f.outcome.NoMatchingResponse? <==> f.emission.EmissionObserved? && !Positive(f.outcome))
  {
    TcpFlowCases(env, s, tuple);
    SomeTcpEmission(s, tuple);
    SomeTcpResponse(env, s, tuple);
    if r :| r in s && TcpAnswered(env, s, tuple, r) {
      var e :| e in s && IsTcpEmission(tuple, e) && TcpPair(env, e, r);
    }
  }

  /** A positive TCP outcome is the kind of the earliest answer. */
  lemma TcpOutcomeIsEarliest(env: Env, s: seq<Observation>, tuple: Tuple) returns (i: nat)
    requires Positive(TcpFlow(env, s, tuple).outcome)
    ensures i < |s| && TcpAnswered(env, s, tuple, s[i]) && TcpFlow(env, s, tuple).certainty.ConfirmedResponse?
    ensures TcpFlow(env, s, tuple).outcome == match s[i].kind
                                              case InboundSynAck => SynAckReceived
                                              case HandshakeConfirmed => HandshakeSeen
                                              case _ => RstReceived
    ensures forall j :: 0 <= j < i ==> !TcpAnswered(env, s, tuple, s[j])
  {
    var emissions := TcpEmissions(s, tuple);
    i := FilteredFirst(s, o => Answers(emissions, IsTcpAnswer, TcpPairing(env), o));
    TcpAnswersAre(env, s, tuple, s[i]);
    forall j | 0 <= j < i ensures !TcpAnswered(env, s, tuple, s[j]) {
      TcpAnswersAre(env, s, tuple, s[j]);
    }
  }

  // ---- matched identifiers ----

  ghost predicate NamesPair(s: seq<Observation>, emissions: seq<Observation>, candidate: Observation -> bool,
                            pair: (Observation, Observation) -> bool, id: string) {
    exists r :: r in s && Answers(emissions, candidate, pair, r) && (id == r.id || id == emissions[Mate(emissions, r, pair)].id)
  }

  lemma {:induction false} PairIdsAre(s: seq<Observation>, emissions: seq<Observation>, candidate: Observation -> bool,
                                      pair: (Observation, Observation) -> bool, id: string)
    ensures id in PairIds(s, emissions, candidate, pair) <==> NamesPair(s, emissions, candidate, pair, id)
  {
    if s != [] {
      var n := |s| - 1;
      PairIdsAre(s[..n], emissions, candidate, pair, id);
      assert s == s[..n] + [s[n]];
      assert forall r :: r in s <==> r in s[..n] || r == s[n];
    }
  }

  lemma MatchedFrom(s: seq<Observation>, emissions: seq<Observation>, candidate: Observation -> bool,
                    pair: (Observation, Observation) -> bool, matched: seq<string>)
    requires matched == UniqueOf(PairIds(s, emissions, candidate, pair))
    ensures StrictlyAscending(matched)
    ensures forall id :: id in matched <==> NamesPair(s, emissions, candidate, pair, id)
  {
    UniqueOfIs(PairIds(s, emissions, candidate, pair));
    forall id ensures id in matched <==> NamesPair(s, emissions, candidate, pair, id) {
      PairIdsAre(s, emissions, candidate, pair, id);
      assert id in matched <==> id in Elements(matched);
    }
  }

  /**
   The matched identifiers are in order and without repetition; each is that of a retained
   observation; each answer is among them together with an emission it agrees with.
   */
  lemma TcpMatchedAre(env: Env, s: seq<Observation>, tuple: Tuple, id: string)
    requires Positive(TcpFlow(env, s, tuple).outcome)
    ensures var matched := TcpFlow(env, s, tuple).matched;
            && StrictlyAscending(matched)
            && (id in matched ==> exists o :: o in s && o.id == id)
            && (forall r :: r in s && TcpAnswered(env, s, tuple, r) ==>
                  r.id in matched && exists e :: e in s && IsTcpEmission(tuple, e) && TcpPair(env, e, r) && e.id in matched)
  {
    var emissions, pair := TcpEmissions(s, tuple), TcpPairing(env);
    var matched := TcpFlow(env, s, tuple).matched;
    MatchedFrom(s, emissions, IsTcpAnswer, pair, matched);
    if id in matched {
      var r :| r in s && Answers(emissions, IsTcpAnswer, pair, r) && (id == r.id || id == emissions[Mate(emissions, r, pair)].id);
      TcpEmissionsAre(s, tuple, emissions[Mate(emissions, r, pair)]);
    }
    forall r | r in s && TcpAnswered(env, s, tuple, r)
      ensures r.id in matched && exists e :: e in s && IsTcpEmission(tuple, e) && TcpPair(env, e, r) && e.id in matched
    {
      TcpAnswersAre(env, s, tuple, r);
      var e := emissions[Mate(emissions, r, pair)];
      TcpEmissionsAre(s, tuple, e);
      assert NamesPair(s, emissions, IsTcpAnswer, pair, r.id) && NamesPair(s, emissions, IsTcpAnswer, pair, e.id);
      assert pair(e, r);
    }
  }

  // ---- path ----

  ghost predicate PathAnswered(env: Env, s: seq<Observation>, r: Observation) {
    IsPathAnswer(r) && exists e :: e in s && e.kind.OutboundEcho? && PathPair(env, e, r, |PathEmissions(s)|, s)
  }

  lemma PathAnswersAre(env: Env, s: seq<Observation>, r: Observation)
    ensures Answers(PathEmissions(s), IsPathAnswer, PathPairing(env, |PathEmissions(s)|, s), r) <==> PathAnswered(env, s, r)
  {
    var emissions := PathEmissions(s);
    var pair := PathPairing(env, |emissions|, s);
    MateIff(emissions, r, pair);
    if e :| e in s && e.kind.OutboundEcho? && PathPair(env, e, r, |emissions|, s) {
      assert pair(e, r) && e in emissions;
    }
  }

  /** Only one observation of the path is an answer. */
  ghost predicate OnlyAnswer(env: Env, s: seq<Observation>, i: nat) {
    i < |s| && PathAnswered(env, s, s[i]) && forall j :: 0 <= j < |s| && j != i ==> !PathAnswered(env, s, s[j])
  }

  /** Position i holds the earliest answer. */
  ghost predicate EarliestPathAnswer(env: Env, s: seq<Observation>, i: nat) {
    i < |s| && PathAnswered(env, s, s[i]) && forall j :: 0 <= j < i ==> !PathAnswered(env, s, s[j])
  }

  lemma PathResponses(env: Env, s: seq<Observation>, i: nat)
    requires EarliestPathAnswer(env, s, i)
    ensures var responses := Responses(s, PathEmissions(s), IsPathAnswer, PathPairing(env, |PathEmissions(s)|, s));
            responses != [] && responses[0] == s[i] && (|responses| == 1 <==> OnlyAnswer(env, s, i))
  {
    var p := (o: Observation) => Answers(PathEmissions(s), IsPathAnswer, PathPairing(env, |PathEmissions(s)|, s), o);
    forall o ensures p(o) <==> PathAnswered(env, s, o) {
      PathAnswersAre(env, s, o);
    }
    FilteredStart(s, p, i);
  }

  /**
   A path probe is found answered exactly when its earliest answer carries a path key, or it is the
   only answer to the only emission; the outcome is then the kind of that answer.
   */
  lemma PathOutcomeIff(env: Env, s: seq<Observation>, i: nat)
    requires EarliestPathAnswer(env, s, i)
    ensures var f := PathFlow(env, s);
            && (Positive(f.outcome) <==> Keyed(s[i]) || (|PathEmissions(s)| == 1 && OnlyAnswer(env, s, i)))
            && (Positive(f.outcome) ==> (f.outcome == EchoReplyReceived <==> s[i].kind.InboundEcho?)
                                        && (f.outcome == TimeExceededReceived <==> s[i].kind.TimeExceeded?)
                                        && (f.outcome == UnreachableReceived <==> s[i].kind.Unreachable?)
                                        && (f.certainty.ConfirmedResponse? <==> s[i].kind.InboundEcho?))
            && (!Positive(f.outcome) ==> f.outcome.NoMatchingResponse? && f.matched == [])
  {
    PathResponses(env, s, i);
    var e :| e in s && e.kind.OutboundEcho? && PathPair(env, e, s[i], |PathEmissions(s)|, s);
    assert e in PathEmissions(s);
  }

  /** Without any answer, a path probe is unanswered exactly when its emission was seen. */
  lemma PathUnansweredIff(env: Env, s: seq<Observation>)
    requires forall r :: r in s ==> !PathAnswered(env, s, r)
    ensures var f := PathFlow(env, s);
            && (f.outcome.NoMatchingResponse? <==> exists e :: e in s && e.kind.OutboundEcho?)
            && !Positive(f.outcome) && f.matched == []
  {
    var emissions := PathEmissions(s);
    var pair := PathPairing(env, |emissions|, s);
    NotEmpty(emissions);
    NotEmpty(Responses(s, emissions, IsPathAnswer, pair));
    forall r | r in s ensures !Answers(emissions, IsPathAnswer, pair, r) {
      PathAnswersAre(env, s, r);
    }
  }

  /** Matched identifiers of a path probe, likewise. */
  lemma PathMatchedAre(env: Env, s: seq<Observation>, id: string)
    requires Positive(PathFlow(env, s).outcome)
    ensures var matched := PathFlow(env, s).matched;
            && StrictlyAscending(matched)
            && (id in matched ==> exists o :: o in s && o.id == id)
            && (forall r :: r in s && PathAnswered(env, s, r) ==> r.id in matched)
  {
    var emissions := PathEmissions(s);
    var pair := PathPairing(env, |emissions|, s);
    var matched := PathFlow(env, s).matched;
    MatchedFrom(s, emissions, IsPathAnswer, pair, matched);
    if id in matched {
      var r :| r in s && Answers(emissions, IsPathAnswer, pair, r) && (id == r.id || id == emissions[Mate(emissions, r, pair)].id);
      assert emissions[Mate(emissions, r, pair)] in s;
    }
    forall r | r in s && PathAnswered(env, s, r) ensures r.id in matched {
      PathAnswersAre(env, s, r);
      assert NamesPair(s, emissions, IsPathAnswer, pair, r.id);
    }
  }

  // ---- order ----

  lemma ObservationLeIsOrder()
    ensures TotalPreorder(ObservationLe)
  {
    StringLeIsOrder();
    forall a, b, c | ObservationLe(a, b) && ObservationLe(b, c) ensures ObservationLe(a, c) {
      if a.observedAt == c.observedAt {
        assert a.observedAt == b.observedAt;
      }
    }
  }

  /** A retained observation is captured observation k, normalized; it keeps its identifier if it had one. */
  ghost predicate Retains(env: Env, p: Probe, tuple: Tuple, s: seq<Observation>, o: Observation, k: nat) {
    && k < |s| && o.(id := s[k].id) == Normalized(env.canonical, s[k]) && (s[k].id != "" ==> o.id == s[k].id)
    && Relevant(env, p, tuple, Normalized(env.canonical, s[k]))
  }

  lemma RetainedFrom(env: Env, p: Probe, tuple: Tuple, s: seq<Observation>, i: nat) returns (k: nat)
    requires i < |RelevantObservations(env, p, tuple, s)|
    ensures Retains(env, p, tuple, s, RelevantObservations(env, p, tuple, s)[i], k)
    ensures s[k].id == SortBy(ObservationLe, Chosen(env, p, tuple, s))[i].id
  {
    var chosen := Chosen(env, p, tuple, s);
    var sorted := SortBy(ObservationLe, chosen);
    SameElements(chosen, sorted);
    assert sorted[i] in sorted;
    assert sorted[i] in NormalizedAll(env, s);
    k :| 0 <= k < |s| && NormalizedAll(env, s)[k] == sorted[i];
  }

  /**
   Retained observations are in time order, with unknown times last; among equal or unknown times
   the captured identifiers decide.  Each is one that was captured.
   */
  lemma RelevantAreInOrder(env: Env, p: Probe, tuple: Tuple, s: seq<Observation>, i: nat, j: nat) returns (k: nat, l: nat)
    requires i < j < |RelevantObservations(env, p, tuple, s)|
    ensures var r := RelevantObservations(env, p, tuple, s);
            && Retains(env, p, tuple, s, r[i], k) && Retains(env, p, tuple, s, r[j], l)
            && (r[j].observedAt.Zero? || (!r[i].observedAt.Zero? && r[i].observedAt.t <= r[j].observedAt.t))
            && (r[i].observedAt == r[j].observedAt ==> StringLe(s[k].id, s[l].id))
  {
    var chosen := Chosen(env, p, tuple, s);
    var sorted := SortBy(ObservationLe, chosen);
    ObservationLeIsOrder();
    SortBySorted(ObservationLe, chosen);
    assert ObservationLe(sorted[i], sorted[j]);
    k := RetainedFrom(env, p, tuple, s, i);
    l := RetainedFrom(env, p, tuple, s, j);
  }

  // ---- the order of arrival ----

  lemma ChosenAppend(env: Env, p: Probe, tuple: Tuple, a: seq<Observation>, b: seq<Observation>)
    ensures Chosen(env, p, tuple, a + b) == Chosen(env, p, tuple, a) + Chosen(env, p, tuple, b)
  {
    NormalizedAppend(env, a, b);
    FilteredAppend(NormalizedAll(env, a), NormalizedAll(env, b), o => Relevant(env, p, tuple, o));
  }

  lemma NormalizedAppend(env: Env, a: seq<Observation>, b: seq<Observation>)
    ensures NormalizedAll(env, a + b) == NormalizedAll(env, a) + NormalizedAll(env, b)
  {
  }

  lemma {:induction false} ChosenPermutes(env: Env, p: Probe, tuple: Tuple, a: seq<Observation>, b: seq<Observation>)
    requires multiset(a) == multiset(b)
    ensures multiset(Chosen(env, p, tuple, a)) == multiset(Chosen(env, p, tuple, b))
  {
    if a == [] {
      SameElements(a, b);
    } else {
      var n, x := |a| - 1, a[|a| - 1];
      var c, d := TakeOut(a, b);
      ChosenPermutes(env, p, tuple, a[..n], c + d);
      assert a == a[..n] + [x];
      ChosenAppend(env, p, tuple, a[..n], [x]);
      ChosenAppend(env, p, tuple, c + [x], d);
      ChosenAppend(env, p, tuple, c, [x]);
      ChosenAppend(env, p, tuple, c, d);
    }
  }

  ghost predicate DistinctIds(s: seq<Observation>) {
    forall i, j :: 0 <= i < j < |s| ==> s[i].id != s[j].id
  }

  lemma DistinctIdsSeparate(env: Env, p: Probe, tuple: Tuple, s: seq<Observation>)
    requires DistinctIds(s)
    ensures Separates(ObservationLe, Chosen(env, p, tuple, s))
  {
    var chosen := Chosen(env, p, tuple, s);
    StringLeIsOrder();
    forall x, y | x in chosen && y in chosen && ObservationLe(x, y) && ObservationLe(y, x) ensures x == y {
      assert x in NormalizedAll(env, s) && y in NormalizedAll(env, s);
      var i :| 0 <= i < |s| && NormalizedAll(env, s)[i] == x;
      var j :| 0 <= j < |s| && NormalizedAll(env, s)[j] == y;
      assert x.id == s[i].id && y.id == s[j].id;
    }
  }

  /** The evidence does not depend on the order in which observations were captured. */
  lemma ArrivalIsForgotten(env: Env, a: Input, b: Input)
    requires b == a.(capture := a.capture.(observations := b.capture.observations))
    requires multiset(a.capture.observations) == multiset(b.capture.observations)
    requires DistinctIds(a.capture.observations)
    ensures EvidenceOf(env, a) == EvidenceOf(env, b)
  {
    RelevantPermutes(env, a.probe, a.tuple, a.capture.observations, b.capture.observations);
    EvidenceCases(env, a);
    EvidenceCases(env, b);
    SameStatus(a, b);
  }

  lemma SameStatus(a: Input, b: Input)
    requires b == a.(capture := a.capture.(observations := b.capture.observations))
    ensures StatusOf(a) == StatusOf(b)
  {
  }

  lemma RelevantPermutes(env: Env, p: Probe, tuple: Tuple, s: seq<Observation>, t: seq<Observation>)
    requires multiset(s) == multiset(t) && DistinctIds(s)
    ensures RelevantObservations(env, p, tuple, s) == RelevantObservations(env, p, tuple, t)
  {
    ChosenPermutes(env, p, tuple, s, t);
    DistinctIdsSeparate(env, p, tuple, s);
    ObservationLeIsOrder();
    SortForgetsArrival(ObservationLe, Chosen(env, p, tuple, s), Chosen(env, p, tuple, t));
  }

  /** Captures of events satisfy that: their observations are named apart. */
  lemma CapturedIdsAreDistinct(scope: Scope, rs: seq<Record>)
    ensures DistinctIds(AllBounded(scope, rs).observations)
  {
    var s := AllBounded(scope, rs).observations;
    forall i, j | 0 <= i < j < |s| ensures s[i].id != s[j].id {
      ObservationIdsDistinct(scope, rs, i, j);
    }
  }
}
