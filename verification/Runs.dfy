/**
 Runs of a transition system.  A concurrent protocol of the program is a system with one action
 per critical section, channel operation or context cancellation; a run is any sequence of
 actions each of which was enabled when it happened, so it covers every interleaving.
 */
module Runs {

  datatype System<!S(!new), !A(!new)> = System(enabled: (S, A) -> bool, next: (S, A) -> S)

  predicate Valid<S(!new), A(!new)>(sys: System<S, A>, s: S, run: seq<A>)
    decreases |run|
  {
    run == [] || (sys.enabled(s, run[0]) && Valid(sys, sys.next(s, run[0]), run[1..]))
  }

  function After<S(!new), A(!new)>(sys: System<S, A>, s: S, run: seq<A>): S
    decreases |run|
  {
    if run == [] then s else After(sys, sys.next(s, run[0]), run[1..])
  }

  /** t is where some run from s leads. */
  ghost predicate Leads<S(!new), A(!new)>(sys: System<S, A>, s: S, t: S) {
    exists run :: Valid(sys, s, run) && After(sys, s, run) == t
  }

  ghost predicate Keeps<S(!new), A(!new)>(sys: System<S, A>, inv: S -> bool) {
    forall s, a :: inv(s) && sys.enabled(s, a) ==> inv(sys.next(s, a))
  }

  /** What every action keeps, every run keeps. */
  lemma {:induction false} RunKeeps<S(!new), A(!new)>(sys: System<S, A>, inv: S -> bool, s: S, run: seq<A>)
    requires Keeps(sys, inv) && inv(s) && Valid(sys, s, run)
    ensures inv(After(sys, s, run))
    decreases |run|
  {
    if run != [] {
      RunKeeps(sys, inv, sys.next(s, run[0]), run[1..]);
    }
  }

  lemma LeadsKeeps<S(!new), A(!new)>(sys: System<S, A>, inv: S -> bool, s: S, t: S)
    requires Keeps(sys, inv) && inv(s) && Leads(sys, s, t)
    ensures inv(t)
  {
    var run :| Valid(sys, s, run) && After(sys, s, run) == t;
    RunKeeps(sys, inv, s, run);
  }

  lemma Stay<S(!new), A(!new)>(sys: System<S, A>, s: S)
    ensures Leads(sys, s, s)
  {
    assert Valid(sys, s, []) && After(sys, s, []) == s;
  }

  /** One action in front of a run. */
  lemma Prepend<S(!new), A(!new)>(sys: System<S, A>, s: S, a: A, t: S)
    requires sys.enabled(s, a) && Leads(sys, sys.next(s, a), t)
    ensures Leads(sys, s, t)
  {
    var run :| Valid(sys, sys.next(s, a), run) && After(sys, sys.next(s, a), run) == t;
    assert ([a] + run)[1..] == run;
    assert Valid(sys, s, [a] + run) && After(sys, s, [a] + run) == t;
  }

  lemma {:induction false} RunThen<S(!new), A(!new)>(sys: System<S, A>, s: S, run: seq<A>, u: S)
    requires Valid(sys, s, run) && Leads(sys, After(sys, s, run), u)
    ensures Leads(sys, s, u)
    decreases |run|
  {
    if run != [] {
      RunThen(sys, sys.next(s, run[0]), run[1..], u);
      Prepend(sys, s, run[0], u);
    }
  }

  /** One run after another. */
  lemma Chain<S(!new), A(!new)>(sys: System<S, A>, s: S, t: S, u: S)
    requires Leads(sys, s, t) && Leads(sys, t, u)
    ensures Leads(sys, s, u)
  {
    var run :| Valid(sys, s, run) && After(sys, s, run) == t;
    RunThen(sys, s, run, u);
  }

  /** One action at the end of a run. */
  lemma OneMore<S(!new), A(!new)>(sys: System<S, A>, s: S, t: S, a: A)
    requires Leads(sys, s, t) && sys.enabled(t, a)
    ensures Leads(sys, s, sys.next(t, a))
  {
    Stay(sys, sys.next(t, a));
    Prepend(sys, t, a, sys.next(t, a));
    Chain(sys, s, t, sys.next(t, a));
  }

  /** Runs are as short as a measure that every action lowers. */
  lemma {:induction false} RunLength<S(!new), A(!new)>(sys: System<S, A>, inv: S -> bool, measure: S -> nat, s: S, run: seq<A>)
    requires Keeps(sys, inv) && inv(s) && Valid(sys, s, run)
    requires forall s, a :: inv(s) && sys.enabled(s, a) ==> measure(sys.next(s, a)) < measure(s)
    ensures |run| + measure(After(sys, s, run)) <= measure(s)
    decreases |run|
  {
    if run != [] {
      RunLength(sys, inv, measure, sys.next(s, run[0]), run[1..]);
    }
  }

  // ---- runs that end ----

  /** Something happens before position k. */
  ghost predicate Before<A(!new)>(run: seq<A>, k: nat, p: A -> bool) {
    exists j :: 0 <= j < k && j < |run| && p(run[j])
  }

  /** ... before anything ends the run, if anything does. */
  ghost predicate InTime<A(!new)>(run: seq<A>, sets: A -> bool, ends: A -> bool) {
    exists i :: 0 <= i < |run| && sets(run[i]) && forall j :: 0 <= j < i ==> !ends(run[j])
  }

  lemma BeforeTail<A(!new)>(run: seq<A>, k: nat, p: A -> bool)
    requires run != []
    ensures Before(run, k + 1, p) <==> p(run[0]) || Before(run[1..], k, p)
  {
    var rest := run[1..];
    if j :| 0 <= j < k + 1 && j < |run| && p(run[j]) {
      assert j > 0 ==> p(rest[j - 1]);
    }
    if j :| 0 <= j < k && j < |rest| && p(rest[j]) {
      assert p(run[j + 1]);
    }
  }

  lemma InTimeTail<A(!new)>(run: seq<A>, sets: A -> bool, ends: A -> bool)
    requires run != []
    ensures InTime(run, sets, ends) <==> sets(run[0]) || (!ends(run[0]) && InTime(run[1..], sets, ends))
  {
    var rest := run[1..];
    if i :| 0 <= i < |run| && sets(run[i]) && forall j :: 0 <= j < i ==> !ends(run[j]) {
      if i > 0 {
        assert sets(rest[i - 1]) && forall j :: 0 <= j < i - 1 ==> rest[j] == run[j + 1];
      }
    }
    if i :| 0 <= i < |rest| && sets(rest[i]) && forall j :: 0 <= j < i ==> !ends(rest[j]) {
      assert sets(run[i + 1]) && forall j :: 1 <= j < i + 1 ==> run[j] == rest[j - 1];
    }
  }

  /** An end comes once, and until then a flag is raised by certain actions only. */
  ghost predicate EndsOnce<S(!new), A(!new)>(sys: System<S, A>, inv: S -> bool, over: S -> bool, flag: S -> bool,
                                             ends: A -> bool, sets: A -> bool) {
    && Keeps(sys, inv)
    && (forall s, a :: inv(s) && sys.enabled(s, a) && !over(s) ==>
          (over(sys.next(s, a)) <==> ends(a)) && (flag(sys.next(s, a)) <==> flag(s) || sets(a)))
    && (forall s, a :: inv(s) && sys.enabled(s, a) && over(s) ==>
          over(sys.next(s, a)) && !ends(a) && flag(sys.next(s, a)) == flag(s))
  }

  lemma {:induction false} NothingEndsAgain<S(!new), A(!new)>(sys: System<S, A>, inv: S -> bool, over: S -> bool, flag: S -> bool,
                                                              ends: A -> bool, sets: A -> bool, s: S, run: seq<A>)
    requires EndsOnce(sys, inv, over, flag, ends, sets) && inv(s) && over(s) && Valid(sys, s, run)
    ensures over(After(sys, s, run)) && flag(After(sys, s, run)) == flag(s) && forall j :: 0 <= j < |run| ==> !ends(run[j])
    decreases |run|
  {
    if run != [] {
      NothingEndsAgain(sys, inv, over, flag, ends, sets, sys.next(s, run[0]), run[1..]);
      assert forall j :: 1 <= j < |run| ==> run[j] == run[1..][j - 1];
    }
  }

  /** Whether the flag is up after a run. */
  lemma {:induction false} RunFlags<S(!new), A(!new)>(sys: System<S, A>, inv: S -> bool, over: S -> bool, flag: S -> bool,
                                                      ends: A -> bool, sets: A -> bool, s: S, run: seq<A>)
    requires EndsOnce(sys, inv, over, flag, ends, sets) && inv(s) && !over(s) && Valid(sys, s, run)
    ensures flag(After(sys, s, run)) <==> flag(s) || InTime(run, sets, ends)
    decreases |run|
  {
    if run != [] {
      var t, rest := sys.next(s, run[0]), run[1..];
      InTimeTail(run, sets, ends);
      if ends(run[0]) {
        NothingEndsAgain(sys, inv, over, flag, ends, sets, t, rest);
      } else {
        RunFlags(sys, inv, over, flag, ends, sets, t, rest);
      }
    }
  }

  /** Where a run ended: the one ending action, the state before it, and that the rest goes on from there. */
  lemma {:induction false} RunEnds<S(!new), A(!new)>(sys: System<S, A>, inv: S -> bool, over: S -> bool, flag: S -> bool,
                                                     ends: A -> bool, sets: A -> bool, s: S, run: seq<A>) returns (k: nat, b: S)
    requires EndsOnce(sys, inv, over, flag, ends, sets) && inv(s) && !over(s) && Valid(sys, s, run) && over(After(sys, s, run))
    ensures k < |run| && ends(run[k]) && forall j :: 0 <= j < |run| && j != k ==> !ends(run[j])
    ensures inv(b) && !over(b) && sys.enabled(b, run[k]) && (flag(b) <==> flag(s) || Before(run, k, sets))
    ensures Leads(sys, sys.next(b, run[k]), After(sys, s, run))
    decreases |run|
  {
    var t, rest := sys.next(s, run[0]), run[1..];
    assert forall j :: 1 <= j < |run| ==> run[j] == rest[j - 1];
    if ends(run[0]) {
      k, b := 0, s;
      NothingEndsAgain(sys, inv, over, flag, ends, sets, t, rest);
      assert Valid(sys, t, rest) && After(sys, t, rest) == After(sys, s, run);
    } else {
      k, b := RunEnds(sys, inv, over, flag, ends, sets, t, rest);
      BeforeTail(run, k, sets);
      k := k + 1;
    }
  }
}
