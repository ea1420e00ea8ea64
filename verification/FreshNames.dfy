/**
 The two unbounded searches for an unused identifier: `uniqueIDLocked`
 (internal/batch/manager.go:828-842) and `uniqueGraphNodeID` (internal/web/path_graph.go:591-610).
 Both end because a counter goes into every candidate, so no candidate is tried twice.
 */
module FreshNames {
  import opened Decimal
  import Lists

  function Suffixed(base: string, n: nat): string {
    base + "-" + Dec(n)
  }

  lemma SuffixedSplit(p: string, m: nat, q: string, n: nat)
    requires Suffixed(p, m) == Suffixed(q, n)
    ensures p == q && m == n
  {
    DashSplit(p, m, q, n);
  }

  /** The candidates `base-2`, ..., `base-(k-1)`. */
  function Tried(base: string, k: nat): set<string> {
    set n: nat | 2 <= n < k :: Suffixed(base, n)
  }

  lemma TriedGrows(base: string, k: nat)
    requires k >= 2
    ensures Suffixed(base, k) !in Tried(base, k)
    ensures Tried(base, k + 1) == Tried(base, k) + {Suffixed(base, k)}
  {
    if Suffixed(base, k) in Tried(base, k) {
      var n: nat :| 2 <= n < k && Suffixed(base, k) == Suffixed(base, n);
      SuffixedSplit(base, k, base, n);
    }
    forall s ensures s in Tried(base, k + 1) <==> s in Tried(base, k) || s == Suffixed(base, k) {
      if s in Tried(base, k + 1) {
        var n: nat :| 2 <= n < k + 1 && s == Suffixed(base, n);
        assert n < k ==> s in Tried(base, k);
      }
    }
  }

  lemma {:induction false} TriedSize(base: string, k: nat)
    requires k >= 2
    ensures |Tried(base, k)| == k - 2
  {
    if k == 2 {
      assert Tried(base, 2) == {};
    } else {
      TriedSize(base, k - 1);
      TriedGrows(base, k - 1);
    }
  }

  /** The search from a given suffix on. */
  ghost function FreshFrom(base: string, taken: set<string>, k: nat): (s: string)
    requires k >= 2
    ensures s !in taken
    decreases |taken - Tried(base, k)|
  {
    var candidate := Suffixed(base, k);
    if candidate !in taken then candidate
    else
      TriedGrows(base, k);
      assert taken - Tried(base, k + 1) == (taken - Tried(base, k)) - {candidate};
      FreshFrom(base, taken, k + 1)
  }

  ghost function FreshName(base: string, taken: set<string>): (s: string)
    ensures s !in taken
  {
    if base !in taken then base else FreshFrom(base, taken, 2)
  }

  /** What a fresh name looks like: the base, or the base with the least unused suffix, which is small. */
  lemma {:induction false} FreshFromIsLeast(base: string, taken: set<string>, k: nat) returns (n: nat)
    requires k >= 2 && Tried(base, k) <= taken
    ensures n >= k && FreshFrom(base, taken, k) == Suffixed(base, n)
    ensures forall j :: 2 <= j < n ==> Suffixed(base, j) in taken
    ensures n <= |taken| + 2
    decreases |taken - Tried(base, k)|
  {
    if Suffixed(base, k) !in taken {
      n := k;
      TriedSize(base, k);
      Lists.SubsetSize(Tried(base, k), taken);
      forall j | 2 <= j < n ensures Suffixed(base, j) in taken {
        assert Suffixed(base, j) in Tried(base, k);
      }
    } else {
      TriedGrows(base, k);
      assert taken - Tried(base, k + 1) == (taken - Tried(base, k)) - {Suffixed(base, k)};
      n := FreshFromIsLeast(base, taken, k + 1);
    }
  }

  function Range(ids: seq<string>): set<string> {
    set s | s in ids
  }

  /** `graphNodeIDExists`. */
  method Exists(id: string, ids: seq<string>) returns (found: bool)
    ensures found == (id in ids)
  {
    for i := 0 to |ids|
      invariant id !in ids[..i]
    {
      if ids[i] == id {
        return true;
      }
    }
    return false;
  }

  /** `uniqueGraphNodeID`; the number of suffixes tried is at most the number of names in use plus one. */
  method UniqueName(base: string, ids: seq<string>) returns (id: string)
    ensures id == FreshName(base, Range(ids)) && id !in ids
  {
    ghost var taken := Range(ids);
    var exists_ := Exists(base, ids);
    if !exists_ {
      return base;
    }
    var suffix := 2;
    assert Tried(base, 2) == {};
    while true
      invariant suffix >= 2 && Tried(base, suffix) <= taken
      invariant FreshFrom(base, taken, 2) == FreshFrom(base, taken, suffix)
      invariant suffix - 2 <= |taken|
      decreases |taken| + 2 - suffix
    {
      var candidate := Suffixed(base, suffix);
      exists_ := Exists(candidate, ids);
      if !exists_ {
        return candidate;
      }
      TriedGrows(base, suffix);
      suffix := suffix + 1;
      TriedSize(base, suffix);
      Lists.SubsetSize(Tried(base, suffix), taken);
    }
  }

  // ---- batch identifiers ----

  /** Every name ends in a counter value of at most n. */
  ghost predicate CountedUpTo(names: set<string>, n: nat) {
    forall s :: s in names ==> exists p: string, k: nat :: k <= n && s == Suffixed(p, k)
  }

  /** A name that ends in a higher counter value is not among them. */
  lemma CountHigher(names: set<string>, n: nat, m: nat, prefix: string)
    requires CountedUpTo(names, n) && n < m
    ensures Suffixed(prefix, m) !in names
    ensures CountedUpTo(names + {Suffixed(prefix, m)}, m)
  {
    var id := Suffixed(prefix, m);
    if id in names {
      var p: string, k: nat :| k <= n && id == Suffixed(p, k);
      SuffixedSplit(p, k, prefix, m);
    }
    forall s | s in names + {id} ensures exists p: string, k: nat :: k <= m && s == Suffixed(p, k) {
      if s in names {
        var p: string, k: nat :| k <= n && s == Suffixed(p, k);
      }
    }
  }

  /** Calls number `from` to `to - 1` of the generator gave nothing that could be used as it was. */
  ghost predicate Refused(generate: nat -> string, stored: set<string>, from: nat, to: nat) {
    forall k: nat :: from <= k < to ==> generate(k) == "" || generate(k) in stored
  }

  lemma RefusedOnceMore(generate: nat -> string, stored: set<string>, from: nat, to: nat)
    requires Refused(generate, stored, from, to) && (generate(to) == "" || generate(to) in stored)
    ensures Refused(generate, stored, from, to + 1)
  {
  }

  /** `idSequence` and the calls made so far to the configurable generator `newID`. */
  class IdSource {
    const generate: nat -> string
    var calls: nat
    var sequence: nat

    constructor (generate: nat -> string)
      ensures this.generate == generate && calls == 0 && sequence == 0
    {
      this.generate := generate;
      calls, sequence := 0, 0;
    }

    /** One round: the identifier offered, or "validation-n" for an empty one, and then that with a counter. */
    method Try(stored: set<string>) returns (id: string, ghost candidate: string, ghost offered: string)
      modifies this
      ensures calls == old(calls) + 1 && offered == generate(old(calls))
      ensures old(sequence) <= sequence <= old(sequence) + 2
      ensures offered != "" && offered !in stored ==> id == offered
      ensures id in stored ==> offered == "" || offered in stored
      ensures id in stored ==> sequence > old(sequence) && id == Suffixed(candidate, sequence)
    {
      id := generate(calls);
      offered := id;
      calls := calls + 1;
      if id == "" {
        sequence := sequence + 1;
        id := Suffixed("validation", sequence);
      }
      candidate := id;
      if id !in stored {
        return;
      }
      sequence := sequence + 1;
      id := Suffixed(id, sequence);
    }

    /**
     `uniqueIDLocked`, for any generator: it ends after at most |stored| + 1 rounds with an
     unused identifier, and takes the first identifier the generator offers that is unused.
     */
    method UniqueId(stored: set<string>) returns (id: string)
      modifies this
      ensures id !in stored
      ensures old(calls) < calls <= old(calls) + |stored| + 1
      ensures old(sequence) <= sequence <= old(sequence) + 2 * (|stored| + 1)
      ensures Refused(generate, stored, old(calls), calls - 1)
      ensures generate(calls - 1) != "" && generate(calls - 1) !in stored ==> id == generate(calls - 1)
    {
      ghost var tried: set<string> := {};
      while true
        invariant tried <= stored && |tried| <= |stored| && CountedUpTo(tried, sequence)
        invariant calls == old(calls) + |tried|
        invariant old(sequence) <= sequence <= old(sequence) + 2 * |tried|
        invariant Refused(generate, stored, old(calls), calls)
        decreases |stored| - |tried|
      {
        ghost var before, candidate, offered := sequence, "", "";
        id, candidate, offered := Try(stored);
        if id !in stored {
          return;
        }
        RefusedOnceMore(generate, stored, old(calls), calls - 1);
        CountHigher(tried, before, sequence, candidate);
        tried := tried + {id};
        Lists.SubsetSize(tried, stored);
      }
    }
  }
}
