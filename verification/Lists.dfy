/** Lists: filters and what they keep, counting, and values collected without repetition. */
module Lists {
  import opened Orders

  function Filtered<T(!new)>(s: seq<T>, p: T -> bool): (r: seq<T>)
    ensures forall x :: x in r <==> x in s && p(x)
  {
    if s == [] then []
    else
      assert s == s[..|s| - 1] + [s[|s| - 1]];
      Filtered(s[..|s| - 1], p) + if p(s[|s| - 1]) then [s[|s| - 1]] else []
  }

  lemma NotEmpty<T>(s: seq<T>)
    ensures s != [] <==> exists x :: x in s
  {
    assert s != [] ==> s[0] in s;
  }

  /** The first that passes. */
  lemma {:induction false} FilteredFirst<T(!new)>(s: seq<T>, p: T -> bool) returns (i: nat)
    requires Filtered(s, p) != []
    ensures i < |s| && s[i] == Filtered(s, p)[0] && p(s[i]) && forall j :: 0 <= j < i ==> !p(s[j])
  {
    var n := |s| - 1;
    if Filtered(s[..n], p) != [] {
      i := FilteredFirst(s[..n], p);
      assert forall j :: 0 <= j < i ==> s[..n][j] == s[j];
    } else {
      i := n;
      forall j | 0 <= j < n ensures !p(s[j]) {
        assert s[..n][j] == s[j];
      }
    }
  }

  /** There is only one when nothing after the first passes. */
  lemma {:induction false} FilteredOne<T(!new)>(s: seq<T>, p: T -> bool, i: nat)
    requires i < |s| && p(s[i]) && forall j :: 0 <= j < i ==> !p(s[j])
    ensures |Filtered(s, p)| == 1 <==> forall j :: i < j < |s| ==> !p(s[j])
    ensures Filtered(s, p) != []
  {
    var n := |s| - 1;
    if i < n {
      assert forall j :: 0 <= j < n ==> s[..n][j] == s[j];
      FilteredOne(s[..n], p, i);
    } else {
      FilteredNone(s[..n], p);
    }
  }

  /** Where the first that passes is known. */
  lemma FilteredStart<T(!new)>(s: seq<T>, p: T -> bool, i: nat)
    requires i < |s| && p(s[i]) && forall j :: 0 <= j < i ==> !p(s[j])
    ensures Filtered(s, p) != [] && Filtered(s, p)[0] == s[i]
    ensures |Filtered(s, p)| == 1 <==> forall j :: i < j < |s| ==> !p(s[j])
  {
    FilteredOne(s, p, i);
    var k := FilteredFirst(s, p);
    assert !(k < i) && !(i < k);
  }

  lemma {:induction false} FilteredNone<T(!new)>(s: seq<T>, p: T -> bool)
    requires forall j :: 0 <= j < |s| ==> !p(s[j])
    ensures Filtered(s, p) == []
  {
    NotEmpty(Filtered(s, p));
  }

  lemma FilteredSnoc<T(!new)>(s: seq<T>, x: T, p: T -> bool)
    ensures Filtered(s + [x], p) == Filtered(s, p) + if p(x) then [x] else []
  {
    assert (s + [x])[..|s|] == s;
  }

  lemma Associative<T>(a: seq<T>, b: seq<T>, c: seq<T>)
    ensures (a + b) + c == a + (b + c)
  {
  }

  lemma {:induction false} FilteredAppend<T(!new)>(a: seq<T>, b: seq<T>, p: T -> bool)
    ensures Filtered(a + b, p) == Filtered(a, p) + Filtered(b, p)
    decreases |b|
  {
    if b == [] {
      assert a + b == a;
    } else {
      var front, x := b[..|b| - 1], b[|b| - 1];
      FilteredAppend(a, front, p);
      assert b == front + [x];
      FilteredTwice(a, front, x, p);
    }
  }

  lemma FilteredTwice<T(!new)>(a: seq<T>, front: seq<T>, x: T, p: T -> bool)
    requires Filtered(a + front, p) == Filtered(a, p) + Filtered(front, p)
    ensures Filtered(a + (front + [x]), p) == Filtered(a, p) + Filtered(front + [x], p)
  {
    FilteredSnoc(a + front, x, p);
    FilteredSnoc(front, x, p);
    Associative(a, front, [x]);
    Associative(Filtered(a, p), Filtered(front, p), if p(x) then [x] else []);
  }

  lemma WithoutMiddle<T>(c: seq<T>, x: T, d: seq<T>)
    ensures multiset(c + [x] + d) == multiset(c + d) + multiset{x}
  {
  }

  lemma TakeOut<T>(a: seq<T>, b: seq<T>) returns (c: seq<T>, d: seq<T>)
    requires a != [] && multiset(a) == multiset(b)
    ensures b == c + [a[|a| - 1]] + d && multiset(a[..|a| - 1]) == multiset(c + d)
  {
    var front, x := a[..|a| - 1], a[|a| - 1];
    SameElements(a, b);
    assert x in a;
    var k :| 0 <= k < |b| && b[k] == x;
    c, d := b[..k], b[k + 1..];
    assert a == front + [x] + [] && front + [] == front;
    assert b == c + [x] + d;
    WithoutMiddle(front, x, []);
    WithoutMiddle(c, x, d);
    assert front + [] == front;
    CancelOne(multiset(front), multiset(c + d), x);
  }

  lemma CancelOne<T>(p: multiset<T>, q: multiset<T>, x: T)
    requires p + multiset{x} == q + multiset{x}
    ensures p == q
  {
    assert p == (p + multiset{x}) - multiset{x};
    assert q == (q + multiset{x}) - multiset{x};
  }

  /** A filter lets the same elements through in whatever order they come. */
  lemma {:induction false} FilteredPermutes<T(!new)>(a: seq<T>, b: seq<T>, p: T -> bool)
    requires multiset(a) == multiset(b)
    ensures multiset(Filtered(a, p)) == multiset(Filtered(b, p))
  {
    if a == [] {
      SameElements(a, b);
    } else {
      var front, x := a[..|a| - 1], a[|a| - 1];
      var c, d := TakeOut(a, b);
      FilteredPermutes(front, c + d, p);
      assert a == front + [x];
      FilteredSnoc(front, x, p);
      FilteredAppend(c + [x], d, p);
      FilteredSnoc(c, x, p);
      FilteredAppend(c, d, p);
    }
  }

  lemma FilteredSingle<T(!new)>(x: T, p: T -> bool)
    ensures Filtered([x], p) == if p(x) then [x] else []
  {
    assert [x][..0] == [];
  }

  lemma FilteredCons<T(!new)>(x: T, s: seq<T>, p: T -> bool)
    ensures Filtered([x] + s, p) == (if p(x) then [x] else []) + Filtered(s, p)
  {
    FilteredAppend([x], s, p);
    FilteredSingle(x, p);
  }

  /** Neighbours of which one passes at most may change places. */
  lemma FilteredSwap<T(!new)>(x: T, y: T, s: seq<T>, p: T -> bool)
    requires !(p(x) && p(y))
    ensures Filtered([x] + ([y] + s), p) == Filtered([y] + ([x] + s), p)
  {
    FilteredCons(x, [y] + s, p);
    FilteredCons(y, s, p);
    FilteredCons(y, [x] + s, p);
    FilteredCons(x, s, p);
  }

  lemma {:induction false} InsertKeepsTies<T(!new)>(le: (T, T) -> bool, x: T, s: seq<T>, p: T -> bool)
    requires forall y, z :: p(y) && p(z) ==> le(y, z)
    ensures Filtered(Insert(le, x, s), p) == Filtered([x] + s, p)
  {
    if s != [] && !le(x, s[0]) {
      var rest := s[1..];
      InsertKeepsTies(le, x, rest, p);
      FilteredCons(s[0], Insert(le, x, rest), p);
      FilteredCons(s[0], [x] + rest, p);
      FilteredSwap(s[0], x, rest, p);
      assert s == [s[0]] + rest;
    } else {
      assert s == [] ==> [x] + s == [x];
    }
  }

  /** The sort is stable: elements that all tie with each other stay in the order in which they came. */
  lemma {:induction false} SortKeepsTies<T(!new)>(le: (T, T) -> bool, s: seq<T>, p: T -> bool)
    requires forall y, z :: p(y) && p(z) ==> le(y, z)
    ensures Filtered(SortBy(le, s), p) == Filtered(s, p)
  {
    if s != [] {
      SortKeepsTies(le, s[1..], p);
      InsertKeepsTies(le, s[0], SortBy(le, s[1..]), p);
      FilteredAppend([s[0]], SortBy(le, s[1..]), p);
      FilteredAppend([s[0]], s[1..], p);
      assert s == [s[0]] + s[1..];
    }
  }

  // ---- counting ----

  function Count<T>(s: seq<T>, p: T -> bool): nat {
    if s == [] then 0 else Count(s[..|s| - 1], p) + if p(s[|s| - 1]) then 1 else 0
  }

  lemma CountAppend<T>(s: seq<T>, x: T, p: T -> bool)
    ensures Count(s + [x], p) == Count(s, p) + if p(x) then 1 else 0
  {
    assert (s + [x])[..|s|] == s;
  }

  lemma {:induction false} CountUpdate<T>(s: seq<T>, i: nat, x: T, p: T -> bool)
    requires i < |s|
    ensures Count(s[i := x], p) == Count(s, p) - (if p(s[i]) then 1 else 0) + if p(x) then 1 else 0
  {
    var n := |s| - 1;
    if i == n {
      assert s[i := x][..n] == s[..n];
    } else {
      CountUpdate(s[..n], i, x, p);
      assert s[i := x][..n] == s[..n][i := x];
    }
  }

  /** Nothing is counted exactly when nothing passes. */
  lemma {:induction false} CountZeroIff<T>(s: seq<T>, p: T -> bool)
    ensures Count(s, p) == 0 <==> forall i :: 0 <= i < |s| ==> !p(s[i])
  {
    if s != [] {
      var n := |s| - 1;
      CountZeroIff(s[..n], p);
      assert forall i :: 0 <= i < n ==> s[..n][i] == s[i];
    }
  }

  lemma {:induction false} CountAgrees<T>(s: seq<T>, p: T -> bool, q: T -> bool)
    requires forall x :: x in s ==> p(x) == q(x)
    ensures Count(s, p) == Count(s, q)
  {
    if s != [] {
      CountAgrees(s[..|s| - 1], p, q);
    }
  }

  // ---- sets ----

  lemma SubsetSize<T>(a: set<T>, b: set<T>)
    requires a <= b
    ensures |a| <= |b|
  {
    assert b == a + (b - a);
  }

  // ---- collecting ----

  ghost predicate NoRepetition<T>(s: seq<T>) {
    forall i, j :: 0 <= i < j < |s| ==> s[i] != s[j]
  }

  /** A value is added unless it is blank or there already (`appendUnique`). */
  function Added(values: seq<string>, value: string): seq<string> {
    if value == "" || value in values then values else values + [value]
  }

  function AllAdded(values: seq<string>, more: seq<string>): seq<string> {
    if more == [] then values else Added(AllAdded(values, more[..|more| - 1]), more[|more| - 1])
  }

  lemma {:induction false} AllAddedIs(values: seq<string>, more: seq<string>)
    requires NoRepetition(values) && "" !in values
    ensures NoRepetition(AllAdded(values, more)) && "" !in AllAdded(values, more)
    ensures forall x :: x in AllAdded(values, more) <==> x in values || (x in more && x != "")
  {
    if more != [] {
      AllAddedIs(values, more[..|more| - 1]);
      assert more == more[..|more| - 1] + [more[|more| - 1]];
    }
  }
}
