/**
 Sorting, as the Go library calls of the program use it: `sort.SliceStable`, `sort.Strings` and
 the sorted-unique helpers.  `SortBy` is the stable sort; what callers rely on is that its
 result is determined by the elements alone whenever the order separates them.
 */
module Orders {

  ghost predicate TotalPreorder<T(!new)>(le: (T, T) -> bool) {
    && (forall x, y :: le(x, y) || le(y, x))
    && (forall x, y, z :: le(x, y) && le(y, z) ==> le(x, z))
  }

  ghost predicate SortedBy<T>(le: (T, T) -> bool, s: seq<T>) {
    forall i, j :: 0 <= i < j < |s| ==> le(s[i], s[j])
  }

  /** No two different elements of s are tied. */
  ghost predicate Separates<T>(le: (T, T) -> bool, s: seq<T>) {
    forall x, y :: x in s && y in s && le(x, y) && le(y, x) ==> x == y
  }

  /** Places x before the first element that is not below it, so x stays ahead of its ties. */
  function Insert<T>(le: (T, T) -> bool, x: T, s: seq<T>): (r: seq<T>)
    ensures multiset(r) == multiset([x]) + multiset(s)
    ensures |r| == |s| + 1
  {
    if s == [] then [x]
    else if le(x, s[0]) then [x] + s
    else
      assert s == [s[0]] + s[1..];
      [s[0]] + Insert(le, x, s[1..])
  }

  function SortBy<T>(le: (T, T) -> bool, s: seq<T>): (r: seq<T>)
    ensures multiset(r) == multiset(s)
    ensures |r| == |s|
  {
    if s == [] then []
    else
      assert s == [s[0]] + s[1..];
      Insert(le, s[0], SortBy(le, s[1..]))
  }

  lemma {:induction false} InsertSorted<T(!new)>(le: (T, T) -> bool, x: T, s: seq<T>)
    requires TotalPreorder(le) && SortedBy(le, s)
    ensures SortedBy(le, Insert(le, x, s))
  {
    if s != [] && !le(x, s[0]) {
      InsertSorted(le, x, s[1..]);
      var r := Insert(le, x, s[1..]);
      forall j | 0 <= j < |r| ensures le(s[0], r[j]) {
        SameElements([x] + s[1..], r);
        assert r[j] in [x] + s[1..];
      }
    } else if s != [] {
      forall j | 0 <= j < |s| ensures le(x, s[j]) {
        assert le(x, s[0]) && (j == 0 || le(s[0], s[j]));
      }
    }
  }

  /** The result is in order. */
  lemma {:induction false} SortBySorted<T(!new)>(le: (T, T) -> bool, s: seq<T>)
    requires TotalPreorder(le)
    ensures SortedBy(le, SortBy(le, s))
  {
    if s != [] {
      SortBySorted(le, s[1..]);
      InsertSorted(le, s[0], SortBy(le, s[1..]));
    }
  }

  lemma SameElements<T>(a: seq<T>, b: seq<T>)
    requires multiset(a) == multiset(b)
    ensures |a| == |b|
    ensures forall x :: x in a <==> x in b
  {
    assert |multiset(a)| == |multiset(b)|;
    forall x ensures x in a <==> x in b {
      assert x in a <==> x in multiset(a);
      assert x in b <==> x in multiset(b);
    }
  }

  /** The first of an ordered arrangement is below everything in it. */
  lemma FirstIsLeast<T(!new)>(le: (T, T) -> bool, a: seq<T>, x: T)
    requires TotalPreorder(le) && SortedBy(le, a) && x in a
    ensures le(a[0], x)
  {
    var i :| 0 <= i < |a| && a[i] == x;
    assert le(a[0], a[0]);
  }

  lemma TailIsArranged<T(!new)>(le: (T, T) -> bool, a: seq<T>)
    requires SortedBy(le, a) && Separates(le, a) && a != []
    ensures SortedBy(le, a[1..]) && Separates(le, a[1..])
    ensures multiset(a[1..]) == multiset(a) - multiset{a[0]}
  {
    assert a == [a[0]] + a[1..];
    assert forall x :: x in a[1..] ==> x in a;
  }

  lemma SameFirst<T(!new)>(le: (T, T) -> bool, a: seq<T>, b: seq<T>)
    requires TotalPreorder(le) && SortedBy(le, a) && SortedBy(le, b) && Separates(le, a)
    requires a != [] && b != [] && a[0] in b && b[0] in a
    ensures a[0] == b[0]
  {
    FirstIsLeast(le, a, b[0]);
    FirstIsLeast(le, b, a[0]);
  }

  lemma TailSeparates<T(!new)>(le: (T, T) -> bool, a: seq<T>, b: seq<T>)
    requires Separates(le, a) && forall x :: x in b ==> x in a
    ensures Separates(le, b)
  {
  }

  lemma SortedHeads<T(!new)>(le: (T, T) -> bool, a: seq<T>, b: seq<T>)
    requires TotalPreorder(le)
    requires SortedBy(le, a) && SortedBy(le, b) && multiset(a) == multiset(b)
    requires Separates(le, a) && a != []
    ensures b != [] && a[0] == b[0] && Separates(le, b)
  {
    SameElements(a, b);
    TailSeparates(le, a, b);
    assert a[0] in b && b[0] in a;
    SameFirst(le, a, b);
  }

  lemma HeadAndTail<T>(a: seq<T>, b: seq<T>)
    requires a != [] && b != [] && a[0] == b[0] && a[1..] == b[1..]
    ensures a == b
  {
    assert a == [a[0]] + a[1..] && b == [b[0]] + b[1..];
  }

  /** Two ordered arrangements of the same elements are equal when the order separates them. */
  lemma {:induction false} SortedUniquely<T(!new)>(le: (T, T) -> bool, a: seq<T>, b: seq<T>)
    requires TotalPreorder(le)
    requires SortedBy(le, a) && SortedBy(le, b) && multiset(a) == multiset(b)
    requires Separates(le, a)
    ensures a == b
  {
    if a == [] {
      SameElements(a, b);
    } else {
      SortedHeads(le, a, b);
      TailIsArranged(le, a);
      TailIsArranged(le, b);
      SortedUniquely(le, a[1..], b[1..]);
      HeadAndTail(a, b);
    }
  }

  /** Sorting forgets the order of arrival. */
  lemma SortForgetsArrival<T(!new)>(le: (T, T) -> bool, a: seq<T>, b: seq<T>)
    requires TotalPreorder(le)
    requires multiset(a) == multiset(b) && Separates(le, a)
    ensures SortBy(le, a) == SortBy(le, b)
  {
    SortBySorted(le, a);
    SortBySorted(le, b);
    SameElements(a, SortBy(le, a));
    SortedUniquely(le, SortBy(le, a), SortBy(le, b));
  }

  // ---- strings ----

  /** Go's `<=` on strings: lexicographic, a proper prefix first. */
  predicate StringLe(a: string, b: string) {
    a == "" || (b != "" && (a[0] < b[0] || (a[0] == b[0] && StringLe(a[1..], b[1..]))))
  }

  /** At the first place where they differ the character decides; without one, the length. */
  lemma {:induction false} StringLeIff(a: string, b: string)
    ensures StringLe(a, b) <==> exists k :: FirstDifference(a, b, k) && (k == |a| || (k < |b| && a[k] < b[k]))
  {
    if a == "" {
      assert FirstDifference(a, b, 0);
    } else if b == "" || a[0] != b[0] {
      assert FirstDifference(a, b, 0);
      assert forall k :: FirstDifference(a, b, k) ==> k == 0;
    } else {
      StringLeIff(a[1..], b[1..]);
      if k :| FirstDifference(a[1..], b[1..], k) && (k == |a[1..]| || (k < |b[1..]| && a[1..][k] < b[1..][k])) {
        assert FirstDifference(a, b, k + 1) by {
          assert forall i :: 1 <= i < k + 1 ==> a[i] == a[1..][i - 1] && b[i] == b[1..][i - 1];
        }
      }
      if k :| FirstDifference(a, b, k) && (k == |a| || (k < |b| && a[k] < b[k])) {
        assert k > 0;
        assert FirstDifference(a[1..], b[1..], k - 1);
      }
    }
  }

  predicate FirstDifference(a: string, b: string, k: int) {
    && 0 <= k <= |a| && k <= |b| && (forall i :: 0 <= i < k ==> a[i] == b[i])
    && (k < |a| && k < |b| ==> a[k] != b[k])
  }

  lemma {:induction false} StringLeTotal(a: string, b: string)
    ensures StringLe(a, b) || StringLe(b, a)
    ensures StringLe(a, b) && StringLe(b, a) ==> a == b
  {
    if a != "" && b != "" {
      StringLeTotal(a[1..], b[1..]);
      assert a == [a[0]] + a[1..] && b == [b[0]] + b[1..];
    }
  }

  lemma {:induction false} StringLeTransitive(a: string, b: string, c: string)
    requires StringLe(a, b) && StringLe(b, c)
    ensures StringLe(a, c)
  {
    if a != "" && a[0] == b[0] && b[0] == c[0] {
      StringLeTransitive(a[1..], b[1..], c[1..]);
    }
  }

  lemma StringLeIsOrder()
    ensures TotalPreorder(StringLe)
    ensures forall a, b :: StringLe(a, b) && StringLe(b, a) ==> a == b
  {
    forall a, b ensures (StringLe(a, b) || StringLe(b, a)) && (StringLe(a, b) && StringLe(b, a) ==> a == b) {
      StringLeTotal(a, b);
    }
    forall a, b, c | StringLe(a, b) && StringLe(b, c) ensures StringLe(a, c) {
      StringLeTransitive(a, b, c);
    }
  }

  // ---- sorted, without duplicates ----

  ghost predicate StrictlyAscending(s: seq<string>) {
    forall i, j :: 0 <= i < j < |s| ==> s[i] != s[j] && StringLe(s[i], s[j])
  }

  function Elements<T>(s: seq<T>): set<T> {
    set x | x in s
  }

  lemma ElementsAppend<T>(s: seq<T>, x: T)
    ensures Elements(s + [x]) == Elements(s) + {x}
    ensures Elements([x] + s) == Elements(s) + {x}
  {
    assert forall y :: y in s + [x] <==> y in s || y == x;
    assert forall y :: y in [x] + s <==> y in s || y == x;
  }

  lemma NoElements<T>(s: seq<T>)
    ensures Elements(s) == {} <==> s == []
  {
    assert s != [] ==> s[0] in Elements(s);
  }

  /** A strictly ascending sequence is determined by its set of elements. */
  lemma {:induction false} AscendingUniquely(a: seq<string>, b: seq<string>)
    requires StrictlyAscending(a) && StrictlyAscending(b) && Elements(a) == Elements(b)
    ensures a == b
  {
    if a == [] {
      NoElements(b);
    } else {
      assert a[0] in Elements(b);
      assert b != [];
      assert b[0] in Elements(a);
      var i :| 0 <= i < |b| && b[i] == a[0];
      var j :| 0 <= j < |a| && a[j] == b[0];
      StringLeTotal(a[0], b[0]);
      assert a[0] == b[0];
      assert Elements(a[1..]) == Elements(a) - {a[0]} by { TailElements(a); }
      assert Elements(b[1..]) == Elements(b) - {b[0]} by { TailElements(b); }
      AscendingUniquely(a[1..], b[1..]);
      assert a == [a[0]] + a[1..] && b == [b[0]] + b[1..];
    }
  }

  lemma TailElements(a: seq<string>)
    requires a != [] && StrictlyAscending(a)
    ensures Elements(a[1..]) == Elements(a) - {a[0]}
  {
    forall x ensures x in Elements(a[1..]) <==> x in Elements(a) && x != a[0] {
      if x in a && x != a[0] {
        var i :| 0 <= i < |a| && a[i] == x;
        assert a[1..][i - 1] == x;
      }
    }
  }

  lemma AscendingExtend(s: seq<string>, x: string)
    requires s != [] && StrictlyAscending(s) && s[|s| - 1] != x && StringLe(s[|s| - 1], x)
    ensures StrictlyAscending(s + [x])
  {
    var last := s[|s| - 1];
    forall i | 0 <= i < |s| ensures s[i] != x && StringLe(s[i], x) {
      StringLeTotal(last, x);
      StringLeTotal(s[i], last);
      if i < |s| - 1 {
        StringLeTransitive(s[i], last, x);
      }
    }
  }

  /** One more value of a run of equal strings ... */
  lemma RunGoesOn(kept: seq<string>, seen: seq<string>, value: string)
    requires kept != [] && kept[|kept| - 1] == value && Elements(kept) == Elements(seen)
    ensures Elements(kept) == Elements(seen + [value])
  {
    ElementsAppend(seen, value);
    assert value in Elements(kept);
  }

  /** ... and the first of the next run. */
  lemma RunStarts(kept: seq<string>, seen: seq<string>, value: string)
    requires kept != [] && StrictlyAscending(kept) && kept[|kept| - 1] != value && StringLe(kept[|kept| - 1], value)
    requires Elements(kept) == Elements(seen)
    ensures StrictlyAscending(kept + [value]) && Elements(kept + [value]) == Elements(seen + [value])
  {
    AscendingExtend(kept, value);
    ElementsAppend(kept, value);
    ElementsAppend(seen, value);
  }

  /** The compaction loop: keeps one of each run of equal strings, behind a write index. */
  method Compact(buffer: array<string>) returns (write: nat)
    requires buffer.Length > 0 && SortedBy(StringLe, buffer[..])
    modifies buffer
    ensures 1 <= write <= buffer.Length
    ensures StrictlyAscending(buffer[..write])
    ensures Elements(buffer[..write]) == Elements(old(buffer[..]))
  {
    ghost var sorted := buffer[..];
    write := 1;
    for read := 1 to buffer.Length
      invariant 1 <= write <= read
      invariant forall k :: read <= k < buffer.Length ==> buffer[k] == sorted[k]
      invariant StrictlyAscending(buffer[..write])
      invariant buffer[write - 1] == sorted[read - 1]
      invariant Elements(buffer[..write]) == Elements(sorted[..read])
    {
      ghost var before := buffer[..write];
      var value := buffer[read];
      assert sorted[..read + 1] == sorted[..read] + [value];
      assert StringLe(sorted[read - 1], sorted[read]) && before[|before| - 1] == sorted[read - 1];
      if value != buffer[write - 1] {
        buffer[write] := value;
        write := write + 1;
        RunStarts(before, sorted[..read], value);
        assert buffer[..write] == before + [value];
      } else {
        RunGoesOn(before, sorted[..read], value);
      }
    }
    assert sorted[..buffer.Length] == sorted;
  }

  /**
   `sortedUnique` (internal/diagnosis/diagnosis.go:1106-1120) and `uniqueSorted`
   (internal/packet/packet.go:701-713): a sorted copy, compacted in place.
   */
  method SortedUnique(values: seq<string>) returns (result: seq<string>)
    ensures StrictlyAscending(result) && Elements(result) == Elements(values)
    ensures result == UniqueOf(values)
  {
    UniqueOfIs(values);
    if values == [] {
      return [];
    }
    var sorted := SortBy(StringLe, values);
    StringLeIsOrder();
    SortBySorted(StringLe, values);
    SameElements(values, sorted);
    var buffer := new string[|sorted|](i requires 0 <= i < |sorted| => sorted[i]);
    assert buffer[..] == sorted;
    var write := Compact(buffer);
    result := buffer[..write];
    AscendingUniquely(result, UniqueOf(values));
  }

  /** x in its place, unless it is there already. */
  function Placed(x: string, s: seq<string>): seq<string> {
    if s == [] then [x]
    else if x == s[0] then s
    else if StringLe(x, s[0]) then [x] + s
    else [s[0]] + Placed(x, s[1..])
  }

  lemma AscendingPrepend(x: string, s: seq<string>)
    requires StrictlyAscending(s) && forall y :: y in Elements(s) ==> x != y && StringLe(x, y)
    ensures StrictlyAscending([x] + s) && Elements([x] + s) == Elements(s) + {x}
  {
    ElementsAppend(s, x);
    forall j | 0 <= j < |s| ensures x != s[j] && StringLe(x, s[j]) {
      assert s[j] in Elements(s);
    }
  }

  lemma FirstIsBelow(s: seq<string>, y: string)
    requires StrictlyAscending(s) && y in Elements(s)
    ensures s != [] && StringLe(s[0], y)
  {
    StringLeTotal(y, y);
    var i :| 0 <= i < |s| && s[i] == y;
  }

  lemma {:induction false} PlacedIs(x: string, s: seq<string>)
    requires StrictlyAscending(s)
    ensures StrictlyAscending(Placed(x, s)) && Elements(Placed(x, s)) == Elements(s) + {x}
  {
    StringLeIsOrder();
    if s == [] {
      assert Elements([x]) == {x};
    } else if x != s[0] {
      if StringLe(x, s[0]) {
        forall y | y in Elements(s) ensures x != y && StringLe(x, y) {
          FirstIsBelow(s, y);
        }
        AscendingPrepend(x, s);
      } else {
        PlacedIs(x, s[1..]);
        TailElements(s);
        forall y | y in Elements(Placed(x, s[1..])) ensures s[0] != y && StringLe(s[0], y) {
          if y != x {
            FirstIsBelow(s, y);
          }
        }
        AscendingPrepend(s[0], Placed(x, s[1..]));
      }
    }
  }

  /** The sorted list of the different values, as a function. */
  function UniqueOf(values: seq<string>): seq<string> {
    if values == [] then [] else Placed(values[|values| - 1], UniqueOf(values[..|values| - 1]))
  }

  lemma {:induction false} UniqueOfIs(values: seq<string>)
    ensures StrictlyAscending(UniqueOf(values)) && Elements(UniqueOf(values)) == Elements(values)
  {
    if values != [] {
      var front, last := values[..|values| - 1], values[|values| - 1];
      UniqueOfIs(front);
      PlacedIs(last, UniqueOf(front));
      assert values == front + [last];
      ElementsAppend(front, last);
    }
  }

  /** It depends on the set of values only. */
  lemma UniqueOfSet(a: seq<string>, b: seq<string>)
    requires Elements(a) == Elements(b)
    ensures UniqueOf(a) == UniqueOf(b)
  {
    UniqueOfIs(a);
    UniqueOfIs(b);
    AscendingUniquely(UniqueOf(a), UniqueOf(b));
  }
}
