/** Sorting, counting and medians of real numbers. */
module Statistics {
  ghost predicate Ascending(s: seq<real>) {
    forall i, j :: 0 <= i < j < |s| ==> s[i] <= s[j]
  }

  ghost predicate Distinct(s: seq<real>) {
    forall i, j :: 0 <= i < j < |s| ==> s[i] != s[j]
  }

  function Insert(x: real, s: seq<real>): (r: seq<real>)
    ensures |r| == |s| + 1
  {
    if s == [] || x <= s[0] then [x] + s else [s[0]] + Insert(x, s[1..])
  }

  /** The values in ascending order. */
  function Sorted(values: seq<real>): (r: seq<real>)
    ensures |r| == |values|
  {
    if values == [] then [] else Insert(values[0], Sorted(values[1..]))
  }

  lemma {:induction false} InsertedElements(x: real, s: seq<real>, v: real)
    ensures v in Insert(x, s) <==> v == x || v in s
  {
    if s != [] && x > s[0] {
      InsertedElements(x, s[1..], v);
      assert s == [s[0]] + s[1..];
    }
  }

  lemma {:induction false} SameElements(values: seq<real>, v: real)
    ensures v in Sorted(values) <==> v in values
  {
    if values != [] {
      assert values == [values[0]] + values[1..];
      SameElements(values[1..], v);
      InsertedElements(values[0], Sorted(values[1..]), v);
    }
  }

  lemma {:induction false} InsertKeepsOrder(x: real, s: seq<real>)
    requires Ascending(s)
    ensures Ascending(Insert(x, s))
    ensures Distinct(s) && x !in s ==> Distinct(Insert(x, s))
  {
    if s != [] && x > s[0] {
      var rest := Insert(x, s[1..]);
      InsertKeepsOrder(x, s[1..]);
      forall i | 0 <= i < |rest| ensures s[0] <= rest[i] && (Distinct(s) && x !in s ==> s[0] != rest[i]) {
        InsertedElements(x, s[1..], rest[i]);
      }
    }
  }

  lemma {:induction false} SortedAscends(values: seq<real>)
    ensures Ascending(Sorted(values))
    ensures Distinct(values) ==> Distinct(Sorted(values))
  {
    if values != [] {
      SortedAscends(values[1..]);
      InsertKeepsOrder(values[0], Sorted(values[1..]));
      SameElements(values[1..], values[0]);
    }
  }

  lemma {:induction false} InsertedMultiset(x: real, s: seq<real>)
    ensures multiset(Insert(x, s)) == multiset(s) + multiset{x}
  {
    if s != [] && x > s[0] {
      InsertedMultiset(x, s[1..]);
      assert s == [s[0]] + s[1..];
    }
  }

  lemma {:induction false} SortedIsAPermutation(values: seq<real>)
    ensures multiset(Sorted(values)) == multiset(values)
  {
    if values != [] {
      assert values == [values[0]] + values[1..];
      SortedIsAPermutation(values[1..]);
      InsertedMultiset(values[0], Sorted(values[1..]));
    }
  }

  lemma FirstIsLeast(s: seq<real>, v: real)
    requires Ascending(s) && v in multiset(s)
    ensures s != [] && s[0] <= v
  {
  }

  lemma MultisetOfTheRest(s: seq<real>)
    requires s != []
    ensures multiset(s[1..]) == multiset(s) - multiset{s[0]}
  {
    assert s == [s[0]] + s[1..];
  }

  lemma SameFirst(a: seq<real>, b: seq<real>)
    requires Ascending(a) && Ascending(b) && multiset(a) == multiset(b) && a != []
    ensures b != [] && a[0] == b[0]
  {
    assert a[0] in multiset(a);
    FirstIsLeast(b, a[0]);
    assert b[0] in multiset(b);
    FirstIsLeast(a, b[0]);
  }

  lemma {:induction false} OneAscendingOrder(a: seq<real>, b: seq<real>)
    requires Ascending(a) && Ascending(b) && multiset(a) == multiset(b)
    ensures a == b
  {
    if a == [] {
      assert |multiset(b)| == 0;
    } else {
      SameFirst(a, b);
      MultisetOfTheRest(a);
      MultisetOfTheRest(b);
      OneAscendingOrder(a[1..], b[1..]);
      assert a == [a[0]] + a[1..] && b == [b[0]] + b[1..];
    }
  }

  // ---- Counting ----

  function Count(values: seq<real>, p: real -> bool): nat {
    if values == [] then 0 else (if p(values[0]) then 1 else 0) + Count(values[1..], p)
  }

  lemma {:induction false} CountOfConcatenation(a: seq<real>, b: seq<real>, p: real -> bool)
    ensures Count(a + b, p) == Count(a, p) + Count(b, p)
  {
    if a == [] {
      assert a + b == b;
    } else {
      assert (a + b)[1..] == a[1..] + b;
      CountOfConcatenation(a[1..], b, p);
    }
  }

  lemma {:induction false} CountAll(values: seq<real>, p: real -> bool)
    requires forall i :: 0 <= i < |values| ==> p(values[i])
    ensures Count(values, p) == |values|
  {
    if values != [] {
      CountAll(values[1..], p);
    }
  }

  lemma {:induction false} CountNone(values: seq<real>, p: real -> bool)
    requires forall i :: 0 <= i < |values| ==> !p(values[i])
    ensures Count(values, p) == 0
  {
    if values != [] {
      CountNone(values[1..], p);
    }
  }

  lemma {:induction false} CountIsAtMostLength(values: seq<real>, p: real -> bool)
    ensures Count(values, p) <= |values|
  {
    if values != [] {
      CountIsAtMostLength(values[1..], p);
    }
  }

  lemma {:induction false} CountGrowsWithThePredicate(values: seq<real>, p: real -> bool, q: real -> bool)
    requires forall v :: p(v) ==> q(v)
    ensures Count(values, p) <= Count(values, q)
  {
    if values != [] {
      CountGrowsWithThePredicate(values[1..], p, q);
    }
  }

  lemma {:induction false} CountInserted(x: real, s: seq<real>, p: real -> bool)
    ensures Count(Insert(x, s), p) == Count(s, p) + if p(x) then 1 else 0
  {
    if s == [] || x <= s[0] {
      assert ([x] + s)[1..] == s;
    } else {
      CountInserted(x, s[1..], p);
      var r := [s[0]] + Insert(x, s[1..]);
      assert r[1..] == Insert(x, s[1..]);
    }
  }

  lemma {:induction false} CountSorted(values: seq<real>, p: real -> bool)
    ensures Count(Sorted(values), p) == Count(values, p)
  {
    if values != [] {
      CountSorted(values[1..], p);
      CountInserted(values[0], Sorted(values[1..]), p);
    }
  }

  // ---- The median ----

  /** The mean of the two middle values, which are one value for an odd count. */
  function Median(values: seq<real>): real {
    if values == [] then 0.0
    else
      var s := Sorted(values);
      (s[(|s| - 1) / 2] + s[|s| / 2]) / 2.0
  }

  function AtMost(limit: real): real -> bool {
    x => x <= limit
  }

  function AtLeast(limit: real): real -> bool {
    x => x >= limit
  }

  /** In an ascending list, at least `|s| - k` values are at least the `k`-th. */
  lemma FromTheKthOn(s: seq<real>, k: nat, limit: real)
    requires Ascending(s) && k < |s| && limit <= s[k]
    ensures Count(s, AtLeast(limit)) >= |s| - k
  {
    assert s == s[..k] + s[k..];
    CountOfConcatenation(s[..k], s[k..], AtLeast(limit));
    CountAll(s[k..], AtLeast(limit));
  }

  lemma UpToTheKth(s: seq<real>, k: nat, limit: real)
    requires Ascending(s) && k < |s| && s[k] <= limit
    ensures Count(s, AtMost(limit)) >= k + 1
  {
    assert s == s[..k + 1] + s[k + 1..];
    CountOfConcatenation(s[..k + 1], s[k + 1..], AtMost(limit));
    CountAll(s[..k + 1], AtMost(limit));
  }

  /** At least half of the values lie on each side of the median. */
  lemma MedianSplitsTheValues(values: seq<real>)
    requires values != []
    ensures 2 * Count(values, AtMost(Median(values))) >= |values|
    ensures 2 * Count(values, AtLeast(Median(values))) >= |values|
  {
    var s := Sorted(values);
    var m := Median(values);
    SortedAscends(values);
    UpToTheKth(s, (|s| - 1) / 2, m);
    FromTheKthOn(s, |s| / 2, m);
    CountSorted(values, AtMost(m));
    CountSorted(values, AtLeast(m));
  }

  /** It lies strictly within any open interval that holds every value. */
  lemma MedianIsWithin(values: seq<real>, low: real, high: real)
    requires values != [] && forall v :: v in values ==> low < v < high
    ensures low < Median(values) < high
  {
    var s := Sorted(values);
    var a, b := s[(|s| - 1) / 2], s[|s| / 2];
    SameElements(values, a);
    SameElements(values, b);
  }

  /** However the values are put in order, it is halfway between the two in the middle, which for
    * an odd count are one. */
  lemma MedianIsTheMiddle(values: seq<real>, inOrder: seq<real>)
    requires values != [] && Ascending(inOrder) && multiset(inOrder) == multiset(values)
    ensures |inOrder| == |values|
    ensures 2.0 * Median(values) == inOrder[(|values| - 1) / 2] + inOrder[|values| / 2]
  {
    assert |multiset(inOrder)| == |inOrder| && |multiset(values)| == |values|;
    SortedAscends(values);
    SortedIsAPermutation(values);
    OneAscendingOrder(inOrder, Sorted(values));
  }

  /** And it does not depend on the order the values came in. */
  lemma MedianIgnoresOrder(a: seq<real>, b: seq<real>)
    requires multiset(a) == multiset(b)
    ensures Median(a) == Median(b)
  {
    assert |multiset(a)| == |a| && |multiset(b)| == |b|;
    SortedAscends(a);
    SortedAscends(b);
    SortedIsAPermutation(a);
    SortedIsAPermutation(b);
    OneAscendingOrder(Sorted(a), Sorted(b));
  }
}
