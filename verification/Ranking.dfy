/** A stable sort, largest key first. */
module Ranking {
  function InsertRanked<T>(x: T, s: seq<T>, key: T -> real): (r: seq<T>)
    ensures |r| == |s| + 1
  {
    if s == [] || key(x) >= key(s[0]) then [x] + s else [s[0]] + InsertRanked(x, s[1..], key)
  }

  function Ranked<T>(items: seq<T>, key: T -> real): (r: seq<T>)
    ensures |r| == |items|
  {
    if items == [] then [] else InsertRanked(items[0], Ranked(items[1..], key), key)
  }

  /** `a` comes before `b`: its key is larger, or as large and it stood first. */
  predicate Precedes<T>(a: T, b: T, key: T -> real, at: T -> nat) {
    key(a) > key(b) || (key(a) == key(b) && at(a) < at(b))
  }

  ghost predicate InOrder<T(!new)>(items: seq<T>, key: T -> real, at: T -> nat) {
    forall i, j :: 0 <= i < j < |items| ==> Precedes(items[i], items[j], key, at)
  }

  ghost predicate Placed<T(!new)>(items: seq<T>, at: T -> nat) {
    forall i, j :: 0 <= i < j < |items| ==> at(items[i]) < at(items[j])
  }

  lemma {:induction false} InsertedElements<T>(x: T, s: seq<T>, key: T -> real)
    ensures multiset(InsertRanked(x, s, key)) == multiset(s) + multiset{x}
  {
    if s != [] && key(x) < key(s[0]) {
      InsertedElements(x, s[1..], key);
      assert s == [s[0]] + s[1..];
    }
  }

  lemma {:induction false} RankedElements<T>(items: seq<T>, key: T -> real)
    ensures multiset(Ranked(items, key)) == multiset(items)
  {
    if items != [] {
      RankedElements(items[1..], key);
      InsertedElements(items[0], Ranked(items[1..], key), key);
      assert items == [items[0]] + items[1..];
    }
  }

  lemma FirstInOrder<T(!new)>(x: T, rest: seq<T>, key: T -> real, at: T -> nat)
    requires InOrder(rest, key, at) && forall j :: 0 <= j < |rest| ==> Precedes(x, rest[j], key, at)
    ensures InOrder([x] + rest, key, at)
  {
  }

  lemma {:induction false} InsertedInOrder<T(!new)>(x: T, s: seq<T>, key: T -> real, at: T -> nat)
    requires InOrder(s, key, at) && forall y :: y in s ==> at(x) < at(y)
    ensures InOrder(InsertRanked(x, s, key), key, at)
  {
    if s != [] && key(x) < key(s[0]) {
      var rest := InsertRanked(x, s[1..], key);
      InsertedInOrder(x, s[1..], key, at);
      InsertedElements(x, s[1..], key);
      forall j | 0 <= j < |rest| ensures Precedes(s[0], rest[j], key, at) {
        assert rest[j] in multiset(rest);
      }
      FirstInOrder(s[0], rest, key, at);
    } else {
      FirstInOrder(x, s, key, at);
    }
  }

  /** Sorted by key, and among equal keys as they stood. */
  lemma {:induction false} RankedInOrder<T(!new)>(items: seq<T>, key: T -> real, at: T -> nat)
    requires Placed(items, at)
    ensures InOrder(Ranked(items, key), key, at)
  {
    if items != [] {
      RankedInOrder(items[1..], key, at);
      RankedElements(items[1..], key);
      forall y | y in Ranked(items[1..], key) ensures at(items[0]) < at(y) {
        assert y in multiset(items[1..]);
      }
      InsertedInOrder(items[0], Ranked(items[1..], key), key, at);
    }
  }
}
