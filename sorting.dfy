/** Python's `sorted` on strings, as insertion sort under the code-point order. */
module Sorting {
  import opened Text

  predicate LexLe(a: string, b: string)
  {
    a == b || LexLess(a, b)
  }

  predicate Sorted(xs: seq<string>)
  {
    forall i, j :: 0 <= i < j < |xs| ==> LexLe(xs[i], xs[j])
  }

  /** `x` placed before the first element that is not smaller than it. */
  function Insert(x: string, xs: seq<string>): (r: seq<string>)
    requires Sorted(xs)
    ensures Sorted(r)
    ensures multiset(r) == multiset(xs) + multiset{x}
    ensures |r| == |xs| + 1
  {
    if |xs| == 0 then [x]
    else if LexLe(x, xs[0]) then
      InsertFront(x, xs);
      [x] + xs
    else
      LexLessTotal(x, xs[0]);
      var rest := Insert(x, xs[1..]);
      InsertBehind(xs[0], rest, xs[1..], x);
      assert xs == [xs[0]] + xs[1..];
      [xs[0]] + rest
  }

  lemma InsertFront(x: string, xs: seq<string>)
    requires Sorted(xs) && |xs| > 0 && LexLe(x, xs[0])
    ensures Sorted([x] + xs)
  {
    var r := [x] + xs;
    forall i, j | 0 <= i < j < |r|
      ensures LexLe(r[i], r[j])
    {
      if i == 0 && j > 1 {
        assert LexLe(xs[0], xs[j - 1]);
        if x != xs[0] && xs[0] != xs[j - 1] {
          LexLessTransitive(x, xs[0], xs[j - 1]);
        }
      }
    }
  }

  lemma InsertBehind(y: string, rest: seq<string>, tail: seq<string>, x: string)
    requires Sorted(rest) && Sorted([y] + tail) && LexLess(y, x)
    requires multiset(rest) == multiset(tail) + multiset{x}
    ensures Sorted([y] + rest)
  {
    var r := [y] + rest;
    forall i, j | 0 <= i < j < |r|
      ensures LexLe(r[i], r[j])
    {
      var z := rest[j - 1];
      assert r[j] == z;
      if i == 0 {
        assert z in multiset(rest);
        if z != x {
          assert z in multiset(tail);
          var k :| 0 <= k < |tail| && tail[k] == z;
          assert ([y] + tail)[0] == y && ([y] + tail)[k + 1] == z;
        }
      } else {
        assert r[i] == rest[i - 1];
      }
    }
  }

  /** `sorted(xs)` */
  function Sort(xs: seq<string>): (r: seq<string>)
    ensures Sorted(r)
    ensures multiset(r) == multiset(xs)
    ensures |r| == |xs|
  {
    if |xs| == 0 then []
    else
      assert xs == xs[..|xs| - 1] + [xs[|xs| - 1]];
      Insert(xs[|xs| - 1], Sort(xs[..|xs| - 1]))
  }

  /** A sorted sequence without repeats is strictly increasing. */
  lemma SortedDistinctStrict(xs: seq<string>, i: nat, j: nat)
    requires Sorted(xs) && i < j < |xs| && xs[i] != xs[j]
    ensures LexLess(xs[i], xs[j]) && !LexLess(xs[j], xs[i])
  {
    LexLessAsymmetric(xs[i], xs[j]);
  }
}
