/** Generic sequence vocabulary shared by the table-cleaning stages:
    filtering, flattening, occurrence counting, first-appearance
    de-duplication and the "is an order-preserving subsequence" relation. */
module Seqs {
  import opened Wrappers


  /** Python's `[x for x in s if p(x)]`. */
  function Filter<T>(s: seq<T>, p: T -> bool): (r: seq<T>)
    ensures |r| <= |s|
  {
    if |s| == 0 then [] else (if p(s[0]) then [s[0]] else []) + Filter(s[1..], p)
  }

  /** The defined images `f(x)` of the elements of `s`, in order. */
  function Collect<T, U>(s: seq<T>, f: T -> Option<U>): seq<U>
    decreases |s|
  {
    if |s| == 0 then []
    else Collect(s[..|s| - 1], f) + (match f(s[|s| - 1]) case Some(y) => [y] case None => [])
  }

  lemma {:induction false} CollectMembers<T, U>(s: seq<T>, f: T -> Option<U>, y: U)
    ensures y in Collect(s, f) <==> exists j :: 0 <= j < |s| && f(s[j]) == Some(y)
    decreases |s|
  {
    if |s| > 0 {
      var init := s[..|s| - 1];
      CollectMembers(init, f, y);
      if y in Collect(init, f) {
        var j :| 0 <= j < |init| && f(init[j]) == Some(y);
        assert s[j] == init[j];
      }
      if exists j :: 0 <= j < |s| && f(s[j]) == Some(y) {
        var j :| 0 <= j < |s| && f(s[j]) == Some(y);
        if j < |init| {
          assert s[j] == init[j];
        }
      }
    }
  }

  lemma CollectSnoc<T, U>(s: seq<T>, x: T, f: T -> Option<U>)
    ensures Collect(s + [x], f) == Collect(s, f) + (match f(x) case Some(y) => [y] case None => [])
  {
    assert (s + [x])[..|s|] == s;
  }

  /** `[f(x) for x in s]` */
  function Map<T, U>(s: seq<T>, f: T -> U): (r: seq<U>)
    ensures |r| == |s|
    decreases |s|
  {
    if |s| == 0 then [] else Map(s[..|s| - 1], f) + [f(s[|s| - 1])]
  }

  lemma {:induction false} MapAt<T, U>(s: seq<T>, f: T -> U, i: nat)
    requires i < |s|
    ensures Map(s, f)[i] == f(s[i])
    decreases |s|
  {
    if i < |s| - 1 {
      MapAt(s[..|s| - 1], f, i);
    }
  }

  lemma MapSnoc<T, U>(s: seq<T>, x: T, f: T -> U)
    ensures Map(s + [x], f) == Map(s, f) + [f(x)]
  {
    assert (s + [x])[..|s|] == s;
  }

  /** `g(x)` for every element `x` of `s`, concatenated in order. */
  function Gather<T, U>(s: seq<T>, g: T -> seq<U>): seq<U>
    decreases |s|
  {
    if |s| == 0 then [] else Gather(s[..|s| - 1], g) + g(s[|s| - 1])
  }

  lemma {:induction false} GatherMembers<T, U>(s: seq<T>, g: T -> seq<U>, y: U)
    ensures y in Gather(s, g) <==> exists i :: 0 <= i < |s| && y in g(s[i])
    decreases |s|
  {
    if |s| > 0 {
      var init := s[..|s| - 1];
      GatherMembers(init, g, y);
      if y in Gather(init, g) {
        var i :| 0 <= i < |init| && y in g(init[i]);
        assert s[i] == init[i];
      }
      if exists i :: 0 <= i < |s| && y in g(s[i]) {
        var i :| 0 <= i < |s| && y in g(s[i]);
        if i < |init| {
          assert s[i] == init[i];
        }
      }
    }
  }

  lemma GatherSnoc<T, U>(s: seq<T>, x: T, g: T -> seq<U>)
    ensures Gather(s + [x], g) == Gather(s, g) + g(x)
  {
    assert (s + [x])[..|s|] == s;
  }

  lemma {:induction false} GatherAppend<T, U>(a: seq<T>, b: seq<T>, g: T -> seq<U>)
    ensures Gather(a + b, g) == Gather(a, g) + Gather(b, g)
    decreases |b|
  {
    if |b| == 0 {
      assert a + b == a;
    } else {
      var n := |b| - 1;
      GatherAppend(a, b[..n], g);
      assert (a + b)[..|a + b| - 1] == a + b[..n];
      assert (a + b)[|a + b| - 1] == b[n];
      AppendAssoc(Gather(a, g), Gather(b[..n], g), g(b[n]));
    }
  }

  /** The filter keeps exactly the elements that pass. */
  lemma {:induction false} FilterMembers<T>(s: seq<T>, p: T -> bool)
    ensures forall x :: x in Filter(s, p) ==> x in s && p(x)
    ensures forall x :: x in s && p(x) ==> x in Filter(s, p)
    decreases |s|
  {
    if |s| > 0 {
      FilterMembers(s[1..], p);
      assert s == [s[0]] + s[1..];
    }
  }

  lemma {:induction false} FilterAppend<T>(a: seq<T>, b: seq<T>, p: T -> bool)
    ensures Filter(a + b, p) == Filter(a, p) + Filter(b, p)
  {
    if |a| == 0 {
      assert a + b == b;
    } else {
      var ab := a + b;
      var head := if p(a[0]) then [a[0]] else [];
      assert ab[0] == a[0];
      assert ab[1..] == a[1..] + b;
      FilterAppend(a[1..], b, p);
      assert Filter(ab, p) == head + Filter(ab[1..], p);
      assert Filter(a, p) == head + Filter(a[1..], p);
    }
  }

  lemma FilterSingle<T>(x: T, p: T -> bool)
    ensures Filter([x], p) == if p(x) then [x] else []
  {
    assert [x][1..] == [];
  }

  /** A filter every element passes keeps the whole sequence. */
  lemma {:induction false} FilterAll<T>(s: seq<T>, p: T -> bool)
    requires forall i :: 0 <= i < |s| ==> p(s[i])
    ensures Filter(s, p) == s
  {
    if |s| > 0 {
      FilterAll(s[1..], p);
    }
  }

  /** Filtering out the one rejected element between two kept runs joins them. */
  lemma FilterGap<T>(a: seq<T>, x: T, b: seq<T>, p: T -> bool)
    requires forall i :: 0 <= i < |a| ==> p(a[i])
    requires forall i :: 0 <= i < |b| ==> p(b[i])
    requires !p(x)
    ensures Filter(a + [x] + b, p) == a + b
  {
    FilterAppend(a + [x], b, p);
    FilterAppend(a, [x], p);
    FilterSingle(x, p);
    FilterAll(a, p);
    FilterAll(b, p);
    AppendNil(a);
  }

  /** A filter no element passes keeps nothing. */
  lemma {:induction false} FilterNone<T>(s: seq<T>, p: T -> bool)
    requires forall i :: 0 <= i < |s| ==> !p(s[i])
    ensures Filter(s, p) == []
  {
    if |s| > 0 {
      FilterNone(s[1..], p);
    }
  }

  /** An element occurs in the filtered sequence as often as in the original when
      it passes, and not at all otherwise. */
  lemma {:induction false} FilterCount<T>(s: seq<T>, p: T -> bool, x: T)
    ensures Count(Filter(s, p), x) == if p(x) then Count(s, x) else 0
  {
    if |s| > 0 {
      FilterCount(s[1..], p, x);
      var head := if p(s[0]) then [s[0]] else [];
      CountAppend(head, Filter(s[1..], p), x);
    }
  }

  lemma AppendAssoc<T>(a: seq<T>, b: seq<T>, c: seq<T>)
    ensures (a + b) + c == a + (b + c)
  {
  }

  lemma AppendNil<T>(a: seq<T>)
    ensures a + [] == a
  {
  }

  /** A non-empty sequence is its front and its last element. */
  lemma FrontLast<T>(s: seq<T>)
    requires |s| > 0
    ensures s == s[..|s| - 1] + [s[|s| - 1]]
  {
  }

  /** A prefix one longer is the prefix and the next element. */
  lemma TakeSnoc<T>(s: seq<T>, k: nat)
    requires k < |s|
    ensures s[..k + 1] == s[..k] + [s[k]]
  {
  }

  /** Concatenation of a sequence of sequences. */
  function Flatten<T>(ss: seq<seq<T>>): seq<T>
  {
    if |ss| == 0 then [] else ss[0] + Flatten(ss[1..])
  }

  /** The prefix one longer flattens to one more piece. */
  lemma FlattenSnoc<T>(parts: seq<seq<T>>, i: nat)
    requires i < |parts|
    ensures Flatten(parts[..i + 1]) == Flatten(parts[..i]) + parts[i]
  {
    FlattenAppend(parts[..i], [parts[i]]);
    TakeSnoc(parts, i);
    assert Flatten([parts[i]]) == parts[i] + Flatten([]);
    AppendNil(parts[i]);
  }

  lemma {:induction false} FlattenAppend<T>(a: seq<seq<T>>, b: seq<seq<T>>)
    ensures Flatten(a + b) == Flatten(a) + Flatten(b)
  {
    if |a| == 0 {
      assert a + b == b;
    } else {
      assert (a + b)[1..] == a[1..] + b;
      FlattenAppend(a[1..], b);
    }
  }

  /** Number of occurrences of `x` in `s` (Python's `s.count(x)`). */
  function Count<T(==)>(s: seq<T>, x: T): (n: nat)
    ensures n <= |s|
    ensures n > 0 <==> x in s
  {
    if |s| == 0 then 0 else (if s[0] == x then 1 else 0) + Count(s[1..], x)
  }

  lemma {:induction false} CountAppend<T>(a: seq<T>, b: seq<T>, x: T)
    ensures Count(a + b, x) == Count(a, x) + Count(b, x)
  {
    if |a| == 0 {
      assert a + b == b;
    } else {
      assert (a + b)[1..] == a[1..] + b;
      CountAppend(a[1..], b, x);
    }
  }

  /** No element occurs twice. */
  predicate NoDuplicates<T(==)>(s: seq<T>)
  {
    forall i, j :: 0 <= i < j < |s| ==> s[i] != s[j]
  }

  /** The distinct elements of `s` in order of first appearance
      (pandas' `unique()`, Python's `dict.fromkeys`). */
  function Distinct<T(==)>(s: seq<T>): (r: seq<T>)
    ensures NoDuplicates(r)
    ensures forall i :: 0 <= i < |r| ==> r[i] in s
    ensures forall i :: 0 <= i < |s| ==> s[i] in r
  {
    if |s| == 0 then []
    else
      var r0 := Distinct(s[..|s| - 1]);
      assert forall i :: 0 <= i < |s| - 1 ==> s[i] == s[..|s| - 1][i];
      if s[|s| - 1] in r0 then r0 else r0 + [s[|s| - 1]]
  }

  /** One more element joins the distinct list only when it is new. */
  lemma DistinctSnoc<T>(s: seq<T>, x: T)
    ensures Distinct(s + [x]) == if x in Distinct(s) then Distinct(s) else Distinct(s) + [x]
  {
    assert (s + [x])[..|s|] == s;
  }

  /** An element listed twice is listed once. */
  lemma DistinctTwice<T>(x: T)
    ensures Distinct([x, x]) == [x]
  {
    assert [x, x][..1] == [x];
    assert Distinct([x]) == [x] by {
      assert [x][..0] == [];
    }
  }

  /** Position of the first occurrence of `x`. */
  function FirstIndex<T(==)>(s: seq<T>, x: T): (i: nat)
    requires x in s
    ensures i < |s| && s[i] == x && forall j :: 0 <= j < i ==> s[j] != x
  {
    if s[0] == x then 0 else FirstIndex(s[1..], x) + 1
  }

  lemma {:induction false} FirstIndexSnoc<T>(s: seq<T>, x: T, y: T)
    requires y in s
    ensures FirstIndex(s + [x], y) == FirstIndex(s, y)
  {
    var i := FirstIndex(s, y);
    var l := s + [x];
    assert l[i] == y;
    assert forall j :: 0 <= j < |s| ==> l[j] == s[j];
  }

  /** The distinct elements come in the order of their first occurrences. */
  lemma {:induction false} DistinctFirstOrder<T>(s: seq<T>, i: nat, j: nat)
    requires i < j < |Distinct(s)|
    ensures FirstIndex(s, Distinct(s)[i]) < FirstIndex(s, Distinct(s)[j])
    decreases |s|
  {
    var n := |s| - 1;
    var init := s[..n];
    assert s == init + [s[n]];
    DistinctSnoc(init, s[n]);
    var r0 := Distinct(init);
    if j < |r0| {
      DistinctFirstOrder(init, i, j);
      FirstIndexSnoc(init, s[n], r0[i]);
      FirstIndexSnoc(init, s[n], r0[j]);
    } else {
      // the last distinct element is `s[n]`, new at position `n`
      assert Distinct(s)[j] == s[n] && s[n] !in init;
      FirstIndexSnoc(init, s[n], r0[i]);
      NewFirstIndex(init, s[n]);
    }
  }

  lemma NewFirstIndex<T>(s: seq<T>, x: T)
    requires x !in s
    ensures FirstIndex(s + [x], x) == |s|
  {
    var l := s + [x];
    assert l[|s|] == x;
    assert forall j :: 0 <= j < |s| ==> l[j] == s[j];
  }

  /** `a` is `b` with some elements deleted, order kept. */
  predicate SubSeq<T(==)>(a: seq<T>, b: seq<T>)
    decreases |b|
  {
    if |a| == 0 then true
    else if |b| == 0 then false
    else if a[0] == b[0] then SubSeq(a[1..], b[1..])
    else SubSeq(a, b[1..])
  }

  lemma {:induction false} FilterIsSubSeq<T>(s: seq<T>, p: T -> bool)
    ensures SubSeq(Filter(s, p), s)
    decreases |s|
  {
    if |s| > 0 {
      FilterIsSubSeq(s[1..], p);
      if !p(s[0]) {
        assert Filter(s, p) == Filter(s[1..], p);
        SubSeqDropHead(Filter(s[1..], p), s);
      }
    }
  }

  /** Deleting the head of the longer sequence keeps the relation if it held on the tail. */
  lemma {:induction false} SubSeqDropHead<T>(a: seq<T>, b: seq<T>)
    requires |b| > 0 && SubSeq(a, b[1..])
    ensures SubSeq(a, b)
    decreases |b|, |a|
  {
    if |a| > 0 && a[0] == b[0] {
      SubSeqTail(a, b[1..]);
    }
  }

  /** A subsequence's tail is a subsequence too. */
  lemma {:induction false} SubSeqTail<T>(a: seq<T>, b: seq<T>)
    requires |a| > 0 && SubSeq(a, b)
    ensures SubSeq(a[1..], b)
    decreases |b|, |a|
  {
    if a[0] == b[0] {
      if |a| > 1 {
        SubSeqDropHead(a[1..], b);
      }
    } else {
      SubSeqTail(a, b[1..]);
      SubSeqDropHead(a[1..], b);
    }
  }

  /** Every sequence is a subsequence of itself. */
  lemma {:induction false} SubSeqRefl<T>(a: seq<T>)
    ensures SubSeq(a, a)
    decreases |a|
  {
    if |a| > 0 {
      SubSeqRefl(a[1..]);
    }
  }

  /** Subsequences of two parts give a subsequence of the two parts joined. */
  lemma {:induction false} SubSeqConcat<T>(a1: seq<T>, b1: seq<T>, a2: seq<T>, b2: seq<T>)
    requires SubSeq(a1, b1) && SubSeq(a2, b2)
    ensures SubSeq(a1 + a2, b1 + b2)
    decreases |b1|
  {
    if |b1| == 0 {
      assert a1 + a2 == a2 && b1 + b2 == b2;
    } else {
      assert (b1 + b2)[1..] == b1[1..] + b2;
      if |a1| > 0 && a1[0] == b1[0] {
        SubSeqConcat(a1[1..], b1[1..], a2, b2);
        assert (a1 + a2)[1..] == a1[1..] + a2;
      } else {
        if |a1| == 0 {
          assert SubSeq(a1, b1[1..]);
        }
        SubSeqConcat(a1, b1[1..], a2, b2);
        SubSeqDropHead(a1 + a2, b1 + b2);
      }
    }
  }

  /** Index of the first element satisfying `p`. */
  function FirstWhere<T>(s: seq<T>, p: T -> bool): (r: Option<nat>)
    ensures r.Some? ==> r.value < |s| && p(s[r.value])
    ensures r.Some? ==> forall j :: 0 <= j < r.value ==> !p(s[j])
    ensures r.None? ==> forall j :: 0 <= j < |s| ==> !p(s[j])
  {
    if |s| == 0 then None
    else if p(s[0]) then Some(0)
    else match FirstWhere(s[1..], p)
      case None => None
      case Some(k) => Some(k + 1)
  }

  /** Appending an element moves the first match only when there was none. */
  lemma {:induction false} FirstWhereSnoc<T>(s: seq<T>, x: T, p: T -> bool)
    ensures FirstWhere(s + [x], p) ==
      if FirstWhere(s, p).Some? then FirstWhere(s, p)
      else if p(x) then Some(|s|) else None
    decreases |s|
  {
    var l := s + [x];
    if |s| == 0 {
      assert l == [x] && l[1..] == [];
    } else {
      assert l[0] == s[0];
      if !p(s[0]) {
        assert l[1..] == s[1..] + [x];
        FirstWhereSnoc(s[1..], x, p);
      }
    }
  }

  /** A match found in a prefix is the first match of the whole sequence. */
  lemma {:induction false} FirstWherePrefix<T>(s: seq<T>, n: nat, p: T -> bool)
    requires n <= |s|
    ensures FirstWhere(s[..n], p).Some? ==> FirstWhere(s, p) == FirstWhere(s[..n], p)
    decreases n
  {
    if n > 0 {
      assert s[..n][0] == s[0];
      if !p(s[0]) {
        assert s[..n][1..] == s[1..][..n - 1];
        FirstWherePrefix(s[1..], n - 1, p);
      }
    }
  }

  /** The keys of the elements, in order. */
  function KeyList<T, K>(s: seq<T>, key: T -> K): (r: seq<K>)
    ensures |r| == |s|
  {
    seq(|s|, i requires 0 <= i < |s| => key(s[i]))
  }

  /** The first element for every key, in order (pandas' `drop_duplicates(subset=...)`
      with `keep="first"`). */
  function FirstPerKey<T, K(==)>(s: seq<T>, key: T -> K): (r: seq<T>)
    decreases |s|
  {
    if |s| == 0 then []
    else
      var r0 := FirstPerKey(s[..|s| - 1], key);
      if key(s[|s| - 1]) in KeyList(r0, key) then r0 else r0 + [s[|s| - 1]]
  }

  /** No two kept elements share a key. */
  lemma {:induction false} FirstPerKeyUnique<T, K>(s: seq<T>, key: T -> K)
    ensures NoDuplicates(KeyList(FirstPerKey(s, key), key))
    decreases |s|
  {
    if |s| > 0 {
      var r0 := FirstPerKey(s[..|s| - 1], key);
      FirstPerKeyUnique(s[..|s| - 1], key);
      var x := s[|s| - 1];
      if key(x) !in KeyList(r0, key) {
        var ks := KeyList(r0 + [x], key);
        forall i, j | 0 <= i < j < |ks|
          ensures ks[i] != ks[j]
        {
          assert ks[i] == KeyList(r0, key)[i];
          if j < |r0| {
            assert ks[j] == KeyList(r0, key)[j];
          }
        }
      }
    }
  }

  /** Every key of the input is the key of a kept element, and no other key is. */
  lemma {:induction false} FirstPerKeyKeys<T, K>(s: seq<T>, key: T -> K, k: K)
    ensures k in KeyList(FirstPerKey(s, key), key) <==> k in KeyList(s, key)
    decreases |s|
  {
    if |s| > 0 {
      var init := s[..|s| - 1];
      var r0 := FirstPerKey(init, key);
      FirstPerKeyKeys(init, key, k);
      assert KeyList(s, key) == KeyList(init, key) + [key(s[|s| - 1])];
      if key(s[|s| - 1]) !in KeyList(r0, key) {
        assert KeyList(r0 + [s[|s| - 1]], key) == KeyList(r0, key) + [key(s[|s| - 1])];
      } else {
        FirstPerKeyKeys(init, key, key(s[|s| - 1]));
      }
    }
  }

  /** The kept elements are a subsequence of the input. */
  lemma {:induction false} FirstPerKeySub<T, K>(s: seq<T>, key: T -> K)
    ensures SubSeq(FirstPerKey(s, key), s)
    decreases |s|
  {
    if |s| > 0 {
      var init := s[..|s| - 1];
      var x := s[|s| - 1];
      var r0 := FirstPerKey(init, key);
      FirstPerKeySub(init, key);
      assert s == init + [x];
      if key(x) in KeyList(r0, key) {
        SubSeqConcat(r0, init, [], [x]);
        assert r0 + [] == r0;
      } else {
        SubSeqRefl([x]);
        SubSeqConcat(r0, init, [x], [x]);
      }
    }
  }

  /** An element whose key does not occur earlier is kept. */
  lemma {:induction false} FirstPerKeyKeepsFirst<T, K>(s: seq<T>, key: T -> K, i: nat)
    requires i < |s| && forall j :: 0 <= j < i ==> key(s[j]) != key(s[i])
    ensures s[i] in FirstPerKey(s, key)
    decreases |s|
  {
    var init := s[..|s| - 1];
    var r0 := FirstPerKey(init, key);
    if i < |s| - 1 {
      assert forall j :: 0 <= j < i ==> init[j] == s[j];
      assert init[i] == s[i];
      FirstPerKeyKeepsFirst(init, key, i);
    } else {
      forall j | 0 <= j < |r0|
        ensures KeyList(r0, key)[j] != key(s[i])
      {
        FirstPerKeySub(init, key);
        SubSeqMember(r0, init, j);
        var m :| 0 <= m < |init| && init[m] == r0[j];
        assert init[m] == s[m];
      }
    }
  }

  /** Every element of a subsequence is an element of the sequence. */
  lemma {:induction false} SubSeqMember<T>(a: seq<T>, b: seq<T>, j: nat)
    requires SubSeq(a, b) && j < |a|
    ensures exists m :: 0 <= m < |b| && b[m] == a[j]
    decreases |b|
  {
    if a[0] == b[0] {
      if j > 0 {
        SubSeqMember(a[1..], b[1..], j - 1);
        var m :| 0 <= m < |b[1..]| && b[1..][m] == a[1..][j - 1];
        assert b[m + 1] == a[j];
      }
    } else {
      SubSeqMember(a, b[1..], j);
      var m :| 0 <= m < |b[1..]| && b[1..][m] == a[j];
      assert b[m + 1] == a[j];
    }
  }

  /** A subsequence holds only elements of the sequence. */
  lemma SubSeqIn<T>(a: seq<T>, b: seq<T>)
    requires SubSeq(a, b)
    ensures forall x :: x in a ==> x in b
  {
    forall x | x in a
      ensures x in b
    {
      var j :| 0 <= j < |a| && a[j] == x;
      SubSeqMember(a, b, j);
    }
  }

  /** Nothing is found exactly when no element qualifies. */
  lemma FirstWhereNone<T>(s: seq<T>, p: T -> bool)
    ensures FirstWhere(s, p).None? <==> forall j :: 0 <= j < |s| ==> !p(s[j])
  {
  }
}
