/** Python dictionaries with string keys, keeping insertion order: a later write to
    an existing key replaces its value in place, a new key goes at the end. */
module Dicts {
  import opened Wrappers

  type Dict<V> = seq<(string, V)>

  function Keys<V>(d: Dict<V>): seq<string>
  {
    seq(|d|, i requires 0 <= i < |d| => d[i].0)
  }

  /** No key appears twice, as in every Python dict. */
  predicate UniqueKeys<V>(d: Dict<V>)
  {
    forall i, j :: 0 <= i < j < |d| ==> d[i].0 != d[j].0
  }

  /** `d.get(k)` */
  function Get<V>(d: Dict<V>, k: string): (r: Option<V>)
    ensures r.Some? <==> k in Keys(d)
  {
    if |d| == 0 then None
    else if d[0].0 == k then assert Keys(d)[0] == k; Some(d[0].1)
    else
      assert Keys(d) == [d[0].0] + Keys(d[1..]);
      Get(d[1..], k)
  }

  /** `d[k] = v` */
  function Put<V>(d: Dict<V>, k: string, v: V): (r: Dict<V>)
    ensures |r| == if k in Keys(d) then |d| else |d| + 1
  {
    if |d| == 0 then [(k, v)]
    else if d[0].0 == k then assert Keys(d)[0] == k; [(k, v)] + d[1..]
    else
      assert Keys(d) == [d[0].0] + Keys(d[1..]);
      [d[0]] + Put(d[1..], k, v)
  }

  lemma {:induction false} KeysPut<V>(d: Dict<V>, k: string, v: V)
    ensures Keys(Put(d, k, v)) == if k in Keys(d) then Keys(d) else Keys(d) + [k]
  {
    if |d| > 0 {
      KeysCons(d[0], d[1..]);
      assert [d[0]] + d[1..] == d;
      if d[0].0 == k {
        KeysCons((k, v), d[1..]);
      } else {
        KeysPut(d[1..], k, v);
        KeysCons(d[0], Put(d[1..], k, v));
        if k in Keys(d[1..]) {
        } else {
          assert [d[0].0] + (Keys(d[1..]) + [k]) == ([d[0].0] + Keys(d[1..])) + [k];
        }
      }
    }
  }

  lemma KeysCons<V>(p: (string, V), d: Dict<V>)
    ensures Keys([p] + d) == [p.0] + Keys(d)
  {
  }

  /** After `d[k] = v`, `k` reads `v` and every other key reads what it read before. */
  lemma {:induction false} GetPut<V>(d: Dict<V>, k: string, v: V, k': string)
    ensures Get(Put(d, k, v), k') == if k' == k then Some(v) else Get(d, k')
  {
    if |d| > 0 && d[0].0 != k {
      GetPut(d[1..], k, v, k');
    }
  }

  lemma {:induction false} UniquePut<V>(d: Dict<V>, k: string, v: V)
    requires UniqueKeys(d)
    ensures UniqueKeys(Put(d, k, v))
  {
    KeysPut(d, k, v);
    var r := Put(d, k, v);
    forall i, j | 0 <= i < j < |r|
      ensures r[i].0 != r[j].0
    {
      assert Keys(r)[i] == r[i].0 && Keys(r)[j] == r[j].0;
      if k !in Keys(d) && j == |d| {
        assert Keys(r)[i] == Keys(d)[i];
      } else {
        assert Keys(r)[i] == Keys(d)[i] && Keys(r)[j] == Keys(d)[j];
      }
    }
  }

  /** `{**d, **e}`: the entries of `e` written over `d`, in `e`'s order. */
  function PutAll<V>(d: Dict<V>, e: Dict<V>): Dict<V>
    decreases |e|
  {
    if |e| == 0 then d
    else Put(PutAll(d, e[..|e| - 1]), e[|e| - 1].0, e[|e| - 1].1)
  }

  lemma {:induction false} UniquePutAll<V>(d: Dict<V>, e: Dict<V>)
    requires UniqueKeys(d)
    ensures UniqueKeys(PutAll(d, e))
    decreases |e|
  {
    if |e| > 0 {
      UniquePutAll(d, e[..|e| - 1]);
      UniquePut(PutAll(d, e[..|e| - 1]), e[|e| - 1].0, e[|e| - 1].1);
    }
  }

  /** Right-hand precedence of a merge: keys of `e` take `e`'s value, other keys keep `d`'s. */
  lemma {:induction false} GetPutAll<V>(d: Dict<V>, e: Dict<V>, k: string)
    requires UniqueKeys(e)
    ensures Get(PutAll(d, e), k) == if k in Keys(e) then Get(e, k) else Get(d, k)
    decreases |e|
  {
    if |e| > 0 {
      var init := e[..|e| - 1];
      var last := e[|e| - 1];
      assert UniqueKeys(init) by {
        forall i, j | 0 <= i < j < |init|
          ensures init[i].0 != init[j].0
        {
          assert init[i] == e[i] && init[j] == e[j];
        }
      }
      GetPutAll(d, init, k);
      GetPut(PutAll(d, init), last.0, last.1, k);
      assert Keys(e) == Keys(init) + [last.0];
      if k == last.0 {
        LastGet(e);
        assert k in Keys(e) by { assert Keys(e)[|e| - 1] == k; }
      } else {
        GetPrefix(e, k);
        assert k in Keys(e) <==> k in Keys(init);
      }
    }
  }

  /** In a dict, the last entry is what `Get` finds for its key. */
  lemma {:induction false} LastGet<V>(e: Dict<V>)
    requires |e| > 0 && UniqueKeys(e)
    ensures Get(e, e[|e| - 1].0) == Some(e[|e| - 1].1)
  {
    if |e| > 1 {
      assert e[0].0 != e[|e| - 1].0;
      assert e[1..][|e[1..]| - 1] == e[|e| - 1];
      LastGet(e[1..]);
    }
  }

  /** Dropping the last entry does not change the other keys' values. */
  lemma {:induction false} GetPrefix<V>(e: Dict<V>, k: string)
    requires |e| > 0 && k != e[|e| - 1].0
    ensures Get(e, k) == Get(e[..|e| - 1], k)
  {
    if |e| > 1 && e[0].0 != k {
      assert e[1..][..|e[1..]| - 1] == e[..|e| - 1][1..];
      GetPrefix(e[1..], k);
    }
  }

  /** The keys of a merge: `d`'s keys, then `e`'s new keys in order. */
  lemma {:induction false} KeysPutAll<V>(d: Dict<V>, e: Dict<V>, k: string)
    ensures k in Keys(PutAll(d, e)) <==> k in Keys(d) || k in Keys(e)
    decreases |e|
  {
    if |e| > 0 {
      KeysPutAll(d, e[..|e| - 1], k);
      KeysPut(PutAll(d, e[..|e| - 1]), e[|e| - 1].0, e[|e| - 1].1);
      assert Keys(e) == Keys(e[..|e| - 1]) + [e[|e| - 1].0];
    }
  }

  /** `PutAll` of one more entry is one more `Put`. */
  lemma PutAllSnoc<V>(d: Dict<V>, e: Dict<V>, k: string, v: V)
    ensures PutAll(d, e + [(k, v)]) == Put(PutAll(d, e), k, v)
  {
    assert (e + [(k, v)])[..|e|] == e;
  }

  /** The value of the last entry of `e` with key `k`. */
  function LastOf<V>(e: Dict<V>, k: string): (r: Option<V>)
    ensures r.None? <==> k !in Keys(e)
    decreases |e|
  {
    if |e| == 0 then None
    else
      assert Keys(e) == Keys(e[..|e| - 1]) + [e[|e| - 1].0];
      if e[|e| - 1].0 == k then Some(e[|e| - 1].1) else LastOf(e[..|e| - 1], k)
  }

  /** `LastOf` finds an entry with key `k` that no later entry repeats. */
  lemma {:induction false} LastOfEntry<V>(e: Dict<V>, k: string)
    requires k in Keys(e)
    ensures exists i :: 0 <= i < |e| && e[i] == (k, LastOf(e, k).value)
                        && forall j :: i < j < |e| ==> e[j].0 != k
    decreases |e|
  {
    var n := |e| - 1;
    assert Keys(e) == Keys(e[..n]) + [e[n].0];
    if e[n].0 != k {
      LastOfEntry(e[..n], k);
      var i :| 0 <= i < n && e[..n][i] == (k, LastOf(e[..n], k).value)
                && forall j :: i < j < n ==> e[..n][j].0 != k;
      assert e[i] == e[..n][i];
      assert forall j :: i < j < |e| ==> e[j].0 != k by {
        forall j | i < j < |e|
          ensures e[j].0 != k
        {
          if j < n {
            assert e[j] == e[..n][j];
          }
        }
      }
    }
  }

  /** Writing the entries of `e` one by one: each key ends with its last value,
      even when `e` repeats keys. */
  lemma {:induction false} GetPutAllLast<V>(d: Dict<V>, e: Dict<V>, k: string)
    ensures Get(PutAll(d, e), k) == if k in Keys(e) then LastOf(e, k) else Get(d, k)
    decreases |e|
  {
    if |e| > 0 {
      var n := |e| - 1;
      GetPutAllLast(d, e[..n], k);
      GetPut(PutAll(d, e[..n]), e[n].0, e[n].1, k);
      assert Keys(e) == Keys(e[..n]) + [e[n].0];
    }
  }

  /** Writing `a` and then `b` is writing `a + b`. */
  lemma {:induction false} PutAllAppend<V>(d: Dict<V>, a: Dict<V>, b: Dict<V>)
    ensures PutAll(d, a + b) == PutAll(PutAll(d, a), b)
    decreases |b|
  {
    if |b| == 0 {
      assert a + b == a;
    } else {
      var n := |b| - 1;
      PutAllAppend(d, a, b[..n]);
      assert (a + b)[..|a + b| - 1] == a + b[..n];
      assert (a + b)[|a + b| - 1] == b[n];
    }
  }
}
