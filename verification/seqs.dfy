/** Sequence facts shared by the play filter, the winner list and the rollups:
    order-preserving selection, duplicate-freedom and sums over key lists. */
module Seqs {

  /** `xs` sits inside `ys` at the strictly increasing positions `idx`:
      `xs` is an order-preserving subsequence of `ys`. */
  ghost predicate Embeds<T>(xs: seq<T>, ys: seq<T>, idx: seq<int>) {
    && |idx| == |xs|
    && (forall k :: 0 <= k < |idx| ==> 0 <= idx[k] < |ys| && xs[k] == ys[idx[k]])
    && (forall k, l :: 0 <= k < l < |idx| ==> idx[k] < idx[l])
  }

  predicate NoDups<T(==)>(s: seq<T>) {
    forall i, j :: 0 <= i < j < |s| ==> s[i] != s[j]
  }

  /** Every listed key has an entry: what a `Map`'s insertion-order key list
      promises of its entries. */
  predicate Listed<K, V>(order: seq<K>, stats: map<K, V>) {
    forall i :: 0 <= i < |order| ==> order[i] in stats
  }

  lemma KeysListed<K, V>(order: seq<K>, stats: map<K, V>)
    requires forall k :: k in order ==> k in stats
    ensures Listed(order, stats)
  {
    forall i | 0 <= i < |order| ensures order[i] in stats {
      var k := order[i];
      assert k in order;
    }
  }

  /** The elements of `s` whose flag in `keep` is set, in their original order
      (JavaScript's `Array.prototype.filter` with the flags precomputed). */
  function Select<T>(s: seq<T>, keep: seq<bool>): (r: seq<T>)
    requires |keep| == |s|
    ensures |r| <= |s|
  {
    if |s| == 0 then []
    else
      var n := |s| - 1;
      Select(s[..n], keep[..n]) + (if keep[n] then [s[n]] else [])
  }

  /** The positions whose flag is set, in increasing order. */
  function SelectedIndices(keep: seq<bool>): seq<int> {
    if |keep| == 0 then []
    else
      var n := |keep| - 1;
      SelectedIndices(keep[..n]) + (if keep[n] then [n] else [])
  }

  /** The selected positions are exactly the flagged ones, and all in range. */
  lemma {:induction false} SelectedIndicesExact(keep: seq<bool>)
    ensures forall k :: 0 <= k < |SelectedIndices(keep)| ==> 0 <= SelectedIndices(keep)[k] < |keep|
    ensures forall i :: 0 <= i < |keep| ==> (keep[i] <==> i in SelectedIndices(keep))
  {
    if |keep| > 0 {
      var n := |keep| - 1;
      SelectedIndicesExact(keep[..n]);
      var pre, idx := SelectedIndices(keep[..n]), SelectedIndices(keep);
      forall i | 0 <= i < |keep|
        ensures keep[i] <==> i in idx
      {
        if i < n {
          assert keep[..n][i] == keep[i];
          assert i in pre <==> i in idx;
        }
      }
    }
  }

  /** Selection keeps exactly the flagged positions, in order. */
  lemma {:induction false} SelectEmbeds<T>(s: seq<T>, keep: seq<bool>)
    requires |keep| == |s|
    ensures Embeds(Select(s, keep), s, SelectedIndices(keep))
    ensures forall i :: 0 <= i < |s| ==> (keep[i] <==> i in SelectedIndices(keep))
  {
    SelectedIndicesExact(keep);
    if |s| > 0 {
      var n := |s| - 1;
      SelectEmbeds(s[..n], keep[..n]);
      SelectedIndicesExact(keep[..n]);
    }
  }

  /** A value is selected iff it stands at some flagged position. */
  lemma SelectMembers<T>(s: seq<T>, keep: seq<bool>)
    requires |keep| == |s|
    ensures forall x :: x in Select(s, keep) <==> exists i :: 0 <= i < |s| && keep[i] && s[i] == x
  {
    SelectEmbeds(s, keep);
    var r, idx := Select(s, keep), SelectedIndices(keep);
    forall x | x in r
      ensures exists i :: 0 <= i < |s| && keep[i] && s[i] == x
    {
      var k :| 0 <= k < |r| && r[k] == x;
      assert s[idx[k]] == x && idx[k] in idx;
    }
    forall x | exists i :: 0 <= i < |s| && keep[i] && s[i] == x
      ensures x in r
    {
      var i :| 0 <= i < |s| && keep[i] && s[i] == x;
      assert i in idx;
      var k :| 0 <= k < |idx| && idx[k] == i;
      assert r[k] == x;
    }
  }

  /** Selecting with every flag set keeps the whole sequence. */
  lemma {:induction false} SelectAllKept<T>(s: seq<T>, keep: seq<bool>)
    requires |keep| == |s|
    requires forall i :: 0 <= i < |keep| ==> keep[i]
    ensures Select(s, keep) == s
  {
    if |s| > 0 {
      var n := |s| - 1;
      SelectAllKept(s[..n], keep[..n]);
      assert s[..n] + [s[n]] == s;
    }
  }

  /** Selecting with no flag set keeps nothing. */
  lemma {:induction false} SelectNoneKept<T>(s: seq<T>, keep: seq<bool>)
    requires |keep| == |s|
    requires forall i :: 0 <= i < |keep| ==> !keep[i]
    ensures Select(s, keep) == []
  {
    if |s| > 0 {
      SelectNoneKept(s[..|s| - 1], keep[..|s| - 1]);
    }
  }

  /** The sum of `counts` over the keys listed in `keys`. */
  function SumOf<K>(keys: seq<K>, counts: map<K, nat>): nat
    requires forall k :: k in keys ==> k in counts
  {
    if |keys| == 0 then 0
    else SumOf(keys[..|keys| - 1], counts) + counts[keys[|keys| - 1]]
  }

  /** Two count maps that agree on the listed keys have the same sum. */
  lemma {:induction false} SumOfAgree<K>(keys: seq<K>, m1: map<K, nat>, m2: map<K, nat>)
    requires forall k :: k in keys ==> k in m1 && k in m2 && m1[k] == m2[k]
    ensures SumOf(keys, m1) == SumOf(keys, m2)
  {
    if |keys| > 0 {
      SumOfAgree(keys[..|keys| - 1], m1, m2);
    }
  }

  /** Changing the count of one key that is listed once changes the sum by the
      difference. */
  lemma {:induction false} SumOfUpdate<K>(keys: seq<K>, m: map<K, nat>, key: K, v: nat)
    requires NoDups(keys) && key in keys
    requires forall k :: k in keys ==> k in m
    ensures SumOf(keys, m[key := v]) == SumOf(keys, m) - m[key] + v
  {
    var n := |keys| - 1;
    var pre := keys[..n];
    assert forall k :: k in pre ==> k in keys;
    if keys[n] == key {
      assert key !in pre by {
        forall j | 0 <= j < n ensures pre[j] != key {
          assert keys[j] != keys[n];
        }
      }
      SumOfAgree(pre, m, m[key := v]);
    } else {
      assert key in pre;
      SumOfUpdate(pre, m, key, v);
    }
  }

  /** Appending a fresh key adds its count. */
  lemma SumOfAppend<K>(keys: seq<K>, m: map<K, nat>, key: K)
    requires key in m
    requires forall k :: k in keys ==> k in m
    ensures SumOf(keys + [key], m) == SumOf(keys, m) + m[key]
  {
    assert (keys + [key])[..|keys|] == keys;
  }

  /** One more count for `key`: bumped in place when `key` is already listed,
      appended with count 1 otherwise; the sum grows by exactly one. */
  lemma SumOfBump<K>(keys: seq<K>, m1: map<K, nat>, keys2: seq<K>, m2: map<K, nat>, key: K)
    requires NoDups(keys)
    requires forall k :: k in keys ==> k in m1 && k in m2
    requires key in m2
    requires forall k :: k in keys && k != key ==> m2[k] == m1[k]
    requires key in keys ==> keys2 == keys && m2[key] == m1[key] + 1
    requires key !in keys ==> keys2 == keys + [key] && m2[key] == 1
    ensures SumOf(keys2, m2) == SumOf(keys, m1) + 1
  {
    if key in keys {
      SumOfUpdate(keys, m1, key, m2[key]);
      SumOfAgree(keys, m1[key := m2[key]], m2);
    } else {
      SumOfAgree(keys, m1, m2);
      SumOfAppend(keys, m2, key);
    }
  }

  /** The position of the first occurrence of `x` in `s`, or `|s|` when `x`
      does not occur. */
  function FirstIndex<T(==)>(s: seq<T>, x: T): (i: nat)
    ensures i <= |s|
    ensures i < |s| ==> s[i] == x
    ensures forall j :: 0 <= j < i ==> s[j] != x
  {
    if |s| == 0 then 0
    else if s[0] == x then 0
    else 1 + FirstIndex(s[1..], x)
  }

  lemma {:induction false} FirstIndexAppend<T>(s: seq<T>, x: T, y: T)
    ensures FirstIndex(s + [x], y) ==
      if FirstIndex(s, y) < |s| then FirstIndex(s, y)
      else if x == y then |s| else |s| + 1
    decreases |s|
  {
    if |s| > 0 && s[0] != y {
      assert (s + [x])[1..] == s[1..] + [x];
      FirstIndexAppend(s[1..], x, y);
    }
  }

  /** `order` lists the values of `s`, each once, ordered by first occurrence
      in `s`: the key order of a `Map` filled from `s`. */
  ghost predicate FirstSeen<T>(order: seq<T>, s: seq<T>) {
    && (forall i :: 0 <= i < |order| ==> order[i] in s)
    && (forall i :: 0 <= i < |s| ==> s[i] in order)
    && (forall i, j :: 0 <= i < j < |order| ==> FirstIndex(s, order[i]) < FirstIndex(s, order[j]))
  }

  /** Feeding one more value keeps the key list in first-seen order: a known
      value leaves it alone, a new one goes to the end. */
  lemma FirstSeenAppend<T>(order: seq<T>, s: seq<T>, x: T)
    requires FirstSeen(order, s)
    ensures FirstSeen(if x in order then order else order + [x], s + [x])
  {
    var order', s' := if x in order then order else order + [x], s + [x];
    forall y ensures FirstIndex(s', y) == (if y in s then FirstIndex(s, y) else if x == y then |s| else |s| + 1) {
      FirstIndexAppend(s, x, y);
    }
    forall i, j | 0 <= i < j < |order'|
      ensures FirstIndex(s', order'[i]) < FirstIndex(s', order'[j])
    {
      assert order'[i] in order;
      if j < |order| {
        assert order'[j] in order;
      }
    }
  }
}
