/**
 * PHP's ordered associative arrays as sequences of (key, value) pairs.
 * Assigning `$a[$k] = $v` overwrites an existing key in place and appends a
 * new key at the end, so iteration order is first-insertion order.
 */
module Assoc {
  import opened Wrappers

  function Keys<K, V>(m: seq<(K, V)>): (r: seq<K>)
    ensures |r| == |m|
    ensures forall i :: 0 <= i < |m| ==> r[i] == m[i].0
  {
    if |m| == 0 then [] else [m[0].0] + Keys(m[1..])
  }

  function Values<K, V>(m: seq<(K, V)>): (r: seq<V>)
    ensures |r| == |m|
    ensures forall i :: 0 <= i < |m| ==> r[i] == m[i].1
  {
    if |m| == 0 then [] else [m[0].1] + Values(m[1..])
  }

  predicate Distinct<T(==)>(s: seq<T>)
  {
    forall i, j :: 0 <= i < j < |s| ==> s[i] != s[j]
  }

  predicate DistinctKeys<K(==), V>(m: seq<(K, V)>)
  {
    Distinct(Keys(m))
  }

  /** `$m[$k] ?? null`: the value of the first entry with key k. */
  function Get<K(==), V>(m: seq<(K, V)>, k: K): (r: Option<V>)
    ensures r.None? <==> k !in Keys(m)
    ensures r.Some? ==> exists i :: 0 <= i < |m| && m[i].0 == k && m[i].1 == r.value
  {
    if |m| == 0 then None
    else if m[0].0 == k then Some(m[0].1)
    else
      assert forall i :: 0 <= i < |m[1..]| ==> m[1..][i] == m[i + 1];
      Get(m[1..], k)
  }

  /** With distinct keys, the entry at position i is what Get finds for its key. */
  lemma {:induction false} GetAt<K, V>(m: seq<(K, V)>, i: nat)
    requires DistinctKeys(m) && i < |m|
    ensures Get(m, m[i].0) == Some(m[i].1)
  {
    if i > 0 {
      assert m[0].0 != m[i].0;
      assert DistinctKeys(m[1..]) by {
        forall a, b | 0 <= a < b < |m[1..]| ensures m[1..][a].0 != m[1..][b].0 {
          assert m[1..][a] == m[a + 1] && m[1..][b] == m[b + 1];
        }
      }
      GetAt(m[1..], i - 1);
    }
  }

  /** `$m[$k] = $v`: overwrite in place, or append a new key at the end. */
  function Put<K(==), V>(m: seq<(K, V)>, k: K, v: V): (r: seq<(K, V)>)
    ensures k in Keys(m) ==> Keys(r) == Keys(m)
    ensures k !in Keys(m) ==> Keys(r) == Keys(m) + [k]
  {
    if |m| == 0 then [(k, v)]
    else if m[0].0 == k then
      var r := [(k, v)] + m[1..];
      assert r[1..] == m[1..];
      r
    else
      var rest := Put(m[1..], k, v);
      var r := [m[0]] + rest;
      assert r[1..] == rest;
      r
  }

  /** After assignment the key reads the new value and every other key reads what it did. */
  lemma {:induction false} PutGet<K, V>(m: seq<(K, V)>, k: K, v: V, k': K)
    ensures Get(Put(m, k, v), k') == if k' == k then Some(v) else Get(m, k')
  {
    if |m| > 0 && m[0].0 != k {
      PutGet(m[1..], k, v, k');
      assert Put(m, k, v)[1..] == Put(m[1..], k, v);
    } else if |m| > 0 {
      assert Put(m, k, v)[1..] == m[1..];
    }
  }

  /** Assignment adds at most one entry, and never empties the array. */
  lemma PutLength<K, V>(m: seq<(K, V)>, k: K, v: V)
    ensures |m| <= |Put(m, k, v)| <= |m| + 1 && |Put(m, k, v)| > 0
  {
    assert |Keys(Put(m, k, v))| == |Put(m, k, v)|;
  }

  /** Assignment brings in no value other than the assigned one. */
  lemma {:induction false} PutValues<K, V>(m: seq<(K, V)>, k: K, v: V)
    ensures forall x :: x in Values(Put(m, k, v)) ==> x == v || x in Values(m)
  {
    if |m| > 0 && m[0].0 != k {
      PutValues(m[1..], k, v);
      assert Put(m, k, v)[1..] == Put(m[1..], k, v);
      assert Values(Put(m, k, v)) == [m[0].1] + Values(Put(m[1..], k, v));
      assert Values(m) == [m[0].1] + Values(m[1..]);
    } else if |m| > 0 {
      assert Values(Put(m, k, v)) == [v] + Values(m[1..]);
      assert Values(m) == [m[0].1] + Values(m[1..]);
    }
  }

  /** Assignment keeps the keys of an array distinct. */
  lemma PutDistinct<K(!new), V>(m: seq<(K, V)>, k: K, v: V)
    requires DistinctKeys(m)
    ensures DistinctKeys(Put(m, k, v))
  {
    var ks := Keys(m);
    if k !in ks {
      assert forall i :: 0 <= i < |ks| ==> (ks + [k])[i] == ks[i];
    }
  }

  /** `array_search($v, $m)` with strict comparison: the first key whose value is v. */
  function SearchValue<K(==), V(==)>(m: seq<(K, V)>, v: V): (r: Option<K>)
    ensures r.None? <==> forall i :: 0 <= i < |m| ==> m[i].1 != v
    ensures r.Some? ==> exists i :: 0 <= i < |m| && m[i].0 == r.value && m[i].1 == v
                                    && forall j :: 0 <= j < i ==> m[j].1 != v
  {
    if |m| == 0 then None
    else if m[0].1 == v then Some(m[0].0)
    else
      var r := SearchValue(m[1..], v);
      assert forall i :: 0 <= i < |m[1..]| ==> m[1..][i] == m[i + 1];
      if r.Some? then
        var i :| 0 <= i < |m[1..]| && m[1..][i].0 == r.value && m[1..][i].1 == v && forall j :: 0 <= j < i ==> m[1..][j].1 != v;
        assert m[i + 1].0 == r.value && m[i + 1].1 == v;
        r
      else r
  }

  /** The position of the first occurrence of x in s. */
  function FirstIndex<T(==)>(s: seq<T>, x: T): (i: nat)
    requires x in s
    ensures i < |s| && s[i] == x && x !in s[..i]
  {
    if s[0] == x then 0
    else
      var j := FirstIndex(s[1..], x);
      assert s[..j + 1] == [s[0]] + s[1..][..j];
      j + 1
  }

  /** Any position holding x with no x before it is the first occurrence. */
  lemma FirstIndexAt<T>(s: seq<T>, i: nat)
    requires i < |s| && s[i] !in s[..i]
    ensures FirstIndex(s, s[i]) == i
  {
  }

  /** A value occurring in a prefix has its first occurrence there. */
  lemma FirstIndexPrefix<T>(s: seq<T>, n: nat, x: T)
    requires n <= |s| && x in s[..n]
    ensures FirstIndex(s, x) == FirstIndex(s[..n], x)
  {
    var i := FirstIndex(s[..n], x);
    assert s[..n][..i] == s[..i];
    FirstIndexAt(s, i);
  }

  /**
   * `array_unique` on a list: the first occurrence of each value, in order
   * of those first occurrences.
   */
  function Unique<T(==,!new)>(s: seq<T>): (r: seq<T>)
    ensures Distinct(r)
    ensures forall x :: x in r <==> x in s
    ensures |r| <= |s|
    ensures forall k, l :: 0 <= k < l < |r| ==> FirstIndex(s, r[k]) < FirstIndex(s, r[l])
    decreases |s|
  {
    if |s| == 0 then []
    else
      var n := |s| - 1;
      var d := Unique(s[..n]);
      assert forall x :: x in s <==> x in s[..n] || x == s[n];
      assert forall k :: 0 <= k < |d| ==> FirstIndex(s, d[k]) == FirstIndex(s[..n], d[k]) by {
        forall k | 0 <= k < |d| ensures FirstIndex(s, d[k]) == FirstIndex(s[..n], d[k]) {
          FirstIndexPrefix(s, n, d[k]);
        }
      }
      if s[n] in d then d
      else
        FirstIndexAt(s, n);
        d + [s[n]]
  }

  /** With distinct values, the reverse lookup of the value at i finds the key at i. */
  lemma SearchValueAt<K, V>(m: seq<(K, V)>, i: nat)
    requires i < |m| && Distinct(Values(m))
    ensures SearchValue(m, m[i].1) == Some(m[i].0)
  {
    var v := m[i].1;
    var r := SearchValue(m, v);
    assert r.Some?;
    var j :| 0 <= j < |m| && m[j].0 == r.value && m[j].1 == v && forall l :: 0 <= l < j ==> m[l].1 != v;
    assert j == i;
  }
}
