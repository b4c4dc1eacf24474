/** Insertion-ordered dictionaries, as the solver's Python dicts behave:
    assigning to an existing key overwrites its value where it stands,
    assigning to a new key appends an entry at the end. */
module Dicts {

  type Dict<K, V> = seq<(K, V)>

  /** The keys in insertion order. */
  function Keys<K, V>(d: Dict<K, V>): seq<K>
  {
    seq(|d|, i requires 0 <= i < |d| => d[i].0)
  }

  /** Position of the first entry with key `k`, or -1 when there is none. */
  function Find<K(==), V>(d: Dict<K, V>, k: K): (r: int)
    ensures -1 <= r < |d|
    ensures 0 <= r ==> d[r].0 == k && forall i :: 0 <= i < r ==> d[i].0 != k
    ensures r < 0 <==> forall i :: 0 <= i < |d| ==> d[i].0 != k
  {
    if |d| == 0 then -1
    else if d[0].0 == k then 0
    else
      var r := Find(d[1..], k);
      assert forall i :: 1 <= i < |d| ==> d[i] == d[1..][i - 1];
      if r < 0 then -1 else r + 1
  }

  predicate HasKey<K(==), V>(d: Dict<K, V>, k: K)
  {
    0 <= Find(d, k)
  }

  /** `d[k]` of a dict that holds `k`. */
  function Get<K(==), V>(d: Dict<K, V>, k: K): V
    requires HasKey(d, k)
  {
    d[Find(d, k)].1
  }

  /** `d[k]` when `k` is present, `dflt` otherwise. */
  function GetOr<K(==), V>(d: Dict<K, V>, k: K, dflt: V): V
  {
    if HasKey(d, k) then Get(d, k) else dflt
  }

  /** `d[k] = v`. */
  function Put<K(==), V>(d: Dict<K, V>, k: K, v: V): Dict<K, V>
  {
    var i := Find(d, k);
    if 0 <= i then d[i := (k, v)] else d + [(k, v)]
  }

  /** No key occurs twice, as in every Python dict. */
  ghost predicate DistinctKeys<K, V>(d: Dict<K, V>)
  {
    forall i, j :: 0 <= i < j < |d| ==> d[i].0 != d[j].0
  }

  /** Sum of the integer values. */
  function Sum<K>(d: Dict<K, int>): int
  {
    if |d| == 0 then 0 else Sum(d[..|d| - 1]) + d[|d| - 1].1
  }

  /** Find is determined by where the key occurs: two dicts whose entries
      carry the key at the same positions find it at the same position. */
  lemma {:induction false} FindByPositions<K, V, W>(d: Dict<K, V>, e: Dict<K, W>, k: K)
    requires |d| == |e|
    requires forall i :: 0 <= i < |d| ==> (d[i].0 == k <==> e[i].0 == k)
    ensures Find(d, k) == Find(e, k)
  {
    var a, b := Find(d, k), Find(e, k);
    if 0 <= a {
      assert e[a].0 == k;
    }
    if 0 <= b {
      assert d[b].0 == k;
    }
  }

  /** A key not yet present, appended, is found at the end. */
  lemma FindAppended<K, V>(d: Dict<K, V>, k: K, v: V)
    requires !HasKey(d, k)
    ensures Find(d + [(k, v)], k) == |d|
  {
    var r := d + [(k, v)];
    assert r[|d|].0 == k;
  }

  /** With distinct keys, the key at position i is found at i. */
  lemma FindDistinct<K, V>(d: Dict<K, V>, i: nat)
    requires DistinctKeys(d) && i < |d|
    ensures Find(d, d[i].0) == i
  {
  }

  /** The dict semantics of Put: the key is present afterwards with the new
      value, an existing key keeps its place, a new key goes at the end, and
      every other key keeps its entry. */
  lemma PutSpec<K, V>(d: Dict<K, V>, k: K, v: V)
    ensures var r := Put(d, k, v);
      && HasKey(r, k) && Get(r, k) == v
      && (HasKey(d, k) ==> |r| == |d| && Keys(r) == Keys(d))
      && (!HasKey(d, k) ==> r == d + [(k, v)] && Keys(r) == Keys(d) + [k])
      && (forall i :: 0 <= i < |d| && d[i].0 != k ==> r[i] == d[i])
  {
    var r := Put(d, k, v);
    var i := Find(d, k);
    if 0 <= i {
      FindByPositions(d, r, k);
    } else {
      FindAppended(d, k, v);
    }
  }

  /** Put leaves every other key's presence and value as it was. */
  lemma PutOther<K, V>(d: Dict<K, V>, k: K, v: V, k': K)
    requires k' != k
    ensures HasKey(Put(d, k, v), k') <==> HasKey(d, k')
    ensures HasKey(d, k') ==> Get(Put(d, k, v), k') == Get(d, k')
  {
    var r := Put(d, k, v);
    if 0 <= Find(d, k) {
      FindByPositions(d, r, k');
    } else {
      assert forall i :: 0 <= i < |d| ==> r[i] == d[i];
      if HasKey(d, k') {
        var j := Find(d, k');
        assert Find(r, k') == j;
      }
    }
  }

  /** Reading any key after Put: the new value under `k`, the old reading
      under every other key. */
  lemma GetOrPut<K, V>(d: Dict<K, V>, k: K, v: V, k': K, dflt: V)
    ensures HasKey(Put(d, k, v), k') <==> k' == k || HasKey(d, k')
    ensures GetOr(Put(d, k, v), k', dflt) == if k' == k then v else GetOr(d, k', dflt)
  {
    PutSpec(d, k, v);
    if k' != k {
      PutOther(d, k, v, k');
    }
  }

  /** Every entry after Put is the new entry or an entry that was there. */
  lemma PutEntries<K, V>(d: Dict<K, V>, k: K, v: V)
    ensures forall i :: 0 <= i < |Put(d, k, v)| ==> Put(d, k, v)[i] == (k, v) || (i < |d| && Put(d, k, v)[i] == d[i])
  {
  }

  /** Dicts with the same keys in the same order hold the same keys. */
  lemma SameKeysHasKey<K, V>(d: Dict<K, V>, e: Dict<K, V>, k: K)
    requires Keys(d) == Keys(e)
    ensures HasKey(d, k) <==> HasKey(e, k)
    ensures Find(d, k) == Find(e, k)
  {
    assert |d| == |Keys(d)| == |Keys(e)| == |e|;
    assert forall i :: 0 <= i < |d| ==> d[i].0 == Keys(d)[i] == Keys(e)[i] == e[i].0;
    FindByPositions(d, e, k);
  }

  /** Distinct keys depend on the keys only. */
  lemma SameKeysDistinct<K, V>(d: Dict<K, V>, e: Dict<K, V>)
    requires Keys(d) == Keys(e) && DistinctKeys(e)
    ensures DistinctKeys(d)
  {
    assert |d| == |Keys(d)| == |Keys(e)| == |e|;
    assert forall i :: 0 <= i < |d| ==> d[i].0 == Keys(d)[i] == Keys(e)[i] == e[i].0;
  }

  /** With distinct keys, overwriting the value under a present key changes
      that one entry and no other. */
  lemma PutAt<K, V>(d: Dict<K, V>, k: K, v: V, i: nat)
    requires DistinctKeys(d) && HasKey(d, k) && i < |d|
    ensures |Put(d, k, v)| == |d|
    ensures Put(d, k, v)[i] == if d[i].0 == k then (k, v) else d[i]
  {
    if d[i].0 == k {
      FindDistinct(d, i);
    }
  }

  /** With distinct keys, assigning to the key at position `i` rewrites
      that position. */
  lemma PutExisting<K, V>(d: Dict<K, V>, i: nat, v: V)
    requires DistinctKeys(d) && i < |d|
    ensures Put(d, d[i].0, v) == d[i := (d[i].0, v)]
    ensures DistinctKeys(d[i := (d[i].0, v)])
  {
    FindDistinct(d, i);
  }

  /** Put keeps keys distinct. */
  lemma PutDistinct<K, V>(d: Dict<K, V>, k: K, v: V)
    requires DistinctKeys(d)
    ensures DistinctKeys(Put(d, k, v))
  {
  }

  /** Two assignments to one key leave only the second. */
  lemma PutPut<K, V>(d: Dict<K, V>, k: K, a: V, b: V)
    ensures Put(Put(d, k, a), k, b) == Put(d, k, b)
  {
    var i := Find(d, k);
    if 0 <= i {
      FindByPositions(d, d[i := (k, a)], k);
    } else {
      FindAppended(d, k, a);
    }
  }

  /** `if k not in d: d[k] = 0` followed by `d[k] += a` is one Put of the
      old value (0 when absent) plus `a`. */
  lemma SetDefaultThenAdd<K>(d: Dict<K, int>, k: K, a: int)
    ensures var d1 := if HasKey(d, k) then d else Put(d, k, 0);
      HasKey(d1, k) && Put(d1, k, Get(d1, k) + a) == Put(d, k, GetOr(d, k, 0) + a)
  {
    if !HasKey(d, k) {
      PutSpec(d, k, 0);
      PutPut(d, k, 0, a);
    }
  }

  /** Adding `a` to the value under `k` (0 when absent) adds `a` to the sum. */
  lemma SumAdd<K>(d: Dict<K, int>, k: K, a: int)
    ensures Sum(Put(d, k, GetOr(d, k, 0) + a)) == Sum(d) + a
  {
    var i := Find(d, k);
    if 0 <= i {
      SumUpdate(d, i, (k, d[i].1 + a));
    } else {
      assert (d + [(k, a)])[..|d|] == d;
    }
  }

  /** Replacing one entry changes the sum by the difference of its values. */
  lemma {:induction false} SumUpdate<K>(d: Dict<K, int>, i: nat, e: (K, int))
    requires i < |d|
    ensures Sum(d[i := e]) == Sum(d) - d[i].1 + e.1
  {
    var n := |d|;
    var r := d[i := e];
    assert r[..n - 1] == if i == n - 1 then d[..n - 1] else d[..n - 1][i := e];
    if i < n - 1 {
      SumUpdate(d[..n - 1], i, e);
    }
  }

  /** With distinct keys every entry occurs once. */
  lemma {:induction false} MultiplicityOne<K, V>(d: Dict<K, V>, i: nat)
    requires DistinctKeys(d) && i < |d|
    ensures multiset(d)[d[i]] == 1
  {
    var n := |d|;
    assert d == d[..n - 1] + [d[n - 1]];
    if i < n - 1 {
      MultiplicityOne(d[..n - 1], i);
      assert d[n - 1] != d[i];
    } else {
      assert d[i] !in d[..n - 1];
    }
  }

  /** A permutation of a dict with distinct keys has distinct keys. */
  lemma PermutedDistinct<K, V>(d: Dict<K, V>, e: Dict<K, V>)
    requires DistinctKeys(d) && multiset(e) == multiset(d)
    ensures DistinctKeys(e)
  {
    forall a, b | 0 <= a < b < |e|
      ensures e[a].0 != e[b].0
    {
      if e[a].0 == e[b].0 {
        assert e[a] in multiset(d) && e[b] in multiset(d);
        var ia :| 0 <= ia < |d| && d[ia] == e[a];
        var ib :| 0 <= ib < |d| && d[ib] == e[b];
        assert ia == ib;
        assert e == e[..a] + [e[a]] + e[a + 1..b] + [e[b]] + e[b + 1..];
        assert multiset(e)[e[a]] >= 2;
        MultiplicityOne(d, ia);
      }
    }
  }

  /** The key order after assigning the keys `xs` in turn to a dict whose
      keys are `ks`: each key not yet present is appended, in the order it
      is first assigned. */
  function AddKeys<K(==)>(ks: seq<K>, xs: seq<K>): seq<K>
  {
    if |xs| == 0 then ks
    else
      var r := AddKeys(ks, xs[..|xs| - 1]);
      if xs[|xs| - 1] in r then r else r + [xs[|xs| - 1]]
  }

  /** `AddKeys` keeps the old keys in front, holds exactly the old and the
      assigned keys, and repeats none when the old ones were distinct. */
  lemma {:induction false} AddKeysSpec<K>(ks: seq<K>, xs: seq<K>)
    ensures var r := AddKeys(ks, xs);
      && |ks| <= |r| && r[..|ks|] == ks
      && (forall x :: x in r <==> x in ks || x in xs)
      && ((forall i, j :: 0 <= i < j < |ks| ==> ks[i] != ks[j]) ==>
            forall i, j :: 0 <= i < j < |r| ==> r[i] != r[j])
  {
    if |xs| > 0 {
      var xs' := xs[..|xs| - 1];
      AddKeysSpec(ks, xs');
      assert xs == xs' + [xs[|xs| - 1]];
    }
  }

  /** Assigning `xs` and then `ys` orders the keys as assigning `xs + ys`. */
  lemma {:induction false} AddKeysAppend<K>(ks: seq<K>, xs: seq<K>, ys: seq<K>)
    ensures AddKeys(AddKeys(ks, xs), ys) == AddKeys(ks, xs + ys)
  {
    if |ys| == 0 {
      assert xs + ys == xs;
    } else {
      var ys' := ys[..|ys| - 1];
      AddKeysAppend(ks, xs, ys');
      assert (xs + ys)[..|xs + ys| - 1] == xs + ys';
    }
  }

  /** Put appends a new key at the end and keeps the key order otherwise. */
  lemma PutKeys<K, V>(d: Dict<K, V>, k: K, v: V)
    ensures Keys(Put(d, k, v)) == AddKeys(Keys(d), [k])
  {
    PutSpec(d, k, v);
    if HasKey(d, k) {
      assert Keys(d)[Find(d, k)] == k;
    }
  }
}
