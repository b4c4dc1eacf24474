/** Python's `sorted(items, key=value, reverse=True)` on (key, integer value)
    pairs: a stable sort by value, largest first, in which entries of equal
    value keep the order they had. The solver uses it twice: to rank the
    global street scores and to order each intersection's output lines. */
module StableSort {

  /** Largest value first. */
  ghost predicate SortedDesc<K>(s: seq<(K, int)>)
  {
    forall i, j :: 0 <= i < j < |s| ==> s[i].1 >= s[j].1
  }

  /** The entries of `s` whose value is `v`, in order. */
  function WithValue<K>(s: seq<(K, int)>, v: int): seq<(K, int)>
  {
    if |s| == 0 then []
    else (if s[0].1 == v then [s[0]] else []) + WithValue(s[1..], v)
  }

  /** Places `x` after every entry whose value is at least its own. */
  function Insert<K>(s: seq<(K, int)>, x: (K, int)): seq<(K, int)>
  {
    if |s| == 0 then [x]
    else if s[0].1 >= x.1 then [s[0]] + Insert(s[1..], x)
    else [x] + s
  }

  /** Insertion sort, taking the entries in their original order. */
  function SortDesc<K>(s: seq<(K, int)>): seq<(K, int)>
  {
    if |s| == 0 then [] else Insert(SortDesc(s[..|s| - 1]), s[|s| - 1])
  }

  lemma {:induction false} WithValueConcat<K>(a: seq<(K, int)>, b: seq<(K, int)>, v: int)
    ensures WithValue(a + b, v) == WithValue(a, v) + WithValue(b, v)
  {
    if |a| == 0 {
      assert a + b == b;
    } else {
      var head := if a[0].1 == v then [a[0]] else [];
      assert (a + b)[0] == a[0];
      assert (a + b)[1..] == a[1..] + b;
      WithValueConcat(a[1..], b, v);
      calc {
        WithValue(a + b, v);
        head + WithValue(a[1..] + b, v);
        head + (WithValue(a[1..], v) + WithValue(b, v));
        (head + WithValue(a[1..], v)) + WithValue(b, v);
        WithValue(a, v) + WithValue(b, v);
      }
    }
  }

  /** No entry of `s` has value `v` when all of them are smaller. */
  lemma {:induction false} WithValueNone<K>(s: seq<(K, int)>, v: int)
    requires forall i :: 0 <= i < |s| ==> s[i].1 < v
    ensures WithValue(s, v) == []
  {
    if |s| > 0 {
      WithValueNone(s[1..], v);
    }
  }

  lemma {:induction false} InsertPermutes<K>(s: seq<(K, int)>, x: (K, int))
    ensures |Insert(s, x)| == |s| + 1
    ensures multiset(Insert(s, x)) == multiset(s) + multiset{x}
  {
    if |s| > 0 && s[0].1 >= x.1 {
      InsertPermutes(s[1..], x);
      assert s == [s[0]] + s[1..];
    }
  }

  lemma {:induction false} InsertSorted<K>(s: seq<(K, int)>, x: (K, int))
    requires SortedDesc(s)
    ensures SortedDesc(Insert(s, x))
  {
    if |s| > 0 && s[0].1 >= x.1 {
      var t := Insert(s[1..], x);
      InsertSorted(s[1..], x);
      InsertPermutes(s[1..], x);
      forall i | 0 <= i < |t|
        ensures t[i].1 <= s[0].1
      {
        assert t[i] in multiset(t);
        assert t[i] == x || t[i] in s[1..];
      }
    }
  }

  lemma {:induction false} InsertStable<K>(s: seq<(K, int)>, x: (K, int), v: int)
    requires SortedDesc(s)
    ensures WithValue(Insert(s, x), v) == WithValue(s, v) + WithValue([x], v)
  {
    if |s| == 0 {
    } else if s[0].1 >= x.1 {
      var tail := s[1..];
      assert SortedDesc(tail) by {
        forall i, j | 0 <= i < j < |tail| ensures tail[i].1 >= tail[j].1 {
          assert tail[i] == s[i + 1] && tail[j] == s[j + 1];
        }
      }
      InsertStable(tail, x, v);
      WithValueConcat([s[0]], Insert(tail, x), v);
      WithValueConcat([s[0]], tail, v);
      assert s == [s[0]] + tail;
      calc {
        WithValue(Insert(s, x), v);
        WithValue([s[0]] + Insert(tail, x), v);
        WithValue([s[0]], v) + WithValue(Insert(tail, x), v);
        WithValue([s[0]], v) + (WithValue(tail, v) + WithValue([x], v));
        (WithValue([s[0]], v) + WithValue(tail, v)) + WithValue([x], v);
        WithValue(s, v) + WithValue([x], v);
      }
    } else {
      WithValueConcat([x], s, v);
      if x.1 == v {
        WithValueNone(s, v);
      }
    }
  }

  /** The sort's contract: largest value first, a permutation of its input,
      and stable (the entries of each value appear in their original order). */
  lemma {:induction false} SortDescSpec<K>(s: seq<(K, int)>)
    ensures |SortDesc(s)| == |s|
    ensures SortedDesc(SortDesc(s))
    ensures multiset(SortDesc(s)) == multiset(s)
    ensures forall v :: WithValue(SortDesc(s), v) == WithValue(s, v)
  {
    if |s| > 0 {
      var init, last := s[..|s| - 1], s[|s| - 1];
      SortDescSpec(init);
      InsertPermutes(SortDesc(init), last);
      InsertSorted(SortDesc(init), last);
      assert s == init + [last];
      forall v
        ensures WithValue(SortDesc(s), v) == WithValue(s, v)
      {
        InsertStable(SortDesc(init), last, v);
        WithValueConcat(init, [last], v);
      }
    }
  }

  /** In the sorted order, every entry of the first `k` has a value at least
      that of every entry after them: the first `k` are a top-`k` selection. */
  lemma TopPrefix<K>(s: seq<(K, int)>, k: nat)
    requires k <= |s|
    ensures |SortDesc(s)| == |s|
    ensures forall i, j :: 0 <= i < k <= j < |s| ==> SortDesc(s)[i].1 >= SortDesc(s)[j].1
  {
    SortDescSpec(s);
  }
}
