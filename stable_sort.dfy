/** The stable sort `mapPost` applies to a post's media rows:
    `rows.sort((a, b) => a.sort_order - b.sort_order)`. The engine's sort is
    stable, so the result is fixed by two facts: ascending by key, and rows
    with equal keys in input order. `Sort` is one definition with both facts
    (insertion from the back), `SortUnique` shows every sequence with both
    facts is `Sort`, and `SortInPlace` performs it on an array. */
module StableSort {

  /** Keys ascend along s. */
  ghost predicate SortedBy<T>(s: seq<T>, key: T -> int)
  {
    forall i, j :: 0 <= i < j < |s| ==> key(s[i]) <= key(s[j])
  }

  /** The elements of s whose key is k, in the order they occur in s. */
  ghost function WithKey<T>(s: seq<T>, key: T -> int, k: int): seq<T>
    decreases |s|
  {
    if s == [] then []
    else WithKey(s[..|s| - 1], key, k) + (if key(s[|s| - 1]) == k then [s[|s| - 1]] else [])
  }

  /** Insert x into t behind every element whose key is not larger than x's. */
  ghost function Insert<T>(t: seq<T>, x: T, key: T -> int): seq<T>
    decreases |t|
  {
    if t == [] || key(t[|t| - 1]) <= key(x) then t + [x]
    else Insert(t[..|t| - 1], x, key) + [t[|t| - 1]]
  }

  /** Stable sort by key. */
  ghost function Sort<T>(s: seq<T>, key: T -> int): seq<T>
    decreases |s|
  {
    if s == [] then [] else Insert(Sort(s[..|s| - 1], key), s[|s| - 1], key)
  }

  lemma {:induction false} InsertMultiset<T>(t: seq<T>, x: T, key: T -> int)
    ensures multiset(Insert(t, x, key)) == multiset(t) + multiset{x}
    decreases |t|
  {
    if !(t == [] || key(t[|t| - 1]) <= key(x)) {
      InsertMultiset(t[..|t| - 1], x, key);
      assert t == t[..|t| - 1] + [t[|t| - 1]];
    }
  }

  lemma {:induction false} InsertSorted<T>(t: seq<T>, x: T, key: T -> int)
    requires SortedBy(t, key)
    ensures SortedBy(Insert(t, x, key), key)
    decreases |t|
  {
    if !(t == [] || key(t[|t| - 1]) <= key(x)) {
      var init, last := t[..|t| - 1], t[|t| - 1];
      InsertSorted(init, x, key);
      InsertMultiset(init, x, key);
      var u := Insert(init, x, key);
      forall i | 0 <= i < |u| ensures key(u[i]) <= key(last) {
        assert u[i] in multiset(u);
        assert u[i] in multiset(init) || u[i] == x;
        if u[i] != x {
          assert u[i] in init;
        }
      }
    }
  }

  lemma {:induction false} InsertWithKey<T>(t: seq<T>, x: T, key: T -> int, k: int)
    ensures WithKey(Insert(t, x, key), key, k) == WithKey(t, key, k) + (if key(x) == k then [x] else [])
    decreases |t|
  {
    if t == [] || key(t[|t| - 1]) <= key(x) {
      assert (t + [x])[..|t|] == t;
    } else {
      var init, last := t[..|t| - 1], t[|t| - 1];
      var u := Insert(init, x, key);
      InsertWithKey(init, x, key, k);
      assert (u + [last])[..|u|] == u;
      assert t[..|t| - 1] == init;
    }
  }

  /** Sorting is ascending by key. */
  lemma {:induction false} SortSorted<T>(s: seq<T>, key: T -> int)
    ensures SortedBy(Sort(s, key), key)
    decreases |s|
  {
    if s != [] {
      SortSorted(s[..|s| - 1], key);
      InsertSorted(Sort(s[..|s| - 1], key), s[|s| - 1], key);
    }
  }

  /** Sorting is a permutation. */
  lemma {:induction false} SortPermutation<T>(s: seq<T>, key: T -> int)
    ensures multiset(Sort(s, key)) == multiset(s)
    decreases |s|
  {
    if s != [] {
      SortPermutation(s[..|s| - 1], key);
      InsertMultiset(Sort(s[..|s| - 1], key), s[|s| - 1], key);
      assert s == s[..|s| - 1] + [s[|s| - 1]];
    }
  }

  /** Sorting is stable: rows with equal keys keep their input order. */
  lemma {:induction false} SortStable<T>(s: seq<T>, key: T -> int, k: int)
    ensures WithKey(Sort(s, key), key, k) == WithKey(s, key, k)
    decreases |s|
  {
    if s != [] {
      SortStable(s[..|s| - 1], key, k);
      InsertWithKey(Sort(s[..|s| - 1], key), s[|s| - 1], key, k);
    }
  }

  lemma {:induction false} WithKeyMembership<T>(s: seq<T>, key: T -> int, k: int, x: T)
    ensures x in WithKey(s, key, k) <==> x in s && key(x) == k
    decreases |s|
  {
    if s != [] {
      WithKeyMembership(s[..|s| - 1], key, k, x);
      assert s == s[..|s| - 1] + [s[|s| - 1]];
    }
  }

  lemma {:induction false} WithKeyEmpty<T>(s: seq<T>, key: T -> int)
    requires forall k :: WithKey(s, key, k) == []
    ensures s == []
  {
    if s != [] {
      WithKeyMembership(s, key, key(s[0]), s[0]);
      assert false;
    }
  }

  lemma SortedLastIsMax<T>(u: seq<T>, key: T -> int, x: T)
    requires SortedBy(u, key) && x in u
    ensures key(x) <= key(u[|u| - 1])
  {
    var i :| 0 <= i < |u| && u[i] == x;
    assert i < |u| - 1 ==> key(u[i]) <= key(u[|u| - 1]);
  }

  /** Ascending sequences with the same key classes end in the same element. */
  lemma SameLast<T>(u: seq<T>, v: seq<T>, key: T -> int)
    requires u != [] && v != []
    requires SortedBy(u, key) && SortedBy(v, key)
    requires forall k :: WithKey(u, key, k) == WithKey(v, key, k)
    ensures u[|u| - 1] == v[|v| - 1]
  {
    var a, b := u[|u| - 1], v[|v| - 1];
    var ka, kb := key(a), key(b);
    assert WithKey(u, key, kb) == WithKey(v, key, kb);
    assert WithKey(u, key, ka) == WithKey(v, key, ka);
    WithKeyMembership(u, key, kb, b);
    WithKeyMembership(v, key, kb, b);
    WithKeyMembership(u, key, ka, a);
    WithKeyMembership(v, key, ka, a);
    SortedLastIsMax(u, key, b);
    SortedLastIsMax(v, key, a);
    var cu, cv := WithKey(u, key, ka), WithKey(v, key, ka);
    assert cu == WithKey(u[..|u| - 1], key, ka) + [a];
    assert cv == WithKey(v[..|v| - 1], key, ka) + [b];
    assert cu[|cu| - 1] == a && cv[|cv| - 1] == b;
  }

  /** Removing a common last element keeps the key classes equal. */
  lemma DropLastClasses<T>(u: seq<T>, v: seq<T>, key: T -> int, k: int)
    requires u != [] && v != [] && u[|u| - 1] == v[|v| - 1]
    requires WithKey(u, key, k) == WithKey(v, key, k)
    ensures WithKey(u[..|u| - 1], key, k) == WithKey(v[..|v| - 1], key, k)
  {
    var a := u[|u| - 1];
    var tail := if key(a) == k then [a] else [];
    var wu, wv := WithKey(u[..|u| - 1], key, k), WithKey(v[..|v| - 1], key, k);
    assert WithKey(u, key, k) == wu + tail;
    assert WithKey(v, key, k) == wv + tail;
    assert (wu + tail)[..|wu|] == wu && (wv + tail)[..|wv|] == wv;
  }

  /** Two sequences, each ascending by key, that agree on every key class are equal. */
  lemma {:induction false} SortedClassesDetermine<T>(u: seq<T>, v: seq<T>, key: T -> int)
    requires SortedBy(u, key) && SortedBy(v, key)
    requires forall k :: WithKey(u, key, k) == WithKey(v, key, k)
    ensures u == v
    decreases |u|
  {
    if u == [] {
      WithKeyEmpty(v, key);
    } else if v == [] {
      WithKeyEmpty(u, key);
    } else {
      SameLast(u, v, key);
      var u', v' := u[..|u| - 1], v[..|v| - 1];
      forall k ensures WithKey(u', key, k) == WithKey(v', key, k) {
        DropLastClasses(u, v, key, k);
      }
      SortedClassesDetermine(u', v', key);
      assert u == u' + [u[|u| - 1]] && v == v' + [v[|v| - 1]];
    }
  }

  /** Any ascending arrangement of s that keeps equal keys in input order is Sort(s):
      every stable sort computes the same result. */
  lemma SortUnique<T>(s: seq<T>, r: seq<T>, key: T -> int)
    requires SortedBy(r, key)
    requires forall k :: WithKey(r, key, k) == WithKey(s, key, k)
    ensures r == Sort(s, key)
  {
    SortSorted(s, key);
    forall k ensures WithKey(r, key, k) == WithKey(Sort(s, key), key, k) {
      SortStable(s, key, k);
    }
    SortedClassesDetermine(r, Sort(s, key), key);
  }

  /** One step of the insertion loop: x moves in front of o[j - 1]. */
  lemma InsertStep<T>(o: seq<T>, x: T, key: T -> int, j: nat, i: nat)
    requires 0 < j <= i <= |o|
    requires key(o[j - 1]) > key(x)
    ensures Insert(o[..j], x, key) + o[j..i] == Insert(o[..j - 1], x, key) + o[j - 1..i]
  {
    assert o[..j][..j - 1] == o[..j - 1];
    assert o[j - 1..i] == [o[j - 1]] + o[j..i];
  }

  /** The end of the insertion loop: x stops behind o[j - 1]. */
  lemma InsertStop<T>(o: seq<T>, x: T, key: T -> int, j: nat)
    requires j <= |o|
    requires j > 0 ==> key(o[j - 1]) <= key(x)
    ensures Insert(o[..j], x, key) == o[..j] + [x]
  {
  }

  /** Moves a[i] left past the larger-keyed elements before it. */
  method InsertLast<T>(a: array<T>, i: nat, key: T -> int)
    requires i < a.Length
    modifies a
    ensures a[..i + 1] == Insert(old(a[..i]), old(a[i]), key)
    ensures a[i + 1..] == old(a[i + 1..])
  {
    ghost var o := a[..];
    var x := a[i];
    var j := i;
    while j > 0 && key(a[j - 1]) > key(x)
      invariant 0 <= j <= i
      invariant forall k :: 0 <= k < j ==> a[k] == o[k]
      invariant forall k :: j < k <= i ==> a[k] == o[k - 1]
      invariant forall k :: i < k < a.Length ==> a[k] == o[k]
      invariant Insert(o[..i], x, key) == Insert(o[..j], x, key) + o[j..i]
    {
      InsertStep(o, x, key, j, i);
      a[j] := a[j - 1];
      j := j - 1;
    }
    InsertStop(o, x, key, j);
    a[j] := x;
    assert a[..i + 1] == o[..j] + [x] + o[j..i];
    assert a[i + 1..] == o[i + 1..];
  }

  /** Sorts a in place, stably, by key. */
  method SortInPlace<T>(a: array<T>, key: T -> int)
    modifies a
    ensures a[..] == Sort(old(a[..]), key)
    ensures SortedBy(a[..], key) && multiset(a[..]) == multiset(old(a[..]))
  {
    ghost var o := a[..];
    var i := 0;
    while i < a.Length
      invariant 0 <= i <= a.Length
      invariant a[..i] == Sort(o[..i], key)
      invariant a[i..] == o[i..]
    {
      InsertLast(a, i, key);
      assert o[..i + 1][..i] == o[..i];
      i := i + 1;
    }
    assert a[..] == a[..a.Length] && o == o[..a.Length];
    SortSorted(o, key);
    SortPermutation(o, key);
  }
}
