/** `Array.prototype.sort` with a numeric comparator, as the client calls it
    on copies of its lists: `(a, b) => key(b) - key(a)` for a descending
    order and `(a, b) => key(a) - key(b)` for an ascending one. The
    language guarantees the sort is stable, so the model is a stable
    insertion sort, proved ordered, a permutation, and stable: the elements
    of any one key keep their original relative order. */
module Sorting {

  predicate SortedDesc<T>(s: seq<T>, key: T -> int)
  {
    forall i, j :: 0 <= i < j < |s| ==> key(s[i]) >= key(s[j])
  }

  predicate SortedAsc<T>(s: seq<T>, key: T -> int)
  {
    forall i, j :: 0 <= i < j < |s| ==> key(s[i]) <= key(s[j])
  }

  /** The elements of s whose key is v, in their order in s. */
  function WithKey<T>(s: seq<T>, key: T -> int, v: int): (r: seq<T>)
    ensures |r| <= |s|
    ensures forall x :: x in r ==> x in s && key(x) == v
  {
    if s == [] then []
    else if key(s[0]) == v then [s[0]] + WithKey(s[1..], key, v)
    else WithKey(s[1..], key, v)
  }

  /** Places x in front of the first element whose key is not larger than
      its own: after every strictly larger key and before every equal key
      that came after it in the input. */
  function Insert<T>(x: T, s: seq<T>, key: T -> int): seq<T>
  {
    if s == [] || key(s[0]) <= key(x) then [x] + s
    else [s[0]] + Insert(x, s[1..], key)
  }

  /** `[...s].sort((a, b) => key(b) - key(a))`. */
  function SortDesc<T>(s: seq<T>, key: T -> int): seq<T>
  {
    if s == [] then [] else Insert(s[0], SortDesc(s[1..], key), key)
  }

  /** `[...s].sort((a, b) => key(a) - key(b))`: a descending sort on the
      negated key. */
  function SortAsc<T>(s: seq<T>, key: T -> int): seq<T>
  {
    SortDesc(s, x => -key(x))
  }

  lemma {:induction false} InsertPermutation<T>(x: T, s: seq<T>, key: T -> int)
    ensures multiset(Insert(x, s, key)) == multiset(s) + multiset{x}
    ensures |Insert(x, s, key)| == |s| + 1
  {
    if s != [] && key(s[0]) > key(x) {
      InsertPermutation(x, s[1..], key);
      assert s == [s[0]] + s[1..];
    }
  }

  /** A sequence ordered after its head is ordered when the head is at
      least the next key. */
  lemma ConsSorted<T>(a: T, r: seq<T>, key: T -> int)
    requires SortedDesc(r, key)
    requires r == [] || key(a) >= key(r[0])
    ensures SortedDesc([a] + r, key)
  {
    var q := [a] + r;
    forall i, j | 0 <= i < j < |q| ensures key(q[i]) >= key(q[j]) {
      if i == 0 && j > 1 {
        assert key(r[0]) >= key(r[j - 1]);
      }
    }
  }

  lemma {:induction false} InsertSorted<T>(x: T, s: seq<T>, key: T -> int)
    requires SortedDesc(s, key)
    ensures SortedDesc(Insert(x, s, key), key)
    ensures Insert(x, s, key)[0] == x || (s != [] && Insert(x, s, key)[0] == s[0])
  {
    if s == [] || key(s[0]) <= key(x) {
      ConsSorted(x, s, key);
    } else {
      var t := s[1..];
      InsertSorted(x, t, key);
      var r := Insert(x, t, key);
      assert r[0] == x || r[0] == t[0];
      ConsSorted(s[0], r, key);
    }
  }

  lemma {:induction false} SortDescSortedPermutation<T>(s: seq<T>, key: T -> int)
    ensures SortedDesc(SortDesc(s, key), key)
    ensures multiset(SortDesc(s, key)) == multiset(s)
    ensures |SortDesc(s, key)| == |s|
  {
    if s != [] {
      SortDescSortedPermutation(s[1..], key);
      InsertSorted(s[0], SortDesc(s[1..], key), key);
      InsertPermutation(s[0], SortDesc(s[1..], key), key);
      assert s == [s[0]] + s[1..];
    }
  }

  lemma {:induction false} InsertStable<T>(x: T, s: seq<T>, key: T -> int, v: int)
    ensures WithKey(Insert(x, s, key), key, v) == WithKey([x] + s, key, v)
  {
    if s == [] || key(s[0]) <= key(x) {
    } else {
      InsertStable(x, s[1..], key, v);
      assert ([x] + s)[1..] == s;
      assert ([x] + s[1..])[1..] == s[1..];
      assert ([s[0]] + Insert(x, s[1..], key))[1..] == Insert(x, s[1..], key);
      if key(x) == v {
        // s[0] has a larger key than x, so it does not have key v
        assert WithKey([x] + s, key, v) == [x] + WithKey(s[1..], key, v);
      }
    }
  }

  /** Stability: for every key, the elements with that key appear in the
      sorted list in the order they had in the input. */
  lemma {:induction false} SortDescStable<T>(s: seq<T>, key: T -> int, v: int)
    ensures WithKey(SortDesc(s, key), key, v) == WithKey(s, key, v)
  {
    if s != [] {
      SortDescStable(s[1..], key, v);
      InsertStable(s[0], SortDesc(s[1..], key), key, v);
      var t := SortDesc(s[1..], key);
      assert ([s[0]] + t)[1..] == t;
      assert ([s[0]] + s[1..])[1..] == s[1..];
      assert s == [s[0]] + s[1..];
    }
  }

  lemma SortAscSortedPermutation<T>(s: seq<T>, key: T -> int)
    ensures SortedAsc(SortAsc(s, key), key)
    ensures multiset(SortAsc(s, key)) == multiset(s)
    ensures |SortAsc(s, key)| == |s|
  {
    var neg := x => -key(x);
    SortDescSortedPermutation(s, neg);
    var r := SortAsc(s, key);
    assert forall i, j :: 0 <= i < j < |r| ==> neg(r[i]) >= neg(r[j]);
  }

  lemma SortAscStable<T>(s: seq<T>, key: T -> int, v: int)
    ensures WithKey(SortAsc(s, key), key, v) == WithKey(s, key, v)
  {
    var neg := x => -key(x);
    SortDescStable(s, neg, -v);
    WithKeyNegated(SortAsc(s, key), key, v);
    WithKeyNegated(s, key, v);
  }

  lemma {:induction false} WithKeyNegated<T>(s: seq<T>, key: T -> int, v: int)
    ensures WithKey(s, x => -key(x), -v) == WithKey(s, key, v)
  {
    if s != [] {
      WithKeyNegated(s[1..], key, v);
    }
  }
}
