/**
 * Stable sort by an integer key, descending: the model of
 * `array.sort((a, b) => key(b) - key(a))`. ECMAScript requires
 * `Array.prototype.sort` to be stable, so equal keys keep their input order.
 */
module Sorting {
  import opened Seqs

  /** Non-increasing in `key`. */
  predicate SortedDesc<T>(s: seq<T>, key: T -> int)
  {
    forall i, j :: 0 <= i < j < |s| ==> key(s[i]) >= key(s[j])
  }

  /** Puts `x` before the first element whose key is not larger than its own. */
  function Insert<T>(x: T, s: seq<T>, key: T -> int): (r: seq<T>)
    ensures multiset(r) == multiset(s) + multiset{x}
    ensures forall i :: 0 <= i < |r| ==> r[i] == x || r[i] in s
  {
    if s == [] || key(x) >= key(s[0]) then [x] + s
    else
      assert s == [s[0]] + s[1..];
      [s[0]] + Insert(x, s[1..], key)
  }

  /** Inserting into a sorted sequence keeps it sorted. */
  lemma {:induction false} InsertSorted<T>(x: T, s: seq<T>, key: T -> int)
    requires SortedDesc(s, key)
    ensures SortedDesc(Insert(x, s, key), key)
  {
    var r := Insert(x, s, key);
    if s == [] || key(x) >= key(s[0]) {
      forall i, j | 0 <= i < j < |r| ensures key(r[i]) >= key(r[j]) {
        if i > 0 {
          assert r[i] == s[i - 1] && r[j] == s[j - 1];
        } else if j > 1 {
          assert r[j] == s[j - 1];
          assert key(s[0]) >= key(s[j - 1]);
        }
      }
    } else {
      var rest := Insert(x, s[1..], key);
      InsertSorted(x, s[1..], key);
      assert r == [s[0]] + rest;
      forall i, j | 0 <= i < j < |r| ensures key(r[i]) >= key(r[j]) {
        if i > 0 {
          assert r[i] == rest[i - 1] && r[j] == rest[j - 1];
        } else {
          assert r[j] == rest[j - 1];
          if rest[j - 1] != x {
            var m :| 0 <= m < |s[1..]| && s[1..][m] == rest[j - 1];
            assert key(s[0]) >= key(s[m + 1]);
          }
        }
      }
    }
  }

  /** `s` rearranged so that keys never increase. */
  function SortDesc<T>(s: seq<T>, key: T -> int): (r: seq<T>)
    ensures multiset(r) == multiset(s)
    ensures |r| == |s|
    ensures SortedDesc(r, key)
  {
    if s == [] then []
    else
      assert s == [s[0]] + s[1..];
      InsertSorted(s[0], SortDesc(s[1..], key), key);
      Insert(s[0], SortDesc(s[1..], key), key)
  }

  /** An already sorted sequence is left as it is. */
  lemma {:induction false} SortSortedUnchanged<T>(s: seq<T>, key: T -> int)
    requires SortedDesc(s, key)
    ensures SortDesc(s, key) == s
  {
    if s != [] {
      SortSortedUnchanged(s[1..], key);
      assert s == [s[0]] + s[1..];
    }
  }

  /** Sorting three elements whose keys rank first, third, second. */
  lemma SortThree<T>(x: T, y: T, z: T, key: T -> int)
    requires key(x) >= key(z) > key(y)
    ensures SortDesc([x, y, z], key) == [x, z, y]
  {
    var three := [x, y, z];
    assert three[1..] == [y, z];
    SortTwo(y, z, key);
    assert Insert(x, [z, y], key) == [x, z, y];
  }

  lemma SortTwo<T>(y: T, z: T, key: T -> int)
    requires key(y) < key(z)
    ensures SortDesc([y, z], key) == [z, y]
  {
    var two := [y, z];
    assert two[1..] == [z];
    SortOne(z, key);
    InsertPast(y, z, [], key);
    assert [z] + [y] == [z, y];
  }

  lemma SortOne<T>(z: T, key: T -> int)
    ensures SortDesc([z], key) == [z]
  {
    assert [z][1..] == [];
  }

  lemma InsertPast<T>(x: T, y: T, s: seq<T>, key: T -> int)
    requires key(x) < key(y)
    ensures Insert(x, [y] + s, key) == [y] + Insert(x, s, key)
  {
    assert ([y] + s)[0] == y && ([y] + s)[1..] == s;
  }

  /** The predicate "has key `k`". */
  function KeyIs<T>(key: T -> int, k: int): T -> bool
  {
    x => key(x) == k
  }

  /** The elements of `s` whose key is `k`, in their order in `s`. */
  function WithKey<T>(s: seq<T>, key: T -> int, k: int): seq<T>
  {
    Filter(s, KeyIs(key, k))
  }

  /** Inserting `x` adds it, and only it, to the elements with key `k`,
      in front of the ones already there. */
  lemma {:induction false} InsertStable<T>(x: T, t: seq<T>, key: T -> int, k: int)
    ensures WithKey(Insert(x, t, key), key, k)
         == (if key(x) == k then [x] else []) + WithKey(t, key, k)
  {
    var f := KeyIs(key, k);
    var r := Insert(x, t, key);
    if t == [] || key(x) >= key(t[0]) {
      assert r == [x] + t;
      FilterCons(x, t, f);
    } else {
      var tail := t[1..];
      var rest := Insert(x, tail, key);
      InsertStable(x, tail, key, k);
      assert r == [t[0]] + rest;
      assert t == [t[0]] + tail;
      FilterCons(t[0], rest, f);
      FilterCons(t[0], tail, f);
      var xs := if f(x) then [x] else [];
      var hd := if f(t[0]) then [t[0]] else [];
      assert xs == [] || hd == [];
      SwapFront(hd, xs, Filter(tail, f));
    }
  }

  /** Two prefixes of which one is empty commute. */
  lemma SwapFront<T>(a: seq<T>, b: seq<T>, c: seq<T>)
    requires a == [] || b == []
    ensures a + (b + c) == b + (a + c)
  {
  }

  /** Stability: among equal keys the sorted order is the input order. */
  lemma {:induction false} SortStable<T>(s: seq<T>, key: T -> int, k: int)
    ensures WithKey(SortDesc(s, key), key, k) == WithKey(s, key, k)
  {
    if s != [] {
      SortStable(s[1..], key, k);
      InsertStable(s[0], SortDesc(s[1..], key), key, k);
    }
  }
}
