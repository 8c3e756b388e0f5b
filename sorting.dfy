/**
 * A stable sort by an integer key. The script sorts twice: the dated files with
 * Python's list.sort (stable), and each table's rows with pandas' sort_values
 * (not promised stable). Both are modelled by SortBy; for the second only the
 * sortedness and the permutation are claimed.
 */
module Sorting {

  /** The elements of s are in non-decreasing key order. */
  ghost predicate SortedBy<T>(s: seq<T>, key: T -> int)
  {
    forall i, j :: 0 <= i < j < |s| ==> key(s[i]) <= key(s[j])
  }

  /** The elements of s whose key is k, in the order they occur in s. */
  function KeyFilter<T>(s: seq<T>, key: T -> int, k: int): (r: seq<T>)
    ensures |r| <= |s|
    ensures forall i :: 0 <= i < |r| ==> r[i] in s && key(r[i]) == k
    ensures forall i :: 0 <= i < |s| && key(s[i]) == k ==> s[i] in r
  {
    if s == [] then []
    else (if key(s[0]) == k then [s[0]] else []) + KeyFilter(s[1..], key, k)
  }

  /** Puts x in front of the first element of s whose key is at least x's. */
  function Insert<T>(x: T, s: seq<T>, key: T -> int): (r: seq<T>)
    ensures |r| == |s| + 1
    ensures multiset(r) == multiset(s) + multiset{x}
    ensures forall i :: 0 <= i < |r| ==> r[i] == x || r[i] in s
  {
    if s == [] || key(x) <= key(s[0]) then [x] + s
    else
      assert s == [s[0]] + s[1..];
      [s[0]] + Insert(x, s[1..], key)
  }

  /** Insertion sort: each element goes in front of the later elements with its key. */
  function SortBy<T>(s: seq<T>, key: T -> int): (r: seq<T>)
    ensures |r| == |s|
    ensures multiset(r) == multiset(s)
    ensures SortedBy(r, key)
  {
    if s == [] then []
    else
      assert s == [s[0]] + s[1..];
      InsertSorted(s[0], SortBy(s[1..], key), key);
      Insert(s[0], SortBy(s[1..], key), key)
  }

  lemma {:induction false} InsertSorted<T>(x: T, s: seq<T>, key: T -> int)
    requires SortedBy(s, key)
    ensures SortedBy(Insert(x, s, key), key)
  {
    if s != [] && key(x) > key(s[0]) {
      var t := Insert(x, s[1..], key);
      assert SortedBy(s[1..], key);
      InsertSorted(x, s[1..], key);
      forall i | 0 <= i < |t| ensures key(s[0]) <= key(t[i]) {
        if t[i] != x {
          var j :| 0 <= j < |s[1..]| && s[1..][j] == t[i];
          assert s[j + 1] == t[i];
        }
      }
      assert Insert(x, s, key) == [s[0]] + t;
    }
  }

  lemma {:induction false} InsertKeyFilter<T>(x: T, s: seq<T>, key: T -> int, k: int)
    ensures KeyFilter(Insert(x, s, key), key, k) == KeyFilter([x] + s, key, k)
  {
    if s == [] || key(x) <= key(s[0]) {
    } else {
      var t := Insert(x, s[1..], key);
      assert Insert(x, s, key) == [s[0]] + t;
      assert ([s[0]] + t)[1..] == t;
      assert ([x] + s)[1..] == s;
      assert ([x] + s[1..])[1..] == s[1..];
      InsertKeyFilter(x, s[1..], key, k);
    }
  }

  /** Stability: for every key, the elements with that key keep their relative order. */
  lemma {:induction false} SortByStable<T>(s: seq<T>, key: T -> int, k: int)
    ensures KeyFilter(SortBy(s, key), key, k) == KeyFilter(s, key, k)
  {
    if s != [] {
      SortByStable(s[1..], key, k);
      InsertKeyFilter(s[0], SortBy(s[1..], key), key, k);
      assert ([s[0]] + SortBy(s[1..], key))[1..] == SortBy(s[1..], key);
    }
  }

  /** An input already in key order is left unchanged. */
  lemma {:induction false} SortBySorted<T>(s: seq<T>, key: T -> int)
    requires SortedBy(s, key)
    ensures SortBy(s, key) == s
  {
    if s != [] {
      assert SortedBy(s[1..], key);
      SortBySorted(s[1..], key);
      assert s == [s[0]] + s[1..];
    }
  }

  lemma KeyFilterCons<T>(s: seq<T>, key: T -> int, k: int)
    requires s != []
    ensures KeyFilter(s, key, k) == (if key(s[0]) == k then [s[0]] else []) + KeyFilter(s[1..], key, k)
  {
  }

  /** Two sorted sequences with the same per-key subsequences start alike. */
  lemma SameHead<T>(a: seq<T>, b: seq<T>, key: T -> int)
    requires a != [] && SortedBy(a, key) && SortedBy(b, key)
    requires forall k :: KeyFilter(a, key, k) == KeyFilter(b, key, k)
    ensures b != [] && b[0] == a[0]
  {
    var ka := key(a[0]);
    assert a[0] in KeyFilter(a, key, ka);
    assert a[0] in KeyFilter(b, key, ka);
    var kb := key(b[0]);
    assert b[0] in KeyFilter(b, key, kb);
    assert b[0] in KeyFilter(a, key, kb);
    assert ka == kb;
    KeyFilterCons(a, key, ka);
    KeyFilterCons(b, key, ka);
    assert KeyFilter(a, key, ka)[0] == KeyFilter(b, key, ka)[0];
  }

  lemma SortedTail<T>(a: seq<T>, key: T -> int)
    requires a != [] && SortedBy(a, key)
    ensures SortedBy(a[1..], key)
  {
  }

  lemma SameTails<T>(a: seq<T>, b: seq<T>, key: T -> int)
    requires a != [] && b != [] && a[0] == b[0]
    requires forall k :: KeyFilter(a, key, k) == KeyFilter(b, key, k)
    ensures forall k :: KeyFilter(a[1..], key, k) == KeyFilter(b[1..], key, k)
  {
    forall k ensures KeyFilter(a[1..], key, k) == KeyFilter(b[1..], key, k) {
      KeyFilterCons(a, key, k);
      KeyFilterCons(b, key, k);
      var h := if key(a[0]) == k then [a[0]] else [];
      assert h + KeyFilter(a[1..], key, k) == h + KeyFilter(b[1..], key, k);
      assert (h + KeyFilter(a[1..], key, k))[|h|..] == KeyFilter(a[1..], key, k);
      assert (h + KeyFilter(b[1..], key, k))[|h|..] == KeyFilter(b[1..], key, k);
    }
  }

  /**
   * A sorted sequence is determined by its per-key subsequences: any stable
   * sort of s returns SortBy(s, key).
   */
  lemma {:induction false} SortedUnique<T>(a: seq<T>, b: seq<T>, key: T -> int)
    requires SortedBy(a, key) && SortedBy(b, key)
    requires forall k :: KeyFilter(a, key, k) == KeyFilter(b, key, k)
    ensures a == b
  {
    if a != [] {
      SameHead(a, b, key);
    } else if b != [] {
      SameHead(b, a, key);
    }
    if a != [] && b != [] {
      SameTails(a, b, key);
      SortedTail(a, key);
      SortedTail(b, key);
      SortedUnique(a[1..], b[1..], key);
      assert a == [a[0]] + a[1..] && b == [b[0]] + b[1..];
    }
  }

  /** Any sorted, per-key order-preserving rearrangement of s equals SortBy(s, key). */
  lemma StableSortIsSortBy<T>(s: seq<T>, r: seq<T>, key: T -> int)
    requires SortedBy(r, key)
    requires forall k :: KeyFilter(r, key, k) == KeyFilter(s, key, k)
    ensures r == SortBy(s, key)
  {
    forall k ensures KeyFilter(r, key, k) == KeyFilter(SortBy(s, key), key, k) {
      SortByStable(s, key, k);
    }
    SortedUnique(r, SortBy(s, key), key);
  }

}
