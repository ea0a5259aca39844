/**
 * Stable sorting by a lexicographic pair key. Both game modules sort a copy of
 * their player list with `Array.prototype.sort`, which is stable, under a
 * comparator that is consistent with a key of this shape; a stable sort under a
 * consistent comparator has exactly one possible result, and `SortBy` computes it.
 */
module Sorting {

  datatype Key = Key(major: int, minor: int)

  /** Lexicographic order on keys: the comparator returns a value <= 0. */
  predicate KeyLe(a: Key, b: Key)
  {
    a.major < b.major || (a.major == b.major && a.minor <= b.minor)
  }

  predicate SortedBy<T>(s: seq<T>, key: T -> Key)
  {
    forall i, j :: 0 <= i < j < |s| ==> KeyLe(key(s[i]), key(s[j]))
  }

  /** The elements of s whose key is k, in their order in s. */
  function WithKey<T>(s: seq<T>, key: T -> Key, k: Key): seq<T>
  {
    if |s| == 0 then []
    else (if key(s[0]) == k then [s[0]] else []) + WithKey(s[1..], key, k)
  }

  /** Inserts x before the first element whose key is not below x's key. */
  function Insert<T>(x: T, s: seq<T>, key: T -> Key): seq<T>
  {
    if |s| == 0 then [x]
    else if KeyLe(key(x), key(s[0])) then [x] + s
    else [s[0]] + Insert(x, s[1..], key)
  }

  /** Insertion sort from the back: earlier elements are inserted ahead of equal keys. */
  function SortBy<T>(s: seq<T>, key: T -> Key): seq<T>
  {
    if |s| == 0 then [] else Insert(s[0], SortBy(s[1..], key), key)
  }

  lemma {:induction false} InsertPermutes<T>(x: T, s: seq<T>, key: T -> Key)
    ensures multiset(Insert(x, s, key)) == multiset(s) + multiset{x}
  {
    if |s| > 0 && !KeyLe(key(x), key(s[0])) {
      InsertPermutes(x, s[1..], key);
      assert s == [s[0]] + s[1..];
    }
  }

  lemma {:induction false} InsertSorted<T>(x: T, s: seq<T>, key: T -> Key)
    requires SortedBy(s, key)
    ensures SortedBy(Insert(x, s, key), key)
  {
    if |s| > 0 && !KeyLe(key(x), key(s[0])) {
      TailSorted(s, key);
      InsertSorted(x, s[1..], key);
      InsertSortedPast(x, s, key);
    } else if |s| > 0 {
      ConsSorted(x, s, key);
    }
  }

  lemma TailSorted<T>(s: seq<T>, key: T -> Key)
    requires |s| > 0 && SortedBy(s, key)
    ensures SortedBy(s[1..], key)
  {
    var t := s[1..];
    forall i, j | 0 <= i < j < |t| ensures KeyLe(key(t[i]), key(t[j])) {
      assert t[i] == s[i + 1] && t[j] == s[j + 1];
    }
  }

  /** An element no greater than every element of a sorted sequence can go in front. */
  lemma ConsSorted<T>(y: T, s: seq<T>, key: T -> Key)
    requires SortedBy(s, key)
    requires forall j :: 0 <= j < |s| ==> KeyLe(key(y), key(s[j]))
    ensures SortedBy([y] + s, key)
  {
    var r := [y] + s;
    forall i, j | 0 <= i < j < |r| ensures KeyLe(key(r[i]), key(r[j])) {
      assert r[j] == s[j - 1];
      if i > 0 {
        assert r[i] == s[i - 1];
      }
    }
  }

  /** The step of InsertSorted where x goes past the head of s. */
  lemma InsertSortedPast<T>(x: T, s: seq<T>, key: T -> Key)
    requires SortedBy(s, key) && |s| > 0 && !KeyLe(key(x), key(s[0]))
    requires SortedBy(Insert(x, s[1..], key), key)
    ensures SortedBy(Insert(x, s, key), key)
  {
    var t := s[1..];
    var u := Insert(x, t, key);
    InsertPermutes(x, t, key);
    forall j | 0 <= j < |u| ensures KeyLe(key(s[0]), key(u[j])) {
      assert u[j] in multiset(u);
      if u[j] != x {
        assert u[j] in multiset(t);
        var m :| 0 <= m < |t| && t[m] == u[j];
        assert t[m] == s[m + 1];
      }
    }
    ConsSorted(s[0], u, key);
    assert Insert(x, s, key) == [s[0]] + u;
  }

  /** The key class of a sequence with a known head. */
  lemma WithKeyCons<T>(y: T, t: seq<T>, key: T -> Key, k: Key)
    ensures WithKey([y] + t, key, k) == (if key(y) == k then [y] else []) + WithKey(t, key, k)
  {
    assert ([y] + t)[0] == y && ([y] + t)[1..] == t;
  }

  /** Inserting x adds x to its own key class (at the front) and leaves the others alone. */
  lemma {:induction false} InsertWithKey<T>(x: T, s: seq<T>, key: T -> Key, k: Key)
    ensures WithKey(Insert(x, s, key), key, k)
         == (if key(x) == k then [x] else []) + WithKey(s, key, k)
  {
    if |s| == 0 {
      assert Insert(x, s, key) == [x] + [];
      WithKeyCons(x, [], key, k);
    } else if KeyLe(key(x), key(s[0])) {
      WithKeyCons(x, s, key, k);
    } else {
      InsertWithKey(x, s[1..], key, k);
      InsertWithKeyPast(x, s, key, k);
    }
  }

  /** The step of InsertWithKey where x goes past the head of s. */
  lemma InsertWithKeyPast<T>(x: T, s: seq<T>, key: T -> Key, k: Key)
    requires |s| > 0 && !KeyLe(key(x), key(s[0]))
    requires WithKey(Insert(x, s[1..], key), key, k)
          == (if key(x) == k then [x] else []) + WithKey(s[1..], key, k)
    ensures WithKey(Insert(x, s, key), key, k)
         == (if key(x) == k then [x] else []) + WithKey(s, key, k)
  {
    var front := if key(x) == k then [x] else [];
    var head := if key(s[0]) == k then [s[0]] else [];
    var rest := Insert(x, s[1..], key);
    assert Insert(x, s, key) == [s[0]] + rest;
    WithKeyCons(s[0], rest, key, k);
    assert s == [s[0]] + s[1..];
    WithKeyCons(s[0], s[1..], key, k);
    // x and s[0] have different keys, so at most one of them is in class k.
    assert key(s[0]) != key(x);
    PrefixesCommute(head, front, WithKey(s[1..], key, k));
  }

  lemma PrefixesCommute<T>(a: seq<T>, b: seq<T>, w: seq<T>)
    requires a == [] || b == []
    ensures a + (b + w) == b + (a + w)
  {
    if a == [] {
      assert a + (b + w) == b + w == b + (a + w);
    } else {
      assert a + (b + w) == a + w == b + (a + w);
    }
  }

  lemma {:induction false} SortByPermutes<T>(s: seq<T>, key: T -> Key)
    ensures multiset(SortBy(s, key)) == multiset(s)
    ensures |SortBy(s, key)| == |s|
  {
    if |s| > 0 {
      var sorted := SortBy(s[1..], key);
      SortByPermutes(s[1..], key);
      InsertPermutes(s[0], sorted, key);
      assert s == [s[0]] + s[1..];
      assert multiset(s) == multiset{s[0]} + multiset(s[1..]);
      assert multiset(SortBy(s, key)) == multiset(s);
      assert |SortBy(s, key)| == |multiset(SortBy(s, key))| == |multiset(s)| == |s|;
    }
  }

  lemma {:induction false} SortBySorted<T>(s: seq<T>, key: T -> Key)
    ensures SortedBy(SortBy(s, key), key)
  {
    if |s| > 0 {
      SortBySorted(s[1..], key);
      InsertSorted(s[0], SortBy(s[1..], key), key);
    }
  }

  /** Stability: every key class keeps its input order. */
  lemma {:induction false} SortByStable<T>(s: seq<T>, key: T -> Key, k: Key)
    ensures WithKey(SortBy(s, key), key, k) == WithKey(s, key, k)
  {
    if |s| > 0 {
      SortByStable(s[1..], key, k);
      InsertWithKey(s[0], SortBy(s[1..], key), key, k);
    }
  }

  /** Everything the sort promises, in one place. */
  lemma SortByCorrect<T>(s: seq<T>, key: T -> Key)
    ensures |SortBy(s, key)| == |s|
    ensures multiset(SortBy(s, key)) == multiset(s)
    ensures SortedBy(SortBy(s, key), key)
    ensures forall k :: WithKey(SortBy(s, key), key, k) == WithKey(s, key, k)
  {
    SortByPermutes(s, key);
    SortBySorted(s, key);
    forall k ensures WithKey(SortBy(s, key), key, k) == WithKey(s, key, k) {
      SortByStable(s, key, k);
    }
  }
}
