/**
 * JavaScript's insertion-ordered `Map<string, Record>` as used by the room and
 * by both game modules: a sequence of records in insertion order, keyed by a
 * field of the record (`key`), with `set` updating an existing entry in place
 * and appending a new one.
 */
module Roster {
  import opened Wrappers

  /** No key occurs twice: the sequence is the value list of a Map. */
  predicate Distinct<T>(s: seq<T>, key: T -> string)
  {
    forall i, j :: 0 <= i < j < |s| ==> key(s[i]) != key(s[j])
  }

  /** The position of key k, if present (`Map.get` / `Map.has`). */
  function IndexOf<T>(s: seq<T>, key: T -> string, k: string): (r: Option<nat>)
    ensures r.Some? ==> r.value < |s| && key(s[r.value]) == k
    ensures r.Some? ==> forall i :: 0 <= i < r.value ==> key(s[i]) != k
    ensures r.None? <==> forall i :: 0 <= i < |s| ==> key(s[i]) != k
  {
    if |s| == 0 then None
    else if key(s[0]) == k then Some(0)
    else
      match IndexOf(s[1..], key, k)
      case None => None
      case Some(i) => Some(i + 1)
  }

  /** In a Distinct sequence the position of a key is the only one holding it. */
  lemma IndexOfUnique<T>(s: seq<T>, key: T -> string, i: nat)
    requires Distinct(s, key) && i < |s|
    ensures IndexOf(s, key, key(s[i])) == Some(i)
  {
  }

  /** `map.set(key(x), x)`: replace in place when present, else append. */
  function Set<T>(s: seq<T>, key: T -> string, x: T): (r: seq<T>)
    ensures IndexOf(s, key, key(x)).Some? ==> |r| == |s|
    ensures IndexOf(s, key, key(x)).None? ==> r == s + [x]
    ensures forall i :: 0 <= i < |r| ==> r[i] == x || (i < |s| && r[i] == s[i])
    ensures forall i :: 0 <= i < |s| && key(s[i]) != key(x) ==> r[i] == s[i]
    ensures IndexOf(r, key, key(x)).Some? && r[IndexOf(r, key, key(x)).value] == x
    ensures Distinct(s, key) ==> Distinct(r, key)
  {
    match IndexOf(s, key, key(x))
    case Some(i) => s[i := x]
    case None =>
      var r := s + [x];
      assert key(r[|s|]) == key(x);
      r
  }

  /** `map.delete(k)`: the entry with key k, if any, is dropped; the rest keep their order. */
  function Delete<T>(s: seq<T>, key: T -> string, k: string): (r: seq<T>)
    ensures IndexOf(s, key, k).None? ==> r == s
    ensures IndexOf(s, key, k).Some? ==>
              var i := IndexOf(s, key, k).value; r == s[..i] + s[i + 1..]
    ensures Distinct(s, key) ==> Distinct(r, key) && IndexOf(r, key, k).None?
    ensures forall y :: y in r ==> y in s
  {
    match IndexOf(s, key, k)
    case None => s
    case Some(i) =>
      var r := s[..i] + s[i + 1..];
      assert forall j :: 0 <= j < |r| ==> r[j] == (if j < i then s[j] else s[j + 1]);
      r
  }

  /** `for (const x of xs) map.set(key(x), x)` on an empty map: the value list that results. */
  function FromList<T>(xs: seq<T>, key: T -> string): (r: seq<T>)
    ensures Distinct(r, key)
  {
    if |xs| == 0 then []
    else Set(FromList(xs[..|xs| - 1], key), key, xs[|xs| - 1])
  }

  /** Filling the map with one more element is one more `set`. */
  lemma FromListSnoc<T>(xs: seq<T>, key: T -> string, x: T)
    ensures FromList(xs + [x], key) == Set(FromList(xs, key), key, x)
  {
    assert (xs + [x])[..|xs|] == xs;
  }

  /** Every value in the map came from the list. */
  lemma {:induction false} FromListElements<T>(xs: seq<T>, key: T -> string)
    ensures forall y :: y in FromList(xs, key) ==> y in xs
  {
    if |xs| > 0 {
      var init := xs[..|xs| - 1];
      FromListElements(init, key);
      assert forall y :: y in init ==> y in xs;
    }
  }

  /** Every key of the list is in the map. */
  lemma {:induction false} FromListCover<T>(xs: seq<T>, key: T -> string, i: nat)
    requires i < |xs|
    ensures IndexOf(FromList(xs, key), key, key(xs[i])).Some?
  {
    var init := xs[..|xs| - 1];
    var prev := FromList(init, key);
    var x := xs[|xs| - 1];
    if i < |xs| - 1 && key(xs[i]) != key(x) {
      assert init[i] == xs[i];
      FromListCover(init, key, i);
      var k := IndexOf(prev, key, key(xs[i])).value;
      assert FromList(xs, key)[k] == prev[k];
    }
  }

  /** Without repeated keys the map holds the list itself, in order. */
  lemma {:induction false} FromListOfDistinct<T>(xs: seq<T>, key: T -> string)
    requires Distinct(xs, key)
    ensures FromList(xs, key) == xs
  {
    if |xs| > 0 {
      var init := xs[..|xs| - 1];
      assert Distinct(init, key);
      FromListOfDistinct(init, key);
      forall i | 0 <= i < |init|
        ensures key(init[i]) != key(xs[|xs| - 1])
      {
        assert init[i] == xs[i];
      }
      assert init + [xs[|xs| - 1]] == xs;
    }
  }
}
