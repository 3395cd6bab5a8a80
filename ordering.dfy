/** The two orderings the store queries apply: `sort({ a: 1, b: ±1 })` over a
    whole collection, and `findOne().sort({ createdAt: -1 })`, the newest. */
module Ordering {
  import opened JsValues

  /** A two-field sort key, compared field by field; a descending field is
      stored negated. */
  datatype Key = Key(primary: int, secondary: int)

  predicate KeyLe(a: Key, b: Key) {
    a.primary < b.primary || (a.primary == b.primary && a.secondary <= b.secondary)
  }

  ghost predicate SortedBy<T>(s: seq<T>, key: T -> Key) {
    forall i, j :: 0 <= i < j < |s| ==> KeyLe(key(s[i]), key(s[j]))
  }

  lemma ConsSorted<T>(h: T, t: seq<T>, key: T -> Key)
    requires SortedBy(t, key)
    requires forall i :: 0 <= i < |t| ==> KeyLe(key(h), key(t[i]))
    ensures SortedBy([h] + t, key)
  {
    forall i, j | 0 <= i < j < |[h] + t|
      ensures KeyLe(key(([h] + t)[i]), key(([h] + t)[j]))
    {
      if i > 0 {
        assert ([h] + t)[i] == t[i - 1];
      }
      assert ([h] + t)[j] == t[j - 1];
    }
  }

  function Insert<T>(x: T, s: seq<T>, key: T -> Key): (r: seq<T>)
    requires SortedBy(s, key)
    ensures multiset(r) == multiset(s) + multiset{x}
    ensures SortedBy(r, key)
  {
    if s == [] then [x]
    else if KeyLe(key(x), key(s[0])) then
      ConsSorted(x, s, key);
      [x] + s
    else
      var t := Insert(x, s[1..], key);
      assert s == [s[0]] + s[1..];
      forall i | 0 <= i < |t| ensures KeyLe(key(s[0]), key(t[i])) {
        assert t[i] in multiset(t);
        assert t[i] == x || t[i] in multiset(s[1..]);
      }
      ConsSorted(s[0], t, key);
      [s[0]] + t
  }

  /** The collection in key order: a permutation of `s` that is sorted. */
  function SortBy<T>(s: seq<T>, key: T -> Key): (r: seq<T>)
    ensures multiset(r) == multiset(s)
    ensures SortedBy(r, key)
  {
    if s == [] then []
    else
      assert s == s[..|s| - 1] + [s[|s| - 1]];
      Insert(s[|s| - 1], SortBy(s[..|s| - 1], key), key)
  }

  /** The element with the greatest creation time, if any. */
  function Newest<T>(s: seq<T>, createdAt: T -> int): (r: Option<T>)
    ensures r.None? <==> s == []
    ensures r.Some? ==> r.value in s && forall y :: y in s ==> createdAt(y) <= createdAt(r.value)
  {
    if s == [] then None
    else
      var rest := Newest(s[1..], createdAt);
      assert forall y :: y in s ==> y == s[0] || y in s[1..];
      if rest.None? || createdAt(rest.value) < createdAt(s[0]) then Some(s[0]) else rest
  }
}
