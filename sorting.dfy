/** Python's sorted(xs, key=...) and list.sort(key=...) on string keys: a stable insertion sort. */
module Sorting {
  import opened Text

  ghost predicate SortedBy<T>(s: seq<T>, key: T -> string) {
    forall i, j :: 0 <= i < j < |s| ==> StrLe(key(s[i]), key(s[j]))
  }

  /** Inserts x before the first element whose key is not smaller, so equal keys keep their order. */
  function Insert<T>(x: T, s: seq<T>, key: T -> string): (r: seq<T>)
    requires SortedBy(s, key)
    ensures multiset(r) == multiset(s) + multiset{x} && |r| == |s| + 1
    ensures SortedBy(r, key)
  {
    if s == [] || StrLe(key(x), key(s[0])) then
      FirstBelowRest(x, s, key);
      ConsSorted(x, s, key);
      [x] + s
    else
      StrLeTotal(key(x), key(s[0]));
      var t := Insert(x, s[1..], key);
      assert s == [s[0]] + s[1..];
      HeadBelowInserted(x, s, t, key);
      ConsSorted(s[0], t, key);
      [s[0]] + t
  }

  /** A sorted sequence stays sorted under a head whose key is at most every key in it. */
  lemma ConsSorted<T>(h: T, t: seq<T>, key: T -> string)
    requires SortedBy(t, key) && forall j :: 0 <= j < |t| ==> StrLe(key(h), key(t[j]))
    ensures SortedBy([h] + t, key)
  {
    var r := [h] + t;
    forall i, j | 0 <= i < j < |r| ensures StrLe(key(r[i]), key(r[j])) {
      assert r[j] == t[j - 1];
      if i > 0 {
        assert r[i] == t[i - 1];
      }
    }
  }

  /** An element whose key is at most the head key of a sorted sequence is below all of it. */
  lemma FirstBelowRest<T>(x: T, s: seq<T>, key: T -> string)
    requires SortedBy(s, key) && (s == [] || StrLe(key(x), key(s[0])))
    ensures forall j :: 0 <= j < |s| ==> StrLe(key(x), key(s[j]))
  {
    forall j | 0 <= j < |s| ensures StrLe(key(x), key(s[j])) {
      if j > 0 {
        StrLeTrans(key(x), key(s[0]), key(s[j]));
      }
    }
  }

  /** The head of s is below everything that inserting x into the rest of s yields. */
  lemma HeadBelowInserted<T>(x: T, s: seq<T>, t: seq<T>, key: T -> string)
    requires s != [] && SortedBy(s, key) && StrLe(key(s[0]), key(x))
    requires multiset(t) == multiset(s[1..]) + multiset{x}
    ensures forall j :: 0 <= j < |t| ==> StrLe(key(s[0]), key(t[j]))
  {
    forall j | 0 <= j < |t| ensures StrLe(key(s[0]), key(t[j])) {
      assert t[j] in multiset(t);
      if t[j] != x {
        assert t[j] in multiset(s[1..]);
        var m :| 0 <= m < |s[1..]| && s[1..][m] == t[j];
        assert s[m + 1] == t[j];
      }
    }
  }

  function SortBy<T>(s: seq<T>, key: T -> string): (r: seq<T>)
    ensures multiset(r) == multiset(s) && |r| == |s|
    ensures SortedBy(r, key)
  {
    if s == [] then []
    else
      assert s == [s[0]] + s[1..];
      Insert(s[0], SortBy(s[1..], key), key)
  }
}
