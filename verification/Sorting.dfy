/** Sorting by a text key that tells the items apart. */
module Sorting {
  import opened Text

  predicate DistinctBy<T(==)>(s: seq<T>, key: T -> string) {
    forall i, j :: 0 <= i < j < |s| ==> key(s[i]) != key(s[j])
  }

  predicate AscendingBy<T(==)>(s: seq<T>, key: T -> string) {
    forall i, j :: 0 <= i < j < |s| ==> LexLeq(key(s[i]), key(s[j])) && key(s[i]) != key(s[j])
  }

  lemma FirstIsLeastBy<T>(s: seq<T>, key: T -> string, x: T)
    requires AscendingBy(s, key) && x in s
    ensures LexLeq(key(s[0]), key(x))
  {
    LexLeqReflexive(key(x));
  }

  lemma HasMember<T>(s: seq<T>)
    ensures s == [] || exists x :: x in s
  {
    if s != [] {
      assert s[0] in s;
    }
  }

  /** There is one ascending list of the same items. */
  lemma {:induction false} AscendingIsUnique<T>(a: seq<T>, b: seq<T>, key: T -> string)
    requires AscendingBy(a, key) && AscendingBy(b, key)
    requires forall x :: x in a <==> x in b
    ensures a == b
  {
    hide LexLeq;
    if a == [] {
      HasMember(b);
    } else {
      assert a[0] in b && |b| > 0;
      assert b[0] in a;
      FirstIsLeastBy(a, key, b[0]);
      FirstIsLeastBy(b, key, a[0]);
      LexLeqAntisymmetric(key(a[0]), key(b[0]));
      SameFirst(a, b, key);
      RestHasSameItems(a, b, key);
      AscendingIsUnique(a[1..], b[1..], key);
      assert a == [a[0]] + a[1..] && b == [b[0]] + b[1..];
    }
  }

  lemma SameFirst<T>(a: seq<T>, b: seq<T>, key: T -> string)
    requires a != [] && b != [] && AscendingBy(b, key) && key(a[0]) == key(b[0]) && a[0] in b
    ensures a[0] == b[0]
  {
    hide LexLeq;
    var i :| 0 <= i < |b| && b[i] == a[0];
    assert i == 0;
  }

  lemma RestHasSameItems<T>(a: seq<T>, b: seq<T>, key: T -> string)
    requires AscendingBy(a, key) && AscendingBy(b, key) && a != [] && b != [] && a[0] == b[0]
    requires forall x :: x in a <==> x in b
    ensures forall x :: x in a[1..] <==> x in b[1..]
  {
    hide LexLeq;
    forall x
      ensures x in a[1..] <==> x in b[1..]
    {
      RestHas(a, key, x);
      RestHas(b, key, x);
    }
  }

  lemma RestHas<T>(s: seq<T>, key: T -> string, x: T)
    requires s != [] && AscendingBy(s, key)
    ensures x in s[1..] <==> x in s && x != s[0]
  {
    hide LexLeq;
    assert s == [s[0]] + s[1..];
    if x in s[1..] {
      var i :| 0 <= i < |s[1..]| && s[1..][i] == x;
      assert s[i + 1] == x;
    }
  }

  method InsertBy<T(==)>(sorted: seq<T>, item: T, key: T -> string) returns (out: seq<T>)
    requires AscendingBy(sorted, key) && forall x :: x in sorted ==> key(x) != key(item)
    ensures AscendingBy(out, key) && multiset(out) == multiset(sorted) + multiset{item}
  {
    hide LexLeq;
    var at := 0;
    while at < |sorted| && LexLeq(key(sorted[at]), key(item))
      invariant 0 <= at <= |sorted|
      invariant forall k :: 0 <= k < at ==> LexLeq(key(sorted[k]), key(item))
    {
      at := at + 1;
    }
    out := sorted[..at] + [item] + sorted[at..];
    InsertKeepsOrder(sorted, at, item, key);
    assert sorted == sorted[..at] + sorted[at..];
  }

  lemma InsertKeepsOrder<T>(sorted: seq<T>, at: nat, item: T, key: T -> string)
    requires AscendingBy(sorted, key) && at <= |sorted|
    requires forall k :: 0 <= k < |sorted| ==> key(sorted[k]) != key(item)
    requires forall k :: 0 <= k < at ==> LexLeq(key(sorted[k]), key(item))
    requires at < |sorted| ==> !LexLeq(key(sorted[at]), key(item))
    ensures AscendingBy(sorted[..at] + [item] + sorted[at..], key)
  {
    hide LexLeq;
    forall k | at <= k < |sorted|
      ensures LexLeq(key(item), key(sorted[k]))
    {
      LexLeqTotal(key(item), key(sorted[at]));
      if k > at {
        LexLeqTransitive(key(item), key(sorted[at]), key(sorted[k]));
      }
    }
    var out := sorted[..at] + [item] + sorted[at..];
    forall j | 0 <= j < |out|
      ensures out[j] == if j < at then sorted[j] else if j == at then item else sorted[j - 1]
    {
    }
  }

  /** The list in ascending order of its keys. */
  method SortBy<T(==)>(items: seq<T>, key: T -> string) returns (out: seq<T>)
    requires DistinctBy(items, key)
    ensures AscendingBy(out, key) && multiset(out) == multiset(items)
    ensures forall x :: x in out <==> x in items
  {
    hide LexLeq;
    out := [];
    for i := 0 to |items|
      invariant AscendingBy(out, key) && multiset(out) == multiset(items[..i])
    {
      assert items[..i + 1] == items[..i] + [items[i]];
      forall x | x in out
        ensures key(x) != key(items[i])
      {
        assert x in multiset(items[..i]);
      }
      out := InsertBy(out, items[i], key);
    }
    assert items[..|items|] == items;
    assert forall x :: x in out <==> x in multiset(out);
    assert forall x :: x in items <==> x in multiset(items);
  }
}
