/** Sums over sequences, sets and maps, and flattening. */
module Sums {
  /** The sum of a sequence of numbers. */
  function SumSeq(s: seq<nat>): nat {
    if s == [] then 0 else s[0] + SumSeq(s[1..])
  }

  lemma {:induction false} SumSeqConcat(a: seq<nat>, b: seq<nat>)
    ensures SumSeq(a + b) == SumSeq(a) + SumSeq(b)
  {
    if a == [] {
      assert a + b == b;
    } else {
      assert (a + b)[1..] == a[1..] + b;
      SumSeqConcat(a[1..], b);
    }
  }

  lemma PrefixSnoc<T>(s: seq<T>, i: nat)
    requires i < |s|
    ensures s[..i + 1] == s[..i] + [s[i]]
  {
  }

  /** Concatenation of a sequence of sequences. */
  function Flatten<T>(s: seq<seq<T>>): seq<T> {
    if s == [] then [] else s[0] + Flatten(s[1..])
  }

  lemma {:induction false} FlattenConcat<T>(a: seq<seq<T>>, b: seq<seq<T>>)
    ensures Flatten(a + b) == Flatten(a) + Flatten(b)
  {
    if a == [] {
      assert a + b == b;
    } else {
      assert (a + b)[1..] == a[1..] + b;
      FlattenConcat(a[1..], b);
    }
  }

  lemma FlattenSnoc<T>(a: seq<seq<T>>, x: seq<T>)
    ensures Flatten(a + [x]) == Flatten(a) + x
  {
    FlattenConcat(a, [x]);
    assert Flatten([x]) == x + Flatten([]);
  }

  /** The sum of `m` over the keys in `s`. The order in which the keys are visited is left open. */
  ghost function SumOver<K>(s: set<K>, m: map<K, nat>): nat
    requires s <= m.Keys
  {
    if s == {} then 0 else
      var k :| k in s;
      m[k] + SumOver(s - {k}, m)
  }

  /** Any key may be taken out first: the sum does not depend on the order. */
  lemma {:induction false} SumOverRemove<K>(s: set<K>, m: map<K, nat>, k: K)
    requires s <= m.Keys
    requires k in s
    ensures SumOver(s, m) == m[k] + SumOver(s - {k}, m)
  {
    var c :| c in s && SumOver(s, m) == m[c] + SumOver(s - {c}, m);
    if c != k {
      SumOverRemove(s - {c}, m, k);
      SumOverRemove(s - {k}, m, c);
      assert s - {c} - {k} == s - {k} - {c};
    }
  }

  lemma SumOverAdd<K>(s: set<K>, m: map<K, nat>, k: K)
    requires s <= m.Keys && k in m
    requires k !in s
    ensures SumOver(s + {k}, m) == m[k] + SumOver(s, m)
  {
    SumOverRemove(s + {k}, m, k);
    assert s + {k} - {k} == s;
  }

  lemma {:induction false} SumOverMonotone<K>(s: set<K>, t: set<K>, m: map<K, nat>)
    requires s <= t <= m.Keys
    ensures SumOver(s, m) <= SumOver(t, m)
    decreases t
  {
    if s != t {
      var k :| k in t && k !in s;
      SumOverRemove(t, m, k);
      SumOverMonotone(s, t - {k}, m);
    }
  }

  /** Two maps that agree on the summed keys have the same sum. */
  lemma {:induction false} SumOverAgree<K>(s: set<K>, m: map<K, nat>, n: map<K, nat>)
    requires s <= m.Keys && s <= n.Keys
    requires forall k :: k in s ==> m[k] == n[k]
    ensures SumOver(s, m) == SumOver(s, n)
  {
    if s != {} {
      var k :| k in s;
      SumOverRemove(s, m, k);
      SumOverRemove(s, n, k);
      SumOverAgree(s - {k}, m, n);
    }
  }

  /** The sum of all values of a map. */
  ghost function SumMap<K>(m: map<K, nat>): nat {
    SumOver(m.Keys, m)
  }
}

/** The stable sort behind `sort_by` and `sort_by_key`, and what makes its result unique. */
module Sorting {
  ghost predicate Total<T(!new)>(le: (T, T) -> bool) {
    forall a, b :: le(a, b) || le(b, a)
  }

  ghost predicate Transitive<T(!new)>(le: (T, T) -> bool) {
    forall a, b, c :: le(a, b) && le(b, c) ==> le(a, c)
  }

  ghost predicate SortedBy<T>(le: (T, T) -> bool, s: seq<T>) {
    forall i, j :: 0 <= i < j < |s| ==> le(s[i], s[j])
  }

  /** Puts `x` in front of the first element it is not above, so that equal elements keep their order. */
  function Insert<T(!new)>(le: (T, T) -> bool, x: T, s: seq<T>): (r: seq<T>)
    ensures multiset(r) == multiset([x]) + multiset(s)
    ensures Total(le) && Transitive(le) && SortedBy(le, s) ==> SortedBy(le, r)
  {
    if s == [] then [x]
    else if le(x, s[0]) then [x] + s
    else
      assert s == [s[0]] + s[1..];
      var t := Insert(le, x, s[1..]);
      assert forall y :: y in t ==> y in multiset(t);
      assert Total(le) && Transitive(le) && SortedBy(le, s) ==> forall y :: y in t ==> le(s[0], y);
      [s[0]] + t
  }

  function StableSort<T(!new)>(le: (T, T) -> bool, s: seq<T>): (r: seq<T>)
    ensures multiset(r) == multiset(s)
    ensures |r| == |s|
    ensures Total(le) && Transitive(le) ==> SortedBy(le, r)
  {
    if s == [] then []
    else
      assert s == [s[0]] + s[1..];
      var r := Insert(le, s[0], StableSort(le, s[1..]));
      assert |r| == |multiset(r)|;
      r
  }

  lemma MultisetTail<T>(s: seq<T>)
    requires s != []
    ensures multiset(s[1..]) == multiset(s) - multiset{s[0]}
  {
    assert s == [s[0]] + s[1..];
  }

  /** Sorted sequences with the same elements are equal when the order separates those elements. */
  lemma {:induction false} SortedUnique<T(!new)>(le: (T, T) -> bool, a: seq<T>, b: seq<T>)
    requires multiset(a) == multiset(b)
    requires SortedBy(le, a) && SortedBy(le, b)
    requires forall x, y :: x in a && y in a && le(x, y) && le(y, x) ==> x == y
    ensures a == b
  {
    assert |a| == |multiset(a)| == |multiset(b)| == |b|;
    if a != [] {
      SameFirst(le, a, b);
      MultisetTail(a);
      MultisetTail(b);
      SortedUnique(le, a[1..], b[1..]);
      assert a == [a[0]] + a[1..] && b == [b[0]] + b[1..];
    }
  }

  lemma SameFirst<T(!new)>(le: (T, T) -> bool, a: seq<T>, b: seq<T>)
    requires a != [] && b != [] && multiset(a) == multiset(b)
    requires SortedBy(le, a) && SortedBy(le, b)
    requires forall x, y :: x in a && y in a && le(x, y) && le(y, x) ==> x == y
    ensures a[0] == b[0]
  {
    assert a[0] in multiset(b) && b[0] in multiset(a);
    var i :| 0 <= i < |a| && a[i] == b[0];
    var j :| 0 <= j < |b| && b[j] == a[0];
    if i > 0 && j > 0 {
      assert le(a[0], a[i]) && le(b[0], b[j]);
    }
  }
}
