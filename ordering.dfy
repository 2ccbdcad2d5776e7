/** `order by <column>`: the character order of timestamp text and a sort by it. */
module Ordering {
  import opened Seqs

  /** `a` comes no later than `b` in character (lexicographic) order. For timestamps
      written as ISO-8601 text of one fixed format this is their order in time. */
  predicate LexLe(a: string, b: string)
  {
    if a == [] then true
    else if b == [] then false
    else if a[0] != b[0] then a[0] < b[0]
    else LexLe(a[1..], b[1..])
  }

  lemma {:induction false} LexLeTotal(a: string, b: string)
    ensures LexLe(a, b) || LexLe(b, a)
  {
    if a != [] && b != [] && a[0] == b[0] {
      LexLeTotal(a[1..], b[1..]);
    }
  }

  lemma {:induction false} LexLeTransitive(a: string, b: string, c: string)
    requires LexLe(a, b) && LexLe(b, c)
    ensures LexLe(a, c)
  {
    if a != [] && b != [] && c != [] && a[0] == b[0] && b[0] == c[0] {
      LexLeTransitive(a[1..], b[1..], c[1..]);
    }
  }

  lemma {:induction false} LexLeAntisymmetric(a: string, b: string)
    requires LexLe(a, b) && LexLe(b, a)
    ensures a == b
  {
    if a != [] && b != [] {
      LexLeAntisymmetric(a[1..], b[1..]);
      assert a == [a[0]] + a[1..] && b == [b[0]] + b[1..];
    }
  }

  /** Key `a` may stand before key `b`: ascending or, with `descending`, the reverse. */
  predicate InOrder(a: string, b: string, descending: bool)
  {
    if descending then LexLe(b, a) else LexLe(a, b)
  }

  /** Every element stands in order before every later one. */
  predicate SortedBy<T>(s: seq<T>, key: T -> string, descending: bool)
  {
    forall i, j :: 0 <= i < j < |s| ==> InOrder(key(s[i]), key(s[j]), descending)
  }

  /** An element in order before every element of a sorted list may be put in front of it. */
  lemma ConsSorted<T>(x: T, s: seq<T>, key: T -> string, descending: bool)
    requires SortedBy(s, key, descending)
    requires forall j :: 0 <= j < |s| ==> InOrder(key(x), key(s[j]), descending)
    ensures SortedBy([x] + s, key, descending)
  {
    var r := [x] + s;
    forall i, j | 0 <= i < j < |r| ensures InOrder(key(r[i]), key(r[j]), descending) {
      if i > 0 {
        assert r[i] == s[i - 1] && r[j] == s[j - 1];
      } else {
        assert r[j] == s[j - 1];
      }
    }
  }

  /** An element in order before the head of a sorted list is in order before all of it. */
  lemma BeforeHeadBeforeAll<T>(x: T, s: seq<T>, key: T -> string, descending: bool)
    requires SortedBy(s, key, descending) && s != []
    requires InOrder(key(x), key(s[0]), descending)
    ensures forall j :: 0 <= j < |s| ==> InOrder(key(x), key(s[j]), descending)
  {
    forall j | 0 < j < |s| ensures InOrder(key(x), key(s[j]), descending) {
      if descending {
        LexLeTransitive(key(s[j]), key(s[0]), key(x));
      } else {
        LexLeTransitive(key(x), key(s[0]), key(s[j]));
      }
    }
  }

  /** The head of a sorted list stays in order before the tail with `x` inserted. */
  lemma HeadBeforeInserted<T>(x: T, s: seq<T>, rest: seq<T>, key: T -> string, descending: bool)
    requires SortedBy(s, key, descending) && s != []
    requires InOrder(key(s[0]), key(x), descending)
    requires multiset(rest) == multiset(s[1..]) + multiset{x}
    ensures forall j :: 0 <= j < |rest| ==> InOrder(key(s[0]), key(rest[j]), descending)
  {
    forall j | 0 <= j < |rest| ensures InOrder(key(s[0]), key(rest[j]), descending) {
      var y := rest[j];
      assert y in multiset(rest);
      if y != x {
        assert y in multiset(s[1..]);
        var k :| 0 <= k < |s[1..]| && s[1..][k] == y;
        assert s[k + 1] == y;
      }
    }
  }

  function InsertBy<T>(x: T, s: seq<T>, key: T -> string, descending: bool): (r: seq<T>)
    requires SortedBy(s, key, descending)
    ensures SortedBy(r, key, descending)
    ensures multiset(r) == multiset(s) + multiset{x}
  {
    if s == [] then [x]
    else if InOrder(key(x), key(s[0]), descending) then
      BeforeHeadBeforeAll(x, s, key, descending);
      ConsSorted(x, s, key, descending);
      [x] + s
    else
      assert SortedBy(s[1..], key, descending);
      var rest := InsertBy(x, s[1..], key, descending);
      LexLeTotal(key(x), key(s[0]));
      HeadBeforeInserted(x, s, rest, key, descending);
      ConsSorted(s[0], rest, key, descending);
      assert s == [s[0]] + s[1..];
      [s[0]] + rest
  }

  /** The rows sorted on `key` (insertion sort; ties keep no particular order). */
  function SortBy<T>(s: seq<T>, key: T -> string, descending: bool): (r: seq<T>)
    ensures SortedBy(r, key, descending)
    ensures multiset(r) == multiset(s)
  {
    if s == [] then []
    else
      assert s == [s[0]] + s[1..];
      InsertBy(s[0], SortBy(s[1..], key, descending), key, descending)
  }

  /** Dropping rows from a sorted list leaves it sorted. */
  lemma {:induction false} FilterKeepsSorted<T>(s: seq<T>, p: T -> bool, key: T -> string, descending: bool)
    requires SortedBy(s, key, descending)
    ensures SortedBy(Filter(s, p), key, descending)
  {
    if s != [] {
      FilterKeepsSorted(s[1..], p, key, descending);
      var rest := Filter(s[1..], p);
      forall j | 0 <= j < |rest| ensures InOrder(key(s[0]), key(rest[j]), descending) {
        var k :| 0 <= k < |s[1..]| && s[1..][k] == rest[j];
        assert s[k + 1] == rest[j];
      }
      if p(s[0]) {
        ConsSorted(s[0], rest, key, descending);
      }
    }
  }
}
