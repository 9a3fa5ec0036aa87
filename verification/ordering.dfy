/**
 * The order used by `ORDER BY ... ASC` on text columns. SQLite's default
 * BINARY collation compares the UTF-8 bytes, which orders strings by code
 * point, character by character, a proper prefix first.
 */
module Ordering {

  /** `a` sorts no later than `b`. */
  predicate NameLe(a: string, b: string)
    decreases |a|
  {
    |a| == 0 || (|b| != 0 && (a[0] < b[0] || (a[0] == b[0] && NameLe(a[1..], b[1..]))))
  }

  lemma {:induction false} NameLeTotal(a: string, b: string)
    ensures NameLe(a, b) || NameLe(b, a)
    decreases |a|
  {
    if |a| != 0 && |b| != 0 && a[0] == b[0] {
      NameLeTotal(a[1..], b[1..]);
    }
  }

  lemma {:induction false} NameLeTransitive(a: string, b: string, c: string)
    requires NameLe(a, b) && NameLe(b, c)
    ensures NameLe(a, c)
    decreases |a|
  {
    if |a| != 0 && a[0] == b[0] && b[0] == c[0] {
      NameLeTransitive(a[1..], b[1..], c[1..]);
    }
  }

  lemma {:induction false} NameLeAntisymmetric(a: string, b: string)
    requires NameLe(a, b) && NameLe(b, a)
    ensures a == b
    decreases |a|
  {
    if |a| != 0 {
      NameLeAntisymmetric(a[1..], b[1..]);
      assert a == [a[0]] + a[1..];
      assert b == [b[0]] + b[1..];
    }
  }

  /** The rows of `s` appear in ascending order of `key`. */
  ghost predicate SortedBy<T>(s: seq<T>, key: T -> string)
  {
    forall i, j :: 0 <= i < j < |s| ==> NameLe(key(s[i]), key(s[j]))
  }

  /**
   * Places `x` into the ascending sequence `s`, after every row whose key
   * sorts no later than `x`'s: the step by which the engine's sorter grows
   * an ordered result set one row at a time.
   */
  method InsertByKey<T(==)>(s: seq<T>, x: T, key: T -> string) returns (r: seq<T>)
    requires SortedBy(s, key)
    ensures SortedBy(r, key)
    ensures multiset(r) == multiset(s) + multiset{x}
  {
    var p := 0;
    while p < |s| && NameLe(key(s[p]), key(x))
      invariant 0 <= p <= |s|
      invariant forall i :: 0 <= i < p ==> NameLe(key(s[i]), key(x))
    {
      p := p + 1;
    }
    FollowersAfter(s, x, p, key);
    InsertKeepsSorted(s, x, p, key);
    r := s[..p] + [x] + s[p..];
    assert s == s[..p] + s[p..];
  }

  /** Once a row sorts after `x`, so does every row behind it. */
  lemma FollowersAfter<T>(s: seq<T>, x: T, p: nat, key: T -> string)
    requires p <= |s| && SortedBy(s, key)
    requires p < |s| ==> !NameLe(key(s[p]), key(x))
    ensures forall j :: p <= j < |s| ==> NameLe(key(x), key(s[j]))
  {
    if p < |s| {
      NameLeTotal(key(s[p]), key(x));
      forall j | p < j < |s|
        ensures NameLe(key(x), key(s[j]))
      {
        NameLeTransitive(key(x), key(s[p]), key(s[j]));
      }
    }
  }

  /** Inserting `x` between the rows that sort before it and those that sort after it keeps the order. */
  lemma InsertKeepsSorted<T>(s: seq<T>, x: T, p: nat, key: T -> string)
    requires p <= |s| && SortedBy(s, key)
    requires forall i :: 0 <= i < p ==> NameLe(key(s[i]), key(x))
    requires forall j :: p <= j < |s| ==> NameLe(key(x), key(s[j]))
    ensures SortedBy(s[..p] + [x] + s[p..], key)
  {
    var r := s[..p] + [x] + s[p..];
    assert forall i :: 0 <= i < p ==> r[i] == s[i];
    assert r[p] == x;
    assert forall i :: p < i < |r| ==> r[i] == s[i - 1];
  }
}
