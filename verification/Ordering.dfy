/** Finite sets of natural numbers listed in ascending order: what ORDER BY id does to a query. */
module Ordering {

  lemma LeastExists(s: set<nat>) returns (m: nat)
    requires s != {}
    ensures m in s && forall i | i in s :: m <= i
  {
    var x :| x in s;
    m := x;
    if s != {x} {
      var n := LeastExists(s - {x});
      m := if x < n then x else n;
      assert forall i | i in s :: i == x || i in s - {x};
    }
  }

  function Least(s: set<nat>): (m: nat)
    requires s != {}
    ensures m in s && forall i | i in s :: m <= i
  {
    assert exists m :: m in s && forall i | i in s :: m <= i by {
      var m := LeastExists(s);
    }
    var m :| m in s && forall i | i in s :: m <= i;
    m
  }

  predicate Increasing(ids: seq<nat>) {
    forall j, k | 0 <= j < k < |ids| :: ids[j] < ids[k]
  }

  /** The elements of s from the smallest to the largest. */
  function Ascending(s: set<nat>): (ids: seq<nat>)
    ensures forall i :: i in ids <==> i in s
    ensures Increasing(ids)
    ensures |ids| == |s|
  {
    if s == {} then [] else
      var m := Least(s);
      var rest := Ascending(s - {m});
      LeastFirst(m, rest);
      [m] + rest
  }

  lemma LeastFirst(m: nat, rest: seq<nat>)
    requires Increasing(rest) && forall i | i in rest :: m < i
    ensures Increasing([m] + rest)
  {
    forall k | 0 <= k < |rest| ensures m < rest[k] {
      assert rest[k] in rest;
    }
  }

  /** A strictly increasing list is determined by its elements. */
  lemma {:induction false} IncreasingUnique(a: seq<nat>, b: seq<nat>)
    requires Increasing(a) && Increasing(b)
    requires forall i :: i in a <==> i in b
    ensures a == b
  {
    assert a != [] ==> a[0] in b;
    assert b != [] ==> b[0] in a;
    if a != [] {
      assert a[0] == b[0];
      forall i ensures i in a[1..] <==> i in b[1..] {
        assert i in a <==> i == a[0] || i in a[1..];
        assert i in b <==> i == b[0] || i in b[1..];
      }
      IncreasingUnique(a[1..], b[1..]);
    }
  }

  /** An increasing list whose elements are downward closed in s is a prefix of s in ascending order. */
  lemma PrefixOfAscending(a: seq<nat>, s: set<nat>)
    requires Increasing(a)
    requires forall i | i in a :: i in s
    requires forall i, k | i in s && 0 <= k < |a| && i < a[k] :: i in a
    ensures |a| <= |Ascending(s)| && a == Ascending(s)[..|a|]
  {
    var rest := Ascending(set i | i in s && i !in a);
    forall j, k | 0 <= j < |a| && 0 <= k < |rest| ensures a[j] < rest[k] {
      assert rest[k] in rest && a[j] in a;
    }
    IncreasingAppend(a, rest);
    IncreasingUnique(a + rest, Ascending(s));
  }

  lemma IncreasingAppend(a: seq<nat>, b: seq<nat>)
    requires Increasing(a) && Increasing(b)
    requires forall j, k | 0 <= j < |a| && 0 <= k < |b| :: a[j] < b[k]
    ensures Increasing(a + b)
  {
  }

  /** The first n elements, or all of them. */
  function Take(ids: seq<nat>, n: nat): (taken: seq<nat>)
    ensures taken <= ids && |taken| == (if |ids| <= n then |ids| else n)
    ensures forall i | i in taken :: i in ids
  {
    if |ids| <= n then ids else ids[..n]
  }

  /** Nothing below a taken number is passed over. */
  lemma TakenFirst(ids: seq<nat>, n: nat, i: nat, k: nat)
    requires Increasing(ids) && i in ids && k < |Take(ids, n)| && i < Take(ids, n)[k]
    ensures i in Take(ids, n)[..k]
  {
    var p :| 0 <= p < |ids| && ids[p] == i;
    assert ids[k] == Take(ids, n)[k];
    assert p < k;
    assert Take(ids, n)[..k][p] == i;
  }

  /** n increasing numbers span at least n - 1. */
  lemma {:induction false} IncreasingSpan(ids: seq<nat>)
    requires Increasing(ids) && ids != []
    ensures ids[|ids| - 1] - ids[0] >= |ids| - 1
    decreases ids
  {
    if |ids| > 1 {
      IncreasingSpan(ids[..|ids| - 1]);
      assert ids[|ids| - 2] < ids[|ids| - 1];
    }
  }
}
