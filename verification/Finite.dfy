/** Counting facts about finite sets and duplicate-free sequences. */
module Finite {

  ghost function Upto(n: nat): (s: set<nat>)
    ensures forall i: nat :: i in s <==> i < n
    ensures |s| == n
  {
    if n == 0 then {} else Upto(n - 1) + {n - 1}
  }

  ghost predicate NoDup<T(!new)>(s: seq<T>) {
    forall i, j :: 0 <= i < j < |s| ==> s[i] != s[j]
  }

  ghost function Elems<T(!new)>(s: seq<T>): set<T> {
    set x | x in s
  }

  lemma SubsetSize<T>(a: set<T>, b: set<T>)
    requires a <= b
    ensures |a| <= |b|
    ensures |a| == |b| ==> a == b
  {
    assert b == a + (b - a);
  }

  lemma {:induction false} NoDupSize<T(!new)>(s: seq<T>)
    requires NoDup(s)
    ensures |Elems(s)| == |s|
  {
    if s != [] {
      var r := s[..|s| - 1];
      NoDupSize(r);
      assert s == r + [s[|s| - 1]];
      assert Elems(s) == Elems(r) + {s[|s| - 1]};
    }
  }

  // A list shorter than n misses a number below n.
  lemma Missing(s: seq<nat>, n: nat) returns (i: nat)
    requires |s| < n && NoDup(s)
    ensures i < n && i !in s
  {
    NoDupSize(s);
    if Upto(n) <= Elems(s) {
      SubsetSize(Upto(n), Elems(s));
      assert false;
    }
    i :| i in Upto(n) && i !in Elems(s);
  }

  // n different numbers below n are all of them.
  lemma Full(s: seq<nat>, n: nat)
    requires |s| >= n && NoDup(s) && forall i :: 0 <= i < |s| ==> s[i] < n
    ensures |s| == n && forall i: nat :: i < n ==> i in s
  {
    NoDupSize(s);
    SubsetSize(Elems(s), Upto(n));
    forall i: nat | i < n ensures i in s {
      assert i in Upto(n);
    }
  }
}
