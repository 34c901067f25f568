/** Facts about duplicate-free sequences that several components share. */
module Sequences {

  ghost predicate Distinct<T>(s: seq<T>) {
    forall i, j :: 0 <= i < j < |s| ==> s[i] != s[j]
  }

  function Elems<T>(s: seq<T>): (r: set<T>) {
    set x | x in s
  }

  lemma ElemsAppend<T>(s: seq<T>, x: T)
    ensures Elems(s + [x]) == Elems(s) + {x}
  {
  }

  lemma {:induction false} DistinctCard<T>(s: seq<T>)
    requires Distinct(s)
    ensures |Elems(s)| == |s|
  {
    if s != [] {
      var t, x := s[..|s| - 1], s[|s| - 1];
      DistinctCard(t);
      assert s == t + [x];
      ElemsAppend(t, x);
      assert x !in t;
    } else {
      assert Elems(s) == {};
    }
  }

  function Below(n: nat): (r: set<nat>)
    ensures |r| == n
    ensures forall i: nat :: i in r <==> i < n
  {
    if n == 0 then {} else Below(n - 1) + {n - 1}
  }

  lemma SubsetCard<T>(a: set<T>, b: set<T>)
    requires a <= b
    ensures |a| <= |b|
    ensures |a| == |b| ==> a == b
  {
    assert b == a + (b - a);
    assert |b| == |a| + |b - a|;
  }

  /** n different numbers below n are all the numbers below n. */
  lemma DistinctCovers(s: seq<nat>, n: nat)
    requires Distinct(s) && |s| == n && forall k :: 0 <= k < |s| ==> s[k] < n
    ensures forall i: nat :: i < n ==> i in s
  {
    DistinctCard(s);
    forall x | x in Elems(s) ensures x in Below(n) {
      assert x in s;
    }
    SubsetCard(Elems(s), Below(n));
    forall i: nat | i < n ensures i in s {
      assert i in Below(n);
      assert i in Elems(s);
    }
  }

  ghost predicate Injective<A, B>(f: map<A, B>) {
    forall x, y :: x in f && y in f && f[x] == f[y] ==> x == y
  }

  /** A set and its image under an injective map have the same size. */
  lemma {:induction false} ImageCard<A, B>(f: map<A, B>)
    requires Injective(f)
    ensures |f.Keys| == |f.Values|
    decreases |f.Keys|
  {
    if f.Keys == {} {
      assert f.Values == {};
    } else {
      var x :| x in f;
      var g := f - {x};
      assert g.Keys == f.Keys - {x};
      ImageCard(g);
      forall y ensures y in f.Values <==> y in g.Values + {f[x]} {
        if y in f.Values && y != f[x] {
          var z :| z in f && f[z] == y;
          assert z in g && g[z] == y;
        }
      }
      assert f.Values == g.Values + {f[x]};
      assert f[x] !in g.Values;
    }
  }
}
