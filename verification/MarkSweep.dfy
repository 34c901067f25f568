/** The mark-and-sweep collector of memory_allocation/c/mark_sweep.c, on its linked heap of objects. */
module MarkSweep {
  import opened Sequences

  const MAX_REFERENCES: nat := 2

  class Object {
    const id: int
    var marked: bool
    var refs: seq<Object?>
    var next: Object?

    constructor (i: int, n: Object?)
      ensures id == i && !marked && refs == [] && next == n
    {
      id, marked, refs, next := i, false, [], n;
    }
  }

  /** Which object refers to which: the references of every object on the heap. */
  type Graph = map<Object, seq<Object?>>

  /** The objects on the heap that roots reach in at most n steps. */
  ghost function Level(g: Graph, roots: seq<Object?>, n: nat): (r: set<Object>) {
    if n == 0 then set o: Object | o in g.Keys && o in roots
    else Level(g, roots, n - 1) + set o: Object | o in g.Keys && Follows(g, Level(g, roots, n - 1), o)
  }

  ghost predicate Follows(g: Graph, from: set<Object>, o: Object) {
    exists q :: q in from && q in g && o in g[q]
  }

  ghost predicate Reachable(g: Graph, roots: seq<Object?>, o: Object) {
    exists n: nat :: o in Level(g, roots, n)
  }

  /** Every reference of o that is on the heap is in the set. */
  ghost predicate ClosedAt(g: Graph, m: set<Object>, o: Object) {
    o in g ==> forall q: Object :: q in g && q in g[o] ==> q in m
  }

  lemma RootReachable(g: Graph, roots: seq<Object?>, o: Object)
    requires o in g && o in roots
    ensures Reachable(g, roots, o)
  {
    assert o in Level(g, roots, 0);
  }

  lemma ReferenceReachable(g: Graph, roots: seq<Object?>, o: Object, q: Object)
    requires Reachable(g, roots, o) && o in g && q in g && q in g[o]
    ensures Reachable(g, roots, q)
  {
    var n: nat :| o in Level(g, roots, n);
    assert Follows(g, Level(g, roots, n), q);
    assert q in Level(g, roots, n + 1);
  }

  /** A set with the roots that its references do not leave has everything that is reachable. */
  lemma {:induction false} ClosedHasLevel(g: Graph, roots: seq<Object?>, m: set<Object>, n: nat)
    requires forall o: Object :: o in g && o in roots ==> o in m
    requires forall o :: o in m ==> ClosedAt(g, m, o)
    ensures Level(g, roots, n) <= m
  {
    if n > 0 {
      ClosedHasLevel(g, roots, m, n - 1);
      forall o | o in Level(g, roots, n) ensures o in m {
        if o !in Level(g, roots, n - 1) {
          var q :| q in Level(g, roots, n - 1) && q in g && o in g[q];
          assert ClosedAt(g, m, q);
        }
      }
    }
  }

  class Heap {
    var heap: Object?
    ghost var objs: seq<Object>

    constructor ()
      ensures Valid() && objs == [] && fresh(this)
    {
      heap, objs := null, [];
    }

    /** The heap list is objs, in order and without repetition. */
    ghost predicate Valid()
      reads this, objs
    {
      && Distinct(objs) && heap == (if objs == [] then null else objs[0])
      && (forall i :: 0 <= i < |objs| - 1 ==> objs[i].next == objs[i + 1])
      && (objs != [] ==> objs[|objs| - 1].next == null)
    }

    ghost function References(): (g: Graph)
      reads this, objs
    {
      map o | o in objs :: o.refs
    }

    ghost function Marked(): (m: set<Object>)
      reads this, objs
    {
      set o | o in objs && o.marked
    }

    ghost function Unmarked(): (m: set<Object>)
      reads this, objs
    {
      set o | o in objs && !o.marked
    }

    /** allocate_object(). */
    method Allocate(id: int) returns (o: Object)
      requires Valid()
      modifies this
      ensures Valid() && fresh(o) && objs == [o] + old(objs) && !o.marked && o.refs == [] && o.id == id
    {
      o := new Object(id, heap);
      heap := o;
      objs := [o] + objs;
      assert forall i :: 1 <= i < |objs| ==> objs[i] == old(objs)[i - 1];
    }

    /** add_reference(): false where the program gives up because both slots are in use. */
    method AddReference(from: Object, to: Object?) returns (ok: bool)
      requires Valid()
      modifies from`refs
      ensures Valid() && ok == (|old(from.refs)| != MAX_REFERENCES)
      ensures from.refs == if ok then old(from.refs) + [to] else old(from.refs)
    {
      ok := |from.refs| != MAX_REFERENCES;
      if ok {
        from.refs := from.refs + [to];
      }
    }

    /** is_heap_object(). */
    method IsHeapObject(candidate: Object?) returns (found: bool)
      requires Valid()
      ensures found <==> candidate in objs
    {
      var o := heap;
      ghost var i := 0;
      while o != null
        invariant i <= |objs| && o == (if i < |objs| then objs[i] else null) && candidate !in objs[..i]
        decreases |objs| - i
      {
        if o == candidate {
          return true;
        }
        o := o.next;
        i := i + 1;
      }
      return false;
    }

    /**
     mark(): terminates on every graph.  It marks a candidate that is on the heap; what it marks
     is reachable and has all its references marked.
     */
    method Mark(candidate: Object?, ghost roots: seq<Object?>)
      requires Valid() && (candidate != null && candidate in objs ==> Reachable(References(), roots, candidate))
      modifies objs`marked
      ensures Valid() && References() == old(References()) && Unmarked() <= old(Unmarked())
      ensures Spread(References(), roots, old(Marked()), Marked())
      ensures candidate != null && candidate in objs ==> candidate in Marked()
      decreases Unmarked(), 0
    {
      hide Spread, Reachable, FirstIn;
      ghost var g, m := References(), Marked();
      SpreadRefl(g, roots, m);
      var onHeap := IsHeapObject(candidate);
      if !onHeap || candidate.marked {
        return;
      }
      candidate.marked := true;
      assert References() == g && Marked() == m + {candidate};
      assert candidate in old(Unmarked()) && Unmarked() == old(Unmarked()) - {candidate};
      MarkReferences(candidate, roots);
      SpreadWith(g, roots, m, candidate, Marked());
    }

    /** The loop of mark(). */
    method MarkReferences(c: Object, ghost roots: seq<Object?>)
      requires Valid() && c in objs && Reachable(References(), roots, c)
      modifies objs`marked
      ensures Valid() && References() == old(References()) && Unmarked() <= old(Unmarked())
      ensures Spread(References(), roots, old(Marked()), Marked()) && FirstIn(References(), c.refs, |c.refs|, Marked())
      decreases Unmarked(), 1
    {
      hide Spread, Reachable, FirstIn, Marked, Unmarked, Valid;
      ghost var g, m := References(), Marked();
      SpreadRefl(g, roots, m);
      FirstInNone(g, c.refs, m);
      for i := 0 to |c.refs|
        invariant Valid() && References() == g && Unmarked() <= old(Unmarked())
        invariant Spread(g, roots, m, Marked()) && FirstIn(g, c.refs, i, Marked())
      {
        var q := c.refs[i];
        if q != null && q in objs {
          ReferenceReachable(g, roots, c, q);
        }
        ghost var before := Marked();
        Mark(q, roots);
        assert q != null && q in g ==> q in Marked();
        SpreadTrans(g, roots, m, before, Marked());
        FirstInMore(g, c.refs, i, before, Marked());
      }
    }

    /** The mark phase: exactly the reachable objects are marked. */
    method MarkRoots(roots: seq<Object?>)
      requires Valid() && Marked() == {}
      modifies objs`marked
      ensures Valid() && References() == old(References())
      ensures forall o :: o in objs ==> (o.marked <==> Reachable(References(), roots, o))
      ensures forall o :: o in Marked() ==> ClosedAt(References(), Marked(), o)
    {
      hide Spread, Reachable, FirstIn, ClosedAt;
      ghost var g := References();
      SpreadRefl(g, roots, {});
      FirstInNone(g, roots, {});
      for i := 0 to |roots|
        invariant Valid() && References() == g && Spread(g, roots, {}, Marked()) && FirstIn(g, roots, i, Marked())
      {
        ghost var before := Marked();
        if roots[i] != null && roots[i] in objs {
          RootReachable(g, roots, roots[i]);
        }
        Mark(roots[i], roots);
        SpreadTrans(g, roots, {}, before, Marked());
        FirstInMore(g, roots, i, before, Marked());
      }
      ExactlyReachable(g, roots, Marked());
      assert forall o :: o in objs ==> (o.marked <==> o in Marked());
    }

    /**
     The sweep has dealt with the first k objects: kept is what is left of them, prev the last of
     these, and current the next object.
     */
    ghost predicate Sweeping(all: seq<Object>, m: set<Object>, k: nat, kept: seq<Object>, prev: Object?,
                             current: Object?)
      reads this, all, kept
    {
      && Distinct(all) && k <= |all| && kept == Kept(all[..k], m) && (forall o :: o in kept ==> o in all[..k])
      && current == (if k < |all| then all[k] else null) && prev == (if kept == [] then null else kept[|kept| - 1])
      && (if kept == [] then heap == current else heap == kept[0] && kept[|kept| - 1].next == current)
      && (forall i :: 0 <= i < |kept| - 1 ==> kept[i].next == kept[i + 1])
      && (forall i :: k <= i < |all| - 1 ==> all[i].next == all[i + 1]) && (k < |all| ==> all[|all| - 1].next == null)
      && (forall i :: k <= i < |all| ==> all[i].marked == (all[i] in m))
      && (forall o :: o in kept ==> o in all && !o.marked)
    }

    method KeepOne(current: Object, ghost all: seq<Object>, ghost m: set<Object>, ghost k: nat, ghost kept: seq<Object>,
                   ghost prev: Object?) returns (next: Object?)
      requires Sweeping(all, m, k, kept, prev, current) && k < |all| && current in m
      modifies current`marked
      ensures Sweeping(all, m, k + 1, kept + [current], current, next)
    {
      KeptNext(all, m, k);
      assert current !in all[..k];
      current.marked := false;
      next := current.next;
    }

    method DropOne(prev: Object?, current: Object, ghost all: seq<Object>, ghost m: set<Object>, ghost k: nat,
                   ghost kept: seq<Object>) returns (next: Object?)
      requires Sweeping(all, m, k, kept, prev, current) && k < |all| && current !in m
      modifies this`heap, all`next
      ensures Sweeping(all, m, k + 1, kept, prev, next)
    {
      KeptNext(all, m, k);
      next := current.next;
      if prev == null {
        heap := next;
      } else {
        assert prev in kept && prev in all[..k] && prev in all;
        KeptOf(all[..k], m);
        assert forall i :: k <= i < |all| ==> all[i] != prev;
        prev.next := next;
      }
    }

    /** The sweep phase: the marked objects stay, in order and unmarked. */
    method Sweep() returns (reclaimed: nat)
      requires Valid()
      modifies this, objs`marked, objs`next
      ensures Valid() && objs == Kept(old(objs), old(Marked())) && Marked() == {}
      ensures reclaimed == |old(objs)| - |objs|
    {
      hide Kept;
      ghost var all, m := objs, Marked();
      ghost var k, kept: seq<Object> := 0, [];
      KeptNone(all[..0], m);
      var prev: Object? := null;
      reclaimed := 0;
      var current := heap;
      while current != null
        invariant objs == all && k <= |all| && reclaimed + |kept| == k && Sweeping(all, m, k, kept, prev, current)
        decreases |all| - k
      {
        assert current == all[k] && current.marked == (current in m);
        if current.marked {
          var next := KeepOne(current, all, m, k, kept, prev);
          kept := kept + [current];
          prev, current := current, next;
        } else {
          current := DropOne(prev, current, all, m, k, kept);
          reclaimed := reclaimed + 1;
        }
        k := k + 1;
      }
      assert all[..k] == all;
      KeptOf(all, m);
      objs := kept;
    }

    /**
     collect(): exactly the objects that the roots reach are kept, in order and unmarked; the
     result is the number of the others; and no object that is kept refers to one of them.
     */
    method Collect(roots: seq<Object?>) returns (reclaimed: nat)
      requires Valid() && Marked() == {}
      modifies this, objs`marked, objs`next
      ensures Valid() && Marked() == {} && reclaimed == |old(objs)| - |objs|
      ensures forall o :: o in objs <==> o in old(objs) && Reachable(old(References()), roots, o)
      ensures exists m :: objs == Kept(old(objs), m)
      ensures forall o, q: Object :: o in objs && q in o.refs && q in old(objs) ==> q in objs
    {
      hide Reachable;
      ghost var all := objs;
      MarkRoots(roots);
      ghost var g, m := References(), Marked();
      reclaimed := Sweep();
      KeptOf(all, m);
      forall o, q: Object | o in objs && q in o.refs && q in all ensures q in objs {
        assert ClosedAt(g, m, o) && o in g && g[o] == o.refs;
      }
    }
  }

  /** The elements of s that are in m, in order. */
  ghost function Kept(s: seq<Object>, m: set<Object>): (r: seq<Object>) {
    if s == [] then [] else Kept(s[..|s| - 1], m) + if s[|s| - 1] in m then [s[|s| - 1]] else []
  }

  lemma KeptNone(s: seq<Object>, m: set<Object>)
    requires s == []
    ensures Kept(s, m) == []
  {
  }

  lemma KeptNext(s: seq<Object>, m: set<Object>, k: nat)
    requires k < |s|
    ensures Kept(s[..k + 1], m) == Kept(s[..k], m) + if s[k] in m then [s[k]] else []
  {
    assert s[..k + 1][..k] == s[..k];
  }

  lemma {:induction false} KeptOf(s: seq<Object>, m: set<Object>)
    ensures forall o :: o in Kept(s, m) <==> o in s && o in m
    ensures Distinct(s) ==> Distinct(Kept(s, m))
  {
    if s != [] {
      KeptOf(s[..|s| - 1], m);
    }
  }

  lemma ExactlyReachable(g: Graph, roots: seq<Object?>, m: set<Object>)
    requires Spread(g, roots, {}, m) && FirstIn(g, roots, |roots|, m)
    ensures forall o :: o in g ==> (o in m <==> Reachable(g, roots, o))
    ensures forall o :: o in m ==> ClosedAt(g, m, o)
  {
    hide ClosedAt;
    forall o | o in g && Reachable(g, roots, o) ensures o in m {
      var n: nat :| o in Level(g, roots, n);
      ClosedHasLevel(g, roots, m, n);
    }
  }

  /** m1 has m, and what it has more is reachable and has its references in m1. */
  ghost predicate Spread(g: Graph, roots: seq<Object?>, m: set<Object>, m1: set<Object>) {
    m <= m1 && forall o :: o in m1 && o !in m ==> ClosedAt(g, m1, o) && Reachable(g, roots, o)
  }

  /** The first n references are in the set, where they are on the heap. */
  ghost predicate FirstIn(g: Graph, refs: seq<Object?>, n: nat, m: set<Object>)
    requires n <= |refs|
  {
    forall j :: 0 <= j < n && refs[j] != null && refs[j] in g ==> refs[j] in m
  }

  lemma FirstInNone(g: Graph, refs: seq<Object?>, m: set<Object>)
    ensures FirstIn(g, refs, 0, m)
  {
  }

  lemma FirstInMore(g: Graph, refs: seq<Object?>, n: nat, m: set<Object>, m1: set<Object>)
    requires n < |refs| && FirstIn(g, refs, n, m) && m <= m1 && (refs[n] != null && refs[n] in g ==> refs[n] in m1)
    ensures FirstIn(g, refs, n + 1, m1)
  {
  }

  lemma SpreadRefl(g: Graph, roots: seq<Object?>, m: set<Object>)
    ensures Spread(g, roots, m, m)
  {
  }

  lemma SpreadTrans(g: Graph, roots: seq<Object?>, m: set<Object>, m1: set<Object>, m2: set<Object>)
    requires Spread(g, roots, m, m1) && Spread(g, roots, m1, m2)
    ensures Spread(g, roots, m, m2) && m1 <= m2
  {
    hide Reachable;
    forall o | o in m2 && o !in m ensures ClosedAt(g, m2, o) {
      if o in m1 {
        assert ClosedAt(g, m1, o);
      }
    }
  }

  lemma SpreadWith(g: Graph, roots: seq<Object?>, m: set<Object>, c: Object, m1: set<Object>)
    requires Spread(g, roots, m + {c}, m1) && c in g && Reachable(g, roots, c)
    requires FirstIn(g, g[c], |g[c]|, m1)
    ensures Spread(g, roots, m, m1)
  {
    hide Reachable;
    assert ClosedAt(g, m1, c);
  }
}
