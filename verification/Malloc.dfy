/**
 The user-level allocator (user/umalloc.c), in units of one Header.  The circular free list is
 in address order, starts at the static base, and lies in mem; fl is the same list as a value.
 */
module Malloc {

  /** union header. */
  datatype Header = Header(ptr: nat, size: nat)

  /** A block: its header's address, and its size with the header. */
  datatype Block = Block(a: nat, n: nat)

  /** live gives the size of each block in use, by its header; arena is all that sbrk() has given. */
  datatype Heap = Heap(fl: seq<Block>, live: map<nat, nat>, arena: set<nat>)

  function End(b: Block): (e: nat) {
    b.a + b.n
  }

  /** In address order, and no two blocks adjacent. */
  ghost predicate Coalesced(base: nat, fl: seq<Block>) {
    && (forall i :: 0 <= i < |fl| ==> base < fl[i].a && 0 < fl[i].n)
    && (forall i, j :: 0 <= i < j < |fl| ==> End(fl[i]) < fl[j].a)
  }

  predicate Apart(a: nat, n: nat, b: nat, m: nat) {
    a + n <= b || b + m <= a
  }

  /** Blocks in use overlap neither each other nor free blocks. */
  ghost predicate Disjoint(base: nat, h: Heap) {
    && (forall x :: x in h.live ==> base < x && 0 < h.live[x])
    && (forall x, y :: x in h.live && y in h.live && x != y ==> Apart(x, h.live[x], y, h.live[y]))
    && (forall i, x :: 0 <= i < |h.fl| && x in h.live ==> Apart(h.fl[i].a, h.fl[i].n, x, h.live[x]))
  }

  ghost predicate InFree(h: Heap, u: nat) {
    In(h.fl, u)
  }

  ghost predicate InLive(h: Heap, u: nat) {
    exists x :: x in h.live && x <= u < x + h.live[x]
  }

  /** Every unit from sbrk() is in a free block or in a block in use, and nothing else is. */
  ghost predicate Covered(h: Heap) {
    forall u: nat :: u in h.arena <==> InFree(h, u) || InLive(h, u)
  }

  ghost predicate Inv(base: nat, h: Heap) {
    0 < base && Coalesced(base, h.fl) && Disjoint(base, h) && Covered(h)
  }

  /** No unit is both free and in use. */
  lemma NotBoth(base: nat, h: Heap, u: nat)
    requires Inv(base, h)
    ensures !(InFree(h, u) && InLive(h, u))
  {
  }

  // ----- the list in memory -----

  function Node(base: nat, fl: seq<Block>, k: nat): (p: nat)
    requires k <= |fl|
  {
    if k == 0 then base else fl[k - 1].a
  }

  function SizeAt(fl: seq<Block>, k: nat): (n: nat)
    requires k <= |fl|
  {
    if k == 0 then 0 else fl[k - 1].n
  }

  /** The list is circular: the last node points to base. */
  function Next(base: nat, fl: seq<Block>, k: nat): (p: nat)
    requires k <= |fl|
  {
    if k < |fl| then fl[k].a else base
  }

  ghost predicate Linked(base: nat, mem: map<nat, Header>, fl: seq<Block>) {
    forall k :: 0 <= k <= |fl| ==>
        Node(base, fl, k) in mem && mem[Node(base, fl, k)] == Header(Next(base, fl, k), SizeAt(fl, k))
  }

  // ----- free -----

  /** bp belongs between node j and the next one. */
  ghost predicate Between(base: nat, fl: seq<Block>, j: nat, bp: nat) {
    j <= |fl| && Node(base, fl, j) < bp && (j < |fl| ==> bp < fl[j].a)
  }

  /** Block i takes in the block after it. */
  function Joined(fl: seq<Block>, i: nat): (r: seq<Block>)
    requires i + 1 < |fl|
  {
    fl[..i] + [Block(fl[i].a, fl[i].n + fl[i + 1].n)] + fl[i + 2..]
  }

  predicate Adjacent(fl: seq<Block>, i: int) {
    0 <= i && i + 1 < |fl| && End(fl[i]) == fl[i + 1].a
  }

  function Placed(fl: seq<Block>, j: nat, b: Block): (r: seq<Block>)
    requires j <= |fl|
  {
    fl[..j] + [b] + fl[j..]
  }

  function JoinedUp(fl: seq<Block>, j: nat, b: Block): (r: seq<Block>)
    requires j <= |fl|
  {
    var f := Placed(fl, j, b);
    if Adjacent(f, j) then Joined(f, j) else f
  }

  /** The list with block b put between node j and the next one, and joined to its neighbours. */
  function Inserted(fl: seq<Block>, j: nat, b: Block): (r: seq<Block>)
    requires j <= |fl|
  {
    var f := JoinedUp(fl, j, b);
    if Adjacent(f, j - 1) then Joined(f, j - 1) else f
  }

  /** In address order, and adjacent only at the places in gaps. */
  ghost predicate Ordered(base: nat, fl: seq<Block>, gaps: set<int>) {
    && (forall i :: 0 <= i < |fl| ==> base < fl[i].a && 0 < fl[i].n)
    && (forall i, k :: 0 <= i < k < |fl| ==> End(fl[i]) <= fl[k].a)
    && (forall i :: Adjacent(fl, i) ==> i in gaps)
  }

  lemma OrderedCoalesced(base: nat, fl: seq<Block>)
    ensures Ordered(base, fl, {}) <==> Coalesced(base, fl)
  {
    if Ordered(base, fl, {}) {
      forall i, k | 0 <= i < k < |fl| ensures End(fl[i]) < fl[k].a {
        assert !Adjacent(fl, i) && End(fl[i]) <= fl[i + 1].a;
      }
    }
  }

  /** b overlaps no free block. */
  ghost predicate ApartFrom(fl: seq<Block>, b: Block) {
    forall i :: 0 <= i < |fl| ==> Apart(fl[i].a, fl[i].n, b.a, b.n)
  }

  lemma PlacedAt(fl: seq<Block>, j: nat, b: Block, i: nat)
    requires j <= |fl| && i < |fl| + 1
    ensures |Placed(fl, j, b)| == |fl| + 1
    ensures Placed(fl, j, b)[i] == if i < j then fl[i] else if i == j then b else fl[i - 1]
  {
  }

  lemma JoinedAt(fl: seq<Block>, m: nat, i: nat)
    requires m + 1 < |fl| && i < |fl| - 1
    ensures |Joined(fl, m)| == |fl| - 1
    ensures Joined(fl, m)[i] ==
                if i < m then fl[i] else if i == m then Block(fl[m].a, fl[m].n + fl[m + 1].n) else fl[i + 1]
  {
  }

  ghost predicate IsPlaced(fl: seq<Block>, j: nat, b: Block, f: seq<Block>)
    requires j <= |fl|
  {
    && |f| == |fl| + 1 && f[j] == b
    && (forall i :: 0 <= i < j ==> f[i] == fl[i])
    && (forall i :: j < i < |f| ==> f[i] == fl[i - 1])
  }

  lemma PlacedIs(fl: seq<Block>, j: nat, b: Block)
    requires j <= |fl|
    ensures IsPlaced(fl, j, b, Placed(fl, j, b))
  {
  }

  lemma IsPlacedOrdered(base: nat, fl: seq<Block>, j: nat, b: Block, f: seq<Block>)
    requires Coalesced(base, fl) && Between(base, fl, j, b.a) && b.n > 0 && ApartFrom(fl, b) && IsPlaced(fl, j, b, f)
    ensures Ordered(base, f, {j - 1, j})
  {
    forall i, k | 0 <= i < k < |f|
      ensures End(f[i]) <= f[k].a && (i < k - 1 || (i != j - 1 && i != j) ==> End(f[i]) < f[k].a)
    {
      if k == j {
        assert f[i] == fl[i] && Apart(fl[i].a, fl[i].n, b.a, b.n);
        assert i < j - 1 ==> End(fl[i]) < fl[j - 1].a;
      } else if i == j {
        assert f[k] == fl[k - 1] && Apart(fl[k - 1].a, fl[k - 1].n, b.a, b.n);
      }
    }
  }

  lemma PlacedOrdered(base: nat, fl: seq<Block>, j: nat, b: Block)
    requires Coalesced(base, fl) && Between(base, fl, j, b.a) && b.n > 0 && ApartFrom(fl, b)
    ensures Ordered(base, Placed(fl, j, b), {j - 1, j})
  {
    hide Coalesced, Between, ApartFrom, IsPlaced, Ordered, Placed;
    assert j <= |fl| by { BetweenFits(base, fl, j, b.a); }
    PlacedIs(fl, j, b);
    IsPlacedOrdered(base, fl, j, b, Placed(fl, j, b));
  }

  lemma BetweenFits(base: nat, fl: seq<Block>, j: nat, bp: nat)
    requires Between(base, fl, j, bp)
    ensures j <= |fl|
  {
  }

  /** A joined block starts where the first of its two did, and ends where the second did. */
  lemma JoinedEnds(fl: seq<Block>, m: nat, i: nat)
    requires Adjacent(fl, m) && i < |fl| - 1
    ensures |Joined(fl, m)| == |fl| - 1
    ensures Joined(fl, m)[i].a == fl[if i <= m then i else i + 1].a
    ensures End(Joined(fl, m)[i]) == End(fl[if i < m then i else i + 1])
    ensures Joined(fl, m)[i].n >= fl[if i <= m then i else i + 1].n
  {
    hide Joined;
    JoinedAt(fl, m, i);
  }

  lemma JoinedPair(base: nat, fl: seq<Block>, m: nat, gaps: set<int>, i: nat, k: nat)
    requires Ordered(base, fl, gaps) && Adjacent(fl, m) && i < k < |fl| - 1
    ensures |Joined(fl, m)| == |fl| - 1 && End(Joined(fl, m)[i]) <= Joined(fl, m)[k].a
  {
    hide Joined, Adjacent;
    JoinedEnds(fl, m, i);
    JoinedEnds(fl, m, k);
  }

  lemma JoinedGap(fl: seq<Block>, m: nat, i: int)
    requires Adjacent(fl, m) && Adjacent(Joined(fl, m), i)
    ensures Adjacent(fl, if i < m then i else i + 1)
  {
    hide Joined;
    JoinedAt(fl, m, 0);
    JoinedEnds(fl, m, i);
    JoinedEnds(fl, m, i + 1);
  }

  lemma JoinedOrdered(base: nat, fl: seq<Block>, m: nat, gaps: set<int>)
    requires Ordered(base, fl, gaps) && Adjacent(fl, m) && forall g :: g in gaps ==> g <= m
    ensures Ordered(base, Joined(fl, m), gaps - {m})
  {
    var f := Joined(fl, m);
    assert |f| == |fl| - 1 && m + 1 < |fl|;
    hide Joined, Adjacent;
    forall i | 0 <= i < |f| ensures base < f[i].a && 0 < f[i].n {
      JoinedEnds(fl, m, i);
    }
    forall i, k | 0 <= i < k < |f| ensures End(f[i]) <= f[k].a {
      JoinedPair(base, fl, m, gaps, i, k);
    }
    forall i | Adjacent(f, i) ensures i in gaps - {m} {
      JoinedGap(fl, m, i);
    }
  }

  lemma InsertedCoalesced(base: nat, fl: seq<Block>, j: nat, b: Block)
    requires Coalesced(base, fl) && Between(base, fl, j, b.a) && b.n > 0 && ApartFrom(fl, b)
    ensures Coalesced(base, Inserted(fl, j, b))
  {
    hide Placed, Joined, Ordered, Coalesced, Adjacent;
    PlacedOrdered(base, fl, j, b);
    var f := Placed(fl, j, b);
    if Adjacent(f, j) {
      JoinedOrdered(base, f, j, {j - 1, j});
      assert {j - 1, j} - {j} == {j - 1};
    } else {
      FewerGaps(base, f, {j - 1, j}, j);
      assert {j - 1, j} - {j} == {j - 1};
    }
    var g := JoinedUp(fl, j, b);
    if Adjacent(g, j - 1) {
      assert j > 0 by { AdjacentFrom(g, j - 1); }
      JoinedOrdered(base, g, j - 1, {j - 1});
      assert {j - 1} - {j - 1} == {};
    } else {
      FewerGaps(base, g, {j - 1}, j - 1);
      assert {j - 1} - {j - 1} == {};
    }
    OrderedCoalesced(base, Inserted(fl, j, b));
  }

  lemma AdjacentFrom(fl: seq<Block>, i: int)
    requires Adjacent(fl, i)
    ensures 0 <= i && i + 1 < |fl|
  {
  }

  lemma FewerGaps(base: nat, fl: seq<Block>, gaps: set<int>, g: int)
    requires Ordered(base, fl, gaps) && !Adjacent(fl, g)
    ensures Ordered(base, fl, gaps - {g})
  {
  }

  /** Unit u is in one of the blocks. */
  ghost predicate In(fl: seq<Block>, u: nat) {
    exists i :: 0 <= i < |fl| && fl[i].a <= u < End(fl[i])
  }

  lemma PlacedUnits(fl: seq<Block>, j: nat, b: Block, u: nat)
    requires j <= |fl|
    ensures In(Placed(fl, j, b), u) <==> In(fl, u) || b.a <= u < End(b)
  {
    hide Placed;
    var f := Placed(fl, j, b);
    PlacedAt(fl, j, b, j);
    if In(fl, u) {
      var i :| 0 <= i < |fl| && fl[i].a <= u < End(fl[i]);
      PlacedAt(fl, j, b, if i < j then i else i + 1);
      assert f[if i < j then i else i + 1] == fl[i];
    }
    if In(f, u) {
      var i :| 0 <= i < |f| && f[i].a <= u < End(f[i]);
      PlacedAt(fl, j, b, i);
    }
  }

  lemma JoinedUnits(fl: seq<Block>, m: nat, u: nat)
    requires Adjacent(fl, m)
    ensures In(Joined(fl, m), u) <==> In(fl, u)
  {
    hide Joined;
    var f := Joined(fl, m);
    JoinedAt(fl, m, m);
    if In(fl, u) {
      var i :| 0 <= i < |fl| && fl[i].a <= u < End(fl[i]);
      if i != m {
        JoinedAt(fl, m, if i < m then i else i - 1);
        assert f[if i < m then i else i - 1].a <= u < End(f[if i < m then i else i - 1]);
      } else {
        assert f[m].a <= u < End(f[m]);
      }
    }
    if In(f, u) {
      var i :| 0 <= i < |f| && f[i].a <= u < End(f[i]);
      JoinedAt(fl, m, i);
      assert i == m ==> fl[m].a <= u < End(fl[m]) || fl[m + 1].a <= u < End(fl[m + 1]);
    }
  }

  /** Joining adds and loses no unit. */
  lemma InsertedUnits(fl: seq<Block>, j: nat, b: Block, u: nat)
    requires j <= |fl|
    ensures In(Inserted(fl, j, b), u) <==> In(fl, u) || b.a <= u < End(b)
  {
    hide Placed, Joined, In;
    PlacedUnits(fl, j, b, u);
    var f := Placed(fl, j, b);
    if Adjacent(f, j) {
      JoinedUnits(f, j, u);
    }
    var g := JoinedUp(fl, j, b);
    if Adjacent(g, j - 1) {
      JoinedUnits(g, j - 1, u);
    }
  }

  // ----- the heap -----

  /** free(): the block at bp goes back to the free list. */
  function Freed(h: Heap, j: nat, bp: nat): (g: Heap)
    requires bp in h.live && j <= |h.fl|
  {
    Heap(Inserted(h.fl, j, Block(bp, h.live[bp])), h.live - {bp}, h.arena)
  }

  lemma LiveApart(base: nat, h: Heap, bp: nat)
    requires Inv(base, h) && bp in h.live
    ensures ApartFrom(h.fl, Block(bp, h.live[bp])) && h.live[bp] > 0 && bp > base
  {
  }

  lemma LiveUnits(h: Heap, g: Heap, bp: nat, u: nat)
    requires bp in h.live && g.live == h.live - {bp}
    ensures InLive(h, u) <==> InLive(g, u) || bp <= u < bp + h.live[bp]
  {
    if InLive(g, u) {
      var x :| x in g.live && x <= u < x + g.live[x];
      assert x in h.live && h.live[x] == g.live[x];
    }
    if InLive(h, u) {
      var x :| x in h.live && x <= u < x + h.live[x];
      assert x != bp ==> x in g.live && h.live[x] == g.live[x];
    }
  }

  lemma FreedInv(base: nat, h: Heap, j: nat, bp: nat)
    requires Inv(base, h) && bp in h.live && Between(base, h.fl, j, bp)
    ensures Inv(base, Freed(h, j, bp))
  {
    hide Inserted, In, Coalesced;
    var b, g := Block(bp, h.live[bp]), Freed(h, j, bp);
    LiveApart(base, h, bp);
    InsertedCoalesced(base, h.fl, j, b);
    forall u: nat ensures u in g.arena <==> InFree(g, u) || InLive(g, u) {
      InsertedUnits(h.fl, j, b, u);
      LiveUnits(h, g, bp, u);
    }
    forall i, x | 0 <= i < |g.fl| && x in g.live ensures Apart(g.fl[i].a, g.fl[i].n, x, g.live[x]) {
      ApartByUnits(base, h, g, j, bp, i, x);
    }
  }

  /** Two blocks that share no unit are apart. */
  lemma ApartByUnits(base: nat, h: Heap, g: Heap, j: nat, bp: nat, i: nat, x: nat)
    requires Inv(base, h) && bp in h.live && Between(base, h.fl, j, bp) && g == Freed(h, j, bp)
    requires Coalesced(base, g.fl) && i < |g.fl| && x in g.live
    ensures Apart(g.fl[i].a, g.fl[i].n, x, g.live[x])
  {
    hide Inserted;
    var c := g.fl[i];
    if !Apart(c.a, c.n, x, g.live[x]) {
      var u := if c.a < x then x else c.a;
      assert In(g.fl, u);
      InsertedUnits(h.fl, j, Block(bp, h.live[bp]), u);
      assert x <= u < x + h.live[x];
      NotBoth(base, h, u);
    }
  }

  function Without(fl: seq<Block>, i: nat): (r: seq<Block>)
    requires i < |fl|
  {
    fl[..i] + fl[i + 1..]
  }

  /** n units off the end of block i, or all of it. */
  function Shortened(fl: seq<Block>, i: nat, n: nat): (r: seq<Block>)
    requires i < |fl| && n <= fl[i].n
  {
    if fl[i].n == n then Without(fl, i) else fl[i := Block(fl[i].a, fl[i].n - n)]
  }

  /** The header of what is taken off. */
  function TakenAt(b: Block, n: nat): (p: nat)
    requires n <= b.n
  {
    b.a + (b.n - n)
  }

  /** malloc(): n units of free block i are in use. */
  function Taken(h: Heap, i: nat, n: nat): (g: Heap)
    requires i < |h.fl| && n <= h.fl[i].n
  {
    Heap(Shortened(h.fl, i, n), h.live[TakenAt(h.fl[i], n) := n], h.arena)
  }

  lemma WithoutUnits(fl: seq<Block>, i: nat, u: nat)
    requires i < |fl|
    ensures In(fl, u) <==> In(Without(fl, i), u) || fl[i].a <= u < End(fl[i])
  {
    var g := Without(fl, i);
    if In(g, u) {
      var k :| 0 <= k < |g| && g[k].a <= u < End(g[k]);
      assert g[k] == fl[if k >= i then k + 1 else k];
    }
    if In(fl, u) {
      var k :| 0 <= k < |fl| && fl[k].a <= u < End(fl[k]);
      assert k != i ==> fl[k] == g[if k > i then k - 1 else k];
    }
  }

  lemma ShortenedUnits(fl: seq<Block>, i: nat, n: nat, u: nat)
    requires i < |fl| && 0 < n <= fl[i].n
    ensures In(fl, u) <==> In(Shortened(fl, i, n), u) || TakenAt(fl[i], n) <= u < TakenAt(fl[i], n) + n
  {
    if fl[i].n == n {
      hide In, Without;
      WithoutUnits(fl, i, u);
    } else {
      var g := Shortened(fl, i, n);
      if In(g, u) {
        var k :| 0 <= k < |g| && g[k].a <= u < End(g[k]);
        assert fl[k].a <= u < End(fl[k]);
      }
      if In(fl, u) {
        var k :| 0 <= k < |fl| && fl[k].a <= u < End(fl[k]);
        assert k != i ==> g[k] == fl[k];
        assert g[i] == Block(fl[i].a, fl[i].n - n);
      }
    }
  }

  lemma ShortenedCoalesced(base: nat, fl: seq<Block>, i: nat, n: nat)
    requires Coalesced(base, fl) && i < |fl| && 0 < n <= fl[i].n
    ensures Coalesced(base, Shortened(fl, i, n))
    ensures forall k :: 0 <= k < |Shortened(fl, i, n)| ==>
              Apart(Shortened(fl, i, n)[k].a, Shortened(fl, i, n)[k].n, TakenAt(fl[i], n), n)
    ensures forall k :: 0 <= k < |Shortened(fl, i, n)| ==>
              exists m :: 0 <= m < |fl| && fl[m].a == Shortened(fl, i, n)[k].a && Shortened(fl, i, n)[k].n <= fl[m].n
  {
    var g := Shortened(fl, i, n);
    forall k | 0 <= k < |g|
      ensures Apart(g[k].a, g[k].n, TakenAt(fl[i], n), n)
      ensures exists m :: 0 <= m < |fl| && fl[m].a == g[k].a && g[k].n <= fl[m].n
    {
      var m := if fl[i].n == n && k >= i then k + 1 else k;
      assert fl[m].a == g[k].a && g[k].n <= fl[m].n;
      assert m != i ==> g[k] == fl[m];
    }
  }

  lemma TakenLive(h: Heap, g: Heap, p: nat, n: nat, u: nat)
    requires p !in h.live && g.live == h.live[p := n]
    ensures InLive(g, u) <==> InLive(h, u) || p <= u < p + n
  {
    LiveUnits(g, h.(live := g.live - {p}), p, u);
    assert g.live - {p} == h.live;
  }

  lemma TakenNotLive(base: nat, h: Heap, i: nat, n: nat)
    requires Inv(base, h) && i < |h.fl| && 0 < n <= h.fl[i].n
    ensures TakenAt(h.fl[i], n) !in h.live && base < TakenAt(h.fl[i], n)
  {
    hide Covered;
    AboveBase(base, h.fl, i);
    var p := TakenAt(h.fl[i], n);
    forall x | x in h.live ensures x != p {
      assert Apart(h.fl[i].a, h.fl[i].n, x, h.live[x]);
    }
  }

  lemma TakenDisjoint(base: nat, h: Heap, i: nat, n: nat)
    requires Inv(base, h) && i < |h.fl| && 0 < n <= h.fl[i].n
    ensures Disjoint(base, Taken(h, i, n))
  {
    hide Covered, Coalesced, Shortened;
    var g, p := Taken(h, i, n), TakenAt(h.fl[i], n);
    ShortenedCoalesced(base, h.fl, i, n);
    TakenNotLive(base, h, i, n);
    forall k, x | 0 <= k < |g.fl| && x in g.live ensures Apart(g.fl[k].a, g.fl[k].n, x, g.live[x]) {
      if x != p {
        var m :| 0 <= m < |h.fl| && h.fl[m].a == g.fl[k].a && g.fl[k].n <= h.fl[m].n;
        assert Apart(h.fl[m].a, h.fl[m].n, x, h.live[x]);
      }
    }
    forall x | x in h.live ensures Apart(x, h.live[x], p, n) {
      assert Apart(h.fl[i].a, h.fl[i].n, x, h.live[x]);
    }
  }

  lemma TakenCovered(base: nat, h: Heap, i: nat, n: nat)
    requires Inv(base, h) && i < |h.fl| && 0 < n <= h.fl[i].n
    ensures Covered(Taken(h, i, n))
  {
    hide In, InLive, Shortened, Coalesced, Disjoint;
    var g, p := Taken(h, i, n), TakenAt(h.fl[i], n);
    TakenNotLive(base, h, i, n);
    forall u: nat ensures u in g.arena <==> InFree(g, u) || InLive(g, u) {
      ShortenedUnits(h.fl, i, n, u);
      TakenLive(h, g, p, n, u);
    }
  }

  lemma TakenInv(base: nat, h: Heap, i: nat, n: nat)
    requires Inv(base, h) && i < |h.fl| && 0 < n <= h.fl[i].n
    ensures Inv(base, Taken(h, i, n)) && TakenAt(h.fl[i], n) !in h.live
  {
    hide Disjoint, Covered, Coalesced, Shortened;
    ShortenedCoalesced(base, h.fl, i, n);
    TakenNotLive(base, h, i, n);
    TakenDisjoint(base, h, i, n);
    TakenCovered(base, h, i, n);
  }

  lemma AboveBase(base: nat, fl: seq<Block>, i: nat)
    requires Coalesced(base, fl) && i < |fl|
    ensures base < fl[i].a
  {
  }

  ghost function Units(p: nat, n: nat): (us: set<nat>)
    ensures forall u: nat :: u in us <==> p <= u < p + n
  {
    if n == 0 then {} else Units(p, n - 1) + {p + n - 1}
  }

  /** sbrk(): a new region, as one block in use. */
  ghost function Extended(h: Heap, p: nat, n: nat): (g: Heap) {
    Heap(h.fl, h.live[p := n], h.arena + Units(p, n))
  }

  lemma ExtendedInv(base: nat, h: Heap, p: nat, n: nat)
    requires Inv(base, h) && p > base && n > 0 && forall u :: u in h.arena ==> u < p
    ensures Inv(base, Extended(h, p, n)) && p !in h.live
  {
    var g := Extended(h, p, n);
    forall x | x in h.live ensures x + h.live[x] <= p {
      assert InLive(h, x + h.live[x] - 1);
    }
    forall i | 0 <= i < |h.fl| ensures End(h.fl[i]) <= p {
      assert InFree(h, End(h.fl[i]) - 1);
    }
    forall u: nat ensures u in g.arena <==> InFree(g, u) || InLive(g, u) {
      assert InFree(g, u) <==> InFree(h, u);
      if InLive(h, u) {
        var x :| x in h.live && x <= u < x + h.live[x];
        assert x in g.live && g.live[x] == h.live[x];
      }
      assert p in g.live && g.live[p] == n;
    }
  }

  // ----- the links in memory -----

  lemma NodesDiffer(base: nat, fl: seq<Block>, j: nat, k: nat)
    requires Coalesced(base, fl) && j < k <= |fl|
    ensures Node(base, fl, j) < Node(base, fl, k)
  {
  }

  lemma LinkedPlaced(base: nat, mem: map<nat, Header>, fl: seq<Block>, j: nat, b: Block)
    requires Linked(base, mem, fl) && Coalesced(base, fl) && Between(base, fl, j, b.a)
    ensures var p := Node(base, fl, j);
            Linked(base, mem[b.a := Header(Next(base, fl, j), b.n)][p := Header(b.a, SizeAt(fl, j))], Placed(fl, j, b))
  {
    var p, f := Node(base, fl, j), Placed(fl, j, b);
    var m := mem[b.a := Header(Next(base, fl, j), b.n)][p := Header(b.a, SizeAt(fl, j))];
    PlacedIs(fl, j, b);
    hide Placed;
    forall k | 0 <= k <= |f|
      ensures Node(base, f, k) in m && m[Node(base, f, k)] == Header(Next(base, f, k), SizeAt(f, k))
    {
      PlacedNode(base, mem, fl, j, b, f, m, k);
    }
  }

  lemma PlacedNode(base: nat, mem: map<nat, Header>, fl: seq<Block>, j: nat, b: Block, f: seq<Block>, m: map<nat,
                   Header>, k: nat)
    requires Linked(base, mem, fl) && Coalesced(base, fl) && Between(base, fl, j, b.a) && IsPlaced(fl, j, b, f)
             && k <= |f|
    requires m == mem[b.a := Header(Next(base, fl, j), b.n)][Node(base, fl, j) := Header(b.a, SizeAt(fl, j))]
    ensures Node(base, f, k) in m && m[Node(base, f, k)] == Header(Next(base, f, k), SizeAt(f, k))
  {
    if k < j {
      NodesDiffer(base, fl, k, j);
    } else if k > j + 1 {
      NodesDiffer(base, fl, j, k - 1);
      assert Node(base, f, k) == Node(base, fl, k - 1);
    }
  }

  lemma LinkedJoined(base: nat, mem: map<nat, Header>, fl: seq<Block>, i: nat)
    requires Linked(base, mem, fl) && Adjacent(fl, i)
             && (forall k, l :: 0 <= k < l <= |fl| ==> Node(base, fl, k) != Node(base, fl, l))
    ensures Linked(base, mem[fl[i].a := Header(Next(base, fl, i + 2), fl[i].n + fl[i + 1].n)], Joined(fl, i))
  {
    var f := Joined(fl, i);
    var m := mem[fl[i].a := Header(Next(base, fl, i + 2), fl[i].n + fl[i + 1].n)];
    forall k | 0 <= k <= |f|
      ensures Node(base, f, k) in m && m[Node(base, f, k)] == Header(Next(base, f, k), SizeAt(f, k))
    {
      assert fl[i].a == Node(base, fl, i + 1);
      if k > 0 {
        JoinedAt(fl, i, k - 1);
      }
      if k < |f| {
        JoinedAt(fl, i, k);
      }
      var l := if k <= i + 1 then k else k + 1;
      assert k != i + 1 ==> Node(base, f, k) == Node(base, fl, l);
    }
  }

  lemma OrderedNodes(base: nat, fl: seq<Block>, gaps: set<int>)
    requires Ordered(base, fl, gaps)
    ensures forall k, l :: 0 <= k < l <= |fl| ==> Node(base, fl, k) != Node(base, fl, l)
  {
  }

  /** The headers as free() leaves them. */
  function FreedHeader(mem: map<nat, Header>, next: nat, bp: nat, n: nat): (h: Header)
    requires next in mem
  {
    if bp + n == next then Header(mem[next].ptr, n + mem[next].size) else Header(next, n)
  }

  function JoinedHeader(mem: map<nat, Header>, p: nat, bp: nat, hb: Header): (h: Header)
    requires p in mem
  {
    if p + mem[p].size == bp then Header(hb.ptr, mem[p].size + hb.size) else Header(bp, mem[p].size)
  }

  lemma BetweenAbove(base: nat, fl: seq<Block>, j: nat, bp: nat)
    requires Coalesced(base, fl) && Between(base, fl, j, bp)
    ensures base < bp
  {
  }

  lemma JoinedUpAt(base: nat, mem: map<nat, Header>, fl: seq<Block>, j: nat, b: Block)
    requires Linked(base, mem, fl) && Between(base, fl, j, b.a) && base < b.a
    ensures Next(base, fl, j) in mem && Node(base, fl, j) in mem
    ensures var hb, g := FreedHeader(mem, Next(base, fl, j), b.a, b.n), JoinedUp(fl, j, b);
            |g| > j && g[j] == Block(b.a, hb.size) && Next(base, g, j + 1) == hb.ptr
            && (j > 0 ==> g[j - 1] == fl[j - 1])
    ensures Adjacent(Placed(fl, j, b), j) <==> b.a + b.n == Next(base, fl, j)
    ensures Adjacent(Placed(fl, j, b), j) ==> j < |fl| && Placed(fl, j, b)[j] == b && Placed(fl, j, b)[j + 1] == fl[j]
                                              && Next(base, Placed(fl, j, b), j + 2) == Next(base, fl, j + 1)
  {
    var f := Placed(fl, j, b);
    PlacedIs(fl, j, b);
    hide Placed, Linked;
    LinkedHere(base, mem, fl, j);
    if j < |fl| {
      LinkedHere(base, mem, fl, j + 1);
    }
    if Adjacent(f, j) {
      JoinedAt(f, j, j);
      if j > 0 {
        JoinedAt(f, j, j - 1);
      }
      if j + 2 < |f| {
        JoinedAt(f, j, j + 1);
      }
    }
  }

  lemma LinkedJoinedUp(base: nat, mem: map<nat, Header>, fl: seq<Block>, j: nat, b: Block)
    requires Linked(base, mem, fl) && Coalesced(base, fl) && Between(base, fl, j, b.a) && b.n > 0 && ApartFrom(fl, b)
    ensures Next(base, fl, j) in mem && Node(base, fl, j) in mem
    ensures var hb := FreedHeader(mem, Next(base, fl, j), b.a, b.n);
            Linked(base, mem[b.a := hb][Node(base, fl, j) := Header(b.a, SizeAt(fl, j))], JoinedUp(fl, j, b))
  {
    hide Placed, Ordered, Linked, Coalesced, Joined, ApartFrom, Adjacent;
    var p, f := Node(base, fl, j), Placed(fl, j, b);
    var m := mem[b.a := Header(Next(base, fl, j), b.n)][p := Header(b.a, SizeAt(fl, j))];
    BetweenAbove(base, fl, j, b.a);
    JoinedUpAt(base, mem, fl, j, b);
    LinkedPlaced(base, mem, fl, j, b);
    PlacedOrdered(base, fl, j, b);
    OrderedNodes(base, f, {j - 1, j});
    if Adjacent(f, j) {
      AdjacentFrom(f, j);
      LinkedJoined(base, m, f, j);
      LinkedHere(base, mem, fl, j + 1);
      var hb := FreedHeader(mem, Next(base, fl, j), b.a, b.n);
      assert m[b.a := hb] == mem[b.a := hb][p := Header(b.a, SizeAt(fl, j))];
    }
  }

  lemma LinkedHere(base: nat, mem: map<nat, Header>, fl: seq<Block>, k: nat)
    requires Linked(base, mem, fl) && k <= |fl|
    ensures Node(base, fl, k) in mem && mem[Node(base, fl, k)] == Header(Next(base, fl, k), SizeAt(fl, k))
    ensures Next(base, fl, k) in mem && Next(base, fl, k) == Node(base, fl, if k < |fl| then k + 1 else 0)
  {
    assert Node(base, fl, if k < |fl| then k + 1 else 0) in mem;
  }

  /** The list in memory after free() is the list with the block inserted. */
  lemma LinkedInserted(base: nat, mem: map<nat, Header>, fl: seq<Block>, j: nat, b: Block)
    requires Linked(base, mem, fl) && Coalesced(base, fl) && Between(base, fl, j, b.a) && b.n > 0 && ApartFrom(fl, b)
    ensures Next(base, fl, j) in mem && Node(base, fl, j) in mem
    ensures var p, hb := Node(base, fl, j), FreedHeader(mem, Next(base, fl, j), b.a, b.n);
            Linked(base, mem[b.a := hb][p := JoinedHeader(mem, p, b.a, hb)], Inserted(fl, j, b))
  {
    hide Linked, Inserted, JoinedUp, Coalesced, Ordered;
    LinkedJoinedUp(base, mem, fl, j, b);
    BetweenAbove(base, fl, j, b.a);
    JoinedUpAt(base, mem, fl, j, b);
    LinkedHere(base, mem, fl, j);
    var p, hb, g := Node(base, fl, j), FreedHeader(mem, Next(base, fl, j), b.a, b.n), JoinedUp(fl, j, b);
    var m := mem[b.a := hb][p := Header(b.a, SizeAt(fl, j))];
    UpOrdered(base, fl, j, b);
    InsertedIs(fl, j, b);
    if Adjacent(g, j - 1) {
      LinkedJoined(base, m, g, j - 1);
      assert m[p := JoinedHeader(mem, p, b.a, hb)] == mem[b.a := hb][p := JoinedHeader(mem, p, b.a, hb)];
    }
  }

  lemma InsertedIs(fl: seq<Block>, j: nat, b: Block)
    requires j <= |fl|
    ensures Inserted(fl, j, b) ==
                if Adjacent(JoinedUp(fl, j, b), j - 1) then Joined(JoinedUp(fl, j, b), j - 1) else JoinedUp(fl, j, b)
  {
  }

  lemma UpOrdered(base: nat, fl: seq<Block>, j: nat, b: Block)
    requires Coalesced(base, fl) && Between(base, fl, j, b.a) && b.n > 0 && ApartFrom(fl, b)
    ensures forall k, l :: 0 <= k < l <= |JoinedUp(fl, j, b)| ==>
              Node(base, JoinedUp(fl, j, b), k) != Node(base, JoinedUp(fl, j, b), l)
  {
    hide Ordered, Placed, Coalesced, Joined;
    PlacedOrdered(base, fl, j, b);
    var f := Placed(fl, j, b);
    if Adjacent(f, j) {
      JoinedOrdered(base, f, j, {j - 1, j});
      OrderedNodes(base, Joined(f, j), {j - 1, j} - {j});
    } else {
      OrderedNodes(base, f, {j - 1, j});
    }
  }

  /** Where block bp belongs: the number of free blocks below it. */
  ghost function Place(fl: seq<Block>, bp: nat): (j: nat)
    ensures j <= |fl|
  {
    if fl == [] || fl[|fl| - 1].a < bp then |fl| else Place(fl[..|fl| - 1], bp)
  }

  lemma {:induction false} PlaceBetween(base: nat, fl: seq<Block>, bp: nat)
    requires Coalesced(base, fl) && base < bp && forall i :: 0 <= i < |fl| ==> fl[i].a != bp
    ensures Between(base, fl, Place(fl, bp), bp)
  {
    if fl != [] && fl[|fl| - 1].a >= bp {
      PlaceBetween(base, fl[..|fl| - 1], bp);
    }
  }

  /** free() stops exactly there. */
  lemma StopsAt(base: nat, fl: seq<Block>, j: nat, bp: nat, k: nat)
    requires Coalesced(base, fl) && Between(base, fl, j, bp) && k <= |fl|
    ensures var p, next := Node(base, fl, k), Next(base, fl, k);
            k == j <==> (bp > p && bp < next) || (p >= next && (bp > p || bp < next))
  {
    if j < k {
      NodesDiffer(base, fl, j, k);
      assert bp <= Node(base, fl, k);
    } else if k < j {
      assert Next(base, fl, k) == Node(base, fl, k + 1);
      assert Next(base, fl, k) < bp by {
        if k + 1 < j {
          NodesDiffer(base, fl, k + 1, j);
        }
      }
    }
  }

  /** Node number f + d, counting around the circle. */
  function Around(m: nat, f: nat, d: nat): (k: nat)
    requires f < m && d <= m
    ensures k < m
  {
    if f + d < m then f + d else f + d - m
  }

  predicate TooSmall(fl: seq<Block>, f: nat, d: nat, n: nat)
    requires f <= |fl|
  {
    d <= |fl| + 1 && SizeAt(fl, Around(|fl| + 1, f, d)) < n
  }

  /** Going around from node f, block k comes before every other with n units. */
  ghost predicate FirstFit(fl: seq<Block>, f: nat, k: nat, n: nat)
    requires f <= |fl|
  {
    forall d :: 1 <= d < (if k + 1 > f then k + 1 - f else k + 1 - f + |fl| + 1) ==> TooSmall(fl, f, d, n)
  }

  /** Circling once from node f reaches every node. */
  lemma AroundAll(fl: seq<Block>, f: nat, n: nat)
    requires f <= |fl| && forall d :: 1 <= d <= |fl| + 1 ==> TooSmall(fl, f, d, n)
    ensures forall i :: 0 <= i < |fl| ==> fl[i].n < n
  {
    forall i | 0 <= i < |fl| ensures fl[i].n < n {
      var d := if i + 1 > f then i + 1 - f else i + 1 - f + |fl| + 1;
      assert TooSmall(fl, f, d, n) && Around(|fl| + 1, f, d) == i + 1;
    }
  }

  /** What sbrk() answers if it is called: failure, or the address of the new memory. */
  datatype Sbrk = Denied | Granted(p: nat)

  class Allocator {
    const base: nat
    var mem: map<nat, Header>
    var freep: nat
    ghost var h: Heap
    ghost var f: nat

    constructor (b: nat)
      requires 0 < b
      ensures Valid() && base == b && freep == 0 && h == Heap([], map[], {})
    {
      base, mem, freep := b, map[], 0;
      h, f := Heap([], map[], {}), 0;
    }

    ghost predicate Valid()
      reads this
    {
      && Inv(base, h) && (forall x :: x in h.live ==> x in mem && mem[x].size == h.live[x])
      && if freep == 0 then h == Heap([], map[], {})
         else Linked(base, mem, h.fl) && f <= |h.fl| && freep == Node(base, h.fl, f)
    }

    /** The search of free(): the node after which bp belongs. */
    method FindPlace(bp: nat) returns (p: nat, ghost j: nat)
      requires Valid() && freep != 0 && base < bp && forall i :: 0 <= i < |h.fl| ==> h.fl[i].a != bp
      ensures Between(base, h.fl, j, bp) && p == Node(base, h.fl, j)
    {
      hide Inv, Coalesced, Between, Linked, Disjoint, Covered;
      assert Coalesced(base, h.fl) by { InvParts(base, h); }
      PlaceBetween(base, h.fl, bp);
      j := Place(h.fl, bp);
      p := freep;
      ghost var k: nat := f;
      LinkedHere(base, mem, h.fl, k);
      StopsAt(base, h.fl, j, bp, k);
      while !(bp > p && bp < mem[p].ptr)
        invariant k <= |h.fl| && p == Node(base, h.fl, k) && p in mem
                  && mem[p] == Header(Next(base, h.fl, k), SizeAt(h.fl, k))
        invariant k == j <==> (bp > p && bp < mem[p].ptr) || (p >= mem[p].ptr && (bp > p || bp < mem[p].ptr))
        decreases if k <= j then j - k else j - k + |h.fl| + 1
      {
        if p >= mem[p].ptr && (bp > p || bp < mem[p].ptr) {
          break;
        }
        LinkedHere(base, mem, h.fl, k);
        p := mem[p].ptr;
        k := if k < |h.fl| then k + 1 else 0;
        LinkedHere(base, mem, h.fl, k);
        StopsAt(base, h.fl, j, bp, k);
      }
    }

    /** free(): exactly the units of that block become free, and the list stays coalesced. */
    method Free(ap: nat) returns (ghost j: nat)
      requires Valid() && freep != 0 && ap > 0 && ap - 1 in h.live
      modifies this
      ensures Valid() && freep != 0 && Between(base, old(h.fl), j, ap - 1) && h == Freed(old(h), j, ap - 1)
    {
      hide Coalesced, Between, Linked, Covered, Inserted, In, InLive;
      var bp := ap - 1;
      LiveApart(base, h, bp);
      LiveNotFree(base, h, bp);
      var p;
      p, j := FindPlace(bp);
      assert j <= |h.fl| by { BetweenFits(base, h.fl, j, bp); }
      ghost var b, g := Block(bp, h.live[bp]), h;
      LinkedInserted(base, mem, h.fl, j, b);
      FreedInv(base, h, j, bp);
      LinkedHere(base, mem, h.fl, j);
      FreedNodes(base, h, j, bp);
      NodePositive(base, h, j);
      var next := mem[p].ptr;
      var hb := FreedHeader(mem, next, bp, mem[bp].size);
      var hp := JoinedHeader(mem, p, bp, hb);
      mem := mem[bp := hb][p := hp];
      freep := p;
      h := Freed(g, j, bp);
      f := j;
    }

    /**
     One round of malloc()'s search: the first node with room, starting after freep, and the node
     before it; or none, if no block has room.
     */
    method Find(nunits: nat) returns (found: bool, prevp: nat, p: nat, ghost k: nat)
      requires Valid() && freep != 0 && nunits > 0
      ensures found ==> k < |h.fl| && prevp == Node(base, h.fl, k) && p == h.fl[k].a && h.fl[k].n >= nunits
      ensures found ==> FirstFit(h.fl, f, k, nunits)
      ensures !found ==> forall i :: 0 <= i < |h.fl| ==> h.fl[i].n < nunits
    {
      hide Inv, Linked;
      ghost var m, c: nat := |h.fl| + 1, 0;
      k := f;
      LinkedHere(base, mem, h.fl, k);
      prevp, p := freep, mem[freep].ptr;
      while true
        invariant c < m && m == |h.fl| + 1 && k == Around(m, f, c) && prevp == Node(base, h.fl, k)
        invariant p == Node(base, h.fl, if k < |h.fl| then k + 1 else 0)
        invariant forall d :: 1 <= d <= c ==> TooSmall(h.fl, f, d, nunits)
        decreases m - c
      {
        ghost var next := if k < |h.fl| then k + 1 else 0;
        LinkedHere(base, mem, h.fl, next);
        if mem[p].size >= nunits {
          return true, prevp, p, k;
        }
        assert next == Around(m, f, c + 1) && TooSmall(h.fl, f, c + 1, nunits);
        if p == freep {
          assert c + 1 == m by { assert next == f by { SameNode(base, h, next, f); } }
          AroundAll(h.fl, f, nunits);
          return false, prevp, p, k;
        }
        prevp, p := p, mem[p].ptr;
        k, c := next, c + 1;
        LinkedHere(base, mem, h.fl, k);
        assert c < m;
      }
    }

    /** malloc() takes the block after prevp whole. */
    method TakeWhole(prevp: nat, at: nat, ghost k: nat) returns (p: nat)
      requires Valid() && freep != 0 && k < |h.fl| && prevp == Node(base, h.fl, k) && at == h.fl[k].a && h.fl[k].n > 0
      modifies this
      ensures Valid() && freep != 0 && p == TakenAt(old(h.fl)[k], old(h.fl)[k].n)
              && h == Taken(old(h), k, old(h.fl)[k].n)
    {
      hide Inv, Linked, Without, Shortened, Coalesced, Disjoint, Covered;
      ghost var g, nunits := h, h.fl[k].n;
      p := at;
      LinkedHere(base, mem, h.fl, k);
      LinkedHere(base, mem, h.fl, k + 1);
      TakenInv(base, h, k, nunits);
      NodePositive(base, h, k);
      NodesNotLive(base, h, k);
      InvParts(base, h);
      ShortNode(base, h.fl, k, nunits);
      LinkedWithout(base, mem, h.fl, k);
      AllOfIt(h.fl, k, nunits);
      mem := mem[prevp := Header(mem[p].ptr, mem[prevp].size)];
      freep, f := prevp, k;
      h := Taken(g, k, nunits);
    }

    /** malloc() takes the end of the block after prevp. */
    method TakeEnd(prevp: nat, at: nat, nunits: nat, ghost k: nat) returns (p: nat)
      requires Valid() && freep != 0 && k < |h.fl| && prevp == Node(base, h.fl, k) && at == h.fl[k].a
               && h.fl[k].n > nunits > 0
      modifies this
      ensures Valid() && freep != 0 && p == TakenAt(old(h.fl)[k], nunits) && h == Taken(old(h), k, nunits)
    {
      hide Inv, Linked, Without, Shortened, Coalesced, Disjoint, Covered;
      ghost var g := h;
      p := at;
      LinkedHere(base, mem, h.fl, k);
      LinkedHere(base, mem, h.fl, k + 1);
      TakenInv(base, h, k, nunits);
      NodePositive(base, h, k);
      NodesNotLive(base, h, k);
      InvParts(base, h);
      ShortNode(base, h.fl, k, nunits);
      NotANode(base, h, k, nunits);
      var rest := mem[p].size - nunits;
      var hdr := Header(if p + rest in mem then mem[p + rest].ptr else 0, nunits);
      LinkedShort(base, mem, h.fl, k, nunits, hdr);
      mem := mem[p := Header(mem[p].ptr, rest)];
      p := p + rest;
      mem := mem[p := hdr];
      freep, f := prevp, k;
      h := Taken(g, k, nunits);
    }

    /** malloc() takes the block after prevp, or the end of it. */
    method Take(prevp: nat, at: nat, nunits: nat, ghost k: nat) returns (p: nat)
      requires Valid() && freep != 0 && k < |h.fl| && prevp == Node(base, h.fl, k) && at == h.fl[k].a
               && h.fl[k].n >= nunits > 0
      modifies this
      ensures Valid() && freep != 0 && p == TakenAt(old(h.fl)[k], nunits) && h == Taken(old(h), k, nunits)
    {
      hide Inv, Linked, Taken;
      LinkedHere(base, mem, h.fl, k + 1);
      if mem[at].size == nunits {
        p := TakeWhole(prevp, at, k);
      } else {
        p := TakeEnd(prevp, at, nunits, k);
      }
    }

    /** morecore(): at least 4096 units more, on the free list. */
    method Morecore(nunits: nat, sbrk: Sbrk) returns (ok: bool)
      requires Valid() && freep != 0 && nunits > 0
      requires sbrk.Granted? ==> base < sbrk.p && forall u :: u in h.arena ==> u < sbrk.p
      modifies this
      ensures Valid() && freep != 0 && ok == sbrk.Granted?
      ensures !ok ==> h == old(h)
      ensures ok ==> h.live == old(h.live) && h.arena == old(h.arena) + Units(sbrk.p, AtLeast(nunits))
                     && exists i :: 0 <= i < |h.fl| && h.fl[i].n >= nunits
    {
      hide Inv, Linked, Inserted, Units, Between, In, InLive;
      if sbrk.Denied? {
        return false;
      }
      var nu := AtLeast(nunits);
      var hp := sbrk.p;
      ghost var g, m := h, mem;
      ExtendedInv(base, h, hp, nu);
      FreshHeader(base, h, hp);
      mem := mem[hp := Header(if hp in mem then mem[hp].ptr else 0, nu)];
      FreshLinked(base, m, mem, h.fl, hp);
      h := Extended(g, hp, nu);
      ghost var e := h;
      ghost var j := Free(hp + 1);
      assert j <= |e.fl| by { BetweenFits(base, e.fl, j, hp); }
      InsertedBig(e.fl, j, Block(hp, nu));
      assert h.live == g.live;
      ok := true;
    }

    /**
     malloc(): 0 if and only if no free block has room and sbrk() fails; otherwise a block with
     room for nbytes that was not in use.  The search ends: after morecore() it finds a block.
     */
    method Malloc(nbytes: nat, sbrk: Sbrk) returns (r: nat)
      requires Valid() && AtLeast(UnitsFor(nbytes)) * 16 < 0x8000_0000
      requires sbrk.Granted? ==> base < sbrk.p && forall u :: u in h.arena ==> u < sbrk.p
      modifies this
      ensures Valid() && freep != 0
      ensures r == 0 <==> sbrk.Denied? && !HasRoom(old(h.fl), UnitsFor(nbytes))
      ensures r == 0 ==> h == old(h)
      ensures r != 0 ==> r - 1 !in old(h.live) && h.live == old(h.live)[r - 1 := UnitsFor(nbytes)]
      ensures h.arena == if HasRoom(old(h.fl), UnitsFor(nbytes)) || sbrk.Denied? then old(h.arena)
                         else old(h.arena) + Units(sbrk.p, AtLeast(UnitsFor(nbytes)))
    {
      hide Inv, Linked, Shortened, Units;
      InvParts(base, h);
      var nunits := UnitsFor(nbytes);
      if freep == 0 {
        mem := mem[base := Header(base, 0)];
        freep, f := base, 0;
        assert Linked(base, mem, h.fl) by { EmptyLinked(base, mem); }
      }
      var found, prevp, p;
      ghost var k;
      found, prevp, p, k := Find(nunits);
      if !found {
        var ok := Morecore(nunits, sbrk);
        if !ok {
          return 0;
        }
        found, prevp, p, k := Find(nunits);
      }
      TakenInv(base, h, k, nunits);
      p := Take(prevp, p, nunits, k);
      return p + 1;
    }
  }

  function UnitsFor(nbytes: nat): (n: nat)
    ensures n > 0 && (n - 1) * 16 >= nbytes
  {
    (nbytes + 15) / 16 + 1
  }

  function AtLeast(nu: nat): (n: nat) {
    if nu < 4096 then 4096 else nu
  }

  ghost predicate HasRoom(fl: seq<Block>, n: nat) {
    exists i :: 0 <= i < |fl| && fl[i].n >= n
  }

  lemma EmptyLinked(base: nat, mem: map<nat, Header>)
    requires base in mem && mem[base] == Header(base, 0)
    ensures Linked(base, mem, [])
  {
  }

  lemma NodesNotLive(base: nat, h: Heap, k: nat)
    requires Inv(base, h) && k < |h.fl|
    ensures forall x :: x in h.live ==> x != Node(base, h.fl, k) && x != h.fl[k].a
  {
    hide Covered, Coalesced;
    forall x | x in h.live ensures x != Node(base, h.fl, k) && x != h.fl[k].a {
      LiveNotFree(base, h, x);
    }
  }

  lemma LinkedWithout(base: nat, mem: map<nat, Header>, fl: seq<Block>, k: nat)
    requires Linked(base, mem, fl) && Coalesced(base, fl) && k < |fl|
    ensures Linked(base, mem[Node(base, fl, k) := Header(Next(base, fl, k + 1), SizeAt(fl, k))], Without(fl, k))
  {
    var g, m := Without(fl, k), mem[Node(base, fl, k) := Header(Next(base, fl, k + 1), SizeAt(fl, k))];
    forall i | 0 <= i <= |g|
      ensures Node(base, g, i) in m && m[Node(base, g, i)] == Header(Next(base, g, i), SizeAt(g, i))
    {
      var l := if i <= k then i else i + 1;
      assert Node(base, g, i) == Node(base, fl, l);
      if l < k {
        NodesDiffer(base, fl, l, k);
      } else if k < l {
        NodesDiffer(base, fl, k, l);
      }
    }
  }

  lemma LinkedShort(base: nat, mem: map<nat, Header>, fl: seq<Block>, k: nat, n: nat, hdr: Header)
    requires Linked(base, mem, fl) && Coalesced(base, fl) && k < |fl| && 0 < n < fl[k].n
    ensures Linked(base, mem[fl[k].a := Header(Next(base, fl, k + 1), fl[k].n - n)][TakenAt(fl[k], n) := hdr],
                   Shortened(fl, k, n))
  {
    var g := Shortened(fl, k, n);
    var m := mem[fl[k].a := Header(Next(base, fl, k + 1), fl[k].n - n)][TakenAt(fl[k], n) := hdr];
    forall i | 0 <= i <= |g|
      ensures Node(base, g, i) in m && m[Node(base, g, i)] == Header(Next(base, g, i), SizeAt(g, i))
    {
      assert Node(base, g, i) == Node(base, fl, i);
      if i < k + 1 {
        NodesDiffer(base, fl, i, k + 1);
      } else if k + 1 < i {
        NodesDiffer(base, fl, k + 1, i);
      }
    }
  }

  lemma AllOfIt(fl: seq<Block>, k: nat, n: nat)
    requires k < |fl| && n == fl[k].n
    ensures Shortened(fl, k, n) == Without(fl, k)
  {
  }

  lemma ShortNode(base: nat, fl: seq<Block>, k: nat, n: nat)
    requires k < |fl| && n <= fl[k].n
    ensures k <= |Shortened(fl, k, n)| && Node(base, Shortened(fl, k, n), k) == Node(base, fl, k)
  {
  }

  /** The header that malloc() writes inside a free block is no node and no header of a block in use. */
  lemma NotANode(base: nat, h: Heap, k: nat, n: nat)
    requires Inv(base, h) && k < |h.fl| && 0 < n < h.fl[k].n
    ensures TakenAt(h.fl[k], n) != h.fl[k].a && TakenAt(h.fl[k], n) !in h.live
  {
    hide Covered;
  }

  /** New memory holds no header of the list or of a block in use. */
  lemma FreshHeader(base: nat, h: Heap, p: nat)
    requires Inv(base, h) && base < p && forall u :: u in h.arena ==> u < p
    ensures forall i :: 0 <= i < |h.fl| ==> h.fl[i].a < p
    ensures forall x :: x in h.live ==> x < p
  {
    forall i | 0 <= i < |h.fl| ensures h.fl[i].a < p {
      assert InFree(h, h.fl[i].a);
    }
    forall x | x in h.live ensures x < p {
      assert InLive(h, x);
    }
  }

  lemma FreshLinked(base: nat, mem: map<nat, Header>, m: map<nat, Header>, fl: seq<Block>, p: nat)
    requires Linked(base, mem, fl) && base < p && (forall i :: 0 <= i < |fl| ==> fl[i].a < p) && p in m
             && m == mem[p := m[p]]
    ensures Linked(base, m, fl)
  {
    forall k | 0 <= k <= |fl|
      ensures Node(base, fl, k) in m && m[Node(base, fl, k)] == Header(Next(base, fl, k), SizeAt(fl, k))
    {
      assert Node(base, fl, k) < p;
    }
  }

  /** The inserted block is in the list, perhaps as part of a larger one. */
  lemma InsertedBig(fl: seq<Block>, j: nat, b: Block)
    requires j <= |fl|
    ensures exists i :: 0 <= i < |Inserted(fl, j, b)| && Inserted(fl, j, b)[i].n >= b.n
  {
    var f := Placed(fl, j, b);
    PlacedIs(fl, j, b);
    hide Placed;
    if Adjacent(f, j) {
      JoinedAt(f, j, j);
    }
    var g := JoinedUp(fl, j, b);
    assert g[j].n >= b.n;
    if Adjacent(g, j - 1) {
      JoinedAt(g, j - 1, j - 1);
      assert Inserted(fl, j, b)[j - 1].n >= b.n;
    } else {
      assert Inserted(fl, j, b)[j].n >= b.n;
    }
  }

  /** Different nodes have different addresses. */
  lemma SameNode(base: nat, h: Heap, j: nat, k: nat)
    requires Inv(base, h) && j <= |h.fl| && k <= |h.fl| && Node(base, h.fl, j) == Node(base, h.fl, k)
    ensures j == k
  {
    hide Covered, Disjoint;
    if j < k {
      NodesDiffer(base, h.fl, j, k);
    } else if k < j {
      NodesDiffer(base, h.fl, k, j);
    }
  }

  lemma NodePositive(base: nat, h: Heap, k: nat)
    requires Inv(base, h) && k <= |h.fl|
    ensures Node(base, h.fl, k) > 0
  {
    hide Covered, Disjoint;
  }

  lemma InvParts(base: nat, h: Heap)
    requires Inv(base, h)
    ensures 0 < base && Coalesced(base, h.fl) && Disjoint(base, h)
  {
  }

  lemma LiveNotFree(base: nat, h: Heap, bp: nat)
    requires Inv(base, h) && bp in h.live
    ensures forall i :: 0 <= i < |h.fl| ==> h.fl[i].a != bp
  {
    hide Covered;
  }

  /** Node j is still node j after free(), and no block in use has its header touched. */
  lemma FreedNodes(base: nat, h: Heap, j: nat, bp: nat)
    requires Inv(base, h) && bp in h.live && Between(base, h.fl, j, bp)
    ensures j <= |Inserted(h.fl, j, Block(bp, h.live[bp]))|
    ensures Node(base, Inserted(h.fl, j, Block(bp, h.live[bp])), j) == Node(base, h.fl, j)
    ensures forall x :: x in h.live && x != bp ==> x != Node(base, h.fl, j)
  {
    hide Covered, Coalesced;
    var b := Block(bp, h.live[bp]);
    PlacedIs(h.fl, j, b);
    var p := Placed(h.fl, j, b);
    hide Placed;
    if Adjacent(p, j) {
      JoinedAt(p, j, j);
      if j > 0 {
        JoinedAt(p, j, j - 1);
      }
    }
    var g := JoinedUp(h.fl, j, b);
    if Adjacent(g, j - 1) {
      JoinedAt(g, j - 1, j - 1);
    }
    forall x | x in h.live ensures x != Node(base, h.fl, j) {
      LiveNotFree(base, h, x);
    }
  }
}
