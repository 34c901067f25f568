/**
 Every physical page is accounted for by what refers to it: the free list, an entry of a page
 table, a user mapping, or somebody who holds it (kernel/kalloc.c, kernel/vm.c).
 */
module PageCount {
  import opened Sequences
  import opened PageMap

  /** The places in page tables that have a page. */
  ghost function Tables(own: map<nat, Owner>): (t: set<Pos>) {
    set f | f in own && own[f].Node? :: own[f].pos
  }

  /** The mappings of user memory. */
  ghost function UserMaps(s: State): (u: set<(nat, nat)>) {
    set key | key in s.maps && Ppn(s.maps[key]) in s.own && s.own[Ppn(s.maps[key])] == Data(key.0, key.1)
  }

  /** Entries of root and level-1 pages that are in use, by page and slot. */
  ghost function Entries(s: State): (e: set<(nat, nat)>)
    requires Dom(s)
  {
    set f, k | f in s.own && s.own[f].Node? && !s.own[f].pos.L0? && 0 <= k < PTES && s.mem[f][k] != 0 :: (f, k)
  }

  ghost function Roots(s: State): (r: set<nat>) {
    set f | f in s.own && s.own[f].Node? && s.own[f].pos.Root?
  }

  /** Pages that somebody has allocated and not put to use, and page tables that are being freed. */
  ghost function Held(s: State): (h: set<nat>) {
    set f | f in s.own && (s.own[f].Loose? || s.own[f].Doomed?)
  }

  /**
   Every page is accounted for by what refers to it: the free list, a page table that has it at
   one place, one user mapping, or somebody who holds it.
   */
  lemma PageConservation(s: State)
    requires Inv(s)
    ensures |s.own| == |s.free| + |Tables(s.own)| + |UserMaps(s)| + |Held(s)|
  {
    hide Inv, Tables, UserMaps;
    var free := set f | f in s.own && s.own[f] == Free;
    var nodes := set f | f in s.own && s.own[f].Node?;
    var data := set f | f in s.own && s.own[f].Data?;
    FreeCount(s, free);
    TableCount(s, nodes);
    UserCount(s, data);
    Partition(s.own.Keys, free, nodes, data, Held(s));
  }

  lemma Partition(all: set<nat>, a: set<nat>, b: set<nat>, c: set<nat>, d: set<nat>)
    requires all == a + b + c + d && a !! b && a !! c && a !! d && b !! c && b !! d && c !! d
    ensures |all| == |a| + |b| + |c| + |d|
  {
    assert |a + b| == |a| + |b|;
    assert |a + b + c| == |a| + |b| + |c|;
  }

  lemma FreeCount(s: State, free: set<nat>)
    requires Inv(s) && free == set f | f in s.own && s.own[f] == Free
    ensures |s.free| == |free|
  {
    hide NodeOk, DataOk, MapOk;
    DistinctCard(s.free);
    assert Elems(s.free) == free;
  }

  lemma TableCount(s: State, nodes: set<nat>)
    requires Inv(s) && nodes == set f | f in s.own && s.own[f].Node?
    ensures |nodes| == |Tables(s.own)|
  {
    hide NodeOk, DataOk, MapOk, FreeOk;
    var places := map f | f in nodes :: s.own[f].pos;
    forall f, g | f in places && g in places && places[f] == places[g] ensures f == g {
      SameSlot(s, f, g, s.own[f].pos);
    }
    ImageCard(places);
    forall p ensures p in places.Values <==> p in Tables(s.own) {
      if p in Tables(s.own) {
        var f :| f in s.own && s.own[f].Node? && s.own[f].pos == p;
        assert f in places && places[f] == p;
      }
    }
    assert places.Keys == nodes && places.Values == Tables(s.own);
  }

  lemma UserCount(s: State, data: set<nat>)
    requires Inv(s) && data == set f | f in s.own && s.own[f].Data?
    ensures |data| == |UserMaps(s)|
  {
    hide NodeOk, MapOk, FreeOk, Ppn;
    var pages := map key | key in UserMaps(s) :: Ppn(s.maps[key]);
    ImageCard(pages);
    forall f ensures f in pages.Values <==> f in data {
      if f in data {
        assert DataOk(s, f);
        assert pages[(s.own[f].r, s.own[f].v)] == f;
      }
    }
    assert pages.Keys == UserMaps(s) && pages.Values == data;
  }

  /** No two entries of root and level-1 pages, of one page table or of two, refer to the same page. */
  lemma EntriesDisjoint(s: State, f: nat, k: nat, g: nat, l: nat)
    requires Inv(s) && (f, k) in Entries(s) && (g, l) in Entries(s) && Ppn(s.mem[f][k]) == Ppn(s.mem[g][l])
    ensures f == g && k == l
    ensures Ppn(s.mem[f][k]) in s.own && s.own[Ppn(s.mem[f][k])].Node? && !s.own[Ppn(s.mem[f][k])].pos.Root?
  {
    hide FreeOk, MapOk, DataOk;
    assert NodeOk(s, f) && EntryOk(s, s.own[f].pos, k, s.mem[f][k]);
    assert NodeOk(s, g) && EntryOk(s, s.own[g].pos, l, s.mem[g][l]);
    assert Child(s.own[f].pos, k) == Child(s.own[g].pos, l);
    SameSlot(s, f, g, s.own[f].pos);
  }

  /** Every page of a page table is a root, or is referred to by exactly one entry. */
  lemma TablesByEntries(s: State)
    requires Inv(s)
    ensures |Tables(s.own)| == |Roots(s)| + |Entries(s)|
  {
    hide FreeOk, MapOk, DataOk, Ppn, NodeOk, Entries, Inv;
    var nodes := set f | f in s.own && s.own[f].Node?;
    TableCount(s, nodes);
    assert Dom(s) by { assert Inv(s); InvHasDom(s); }
    var pages := map e | e in Entries(s) :: if e.0 in s.mem && e.1 < PTES then Ppn(s.mem[e.0][e.1]) else 0;
    forall e, d | e in pages && d in pages && pages[e] == pages[d] ensures e == d {
      EntryIsIn(s, e);
      EntryIsIn(s, d);
      EntriesDisjoint(s, e.0, e.1, d.0, d.1);
    }
    ImageCard(pages);
    forall f ensures f in pages.Values <==> f in nodes - Roots(s) {
      if f in pages.Values {
        var e :| e in pages && pages[e] == f;
        EntryIsIn(s, e);
        EntriesDisjoint(s, e.0, e.1, e.0, e.1);
      }
      if f in nodes - Roots(s) {
        var e := EntryOf(s, f);
        assert pages[e] == f;
      }
    }
    assert pages.Keys == Entries(s) && pages.Values == nodes - Roots(s);
    assert nodes == (nodes - Roots(s)) + Roots(s);
  }

  lemma InvHasDom(s: State)
    requires Inv(s)
    ensures Dom(s)
  {
  }

  lemma EntryIsIn(s: State, e: (nat, nat))
    requires Dom(s) && e in Entries(s)
    ensures e.0 in s.mem && e.1 < PTES
  {
  }

  lemma EntryOf(s: State, f: nat) returns (e: (nat, nat))
    requires Inv(s) && f in s.own && s.own[f].Node? && !s.own[f].pos.Root?
    ensures e in Entries(s) && e.0 in s.mem && e.1 < PTES && Ppn(s.mem[e.0][e.1]) == f
  {
    hide FreeOk, MapOk, DataOk;
    assert NodeOk(s, f);
    PteRoundTrip(f, 1);
    var pos := s.own[f].pos;
    e := if pos.L1? then (pos.r, pos.i) else (Ppn(s.mem[pos.r][pos.i]), pos.j);
  }

  // ----- the table pages that a walk needs -----

  /** The places below the root on the way to page v. */
  ghost function Path(r: nat, v: nat): (p: set<Pos>) {
    {L1(r, v / 0x4_0000), L0(r, v / 0x4_0000, v / PTES % PTES)}
  }

  /** The places on the way to the n pages from v on. */
  ghost function Paths(r: nat, v: nat, n: nat): (p: set<Pos>) {
    if n == 0 then {} else Paths(r, v, n - 1) + Path(r, v + n - 1)
  }

  /** How many free pages it takes to give page table r pages of its own at the n pages from v on. */
  ghost function Needs(s: State, r: nat, v: nat, n: nat): (k: int) {
    n + |Tables(s.own) + Paths(r, v, n)| - |Tables(s.own)|
  }

  /** Places of `path` have been given pages: all of them if done, otherwise not all. */
  ghost predicate Laid(before: set<Pos>, after: set<Pos>, path: set<Pos>, done: bool) {
    before <= after <= before + path && (done <==> path <= after)
  }

  lemma {:induction false} PathsMore(r: nat, v: nat, m: nat, n: nat)
    requires m < n
    ensures Paths(r, v, m + 1) <= Paths(r, v, n) && Path(r, v + m) <= Paths(r, v, n) && Paths(r, v, m) <= Paths(r, v, n)
    decreases n
  {
    if m + 1 < n {
      PathsMore(r, v, m, n - 1);
    }
  }

  lemma PathsOne(r: nat, v: nat)
    ensures Paths(r, v, 0) == {} && Paths(r, v, 1) == Path(r, v)
  {
    assert Paths(r, v, 1) == Paths(r, v, 0) + Path(r, v + 0);
  }

  lemma Placed(s: State, f: nat, pos: Pos)
    requires IsNode(s, f, pos)
    ensures pos in Tables(s.own)
  {
  }

  /** Behind an empty entry there is no page. */
  lemma NotPlaced(s: State, table: nat, k: nat, pos: Pos)
    requires Inv(s) && IsNode(s, table, pos) && !pos.L0? && k < PTES && s.mem[table][k] == 0
    ensures Child(pos, k) !in Tables(s.own)
  {
    hide FreeOk, MapOk, DataOk, EntryOk;
    if Child(pos, k) in Tables(s.own) {
      var f :| f in s.own && s.own[f].Node? && s.own[f].pos == Child(pos, k);
      assert NodeOk(s, f);
      if pos.L1? {
        SameSlot(s, table, Ppn(s.mem[pos.r][pos.i]), pos);
      } else {
        SameSlot(s, table, pos.r, pos);
      }
    }
  }

  lemma OneMorePlace(own: map<nat, Owner>, g: nat, pos: Pos)
    requires g in own && !own[g].Node?
    ensures Tables(own[g := Node(pos)]) == Tables(own) + {pos}
  {
    var more := own[g := Node(pos)];
    forall p ensures p in Tables(more) <==> p in Tables(own) + {pos} {
      if p in Tables(own) {
        var f :| f in own && own[f].Node? && own[f].pos == p;
        assert more[f] == own[f];
      }
      assert more[g].Node? && more[g].pos == pos;
    }
  }

  lemma SamePlaces(own: map<nat, Owner>, g: nat, o: Owner)
    requires g in own && !own[g].Node? && !o.Node?
    ensures Tables(own[g := o]) == Tables(own)
  {
    var more := own[g := o];
    forall p ensures p in Tables(more) <==> p in Tables(own) {
      if p in Tables(own) {
        var f :| f in own && own[f].Node? && own[f].pos == p;
        assert more[f] == own[f];
      }
    }
  }

  ghost function Others(own: map<nat, Owner>): (o: set<nat>) {
    set f | f in own && own[f] != Free && !own[f].Node?
  }

  /** Pages are free, in page tables, or neither. */
  lemma Census(s: State)
    requires Inv(s)
    ensures |s.own| == |s.free| + |Tables(s.own)| + |Others(s.own)|
  {
    hide Inv, Tables;
    var free := set f | f in s.own && s.own[f] == Free;
    var nodes := set f | f in s.own && s.own[f].Node?;
    FreeCount(s, free);
    TableCount(s, nodes);
    Partition(s.own.Keys, free, nodes, Others(s.own), {});
  }

  /** Where pages only move between the free list and page tables, their numbers together stay. */
  lemma Exchanged(s: State, t: State)
    requires Inv(s) && Inv(t) && t.own.Keys == s.own.Keys && Others(t.own) == Others(s.own)
    ensures |s.free| + |Tables(s.own)| == |t.free| + |Tables(t.own)|
  {
    hide Inv, Tables, Others;
    Census(s);
    Census(t);
    assert |s.own| == |s.own.Keys| && |t.own| == |t.own.Keys|;
  }

  lemma SmallerSet(a: set<Pos>, b: set<Pos>)
    requires a <= b
    ensures |a| <= |b| && (a != b ==> |a| < |b|)
  {
    SubsetCard(a, b);
  }
}
