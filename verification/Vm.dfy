/**
 The physical page allocator and the page-table routines (kernel/kalloc.c, kernel/vm.c), on the
 memory they change.  Model() is the memory with, for the proofs, what each page is used for.
 */
module Vm {
  import opened Sequences
  import opened PageMap
  import opened PageCount

  /** Table pages may have been added from the free list; nothing else has happened to any page. */
  ghost predicate KeptPages(s: State, t: State) {
    && t.own.Keys == s.own.Keys
    && (forall f :: f in s.own && s.own[f] != Free ==> t.own[f] == s.own[f])
    && (forall f :: f in s.own && s.own[f] == Free ==> t.own[f].Free? || t.own[f].Node?)
    && (forall f :: f in s.own && f in s.mem && f in t.mem && s.own[f] != Free && !s.own[f].Node? ==>
              t.mem[f] == s.mem[f])
  }

  ghost predicate Kept(s: State, t: State) {
    KeptPages(s, t) && t.maps == s.maps
  }

  lemma KeptRefl(s: State)
    ensures Kept(s, s)
  {
  }

  lemma FirstFree(s: State)
    requires Inv(s) && s.free != []
    ensures s.free[0] in s.own && s.own[s.free[0]] == Free && s.free[0] > 0
  {
  }

  lemma KeptTrans(s: State, t: State, u: State)
    requires KeptPages(s, t) && KeptPages(t, u) && t.mem.Keys == t.own.Keys
    ensures KeptPages(s, u)
  {
  }

  /** The table page that walk() is at before it looks at a level. */
  function PosAt(level: nat, r: nat, va: nat): (pos: Pos)
    requires level <= 2
  {
    if level == 2 then Root(r) else if level == 1 then L1(r, PX(2, va)) else L0(r, PX(2, va), PX(1, va))
  }

  /** The places that walk() has passed before it looks at a level. */
  ghost function PathTo(level: nat, r: nat, va: nat): (p: set<Pos>)
    requires level <= 2
  {
    if level == 2 then {} else if level == 1 then {PosAt(1, r, va)} else {PosAt(1, r, va), PosAt(0, r, va)}
  }

  lemma EntryFacts(s: State, table: nat, k: nat, pos: Pos)
    requires Inv(s) && IsNode(s, table, pos) && !pos.L0? && k < PTES
    ensures IsValid(s.mem[table][k]) ==> IsNode(s, Ppn(s.mem[table][k]), Child(pos, k))
    ensures !IsValid(s.mem[table][k]) ==> s.mem[table][k] == 0
  {
    hide FreeOk, PosOk, MapOk, DataOk;
    assert NodeOk(s, table) && EntryOk(s, pos, k, s.mem[table][k]);
  }

  /** A page off the free list, zeroed and linked into slot k of a table page. */
  ghost function Grown(s: State, table: nat, k: nat, pos: Pos): (t: State)
    requires s.free != [] && table in s.mem && k < PTES && !pos.L0?
  {
    var g := s.free[0];
    Linked(SetPage(Alloced(s), g, ZEROS), table, k, g, Child(pos, k))
  }

  lemma GrownKept(s: State, table: nat, k: nat, pos: Pos)
    requires Dom(s) && s.free != [] && s.free[0] in s.own && s.own[s.free[0]] == Free
    requires IsNode(s, table, pos) && !pos.L0? && k < PTES
    ensures Kept(s, Grown(s, table, k, pos))
    ensures IsNode(Grown(s, table, k, pos), s.free[0], Child(pos, k)) && IsNode(Grown(s, table, k, pos), table, pos)
  {
  }

  lemma GrownInv(s: State, table: nat, k: nat, pos: Pos)
    requires Inv(s) && s.free != [] && IsNode(s, table, pos) && !pos.L0? && k < PTES && (pos.Root? ==> k < 256)
    requires s.mem[table][k] == 0
    ensures Inv(Grown(s, table, k, pos)) && Kept(s, Grown(s, table, k, pos))
    ensures IsNode(Grown(s, table, k, pos), s.free[0], Child(pos, k)) && IsNode(Grown(s, table, k, pos), table, pos)
  {
    hide Inv, Kept;
    assert Dom(s) by { InvDom(s); }
    FirstFree(s);
    AllocedInv(s);
    SetPageInv(Alloced(s), s.free[0], ZEROS);
    LinkedInv(SetPage(Alloced(s), s.free[0], ZEROS), table, k, s.free[0], pos);
    GrownKept(s, table, k, pos);
  }

  lemma InvDom(s: State)
    requires Inv(s)
    ensures Dom(s)
  {
  }

  /** walk() stopped at an empty entry. */
  lemma NoSlotAt(s: State, r: nat, va: nat, level: nat, table: nat)
    requires Inv(s) && va < MAXVA && 1 <= level <= 2 && IsNode(s, table, PosAt(level, r, va))
    requires s.mem[table][PX(level, va)] == 0
    ensures !HasSlot(s, r, va / PGSIZE)
  {
    hide FreeOk, MapOk, DataOk, EntryOk, PX;
    IndicesOfPage(va);
    assert NodeOk(s, table);
    assert 0 !in s.own;
  }

  // ----- what mappages and uvmunmap do to the mappings -----

  /** n pages starting at v map n frames starting at f. */
  ghost function Inserted(maps: map<(nat, nat), nat>, r: nat, v: nat, f: nat, n: nat, flags: nat): (m: map<(nat, nat),
                          nat>) {
    if n == 0 then maps else Inserted(maps, r, v, f, n - 1, flags)[(r, v + n - 1) := Pte(f + n - 1, flags)]
  }

  ghost function Removed(maps: map<(nat, nat), nat>, r: nat, v: nat, n: nat): (m: map<(nat, nat), nat>) {
    if n == 0 then maps else Removed(maps, r, v, n - 1) - {(r, v + n - 1)}
  }

  predicate InPages(key: (nat, nat), r: nat, v: nat, n: nat) {
    key.0 == r && v <= key.1 < v + n
  }

  /** No page from v to v + n is mapped. */
  ghost predicate NoneMapped(maps: map<(nat, nat), nat>, r: nat, v: nat, n: nat) {
    forall key :: key in maps ==> !InPages(key, r, v, n)
  }

  lemma {:induction false} InsertedAt(maps: map<(nat, nat), nat>, r: nat, v: nat, f: nat, n: nat, flags: nat,
                                      key: (nat, nat))
    ensures key in Inserted(maps, r, v, f, n, flags) <==> key in maps || InPages(key, r, v, n)
    ensures InPages(key, r, v, n) ==> Inserted(maps, r, v, f, n, flags)[key] == Pte(f + key.1 - v, flags)
    ensures key in maps && !InPages(key, r, v, n) ==> Inserted(maps, r, v, f, n, flags)[key] == maps[key]
  {
    if n > 0 {
      InsertedAt(maps, r, v, f, n - 1, flags, key);
    }
  }

  lemma {:induction false} RemovedAt(maps: map<(nat, nat), nat>, r: nat, v: nat, n: nat, key: (nat, nat))
    ensures key in Removed(maps, r, v, n) <==> key in maps && !InPages(key, r, v, n)
    ensures key in Removed(maps, r, v, n) ==> Removed(maps, r, v, n)[key] == maps[key]
  {
    if n > 0 {
      RemovedAt(maps, r, v, n - 1, key);
    }
  }

  /** Unmapping what was newly mapped gives back the mappings. */
  lemma RemovedInserted(maps: map<(nat, nat), nat>, r: nat, v: nat, f: nat, n: nat, flags: nat)
    requires NoneMapped(maps, r, v, n)
    ensures Removed(Inserted(maps, r, v, f, n, flags), r, v, n) == maps
  {
    var m := Inserted(maps, r, v, f, n, flags);
    forall key: (nat, nat) ensures key in Removed(m, r, v, n) <==> key in maps {
      RemovedAt(m, r, v, n, key);
      InsertedAt(maps, r, v, f, n, flags, key);
    }
    forall key: (nat, nat) | key in maps ensures key in Removed(m, r, v, n) && Removed(m, r, v, n)[key] == maps[key] {
      RemovedAt(m, r, v, n, key);
      InsertedAt(maps, r, v, f, n, flags, key);
    }
  }

  /** One entry written into its slot, for a page that is not mapped. */
  lemma MappedInv(s: State, f: nat, k: nat, r: nat, v: nat, e: nat)
    requires Inv(s) && IsSlot(s, f, k, r, v) && IsValid(e) && (r, v) !in s.maps
    ensures s.mem[f][k] == 0
    ensures Inv(Mapped(s, f, k, r, v, e)) && KeptPages(s, Mapped(s, f, k, r, v, e))
  {
    hide NodeOk, FreeOk, MapOk, IsValid;
    assert s.mem[f][k] == 0 by { SlotEntry(s, f, k, r, v); }
    assert e != 0 by { assert IsValid(e); ValidNotZero(e); }
    forall x | x in s.own ensures s.own[x] != Data(r, v) {
      assert DataOk(s, x);
    }
    EnteredInv(s, f, k, r, v, e);
  }

  lemma ValidNotZero(e: nat)
    requires IsValid(e)
    ensures e != 0
  {
  }

  /** The slot of a page holds its mapping. */
  lemma SlotEntry(s: State, f: nat, k: nat, r: nat, v: nat)
    requires Inv(s) && IsSlot(s, f, k, r, v)
    ensures s.mem[f][k] == if (r, v) in s.maps then s.maps[(r, v)] else 0
    ensures s.mem[f][k] == 0 || IsValid(s.mem[f][k])
  {
    hide FreeOk, MapOk, DataOk, PosOk;
    VpnOf(v);
    assert NodeOk(s, f) && EntryOk(s, s.own[f].pos, k, s.mem[f][k]);
  }

  // ----- freeing user pages -----

  /** The user pages of r from v to v + n are free; nothing else has happened to any page but to tables. */
  ghost predicate Dropped(s: State, t: State, r: nat, v: nat, n: nat) {
    && t.own.Keys == s.own.Keys
    && (forall f :: f in s.own ==>
          t.own[f] == if s.own[f].Data? && InPages((s.own[f].r, s.own[f].v), r, v, n) then Free else s.own[f])
    && (forall f :: f in t.own && f in s.mem && f in t.mem && t.own[f] != Free && !t.own[f].Node? ==>
              t.mem[f] == s.mem[f])
  }

  lemma DroppedRefl(s: State, r: nat, v: nat)
    ensures Dropped(s, s, r, v, 0)
  {
  }

  lemma DroppedTrans(s: State, t: State, u: State, r: nat, v: nat, n: nat)
    requires Dropped(s, t, r, v, n) && Dropped(t, u, r, v + n, 1) && Dom(s) && Dom(t)
    ensures Dropped(s, u, r, v, n + 1)
  {
  }

  /** Pages from v to v + n are mapped, as leaves; with doFree, to pages of their own, without, to pages of nobody. */
  ghost predicate CanUnmap(s: State, r: nat, v: nat, n: nat, doFree: bool) {
    forall x :: v <= x < v + n ==> CanUnmapPage(s, r, x, doFree)
  }

  ghost predicate CanUnmapPage(s: State, r: nat, x: nat, doFree: bool) {
    && (r, x) in s.maps && Flags(s.maps[(r, x)]) != 1
    && if doFree then Ppn(s.maps[(r, x)]) in s.own && s.own[Ppn(s.maps[(r, x)])] == Data(r, x)
       else forall f :: f in s.own ==> s.own[f] != Data(r, x)
  }

  lemma CanUnmapRest(s: State, t: State, r: nat, v: nat, n: nat, d: nat, m: nat, doFree: bool)
    requires CanUnmap(s, r, v, n, doFree) && Dropped(s, t, r, v, d) && d <= m <= n
    requires t.maps == Removed(s.maps, r, v, m)
    ensures forall x :: v + m <= x < v + n ==> CanUnmapPage(t, r, x, doFree)
  {
    forall x | v + m <= x < v + n ensures CanUnmapPage(t, r, x, doFree) {
      assert CanUnmapPage(s, r, x, doFree);
      RemovedAt(s.maps, r, v, m, (r, x));
    }
  }

  /** kfree() of a user page that is still mapped, and then its entry is cleared. */
  ghost function UnmapFreed(s: State, f: nat, k: nat, r: nat, v: nat, g: nat): (t: State)
    requires f in s.mem && k < PTES
  {
    Unmapped(Released(SetOwn(s, g, Loose), g), f, k, r, v)
  }

  lemma UnmapFreedInv(s: State, f: nat, k: nat, r: nat, v: nat)
    requires Inv(s) && IsSlot(s, f, k, r, v) && CanUnmapPage(s, r, v, true)
    ensures var g := Ppn(s.maps[(r, v)]);
            Inv(SetOwn(s, g, Loose)) && Inv(UnmapFreed(s, f, k, r, v, g))
            && Dropped(s, UnmapFreed(s, f, k, r, v, g), r, v, 1)
  {
    hide NodeOk, FreeOk, MapOk;
    var g := Ppn(s.maps[(r, v)]);
    SetOwnInv(s, g, Loose);
    ReleasedInv(SetOwn(s, g, Loose), g);
    var t := Released(SetOwn(s, g, Loose), g);
    OneOwner(s, r, v, g);
    EnteredInv(t, f, k, r, v, 0);
    UnmapFreedDropped(s, f, k, r, v, g);
  }

  lemma OneOwner(s: State, r: nat, v: nat, g: nat)
    requires Inv(s) && g in s.own && s.own[g] == Data(r, v)
    ensures forall x :: x in s.own && s.own[x] == Data(r, v) ==> x == g
  {
    hide NodeOk, FreeOk, MapOk;
    assert DataOk(s, g);
    forall x | x in s.own && s.own[x] == Data(r, v) ensures x == g {
      assert DataOk(s, x);
    }
  }

  lemma UnmapFreedDropped(s: State, f: nat, k: nat, r: nat, v: nat, g: nat)
    requires Dom(s) && IsSlot(s, f, k, r, v) && g in s.own && s.own[g] == Data(r, v)
    requires forall x :: x in s.own && s.own[x] == Data(r, v) ==> x == g
    ensures Dropped(s, UnmapFreed(s, f, k, r, v, g), r, v, 1)
  {
  }

  lemma UnmapKeptInv(s: State, f: nat, k: nat, r: nat, v: nat)
    requires Inv(s) && IsSlot(s, f, k, r, v) && CanUnmapPage(s, r, v, false)
    ensures Inv(Unmapped(s, f, k, r, v)) && Dropped(s, Unmapped(s, f, k, r, v), r, v, 0)
  {
    hide NodeOk, FreeOk, MapOk;
    EnteredInv(s, f, k, r, v, 0);
  }

  // ----- adding user pages -----

  /**
   Free pages have become user pages of r from v on, with the wanted contents and flags, and
   table pages may have been added; nothing else has happened to any page or mapping.
   */
  ghost predicate Grew(s: State, t: State, r: nat, v: nat, want: seq<(Page, nat)>) {
    && t.own.Keys == s.own.Keys
    && (forall f :: f in s.own && s.own[f] != Free ==> t.own[f] == s.own[f])
    && (forall f :: f in s.own && s.own[f] == Free ==>
          t.own[f].Free? || t.own[f].Node? || (t.own[f].Data? && InPages((t.own[f].r, t.own[f].v), r, v, |want|)))
    && (forall f :: f in s.own && f in s.mem && f in t.mem && s.own[f] != Free && !s.own[f].Node? ==>
              t.mem[f] == s.mem[f])
    && (forall key :: !InPages(key, r, v, |want|) ==> (key in t.maps <==> key in s.maps))
    && (forall key :: key in s.maps && !InPages(key, r, v, |want|) ==> t.maps[key] == s.maps[key])
    && (forall x :: 0 <= x < |want| ==> HasPage(t, r, v + x, want[x]))
  }

  ghost predicate HasPage(s: State, r: nat, v: nat, want: (Page, nat)) {
    && (r, v) in s.maps && Flags(s.maps[(r, v)]) == want.1
    && Ppn(s.maps[(r, v)]) in s.own && s.own[Ppn(s.maps[(r, v)])] == Data(r, v)
    && Ppn(s.maps[(r, v)]) in s.mem && s.mem[Ppn(s.maps[(r, v)])] == want.0
  }

  lemma GrewRefl(s: State, r: nat, v: nat)
    ensures Grew(s, s, r, v, [])
  {
  }

  lemma GrewTrans(s: State, t: State, u: State, r: nat, v: nat, want: seq<(Page, nat)>, page: (Page, nat))
    requires Grew(s, t, r, v, want) && Grew(t, u, r, v + |want|, [page]) && Dom(s) && Dom(t) && Dom(u)
    ensures Grew(s, u, r, v, want + [page])
  {
    hide HasPage;
    forall x | 0 <= x < |want| + 1 ensures HasPage(u, r, v + x, (want + [page])[x]) {
      if x < |want| {
        assert HasPage(t, r, v + x, want[x]);
        PageStays(t, u, r, v, |want|, page, x, want[x]);
      } else {
        assert HasPage(u, r, v + |want| + 0, [page][0]);
      }
    }
  }

  /** A page that was there before the last one was added is still there. */
  lemma PageStays(t: State, u: State, r: nat, v: nat, n: nat, page: (Page, nat), x: nat, want: (Page, nat))
    requires Grew(t, u, r, v + n, [page]) && Dom(t) && Dom(u) && x < n && HasPage(t, r, v + x, want)
    ensures HasPage(u, r, v + x, want)
  {
    hide Flags, Ppn;
    assert !InPages((r, v + x), r, v + n, 1);
  }

  /** Table pages that a failed attempt has added do not matter. */
  lemma GrewKept(s: State, t: State, u: State, r: nat, v: nat, want: seq<(Page, nat)>)
    requires Grew(s, t, r, v, want) && Kept(t, u) && Dom(s) && Dom(t) && Dom(u)
    ensures Grew(s, u, r, v, want)
  {
    hide Flags, Ppn;
    forall x | 0 <= x < |want| ensures HasPage(u, r, v + x, want[x]) {
      assert HasPage(t, r, v + x, want[x]);
    }
  }

  /** Dropping the added pages again undoes the growth, but for table pages. */
  lemma GrewUndone(s: State, t: State, u: State, r: nat, v: nat, want: seq<(Page, nat)>)
    requires Grew(s, t, r, v, want) && Dropped(t, u, r, v, |want|) && u.maps == Removed(t.maps, r, v, |want|)
    requires NoneMapped(s.maps, r, v, |want|) && Inv(s) && Dom(t)
    ensures Kept(s, u)
  {
    hide Flags, FreeOk, NodeOk, MapOk;
    forall key ensures key in u.maps <==> key in s.maps {
      RemovedAt(t.maps, r, v, |want|, key);
    }
    forall key | key in s.maps ensures u.maps[key] == s.maps[key] {
      RemovedAt(t.maps, r, v, |want|, key);
    }
    assert u.maps == s.maps;
    assert forall f :: f in s.own ==> DataOk(s, f);
  }

  /** The added pages can be unmapped and freed. */
  lemma GrewCanUnmap(s: State, t: State, r: nat, v: nat, want: seq<(Page, nat)>)
    requires Grew(s, t, r, v, want) && forall x :: 0 <= x < |want| ==> want[x].1 != 1
    ensures CanUnmap(t, r, v, |want|, true)
  {
    forall x | v <= x < v + |want| ensures CanUnmapPage(t, r, x, true) {
      assert HasPage(t, r, v + (x - v), want[x - v]);
    }
  }

  /** What m pages from v on, and the tables for them, have taken off the free list. */
  ghost predicate Taken(s: State, t: State, r: nat, v: nat, m: nat) {
    && Tables(t.own) == Tables(s.own) + Paths(r, v, m)
    && |t.free| + m + |Tables(t.own)| == |s.free| + |Tables(s.own)|
  }

  lemma TakenNone(s: State, r: nat, v: nat)
    ensures Taken(s, s, r, v, 0)
  {
    PathsOne(r, v);
  }

  lemma TakenMore(s: State, t: State, u: State, r: nat, v: nat, m: nat, n: nat, ok: bool)
    requires Taken(s, t, r, v, m) && m < n
    requires ok ==> Tables(u.own) == Tables(t.own) + Path(r, v + m)
    requires ok ==> |u.free| + 1 + |Tables(u.own)| == |t.free| + |Tables(t.own)|
    requires !ok ==> |t.free| + |Tables(t.own)| < 1 + |Tables(t.own) + Path(r, v + m)|
    ensures ok ==> Taken(s, u, r, v, m + 1)
    ensures !ok ==> |s.free| < Needs(s, r, v, n)
  {
    hide Tables, Path;
    PathsMore(r, v, m, n);
    assert Paths(r, v, m + 1) == Paths(r, v, m) + Path(r, v + m);
    assert Tables(t.own) + Path(r, v + m) == Tables(s.own) + Paths(r, v, m + 1);
    SmallerSet(Tables(s.own) + Paths(r, v, m + 1), Tables(s.own) + Paths(r, v, n));
  }

  lemma AddedGrew(s: State, t: State, u: State, r: nat, v: nat, page: Page, g: nat, e: nat)
    requires Dom(s) && Dom(u) && s.free != [] && g == s.free[0] && g in s.own && s.own[g] == Free
    requires t == SetPage(Alloced(s), g, page) && KeptPages(t, u) && u.maps == s.maps[(r, v) := e] && Ppn(e) == g
    ensures Grew(s, SetOwn(u, g, Data(r, v)), r, v, [(page, Flags(e))])
  {
    hide Flags, Ppn;
    assert HasPage(SetOwn(u, g, Data(r, v)), r, v + 0, (page, Flags(e)));
  }

  /** A page off the free list gets its contents, is mapped, and then belongs to the mapping. */
  lemma AddedPage(s: State, t: State, u: State, r: nat, v: nat, page: Page, flags: nat)
    requires Inv(s) && s.free != [] && t == SetPage(Alloced(s), s.free[0], page)
    requires Inv(u) && KeptPages(t, u) && u.maps == s.maps[(r, v) := Pte(s.free[0], flags)] && flags < 1024
    ensures s.free[0] in u.own && u.own[s.free[0]] == Loose
    ensures Inv(SetOwn(u, s.free[0], Data(r, v)))
    ensures Grew(s, SetOwn(u, s.free[0], Data(r, v)), r, v, [(page, flags)])
  {
    hide Inv, Grew, Flags, Ppn, Pte;
    var g := s.free[0];
    FirstFree(s);
    InvDom(s);
    InvDom(u);
    PteRoundTrip(g, flags);
    AddedGrew(s, t, u, r, v, page, g, Pte(g, flags));
    SetOwnInv(u, g, Data(r, v));
  }

  /** Or it could not be mapped, and goes back to the free list. */
  lemma AbandonedPage(s: State, t: State, u: State, page: Page)
    requires Inv(s) && s.free != [] && t == SetPage(Alloced(s), s.free[0], page)
    requires Inv(u) && Kept(t, u)
    ensures s.free[0] in u.own && u.own[s.free[0]] == Loose
    ensures Kept(s, Released(u, s.free[0]))
  {
    hide Inv;
    FirstFree(s);
    InvDom(s);
    InvDom(u);
  }

  lemma LaidNone(places: set<Pos>, r: nat, v: nat)
    ensures Laid(places, places, Paths(r, v, 0), true)
  {
    PathsOne(r, v);
  }

  lemma LaidMore(before: set<Pos>, mid: set<Pos>, after: set<Pos>, r: nat, v: nat, m: nat, n: nat, ok: bool)
    requires m < n && Laid(before, mid, Paths(r, v, m), true) && Laid(mid, after, Path(r, v + m), ok)
    ensures ok ==> Laid(before, after, Paths(r, v, m + 1), true)
    ensures !ok ==> Laid(before, after, Paths(r, v, n), false)
  {
    hide Path;
    PathsMore(r, v, m, n);
    assert Paths(r, v, m + 1) == Paths(r, v, m) + Path(r, v + m);
  }

  /** How many pages mapping one page takes off the free list, beside the page itself; or that they were too few. */
  lemma AddedCount(s: State, t: State, u: State, r: nat, v: nat, page: Page, ok: bool)
    requires Inv(s) && s.free != [] && t == SetPage(Alloced(s), s.free[0], page) && Inv(t) && Inv(u) && KeptPages(t, u)
    requires Laid(Tables(t.own), Tables(u.own), Paths(r, v, 1), ok) && (!ok ==> u.free == [])
    ensures Tables(t.own) == Tables(s.own)
    ensures ok ==> Tables(u.own) == Tables(s.own) + Path(r, v)
    ensures ok ==> |u.free| + 1 + |Tables(u.own)| == |s.free| + |Tables(s.own)|
    ensures !ok ==> |s.free| + |Tables(s.own)| < 1 + |Tables(s.own) + Path(r, v)|
  {
    hide Inv, Path, Paths, Tables;
    FirstFree(s);
    SamePlaces(s.own, s.free[0], Loose);
    PathsOne(r, v);
    Exchanged(t, u);
    if !ok {
      SmallerSet(Tables(u.own), Tables(s.own) + Path(r, v));
    }
  }

  /** PGROUNDUP(sz) / PGSIZE. */
  function Pages(sz: nat): (n: nat) {
    (sz + PGSIZE - 1) / PGSIZE
  }

  /** A user page table: its first n pages are user memory, and only the trampoline and trapframe are mapped beside. */
  ghost predicate UserTable(s: State, r: nat, n: nat) {
    && IsNode(s, r, Root(r))
    && CanUnmap(s, r, 0, n, true)
    && forall key :: key in s.maps && key.0 == r ==> key.1 < n || key.1 >= MAXVPN - 2
  }

  lemma DistinctBelow(s: seq<nat>, n: nat)
    requires Distinct(s) && forall k :: 0 <= k < |s| ==> 0 < s[k] < n
    ensures |s| < n || n == 0
  {
    DistinctCard(s);
    if n > 0 {
      SubsetCard(Elems(s), Below(n) - {0});
    }
  }

  /** User memory is smaller than physical memory, so it ends far below the trampoline. */
  lemma UserBelowFrames(s: State, r: nat, n: nat)
    requires Inv(s) && CanUnmap(s, r, 0, n, true)
    ensures n < FRAMES
  {
    hide NodeOk, MapOk, DataOk, FreeOk, Ppn;
    var pages := seq(n, x requires 0 <= x < n => if (r, x) in s.maps then Ppn(s.maps[(r, x)]) else 0);
    forall x | 0 <= x < n ensures pages[x] in s.own && s.own[pages[x]] == Data(r, x) {
      assert CanUnmapPage(s, r, x, true);
    }
    DistinctBelow(pages, FRAMES);
  }

  lemma UserTableGrew(s: State, t: State, r: nat, n: nat, want: seq<(Page, nat)>)
    requires UserTable(s, r, n) && Grew(s, t, r, n, want) && Dom(s) && Dom(t)
    requires forall x :: 0 <= x < |want| ==> want[x].1 != 1
    ensures UserTable(t, r, n + |want|)
  {
    hide Ppn, Flags;
    GrewCanUnmap(s, t, r, n, want);
    forall x | 0 <= x < n + |want| ensures CanUnmapPage(t, r, x, true) {
      if x < n {
        assert CanUnmapPage(s, r, x, true) && !InPages((r, x), r, n, |want|);
      }
    }
  }

  lemma UserTableKept(s: State, t: State, r: nat, n: nat)
    requires UserTable(s, r, n) && Kept(s, t) && Dom(t)
    ensures UserTable(t, r, n)
  {
    forall x | 0 <= x < n ensures CanUnmapPage(t, r, x, true) {
      assert CanUnmapPage(s, r, x, true);
    }
  }

  lemma UserTableDropped(s: State, t: State, r: nat, n: nat, m: nat)
    requires UserTable(s, r, n) && m <= n && Dropped(s, t, r, m, n - m) && t.maps == Removed(s.maps, r, m, n - m)
             && Dom(t)
    ensures UserTable(t, r, m)
  {
    hide Ppn, Flags;
    forall x | 0 <= x < m ensures CanUnmapPage(t, r, x, true) {
      assert CanUnmapPage(s, r, x, true);
      RemovedAt(s.maps, r, m, n - m, (r, x));
    }
    forall key | key in t.maps && key.0 == r ensures key.1 < m || key.1 >= MAXVPN - 2 {
      RemovedAt(s.maps, r, m, n - m, key);
    }
  }

  /** Growing one page table leaves the other user page tables alone. */
  lemma OtherGrew(s: State, t: State, r: nat, v: nat, want: seq<(Page, nat)>, q: nat, n: nat)
    requires UserTable(s, q, n) && q != r && Grew(s, t, r, v, want) && Dom(s) && Dom(t)
    ensures UserTable(t, q, n)
  {
    hide Ppn, Flags;
    forall x | 0 <= x < n ensures CanUnmapPage(t, q, x, true) {
      assert CanUnmapPage(s, q, x, true) && !InPages((q, x), r, v, |want|);
    }
    forall key | key in t.maps && key.0 == q ensures key.1 < n || key.1 >= MAXVPN - 2 {
      assert !InPages(key, r, v, |want|);
    }
  }

  /** So does shrinking it. */
  lemma OtherDropped(s: State, t: State, r: nat, v: nat, m: nat, q: nat, n: nat)
    requires UserTable(s, q, n) && q != r && Dropped(s, t, r, v, m) && t.maps == Removed(s.maps, r, v, m) && Dom(t)
    ensures UserTable(t, q, n)
  {
    hide Ppn, Flags;
    forall x | 0 <= x < n ensures CanUnmapPage(t, q, x, true) {
      assert CanUnmapPage(s, q, x, true);
      RemovedAt(s.maps, r, v, m, (q, x));
    }
    forall key | key in t.maps && key.0 == q ensures key.1 < n || key.1 >= MAXVPN - 2 {
      RemovedAt(s.maps, r, v, m, key);
    }
  }

  /**
   User memory is private: two pages of user page tables, of one process or of two, have
   different physical pages, and these are neither free nor part of any page table.
   */
  lemma UserPagesDisjoint(s: State, r: nat, n: nat, v: nat, q: nat, m: nat, w: nat)
    requires Inv(s) && UserTable(s, r, n) && UserTable(s, q, m) && v < n && w < m && (r, v) != (q, w)
    ensures (r, v) in s.maps && (q, w) in s.maps && Ppn(s.maps[(r, v)]) != Ppn(s.maps[(q, w)])
    ensures Ppn(s.maps[(r, v)]) !in s.free && forall pos :: !IsNode(s, Ppn(s.maps[(r, v)]), pos)
  {
    hide NodeOk, MapOk, DataOk, Ppn, Flags;
    assert CanUnmapPage(s, r, v, true) && CanUnmapPage(s, q, w, true);
    assert forall k :: 0 <= k < |s.free| ==> s.free[k] in s.own && s.own[s.free[k]] == Free;
  }

  /** None of the routines leaves a page behind: what is allocated and not in use stays the same. */
  lemma NoPageLost(s: State, t: State, r: nat, v: nat, n: nat, want: seq<(Page, nat)>)
    requires Dom(s) && Dom(t)
    requires Kept(s, t) || Grew(s, t, r, v, want) || Dropped(s, t, r, v, n) || AllFreed(s, t, r)
    ensures Held(t) == Held(s)
  {
  }

  /** The next page of a user page table is below MAXVA and not mapped. */
  lemma NextUserPage(s: State, r: nat, n: nat)
    requires Inv(s) && UserTable(s, r, n)
    ensures n < FRAMES && (r, n) !in s.maps && NoneMapped(s.maps, r, n, FRAMES - n)
  {
    hide Inv;
    UserBelowFrames(s, r, n);
  }

  /** PTE_R | PTE_U | xperm. */
  function UserPerm(xperm: nat): (perm: nat)
    requires xperm < 1024
    ensures perm < 1024
  {
    var withR := if xperm / 2 % 2 == 1 then xperm else xperm + 2;
    if withR / 16 % 2 == 1 then withR else withR + 16
  }

  ghost function Zeroed(n: nat, flags: nat): (want: seq<(Page, nat)>) {
    seq(n, _ => (ZEROS, flags))
  }

  /** uvmcreate(): a free page, zeroed, as a root. */
  ghost function Created(s: State): (t: State)
    requires s.free != []
  {
    SetOwn(SetPage(Alloced(s), s.free[0], ZEROS), s.free[0], Node(Root(s.free[0])))
  }

  lemma CreatedInv(s: State)
    requires Inv(s) && s.free != []
    ensures s.free[0] in s.own && s.free[0] > 0 && s.own[s.free[0]] == Free
    ensures Inv(Created(s)) && Kept(s, Created(s)) && IsNode(Created(s), s.free[0], Root(s.free[0]))
    ensures forall v: nat :: (s.free[0], v) !in s.maps
  {
    hide Inv;
    InvDom(s);
    FirstFree(s);
    AllocedInv(s);
    SetPageInv(Alloced(s), s.free[0], ZEROS);
    RootedInv(SetPage(Alloced(s), s.free[0], ZEROS), s.free[0]);
  }

  // ----- freeing a page table -----

  function Height(pos: Pos): (h: nat) {
    if pos.Root? then 2 else if pos.L1? then 1 else 0
  }

  ghost predicate Only(s: State, f: nat, pos: Pos) {
    forall x :: IsDoomed(s, x, pos) ==> x == f
  }

  /** The table pages at and below pos are free; nothing else has happened to any page. */
  ghost predicate FreedUnder(s: State, t: State, pos: Pos) {
    && t.own.Keys == s.own.Keys && t.maps == s.maps
    && (forall x :: x in s.own ==>
          t.own[x] == if s.own[x].Doomed? && Under(s.own[x].dpos, pos) then Free else s.own[x])
    && (forall x :: x in t.own && x in s.mem && x in t.mem && t.own[x] != Free ==> t.mem[x] == s.mem[x])
  }

  /** A table page strictly below pos, reached through one of its first k slots. */
  predicate Before(p: Pos, pos: Pos, k: nat) {
    match pos
    case Root(r) => !p.Root? && p.r == r && p.i < k
    case L1(r, i) => p.L0? && p.r == r && p.i == i && p.j < k
    case L0(_, _, _) => false
  }

  /** freewalk() has dealt with the first k slots of the table page f at pos. */
  ghost predicate Partly(s: State, t: State, f: nat, pos: Pos, k: nat) {
    && t.own.Keys == s.own.Keys && t.maps == s.maps
    && (forall x :: x in s.own ==>
          t.own[x] == if s.own[x].Doomed? && Before(s.own[x].dpos, pos, k) then Free else s.own[x])
    && (forall x :: x in t.own && x in s.mem && x in t.mem && t.own[x] != Free && x != f ==> t.mem[x] == s.mem[x])
    && f in s.mem && f in t.mem
    && (forall y :: k <= y < PTES ==> t.mem[f][y] == s.mem[f][y])
  }

  lemma PartlyRefl(s: State, f: nat, pos: Pos)
    requires f in s.mem
    ensures Partly(s, s, f, pos, 0)
  {
  }

  ghost predicate Root0(s: State, f: nat, pos: Pos) {
    Dom(s) && IsDoomed(s, f, pos) && DoomedTree(s, pos) && Only(s, f, pos)
  }

  lemma PartlyEntry(s: State, t: State, f: nat, pos: Pos, k: nat)
    requires Root0(s, f, pos) && Dom(t) && Partly(s, t, f, pos, k) && k < PTES
    ensures t.mem[f][k] == 0 ==> !IsValid(t.mem[f][k])
    ensures t.mem[f][k] != 0 ==>
              && !pos.L0? && IsValid(t.mem[f][k]) && !IsLeaf(t.mem[f][k])
              && IsDoomed(t, Ppn(t.mem[f][k]), Child(pos, k))
              && DoomedTree(t, Child(pos, k)) && Only(t, Ppn(t.mem[f][k]), Child(pos, k))
  {
    var e := t.mem[f][k];
    assert DoomedEntry(s, pos, k, e);
    if e != 0 {
      PteRoundTrip(Ppn(e), 1);
      assert IsDoomed(s, Ppn(e), Child(pos, k));
      assert !Before(Child(pos, k), pos, k);
      hide Flags, Ppn, Pte;
      SubTree(s, t, f, pos, k);
    }
  }

  /** A page below the next slot has not changed. */
  lemma BelowSlot(s: State, t: State, f: nat, pos: Pos, k: nat, x: nat, p: Pos)
    requires Root0(s, f, pos) && Dom(t) && Partly(s, t, f, pos, k) && !pos.L0? && Under(p, Child(pos, k))
    ensures IsDoomed(t, x, p) <==> IsDoomed(s, x, p)
    ensures IsDoomed(t, x, p) ==> x != f && t.mem[x] == s.mem[x] && Under(p, pos) && DoomedLink(s, x, p)
  {
    hide DoomedLink;
    assert !Before(p, pos, k) && p != pos;
  }

  lemma SubTreeLink(s: State, t: State, f: nat, pos: Pos, k: nat, x: nat, p: Pos)
    requires Root0(s, f, pos) && Dom(t) && Partly(s, t, f, pos, k) && k < PTES && !pos.L0?
    requires IsDoomed(t, x, p) && Under(p, Child(pos, k))
    ensures DoomedLink(t, x, p)
  {
    hide DoomedTree;
    BelowSlot(s, t, f, pos, k, x, p);
    assert DoomedLink(s, f, pos) by { SelfLink(s, f, pos); }
    if p.L0? && pos.Root? {
      forall z | IsDoomed(t, z, L1(p.r, p.i)) ensures t.mem[z][p.j] == Pte(x, 1) {
        BelowSlot(s, t, f, pos, k, z, L1(p.r, p.i));
      }
    }
  }

  lemma SelfLink(s: State, f: nat, pos: Pos)
    requires Root0(s, f, pos)
    ensures DoomedLink(s, f, pos)
  {
    assert Under(pos, pos);
  }

  lemma SubTree(s: State, t: State, f: nat, pos: Pos, k: nat)
    requires Root0(s, f, pos) && Dom(t) && Partly(s, t, f, pos, k) && k < PTES && !pos.L0?
    ensures DoomedTree(t, Child(pos, k))
    ensures forall x, y :: IsDoomed(t, x, Child(pos, k)) && IsDoomed(t, y, Child(pos, k)) ==> x == y
  {
    hide DoomedLink, Partly;
    forall x, p | IsDoomed(t, x, p) && Under(p, Child(pos, k))
      ensures DoomedLink(t, x, p)
      ensures forall y :: 0 <= y < PTES ==> DoomedEntry(t, p, y, t.mem[x][y])
    {
      SubTreeLink(s, t, f, pos, k, x, p);
      BelowSlot(s, t, f, pos, k, x, p);
      forall y | 0 <= y < PTES ensures DoomedEntry(t, p, y, t.mem[x][y]) {
        assert DoomedEntry(s, p, y, s.mem[x][y]);
        if s.mem[x][y] != 0 {
          BelowSlot(s, t, f, pos, k, Ppn(s.mem[x][y]), Child(p, y));
        }
      }
    }
    forall x, y | IsDoomed(t, x, Child(pos, k)) && IsDoomed(t, y, Child(pos, k)) ensures x == y {
      OneChild(s, t, f, pos, k, x);
      OneChild(s, t, f, pos, k, y);
    }
  }

  lemma OneChild(s: State, t: State, f: nat, pos: Pos, k: nat, x: nat)
    requires Root0(s, f, pos) && Dom(t) && Partly(s, t, f, pos, k) && k < PTES && !pos.L0?
             && IsDoomed(t, x, Child(pos, k))
    ensures s.mem[f][k] == Pte(x, 1)
  {
    BelowSlot(s, t, f, pos, k, x, Child(pos, k));
    SelfLink(s, f, pos);
  }

  lemma PartlyFreed(s: State, t: State, u: State, f: nat, pos: Pos, k: nat)
    requires Root0(s, f, pos) && Dom(t) && Dom(u) && Partly(s, t, f, pos, k) && k < PTES && !pos.L0?
    requires FreedUnder(t, u, Child(pos, k))
    ensures f in u.mem && f in u.own && u.own[f] == Doomed(pos)
    ensures Partly(s, SetWord(u, f, k, 0), f, pos, k + 1)
  {
  }

  lemma NoBranch(s: State, f: nat, pos: Pos, k: nat, x: nat, p: Pos)
    requires Root0(s, f, pos) && k < PTES && s.mem[f][k] == 0 && IsDoomed(s, x, p) && Before(p, pos, k + 1)
    ensures Before(p, pos, k)
  {
    SelfLink(s, f, pos);
    assert Under(p, pos) && DoomedLink(s, x, p);
  }

  lemma PartlyEmpty(s: State, t: State, f: nat, pos: Pos, k: nat)
    requires Root0(s, f, pos) && Dom(t) && Partly(s, t, f, pos, k) && k < PTES && t.mem[f][k] == 0
    ensures Partly(s, t, f, pos, k + 1)
  {
    hide DoomedTree, Only;
    forall x | x in s.own && s.own[x].Doomed? && Before(s.own[x].dpos, pos, k + 1)
      ensures Before(s.own[x].dpos, pos, k)
    {
      NoBranch(s, f, pos, k, x, s.own[x].dpos);
    }
  }

  lemma UnderBefore(s: State, f: nat, pos: Pos, x: nat, p: Pos)
    requires Root0(s, f, pos) && IsDoomed(s, x, p) && Under(p, pos)
    ensures x == f || Before(p, pos, PTES)
  {
    assert DoomedLink(s, x, p);
  }

  lemma PartlyDone(s: State, t: State, f: nat, pos: Pos)
    requires Root0(s, f, pos) && Dom(t) && Partly(s, t, f, pos, PTES)
    ensures FreedUnder(s, Released(SetOwn(t, f, Loose), f), pos)
  {
    hide DoomedTree, Only;
    forall x | x in s.own && s.own[x].Doomed? && Under(s.own[x].dpos, pos)
      ensures x == f || Before(s.own[x].dpos, pos, PTES)
    {
      UnderBefore(s, f, pos, x, s.own[x].dpos);
    }
    assert forall p :: Before(p, pos, PTES) ==> Under(p, pos);
    assert Under(pos, pos);
  }

  /** Every page that belonged to r is free; every other page is as it was. */
  ghost predicate AllFreed(s: State, t: State, r: nat) {
    && t.own.Keys == s.own.Keys
    && (forall x :: x in s.own ==>
          t.own[x] == if (s.own[x].Data? && s.own[x].r == r) || (s.own[x].Node? && s.own[x].pos.r == r) then Free
                      else s.own[x])
    && (forall x :: x in t.own && x in s.mem && x in t.mem && t.own[x] != Free && !t.own[x].Node? ==>
              t.mem[x] == s.mem[x])
  }

  /** Freeing one page table leaves the other user page tables alone. */
  lemma OtherFreed(s: State, t: State, r: nat, m: nat, q: nat, n: nat)
    requires UserTable(s, q, n) && q != r && AllFreed(s, t, r) && t.maps == Removed(s.maps, r, 0, m) && Dom(t)
    ensures UserTable(t, q, n)
  {
    hide Ppn, Flags;
    forall x | 0 <= x < n ensures CanUnmapPage(t, q, x, true) {
      assert CanUnmapPage(s, q, x, true);
      RemovedAt(s.maps, r, 0, m, (q, x));
    }
    forall key | key in t.maps && key.0 == q ensures key.1 < n || key.1 >= MAXVPN - 2 {
      RemovedAt(s.maps, r, 0, m, key);
    }
  }

  lemma EmptyTable(s: State, t: State, r: nat, n: nat)
    requires Inv(s) && Inv(t) && Dropped(s, t, r, 0, n) && t.maps == Removed(s.maps, r, 0, n) && IsNode(s, r, Root(r))
    requires forall key :: key in s.maps && key.0 == r ==> key.1 < n
    requires forall f :: f in s.own && s.own[f].Doomed? ==> s.own[f].dpos.r != r
    ensures (forall v: nat :: (r, v) !in t.maps) && IsNode(t, r, Root(r))
    ensures forall f :: f in t.own && t.own[f].Doomed? ==> t.own[f].dpos.r != r
  {
    hide NodeOk, FreeOk, MapOk, DataOk;
    forall v: nat ensures (r, v) !in t.maps {
      RemovedAt(s.maps, r, 0, n, (r, v));
    }
  }

  lemma DoomOnly(s: State, r: nat)
    requires Inv(s) && IsNode(s, r, Root(r)) && forall f :: f in s.own && s.own[f].Doomed? ==> s.own[f].dpos.r != r
    ensures Only(Doom(s, r), r, Root(r))
  {
    hide FreeOk, MapOk, DataOk, EntryOk;
    forall x | IsDoomed(Doom(s, r), x, Root(r)) ensures x == r {
      assert NodeOk(s, x);
    }
  }

  lemma AllPagesFreed(s: State, t: State, u: State, r: nat, n: nat)
    requires Inv(s) && Inv(t) && Dropped(s, t, r, 0, n) && FreedUnder(Doom(t, r), u, Root(r))
    requires forall key :: key in s.maps && key.0 == r ==> key.1 < n
    requires forall f :: f in s.own && s.own[f].Doomed? ==> s.own[f].dpos.r != r
    ensures AllFreed(s, u, r) && u.maps == t.maps
  {
    hide FreeOk, MapOk, NodeOk, Ppn;
    assert forall x :: x in s.own ==> DataOk(s, x);
    assert t.mem.Keys == t.own.Keys;
  }

  /** Before anything is freed or mapped. */
  lemma BootInv(s: State)
    requires Dom(s) && s.free == [] && s.maps == map[] && forall f :: f in s.own ==> s.own[f] == Loose
    ensures Inv(s)
  {
  }

  class Memory {
    var mem: map<nat, Page>
    var freelist: nat
    ghost var free: seq<nat>
    ghost var own: map<nat, Owner>
    ghost var maps: map<(nat, nat), nat>

    ghost function Model(): (s: State)
      reads this
    {
      State(mem, free, own, maps)
    }

    ghost predicate Valid()
      reads this
    {
      Inv(Model()) && freelist == Link(free, 0)
    }

    /** kinit(): every whole page between end and PHYSTOP is free. */
    constructor (pages: map<nat, Page>, end: nat)
      requires 0 < end && forall f: nat :: f in pages <==> Pages(end) <= f < FRAMES
      ensures Valid() && maps == map[] && own.Keys == pages.Keys && forall f :: f in own ==> own[f] == Free
    {
      hide Inv;
      mem, freelist, free := pages, 0, [];
      own := map f | f in pages :: Loose;
      maps := map[];
      new;
      BootInv(Model());
      FreeRange(end);
    }

    /** freerange(), up to PHYSTOP. */
    method FreeRange(start: nat)
      requires Valid() && forall f: nat :: f in own <==> Pages(start) <= f < FRAMES
      requires forall f :: f in own ==> own[f] == Loose
      modifies this
      ensures Valid() && maps == old(maps) && own.Keys == old(own).Keys && forall f :: f in own ==> own[f] == Free
    {
      hide Inv, Pages;
      var p := Pages(start) * PGSIZE;
      ghost var first := Pages(start);
      assert p / PGSIZE == first;
      while p + PGSIZE <= FRAMES * PGSIZE
        invariant p % PGSIZE == 0 && first <= p / PGSIZE
        invariant Valid() && maps == old(maps) && own.Keys == old(own).Keys
        invariant forall f :: f in own ==> own[f] == if f < p / PGSIZE then Free else Loose
      {
        Kfree(p);
        p := p + PGSIZE;
      }
    }

    /** kalloc(): 0 if and only if no page is free. */
    method Kalloc() returns (pa: nat)
      requires Valid()
      modifies this
      ensures Valid()
      ensures if old(free) == [] then pa == 0 && Model() == old(Model())
              else pa == old(free)[0] * PGSIZE && pa != 0 && Model() == Alloced(old(Model()))
    {
      pa := freelist;
      if pa != 0 {
        var f := pa / PGSIZE;
        AllocedInv(Model());
        assert free != [] && f == free[0] && f in own;
        freelist := mem[f][0];
        mem := mem[f := Fill(0x0505_0505_0505_0505)];
        free, own := free[1..], own[f := Loose];
      }
    }

    /** kfree(), of a page that its caller has allocated. */
    method Kfree(pa: nat)
      requires Valid() && pa % PGSIZE == 0 && pa / PGSIZE in own && own[pa / PGSIZE] == Loose
      modifies this
      ensures Valid() && Model() == Released(old(Model()), pa / PGSIZE)
    {
      var f := pa / PGSIZE;
      ReleasedInv(Model(), f);
      mem := mem[f := Fill(0x0101_0101_0101_0101)[0 := freelist]];
      freelist := pa;
      free, own := [f] + free, own[f := Free];
    }

    /** memset() or memmove() of a whole allocated page. */
    method Store(pa: nat, page: Page)
      requires Valid() && pa % PGSIZE == 0 && pa / PGSIZE in own && own[pa / PGSIZE] == Loose
      modifies this
      ensures Valid() && Model() == SetPage(old(Model()), pa / PGSIZE, page)
    {
      SetPageInv(Model(), pa / PGSIZE, page);
      mem := mem[pa / PGSIZE := page];
    }

    /** One level of walk(): the next table page, allocated and linked if asked for. */
    method Descend(table: nat, k: nat, alloc: bool, ghost pos: Pos) returns (next: nat, ok: bool)
      requires Valid() && IsNode(Model(), table, pos) && !pos.L0? && k < PTES && (pos.Root? ==> k < 256)
      modifies this
      ensures Valid() && Kept(old(Model()), Model())
      ensures !alloc ==> Model() == old(Model())
      ensures ok ==> IsNode(Model(), next, Child(pos, k))
      ensures !ok ==> if alloc then free == [] else mem[table][k] == 0
      ensures IsNode(Model(), table, pos)
      ensures Laid(Tables(old(own)), Tables(own), {Child(pos, k)}, ok)
    {
      hide Inv, Kept, Tables;
      ghost var s := Model();
      EntryFacts(s, table, k, pos);
      KeptRefl(s);
      var pte := mem[table][k];
      if IsValid(pte) {
        Placed(s, Ppn(pte), Child(pos, k));
        return Ppn(pte), true;
      }
      NotPlaced(s, table, k, pos);
      if !alloc {
        return 0, false;
      }
      var pa := Kalloc();
      if pa == 0 {
        return 0, false;
      }
      FirstFree(s);
      GrownInv(s, table, k, pos);
      Store(pa, ZEROS);
      var g := pa / PGSIZE;
      mem := mem[table := mem[table][k := Pte(g, 1)]];
      own := own[g := Node(Child(pos, k))];
      assert Model() == Grown(s, table, k, pos);
      assert own == s.own[g := Node(Child(pos, k))];
      OneMorePlace(s.own, g, Child(pos, k));
      return g, true;
    }

    /** walk(): the level-0 slot for va. */
    method Walk(r: nat, va: nat, alloc: bool) returns (f: nat, k: nat, ok: bool)
      requires Valid() && IsNode(Model(), r, Root(r)) && va < MAXVA
      modifies this
      ensures Valid() && Kept(old(Model()), Model())
      ensures !alloc ==> Model() == old(Model())
      ensures ok ==> IsSlot(Model(), f, k, r, va / PGSIZE)
      ensures !ok ==> if alloc then free == [] else !HasSlot(Model(), r, va / PGSIZE)
      ensures Laid(Tables(old(own)), Tables(own), Path(r, va / PGSIZE), ok)
    {
      hide Inv, KeptPages, PX, Tables;
      IndicesOfPage(va);
      VpnOf(va / PGSIZE);
      var table, level := r, 2;
      KeptRefl(Model());
      while level > 0
        invariant 0 <= level <= 2 && Valid() && Kept(old(Model()), Model())
        invariant !alloc ==> Model() == old(Model())
        invariant IsNode(Model(), table, PosAt(level, r, va))
        invariant Laid(Tables(old(own)), Tables(own), PathTo(level, r, va), true)
      {
        ghost var s := Model();
        f, ok := Descend(table, PX(level, va), alloc, PosAt(level, r, va));
        InvDom(s);
        KeptTrans(old(Model()), s, Model());
        if !ok {
          if !alloc {
            NoSlotAt(s, r, va, level, table);
          }
          return f, 0, false;
        }
        table := f;
        level := level - 1;
      }
      return table, PX(0, va), true;
    }

    /** One round of mappages(). */
    method MapOne(r: nat, va: nat, pa: nat, perm: nat) returns (ok: bool)
      requires Valid() && IsNode(Model(), r, Root(r)) && va < MAXVA && perm < 1024
      requires (r, va / PGSIZE) !in maps
      modifies this
      ensures Valid() && KeptPages(old(Model()), Model()) && IsNode(Model(), r, Root(r))
      ensures !ok ==> maps == old(maps) && free == []
      ensures ok ==> maps == old(maps)[(r, va / PGSIZE) := Pte(pa / PGSIZE, WithV(perm))]
      ensures Laid(Tables(old(own)), Tables(own), Path(r, va / PGSIZE), ok)
    {
      hide Inv, KeptPages, IsValid, Tables, Path, Laid;
      ghost var s := Model();
      InvDom(s);
      var f, k;
      f, k, ok := Walk(r, va, true);
      NodeKept(s, Model(), r);
      if ok {
        ghost var t := Model();
        InvDom(t);
        var e := Pte(pa / PGSIZE, WithV(perm));
        WithVValid(pa / PGSIZE, perm);
        MappedInv(t, f, k, r, va / PGSIZE, e);
        KeptTrans(s, t, Mapped(t, f, k, r, va / PGSIZE, e));
        mem := mem[f := mem[f][k := e]];
        maps := maps[(r, va / PGSIZE) := e];
        assert Model() == Mapped(t, f, k, r, va / PGSIZE, e);
        NodeKept(s, Model(), r);
      }
    }

    /**
     mappages(), of pages that are not mapped: on success it inserts exactly those pages; on
     failure the first m of them, and no page is free.
     */
    method MapPages(r: nat, va: nat, size: nat, pa: nat, perm: nat) returns (ok: bool, ghost m: nat)
      requires Valid() && IsNode(Model(), r, Root(r)) && perm < 1024
      requires va % PGSIZE == 0 && size % PGSIZE == 0 && size > 0 && va + size <= MAXVA && pa % PGSIZE == 0
      requires NoneMapped(maps, r, va / PGSIZE, size / PGSIZE)
      modifies this
      ensures Valid() && KeptPages(old(Model()), Model()) && IsNode(Model(), r, Root(r))
      ensures ok ==> maps == Inserted(old(maps), r, va / PGSIZE, pa / PGSIZE, size / PGSIZE, WithV(perm))
      ensures !ok ==> m < size / PGSIZE && free == []
                      && maps == Inserted(old(maps), r, va / PGSIZE, pa / PGSIZE, m, WithV(perm))
      ensures Laid(Tables(old(own)), Tables(own), Paths(r, va / PGSIZE, size / PGSIZE), ok)
    {
      hide Inv, KeptPages, InPages, Tables, Path, Paths, Laid;
      var a, last, p := va, va + size - PGSIZE, pa;
      m := 0;
      KeptRefl(Model());
      LaidNone(Tables(own), r, va / PGSIZE);
      while true
        invariant Valid() && KeptPages(old(Model()), Model()) && IsNode(Model(), r, Root(r))
        invariant m < size / PGSIZE && a == va + m * PGSIZE && p == pa + m * PGSIZE && a <= last
        invariant maps == Inserted(old(maps), r, va / PGSIZE, pa / PGSIZE, m, WithV(perm))
        invariant Laid(Tables(old(own)), Tables(own), Paths(r, va / PGSIZE, m), true)
        decreases last - a
      {
        ghost var s := Model();
        InvDom(s);
        NotYetMapped(old(maps), r, va, pa, size, m, WithV(perm));
        ok := MapOne(r, a, p, perm);
        KeptTrans(old(Model()), s, Model());
        assert a / PGSIZE == va / PGSIZE + m;
        LaidMore(Tables(old(own)), Tables(s.own), Tables(own), r, va / PGSIZE, m, size / PGSIZE, ok);
        if !ok {
          return;
        }
        m := m + 1;
        if a == last {
          return;
        }
        a, p := a + PGSIZE, p + PGSIZE;
      }
    }

    /** One round of uvmunmap(). */
    method UnmapOne(r: nat, va: nat, doFree: bool)
      requires Valid() && IsNode(Model(), r, Root(r)) && va < MAXVA && CanUnmapPage(Model(), r, va / PGSIZE, doFree)
      modifies this
      ensures Valid() && Dropped(old(Model()), Model(), r, va / PGSIZE, if doFree then 1 else 0)
      ensures maps == old(maps) - {(r, va / PGSIZE)} && IsNode(Model(), r, Root(r))
    {
      hide Inv, Dropped, MapOk;
      ghost var s, v := Model(), va / PGSIZE;
      var f, k, ok := Walk(r, va, false);
      assert ok by { MappedHasSlot(s, r, v); }
      SlotEntry(s, f, k, r, v);
      if doFree {
        var pte := mem[f][k];
        UnmapFreedInv(s, f, k, r, v);
        own := own[Ppn(pte) := Loose];
        Kfree(Ppn(pte) * PGSIZE);
        assert Ppn(pte) * PGSIZE / PGSIZE == Ppn(pte);
        mem := mem[f := mem[f][k := 0]];
        maps := maps - {(r, v)};
        assert Model() == UnmapFreed(s, f, k, r, v, Ppn(pte));
      } else {
        UnmapKeptInv(s, f, k, r, v);
        mem := mem[f := mem[f][k := 0]];
        maps := maps - {(r, v)};
        assert Model() == Unmapped(s, f, k, r, v);
      }
      RootStays(s, Model(), r, v, if doFree then 1 else 0);
    }

    /** uvmunmap(): removes exactly those mappings and, if asked, frees exactly their pages. */
    method UvmUnmap(r: nat, va: nat, npages: nat, doFree: bool)
      requires Valid() && IsNode(Model(), r, Root(r)) && va % PGSIZE == 0
      requires CanUnmap(Model(), r, va / PGSIZE, npages, doFree)
      modifies this
      ensures Valid() && Dropped(old(Model()), Model(), r, va / PGSIZE, if doFree then npages else 0)
      ensures maps == Removed(old(maps), r, va / PGSIZE, npages) && IsNode(Model(), r, Root(r))
    {
      hide Inv, Dropped, CanUnmapPage;
      var a := va;
      ghost var m, v := 0, va / PGSIZE;
      DroppedRefl(Model(), r, v);
      while a < va + npages * PGSIZE
        invariant Valid() && m <= npages && a == va + m * PGSIZE && IsNode(Model(), r, Root(r))
        invariant Dropped(old(Model()), Model(), r, v, if doFree then m else 0)
        invariant maps == Removed(old(maps), r, v, m)
      {
        ghost var s := Model();
        CanUnmapRest(old(Model()), s, r, v, npages, if doFree then m else 0, m, doFree);
        assert a / PGSIZE == v + m;
        MappedBelow(s, r, v + m, doFree);
        UnmapOne(r, a, doFree);
        InvDom(s);
        InvDom(old(Model()));
        if doFree {
          DroppedTrans(old(Model()), s, Model(), r, v, m);
        } else {
          DroppedNothing(old(Model()), s, Model(), r, v, v + m);
        }
        m := m + 1;
        a := a + PGSIZE;
      }
    }

    /** kalloc(), fill and mappages() of one user page; on failure whatever was allocated is freed again. */
    method AddPage(r: nat, va: nat, page: Page, perm: nat) returns (ok: bool)
      requires Valid() && IsNode(Model(), r, Root(r)) && va % PGSIZE == 0 && va < MAXVA && perm < 1024
      requires (r, va / PGSIZE) !in maps
      modifies this
      ensures Valid()
      ensures ok ==> Grew(old(Model()), Model(), r, va / PGSIZE, [(page, WithV(perm))])
      ensures !ok ==> Kept(old(Model()), Model())
      ensures ok ==> Tables(own) == Tables(old(own)) + Path(r, va / PGSIZE)
      ensures ok ==> |free| + 1 + |Tables(own)| == |old(free)| + |Tables(old(own))|
      ensures !ok ==> |old(free)| + |Tables(old(own))| < 1 + |Tables(old(own)) + Path(r, va / PGSIZE)|
    {
      hide Inv, KeptPages, Kept, Grew, Pte, Tables, Path, Paths, Laid;
      ghost var s, v := Model(), va / PGSIZE;
      var pa := Kalloc();
      if pa == 0 {
        KeptRefl(s);
        SmallerSet(Tables(s.own), Tables(s.own) + Path(r, v));
        return false;
      }
      var f := pa / PGSIZE;
      FirstFree(s);
      Store(pa, page);
      ghost var t := Model();
      assert t == SetPage(Alloced(s), f, page);
      assert IsNode(t, r, Root(r)) && NoneMapped(t.maps, r, v, 1);
      ghost var m;
      ok, m := MapPages(r, va, PGSIZE, pa, perm);
      ghost var u := Model();
      AddedCount(s, t, u, r, v, page, ok);
      if !ok {
        assert Kept(t, u) by { assert u.maps == t.maps; JustKept(t, u); }
        AbandonedPage(s, t, u, page);
        Kfree(pa);
        return;
      }
      assert u.maps == Inserted(t.maps, r, v, f, 1, WithV(perm)) == t.maps[(r, v) := Pte(f, WithV(perm))];
      WithVValid(f, perm);
      AddedPage(s, t, u, r, v, page, WithV(perm));
      SamePlaces(own, f, Data(r, v));
      own := own[f := Data(r, v)];
      assert Model() == SetOwn(u, f, Data(r, v));
    }

    /** uvmdealloc(), of user memory: frees exactly the pages beyond the new size. */
    method UvmDealloc(r: nat, oldsz: nat, newsz: nat) returns (sz: nat)
      requires Valid() && IsNode(Model(), r, Root(r))
      requires newsz < oldsz ==> CanUnmap(Model(), r, Pages(newsz), Pages(oldsz) - Pages(newsz), true)
      modifies this
      ensures Valid() && IsNode(Model(), r, Root(r))
      ensures newsz >= oldsz ==> sz == oldsz && Model() == old(Model())
      ensures newsz < oldsz ==>
                sz == newsz && Dropped(old(Model()), Model(), r, Pages(newsz), Pages(oldsz) - Pages(newsz))
                                && maps == Removed(old(maps), r, Pages(newsz), Pages(oldsz) - Pages(newsz))
      ensures UserTable(old(Model()), r, Pages(oldsz)) ==> UserTable(Model(), r, Pages(sz))
    {
      hide Inv, Dropped, CanUnmap, Pages, UserTable, Removed;
      if newsz >= oldsz {
        return oldsz;
      }
      ghost var s := Model();
      PagesMono(newsz, oldsz);
      var from, to := Pages(newsz), Pages(oldsz);
      DroppedRefl(Model(), r, from);
      if from * PGSIZE < to * PGSIZE {
        var npages := (to * PGSIZE - from * PGSIZE) / PGSIZE;
        assert npages == to - from && from * PGSIZE / PGSIZE == from;
        UvmUnmap(r, from * PGSIZE, npages, true);
      } else {
        RemovedNone(maps, r, from);
      }
      InvDom(Model());
      if UserTable(s, r, to) {
        UserTableDropped(s, Model(), r, to, from);
      }
      return newsz;
    }

    /**
     uvmalloc() of any size: success adds zeroed pages up to the new size; failure leaves every
     mapping and every page as it was, but for table pages.
     */
    method UvmAlloc(r: nat, oldsz: nat, newsz: nat, xperm: nat) returns (sz: nat, ghost ok: bool)
      requires Valid() && UserTable(Model(), r, Pages(oldsz)) && xperm < 1024
      modifies this
      ensures Valid()
      ensures newsz < oldsz ==> ok && sz == oldsz && Model() == old(Model())
      ensures newsz >= oldsz && ok ==>
                && sz == newsz && UserTable(Model(), r, Pages(newsz))
                && Grew(old(Model()), Model(), r, Pages(oldsz),
                        Zeroed(Pages(newsz) - Pages(oldsz), WithV(UserPerm(xperm))))
      ensures !ok ==> sz == 0 && Kept(old(Model()), Model()) && UserTable(Model(), r, Pages(oldsz))
      ensures newsz >= oldsz ==>
                && Pages(oldsz) <= Pages(newsz)
                && (ok <==> Needs(old(Model()), r, Pages(oldsz), Pages(newsz) - Pages(oldsz)) <= |old(free)|)
    {
      hide Inv, KeptPages, Kept, Grew, Dropped, UserTable, WithV, UserPerm, Pages, NoneMapped, CanUnmap, Removed;
      hide Tables, Path, Paths;
      if newsz < oldsz {
        return oldsz, true;
      }
      ghost var s, v, m, flags := Model(), Pages(oldsz), 0, WithV(UserPerm(xperm));
      var start := Pages(oldsz) * PGSIZE;
      var a := start;
      GrewRefl(s, r, v);
      assert Zeroed(0, flags) == [];
      NextUserPage(s, r, v);
      PagesMono(oldsz, newsz);
      TakenNone(s, r, v);
      while a < newsz
        invariant Valid() && a == (v + m) * PGSIZE && v + m <= Pages(newsz)
        invariant UserTable(Model(), r, v + m) && Grew(s, Model(), r, v, Zeroed(m, flags))
        invariant Taken(s, Model(), r, v, m)
        decreases newsz - a
      {
        ghost var t := Model();
        NextUserPage(t, r, v + m);
        UserRoot(t, r, v + m);
        PageFits(v + m, newsz);
        assert a / PGSIZE == v + m;
        var added := AddPage(r, a, ZEROS, UserPerm(xperm));
        InvDom(s);
        InvDom(t);
        InvDom(Model());
        TakenMore(s, t, Model(), r, v, m, Pages(newsz) - v, added);
        if !added {
          GrewKept(s, t, Model(), r, v, Zeroed(m, flags));
          UserTableKept(t, Model(), r, v + m);
          UserRoot(Model(), r, v + m);
          ghost var u := Model();
          WholePages(v);
          WholePages(v + m);
          UserLeaf(xperm);
          GrewCanUnmap(s, u, r, v, Zeroed(m, flags));
          DroppedRefl(u, r, v);
          var back := UvmDealloc(r, a, start);
          NoneMappedLess(s.maps, r, v, FRAMES - v, m);
          assert Removed(u.maps, r, v, 0) == u.maps by { RemovedNone(u.maps, r, v); }
          GrewUndone(s, u, Model(), r, v, Zeroed(m, flags));
          InvDom(Model());
          UserTableKept(s, Model(), r, v);
          return 0, false;
        }
        GrewTrans(s, t, Model(), r, v, Zeroed(m, flags), (ZEROS, flags));
        assert Zeroed(m, flags) + [(ZEROS, flags)] == Zeroed(m + 1, flags);
        UserLeaf(xperm);
        UserTableGrew(t, Model(), r, v + m, [(ZEROS, flags)]);
        m := m + 1;
        a := a + PGSIZE;
      }
      PageFits(v + m, newsz);
      return newsz, true;
    }

    /**
     uvmcopy(): success gives the new page table a copy of every page, with the same flags;
     failure leaves every mapping and every page as it was, but for table pages.
     */
    method UvmCopy(from: nat, to: nat, sz: nat) returns (ok: bool)
      requires Valid() && CanUnmap(Model(), from, 0, Pages(sz), true) && from != to
      requires IsNode(Model(), from, Root(from)) && IsNode(Model(), to, Root(to)) && NoneMapped(maps, to, 0, Pages(sz))
      modifies this
      ensures Valid()
      ensures ok ==> Grew(old(Model()), Model(), to, 0, Copies(old(Model()), from, Pages(sz)))
      ensures !ok ==> Kept(old(Model()), Model())
      ensures ok <==> Needs(old(Model()), to, 0, Pages(sz)) <= |old(free)|
      ensures ok && UserTable(old(Model()), to, 0) ==> UserTable(Model(), to, Pages(sz))
      ensures ok && UserTable(old(Model()), from, Pages(sz)) ==> UserTable(Model(), from, Pages(sz))
    {
      hide Inv, KeptPages, Kept, Grew, Dropped, Pages, NoneMapped, CanUnmap, Removed, CanUnmapPage, Ppn, Flags;
      hide Tables, Path, Paths, UserTable;
      ghost var s, n, m := Model(), Pages(sz), 0;
      ghost var want := Copies(s, from, n);
      var i := 0;
      GrewRefl(s, to, 0);
      TakenNone(s, to, 0);
      assert want[..0] == [];
      while i < sz
        invariant Valid() && i == m * PGSIZE && m <= n && IsNode(Model(), to, Root(to))
                  && IsNode(Model(), from, Root(from))
        invariant Grew(s, Model(), to, 0, want[..m]) && Taken(s, Model(), to, 0, m)
        decreases sz - i
      {
        ghost var t := Model();
        PageFits(m, sz);
        CopySource(s, t, from, to, n, m);
        var f, k, found := Walk(from, i, false);
        assert i / PGSIZE == m;
        MappedHasSlot(t, from, m);
        SlotEntry(t, f, k, from, m);
        var pte := mem[f][k];
        var flags := Flags(pte);
        FlagsBelow(pte);
        var added := AddPage(to, i, mem[Ppn(pte)], flags);
        InvDom(s);
        InvDom(t);
        InvDom(Model());
        TakenMore(s, t, Model(), to, 0, m, n, added);
        if !added {
          ghost var u := Model();
          GrewKept(s, t, u, to, 0, want[..m]);
          GrewNode(s, u, to, 0, want[..m], to);
          CopiesLeaf(s, from, n);
          GrewCanUnmap(s, u, to, 0, want[..m]);
          UvmUnmap(to, 0, i / PGSIZE, true);
          NoneMappedLess(s.maps, to, 0, n, m);
          GrewUndone(s, u, Model(), to, 0, want[..m]);
          return false;
        }
        GrewTrans(s, t, Model(), to, 0, want[..m], want[m]);
        assert want[..m] + [want[m]] == want[..m + 1];
        GrewNode(s, Model(), to, 0, want[..m + 1], to);
        GrewNode(s, Model(), to, 0, want[..m + 1], from);
        m := m + 1;
        i := i + PGSIZE;
      }
      PageFits(m, sz);
      assert want[..m] == want;
      CopiedTables(s, Model(), from, to, n);
      return true;
    }

    /** walkaddr(): the page that user code may reach at va, or 0. */
    method WalkAddr(r: nat, va: nat) returns (pa: nat)
      requires Valid() && IsNode(Model(), r, Root(r))
      modifies this
      ensures Valid() && Model() == old(Model())
      ensures pa == if va < MAXVA && (r, va / PGSIZE) in maps && IsUser(maps[(r, va / PGSIZE)])
                    then Ppn(maps[(r, va / PGSIZE)]) * PGSIZE else 0
    {
      hide Inv, HasSlot, IsUser, IsValid, Ppn;
      if va >= MAXVA {
        return 0;
      }
      var f, k, ok := Walk(r, va, false);
      if !ok {
        assert (r, va / PGSIZE) !in maps by { NotMapped(Model(), r, va / PGSIZE); }
        return 0;
      }
      SlotEntry(Model(), f, k, r, va / PGSIZE);
      var pte := mem[f][k];
      if !IsValid(pte) {
        if (r, va / PGSIZE) in maps {
          MappedValid(Model(), r, va / PGSIZE);
        }
        return 0;
      }
      assert pte != 0 by { ValidNotZero(pte); }
      if !IsUser(pte) {
        return 0;
      }
      return Ppn(pte) * PGSIZE;
    }

    /** uvmclear(): clears PTE_U of exactly that mapping. */
    method UvmClear(r: nat, va: nat)
      requires Valid() && IsNode(Model(), r, Root(r)) && va < MAXVA && HasSlot(Model(), r, va / PGSIZE)
      modifies this
      ensures Valid() && own == old(own) && free == old(free)
      ensures maps == if (r, va / PGSIZE) in old(maps)
                      then old(maps)[(r, va / PGSIZE) := WithoutU(old(maps)[(r, va / PGSIZE)])] else old(maps)
      ensures forall f :: f in own && !own[f].Node? ==> f in mem && f in old(mem) && mem[f] == old(mem)[f]
    {
      hide Inv, HasSlot, WithoutU;
      ghost var s, v := Model(), va / PGSIZE;
      var f, k, ok := Walk(r, va, false);
      SlotEntry(s, f, k, r, v);
      InvDom(s);
      ClearedInv(s, f, k, r, v);
      mem := mem[f := mem[f][k := WithoutU(mem[f][k])]];
      if (r, v) in maps {
        maps := maps[(r, v) := WithoutU(maps[(r, v)])];
        assert Model() == Mapped(s, f, k, r, v, WithoutU(s.maps[(r, v)]));
      } else {
        assert WithoutU(0) == 0 by { ZeroStays(); }
        assert s.mem[f][k := 0] == s.mem[f];
        assert Model() == s;
      }
    }

    /** uvmcreate(): 0 if no page is free; else the root of an empty page table. */
    method UvmCreate() returns (pa: nat)
      requires Valid()
      modifies this
      ensures Valid()
      ensures if old(free) == [] then pa == 0 && Model() == old(Model())
              else pa == old(free)[0] * PGSIZE && pa != 0 && IsNode(Model(), pa / PGSIZE, Root(pa / PGSIZE))
                   && Kept(old(Model()), Model()) && UserTable(Model(), pa / PGSIZE, 0)
                   && forall v: nat :: (pa / PGSIZE, v) !in maps
    {
      hide Inv, Kept;
      ghost var s := Model();
      pa := Kalloc();
      if pa != 0 {
        CreatedInv(s);
        Store(pa, ZEROS);
        own := own[pa / PGSIZE := Node(Root(pa / PGSIZE))];
        assert Model() == Created(s);
      }
    }

    /** freewalk(): every page of a page table without mappings is freed, and no other. */
    method FreeWalk(f: nat, ghost pos: Pos)
      requires Valid() && IsDoomed(Model(), f, pos) && DoomedTree(Model(), pos) && Only(Model(), f, pos)
      modifies this
      ensures Valid() && FreedUnder(old(Model()), Model(), pos)
      decreases Height(pos)
    {
      hide Inv, DoomedTree, Partly, FreedUnder, Only;
      ghost var s := Model();
      InvDom(s);
      PartlyRefl(s, f, pos);
      for i := 0 to PTES
        invariant Valid() && Partly(s, Model(), f, pos, i) && f in mem && f in own && own[f] == Doomed(pos)
      {
        ghost var t := Model();
        InvDom(t);
        PartlyEntry(s, t, f, pos, i);
        var pte := mem[f][i];
        if IsValid(pte) && !IsLeaf(pte) {
          var child := Ppn(pte);
          FreeWalk(child, Child(pos, i));
          ghost var u := Model();
          InvDom(u);
          PartlyFreed(s, t, u, f, pos, i);
          SetPageInv(u, f, u.mem[f][i := 0]);
          mem := mem[f := mem[f][i := 0]];
          assert Model() == SetWord(u, f, i, 0);
        } else {
          PartlyEmpty(s, t, f, pos, i);
        }
      }
      ghost var t := Model();
      InvDom(t);
      SetOwnInv(t, f, Loose);
      own := own[f := Loose];
      Kfree(f * PGSIZE);
      assert f * PGSIZE / PGSIZE == f;
      PartlyDone(s, t, f, pos);
    }

    /** uvmfree(), of a page table that maps exactly its first Pages(sz) pages: every page of it is freed. */
    method UvmFree(r: nat, sz: nat)
      requires Valid() && IsNode(Model(), r, Root(r)) && CanUnmap(Model(), r, 0, Pages(sz), true)
      requires forall key :: key in maps && key.0 == r ==> key.1 < Pages(sz)
      requires forall f :: f in own && own[f].Doomed? ==> own[f].dpos.r != r
      modifies this
      ensures Valid() && maps == Removed(old(maps), r, 0, Pages(sz)) && AllFreed(old(Model()), Model(), r)
    {
      hide Inv, Dropped, FreedUnder, DoomedTree, Pages, CanUnmap, Removed;
      ghost var s := Model();
      DroppedRefl(s, r, 0);
      RemovedNone(s.maps, r, 0);
      PageFits(0, sz);
      if sz > 0 {
        UvmUnmap(r, 0, Pages(sz), true);
      }
      ghost var t := Model();
      EmptyTable(s, t, r, Pages(sz));
      DoomInv(t, r);
      DoomTree(t, r);
      own := Doom(t, r).own;
      assert Model() == Doom(t, r);
      DoomOnly(t, r);
      FreeWalk(r, Root(r));
      AllPagesFreed(s, t, Model(), r, Pages(sz));
    }
  }

  /** The pages and flags that uvmcopy() copies. */
  ghost function Copies(s: State, r: nat, n: nat): (want: seq<(Page, nat)>) {
    seq(n, x requires 0 <= x < n => Copied(s, r, x))
  }

  ghost function Copied(s: State, r: nat, x: nat): (want: (Page, nat)) {
    if (r, x) in s.maps && Ppn(s.maps[(r, x)]) in s.mem
    then (s.mem[Ppn(s.maps[(r, x)])], Flags(s.maps[(r, x)]))
    else (ZEROS, 0)
  }

  lemma CopiesLeaf(s: State, r: nat, n: nat)
    requires CanUnmap(s, r, 0, n, true) && Dom(s)
    ensures forall x :: 0 <= x < n ==> Copies(s, r, n)[x].1 != 1
  {
    hide Flags, Ppn;
    forall x | 0 <= x < n ensures Copies(s, r, n)[x].1 != 1 {
      assert CanUnmapPage(s, r, x, true);
    }
  }

  lemma CopiedTables(s: State, t: State, from: nat, to: nat, n: nat)
    requires Inv(s) && Inv(t) && CanUnmap(s, from, 0, n, true) && from != to && Grew(s, t, to, 0, Copies(s, from, n))
    ensures UserTable(s, to, 0) ==> UserTable(t, to, n)
    ensures UserTable(s, from, n) ==> UserTable(t, from, n)
  {
    hide Inv, UserTable, Grew, Ppn, Flags, CanUnmap;
    InvDom(s);
    InvDom(t);
    if UserTable(s, to, 0) {
      CopiesLeaf(s, from, n);
      UserTableGrew(s, t, to, 0, Copies(s, from, n));
    }
    if UserTable(s, from, n) {
      OtherGrew(s, t, to, 0, Copies(s, from, n), from, n);
    }
  }

  /** While the copy grows, the page to be copied is still where it was. */
  lemma CopySource(s: State, t: State, from: nat, to: nat, n: nat, m: nat)
    requires CanUnmap(s, from, 0, n, true) && Inv(s) && Inv(t) && from != to && m < n && NoneMapped(s.maps, to, 0, n)
    requires Grew(s, t, to, 0, Copies(s, from, n)[..m])
    ensures m < MAXVPN && (from, m) in t.maps && (to, m) !in t.maps && Ppn(t.maps[(from, m)]) in t.mem
    ensures Copies(s, from, n)[m] == (t.mem[Ppn(t.maps[(from, m)])], WithV(Flags(t.maps[(from, m)])))
  {
    hide Flags, Ppn, NodeOk, FreeOk, MapOk, DataOk;
    assert CanUnmapPage(s, from, m, true);
    assert !InPages((from, m), to, 0, m) && !InPages((to, m), to, 0, m) && InPages((to, m), to, 0, n);
    MappedHasSlot(s, from, m);
    assert WithV(Flags(s.maps[(from, m)])) == Flags(s.maps[(from, m)]) by {
      MappedValid(s, from, m);
      FlagsValid(s.maps[(from, m)]);
    }
  }

  lemma MappedValid(s: State, r: nat, v: nat)
    requires Inv(s) && (r, v) in s.maps
    ensures IsValid(s.maps[(r, v)])
  {
    hide FreeOk, DataOk, PosOk, IsValid;
    MappedHasSlot(s, r, v);
    var f := Ppn(s.mem[Ppn(s.mem[r][v / 0x4_0000])][v / PTES % PTES]);
    SlotEntry(s, f, v % PTES, r, v);
    VpnOf(v);
    assert NodeOk(s, f) && EntryOk(s, s.own[f].pos, v % PTES, s.mem[f][v % PTES]);
  }

  lemma FlagsValid(e: nat)
    requires IsValid(e)
    ensures WithV(Flags(e)) == Flags(e)
  {
  }

  lemma FlagsBelow(e: nat)
    ensures Flags(e) < 1024
  {
  }

  lemma GrewNode(s: State, t: State, r: nat, v: nat, want: seq<(Page, nat)>, x: nat)
    requires Grew(s, t, r, v, want) && IsNode(s, x, Root(x)) && Dom(t)
    ensures IsNode(t, x, Root(x))
  {
  }

  lemma NotMapped(s: State, r: nat, v: nat)
    requires Inv(s) && !HasSlot(s, r, v)
    ensures (r, v) !in s.maps
  {
    hide NodeOk, FreeOk, DataOk, HasSlot;
    assert MapOk(s, r, v);
  }

  lemma ZeroStays()
    ensures WithoutU(0) == 0
  {
  }

  lemma ClearedInv(s: State, f: nat, k: nat, r: nat, v: nat)
    requires Inv(s) && IsSlot(s, f, k, r, v)
    ensures (r, v) in s.maps ==> Inv(Mapped(s, f, k, r, v, WithoutU(s.maps[(r, v)])))
  {
    hide NodeOk, FreeOk, MapOk, IsValid, Ppn, WithoutU;
    if (r, v) in s.maps {
      var e := s.maps[(r, v)];
      MappedValid(s, r, v);
      WithoutUKeeps(e);
      ValidNotZero(WithoutU(e));
      forall x | x in s.own && s.own[x] == Data(r, v) ensures Ppn(WithoutU(e)) == x {
        assert DataOk(s, x);
      }
      EnteredInv(s, f, k, r, v, WithoutU(e));
    }
  }

  lemma PagesMono(a: nat, b: nat)
    requires a <= b
    ensures Pages(a) <= Pages(b)
  {
  }

  lemma PageFits(n: nat, sz: nat)
    ensures n * PGSIZE < sz <==> n < Pages(sz)
  {
  }

  lemma RemovedNone(maps: map<(nat, nat), nat>, r: nat, v: nat)
    ensures Removed(maps, r, v, 0) == maps
  {
  }

  lemma NoneMappedLess(maps: map<(nat, nat), nat>, r: nat, v: nat, n: nat, m: nat)
    requires NoneMapped(maps, r, v, n) && m <= n
    ensures NoneMapped(maps, r, v, m)
  {
  }

  lemma WholePages(n: nat)
    ensures Pages(n * PGSIZE) == n
  {
  }

  lemma JustKept(s: State, t: State)
    requires KeptPages(s, t) && t.maps == s.maps
    ensures Kept(s, t)
  {
  }

  lemma UserRoot(s: State, r: nat, n: nat)
    requires UserTable(s, r, n)
    ensures IsNode(s, r, Root(r))
  {
  }

  lemma UserLeaf(xperm: nat)
    requires xperm < 1024
    ensures WithV(UserPerm(xperm)) != 1
  {
  }

  lemma MappedHasSlot(s: State, r: nat, v: nat)
    requires Inv(s) && (r, v) in s.maps
    ensures v < MAXVPN && HasSlot(s, r, v)
  {
    hide NodeOk, FreeOk, DataOk;
    assert MapOk(s, r, v);
  }

  lemma MappedBelow(s: State, r: nat, v: nat, doFree: bool)
    requires Inv(s) && CanUnmapPage(s, r, v, doFree)
    ensures v * PGSIZE < MAXVA
  {
    MappedHasSlot(s, r, v);
  }

  lemma DroppedNothing(s: State, t: State, u: State, r: nat, v: nat, w: nat)
    requires Dropped(s, t, r, v, 0) && Dropped(t, u, r, w, 0) && Dom(s) && Dom(t)
    ensures Dropped(s, u, r, v, 0)
  {
  }

  lemma RootStays(s: State, t: State, r: nat, v: nat, n: nat)
    requires Dropped(s, t, r, v, n) && IsNode(s, r, Root(r)) && Inv(t)
    ensures IsNode(t, r, Root(r))
  {
  }

  lemma NotYetMapped(maps: map<(nat, nat), nat>, r: nat, va: nat, pa: nat, size: nat, m: nat, flags: nat)
    requires va % PGSIZE == 0 && pa % PGSIZE == 0 && size % PGSIZE == 0 && m < size / PGSIZE
    requires NoneMapped(maps, r, va / PGSIZE, size / PGSIZE)
    ensures (va + m * PGSIZE) / PGSIZE == va / PGSIZE + m && (pa + m * PGSIZE) / PGSIZE == pa / PGSIZE + m
    ensures (r, va / PGSIZE + m) !in Inserted(maps, r, va / PGSIZE, pa / PGSIZE, m, flags)
  {
    InsertedAt(maps, r, va / PGSIZE, pa / PGSIZE, m, flags, (r, va / PGSIZE + m));
    assert InPages((r, va / PGSIZE + m), r, va / PGSIZE, size / PGSIZE);
  }

  lemma NodeKept(s: State, t: State, r: nat)
    requires KeptPages(s, t) && IsNode(s, r, Root(r)) && Inv(t)
    ensures IsNode(t, r, Root(r))
  {
  }

  lemma WithVValid(f: nat, perm: nat)
    requires perm < 1024
    ensures WithV(perm) < 1024 && IsValid(Pte(f, WithV(perm)))
  {
    PteRoundTrip(f, WithV(perm));
  }
}
