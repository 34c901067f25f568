/**
 Physical pages, who owns them, and the page tables in them (kernel/kalloc.c, kernel/vm.c,
 kernel/riscv.h), on values.  A State holds every page the allocator was given; the free list
 runs through word 0 of the free pages, and page tables are pages of 512 PTEs.
 */
module PageMap {
  import opened Modular
  import opened Sequences

  const PGSIZE: nat := 4096
  const PTES: nat := 512
  /** PHYSTOP / PGSIZE. */
  const FRAMES: nat := 0x88000
  /** MAXVA / PGSIZE: one bit less than Sv39 allows. */
  const MAXVPN: nat := 0x400_0000
  const MAXVA: nat := 0x40_0000_0000

  type Page = s: seq<nat> | |s| == 512 witness seq(512, _ => 0)

  // ----- addresses and page-table entries -----

  /** PX(level, va): (va >> (12 + 9 * level)) & 0x1FF. */
  function PX(level: nat, va: nat): (i: nat)
    requires level <= 2
    ensures i < PTES
  {
    (if level == 2 then va / 0x4000_0000 else if level == 1 then va / 0x20_0000 else va / PGSIZE) % PTES
  }

  /** The page number with the given three indices. */
  function Vpn(i: nat, j: nat, k: nat): (v: nat) {
    i * 0x4_0000 + j * PTES + k
  }

  /** Distinct pages below MAXVA reach distinct level-0 slots, and only the lower half of the root is used. */
  lemma IndicesOfPage(va: nat)
    requires va < MAXVA
    ensures Vpn(PX(2, va), PX(1, va), PX(0, va)) == va / PGSIZE
    ensures PX(2, va) == va / PGSIZE / 0x4_0000 < 256 && PX(1, va) == va / PGSIZE / PTES % PTES
  {
    var v, o := va / PGSIZE, va % PGSIZE;
    var w, k := v / PTES, v % PTES;
    var i, j := w / PTES, w % PTES;
    assert va == w * 0x20_0000 + (k * PGSIZE + o);
    assert va / 0x20_0000 == w;
    assert va == i * 0x4000_0000 + (j * 0x20_0000 + k * PGSIZE + o);
    assert va / 0x4000_0000 == i;
    assert v == i * 0x4_0000 + (j * PTES + k);
    assert v / 0x4_0000 == i;
  }

  lemma PageOfIndices(i: nat, j: nat, k: nat)
    requires i < 256 && j < PTES && k < PTES
    ensures Vpn(i, j, k) < MAXVPN
    ensures Vpn(i, j, k) / 0x4_0000 == i && Vpn(i, j, k) / PTES % PTES == j && Vpn(i, j, k) % PTES == k
  {
    assert Vpn(i, j, k) == (i * PTES + j) * PTES + k;
  }

  /** PA2PTE(pa) | flags, for the page with frame number f. */
  function Pte(f: nat, flags: nat): (e: nat) {
    f * 1024 + flags
  }

  /** PTE2PA(e) / PGSIZE and PTE_FLAGS(e). */
  function Ppn(e: nat): (f: nat) {
    e / 1024
  }

  function Flags(e: nat): (flags: nat) {
    e % 1024
  }

  predicate IsValid(e: nat) {
    Flags(e) % 2 == 1
  }

  /** PTE_R | PTE_W | PTE_X. */
  predicate IsLeaf(e: nat) {
    Flags(e) / 2 % 8 != 0
  }

  predicate IsUser(e: nat) {
    Flags(e) / 16 % 2 == 1
  }

  /** flags | PTE_V. */
  function WithV(flags: nat): (r: nat) {
    if IsValid(flags) then flags else flags + 1
  }

  /** e & ~PTE_U. */
  function WithoutU(e: nat): (r: nat) {
    if IsUser(e) then e - 16 else e
  }

  lemma PteRoundTrip(f: nat, flags: nat)
    requires flags < 1024
    ensures Ppn(Pte(f, flags)) == f && Flags(Pte(f, flags)) == flags
  {
  }

  lemma ClearBit(a: nat, low: nat)
    requires low < 16
    ensures (32 * a + low) / 16 % 2 == 0
    ensures (32 * a + low) % 2 == (32 * a + 16 + low) % 2
    ensures (32 * a + low) / 2 % 8 == (32 * a + 16 + low) / 2 % 8
  {
    var q, z := low / 2, low % 2;
    assert low == 2 * q + z && q < 8;
    ModIs(32 * a + low, 2, 16 * a + q, z);
    ModIs(32 * a + 16 + low, 2, 16 * a + 8 + q, z);
    DivIs(32 * a + low, 2, 16 * a + q, z);
    DivIs(32 * a + 16 + low, 2, 16 * a + 8 + q, z);
    ModIs(16 * a + q, 8, 2 * a, q);
    ModIs(16 * a + 8 + q, 8, 2 * a + 1, q);
    DivIs(32 * a + low, 16, 2 * a, low);
    ModIs(2 * a, 2, a, 0);
  }

  /** Clearing PTE_U keeps the page, the valid bit and the permissions. */
  lemma WithoutUKeeps(e: nat)
    ensures Ppn(WithoutU(e)) == Ppn(e) && IsValid(WithoutU(e)) == IsValid(e) && IsLeaf(WithoutU(e)) == IsLeaf(e)
    ensures !IsUser(WithoutU(e))
  {
    var q, flags := e / 1024, e % 1024;
    assert e == q * 1024 + flags;
    if IsUser(e) {
      var a, low := flags / 32, flags % 16;
      assert flags == 32 * a + 16 + low;
      assert WithoutU(e) == Pte(q, flags - 16);
      PteRoundTrip(q, flags - 16);
      ClearBit(a, low);
    }
  }

  // ----- the state -----

  /** A page of the page table rooted at r: the root, a level-1 table or a level-0 table. */
  datatype Pos = Root(r: nat) | L1(r: nat, i: nat) | L0(r: nat, i: nat, j: nat)

  /**
   What a page is used for: on the free list, allocated to someone, part of a page table, user
   memory mapped at (r, v), or part of a page table that is being freed.
   */
  datatype Owner = Free | Loose | Node(pos: Pos) | Data(r: nat, v: nat) | Doomed(dpos: Pos)

  /** maps gives, for each page table (by its root) and page number, the PTE. */
  datatype State = State(mem: map<nat, Page>, free: seq<nat>, own: map<nat, Owner>, maps: map<(nat, nat), nat>)

  ghost predicate Dom(s: State) {
    && s.mem.Keys == s.own.Keys
    && (forall f :: f in s.own ==> 0 < f < FRAMES)
  }

  /** The address that links to element k of the free list. */
  function Link(free: seq<nat>, k: nat): (pa: nat) {
    if k < |free| then free[k] * PGSIZE else 0
  }

  ghost predicate FreeOk(s: State)
    requires Dom(s)
  {
    && Distinct(s.free)
    && (forall k :: 0 <= k < |s.free| ==>
              s.free[k] in s.own && s.own[s.free[k]] == Free && s.mem[s.free[k]][0] == Link(s.free, k + 1))
    && (forall f :: f in s.own && s.own[f] == Free ==> f in s.free)
  }

  ghost predicate IsNode(s: State, f: nat, pos: Pos) {
    f in s.own && f in s.mem && s.own[f] == Node(pos)
  }

  /** Entry e of a table page at pos, in slot k, points to the page for the next level. */
  ghost predicate EntryOk(s: State, pos: Pos, k: nat, e: nat) {
    match pos
    case Root(r) => e != 0 ==> k < 256 && e == Pte(Ppn(e), 1) && IsNode(s, Ppn(e), L1(r, k))
    case L1(r, i) => e != 0 ==> e == Pte(Ppn(e), 1) && IsNode(s, Ppn(e), L0(r, i, k))
    case L0(r, i, j) =>
      && (e != 0 <==> (r, Vpn(i, j, k)) in s.maps)
      && (e != 0 ==> IsValid(e) && s.maps[(r, Vpn(i, j, k))] == e)
  }

  /** The table page at pos is linked from its parent. */
  ghost predicate PosOk(s: State, f: nat, pos: Pos) {
    match pos
    case Root(r) => r == f
    case L1(r, i) => i < 256 && IsNode(s, r, Root(r)) && s.mem[r][i] == Pte(f, 1)
    case L0(r, i, j) =>
      && i < 256 && j < PTES && IsNode(s, r, Root(r))
      && IsNode(s, Ppn(s.mem[r][i]), L1(r, i)) && s.mem[Ppn(s.mem[r][i])][j] == Pte(f, 1)
  }

  ghost predicate NodeOk(s: State, f: nat)
    requires Dom(s) && f in s.own
  {
    s.own[f].Node? ==>
      && PosOk(s, f, s.own[f].pos)
      && forall k :: 0 <= k < PTES ==> EntryOk(s, s.own[f].pos, k, s.mem[f][k])
  }

  /** A mapping is in a level-0 table. */
  ghost predicate MapOk(s: State, r: nat, v: nat) {
    (r, v) in s.maps ==> v < MAXVPN && HasSlot(s, r, v)
  }

  ghost predicate HasSlot(s: State, r: nat, v: nat) {
    var i, j := v / 0x4_0000, v / PTES % PTES;
    && IsNode(s, r, Root(r)) && i < PTES
    && IsNode(s, Ppn(s.mem[r][i]), L1(r, i))
    && IsNode(s, Ppn(s.mem[Ppn(s.mem[r][i])][j]), L0(r, i, j))
  }

  /** A user page is mapped where its owner says. */
  ghost predicate DataOk(s: State, f: nat)
    requires f in s.own
  {
    s.own[f].Data? ==> (s.own[f].r, s.own[f].v) in s.maps && Ppn(s.maps[(s.own[f].r, s.own[f].v)]) == f
  }

  ghost predicate Inv(s: State) {
    && Dom(s) && FreeOk(s)
    && (forall f :: f in s.own ==> NodeOk(s, f))
    && (forall f :: f in s.own ==> DataOk(s, f))
    && (forall r: nat, v: nat :: MapOk(s, r, v))
  }

  // ----- the steps of the kernel on this state -----

  function Fill(word: nat): (p: Page) {
    seq(PTES, _ => word)
  }

  const ZEROS: Page := Fill(0)

  /** kalloc(): the first free page, filled with 5s. */
  function Alloced(s: State): (t: State)
    requires s.free != []
  {
    var f := s.free[0];
    State(s.mem[f := Fill(0x0505_0505_0505_0505)], s.free[1..], s.own[f := Loose], s.maps)
  }

  /** kfree(): filled with 1s and pushed. */
  function Released(s: State, f: nat): (t: State) {
    State(s.mem[f := Fill(0x0101_0101_0101_0101)[0 := Link(s.free, 0)]], [f] + s.free, s.own[f := Free], s.maps)
  }

  function SetPage(s: State, f: nat, p: Page): (t: State) {
    s.(mem := s.mem[f := p])
  }

  function SetOwn(s: State, f: nat, o: Owner): (t: State) {
    s.(own := s.own[f := o])
  }

  function SetWord(s: State, f: nat, k: nat, e: nat): (t: State)
    requires f in s.mem && k < PTES
  {
    SetPage(s, f, s.mem[f][k := e])
  }

  /** A zeroed page g becomes the table page that slot k of f points to. */
  function Linked(s: State, f: nat, k: nat, g: nat, pos: Pos): (t: State)
    requires f in s.mem && k < PTES
  {
    SetOwn(SetWord(s, f, k, Pte(g, 1)), g, Node(pos))
  }

  /** Slot k of level-0 page f gets entry e, which maps (r, v). */
  function Mapped(s: State, f: nat, k: nat, r: nat, v: nat, e: nat): (t: State)
    requires f in s.mem && k < PTES
  {
    SetWord(s, f, k, e).(maps := s.maps[(r, v) := e])
  }

  function Unmapped(s: State, f: nat, k: nat, r: nat, v: nat): (t: State)
    requires f in s.mem && k < PTES
  {
    SetWord(s, f, k, 0).(maps := s.maps - {(r, v)})
  }

  // ----- each keeps the invariant -----

  /** The free list and the owners of user pages depend on the free pages and the mappings alone. */
  ghost predicate SameFree(s: State, t: State) {
    && Dom(s) && Dom(t) && t.own.Keys == s.own.Keys && t.free == s.free
    && (forall f :: f in s.own && s.own[f] == Free ==> t.own[f] == Free && t.mem[f] == s.mem[f])
    && (forall f :: f in t.own && t.own[f] == Free ==> s.own[f] == Free)
  }

  lemma FreeFrame(s: State, t: State)
    requires Dom(s) && FreeOk(s) && SameFree(s, t)
    ensures FreeOk(t)
  {
  }

  lemma DataFrame(s: State, t: State, f: nat)
    requires f in s.own && f in t.own && DataOk(s, f) && (t.own[f].Data? ==> t.own[f] == s.own[f])
    requires t.maps == s.maps
    ensures DataOk(t, f)
  {
  }

  /** Every table page of s is the same table page in t. */
  ghost predicate SameNodes(s: State, t: State) {
    forall f, pos :: IsNode(s, f, pos) ==> IsNode(t, f, pos) && t.mem[f] == s.mem[f]
  }

  lemma EntryFrame(s: State, t: State, pos: Pos, k: nat, e: nat)
    requires SameNodes(s, t) && t.maps == s.maps && EntryOk(s, pos, k, e)
    ensures EntryOk(t, pos, k, e)
  {
    assert e != 0 && pos.Root? ==> IsNode(s, Ppn(e), L1(pos.r, k));
    assert e != 0 && pos.L1? ==> IsNode(s, Ppn(e), L0(pos.r, pos.i, k));
  }

  lemma NodeFrame(s: State, t: State, f: nat)
    requires Dom(s) && Dom(t) && SameNodes(s, t) && t.maps == s.maps
    requires f in s.own && f in t.own && (t.own[f].Node? ==> t.own[f] == s.own[f]) && NodeOk(s, f)
    ensures NodeOk(t, f)
  {
    if t.own[f].Node? {
      var pos := s.own[f].pos;
      assert IsNode(s, f, pos);
      forall k | 0 <= k < PTES ensures EntryOk(t, pos, k, t.mem[f][k]) {
        EntryFrame(s, t, pos, k, s.mem[f][k]);
      }
    }
  }

  lemma SlotFrame(s: State, t: State, r: nat, v: nat)
    requires SameNodes(s, t) && HasSlot(s, r, v)
    ensures HasSlot(t, r, v)
  {
  }

  /** In no live page table, and not user memory. */
  predicate Idle(o: Owner) {
    o.Free? || o.Loose? || o.Doomed?
  }

  /** An idle page may change in any way that leaves the free list right. */
  lemma LooseInv(s: State, t: State, f: nat)
    requires Inv(s) && Dom(t) && FreeOk(t) && t.maps == s.maps
    requires f in s.own && f in t.own && Idle(s.own[f]) && Idle(t.own[f])
    requires t.own == s.own[f := t.own[f]] && t.mem == s.mem[f := t.mem[f]]
    ensures Inv(t)
  {
    hide NodeOk, HasSlot, FreeOk;
    assert SameNodes(s, t);
    forall g | g in t.own ensures NodeOk(t, g) {
      NodeFrame(s, t, g);
    }
    forall r: nat, v: nat ensures MapOk(t, r, v) {
      assert MapOk(s, r, v);
      if (r, v) in s.maps {
        SlotFrame(s, t, r, v);
      }
    }
    forall g | g in t.own ensures DataOk(t, g) {
      assert DataOk(s, g);
    }
  }

  lemma AllocedFree(s: State)
    requires Dom(s) && FreeOk(s) && s.free != []
    ensures Dom(Alloced(s)) && FreeOk(Alloced(s))
  {
    var t := Alloced(s);
    assert s.free[0] in s.own;
    forall k | 0 <= k < |t.free|
      ensures t.free[k] in t.own && t.own[t.free[k]] == Free && t.mem[t.free[k]][0] == Link(t.free, k + 1)
    {
      assert t.free[k] == s.free[k + 1] != s.free[0];
    }
    forall f | f in t.own && t.own[f] == Free ensures f in t.free {
      var k :| 0 <= k < |s.free| && s.free[k] == f;
      assert t.free[k - 1] == f;
    }
  }

  lemma AllocedInv(s: State)
    requires Inv(s) && s.free != []
    ensures Inv(Alloced(s))
  {
    hide NodeOk, DataOk, MapOk;
    AllocedFree(s);
    assert s.free[0] in s.own && s.own[s.free[0]] == Free;
    LooseInv(s, Alloced(s), s.free[0]);
  }

  lemma ReleasedFree(s: State, f: nat)
    requires Dom(s) && FreeOk(s) && f in s.own && s.own[f] == Loose
    ensures Dom(Released(s, f)) && FreeOk(Released(s, f))
  {
    hide Fill, Link;
    var t := Released(s, f);
    ReleasedFields(s, f);
    forall k | 0 <= k < |t.free|
      ensures t.free[k] in t.own && t.own[t.free[k]] == Free && t.mem[t.free[k]][0] == Link(t.free, k + 1)
    {
      if k > 0 {
        assert t.free[k] == s.free[k - 1] && s.own[s.free[k - 1]] == Free;
        LinkOfRest(f, s.free, k);
      } else {
        LinkOfRest(f, s.free, 0);
      }
    }
    forall g | g in t.own && t.own[g] == Free ensures g in t.free {
      if g == f {
        assert t.free[0] == g;
      } else {
        var k :| 0 <= k < |s.free| && s.free[k] == g;
        assert t.free[k + 1] == g;
      }
    }
    forall i, j | 0 <= i < j < |t.free| ensures t.free[i] != t.free[j] {
      assert t.free[j] == s.free[j - 1] && s.own[s.free[j - 1]] == Free;
      assert i > 0 ==> t.free[i] == s.free[i - 1];
    }
  }

  lemma ReleasedFields(s: State, f: nat)
    requires Dom(s) && f in s.own
    ensures var t := Released(s, f);
            && t.free == [f] + s.free && t.own == s.own[f := Free] && t.maps == s.maps && t.mem.Keys == s.mem.Keys
            && t.mem[f][0] == Link(s.free, 0) && forall g :: g in s.mem && g != f ==> t.mem[g] == s.mem[g]
  {
  }

  lemma LinkOfRest(f: nat, free: seq<nat>, k: nat)
    ensures Link([f] + free, k + 1) == Link(free, k)
  {
  }

  lemma ReleasedInv(s: State, f: nat)
    requires Inv(s) && f in s.own && s.own[f] == Loose
    ensures Inv(Released(s, f))
  {
    hide NodeOk, DataOk, MapOk, FreeOk;
    ReleasedFree(s, f);
    LooseInv(s, Released(s, f), f);
  }

  lemma SetPageInv(s: State, f: nat, p: Page)
    requires Inv(s) && f in s.own && (s.own[f] == Loose || s.own[f].Doomed?)
    ensures Inv(SetPage(s, f, p))
  {
    hide NodeOk, DataOk, MapOk;
    LooseInv(s, SetPage(s, f, p), f);
  }

  /** Who owns a user page may change while it is mapped. */
  lemma SetOwnInv(s: State, f: nat, o: Owner)
    requires Inv(s) && f in s.own && (s.own[f] == Loose || s.own[f].Data? || s.own[f].Doomed?)
    requires o == Loose || (o.Data? && (o.r, o.v) in s.maps && Ppn(s.maps[(o.r, o.v)]) == f)
    ensures Inv(SetOwn(s, f, o))
  {
    hide NodeOk, HasSlot;
    var t := SetOwn(s, f, o);
    assert SameNodes(s, t);
    forall g | g in t.own ensures NodeOk(t, g) {
      NodeFrame(s, t, g);
    }
    forall r: nat, v: nat ensures MapOk(t, r, v) {
      assert MapOk(s, r, v);
      if (r, v) in s.maps {
        SlotFrame(s, t, r, v);
      }
    }
    forall g | g in t.own ensures DataOk(t, g) {
      assert DataOk(s, g);
    }
  }

  // ----- a new table page -----

  ghost predicate CanLink(s: State, f: nat, k: nat, g: nat, ppos: Pos) {
    && IsNode(s, f, ppos) && k < PTES && s.mem[f][k] == 0 && !ppos.L0? && (ppos.Root? ==> k < 256)
    && g in s.own && s.own[g] == Loose && g in s.mem && s.mem[g] == ZEROS
  }

  function Child(ppos: Pos, k: nat): (pos: Pos)
    requires !ppos.L0?
  {
    if ppos.Root? then L1(ppos.r, k) else L0(ppos.r, ppos.i, k)
  }

  /** Nobody is at the position yet. */
  lemma ChildIsNew(s: State, f: nat, k: nat, g: nat, ppos: Pos, x: nat)
    requires Inv(s) && CanLink(s, f, k, g, ppos)
    ensures !IsNode(s, x, Child(ppos, k))
  {
    hide FreeOk, EntryOk;
    assert NodeOk(s, f);
    assert x in s.own ==> NodeOk(s, x);
  }

  /** A new level-0 page has no mappings. */
  lemma NewPageEmpty(s: State, f: nat, k: nat, g: nat, ppos: Pos, x: nat)
    requires Inv(s) && CanLink(s, f, k, g, ppos) && ppos.L1? && x < PTES
    ensures (ppos.r, Vpn(ppos.i, k, x)) !in s.maps
  {
    hide FreeOk, EntryOk;
    assert NodeOk(s, f);
    PageOfIndices(ppos.i, k, x);
    var v := Vpn(ppos.i, k, x);
    assert MapOk(s, ppos.r, v);
    if (ppos.r, v) in s.maps {
      ChildIsNew(s, f, k, g, ppos, Ppn(s.mem[Ppn(s.mem[ppos.r][ppos.i])][k]));
    }
  }

  lemma LinkedEntry(s: State, f: nat, k: nat, g: nat, ppos: Pos, x: nat, y: nat)
    requires Inv(s) && CanLink(s, f, k, g, ppos) && y < PTES && x in s.own && (x == g || s.own[x].Node?)
    ensures var t := Linked(s, f, k, g, Child(ppos, k)); EntryOk(t, t.own[x].pos, y, t.mem[x][y])
  {
    hide FreeOk, DataOk, PosOk, MapOk;
    var t := Linked(s, f, k, g, Child(ppos, k));
    if x == g {
      if ppos.L1? {
        NewPageEmpty(s, f, k, g, ppos, y);
      }
    } else {
      assert NodeOk(s, x) && EntryOk(s, s.own[x].pos, y, s.mem[x][y]);
      PteRoundTrip(g, 1);
    }
  }

  lemma LinkedPos(s: State, f: nat, k: nat, g: nat, ppos: Pos, x: nat)
    requires Inv(s) && CanLink(s, f, k, g, ppos) && x in s.own && (x == g || s.own[x].Node?)
    ensures var t := Linked(s, f, k, g, Child(ppos, k)); PosOk(t, x, t.own[x].pos)
  {
    hide FreeOk, DataOk, EntryOk, MapOk;
    assert NodeOk(s, f) && NodeOk(s, x);
    PteRoundTrip(g, 1);
    PteRoundTrip(f, 1);
  }

  lemma LinkedNode(s: State, f: nat, k: nat, g: nat, ppos: Pos, x: nat)
    requires Inv(s) && CanLink(s, f, k, g, ppos) && x in s.own
    ensures Dom(Linked(s, f, k, g, Child(ppos, k)))
    ensures NodeOk(Linked(s, f, k, g, Child(ppos, k)), x)
  {
    hide EntryOk, PosOk, MapOk, DataOk, FreeOk;
    var t := Linked(s, f, k, g, Child(ppos, k));
    if t.own[x].Node? {
      LinkedPos(s, f, k, g, ppos, x);
      forall y | 0 <= y < PTES ensures EntryOk(t, t.own[x].pos, y, t.mem[x][y]) {
        LinkedEntry(s, f, k, g, ppos, x, y);
      }
    }
  }

  lemma LinkedInv(s: State, f: nat, k: nat, g: nat, ppos: Pos)
    requires Inv(s) && CanLink(s, f, k, g, ppos)
    ensures Inv(Linked(s, f, k, g, Child(ppos, k)))
  {
    hide NodeOk, MapOk, DataOk, FreeOk;
    var t := Linked(s, f, k, g, Child(ppos, k));
    assert SameFree(s, t);
    FreeFrame(s, t);
    forall x | x in t.own ensures NodeOk(t, x) && DataOk(t, x) {
      LinkedNode(s, f, k, g, ppos, x);
      DataFrame(s, t, x);
    }
    forall r: nat, v: nat ensures MapOk(t, r, v) {
      LinkedMap(s, f, k, g, ppos, r, v);
    }
  }

  lemma LinkedMap(s: State, f: nat, k: nat, g: nat, ppos: Pos, r: nat, v: nat)
    requires Inv(s) && CanLink(s, f, k, g, ppos)
    ensures MapOk(Linked(s, f, k, g, Child(ppos, k)), r, v)
  {
    hide FreeOk, DataOk, EntryOk;
    assert MapOk(s, r, v);
    if (r, v) in s.maps {
      assert NodeOk(s, Ppn(s.mem[r][v / 0x4_0000]));
    }
  }

  // ----- mappings -----

  /** Slot k of page f is where page table r maps page v. */
  ghost predicate IsSlot(s: State, f: nat, k: nat, r: nat, v: nat) {
    v < MAXVPN && k == v % PTES && IsNode(s, f, L0(r, v / 0x4_0000, v / PTES % PTES))
  }

  lemma {:induction false} VpnOf(v: nat)
    ensures Vpn(v / 0x4_0000, v / PTES % PTES, v % PTES) == v
  {
    var w := v / PTES;
    assert v / 0x4_0000 == w / PTES;
  }

  /** Different page numbers have different slots. */
  lemma SlotOfPage(s: State, f: nat, k: nat, r: nat, v: nat, i: nat, j: nat, y: nat)
    requires IsSlot(s, f, k, r, v) && i < 256 && j < PTES && y < PTES
    ensures Vpn(i, j, y) == v <==> i == v / 0x4_0000 && j == v / PTES % PTES && y == k
  {
    VpnOf(v);
    PageOfIndices(i, j, y);
  }

  /** Entry e, or none if e is 0. */
  function Entered(s: State, f: nat, k: nat, r: nat, v: nat, e: nat): (t: State)
    requires f in s.mem && k < PTES
  {
    if e == 0 then Unmapped(s, f, k, r, v) else Mapped(s, f, k, r, v, e)
  }

  lemma EnteredEntry(s: State, f: nat, k: nat, r: nat, v: nat, e: nat, x: nat, y: nat)
    requires Inv(s) && IsSlot(s, f, k, r, v) && (e == 0 || IsValid(e)) && x in s.own && s.own[x].Node? && y < PTES
    ensures var t := Entered(s, f, k, r, v, e); EntryOk(t, s.own[x].pos, y, t.mem[x][y])
  {
    hide FreeOk, DataOk, MapOk, IsValid, PosOk;
    var pos := s.own[x].pos;
    assert NodeOk(s, x) && EntryOk(s, pos, y, s.mem[x][y]);
    if pos.L0? {
      assert pos.i < 256 && pos.j < PTES by { L0Bounds(s, x); }
      SlotOfPage(s, f, k, r, v, pos.i, pos.j, y);
      if pos == L0(r, v / 0x4_0000, v / PTES % PTES) {
        SameSlot(s, f, x, pos);
      }
    }
  }

  lemma L0Bounds(s: State, x: nat)
    requires Inv(s) && x in s.own && s.own[x].Node? && s.own[x].pos.L0?
    ensures s.own[x].pos.i < 256 && s.own[x].pos.j < PTES
  {
    hide FreeOk, EntryOk;
    assert NodeOk(s, x);
  }

  /** A position has one page. */
  lemma SameSlot(s: State, f: nat, x: nat, pos: Pos)
    requires Inv(s) && IsNode(s, f, pos) && IsNode(s, x, pos)
    ensures f == x
  {
    hide FreeOk, EntryOk;
    assert NodeOk(s, f) && NodeOk(s, x);
  }

  lemma EnteredPos(s: State, f: nat, k: nat, r: nat, v: nat, e: nat, x: nat)
    requires Inv(s) && IsSlot(s, f, k, r, v) && x in s.own && s.own[x].Node?
    ensures PosOk(Entered(s, f, k, r, v, e), x, s.own[x].pos)
  {
    hide FreeOk, DataOk, MapOk, EntryOk;
    assert NodeOk(s, x);
  }

  lemma EnteredNode(s: State, f: nat, k: nat, r: nat, v: nat, e: nat, x: nat)
    requires Inv(s) && IsSlot(s, f, k, r, v) && (e == 0 || IsValid(e)) && x in s.own
    ensures Dom(Entered(s, f, k, r, v, e)) && NodeOk(Entered(s, f, k, r, v, e), x)
  {
    hide EntryOk, PosOk, MapOk, DataOk, FreeOk, IsValid;
    var t := Entered(s, f, k, r, v, e);
    if t.own[x].Node? {
      EnteredPos(s, f, k, r, v, e, x);
      forall y | 0 <= y < PTES ensures EntryOk(t, t.own[x].pos, y, t.mem[x][y]) {
        EnteredEntry(s, f, k, r, v, e, x, y);
      }
    }
  }

  /** Writing an entry inserts, replaces or removes exactly one mapping. */
  lemma EnteredInv(s: State, f: nat, k: nat, r: nat, v: nat, e: nat)
    requires Inv(s) && IsSlot(s, f, k, r, v) && (e == 0 || IsValid(e))
    requires forall x :: x in s.own && s.own[x] == Data(r, v) ==> e != 0 && Ppn(e) == x
    ensures Inv(Entered(s, f, k, r, v, e))
  {
    hide NodeOk, MapOk, FreeOk, IsValid, Ppn;
    var t := Entered(s, f, k, r, v, e);
    assert SameFree(s, t);
    FreeFrame(s, t);
    forall x | x in t.own ensures NodeOk(t, x) && DataOk(t, x) {
      EnteredNode(s, f, k, r, v, e, x);
      assert DataOk(s, x);
    }
    forall a: nat, b: nat ensures MapOk(t, a, b) {
      EnteredMap(s, f, k, r, v, e, a, b);
    }
  }

  lemma EnteredMap(s: State, f: nat, k: nat, r: nat, v: nat, e: nat, a: nat, b: nat)
    requires Inv(s) && IsSlot(s, f, k, r, v)
    ensures MapOk(Entered(s, f, k, r, v, e), a, b)
  {
    hide FreeOk, DataOk, EntryOk;
    assert MapOk(s, a, b) && NodeOk(s, f);
  }

  // ----- whole page tables -----

  /** uvmcreate(): a zeroed page becomes the root of an empty page table. */
  lemma RootedInv(s: State, g: nat)
    requires Inv(s) && g in s.own && s.own[g] == Loose && s.mem[g] == ZEROS
    ensures Inv(SetOwn(s, g, Node(Root(g))))
    ensures forall v: nat :: (g, v) !in s.maps
  {
    hide NodeOk, FreeOk, DataOk, HasSlot;
    var t := SetOwn(s, g, Node(Root(g)));
    assert SameNodes(s, t) && SameFree(s, t);
    FreeFrame(s, t);
    forall x | x in t.own ensures NodeOk(t, x) && DataOk(t, x) {
      DataFrame(s, t, x);
      if x == g {
        RootOk(t, g);
      } else {
        NodeFrame(s, t, x);
      }
    }
    forall v: nat ensures (g, v) !in s.maps {
      assert MapOk(s, g, v);
      NoSlot(s, g, v);
    }
    forall r: nat, v: nat ensures MapOk(t, r, v) {
      assert MapOk(s, r, v);
      if (r, v) in s.maps {
        SlotFrame(s, t, r, v);
      }
    }
  }

  lemma RootOk(s: State, g: nat)
    requires Dom(s) && IsNode(s, g, Root(g)) && s.mem[g] == ZEROS
    ensures NodeOk(s, g)
  {
  }

  lemma NoSlot(s: State, r: nat, v: nat)
    requires !IsNode(s, r, Root(r))
    ensures !HasSlot(s, r, v)
  {
  }

  /** The pages of page table r are set apart to be freed. */
  function Doom(s: State, r: nat): (t: State) {
    s.(own := map f | f in s.own :: if s.own[f].Node? && s.own[f].pos.r == r then Doomed(s.own[f].pos) else s.own[f])
  }

  lemma DoomInv(s: State, r: nat)
    requires Inv(s) && forall v: nat :: (r, v) !in s.maps
    ensures Inv(Doom(s, r))
  {
    hide NodeOk, FreeOk, DataOk;
    var t := Doom(s, r);
    assert SameFree(s, t);
    FreeFrame(s, t);
    forall x | x in t.own ensures NodeOk(t, x) && DataOk(t, x) {
      DataFrame(s, t, x);
      DoomNode(s, r, x);
    }
    forall a: nat, v: nat ensures MapOk(t, a, v) {
      assert MapOk(s, a, v);
    }
  }

  lemma DoomNode(s: State, r: nat, x: nat)
    requires Dom(s) && x in s.own && NodeOk(s, x)
    ensures Dom(Doom(s, r)) && NodeOk(Doom(s, r), x)
  {
    hide EntryOk, PosOk;
    var t := Doom(s, r);
    if t.own[x].Node? {
      DoomPos(s, r, x, t.own[x].pos);
      forall y | 0 <= y < PTES ensures EntryOk(t, t.own[x].pos, y, t.mem[x][y]) {
        DoomEntry(s, r, t.own[x].pos, y, s.mem[x][y]);
      }
    }
  }

  lemma DoomEntry(s: State, r: nat, pos: Pos, k: nat, e: nat)
    requires EntryOk(s, pos, k, e) && pos.r != r
    ensures EntryOk(Doom(s, r), pos, k, e)
  {
  }

  lemma DoomPos(s: State, r: nat, f: nat, pos: Pos)
    requires PosOk(s, f, pos) && pos.r != r
    ensures PosOk(Doom(s, r), f, pos)
  {
  }

  predicate IsDoomed(s: State, f: nat, pos: Pos) {
    f in s.own && f in s.mem && s.own[f] == Doomed(pos)
  }

  /** p is the position pos, or a table page below it. */
  predicate Under(p: Pos, pos: Pos) {
    match pos
    case Root(r) => p.r == r
    case L1(r, i) => p == pos || (p.L0? && p.r == r && p.i == i)
    case L0(_, _, _) => p == pos
  }

  /** The slot of the table page at pos through which a page strictly below it is reached. */
  function Branch(p: Pos, pos: Pos): (k: nat)
    requires Under(p, pos) && p != pos && !(p.Root? && pos.Root?)
  {
    if pos.Root? then p.i else p.j
  }

  ghost predicate DoomedEntry(s: State, pos: Pos, k: nat, e: nat) {
    e != 0 ==> !pos.L0? && e == Pte(Ppn(e), 1) && IsDoomed(s, Ppn(e), Child(pos, k))
  }

  ghost predicate DoomedLink(s: State, f: nat, pos: Pos) {
    match pos
    case Root(r) => r == f
    case L1(r, i) => i < PTES && (IsDoomed(s, r, Root(r)) ==> s.mem[r][i] == Pte(f, 1))
    case L0(r, i, j) => j < PTES && forall x :: IsDoomed(s, x, L1(r, i)) ==> s.mem[x][j] == Pte(f, 1)
  }

  /** A page table (or part of one) that holds no mappings: its pages link to each other and nothing else. */
  ghost predicate DoomedTree(s: State, pos: Pos) {
    && (forall f, p :: IsDoomed(s, f, p) && Under(p, pos) ==>
          DoomedLink(s, f, p) && forall k :: 0 <= k < PTES ==> DoomedEntry(s, p, k, s.mem[f][k]))
    && (pos.Root? ==> forall f, i: nat, j: nat :: IsDoomed(s, f, L0(pos.r, i, j)) ==>
          i < PTES && pos.r in s.mem && IsDoomed(s, Ppn(s.mem[pos.r][i]), L1(pos.r, i)))
  }

  lemma DoomTree(s: State, r: nat)
    requires Inv(s) && IsNode(s, r, Root(r)) && (forall v: nat :: (r, v) !in s.maps)
    requires forall f :: f in s.own && s.own[f].Doomed? ==> s.own[f].dpos.r != r
    ensures DoomedTree(Doom(s, r), Root(r)) && IsDoomed(Doom(s, r), r, Root(r))
  {
    hide Inv, DoomedLink, DoomedEntry;
    var t := Doom(s, r);
    forall f, p | IsDoomed(t, f, p) && Under(p, Root(r))
      ensures DoomedLink(t, f, p) && forall k :: 0 <= k < PTES ==> DoomedEntry(t, p, k, t.mem[f][k])
    {
      DoomTreeNode(s, r, f, p);
    }
    forall f, i: nat, j: nat | IsDoomed(t, f, L0(r, i, j))
      ensures i < PTES && r in t.mem && IsDoomed(t, Ppn(t.mem[r][i]), L1(r, i))
    {
      DoomTreeNode(s, r, f, L0(r, i, j));
    }
  }

  /** A page of the page table that is to be freed, and what links it. */
  lemma DoomTreeNode(s: State, r: nat, f: nat, p: Pos)
    requires Inv(s) && IsNode(s, r, Root(r)) && (forall v: nat :: (r, v) !in s.maps)
    requires forall x :: x in s.own && s.own[x].Doomed? ==> s.own[x].dpos.r != r
    requires IsDoomed(Doom(s, r), f, p) && p.r == r
    ensures DoomedLink(Doom(s, r), f, p)
    ensures forall k :: 0 <= k < PTES ==> DoomedEntry(Doom(s, r), p, k, s.mem[f][k])
    ensures p.L0? ==> p.i < PTES && r in s.mem && IsDoomed(Doom(s, r), Ppn(s.mem[r][p.i]), L1(r, p.i))
  {
    hide FreeOk, MapOk, DataOk;
    var t := Doom(s, r);
    assert NodeOk(s, f) && IsNode(s, f, p);
    forall k | 0 <= k < PTES ensures DoomedEntry(t, p, k, s.mem[f][k]) {
      assert EntryOk(s, p, k, s.mem[f][k]);
    }
    if p.L0? {
      forall x | IsDoomed(t, x, L1(r, p.i)) ensures s.mem[x][p.j] == Pte(f, 1) {
        SameSlot(s, x, Ppn(s.mem[r][p.i]), L1(r, p.i));
      }
    }
  }
}
