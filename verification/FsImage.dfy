/**
 The disk image as kernel/fs.c uses it: the free bitmap, the inode table, direct and indirect
 block addresses, and which inode slot each data block belongs to.
 */
module FsImage {
  import opened Params
  import opened FsBytes

  const NDIRECT: nat := 12
  const MAXFILE: nat := 268
  const IPB: nat := 16
  /** Slots of an inode: 12 direct, the indirect block, and the 256 entries of the indirect block. */
  const SLOTS: nat := 269

  /** datastart is the first block after the bitmap. */
  datatype Super = Super(size: nat, ninodes: nat, inodestart: nat, bmapstart: nat, datastart: nat)

  ghost predicate GoodSuper(sb: Super) {
    && 0 < sb.inodestart && sb.inodestart + sb.ninodes / IPB + 1 <= sb.bmapstart
    && sb.bmapstart + sb.size / BPB + 1 <= sb.datastart <= sb.size < 0x1_0000_0000
  }

  function BBlock(sb: Super, b: nat): (r: nat) {
    b / BPB + sb.bmapstart
  }

  function IBlock(sb: Super, i: nat): (r: nat) {
    i / IPB + sb.inodestart
  }

  /** An inode; meta0 and meta1 are the words that hold type, major, minor and nlink. */
  datatype Ino = Ino(meta0: nat, meta1: nat, size: nat, addrs: seq<nat>)

  ghost predicate GoodIno(ino: Ino) {
    && |ino.addrs| == 13 && IsWord(ino.meta0) && IsWord(ino.meta1) && IsWord(ino.size)
    && forall k :: 0 <= k < 13 ==> IsWord(ino.addrs[k])
  }

  datatype Slot = Slot(i: nat, p: nat)

  /**
   inos are the inodes as the kernel has them in memory; those not in dirty are also on disk.
   pending blocks are allocated but not in any inode.
   */
  datatype State = State(disk: seq<Block>, inos: seq<Ino>, owner: map<nat, Slot>, pending: set<nat>, dirty: set<nat>)

  ghost predicate Shape(sb: Super, s: State) {
    && GoodSuper(sb) && |s.disk| == sb.size && |s.inos| == sb.ninodes
    && forall i :: 0 <= i < |s.inos| ==> GoodIno(s.inos[i])
  }

  /** The block address in slot p of inode i, or 0. */
  ghost function At(s: State, i: nat, p: nat): (a: nat)
    requires i < |s.inos| && GoodIno(s.inos[i]) && p < SLOTS
  {
    var ino := s.inos[i];
    if p <= NDIRECT then ino.addrs[p]
    else if 0 < ino.addrs[NDIRECT] < |s.disk| then Word(s.disk[ino.addrs[NDIRECT]], p - 13)
    else 0
  }

  predicate BlockBit(sb: Super, disk: seq<Block>, b: nat)
    requires BBlock(sb, b) < |disk|
  {
    Bit(disk[BBlock(sb, b)], b % BPB)
  }

  /** The inode on disk. */
  function DinodeAt(sb: Super, disk: seq<Block>, i: nat): (ino: Ino)
    requires IBlock(sb, i) < |disk|
  {
    InodeIn(disk[IBlock(sb, i)], i % IPB)
  }

  /** Inode number k of an inode block: 16 words. */
  function InodeIn(b: Block, k: nat): (ino: Ino)
    requires k < IPB
  {
    Ino(Word(b, k * 16), Word(b, k * 16 + 1), Word(b, k * 16 + 2), WordsFrom(b, k * 16 + 3))
  }

  function WordsFrom(b: Block, base: nat): (ws: seq<nat>)
    requires base + 13 <= WORDS
  {
    seq<nat>(13, k requires 0 <= k < 13 => Word(b, base + k))
  }

  predicate IsData(sb: Super, b: nat) {
    sb.datastart <= b < sb.size
  }

  ghost predicate SlotOk(sb: Super, s: State, i: nat, p: nat)
    requires Shape(sb, s) && i < |s.inos| && p < SLOTS
  {
    var a := At(s, i, p);
    a != 0 ==> IsData(sb, a) && a in s.owner && s.owner[a] == Slot(i, p)
  }

  ghost predicate OwnerOk(sb: Super, s: State, b: nat)
    requires Shape(sb, s)
  {
    b in s.owner ==>
      && IsData(sb, b) && b !in s.pending
      && s.owner[b].i < |s.inos| && s.owner[b].p < SLOTS && At(s, s.owner[b].i, s.owner[b].p) == b
  }

  ghost predicate BitOk(sb: Super, s: State, b: nat)
    requires Shape(sb, s) && b < sb.size
  {
    BlockBit(sb, s.disk, b) <==> b < sb.datastart || b in s.owner || b in s.pending
  }

  ghost predicate InoOk(sb: Super, s: State, i: nat)
    requires Shape(sb, s) && i < |s.inos|
  {
    i !in s.dirty ==> DinodeAt(sb, s.disk, i) == s.inos[i]
  }

  ghost predicate Inv(sb: Super, s: State) {
    && Shape(sb, s)
    && (forall i, p :: 0 <= i < |s.inos| && 0 <= p < SLOTS ==> SlotOk(sb, s, i, p))
    && (forall b: nat :: OwnerOk(sb, s, b))
    && (forall b :: 0 <= b < sb.size ==> BitOk(sb, s, b))
    && (forall b :: b in s.pending ==> IsData(sb, b))
    && (forall i :: 0 <= i < |s.inos| ==> InoOk(sb, s, i))
  }

  // ----- file contents -----

  /** The slot that holds block n of a file. */
  function SlotOf(n: nat): (p: nat) {
    if n < NDIRECT then n else n + 1
  }

  /** Every block below the size has an address. */
  ghost predicate NoHoles(s: State, i: nat)
    requires i < |s.inos| && GoodIno(s.inos[i])
  {
    && s.inos[i].size <= MAXFILE * BSIZE
    && forall n :: 0 <= n < MAXFILE && n * BSIZE < s.inos[i].size ==> At(s, i, SlotOf(n)) != 0
  }

  /** Byte k of the blocks of inode i (0 where there is no block). */
  ghost function ByteAt(s: State, i: nat, k: nat): (x: Byte)
    requires i < |s.inos| && GoodIno(s.inos[i]) && k < MAXFILE * BSIZE
  {
    var a := At(s, i, SlotOf(k / BSIZE));
    if a < |s.disk| then s.disk[a][k % BSIZE] else 0
  }

  ghost function Content(s: State, i: nat): (c: seq<Byte>)
    requires i < |s.inos| && GoodIno(s.inos[i]) && s.inos[i].size <= MAXFILE * BSIZE
  {
    seq(s.inos[i].size, k requires 0 <= k < s.inos[i].size => ByteAt(s, i, k))
  }

  // ----- the steps -----

  function SetBlock(s: State, b: nat, blk: Block): (t: State)
    requires b < |s.disk|
  {
    s.(disk := s.disk[b := blk])
  }

  function SetBitmap(sb: Super, s: State, b: nat, on: bool): (t: State)
    requires BBlock(sb, b) < |s.disk|
  {
    SetBlock(s, BBlock(sb, b), SetBit(s.disk[BBlock(sb, b)], b % BPB, on))
  }

  /** balloc(): the bit is set and the block zeroed. */
  function Reserved(sb: Super, s: State, b: nat): (t: State)
    requires BBlock(sb, b) < |s.disk| && b < |s.disk|
  {
    SetBlock(SetBitmap(sb, s, b, true), b, ZEROS).(pending := s.pending + {b})
  }

  /** bfree(): the bit is cleared. */
  function Unreserved(sb: Super, s: State, b: nat): (t: State)
    requires BBlock(sb, b) < |s.disk|
  {
    SetBitmap(sb, s, b, false).(pending := s.pending - {b})
  }

  /** ip->addrs[p] = b. */
  function LinkDirect(s: State, i: nat, p: nat, b: nat): (t: State)
    requires i < |s.inos| && p < |s.inos[i].addrs|
  {
    s.(inos := s.inos[i := s.inos[i].(addrs := s.inos[i].addrs[p := b])], dirty := s.dirty + {i},
       owner := s.owner[b := Slot(i, p)], pending := s.pending - {b})
  }

  /** a[j] = b in the indirect block ind. */
  function LinkIndirect(s: State, i: nat, ind: nat, j: nat, b: nat): (t: State)
    requires ind < |s.disk| && j < WORDS && IsWord(b)
  {
    SetBlock(s, ind, SetWord(s.disk[ind], j, b)).(owner := s.owner[b := Slot(i, 13 + j)], pending := s.pending - {b})
  }

  /** An address is taken out of the inode, and its block is pending. */
  function Cut(s: State, i: nat, p: nat): (t: State)
    requires i < |s.inos| && p < |s.inos[i].addrs|
  {
    var b := s.inos[i].addrs[p];
    s.(inos := s.inos[i := s.inos[i].(addrs := s.inos[i].addrs[p := 0])], dirty := s.dirty + {i},
       owner := s.owner - {b}, pending := s.pending + {b})
  }

  function Resized(s: State, i: nat, size: nat): (t: State)
    requires i < |s.inos|
  {
    s.(inos := s.inos[i := s.inos[i].(size := size)], dirty := s.dirty + {i})
  }

  // ----- each keeps the invariant -----

  /** The three kinds of blocks are apart. */
  lemma Regions(sb: Super, b: nat, i: nat)
    requires GoodSuper(sb)
    ensures b < sb.size ==> sb.bmapstart <= BBlock(sb, b) < sb.datastart
    ensures i < sb.ninodes ==> sb.inodestart <= IBlock(sb, i) < sb.bmapstart
  {
  }

  /** At depends on the inode and on its indirect block. */
  lemma AtFrame(s: State, t: State, i: nat, p: nat)
    requires i < |s.inos| && i < |t.inos| && GoodIno(s.inos[i]) && GoodIno(t.inos[i]) && p < SLOTS
    requires t.inos[i].addrs == s.inos[i].addrs && |t.disk| == |s.disk|
    requires 0 < s.inos[i].addrs[NDIRECT] < |s.disk| ==>
               t.disk[s.inos[i].addrs[NDIRECT]] == s.disk[s.inos[i].addrs[NDIRECT]]
    ensures At(t, i, p) == At(s, i, p)
  {
  }

  /** The indirect block of an inode is a data block, and no other slot has it. */
  lemma IndirectOk(sb: Super, s: State, i: nat)
    requires Inv(sb, s) && i < |s.inos|
    ensures s.inos[i].addrs[NDIRECT] != 0 ==>
              IsData(sb, s.inos[i].addrs[NDIRECT]) && s.inos[i].addrs[NDIRECT] in s.owner
              && s.owner[s.inos[i].addrs[NDIRECT]] == Slot(i, NDIRECT)
  {
    assert SlotOk(sb, s, i, NDIRECT);
  }

  /**
   A block may change that no slot's address depends on: it is no indirect block, and neither inode nor bitmap block.
   */
  lemma WriteInv(sb: Super, s: State, b: nat, blk: Block)
    requires Inv(sb, s) && IsData(sb, b) && (b in s.owner ==> s.owner[b].p != NDIRECT)
    ensures Inv(sb, SetBlock(s, b, blk))
    ensures forall i, p :: 0 <= i < |s.inos| && 0 <= p < SLOTS ==> At(SetBlock(s, b, blk), i, p) == At(s, i, p)
  {
    var t := SetBlock(s, b, blk);
    forall i, p | 0 <= i < |s.inos| && 0 <= p < SLOTS ensures At(t, i, p) == At(s, i, p) && SlotOk(sb, t, i, p) {
      IndirectOk(sb, s, i);
      AtFrame(s, t, i, p);
      assert SlotOk(sb, s, i, p);
    }
    forall c: nat ensures OwnerOk(sb, t, c) {
      assert OwnerOk(sb, s, c);
    }
    forall c | 0 <= c < sb.size ensures BitOk(sb, t, c) {
      assert BitOk(sb, s, c);
      Regions(sb, c, 0);
    }
    forall i | 0 <= i < |s.inos| ensures InoOk(sb, t, i) {
      assert InoOk(sb, s, i);
      Regions(sb, 0, i);
    }
  }

  lemma BitmapBit(sb: Super, s: State, b: nat, on: bool, c: nat)
    requires GoodSuper(sb) && |s.disk| == sb.size && b < sb.size && c < sb.size
    ensures BlockBit(sb, SetBitmap(sb, s, b, on).disk, c) == if c == b then on else BlockBit(sb, s.disk, c)
  {
    Regions(sb, b, 0);
    Regions(sb, c, 0);
    SetBitAt(s.disk[BBlock(sb, b)], b % BPB, on, c % BPB);
  }

  /** Changing a bitmap bit changes no address and no inode on disk. */
  lemma BitmapFrame(sb: Super, s: State, b: nat, on: bool)
    requires Inv(sb, s) && b < sb.size
    ensures Shape(sb, SetBitmap(sb, s, b, on))
    ensures forall i, p :: 0 <= i < |s.inos| && 0 <= p < SLOTS ==> At(SetBitmap(sb, s, b, on), i, p) == At(s, i, p)
    ensures forall i :: 0 <= i < |s.inos| ==> InoOk(sb, SetBitmap(sb, s, b, on), i)
  {
    var t := SetBitmap(sb, s, b, on);
    Regions(sb, b, 0);
    forall i, p | 0 <= i < |s.inos| && 0 <= p < SLOTS ensures At(t, i, p) == At(s, i, p) {
      IndirectOk(sb, s, i);
      AtFrame(s, t, i, p);
    }
    forall i | 0 <= i < |s.inos| ensures InoOk(sb, t, i) {
      assert InoOk(sb, s, i);
      Regions(sb, 0, i);
    }
  }

  /** The bitmap and the pending blocks change together. */
  lemma BitmapInv(sb: Super, s: State, b: nat, on: bool, pending: set<nat>)
    requires Inv(sb, s) && IsData(sb, b) && b !in s.owner && pending == if on then s.pending + {b} else s.pending - {b}
    ensures Inv(sb, SetBitmap(sb, s, b, on).(pending := pending))
  {
    hide At, DinodeAt, BlockBit;
    var u := SetBitmap(sb, s, b, on);
    var t := u.(pending := pending);
    BitmapFrame(sb, s, b, on);
    forall i, p | 0 <= i < |t.inos| && 0 <= p < SLOTS ensures SlotOk(sb, t, i, p) {
      assert SlotOk(sb, s, i, p);
      AtSame(u, t, i, p);
    }
    forall c: nat ensures OwnerOk(sb, t, c) {
      assert OwnerOk(sb, s, c);
      if c in s.owner {
        AtSame(u, t, s.owner[c].i, s.owner[c].p);
      }
    }
    forall c | 0 <= c < sb.size ensures BitOk(sb, t, c) {
      assert BitOk(sb, s, c);
      BitmapBit(sb, s, b, on, c);
    }
    forall i | 0 <= i < |t.inos| ensures InoOk(sb, t, i) {
      assert InoOk(sb, u, i);
    }
  }

  lemma AtSame(s: State, t: State, i: nat, p: nat)
    requires t.disk == s.disk && t.inos == s.inos && i < |s.inos| && GoodIno(s.inos[i]) && p < SLOTS
    ensures At(t, i, p) == At(s, i, p)
  {
  }

  lemma ReservedInv(sb: Super, s: State, b: nat)
    requires Inv(sb, s) && IsData(sb, b) && !BlockBit(sb, s.disk, b)
    ensures Inv(sb, Reserved(sb, s, b))
    ensures b !in s.owner && b !in s.pending
    ensures forall i, p :: 0 <= i < |s.inos| && 0 <= p < SLOTS ==> At(Reserved(sb, s, b), i, p) == At(s, i, p)
  {
    hide At, DinodeAt, BlockBit;
    assert BitOk(sb, s, b);
    Regions(sb, b, 0);
    var u := SetBitmap(sb, s, b, true);
    var t := u.(pending := s.pending + {b});
    BitmapFrame(sb, s, b, true);
    BitmapInv(sb, s, b, true, s.pending + {b});
    WriteInv(sb, t, b, ZEROS);
    assert SetBlock(t, b, ZEROS) == Reserved(sb, s, b);
    forall i, p | 0 <= i < |s.inos| && 0 <= p < SLOTS ensures At(Reserved(sb, s, b), i, p) == At(s, i, p) {
      AtSame(u, t, i, p);
    }
  }

  lemma UnreservedInv(sb: Super, s: State, b: nat)
    requires Inv(sb, s) && b in s.pending
    ensures Inv(sb, Unreserved(sb, s, b))
    ensures BlockBit(sb, s.disk, b)
    ensures forall i, p :: 0 <= i < |s.inos| && 0 <= p < SLOTS ==> At(Unreserved(sb, s, b), i, p) == At(s, i, p)
  {
    hide At, DinodeAt, BlockBit;
    assert BitOk(sb, s, b) && OwnerOk(sb, s, b);
    var u := SetBitmap(sb, s, b, false);
    BitmapFrame(sb, s, b, false);
    BitmapInv(sb, s, b, false, s.pending - {b});
    forall i, p | 0 <= i < |s.inos| && 0 <= p < SLOTS ensures At(Unreserved(sb, s, b), i, p) == At(s, i, p) {
      AtSame(u, Unreserved(sb, s, b), i, p);
    }
  }

  // ----- addresses in and out of inodes -----

  /** What a step does to the addresses: slot p of inode i becomes b. */
  ghost predicate AtChanged(s: State, t: State, i: nat, p: nat, b: nat)
    requires |t.inos| == |s.inos|
    requires forall x :: 0 <= x < |s.inos| ==> GoodIno(s.inos[x]) && GoodIno(t.inos[x])
  {
    forall x, y :: 0 <= x < |s.inos| && 0 <= y < SLOTS ==> At(t, x, y) == if x == i && y == p then b else At(s, x, y)
  }

  /** A pending block is put into an empty slot. */
  lemma LinkedInv(sb: Super, s: State, t: State, i: nat, p: nat, b: nat)
    requires Inv(sb, s) && Shape(sb, t) && b in s.pending && i < |s.inos| && p < SLOTS && AtChanged(s, t, i, p, b)
             && At(s, i, p) == 0
    requires t.owner == s.owner[b := Slot(i, p)] && t.pending == s.pending - {b}
    requires forall c :: 0 <= c < sb.size ==> BlockBit(sb, t.disk, c) == BlockBit(sb, s.disk, c)
    requires forall x :: 0 <= x < |s.inos| ==> InoOk(sb, t, x)
    ensures Inv(sb, t)
  {
    hide At, BlockBit, InoOk;
    assert OwnerOk(sb, s, b);
    forall x, y | 0 <= x < |t.inos| && 0 <= y < SLOTS ensures SlotOk(sb, t, x, y) {
      assert SlotOk(sb, s, x, y);
    }
    forall c: nat ensures OwnerOk(sb, t, c) {
      assert OwnerOk(sb, s, c);
    }
    forall c | 0 <= c < sb.size ensures BitOk(sb, t, c) {
      assert BitOk(sb, s, c);
    }
  }

  lemma LinkDirectInv(sb: Super, s: State, i: nat, p: nat, b: nat)
    requires Inv(sb, s) && b in s.pending && i < |s.inos| && p <= NDIRECT && s.inos[i].addrs[p] == 0
    requires p == NDIRECT ==> s.disk[b] == ZEROS
    ensures Inv(sb, LinkDirect(s, i, p, b)) && AtChanged(s, LinkDirect(s, i, p, b), i, p, b)
  {
    var t := LinkDirect(s, i, p, b);
    assert GoodIno(t.inos[i]);
    forall x, y | 0 <= x < |s.inos| && 0 <= y < SLOTS
      ensures At(t, x, y) == if x == i && y == p then b else At(s, x, y)
    {
      if x == i && p == NDIRECT && y > NDIRECT {
        ZeroWords(y - 13);
      }
    }
    forall x | 0 <= x < |s.inos| ensures InoOk(sb, t, x) {
      assert InoOk(sb, s, x);
    }
    LinkedInv(sb, s, t, i, p, b);
  }

  lemma LinkIndirectInv(sb: Super, s: State, i: nat, j: nat, b: nat)
    requires Inv(sb, s) && b in s.pending && i < |s.inos| && j < WORDS && s.inos[i].addrs[NDIRECT] != 0
             && At(s, i, 13 + j) == 0
    ensures IsData(sb, s.inos[i].addrs[NDIRECT])
    ensures Inv(sb, LinkIndirect(s, i, s.inos[i].addrs[NDIRECT], j, b))
    ensures AtChanged(s, LinkIndirect(s, i, s.inos[i].addrs[NDIRECT], j, b), i, 13 + j, b)
  {
    var ind := s.inos[i].addrs[NDIRECT];
    IndirectOk(sb, s, i);
    var t := LinkIndirect(s, i, ind, j, b);
    forall x, y | 0 <= x < |s.inos| && 0 <= y < SLOTS
      ensures At(t, x, y) == if x == i && y == 13 + j then b else At(s, x, y)
    {
      IndirectOk(sb, s, x);
      if x == i {
        if y > NDIRECT {
          SetWordAt(s.disk[ind], j, b, y - 13);
        }
      } else {
        AtFrame(s, t, x, y);
      }
    }
    forall x | 0 <= x < |s.inos| ensures InoOk(sb, t, x) {
      assert InoOk(sb, s, x);
      Regions(sb, 0, x);
    }
    forall c | 0 <= c < sb.size ensures BlockBit(sb, t.disk, c) == BlockBit(sb, s.disk, c) {
      Regions(sb, c, 0);
    }
    LinkedInv(sb, s, t, i, 13 + j, b);
  }

  /** A direct block is taken out of its inode. */
  lemma CutInv(sb: Super, s: State, i: nat, p: nat)
    requires Inv(sb, s) && i < |s.inos| && p < NDIRECT && s.inos[i].addrs[p] != 0
    ensures Inv(sb, Cut(s, i, p)) && AtChanged(s, Cut(s, i, p), i, p, 0)
  {
    var t, b := Cut(s, i, p), s.inos[i].addrs[p];
    assert GoodIno(t.inos[i]);
    assert SlotOk(sb, s, i, p);
    forall x, y | 0 <= x < |s.inos| && 0 <= y < SLOTS
      ensures At(t, x, y) == (if x == i && y == p then 0 else At(s, x, y))
    {
    }
    hide At;
    assert At(s, i, p) == b by { AtDirect(s, i, p); }
    forall x, y | 0 <= x < |s.inos| && 0 <= y < SLOTS ensures SlotOk(sb, t, x, y) {
      assert SlotOk(sb, s, x, y);
    }
    forall c: nat ensures OwnerOk(sb, t, c) {
      assert OwnerOk(sb, s, c);
    }
    forall c | 0 <= c < sb.size ensures BitOk(sb, t, c) {
      assert BitOk(sb, s, c);
    }
    forall x | 0 <= x < |s.inos| ensures InoOk(sb, t, x) {
      assert InoOk(sb, s, x);
    }
  }

  lemma AtDirect(s: State, i: nat, p: nat)
    requires i < |s.inos| && GoodIno(s.inos[i]) && p <= NDIRECT
    ensures At(s, i, p) == s.inos[i].addrs[p]
  {
  }

  /** The indirect block of inode i and the blocks it lists. */
  ghost function Branch(s: State, i: nat): (bs: set<nat>) {
    set b | b in s.owner && s.owner[b].i == i && s.owner[b].p >= NDIRECT
  }

  /** The indirect block is taken out of its inode, with all it lists. */
  ghost function CutBranch(s: State, i: nat): (t: State)
    requires i < |s.inos| && GoodIno(s.inos[i])
  {
    s.(inos := s.inos[i := s.inos[i].(addrs := s.inos[i].addrs[NDIRECT := 0])], dirty := s.dirty + {i},
       owner := s.owner - Branch(s, i), pending := s.pending + Branch(s, i))
  }

  lemma CutBranchInv(sb: Super, s: State, i: nat)
    requires Inv(sb, s) && i < |s.inos|
    ensures Inv(sb, CutBranch(s, i))
    ensures forall x, y :: 0 <= x < |s.inos| && 0 <= y < SLOTS ==>
              At(CutBranch(s, i), x, y) == if x == i && y >= NDIRECT then 0 else At(s, x, y)
  {
    var t := CutBranch(s, i);
    assert GoodIno(t.inos[i]);
    forall x, y | 0 <= x < |s.inos| && 0 <= y < SLOTS
      ensures At(t, x, y) == (if x == i && y >= NDIRECT then 0 else At(s, x, y)) && SlotOk(sb, t, x, y)
    {
      assert SlotOk(sb, s, x, y);
    }
    forall c: nat ensures OwnerOk(sb, t, c) && (c in s.owner ==> IsData(sb, c)) {
      assert OwnerOk(sb, s, c);
    }
    forall c | 0 <= c < sb.size ensures BitOk(sb, t, c) {
      assert BitOk(sb, s, c);
    }
    forall x | 0 <= x < |s.inos| ensures InoOk(sb, t, x) {
      assert InoOk(sb, s, x);
    }
  }

  lemma ResizedInv(sb: Super, s: State, i: nat, size: nat)
    requires Inv(sb, s) && i < |s.inos| && IsWord(size)
    ensures Inv(sb, Resized(s, i, size))
    ensures forall x, y :: 0 <= x < |s.inos| && 0 <= y < SLOTS ==> At(Resized(s, i, size), x, y) == At(s, x, y)
  {
    var t := Resized(s, i, size);
    forall x, y | 0 <= x < |s.inos| && 0 <= y < SLOTS ensures At(t, x, y) == At(s, x, y) && SlotOk(sb, t, x, y) {
      assert SlotOk(sb, s, x, y);
    }
    forall c: nat ensures OwnerOk(sb, t, c) {
      assert OwnerOk(sb, s, c);
    }
    forall c | 0 <= c < sb.size ensures BitOk(sb, t, c) {
      assert BitOk(sb, s, c);
    }
    forall x | 0 <= x < |s.inos| ensures InoOk(sb, t, x) {
      assert InoOk(sb, s, x);
    }
  }

  // ----- iupdate -----

  function StoreWords(b: Block, base: nat, ws: seq<nat>): (c: Block)
    requires base + |ws| <= WORDS && forall k :: 0 <= k < |ws| ==> IsWord(ws[k])
    decreases |ws|
  {
    if ws == [] then b else SetWord(StoreWords(b, base, ws[..|ws| - 1]), base + |ws| - 1, ws[|ws| - 1])
  }

  lemma {:induction false} StoreWordsAt(b: Block, base: nat, ws: seq<nat>, k: nat)
    requires base + |ws| <= WORDS && k < WORDS && forall j :: 0 <= j < |ws| ==> IsWord(ws[j])
    ensures Word(StoreWords(b, base, ws), k) == if base <= k < base + |ws| then ws[k - base] else Word(b, k)
    decreases |ws|
  {
    if ws != [] {
      var n := |ws| - 1;
      StoreWordsAt(b, base, ws[..n], k);
      SetWordAt(StoreWords(b, base, ws[..n]), base + n, ws[n], k);
    }
  }

  ghost function InoWords(ino: Ino): (ws: seq<nat>) {
    [ino.meta0, ino.meta1, ino.size] + ino.addrs
  }

  /** iupdate(): the inode in memory is written to its place on disk. */
  ghost function Updated(sb: Super, s: State, i: nat): (t: State)
    requires i < |s.inos| && GoodIno(s.inos[i]) && IBlock(sb, i) < |s.disk|
  {
    SetBlock(s, IBlock(sb, i), StoreWords(s.disk[IBlock(sb, i)], i % IPB * 16, InoWords(s.inos[i])))
      .(dirty := s.dirty - {i})
  }

  lemma StoredWord(b: Block, k: nat, ino: Ino, x: nat, y: nat)
    requires k < IPB && x < IPB && GoodIno(ino) && y < 16
    ensures |InoWords(ino)| == 16 && (forall j :: 0 <= j < 16 ==> IsWord(InoWords(ino)[j]))
    ensures Word(StoreWords(b, k * 16, InoWords(ino)), x * 16 + y) ==
                if x == k then InoWords(ino)[y] else Word(b, x * 16 + y)
  {
    hide Word, StoreWords;
    StoreWordsAt(b, k * 16, InoWords(ino), x * 16 + y);
  }

  lemma StoredInode(b: Block, k: nat, ino: Ino, x: nat)
    requires k < IPB && x < IPB && GoodIno(ino)
    ensures |InoWords(ino)| == 16 && (forall j :: 0 <= j < 16 ==> IsWord(InoWords(ino)[j]))
    ensures InodeIn(StoreWords(b, k * 16, InoWords(ino)), x) == if x == k then ino else InodeIn(b, x)
  {
    hide Word, StoreWords;
    StoredWord(b, k, ino, x, 0);
    StoredWord(b, k, ino, x, 1);
    StoredWord(b, k, ino, x, 2);
    var c := StoreWords(b, k * 16, InoWords(ino));
    var want := if x == k then ino.addrs else WordsFrom(b, x * 16 + 3);
    forall y | 0 <= y < 13 ensures WordsFrom(c, x * 16 + 3)[y] == want[y] {
      StoredWord(b, k, ino, x, 3 + y);
      assert x * 16 + (3 + y) == x * 16 + 3 + y;
    }
    assert WordsFrom(c, x * 16 + 3) == want;
  }

  lemma UpdatedInv(sb: Super, s: State, i: nat)
    requires Inv(sb, s) && i < |s.inos|
    ensures IBlock(sb, i) < |s.disk| && Inv(sb, Updated(sb, s, i))
    ensures forall x, y :: 0 <= x < |s.inos| && 0 <= y < SLOTS ==> At(Updated(sb, s, i), x, y) == At(s, x, y)
  {
    hide StoreWords, InoWords, InodeIn, BlockBit;
    Regions(sb, 0, i);
    var t := Updated(sb, s, i);
    forall x, y | 0 <= x < |s.inos| && 0 <= y < SLOTS ensures At(t, x, y) == At(s, x, y) && SlotOk(sb, t, x, y) {
      IndirectOk(sb, s, x);
      AtFrame(s, t, x, y);
      assert SlotOk(sb, s, x, y);
    }
    forall c: nat ensures OwnerOk(sb, t, c) {
      assert OwnerOk(sb, s, c);
    }
    forall c | 0 <= c < sb.size ensures BitOk(sb, t, c) {
      assert BitOk(sb, s, c);
      BitElsewhere(sb, s, t, c, IBlock(sb, i));
    }
    forall x | 0 <= x < |s.inos| ensures InoOk(sb, t, x) {
      assert InoOk(sb, s, x);
      Regions(sb, 0, x);
      if IBlock(sb, x) == IBlock(sb, i) {
        StoredInode(s.disk[IBlock(sb, i)], i % IPB, s.inos[i], x % IPB);
      }
    }
  }

  lemma BitElsewhere(sb: Super, s: State, t: State, c: nat, b: nat)
    requires GoodSuper(sb) && |s.disk| == sb.size && c < sb.size && b < sb.bmapstart
    requires |t.disk| == |s.disk| && t.disk == s.disk[b := t.disk[b]]
    ensures sb.bmapstart <= BBlock(sb, c) < sb.size
    ensures BlockBit(sb, t.disk, c) == BlockBit(sb, s.disk, c)
  {
    Regions(sb, c, 0);
  }
}
