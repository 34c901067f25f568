/**
 mkfs (mkfs/mkfs.c): the image it writes satisfies the invariants that the kernel's file system
 relies on.  The bitmap is written last; until then Model() is the image as if it were there.
 */
module Mkfs {
  import opened Params
  import opened FsBytes
  import opened FsImage
  import opened FsFiles

  /** A bitmap block whose first n bits are set. */
  function BitmapOf(n: nat): (b: Block)
    requires n <= BPB
  {
    if n == 0 then ZEROS else SetBit(BitmapOf(n - 1), n - 1, true)
  }

  lemma {:induction false} BitmapOfAt(n: nat, j: nat)
    requires n <= BPB && j < BPB
    ensures Bit(BitmapOf(n), j) <==> j < n
  {
    if n == 0 {
      ZeroBits(j % 8);
    } else {
      BitmapOfAt(n - 1, j);
      SetBitAt(BitmapOf(n - 1), n - 1, true, j);
    }
  }

  function WithBitmap(sb: Super, disk: seq<Block>, n: nat): (d: seq<Block>)
    requires sb.bmapstart < |disk| && n <= BPB
  {
    disk[sb.bmapstart := BitmapOf(n)]
  }

  /** The layout of mkfs: boot block, super block, nlog log blocks, inodes, bitmap, data. */
  function Layout(fssize: nat, ninodes: nat, nlog: nat): (sb: Super) {
    var inodestart := 2 + nlog;
    var bmapstart := inodestart + ninodes / IPB + 1;
    Super(fssize, ninodes, inodestart, bmapstart, bmapstart + fssize / BPB + 1)
  }

  function NoAddrs(): (addrs: seq<nat>) {
    seq(13, _ => 0)
  }

  /** An inode with no blocks. */
  function NewIno(meta0: nat, meta1: nat): (ino: Ino) {
    Ino(meta0, meta1, 0, NoAddrs())
  }

  function NewInos(n: nat): (inos: seq<Ino>) {
    seq(n, _ => NewIno(0, 0))
  }

  /** An empty image, once the metadata blocks are marked. */
  lemma EmptyInv(sb: Super, disk: seq<Block>)
    requires GoodSuper(sb) && |disk| == sb.size && sb.datastart <= BPB
    requires forall b :: sb.inodestart <= b < sb.size ==> disk[b] == ZEROS
    ensures sb.bmapstart < |disk|
    ensures Inv(sb, State(WithBitmap(sb, disk, sb.datastart), NewInos(sb.ninodes), map[], {}, {}))
  {
    hide Bit, BitmapOf;
    var s := State(WithBitmap(sb, disk, sb.datastart), NewInos(sb.ninodes), map[], {}, {});
    forall i, p | 0 <= i < |s.inos| && 0 <= p < SLOTS ensures SlotOk(sb, s, i, p) {
    }
    forall b | 0 <= b < sb.size ensures BitOk(sb, s, b) {
      Regions(sb, b, 0);
      if b < BPB {
        BitmapOfAt(sb.datastart, b);
      } else {
        NoBits(b % BPB);
      }
    }
    forall i | 0 <= i < |s.inos| ensures InoOk(sb, s, i) {
      Regions(sb, 0, i);
      ZeroInode(i % IPB);
    }
  }

  lemma NoBits(i: nat)
    requires i < BPB
    ensures !Bit(ZEROS, i)
  {
    ZeroBits(i % 8);
  }

  lemma ZeroInode(k: nat)
    requires k < IPB
    ensures InodeIn(ZEROS, k) == NewIno(0, 0)
  {
    var ws := WordsFrom(ZEROS, k * 16 + 3);
    forall y | 0 <= y < 13 ensures ws[y] == NoAddrs()[y] {
      ZeroWords(k * 16 + 3 + y);
    }
    assert ws == NoAddrs();
  }

  /** The blocks of inode i are exactly those below its size. */
  ghost predicate Exact(s: State, i: nat)
    requires i < |s.inos| && GoodIno(s.inos[i])
  {
    && s.inos[i].size <= MAXFILE * BSIZE
    && HasBlocks(s, i, s.inos[i].size)
  }

  /** Inode i has exactly the blocks for its first size bytes. */
  ghost predicate HasBlocks(s: State, i: nat, size: nat)
    requires i < |s.inos| && GoodIno(s.inos[i])
  {
    && (forall n :: 0 <= n < MAXFILE ==> (At(s, i, SlotOf(n)) != 0 <==> n * BSIZE < size))
    && (At(s, i, NDIRECT) != 0 <==> NDIRECT * BSIZE < size)
  }

  /** The number of blocks of a file of this size. */
  function Used(size: nat): (n: nat) {
    (size + BSIZE - 1) / BSIZE + (if NDIRECT * BSIZE < size then 1 else 0)
  }

  class Image {
    const sb: Super
    var disk: seq<Block>
    var freeinode: nat
    var freeblock: nat
    ghost var inos: seq<Ino>
    ghost var owner: map<nat, Slot>
    ghost var dirty: set<nat>

    ghost predicate Small()
      reads this
    {
      |disk| == sb.size && sb.bmapstart < sb.size && sb.datastart <= freeblock <= sb.size && freeblock <= BPB
    }

    ghost function Model(): (s: State)
      requires Small()
      reads this
    {
      State(WithBitmap(sb, disk, freeblock), inos, owner, {}, dirty)
    }

    /** The blocks from freeblock on are untouched, and all others are in use. */
    ghost predicate Valid()
      reads this
    {
      && Small() && Inv(sb, Model())
      && (forall b :: b in owner <==> sb.datastart <= b < freeblock)
      && (forall b :: freeblock <= b < sb.size ==> disk[b] == ZEROS)
    }

    /** A zeroed image, with the super block in block 1. */
    constructor (fssize: nat, ninodes: nat, nlog: nat, super: Block)
      requires var sb := Layout(fssize, ninodes, nlog); sb.datastart <= fssize < 0x1_0000_0000 && sb.datastart <= BPB
      ensures sb == Layout(fssize, ninodes, nlog) && Valid() && freeinode == 1 && freeblock == sb.datastart
              && dirty == {}
      ensures inos == NewInos(ninodes)
      ensures forall i :: 0 <= i < |inos| ==> Exact(Model(), i)
    {
      hide Inv, BitmapOf, At;
      sb := Layout(fssize, ninodes, nlog);
      disk := seq(fssize, _ => ZEROS)[1 := super];
      freeinode, freeblock := 1, Layout(fssize, ninodes, nlog).datastart;
      inos, owner, dirty := NewInos(ninodes), map[], {};
      new;
      EmptyInv(sb, disk);
      forall i | 0 <= i < |inos| ensures Exact(Model(), i) {
        NewExact(Model(), i);
      }
    }

    /** freeblock++: the next block, which is zero. */
    method Take(ghost i: nat, ghost bn: nat) returns (b: nat)
      requires Valid() && freeblock < sb.size && freeblock < BPB && i < |inos| && bn < MAXFILE
      modifies this`freeblock
      ensures Small() && b == old(freeblock) && freeblock == b + 1 && IsData(sb, b)
      ensures Model().(pending := {b}) == Reserved(sb, old(Model()), b)
      ensures Inv(sb, Model().(pending := {b})) && Grown(sb, old(Model()), Model().(pending := {b}), i, bn)
    {
      hide Inv, Grown, BitmapOf, At, BlockBit;
      ghost var s := Model();
      b := freeblock;
      InvShape(sb, s);
      NotInUse(sb, s, b);
      ReservedGrown(sb, s, b, i, bn);
      freeblock := freeblock + 1;
      assert Model().(pending := {b}) == Reserved(sb, s, b) by { TakenBitmap(sb, disk, b, inos, owner, dirty); }
    }

    ghost predicate Holds(din: Inode)
      reads this, din
    {
      din.inum < |inos| && inos[din.inum] == din.Value()
    }

    /** din.addrs[p] = freeblock++. */
    method TakeDirect(din: Inode, p: nat, ghost bn: nat)
      requires Valid() && Holds(din) && p <= NDIRECT && din.addrs[p] == 0 && bn < MAXFILE && (p == NDIRECT || p == bn)
      requires freeblock < sb.size && freeblock < BPB
      modifies this, din
      ensures Valid() && Holds(din) && freeblock == old(freeblock) + 1 && freeinode == old(freeinode)
              && dirty == old(dirty) + {din.inum}
      ensures SameInodes(old(Model()), Model(), din.inum) && Grown(sb, old(Model()), Model(), din.inum, bn)
      ensures AtChanged(old(Model()), Model(), din.inum, p, old(freeblock)) && din.addrs[p] == old(freeblock)
    {
      hide Inv, Grown, At, WithBitmap, Reserved, AtChanged;
      ghost var s, i := Model(), din.inum;
      InvShape(sb, s);
      var b := Take(i, bn);
      ghost var t := Model().(pending := {b});
      InvShape(sb, t);
      assert b in t.pending && t.disk[b] == ZEROS by { ReservedFields(sb, s, b); }
      LinkDirectGrown(sb, t, i, p, b, bn);
      LinkDirectInv(sb, t, i, p, b);
      NotInUse(sb, s, b);
      ReservedAt(sb, s, b);
      din.addrs := din.addrs[p := b];
      inos, dirty, owner := inos[i := inos[i].(addrs := din.addrs)], dirty + {i}, owner[b := Slot(i, p)];
      assert Model() == LinkDirect(t, i, p, b);
      InvShape(sb, Model());
      GrownTrans(sb, s, t, Model(), i, bn);
      ChangedAfter(s, t, Model(), i, p, b);
    }

    /** indirect[j] = freeblock++. */
    method TakeIndirect(din: Inode, j: nat)
      requires Valid() && Holds(din) && j < WORDS && din.addrs[NDIRECT] != 0 && At(Model(), din.inum, 13 + j) == 0
      requires freeblock < sb.size && freeblock < BPB
      modifies this
      ensures Valid() && Holds(din) && freeblock == old(freeblock) + 1 && freeinode == old(freeinode)
              && dirty == old(dirty)
      ensures inos == old(inos) && Grown(sb, old(Model()), Model(), din.inum, NDIRECT + j)
      ensures AtChanged(old(Model()), Model(), din.inum, 13 + j, old(freeblock))
    {
      hide Inv, Grown, At, WithBitmap, Reserved, AtChanged, SetWord;
      ghost var s, i, bn := Model(), din.inum, NDIRECT + j;
      InvShape(sb, s);
      IndirectOk(sb, s, i);
      var ind := din.addrs[NDIRECT];
      var b := Take(i, bn);
      ghost var t := Model().(pending := {b});
      InvShape(sb, t);
      NotInUse(sb, s, b);
      ReservedAt(sb, s, b);
      SameAt(s, t, i, 13 + j);
      assert b in t.pending && t.disk[b] == ZEROS by { ReservedFields(sb, s, b); }
      LinkIndirectGrown(sb, t, i, j, b);
      LinkIndirectInv(sb, t, i, j, b);
      BitmapApart(sb, disk, ind, SetWord(disk[ind], j, b), freeblock);
      disk := disk[ind := SetWord(disk[ind], j, b)];
      owner := owner[b := Slot(i, 13 + j)];
      assert Model() == LinkIndirect(t, i, ind, j, b);
      InvShape(sb, Model());
      GrownTrans(sb, s, t, Model(), i, bn);
      ChangedAfter(s, t, Model(), i, 13 + j, b);
    }

    ghost predicate Room(n: nat)
      reads this
    {
      freeblock + n <= sb.size && freeblock + n <= BPB
    }

    /** The block for offset size of din, among the direct blocks. */
    method DirectBlock(din: Inode, fbn: nat, ghost size: nat) returns (x: nat)
      requires Valid() && Holds(din) && size < MAXFILE * BSIZE && fbn == size / BSIZE < NDIRECT
               && HasBlocks(Model(), din.inum, size)
      requires Room(Used(size + 1) - Used(size))
      modifies this, din
      ensures Valid() && Holds(din) && freeinode == old(freeinode) && dirty <= old(dirty) + {din.inum}
      ensures freeblock == old(freeblock) + Used(size + 1) - Used(size) && HasBlocks(Model(), din.inum, size + 1)
      ensures SameInodes(old(Model()), Model(), din.inum) && Grown(sb, old(Model()), Model(), din.inum, fbn)
      ensures x == At(Model(), din.inum, SlotOf(fbn)) && x != 0
    {
      hide Inv, Grown, At, WithBitmap, AtChanged, HasBlocks, Used;
      ghost var s, i := Model(), din.inum;
      InvShape(sb, s);
      GrownRefl(sb, s, i, fbn);
      BlockAt(s, i, size);
      AtDirect(s, i, fbn);
      DirectBlocks(s, i, size);
      if din.addrs[fbn] == 0 {
        TakeDirect(din, fbn, fbn);
        InvShape(sb, Model());
        MoreDirect(s, Model(), i, size, old(freeblock));
      }
      AtDirect(Model(), i, fbn);
      return din.addrs[fbn];
    }

    /** The same through the indirect block. */
    method IndirectBlock(din: Inode, fbn: nat, ghost size: nat) returns (x: nat)
      requires Valid() && Holds(din) && size < MAXFILE * BSIZE && fbn == size / BSIZE >= NDIRECT
               && HasBlocks(Model(), din.inum, size)
      requires Room(Used(size + 1) - Used(size))
      modifies this, din
      ensures Valid() && Holds(din) && freeinode == old(freeinode) && dirty <= old(dirty) + {din.inum}
      ensures freeblock == old(freeblock) + Used(size + 1) - Used(size) && HasBlocks(Model(), din.inum, size + 1)
      ensures SameInodes(old(Model()), Model(), din.inum) && Grown(sb, old(Model()), Model(), din.inum, fbn)
      ensures x == At(Model(), din.inum, SlotOf(fbn)) && x != 0
    {
      hide Inv, Grown, At, WithBitmap, AtChanged, HasBlocks, Used;
      ghost var s, i := Model(), din.inum;
      InvShape(sb, s);
      GrownRefl(sb, s, i, fbn);
      BlockAt(s, i, size);
      var j := fbn - NDIRECT;
      AtEntry(sb, s, i, j);
      TableBlocks(s, i, size);
      if din.addrs[NDIRECT] == 0 {
        TakeDirect(din, NDIRECT, fbn);
        InvShape(sb, Model());
        AtUnchanged(s, Model(), i, NDIRECT, old(freeblock), SlotOf(fbn));
      }
      ghost var t := Model();
      InvShape(sb, t);
      AtEntry(sb, t, i, j);
      IndirectOk(sb, t, i);
      var ind := din.addrs[NDIRECT];
      BitmapApart(sb, disk, ind, disk[ind], freeblock);
      x := Word(disk[ind], j);
      if x == 0 {
        x := freeblock;
        TakeIndirect(din, j);
        InvShape(sb, Model());
        GrownTrans(sb, s, t, Model(), i, fbn);
        MoreIndirect(s, t, Model(), i, size, old(freeblock), x);
        AtIs(t, Model(), i, 13 + j, x);
      }
    }

    /** The block for offset size of din, which has exactly the blocks below it. */
    method BlockFor(din: Inode, fbn: nat, ghost size: nat) returns (x: nat)
      requires Valid() && Holds(din) && size < MAXFILE * BSIZE && fbn == size / BSIZE
               && HasBlocks(Model(), din.inum, size)
      requires Room(Used(size + 1) - Used(size))
      modifies this, din
      ensures Valid() && Holds(din) && freeinode == old(freeinode) && dirty <= old(dirty) + {din.inum}
      ensures freeblock == old(freeblock) + Used(size + 1) - Used(size) && HasBlocks(Model(), din.inum, size + 1)
      ensures SameInodes(old(Model()), Model(), din.inum) && Grown(sb, old(Model()), Model(), din.inum, fbn)
      ensures x == At(Model(), din.inum, SlotOf(fbn)) && x != 0
    {
      hide Inv, Grown, At, WithBitmap, HasBlocks, Used, SameInodes;
      if fbn < NDIRECT {
        x := DirectBlock(din, fbn, size);
      } else {
        x := IndirectBlock(din, fbn, size);
      }
    }

    /** wsect() of a data block in use. */
    method WriteData(x: nat, blk: Block)
      requires Valid() && x in owner && Inv(sb, SetBlock(Model(), x, blk))
      modifies this`disk
      ensures Valid() && Model() == SetBlock(old(Model()), x, blk)
    {
      hide Inv, BitmapOf, WithBitmap;
      InvShape(sb, Model());
      BitmapApart(sb, disk, x, blk, freeblock);
      disk := disk[x := blk];
    }

    /** One turn of the loop of iappend(): the bytes up to the end of a block. */
    method AppendBlock(din: Inode, p: seq<Byte>, off: nat, tot: nat, ghost s: State) returns (n1: nat)
      requires Valid() && Holds(din) && Shape(sb, s) && Inv(sb, s) && off + |p| <= MAXFILE * BSIZE && tot < |p|
      requires HasBlocks(Model(), din.inum, off + tot) && SameInodes(s, Model(), din.inum)
      requires Wrote(sb, s, Model(), din.inum, off, p, tot) && Room(Used(off + |p|) - Used(off + tot))
      modifies this, din
      ensures 0 < n1 <= |p| - tot && Valid() && Holds(din) && freeinode == old(freeinode)
              && dirty <= old(dirty) + {din.inum}
      ensures Shape(sb, Model()) && HasBlocks(Model(), din.inum, off + tot + n1) && SameInodes(s, Model(), din.inum)
      ensures freeblock == old(freeblock) + Used(off + tot + n1) - Used(off + tot)
      ensures Wrote(sb, s, Model(), din.inum, off, p, tot + n1)
    {
      hide Inv, Grown, At, WithBitmap, HasBlocks, Used, Wrote, Patched;
      ghost var t, i := Model(), din.inum;
      InvShape(sb, t);
      var at := off + tot;
      UsedMono(at + 1, off + |p|);
      var x := BlockFor(din, at / BSIZE, at);
      ghost var u := Model();
      InvShape(sb, u);
      WroteGrown(sb, s, t, u, i, off, p, tot, at / BSIZE);
      n1 := if |p| - tot < (at / BSIZE + 1) * BSIZE - at then |p| - tot else (at / BSIZE + 1) * BSIZE - at;
      assert n1 <= BSIZE - at % BSIZE;
      WroteBlock(sb, s, u, i, off, p, tot, n1);
      OwnedBlock(sb, u, i, SlotOf(at / BSIZE));
      BitmapApart(sb, disk, x, disk[x], freeblock);
      WriteData(x, Patched(disk[x], at % BSIZE, p[tot..tot + n1]));
      InvShape(sb, Model());
      SameBlockCount(u, Model(), i, at, n1);
    }

    /** The loop of iappend(): the bytes go after the end of the file. */
    method AppendBlocks(din: Inode, p: seq<Byte>)
      requires Valid() && Holds(din) && HasBlocks(Model(), din.inum, din.size) && din.size + |p| <= MAXFILE * BSIZE
      requires Room(Used(din.size + |p|) - Used(din.size))
      modifies this, din
      ensures Valid() && Holds(din) && freeinode == old(freeinode) && dirty <= old(dirty) + {din.inum}
      ensures freeblock == old(freeblock) + Used(din.size + |p|) - Used(din.size)
              && HasBlocks(Model(), din.inum, din.size + |p|)
      ensures SameInodes(old(Model()), Model(), din.inum)
              && Wrote(sb, old(Model()), Model(), din.inum, din.size, p, |p|)
    {
      hide Inv, Grown, At, WithBitmap, HasBlocks, Used, Wrote, Patched;
      ghost var s, i := Model(), din.inum;
      InvShape(sb, s);
      var off, tot := din.size, 0;
      WroteRefl(sb, s, i, off, p);
      while tot < |p|
        invariant tot <= |p| && Valid() && Holds(din) && freeinode == old(freeinode) && dirty <= old(dirty) + {i}
        invariant Shape(sb, s) && Shape(sb, Model()) && HasBlocks(Model(), i, off + tot) && SameInodes(s, Model(), i)
        invariant freeblock == old(freeblock) + Used(off + tot) - Used(off)
        invariant Wrote(sb, s, Model(), i, off, p, tot)
      {
        var n1 := AppendBlock(din, p, off, tot, s);
        tot := tot + n1;
      }
    }

    /** winode(). */
    method Winode(din: Inode)
      requires Valid() && Holds(din)
      modifies this
      ensures Valid() && Holds(din) && IBlock(sb, din.inum) < sb.size && Model() == Updated(sb, old(Model()), din.inum)
      ensures inos == old(inos) && owner == old(owner) && dirty == old(dirty) - {din.inum}
      ensures freeblock == old(freeblock) && freeinode == old(freeinode)
    {
      hide Inv, At, StoreWords, BitmapOf, WithBitmap;
      ghost var s := Model();
      InvShape(sb, s);
      UpdatedInv(sb, s, din.inum);
      Regions(sb, 0, din.inum);
      var b := IBlock(sb, din.inum);
      var blk := StoreWords(disk[b], din.inum % IPB * 16, [din.meta0, din.meta1, din.size] + din.addrs);
      BitmapApart(sb, disk, b, blk, freeblock);
      disk := disk[b := blk];
      dirty := dirty - {din.inum};
      assert Model() == Updated(sb, s, din.inum);
    }

    /** rinode(): what is on disk is the inode. */
    method Rinode(inum: nat) returns (din: Inode)
      requires Valid() && inum < |inos| && inum !in dirty
      ensures fresh(din) && din.inum == inum && Holds(din)
    {
      hide Inv, BitmapOf;
      InvShape(sb, Model());
      Regions(sb, 0, inum);
      OnDisk(sb, Model(), inum);
      din := new Inode(inum, DinodeAt(sb, disk, inum));
    }

    /** iappend(): the bytes are appended to the file, and other files are as they were. */
    method Iappend(inum: nat, p: seq<Byte>)
      requires Valid() && dirty == {} && inum < |inos| && inos[inum].size + |p| <= MAXFILE * BSIZE
      requires Room(Used(inos[inum].size + |p|) - Used(inos[inum].size)) && AllExact(sb, Model())
      modifies this
      ensures Valid() && dirty == {} && AllExact(sb, Model()) && freeinode == old(freeinode)
      ensures freeblock == old(freeblock) + Used(inos[inum].size) - Used(old(inos)[inum].size)
      ensures Appended(sb, old(Model()), Model(), inum, p)
    {
      hide Inv, At, WithBitmap, HasBlocks, Used, Wrote, AllExact, Appended, SameInodes, Updated;
      ghost var s, i := Model(), inum;
      InvShape(sb, s);
      var din := Rinode(inum);
      ExactBlocks(sb, s, i);
      AppendBlocks(din, p);
      ghost var t := Model();
      InvShape(sb, t);
      SizeSame(s, t, i);
      if |p| > 0 {
        ResizedInv(sb, t, i, din.size + |p|);
        din.size := din.size + |p|;
        inos, dirty := inos[i := inos[i].(size := din.size)], dirty + {i};
        assert Model() == Resized(t, i, din.size);
      }
      ghost var u := Model();
      InvShape(sb, u);
      Winode(din);
      InvShape(sb, Model());
      AppendDone(sb, s, t, u, Model(), i, p);
    }

    /** Copying a file into the image, a block at a time. */
    method AppendFile(inum: nat, data: seq<Byte>)
      requires Valid() && dirty == {} && inum < |inos| && inos[inum].size + |data| <= MAXFILE * BSIZE
      requires Room(Used(inos[inum].size + |data|) - Used(inos[inum].size)) && AllExact(sb, Model())
      modifies this
      ensures Valid() && dirty == {} && AllExact(sb, Model()) && freeinode == old(freeinode)
      ensures freeblock == old(freeblock) + Used(inos[inum].size) - Used(old(inos)[inum].size)
      ensures Appended(sb, old(Model()), Model(), inum, data)
    {
      hide Inv, At, WithBitmap, HasBlocks, Used, AllExact, Appended;
      ghost var s, i := Model(), inum;
      InvShape(sb, s);
      ExactBlocks(sb, s, i);
      AppendedNothing(sb, s, i);
      var done := 0;
      while done < |data|
        invariant done <= |data| && Valid() && dirty == {} && freeinode == old(freeinode) && |inos| == |s.inos|
        invariant Shape(sb, Model()) && AllExact(sb, Model()) && Appended(sb, s, Model(), i, data[..done])
        invariant inos[i].size == s.inos[i].size + done
        invariant freeblock == old(freeblock) + Used(inos[i].size) - Used(s.inos[i].size)
      {
        ghost var t := Model();
        var cc := if |data| - done < BSIZE then |data| - done else BSIZE;
        UsedMono(inos[i].size + cc, s.inos[i].size + |data|);
        Iappend(inum, data[done..done + cc]);
        InvShape(sb, Model());
        AppendedSize(sb, t, Model(), i, data[done..done + cc]);
        AppendedTrans(sb, s, t, Model(), i, data[..done], data[done..done + cc]);
        assert data[..done] + data[done..done + cc] == data[..done + cc];
        done := done + cc;
      }
      assert data[..done] == data;
    }

    /** ialloc(): the next inode, with no blocks. */
    method Ialloc(meta0: nat, meta1: nat) returns (inum: nat)
      requires Valid() && dirty == {} && freeinode < |inos| && IsWord(meta0) && IsWord(meta1)
               && inos[freeinode] == NewIno(0, 0)
      modifies this
      ensures Valid() && dirty == {} && inum == old(freeinode) && freeinode == inum + 1 && freeblock == old(freeblock)
      ensures inos == old(inos)[inum := NewIno(meta0, meta1)] && SameFiles(sb, old(Model()), Model(), inum)
    {
      hide Inv, At, WithBitmap, Updated;
      ghost var s := Model();
      InvShape(sb, s);
      inum := freeinode;
      freeinode := freeinode + 1;
      var din := new Inode(inum, NewIno(meta0, meta1));
      RemetaInv(sb, s, inum, meta0, meta1);
      inos, dirty := inos[inum := NewIno(meta0, meta1)], dirty + {inum};
      assert Model() == Remeta(s, inum, meta0, meta1);
      ghost var t := Model();
      InvShape(sb, t);
      Winode(din);
      InvShape(sb, Model());
      UpdatedInv(sb, t, inum);
      UpdatedFields(sb, t, inum);
      Regions(sb, 0, inum);
    }

    /** The image holds the root directory and the first k files, and nothing else. */
    ghost predicate Holding(head: seq<Byte>, files: seq<(seq<Byte>, seq<Byte>)>, k: nat)
      requires k <= |files|
      reads this
    {
      && Valid() && dirty == {} && freeinode == 2 + k <= |inos| && AllExact(sb, Model())
      && inos[1].size == 16 * (2 + k) && (forall j :: 2 + k <= j < |inos| ==> inos[j] == NewIno(0, 0))
      && freeblock == sb.datastart + Used(16 * (2 + k)) + SumUsed(files, k)
      && FileIs(Model(), 1, Entries(head, files, k)) && (forall j :: 0 <= j < k ==> FileIs(Model(), 2 + j, files[j].1))
    }

    /** One file: its inode, its directory entry and its contents. */
    method AddFile(ghost head: seq<Byte>, ghost files: seq<(seq<Byte>, seq<Byte>)>, ghost k: nat,
                   name: seq<Byte>, data: seq<Byte>)
      requires k < |files| && Holding(head, files, k) && Fits(sb, |inos|, files) && files[k] == (name, data)
      modifies this
      ensures Holding(head, files, k + 1) && |inos| == |old(inos)|
    {
      hide FileIs, Inv, At, WithBitmap, HasBlocks, AllExact, Appended, SameFiles, SumUsed, Used, ByteAt;
      ghost var s := Model();
      InvShape(sb, s);
      FitsAt(sb, |inos|, files, k);
      var inum := Ialloc(T_FILE, 0x1_0000);
      ghost var t := Model();
      InvShape(sb, t);
      AllocExact(sb, s, t, inum);
      var entry := Dirent(inum, name);
      Iappend(1, entry);
      ghost var u := Model();
      InvShape(sb, u);
      AppendedSize(sb, t, u, 1, entry);
      OthersSame(sb, t, u, 1, entry);
      AppendFile(inum, data);
      InvShape(sb, Model());
      AppendedSize(sb, u, Model(), inum, data);
      OthersSame(sb, u, Model(), inum, data);
      forall j | 0 <= j < k + 1 ensures FileIs(Model(), 2 + j, files[j].1) {
        if j < k {
          assert FileIs(s, 2 + j, files[j].1);
          FileStays(sb, s, t, u, Model(), inum, entry, data, 2 + j, files[j].1);
        } else {
          FileAdded(sb, t, u, Model(), inum, entry, data);
        }
      }
      RootGrows(sb, s, t, u, Model(), inum, entry, data, Entries(head, files, k));
    }

    /** The last words of main(): the size of the root directory is raised to a multiple of BSIZE. */
    method FixRoot()
      requires Valid() && dirty == {} && 1 < |inos| && AllExact(sb, Model()) && inos[1].size < MAXFILE * BSIZE
      modifies this
      ensures Valid() && dirty == {} && |inos| == |old(inos)| && freeblock == old(freeblock)
      ensures inos[1].size == (old(inos)[1].size / BSIZE + 1) * BSIZE
      ensures NoHoles(Model(), 1) <==> old(inos)[1].size % BSIZE != 0
      ensures forall data :: FileIs(old(Model()), 1, data) ==> StartsWith(Model(), 1, data)
      ensures forall x :: 0 <= x < |inos| && x != 1 ==> inos[x] == old(inos)[x] && NoHoles(Model(), x)
      ensures forall x, data :: x != 1 && FileIs(old(Model()), x, data) ==> FileIs(Model(), x, data)
    {
      hide Inv, At, WithBitmap, HasBlocks, AllExact, Updated, ByteAt;
      ghost var s := Model();
      InvShape(sb, s);
      ExactOf(sb, s, 1);
      var din := Rinode(1);
      ghost var off := din.size;
      din.size := (din.size / BSIZE + 1) * BSIZE;
      ResizedInv(sb, s, 1, din.size);
      inos, dirty := inos[1 := inos[1].(size := din.size)], dirty + {1};
      assert Model() == Resized(s, 1, din.size);
      ghost var t := Model();
      InvShape(sb, t);
      Winode(din);
      InvShape(sb, Model());
      FixedRoot(sb, s, t, Model(), din.size);
    }

    /** balloc(used): the bitmap is written, and the image on disk is complete. */
    method WriteBitmap()
      requires Valid()
      modifies this
      ensures Valid() && inos == old(inos) && owner == old(owner) && dirty == old(dirty) && Model() == old(Model())
      ensures State(disk, inos, owner, {}, dirty) == Model()
    {
      hide Inv, SetBit;
      var buf := ZEROS;
      for i := 0 to freeblock
        invariant buf == BitmapOf(i)
      {
        buf := SetBit(buf, i, true);
      }
      ghost var d := disk;
      disk := disk[sb.bmapstart := buf];
      assert disk == WithBitmap(sb, d, freeblock) == WithBitmap(sb, disk, freeblock);
      assert Model() == old(Model());
      assert sb.bmapstart < freeblock by { InvShape(sb, Model()); }
    }

    /**
     main(): a root directory and the files, given by name and contents.  The finished image
     satisfies the file system's invariants and holds the files, and the root directory names
     them.  No file has a hole, but for the root directory, which has one if and only if its
     entries fill whole blocks.
     */
    method Build(files: seq<(seq<Byte>, seq<Byte>)>)
      requires Valid() && dirty == {} && freeinode == 1 && inos == NewInos(|inos|) && AllExact(sb, Model())
      requires freeblock == sb.datastart && Fits(sb, |inos|, files)
      modifies this
      ensures |inos| == |old(inos)| && 1 < |inos| && Inv(sb, State(disk, inos, owner, {}, {}))
      ensures var s := State(disk, inos, owner, {}, {});
              && StartsWith(s, 1, Entries(DotEntries(), files, |files|))
              && (forall k :: 0 <= k < |files| ==> FileIs(s, 2 + k, files[k].1))
              && (forall x :: 0 <= x < |inos| && x != 1 ==> NoHoles(s, x))
              && (NoHoles(s, 1) <==> 16 * (2 + |files|) % BSIZE != 0)
    {
      hide Inv, At, WithBitmap, HasBlocks, AllExact, SameFiles, Appended, Used, NoHoles, FileIs, SumUsed, Fits,
           StartsWith, Dirent;
      hide DotEntries, Entries;
      MakeRoot(files);
      for k := 0 to |files|
        invariant Holding(DotEntries(), files, k) && |inos| == |old(inos)|
      {
        AddFile(DotEntries(), files, k, files[k].0, files[k].1);
      }
      FitsStart(sb, |inos|, files);
      FixRoot();
      WriteBitmap();
    }

    /** The root directory with its first two entries. */
    method MakeRoot(ghost files: seq<(seq<Byte>, seq<Byte>)>)
      requires Valid() && dirty == {} && freeinode == 1 && inos == NewInos(|inos|) && AllExact(sb, Model())
      requires freeblock == sb.datastart && Fits(sb, |inos|, files)
      modifies this
      ensures Holding(DotEntries(), files, 0) && |inos| == |old(inos)|
    {
      hide Inv, At, WithBitmap, HasBlocks, AllExact, SameFiles, Appended, Used, NoHoles, FileIs, SumUsed, Fits;
      hide StartsWith, Dirent, DotEntries, Entries;
      ghost var s := Model();
      InvShape(sb, s);
      FitsStart(sb, |inos|, files);
      var root := Ialloc(T_DIR, 0x1_0000);
      var dot, dotdot := Dirent(root, PADDED_DOT), Dirent(root, PADDED_DOTDOT);
      DotSizes(root, dot, dotdot);
      ghost var t := Model();
      InvShape(sb, t);
      AllocExact(sb, s, t, 1);
      Iappend(1, dot);
      ghost var u := Model();
      InvShape(sb, u);
      AppendedSize(sb, t, u, 1, dot);
      OthersSame(sb, t, u, 1, dot);
      Iappend(1, dotdot);
      InvShape(sb, Model());
      AppendedSize(sb, u, Model(), 1, dotdot);
      OthersSame(sb, u, Model(), 1, dotdot);
      RootStarts(sb, t, u, Model(), dot, dotdot);
      NoEntries(DotEntries(), files);
    }
  }

  ghost predicate FileIs(s: State, i: nat, data: seq<Byte>) {
    i < |s.inos| && GoodIno(s.inos[i]) && s.inos[i].size <= MAXFILE * BSIZE && Content(s, i) == data
  }

  /** The first bytes of file i. */
  ghost predicate StartsWith(s: State, i: nat, data: seq<Byte>) {
    && i < |s.inos| && GoodIno(s.inos[i]) && |data| <= s.inos[i].size <= MAXFILE * BSIZE
    && forall k :: 0 <= k < |data| ==> ByteAt(s, i, k) == data[k]
  }

  /** struct dirent: a 16-bit inode number and a name of DIRSIZ bytes. */
  function Dirent(inum: nat, name: seq<Byte>): (e: seq<Byte>) {
    [inum % 256, inum / 256 % 256] + name
  }

  function EntryInum(e: seq<Byte>): (inum: int)
    requires |e| == 16
  {
    e[0] as int + 256 * (e[1] as int)
  }

  const PADDED_DOT: seq<Byte> := [46, 0, 0, 0, 0, 0, 0, 0, 0, 0, 0, 0, 0, 0]
  const PADDED_DOTDOT: seq<Byte> := [46, 46, 0, 0, 0, 0, 0, 0, 0, 0, 0, 0, 0, 0]

  /** "." and "..", both for the root directory. */
  function DotEntries(): (e: seq<Byte>) {
    Dirent(1, PADDED_DOT) + Dirent(1, PADDED_DOTDOT)
  }

  lemma DotSizes(root: nat, dot: seq<Byte>, dotdot: seq<Byte>)
    requires root == 1 && dot == Dirent(root, PADDED_DOT) && dotdot == Dirent(root, PADDED_DOTDOT)
    ensures |dot| == 16 && |dotdot| == 16 && dot + dotdot == DotEntries()
  {
  }

  lemma NoEntries(head: seq<Byte>, files: seq<(seq<Byte>, seq<Byte>)>)
    ensures Entries(head, files, 0) == head
  {
  }

  lemma DirentNames(inum: nat, name: seq<Byte>)
    requires inum < 0x1_0000 && |name| == 14
    ensures |Dirent(inum, name)| == 16 && EntryInum(Dirent(inum, name)) == inum && Dirent(inum, name)[2..] == name
  {
  }

  lemma SliceKept(a: seq<Byte>, b: seq<Byte>, lo: nat, hi: nat)
    requires lo <= hi <= |a|
    ensures (a + b)[lo..hi] == a[lo..hi]
  {
  }

  lemma SliceLast(a: seq<Byte>, b: seq<Byte>)
    ensures (a + b)[|a|..|a| + |b|] == b
  {
  }

  /** Entry k after the first ones has the name of file k and leads to inode 2 + k. */
  lemma {:induction false} EntryNames(head: seq<Byte>, files: seq<(seq<Byte>, seq<Byte>)>, k: nat, n: nat)
    requires k < n <= |files| && n < 0x8000 && forall j :: 0 <= j < |files| ==> |files[j].0| == 14
    ensures |Entries(head, files, n)| == |head| + 16 * n
    ensures var e := Entries(head, files, n)[|head| + 16 * k..|head| + 16 * k + 16];
            EntryInum(e) == 2 + k && e[2..] == files[k].0
    decreases n
  {
    hide Dirent, EntryInum;
    var last := Dirent(2 + (n - 1), files[n - 1].0);
    DirentNames(2 + (n - 1), files[n - 1].0);
    EntriesSize(head, files, n - 1);
    if k < n - 1 {
      EntryNames(head, files, k, n - 1);
      SliceKept(Entries(head, files, n - 1), last, |head| + 16 * k, |head| + 16 * k + 16);
    } else {
      SliceLast(Entries(head, files, n - 1), last);
    }
  }

  lemma {:induction false} EntriesSize(head: seq<Byte>, files: seq<(seq<Byte>, seq<Byte>)>, n: nat)
    requires n <= |files| && forall j :: 0 <= j < |files| ==> |files[j].0| == 14
    ensures |Entries(head, files, n)| == |head| + 16 * n
    decreases n
  {
    if n > 0 {
      EntriesSize(head, files, n - 1);
    }
  }

  /** The root directory: its first entries, and one for each of the first k files. */
  ghost function Entries(head: seq<Byte>, files: seq<(seq<Byte>, seq<Byte>)>, k: nat): (e: seq<Byte>)
    requires k <= |files|
  {
    if k == 0 then head else Entries(head, files, k - 1) + Dirent(2 + (k - 1), files[k - 1].0)
  }

  lemma RootGrows(sb: Super, s: State, t: State, u: State, v: State, inum: nat, entry: seq<Byte>, data: seq<Byte>,
                  was: seq<Byte>)
    requires Inv(sb, s) && Shape(sb, t) && Shape(sb, u) && Shape(sb, v) && AllExact(sb, s) && AllExact(sb, t)
             && AllExact(sb, u)
    requires 1 < inum < |s.inos| && SameFiles(sb, s, t, inum) && t.inos[1].size <= MAXFILE * BSIZE
             && Appended(sb, t, u, 1, entry)
    requires u.inos[inum].size <= MAXFILE * BSIZE && Appended(sb, u, v, inum, data) && FileIs(s, 1, was)
    ensures FileIs(v, 1, was + entry)
  {
    hide Inv, At, ByteAt, AllExact, Appended, SameFiles;
    InvShape(sb, s);
    ExactOf(sb, s, 1);
    AllocOthers(sb, s, t, inum, 1);
    AppendedSelf(sb, t, u, 1, entry);
    ExactOf(sb, u, 1);
    AppendedOther(sb, u, v, inum, data, 1);
    OthersSame(sb, u, v, inum, data);
  }

  lemma RootStarts(sb: Super, t: State, u: State, v: State, dot: seq<Byte>, dotdot: seq<Byte>)
    requires Shape(sb, t) && Shape(sb, u) && Shape(sb, v) && 1 < |t.inos| && t.inos[1].size == 0
    requires Appended(sb, t, u, 1, dot) && u.inos[1].size <= MAXFILE * BSIZE && Appended(sb, u, v, 1, dotdot)
    ensures FileIs(v, 1, dot + dotdot)
  {
    hide At, ByteAt, Appended;
    AppendedSelf(sb, t, u, 1, dot);
    AppendedSelf(sb, u, v, 1, dotdot);
    assert Content(t, 1) == [];
    assert [] + dot == dot;
  }

  /** Raising the size of the root directory moves none of its entries. */
  lemma RootKept(sb: Super, s: State, v: State, data: seq<Byte>)
    requires Inv(sb, s) && Shape(sb, v) && |v.inos| == |s.inos| && SameAts(s, v) && 1 < |s.inos| && NoHoles(s, 1)
    requires forall b :: sb.datastart <= b < sb.size ==> v.disk[b] == s.disk[b]
    requires s.inos[1].size <= v.inos[1].size <= MAXFILE * BSIZE && FileIs(s, 1, data)
    ensures StartsWith(v, 1, data)
  {
    hide At;
    forall k | 0 <= k < |data| ensures ByteAt(v, 1, k) == data[k] {
      BlockExists(s, 1, k);
      assert SlotOk(sb, s, 1, SlotOf(k / BSIZE));
      assert Content(s, 1)[k] == ByteAt(s, 1, k);
    }
  }

  lemma FileStays(sb: Super, s: State, t: State, u: State, v: State, inum: nat, entry: seq<Byte>, data: seq<Byte>,
                  x: nat, was: seq<Byte>)
    requires Inv(sb, s) && Shape(sb, t) && Shape(sb, u) && Shape(sb, v) && AllExact(sb, s) && AllExact(sb, t)
             && AllExact(sb, u)
    requires 1 < |s.inos| && inum < |s.inos| && SameFiles(sb, s, t, inum) && t.inos[1].size <= MAXFILE * BSIZE
             && Appended(sb, t, u, 1, entry)
    requires u.inos[inum].size <= MAXFILE * BSIZE && Appended(sb, u, v, inum, data)
    requires x < |s.inos| && x != 1 && x != inum && FileIs(s, x, was)
    ensures FileIs(v, x, was)
  {
    hide Inv, At, ByteAt, AllExact, Appended, SameFiles;
    InvShape(sb, s);
    ExactOf(sb, s, x);
    AllocOthers(sb, s, t, inum, x);
    AppendedOther(sb, t, u, 1, entry, x);
    AppendedOther(sb, u, v, inum, data, x);
  }

  lemma FileAdded(sb: Super, t: State, u: State, v: State, inum: nat, entry: seq<Byte>, data: seq<Byte>)
    requires Shape(sb, t) && Shape(sb, u) && Shape(sb, v) && AllExact(sb, t) && 1 < inum < |t.inos|
    requires t.inos[1].size <= MAXFILE * BSIZE && Appended(sb, t, u, 1, entry) && t.inos[inum].size == 0
    requires u.inos[inum].size <= MAXFILE * BSIZE && Appended(sb, u, v, inum, data)
    ensures FileIs(v, inum, data)
  {
    hide At, ByteAt, AllExact, Appended;
    ExactOf(sb, t, inum);
    AppendedOther(sb, t, u, 1, entry, inum);
    AppendedSelf(sb, u, v, inum, data);
    assert Content(t, inum) == [];
  }

  lemma FitsStart(sb: Super, ninodes: nat, files: seq<(seq<Byte>, seq<Byte>)>)
    requires Fits(sb, ninodes, files)
    ensures 2 <= ninodes && 16 * (2 + |files|) < MAXFILE * BSIZE
    ensures Used(0) == 0 && Used(16) <= Used(32) <= Used(16 * (2 + |files|)) && SumUsed(files, 0) == 0
    ensures sb.datastart + Used(16 * (2 + |files|)) <= sb.size && sb.datastart + Used(16 * (2 + |files|)) <= BPB
  {
    hide Used;
    UsedMono(16, 32);
    UsedMono(32, 16 * (2 + |files|));
    UsedZero();
  }

  /**
   The root directory after its size is raised: its last block is missing exactly if the size was a multiple of
   BSIZE.
   */
  lemma FixedRoot(sb: Super, s: State, t: State, v: State, size: nat)
    requires Inv(sb, s) && Inv(sb, t) && Inv(sb, v) && 1 < |s.inos| && AllExact(sb, s)
             && s.inos[1].size < MAXFILE * BSIZE
    requires size == (s.inos[1].size / BSIZE + 1) * BSIZE && t == Resized(s, 1, size) && IBlock(sb, 1) < |t.disk|
             && v == Updated(sb, t, 1)
    ensures NoHoles(v, 1) <==> s.inos[1].size % BSIZE != 0
    ensures forall data :: FileIs(s, 1, data) ==> StartsWith(v, 1, data)
    ensures forall x :: 0 <= x < |v.inos| && x != 1 ==> v.inos[x] == s.inos[x] && NoHoles(v, x)
    ensures forall x, data :: x != 1 && FileIs(s, x, data) ==> FileIs(v, x, data)
  {
    hide Inv, At, StoreWords, ByteAt, StartsWith;
    InvShape(sb, s);
    InvShape(sb, v);
    UpdatedFields(sb, t, 1);
    Regions(sb, 0, 1);
    forall x | 0 <= x < |v.inos| && x != 1 ensures NoHoles(v, x) && Content(v, x) == Content(s, x) {
      ExactOf(sb, s, x);
      Untouched(sb, s, v, x);
    }
    UpdatedAts(sb, s, t, 1);
    RootHole(sb, s, v, size);
    ExactOf(sb, s, 1);
    forall data | FileIs(s, 1, data) ensures StartsWith(v, 1, data) {
      RootKept(sb, s, v, data);
    }
  }

  /** Which numbers of files leave the root directory with a hole. */
  lemma RootHoleCounts(n: nat)
    ensures 16 * (2 + n) % BSIZE == 0 <==> n % 64 == 62
  {
  }

  /** 62 or 126 empty files fit into the image that the kernel is built with, and their entries fill whole blocks. */
  lemma EmptyFilesFit(names: seq<seq<Byte>>)
    requires |names| % 64 == 62 && |names| < 190 && forall k :: 0 <= k < |names| ==> |names[k]| == 14
    ensures Fits(Layout(2000, 200, 30), 200, EmptyFiles(names)) && 16 * (2 + |EmptyFiles(names)|) % BSIZE == 0
  {
    NoBlocks(names, |names|);
    RootHoleCounts(|names|);
    assert Used(16 * (2 + |names|)) <= 3;
  }

  function EmptyFiles(names: seq<seq<Byte>>): (files: seq<(seq<Byte>, seq<Byte>)>) {
    seq(|names|, k requires 0 <= k < |names| => (names[k], []))
  }

  lemma {:induction false} NoBlocks(names: seq<seq<Byte>>, k: nat)
    requires k <= |names|
    ensures SumUsed(EmptyFiles(names), k) == 0
  {
    if k > 0 {
      NoBlocks(names, k - 1);
      UsedZero();
    }
  }

  /** Such an image: its root directory has a block that does not exist. */
  method ImageWithHole(super: Block, names: seq<seq<Byte>>) returns (image: Image)
    requires |names| % 64 == 62 && |names| < 190 && forall k :: 0 <= k < |names| ==> |names[k]| == 14
    ensures Inv(image.sb, State(image.disk, image.inos, image.owner, {}, {})) && 1 < |image.inos|
    ensures !NoHoles(State(image.disk, image.inos, image.owner, {}, {}), 1)
  {
    hide Inv, NoHoles, Exact, Used, SumUsed, StartsWith, FileIs, Fits;
    assert Layout(2000, 200, 30).datastart == 46;
    image := new Image(2000, 200, 30, super);
    assert |NewInos(200)| == 200;
    EmptyFilesFit(names);
    InvShape(image.sb, image.Model());
    image.Build(EmptyFiles(names));
  }

  lemma RootHole(sb: Super, s: State, v: State, size: nat)
    requires Shape(sb, s) && Shape(sb, v) && SameAts(s, v) && 1 < |s.inos| && AllExact(sb, s)
             && s.inos[1].size < MAXFILE * BSIZE
    requires size == (s.inos[1].size / BSIZE + 1) * BSIZE && v.inos[1].size == size
    ensures NoHoles(v, 1) <==> s.inos[1].size % BSIZE != 0
  {
    hide At;
    var off := s.inos[1].size;
    var last := off / BSIZE;
    ExactOf(sb, s, 1);
    assert last * BSIZE < size && last < MAXFILE;
    assert At(v, 1, SlotOf(last)) != 0 <==> last * BSIZE < off;
    if off % BSIZE != 0 {
      forall n | 0 <= n < MAXFILE && n * BSIZE < size ensures At(v, 1, SlotOf(n)) != 0 {
        assert n <= last && n * BSIZE < off;
      }
    }
  }

  const T_DIR: nat := 1
  const T_FILE: nat := 2

  function SumUsed(files: seq<(seq<Byte>, seq<Byte>)>, k: nat): (n: nat)
    requires k <= |files|
  {
    if k == 0 then 0 else SumUsed(files, k - 1) + Used(|files[k - 1].1|)
  }

  lemma {:induction false} SumUsedMono(files: seq<(seq<Byte>, seq<Byte>)>, j: nat, k: nat)
    requires j <= k <= |files|
    ensures SumUsed(files, j) <= SumUsed(files, k)
  {
    if j < k {
      SumUsedMono(files, j, k - 1);
    }
  }

  /** The files fit: into the inodes, into a file each, and into the blocks that one bitmap block covers. */
  ghost predicate Fits(sb: Super, ninodes: nat, files: seq<(seq<Byte>, seq<Byte>)>) {
    && 2 + |files| <= ninodes && 16 * (2 + |files|) < MAXFILE * BSIZE
    && (forall k :: 0 <= k < |files| ==> |files[k].0| == 14 && |files[k].1| <= MAXFILE * BSIZE)
    && sb.datastart + Used(16 * (2 + |files|)) + SumUsed(files, |files|) <= sb.size
    && sb.datastart + Used(16 * (2 + |files|)) + SumUsed(files, |files|) < BPB
  }

  lemma FitsAt(sb: Super, ninodes: nat, files: seq<(seq<Byte>, seq<Byte>)>, k: nat)
    requires Fits(sb, ninodes, files) && k < |files|
    ensures |files[k].0| == 14 && |files[k].1| <= MAXFILE * BSIZE && Used(0) == 0
    ensures SumUsed(files, k + 1) == SumUsed(files, k) + Used(|files[k].1|)
    ensures Used(16 * (2 + k)) <= Used(16 * (3 + k)) <= Used(16 * (2 + |files|))
    ensures SumUsed(files, k + 1) <= SumUsed(files, |files|)
  {
    hide Used;
    SumUsedMono(files, k + 1, |files|);
    UsedMono(16 * (2 + k), 16 * (3 + k));
    UsedMono(16 * (3 + k), 16 * (2 + |files|));
    UsedZero();
  }

  lemma UsedZero()
    ensures Used(0) == 0
  {
  }

  lemma ExactOf(sb: Super, s: State, i: nat)
    requires Shape(sb, s) && AllExact(sb, s) && i < |s.inos|
    ensures Exact(s, i) && NoHoles(s, i) && s.inos[i].size <= MAXFILE * BSIZE
  {
    hide At;
  }

  lemma AllocExact(sb: Super, s: State, t: State, i: nat)
    requires Shape(sb, s) && Shape(sb, t) && AllExact(sb, s) && SameFiles(sb, s, t, i) && i < |s.inos|
    requires t.inos[i].size == s.inos[i].size
    ensures AllExact(sb, t)
  {
    hide At;
    forall x | 0 <= x < |t.inos| ensures Exact(t, x) {
      assert Exact(s, x);
    }
  }

  lemma AllocOthers(sb: Super, s: State, t: State, i: nat, x: nat)
    requires Inv(sb, s) && Shape(sb, t) && SameFiles(sb, s, t, i) && x < |s.inos| && x != i && NoHoles(s, x)
    ensures NoHoles(t, x) && Content(t, x) == Content(s, x)
  {
    hide At;
    Untouched(sb, s, t, x);
  }

  lemma OthersSame(sb: Super, s: State, t: State, i: nat, p: seq<Byte>)
    requires Shape(sb, s) && Shape(sb, t) && i < |s.inos| && s.inos[i].size <= MAXFILE * BSIZE
             && Appended(sb, s, t, i, p)
    ensures forall x :: 0 <= x < |s.inos| && x != i ==> t.inos[x] == s.inos[x]
  {
  }

  lemma AppendedOther(sb: Super, s: State, t: State, i: nat, p: seq<Byte>, x: nat)
    requires Shape(sb, s) && Shape(sb, t) && i < |s.inos| && s.inos[i].size <= MAXFILE * BSIZE
             && Appended(sb, s, t, i, p)
    requires x < |s.inos| && x != i && NoHoles(s, x)
    ensures NoHoles(t, x) && Content(t, x) == Content(s, x)
  {
    hide At, ByteAt;
  }

  lemma AppendedSelf(sb: Super, s: State, t: State, i: nat, p: seq<Byte>)
    requires Shape(sb, s) && Shape(sb, t) && i < |s.inos| && s.inos[i].size <= MAXFILE * BSIZE
             && Appended(sb, s, t, i, p)
    ensures t.inos[i].size <= MAXFILE * BSIZE && Content(t, i) == Content(s, i) + p
  {
    hide At, ByteAt;
  }

  lemma AppendedNothing(sb: Super, s: State, i: nat)
    requires Shape(sb, s) && i < |s.inos| && s.inos[i].size <= MAXFILE * BSIZE
    ensures Appended(sb, s, s, i, [])
  {
  }

  lemma AppendedSize(sb: Super, s: State, t: State, i: nat, p: seq<Byte>)
    requires Shape(sb, s) && Shape(sb, t) && i < |s.inos| && s.inos[i].size <= MAXFILE * BSIZE
             && Appended(sb, s, t, i, p)
    ensures t.inos[i].size == s.inos[i].size + |p| && t.inos[i].size <= MAXFILE * BSIZE
  {
  }

  lemma AppendedTrans(sb: Super, s: State, t: State, u: State, i: nat, a: seq<Byte>, b: seq<Byte>)
    requires Shape(sb, s) && Shape(sb, t) && Shape(sb, u) && i < |s.inos| && s.inos[i].size <= MAXFILE * BSIZE
    requires Appended(sb, s, t, i, a) && t.inos[i].size <= MAXFILE * BSIZE && Appended(sb, t, u, i, b)
    ensures Appended(sb, s, u, i, a + b)
  {
    hide At, NoHoles, ByteAt;
  }

  /** All addresses and all data blocks are the same, and all inodes but i. */
  ghost predicate SameFiles(sb: Super, s: State, t: State, i: nat)
    requires Shape(sb, s) && Shape(sb, t)
  {
    && SameAts(s, t)
    && (forall x :: 0 <= x < |s.inos| && x != i ==> t.inos[x] == s.inos[x])
    && (forall b :: sb.datastart <= b < sb.size ==> t.disk[b] == s.disk[b])
  }

  ghost function Remeta(s: State, i: nat, meta0: nat, meta1: nat): (t: State)
    requires i < |s.inos|
  {
    s.(inos := s.inos[i := s.inos[i].(meta0 := meta0, meta1 := meta1)], dirty := s.dirty + {i})
  }

  lemma RemetaInv(sb: Super, s: State, i: nat, meta0: nat, meta1: nat)
    requires Inv(sb, s) && i < |s.inos| && IsWord(meta0) && IsWord(meta1)
    ensures Inv(sb, Remeta(s, i, meta0, meta1)) && SameAts(s, Remeta(s, i, meta0, meta1))
  {
    var t := Remeta(s, i, meta0, meta1);
    forall x, y | 0 <= x < |s.inos| && 0 <= y < SLOTS ensures At(t, x, y) == At(s, x, y) && SlotOk(sb, t, x, y) {
      assert SlotOk(sb, s, x, y);
    }
    forall c: nat ensures OwnerOk(sb, t, c) {
      assert OwnerOk(sb, s, c);
    }
    forall c | 0 <= c < sb.size ensures BitOk(sb, t, c) {
      assert BitOk(sb, s, c);
    }
    forall x | 0 <= x < |s.inos| ensures InoOk(sb, t, x) {
      assert InoOk(sb, s, x);
    }
  }

  lemma OnDisk(sb: Super, s: State, i: nat)
    requires Inv(sb, s) && i < |s.inos| && i !in s.dirty
    ensures IBlock(sb, i) < |s.disk| && DinodeAt(sb, s.disk, i) == s.inos[i]
  {
    Regions(sb, 0, i);
    assert InoOk(sb, s, i);
  }

  ghost predicate AllExact(sb: Super, s: State)
    requires Shape(sb, s)
  {
    forall x :: 0 <= x < |s.inos| ==> Exact(s, x)
  }

  /** p is appended to file i; every other file is as it was. */
  ghost predicate Appended(sb: Super, s: State, t: State, i: nat, p: seq<Byte>)
    requires Shape(sb, s) && Shape(sb, t) && i < |s.inos| && s.inos[i].size <= MAXFILE * BSIZE
  {
    && t.inos[i].size == s.inos[i].size + |p| && t.inos[i].size <= MAXFILE * BSIZE
    && Content(t, i) == Content(s, i) + p
    && (forall x :: 0 <= x < |s.inos| && x != i ==> t.inos[x] == s.inos[x])
    && (forall x :: 0 <= x < |s.inos| && x != i && NoHoles(s, x) ==> NoHoles(t, x) && Content(t, x) == Content(s, x))
  }

  lemma ExactBlocks(sb: Super, s: State, i: nat)
    requires Shape(sb, s) && AllExact(sb, s) && i < |s.inos|
    ensures HasBlocks(s, i, s.inos[i].size) && s.inos[i].size <= MAXFILE * BSIZE && NoHoles(s, i)
  {
    hide At;
    assert Exact(s, i);
  }

  lemma AppendDone(sb: Super, s: State, t: State, u: State, v: State, i: nat, p: seq<Byte>)
    requires Inv(sb, s) && Inv(sb, t) && Inv(sb, u) && Inv(sb, v) && i < |s.inos| && AllExact(sb, s)
    requires s.inos[i].size + |p| <= MAXFILE * BSIZE && SameInodes(s, t, i)
    requires Wrote(sb, s, t, i, s.inos[i].size, p, |p|) && HasBlocks(t, i, s.inos[i].size + |p|)
    requires u == if |p| > 0 then Resized(t, i, s.inos[i].size + |p|) else t
    requires IBlock(sb, i) < |u.disk| && v == Updated(sb, u, i)
    ensures AllExact(sb, v) && Appended(sb, s, v, i, p)
  {
    hide Inv, At, ByteAt, StoreWords, Updated, Wrote, HasBlocks;
    var off := s.inos[i].size;
    InvShape(sb, s);
    InvShape(sb, t);
    InvShape(sb, u);
    InvShape(sb, v);
    ExactBlocks(sb, s, i);
    UpdatedFields(sb, u, i);
    WriteiDone(sb, s, t, u, i, off, p, |p|);
    assert p[..|p|] == p;
    assert Spliced(Content(s, i), off, p) == Content(s, i) + p;
    forall x | 0 <= x < |s.inos| ensures Exact(v, x) {
      assert Exact(s, x);
      UpdatedAts(sb, t, u, i);
      BlocksOf(sb, s, t, v, i, x, p);
    }
  }

  lemma UpdatedAts(sb: Super, t: State, u: State, i: nat)
    requires Inv(sb, t) && Inv(sb, u) && i < |t.inos| && IBlock(sb, i) < |u.disk|
    requires u == t || exists size :: IsWord(size) && u == Resized(t, i, size)
    ensures Shape(sb, Updated(sb, u, i)) && SameAts(t, Updated(sb, u, i))
  {
    hide At, Updated;
    UpdatedInv(sb, u, i);
    if u != t {
      var size :| IsWord(size) && u == Resized(t, i, size);
      ResizedInv(sb, t, i, size);
    }
  }

  lemma BlocksOf(sb: Super, s: State, t: State, v: State, i: nat, x: nat, p: seq<Byte>)
    requires Shape(sb, s) && Shape(sb, t) && Shape(sb, v) && i < |s.inos| && x < |s.inos| && SameAts(t, v)
             && Exact(s, x)
    requires s.inos[i].size + |p| <= MAXFILE * BSIZE && HasBlocks(t, i, s.inos[i].size + |p|)
    requires Wrote(sb, s, t, i, s.inos[i].size, p, |p|)
    requires v.inos[i].size == s.inos[i].size + |p| && (x != i ==> v.inos[x].size == s.inos[x].size)
    ensures Exact(v, x)
  {
    hide At, ByteAt;
  }

  lemma OwnedBlock(sb: Super, s: State, i: nat, p: nat)
    requires Inv(sb, s) && i < |s.inos| && p < SLOTS && At(s, i, p) != 0
    ensures At(s, i, p) in s.owner && IsData(sb, At(s, i, p)) && At(s, i, p) < |s.disk|
  {
    hide At;
    assert SlotOk(sb, s, i, p);
  }

  lemma UsedMono(a: nat, b: nat)
    requires a <= b
    ensures Used(a) <= Used(b)
  {
  }

  /** Filling up a block needs no further block. */
  lemma SameBlockCount(s: State, t: State, i: nat, at: nat, m: nat)
    requires i < |s.inos| && i < |t.inos| && GoodIno(s.inos[i]) && GoodIno(t.inos[i]) && HasBlocks(s, i, at + 1)
    requires 0 < m <= BSIZE - at % BSIZE && forall y :: 0 <= y < SLOTS ==> At(t, i, y) == At(s, i, y)
    ensures HasBlocks(t, i, at + m) && Used(at + m) == Used(at + 1)
  {
    hide At;
    assert (at + m + BSIZE - 1) / BSIZE == at / BSIZE + 1 == (at + 1 + BSIZE - 1) / BSIZE;
    assert forall n :: 0 <= n < MAXFILE ==> (n * BSIZE < at + m <==> n * BSIZE < at + 1) by {
      forall n | 0 <= n < MAXFILE ensures n * BSIZE < at + m <==> n * BSIZE < at + 1 {
        Blocks(n, at, m);
      }
    }
    Blocks(NDIRECT, at, m);
  }

  lemma Blocks(n: nat, at: nat, m: nat)
    requires 0 < m <= BSIZE - at % BSIZE
    ensures n * BSIZE < at + m <==> n * BSIZE < at + 1
  {
    assert at == at / BSIZE * BSIZE + at % BSIZE;
    if n * BSIZE < at + m {
      assert n <= at / BSIZE;
    }
  }

  // ----- counting blocks -----

  lemma UsedNext(size: nat)
    ensures Used(size + 1)
              == Used(size) + (if size % BSIZE == 0 then 1 else 0) + (if size == NDIRECT * BSIZE then 1 else 0)
  {
  }

  lemma BlockAt(s: State, i: nat, size: nat)
    requires i < |s.inos| && GoodIno(s.inos[i]) && HasBlocks(s, i, size) && size < MAXFILE * BSIZE
    ensures size / BSIZE < MAXFILE && (At(s, i, SlotOf(size / BSIZE)) != 0 <==> size % BSIZE != 0)
  {
    hide At;
    assert size / BSIZE * BSIZE < size <==> size % BSIZE != 0;
  }

  lemma DirectBlocks(s: State, i: nat, size: nat)
    requires i < |s.inos| && GoodIno(s.inos[i]) && HasBlocks(s, i, size) && size / BSIZE < NDIRECT
    ensures size % BSIZE != 0 ==> HasBlocks(s, i, size + 1) && Used(size + 1) == Used(size)
    ensures size % BSIZE == 0 ==> Used(size + 1) == Used(size) + 1
  {
    hide At;
    UsedNext(size);
    SameBlocks(s, i, size);
  }

  lemma SameBlocks(s: State, i: nat, size: nat)
    requires i < |s.inos| && GoodIno(s.inos[i]) && HasBlocks(s, i, size)
    ensures size % BSIZE != 0 ==> HasBlocks(s, i, size + 1)
  {
    hide At;
    if size % BSIZE != 0 {
      assert forall n :: 0 <= n < MAXFILE ==> (n * BSIZE < size <==> n * BSIZE < size + 1);
    }
  }

  lemma MoreDirect(s: State, t: State, i: nat, size: nat, b: nat)
    requires |t.inos| == |s.inos| && (forall x :: 0 <= x < |s.inos| ==> GoodIno(s.inos[x]) && GoodIno(t.inos[x]))
    requires i < |s.inos| && HasBlocks(s, i, size) && size / BSIZE < NDIRECT && size % BSIZE == 0 && b != 0
    requires AtChanged(s, t, i, size / BSIZE, b)
    ensures HasBlocks(t, i, size + 1)
  {
    hide At;
    forall n | 0 <= n < MAXFILE ensures At(t, i, SlotOf(n)) != 0 <==> n * BSIZE < size + 1 {
      assert SlotOf(n) == size / BSIZE <==> n == size / BSIZE;
    }
  }

  lemma TableBlocks(s: State, i: nat, size: nat)
    requires i < |s.inos| && GoodIno(s.inos[i]) && HasBlocks(s, i, size) && NDIRECT <= size / BSIZE
             && size < MAXFILE * BSIZE
    ensures s.inos[i].addrs[NDIRECT] == 0 <==> size == NDIRECT * BSIZE
    ensures Used(size + 1)
              == Used(size) + (if size % BSIZE == 0 then 1 else 0) + (if size == NDIRECT * BSIZE then 1 else 0)
    ensures size % BSIZE != 0 ==> HasBlocks(s, i, size + 1)
  {
    hide At;
    AtDirect(s, i, NDIRECT);
    UsedNext(size);
    SameBlocks(s, i, size);
  }

  lemma MoreIndirect(s: State, t: State, u: State, i: nat, size: nat, b: nat, c: nat)
    requires |u.inos| == |t.inos| == |s.inos|
    requires forall x :: 0 <= x < |s.inos| ==> GoodIno(s.inos[x]) && GoodIno(t.inos[x]) && GoodIno(u.inos[x])
    requires i < |s.inos| && HasBlocks(s, i, size) && NDIRECT <= size / BSIZE && size < MAXFILE * BSIZE
             && size % BSIZE == 0
    requires b != 0 && c != 0 && (if size == NDIRECT * BSIZE then AtChanged(s, t, i, NDIRECT, b) else t == s)
    requires AtChanged(t, u, i, SlotOf(size / BSIZE), c)
    ensures HasBlocks(u, i, size + 1)
  {
    hide At;
    forall n | 0 <= n < MAXFILE ensures At(u, i, SlotOf(n)) != 0 <==> n * BSIZE < size + 1 {
      assert SlotOf(n) == SlotOf(size / BSIZE) <==> n == size / BSIZE;
    }
  }

  lemma AtIs(s: State, t: State, i: nat, p: nat, b: nat)
    requires |t.inos| == |s.inos| && (forall x :: 0 <= x < |s.inos| ==> GoodIno(s.inos[x]) && GoodIno(t.inos[x]))
    requires AtChanged(s, t, i, p, b) && i < |s.inos| && p < SLOTS
    ensures At(t, i, p) == b
  {
  }

  lemma SameAt(s: State, t: State, i: nat, y: nat)
    requires |t.inos| == |s.inos| && (forall x :: 0 <= x < |s.inos| ==> GoodIno(s.inos[x]) && GoodIno(t.inos[x]))
    requires SameAts(s, t) && i < |s.inos| && y < SLOTS
    ensures At(t, i, y) == At(s, i, y)
  {
  }

  /** wsect() of a block other than the bitmap. */
  lemma BitmapApart(sb: Super, disk: seq<Block>, b: nat, blk: Block, n: nat)
    requires sb.bmapstart < |disk| && b < |disk| && b != sb.bmapstart && n <= BPB
    ensures WithBitmap(sb, disk, n)[b] == disk[b]
    ensures WithBitmap(sb, disk[b := blk], n) == WithBitmap(sb, disk, n)[b := blk]
  {
    hide BitmapOf;
  }

  lemma ReservedAt(sb: Super, s: State, b: nat)
    requires Inv(sb, s) && IsData(sb, b) && !BlockBit(sb, s.disk, b)
    ensures Shape(sb, Reserved(sb, s, b)) && SameAts(s, Reserved(sb, s, b))
  {
    hide At;
    ReservedInv(sb, s, b);
  }

  ghost predicate SameAts(s: State, t: State)
    requires |t.inos| == |s.inos|
    requires forall x :: 0 <= x < |s.inos| ==> GoodIno(s.inos[x]) && GoodIno(t.inos[x])
  {
    forall x, y :: 0 <= x < |s.inos| && 0 <= y < SLOTS ==> At(t, x, y) == At(s, x, y)
  }

  lemma ChangedAfter(s: State, t: State, u: State, i: nat, p: nat, b: nat)
    requires |u.inos| == |t.inos| == |s.inos|
    requires forall x :: 0 <= x < |s.inos| ==> GoodIno(s.inos[x]) && GoodIno(t.inos[x]) && GoodIno(u.inos[x])
    requires SameAts(s, t) && AtChanged(t, u, i, p, b)
    ensures AtChanged(s, u, i, p, b)
  {
    hide At;
  }

  lemma NewExact(s: State, i: nat)
    requires i < |s.inos| && s.inos[i] == NewIno(0, 0)
    ensures GoodIno(s.inos[i]) && Exact(s, i)
  {
  }

  lemma NotInUse(sb: Super, s: State, b: nat)
    requires Inv(sb, s) && IsData(sb, b) && b !in s.owner && s.pending == {}
    ensures BBlock(sb, b) < |s.disk| && !BlockBit(sb, s.disk, b)
  {
    hide BlockBit;
    Regions(sb, b, 0);
    assert BitOk(sb, s, b);
  }

  lemma TakenBitmap(sb: Super, disk: seq<Block>, b: nat, inos: seq<Ino>, owner: map<nat, Slot>, dirty: set<nat>)
    requires sb.bmapstart < |disk| && b < BPB && b < |disk| && disk[b] == ZEROS && b != sb.bmapstart
    ensures BBlock(sb, b) == sb.bmapstart
    ensures State(WithBitmap(sb, disk, b + 1), inos, owner, {b}, dirty)
            == Reserved(sb, State(WithBitmap(sb, disk, b), inos, owner, {}, dirty), b)
  {
    hide SetBit;
    assert BitmapOf(b + 1) == SetBit(BitmapOf(b), b, true);
    var d: seq<Block> := WithBitmap(sb, disk, b);
    var e: seq<Block> := d[sb.bmapstart := BitmapOf(b + 1)];
    assert e[b := ZEROS] == WithBitmap(sb, disk, b + 1);
  }
}
