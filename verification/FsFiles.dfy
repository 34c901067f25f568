/**
 balloc, bfree, bmap, itrunc, readi, writei and iupdate of kernel/fs.c, on the blocks and the
 in-memory inodes they change, and the chunks of filewrite (kernel/file.c).  Reading a block is
 bread(); assigning one is log_write(), and logged collects the block numbers.
 */
module FsFiles {
  import opened Modular
  import opened Params
  import opened FsBytes
  import opened FsImage
  import Sequences

  /** No two slots, of one inode or of two, have the same block, and no slot has a metadata block. */
  lemma AddressesDistinct(sb: Super, s: State, i: nat, p: nat, j: nat, q: nat)
    requires Inv(sb, s) && i < |s.inos| && j < |s.inos| && p < SLOTS && q < SLOTS
    requires At(s, i, p) != 0 && At(s, i, p) == At(s, j, q)
    ensures i == j && p == q && IsData(sb, At(s, i, p)) && BBlock(sb, At(s, i, p)) < |s.disk|
            && BlockBit(sb, s.disk, At(s, i, p))
  {
    hide At, BlockBit;
    assert SlotOk(sb, s, i, p) && SlotOk(sb, s, j, q);
    Regions(sb, At(s, i, p), 0);
    assert BitOk(sb, s, At(s, i, p));
  }

  // ----- what bmap() may do to a file -----

  /** Block bn of file i, and its indirect block, may have been added; nothing else has changed in any file. */
  ghost predicate Grown(sb: Super, s: State, t: State, i: nat, bn: nat)
    requires Shape(sb, s) && Shape(sb, t) && bn < MAXFILE && i < |s.inos|
  {
    && (forall x :: 0 <= x < |s.inos| ==>
          t.inos[x].size == s.inos[x].size && t.inos[x].meta0 == s.inos[x].meta0 && t.inos[x].meta1 == s.inos[x].meta1)
    && (forall x, y :: 0 <= x < |s.inos| && 0 <= y < SLOTS && At(s, x, y) != 0 ==> At(t, x, y) == At(s, x, y))
    && (forall x, y :: 0 <= x < |s.inos| && 0 <= y < SLOTS && At(s, x, y) == 0 && At(t, x, y) != 0 ==>
          x == i && (y == NDIRECT || y == SlotOf(bn)))
    && SameData(s, t)
    && (At(s, i, SlotOf(bn)) == 0 && 0 < At(t, i, SlotOf(bn)) < |t.disk| ==> t.disk[At(t, i, SlotOf(bn))] == ZEROS)
  }

  /** The data blocks of all files have the same contents. */
  ghost predicate SameData(s: State, t: State)
    requires |t.disk| == |s.disk| && forall x :: 0 <= x < |s.inos| ==> GoodIno(s.inos[x])
  {
    forall x, y :: 0 <= x < |s.inos| && 0 <= y < SLOTS && y != NDIRECT && 0 < At(s, x, y) < |s.disk| ==>
                     t.disk[At(s, x, y)] == s.disk[At(s, x, y)]
  }

  lemma GrownRefl(sb: Super, s: State, i: nat, bn: nat)
    requires Shape(sb, s) && bn < MAXFILE && i < |s.inos|
    ensures Grown(sb, s, s, i, bn)
  {
  }

  lemma GrownTrans(sb: Super, s: State, t: State, u: State, i: nat, bn: nat)
    requires Inv(sb, s) && Inv(sb, t) && Shape(sb, u) && bn < MAXFILE && i < |s.inos|
    requires Grown(sb, s, t, i, bn) && Grown(sb, t, u, i, bn)
    ensures Grown(sb, s, u, i, bn)
  {
    hide At, GoodIno;
    assert SlotOk(sb, t, i, SlotOf(bn));
    forall x, y | 0 <= x < |s.inos| && 0 <= y < SLOTS ensures At(s, x, y) != 0 ==> At(u, x, y) == At(s, x, y) {
      assert SlotOk(sb, s, x, y);
    }
  }

  lemma ReservedGrown(sb: Super, s: State, b: nat, i: nat, bn: nat)
    requires Inv(sb, s) && IsData(sb, b) && !BlockBit(sb, s.disk, b) && bn < MAXFILE && i < |s.inos|
    ensures Inv(sb, Reserved(sb, s, b)) && Grown(sb, s, Reserved(sb, s, b), i, bn)
            && Reserved(sb, s, b).disk[b] == ZEROS
  {
    hide At;
    var t := Reserved(sb, s, b);
    ReservedInv(sb, s, b);
    Regions(sb, b, 0);
    forall x, y | 0 <= x < |s.inos| && 0 <= y < SLOTS && 0 < At(s, x, y) < |s.disk|
      ensures t.disk[At(s, x, y)] == s.disk[At(s, x, y)]
    {
      assert SlotOk(sb, s, x, y);
    }
  }

  lemma LinkDirectGrown(sb: Super, s: State, i: nat, p: nat, b: nat, bn: nat)
    requires Inv(sb, s) && b in s.pending && i < |s.inos| && p <= NDIRECT && s.inos[i].addrs[p] == 0
    requires s.disk[b] == ZEROS && bn < MAXFILE && (p == NDIRECT || p == bn)
    ensures Inv(sb, LinkDirect(s, i, p, b)) && Grown(sb, s, LinkDirect(s, i, p, b), i, bn)
    ensures At(LinkDirect(s, i, p, b), i, p) == b
  {
    hide At;
    LinkDirectInv(sb, s, i, p, b);
    AtDirect(s, i, p);
  }

  lemma LinkIndirectGrown(sb: Super, s: State, i: nat, j: nat, b: nat)
    requires Inv(sb, s) && b in s.pending && i < |s.inos| && j < WORDS && s.inos[i].addrs[NDIRECT] != 0
             && At(s, i, 13 + j) == 0
    requires s.disk[b] == ZEROS
    ensures IsData(sb, s.inos[i].addrs[NDIRECT])
    ensures var t := LinkIndirect(s, i, s.inos[i].addrs[NDIRECT], j, b);
            Inv(sb, t) && Grown(sb, s, t, i, NDIRECT + j) && At(t, i, 13 + j) == b
  {
    hide At, SetWord;
    var ind := s.inos[i].addrs[NDIRECT];
    LinkIndirectInv(sb, s, i, j, b);
    IndirectOk(sb, s, i);
    assert OwnerOk(sb, s, b);
    var t := LinkIndirect(s, i, ind, j, b);
    forall x, y | 0 <= x < |s.inos| && 0 <= y < SLOTS && y != NDIRECT && 0 < At(s, x, y) < |s.disk|
      ensures t.disk[At(s, x, y)] == s.disk[At(s, x, y)]
    {
      assert SlotOk(sb, s, x, y);
    }
  }

  // ----- what writei() does to the files -----

  /**
   Bytes off to off + tot of file i hold src[..tot], in blocks that exist; every other byte that had a block is as it
   was.
   */
  ghost predicate Wrote(sb: Super, s: State, t: State, i: nat, off: nat, src: seq<Byte>, tot: nat)
    requires Shape(sb, s) && Shape(sb, t) && i < |s.inos| && tot <= |src|
  {
    && (forall x, y :: 0 <= x < |s.inos| && 0 <= y < SLOTS && At(s, x, y) != 0 ==> At(t, x, y) == At(s, x, y))
    && (forall x, y :: 0 <= x < |s.inos| && 0 <= y < SLOTS && x != i ==> At(t, x, y) == At(s, x, y))
    && (forall k :: off <= k < off + tot && k < MAXFILE * BSIZE ==>
          At(t, i, SlotOf(k / BSIZE)) != 0 && ByteAt(t, i, k) == src[k - off])
    && (forall x, k ::
          (&& 0 <= x < |s.inos| && 0 <= k < MAXFILE * BSIZE && !(x == i && off <= k < off + tot)
           && At(s, x, SlotOf(k / BSIZE)) != 0)
          ==> ByteAt(t, x, k) == ByteAt(s, x, k))
  }

  ghost predicate SameInodes(s: State, t: State, i: nat) {
    && |t.inos| == |s.inos|
    && (forall x :: 0 <= x < |s.inos| && x != i ==> t.inos[x] == s.inos[x])
    && (i < |s.inos| ==> t.inos[i].size == s.inos[i].size)
  }

  lemma WroteRefl(sb: Super, s: State, i: nat, off: nat, src: seq<Byte>)
    requires Shape(sb, s) && i < |s.inos|
    ensures Wrote(sb, s, s, i, off, src, 0)
  {
  }

  /** bmap() moves no byte. */
  lemma WroteGrown(sb: Super, s: State, t: State, u: State, i: nat, off: nat, src: seq<Byte>, tot: nat, bn: nat)
    requires Inv(sb, s) && Inv(sb, t) && Shape(sb, u) && i < |s.inos| && tot <= |src| && bn < MAXFILE
    requires Wrote(sb, s, t, i, off, src, tot) && Grown(sb, t, u, i, bn)
    ensures Wrote(sb, s, u, i, off, src, tot)
  {
    hide At;
    forall x, k | 0 <= x < |s.inos| && 0 <= k < MAXFILE * BSIZE && At(t, x, SlotOf(k / BSIZE)) != 0
      ensures ByteAt(u, x, k) == ByteAt(t, x, k) && At(u, x, SlotOf(k / BSIZE)) != 0
    {
      assert SlotOk(sb, t, x, SlotOf(k / BSIZE));
    }
  }

  /** Part of a block replaced. */
  function Patched(blk: Block, o: nat, part: seq<Byte>): (c: Block)
    requires o + |part| <= BSIZE
  {
    blk[..o] + part + blk[o + |part|..]
  }

  lemma WroteBlock(sb: Super, s: State, t: State, i: nat, off: nat, src: seq<Byte>, tot: nat, m: nat)
    requires Inv(sb, s) && Inv(sb, t) && |t.inos| == |s.inos| && i < |s.inos| && tot + m <= |src|
             && off + tot < MAXFILE * BSIZE
    requires m <= BSIZE - (off + tot) % BSIZE && Wrote(sb, s, t, i, off, src, tot)
    requires At(t, i, SlotOf((off + tot) / BSIZE)) != 0
    ensures var a, o := At(t, i, SlotOf((off + tot) / BSIZE)), (off + tot) % BSIZE;
            && IsData(sb, a) && a < |t.disk|
            && Inv(sb, SetBlock(t, a, Patched(t.disk[a], o, src[tot..tot + m])))
            && Wrote(sb, s, SetBlock(t, a, Patched(t.disk[a], o, src[tot..tot + m])), i, off, src, tot + m)
            && forall y :: 0 <= y < SLOTS ==>
                      At(SetBlock(t, a, Patched(t.disk[a], o, src[tot..tot + m])), i, y) == At(t, i, y)
  {
    hide At, ByteAt, Patched;
    var bn, o := (off + tot) / BSIZE, (off + tot) % BSIZE;
    var a := At(t, i, SlotOf(bn));
    assert SlotOk(sb, t, i, SlotOf(bn));
    var blk := Patched(t.disk[a], o, src[tot..tot + m]);
    var u := SetBlock(t, a, blk);
    WriteInv(sb, t, a, blk);
    assert Wrote(sb, s, u, i, off, src, tot + m) by {
      forall x, k | 0 <= x < |s.inos| && 0 <= k < MAXFILE * BSIZE && At(t, x, SlotOf(k / BSIZE)) != 0
        ensures ByteAt(u, x, k) == if x == i && off + tot <= k < off + tot + m then src[k - off] else ByteAt(t, x, k)
      {
        BytePatched(sb, t, i, off + tot, src, tot, m, x, k);
      }
      InBlock(off, tot, m);
    }
  }

  lemma BytePatched(sb: Super, t: State, i: nat, p: nat, src: seq<Byte>, tot: nat, m: nat, x: nat, k: nat)
    requires Inv(sb, t) && i < |t.inos| && tot + m <= |src| && p < MAXFILE * BSIZE && m <= BSIZE - p % BSIZE
    requires 0 < At(t, i, SlotOf(p / BSIZE)) < |t.disk| && x < |t.inos| && k < MAXFILE * BSIZE
    requires At(t, x, SlotOf(k / BSIZE)) != 0
    requires var a := At(t, i, SlotOf(p / BSIZE));
             var u := SetBlock(t, a, Patched(t.disk[a], p % BSIZE, src[tot..tot + m]));
             forall j, y :: 0 <= j < |t.inos| && 0 <= y < SLOTS ==> At(u, j, y) == At(t, j, y)
    ensures var a := At(t, i, SlotOf(p / BSIZE));
            var u := SetBlock(t, a, Patched(t.disk[a], p % BSIZE, src[tot..tot + m]));
            ByteAt(u, x, k) == if x == i && p <= k < p + m then src[tot + (k - p)] else ByteAt(t, x, k)
  {
    hide At;
    var a := At(t, i, SlotOf(p / BSIZE));
    assert SlotOk(sb, t, i, SlotOf(p / BSIZE)) && SlotOk(sb, t, x, SlotOf(k / BSIZE));
    PatchedByte(t.disk[a], p % BSIZE, src, tot, m, k % BSIZE);
    SameBlock(p, m, k);
  }

  lemma PatchedByte(blk: Block, o: nat, src: seq<Byte>, tot: nat, m: nat, k: nat)
    requires o + m <= BSIZE && tot + m <= |src| && k < BSIZE
    ensures Patched(blk, o, src[tot..tot + m])[k] == if o <= k < o + m then src[tot + (k - o)] else blk[k]
  {
  }

  lemma SameBlock(p: nat, m: nat, k: nat)
    requires m <= BSIZE - p % BSIZE
    ensures p <= k < p + m <==> k / BSIZE == p / BSIZE && p % BSIZE <= k % BSIZE < p % BSIZE + m
    ensures k / BSIZE == p / BSIZE ==> k - p == k % BSIZE - p % BSIZE
  {
  }

  lemma InBlock(off: nat, tot: nat, m: nat)
    requires m <= BSIZE - (off + tot) % BSIZE
    ensures forall k :: off + tot <= k < off + tot + m ==> k / BSIZE == (off + tot) / BSIZE
  {
    forall k | off + tot <= k < off + tot + m ensures k / BSIZE == (off + tot) / BSIZE {
      SameBlock(off + tot, m, k);
    }
  }

  /** struct inode: the copy in memory of an inode that is locked. */
  class Inode {
    const inum: nat
    var meta0: nat
    var meta1: nat
    var size: nat
    var addrs: seq<nat>

    constructor (i: nat, ino: Ino)
      ensures inum == i && Value() == ino
    {
      inum, meta0, meta1, size, addrs := i, ino.meta0, ino.meta1, ino.size, ino.addrs;
    }

    ghost function Value(): (ino: Ino)
      reads this
    {
      Ino(meta0, meta1, size, addrs)
    }
  }

  class FileSystem {
    const sb: Super
    var disk: seq<Block>
    ghost var inos: seq<Ino>
    ghost var owner: map<nat, Slot>
    ghost var pending: set<nat>
    ghost var dirty: set<nat>
    /** The blocks that the operation under way has logged, and the disk when it began. */
    ghost var logged: set<nat>
    ghost var start: seq<Block>

    ghost function Model(): (s: State)
      reads this
    {
      State(disk, inos, owner, pending, dirty)
    }

    ghost predicate Valid()
      reads this
    {
      Inv(sb, Model()) && LogsAll(start, disk, logged)
    }

    /** A file system on an image that satisfies the invariants, such as one that mkfs has built. */
    constructor (super: Super, image: seq<Block>, ghost table: seq<Ino>, ghost use: map<nat, Slot>)
      requires Inv(super, State(image, table, use, {}, {}))
      ensures sb == super && Valid() && Model() == State(image, table, use, {}, {}) && logged == {}
    {
      sb, disk, inos, owner, pending, dirty, logged, start := super, image, table, use, {}, {}, {}, image;
    }

    /** The inode in memory is the one the file system means. */
    ghost predicate Holds(ip: Inode)
      reads this, ip
    {
      ip.inum < |inos| && inos[ip.inum] == ip.Value()
    }

    /** The search of balloc(): the first block whose bit is clear. */
    method FindFree() returns (found: bool, r: nat)
      requires Valid()
      ensures found ==> r < sb.size && BBlock(sb, r) < |disk| && !BlockBit(sb, disk, r)
      ensures found ==> forall c :: 0 <= c < r ==> BBlock(sb, c) < |disk| && BlockBit(sb, disk, c)
      ensures !found ==> forall c :: 0 <= c < sb.size ==> BBlock(sb, c) < |disk| && BlockBit(sb, disk, c)
    {
      hide Inv, Bit;
      assert Shape(sb, Model()) by { InvShape(sb, Model()); }
      var b := 0;
      while b < sb.size
        invariant b % BPB == 0
        invariant forall c :: 0 <= c < b && c < sb.size ==> BBlock(sb, c) < |disk| && BlockBit(sb, disk, c)
      {
        Regions(sb, b, 0);
        var bp := disk[BBlock(sb, b)];
        var bi := 0;
        while bi < BPB && b + bi < sb.size
          invariant bi <= BPB
          invariant forall c :: 0 <= c < b + bi && c < sb.size ==> BBlock(sb, c) < |disk| && BlockBit(sb, disk, c)
        {
          assert BBlock(sb, b + bi) == BBlock(sb, b) && (b + bi) % BPB == bi;
          if !Bit(bp, bi) {
            return true, b + bi;
          }
          bi := bi + 1;
        }
        b := b + BPB;
      }
      return false, 0;
    }

    /** balloc(): the first free block, zeroed; 0 if and only if no block is free. */
    method Balloc() returns (b: nat)
      requires Valid()
      modifies this
      ensures start == old(start)
      ensures Valid() && inos == old(inos)
      ensures b == 0 ==> Model() == old(Model()) && Full(sb, disk) && logged == old(logged)
      ensures b != 0 ==> IsData(sb, b) && b < |old(disk)| && BBlock(sb, b) < |old(disk)| && !BlockBit(sb, old(disk), b)
                         && (forall c :: 0 <= c < b ==> BlockBit(sb, old(disk), c))
                         && Model() == Reserved(sb, old(Model()), b) && logged == old(logged) + {BBlock(sb, b), b}
    {
      hide LogsAll, Inv, BlockBit, Reserved;
      ghost var s := Model();
      InvShape(sb, s);
      var found;
      found, b := FindFree();
      if !found {
        return 0;
      }
      assert IsData(sb, b) by { MetadataInUse(sb, s, b); }
      ReservedInv(sb, s, b);
      var bno := BBlock(sb, b);
      LogsSet(start, disk, logged, bno, SetBit(disk[bno], b % BPB, true));
      disk := disk[bno := SetBit(disk[bno], b % BPB, true)];
      LogsSet(start, disk, logged + {bno}, b, ZEROS);
      assert logged + {bno} + {b} == logged + {bno, b};
      disk := disk[b := ZEROS];
      logged := logged + {bno, b};
      pending := pending + {b};
      assert Model() == Reserved(sb, s, b) by { ReservedIs(sb, s, b); }
    }

    /** bfree(), of a block that is allocated and in no inode: its bit is set, so there is no panic. */
    method Bfree(b: nat)
      requires Valid() && b in pending
      modifies this
      ensures start == old(start)
      ensures Valid() && BBlock(sb, b) < |old(disk)| && BlockBit(sb, old(disk), b)
      ensures Model() == Unreserved(sb, old(Model()), b) && logged == old(logged) + {BBlock(sb, b)}
    {
      hide LogsAll, Inv, At;
      ghost var s := Model();
      UnreservedInv(sb, s, b);
      PendingData(sb, s, b);
      var bno := BBlock(sb, b);
      assert Bit(disk[bno], b % BPB);
      LogsSet(start, disk, logged, bno, SetBit(disk[bno], b % BPB, false));
      disk := disk[bno := SetBit(disk[bno], b % BPB, false)];
      pending := pending - {b};
      logged := logged + {bno};
    }

    /** bmap() for a direct block. */
    method BmapDirect(ip: Inode, bn: nat) returns (addr: nat)
      requires Valid() && Holds(ip) && bn < NDIRECT
      modifies this, ip
      ensures start == old(start)
      ensures Valid() && Holds(ip) && pending == old(pending) && SameInodes(old(Model()), Model(), ip.inum)
      ensures Grown(sb, old(Model()), Model(), ip.inum, bn)
      ensures addr == At(Model(), ip.inum, bn)
      ensures addr == 0 ==> Full(sb, disk)
      ensures addr == 0 || At(old(Model()), ip.inum, bn) != 0 ==> Model() == old(Model()) && logged == old(logged)
      ensures LoggedOnly(sb, old(logged), logged, Model(), ip.inum, bn, bn + 1)
    {
      hide LogsAll, Inv, At, Grown, BlockBit, Reserved;
      ghost var s, i := Model(), ip.inum;
      InvShape(sb, s);
      GrownRefl(sb, s, i, bn);
      AtDirect(s, i, bn);
      addr := ip.addrs[bn];
      if addr == 0 {
        addr := Balloc();
        if addr == 0 {
          return;
        }
        ghost var t := Model();
        InvShape(sb, t);
        ReservedGrown(sb, s, addr, i, bn);
        ReservedFields(sb, s, addr);
        ReservedInv(sb, s, addr);
        LinkDirectGrown(sb, t, i, bn, addr, bn);
        ip.addrs := ip.addrs[bn := addr];
        inos := inos[i := inos[i].(addrs := ip.addrs)];
        dirty, owner, pending := dirty + {i}, owner[addr := Slot(i, bn)], pending - {addr};
        assert Model() == LinkDirect(t, i, bn, addr);
        InvShape(sb, Model());
        GrownTrans(sb, s, t, Model(), i, bn);
        AtDirect(Model(), i, bn);
        LoggedBlock(sb, old(logged), Model(), i, bn, addr);
      }
    }

    /** The first half of bmap() for an indirect block: ip->addrs[NDIRECT], allocated if need be. */
    method BmapTable(ip: Inode, bn: nat) returns (addr: nat)
      requires Valid() && Holds(ip) && NDIRECT <= bn < MAXFILE
      modifies this, ip
      ensures start == old(start)
      ensures Valid() && Holds(ip) && pending == old(pending) && SameInodes(old(Model()), Model(), ip.inum)
      ensures Grown(sb, old(Model()), Model(), ip.inum, bn)
      ensures addr == ip.addrs[NDIRECT]
      ensures addr == 0 ==> Full(sb, disk)
      ensures old(ip.addrs[NDIRECT]) != 0 ==> Model() == old(Model()) && logged == old(logged)
      ensures addr == 0 ==> Model() == old(Model())
      ensures At(Model(), ip.inum, SlotOf(bn)) == At(old(Model()), ip.inum, SlotOf(bn))
      ensures LoggedOnly(sb, old(logged), logged, Model(), ip.inum, bn, bn)
    {
      hide LogsAll, Inv, At, Grown, BlockBit, Reserved, AtChanged;
      ghost var s, i := Model(), ip.inum;
      InvShape(sb, s);
      GrownRefl(sb, s, i, bn);
      addr := ip.addrs[NDIRECT];
      if addr == 0 {
        addr := Balloc();
        if addr == 0 {
          return;
        }
        ghost var t := Model();
        InvShape(sb, t);
        ReservedGrown(sb, s, addr, i, bn);
        ReservedFields(sb, s, addr);
        ReservedInv(sb, s, addr);
        LinkDirectGrown(sb, t, i, NDIRECT, addr, bn);
        LinkDirectInv(sb, t, i, NDIRECT, addr);
        ip.addrs := ip.addrs[NDIRECT := addr];
        inos := inos[i := inos[i].(addrs := ip.addrs)];
        dirty, owner, pending := dirty + {i}, owner[addr := Slot(i, NDIRECT)], pending - {addr};
        assert Model() == LinkDirect(t, i, NDIRECT, addr);
        InvShape(sb, Model());
        GrownTrans(sb, s, t, Model(), i, bn);
        AtDirect(Model(), i, NDIRECT);
        LoggedTable(sb, old(logged), Model(), i, bn, addr);
        assert At(Model(), i, SlotOf(bn)) == At(t, i, SlotOf(bn)) by {
          AtUnchanged(t, Model(), i, NDIRECT, addr, SlotOf(bn));
        }
      }
    }

    /** The second half: entry bn of the indirect block, allocated if need be. */
    method BmapEntry(ip: Inode, ind: nat, bn: nat) returns (addr: nat)
      requires Valid() && Holds(ip) && NDIRECT <= bn < MAXFILE && ind == ip.addrs[NDIRECT] != 0
      modifies this
      ensures start == old(start)
      ensures Valid() && Holds(ip) && pending == old(pending) && SameInodes(old(Model()), Model(), ip.inum)
      ensures Grown(sb, old(Model()), Model(), ip.inum, bn)
      ensures addr == At(Model(), ip.inum, SlotOf(bn))
      ensures addr == 0 ==> Full(sb, disk)
      ensures At(old(Model()), ip.inum, SlotOf(bn)) != 0 ==> Model() == old(Model()) && logged == old(logged)
      ensures LoggedOnly(sb, old(logged), logged, Model(), ip.inum, bn, bn + 1)
    {
      hide LogsAll, Inv, At, Grown, BlockBit, Reserved, LoggedOnly, AtChanged, SetWord, Full;
      ghost var t, i, before := Model(), ip.inum, logged;
      var j := bn - NDIRECT;
      InvShape(sb, t);
      AtEntry(sb, t, i, j);
      GrownRefl(sb, t, i, bn);
      LoggedNothing(sb, logged, t, i, bn, bn);
      LoggedNothing(sb, logged, t, i, bn, bn + 1);
      addr := Word(disk[ind], j);
      if addr != 0 {
        return;
      }
      addr := Balloc();
      ghost var u := Model();
      if addr == 0 {
        return;
      }
      InvShape(sb, u);
      ReservedGrown(sb, t, addr, i, bn);
      ReservedFields(sb, t, addr);
      ReservedInv(sb, t, addr);
      LinkIndirectGrown(sb, u, i, j, addr);
      LinkIndirectInv(sb, u, i, j, addr);
      LogsSet(start, disk, logged, ind, SetWord(disk[ind], j, addr));
      disk := disk[ind := SetWord(disk[ind], j, addr)];
      owner, pending, logged := owner[addr := Slot(i, 13 + j)], pending - {addr}, logged + {ind};
      assert Model() == LinkIndirect(u, i, ind, j, addr);
      InvShape(sb, Model());
      GrownTrans(sb, t, u, Model(), i, bn);
      LoggedEntry(sb, before, before, t, Model(), i, bn, addr);
    }

    /** bmap(): the address of block bn, allocated if need be; 0 if and only if the disk is full. */
    method Bmap(ip: Inode, bn: nat) returns (addr: nat)
      requires Valid() && Holds(ip) && bn < MAXFILE
      modifies this, ip
      ensures start == old(start)
      ensures Valid() && Holds(ip) && pending == old(pending) && SameInodes(old(Model()), Model(), ip.inum)
      ensures Grown(sb, old(Model()), Model(), ip.inum, bn)
      ensures addr == At(Model(), ip.inum, SlotOf(bn))
      ensures addr == 0 ==> Full(sb, disk)
      ensures At(old(Model()), ip.inum, SlotOf(bn)) != 0 ==> Model() == old(Model()) && logged == old(logged)
      ensures LoggedOnly(sb, old(logged), logged, Model(), ip.inum, bn, bn + 1)
    {
      hide LogsAll, Inv, At, Grown, LoggedOnly, Full;
      if bn < NDIRECT {
        addr := BmapDirect(ip, bn);
        return;
      }
      ghost var s, i := Model(), ip.inum;
      InvShape(sb, s);
      AtEntry(sb, s, i, bn - NDIRECT);
      var ind := BmapTable(ip, bn);
      ghost var t, mid := Model(), logged;
      InvShape(sb, t);
      LoggedMore(sb, old(logged), logged, t, i, bn);
      if ind == 0 {
        AtEntry(sb, t, i, bn - NDIRECT);
        return 0;
      }
      addr := BmapEntry(ip, ind, bn);
      InvShape(sb, Model());
      GrownTrans(sb, s, t, Model(), i, bn);
      LoggedGrown(sb, old(logged), mid, logged, t, Model(), i, bn, bn + 1, bn);
    }

    /**
     readi(), under the invariant that files have no holes: exactly the slice of the contents,
     and nothing is allocated.  Offsets and lengths are 32-bit.
     */
    method Readi(ip: Inode, off: nat, n: nat) returns (tot: nat, data: seq<Byte>)
      requires Valid() && Holds(ip) && NoHoles(Model(), ip.inum) && IsWord(off) && IsWord(n)
      modifies this, ip
      ensures start == old(start)
      ensures Model() == old(Model()) && ip.Value() == old(ip.Value()) && logged == old(logged)
      ensures tot == |data|
      ensures if off > ip.size || off + n >= 0x1_0000_0000 then data == []
              else data == Content(Model(), ip.inum)[off..if off + n > ip.size then ip.size else off + n]
    {
      hide LogsAll, Inv, At, Grown, LoggedOnly, ByteAt, SameInodes, Content, NoHoles, Full;
      ghost var s, i := Model(), ip.inum;
      InvShape(sb, s);
      SizeBound(s, i);
      ContentSize(s, i);
      data := [];
      tot := 0;
      if off > ip.size || (off + n) % 0x1_0000_0000 < off {
        return;
      }
      var want := n;
      if off + n > ip.size {
        want := ip.size - off;
      }
      while tot < want
        invariant start == old(start)
        invariant tot <= want && Model() == s && Holds(ip) && ip.Value() == old(ip.Value()) && logged == old(logged)
        invariant data == Content(s, i)[off..off + tot]
      {
        var p := off + tot;
        BlockExists(s, i, p);
        var addr := Bmap(ip, p / BSIZE);
        var m := if want - tot < BSIZE - p % BSIZE then want - tot else BSIZE - p % BSIZE;
        ReadBlock(sb, s, i, p, m);
        data := data + disk[addr][p % BSIZE..p % BSIZE + m];
        SliceMore(Content(s, i), off, p, p + m);
        tot := tot + m;
      }
    }

    /** iupdate(). */
    method Iupdate(ip: Inode)
      requires Valid() && Holds(ip)
      modifies this
      ensures start == old(start)
      ensures Valid() && Holds(ip) && IBlock(sb, ip.inum) < |old(disk)|
      ensures Model() == Updated(sb, old(Model()), ip.inum) && logged == old(logged) + {IBlock(sb, ip.inum)}
    {
      hide LogsAll, Inv, At, StoreWords;
      ghost var s := Model();
      UpdatedInv(sb, s, ip.inum);
      assert GoodIno(s.inos[ip.inum]) by { InvShape(sb, s); }
      var b := IBlock(sb, ip.inum);
      LogsSet(start, disk, logged, b,
              StoreWords(disk[b], ip.inum % IPB * 16, [ip.meta0, ip.meta1, ip.size] + ip.addrs));
      disk := disk[b := StoreWords(disk[b], ip.inum % IPB * 16, [ip.meta0, ip.meta1, ip.size] + ip.addrs)];
      logged := logged + {b};
      dirty := dirty - {ip.inum};
    }

    /** The loop of writei(): the bytes go into their blocks, and the size stays. */
    method WriteBlocks(ip: Inode, src: seq<Byte>, off: nat) returns (tot: nat)
      requires Valid() && Holds(ip) && off + |src| <= MAXFILE * BSIZE
      modifies this, ip
      ensures start == old(start)
      ensures Valid() && Holds(ip) && pending == old(pending) && SameInodes(old(Model()), Model(), ip.inum)
      ensures tot <= |src| && Wrote(sb, old(Model()), Model(), ip.inum, off, src, tot)
      ensures tot < |src| ==> Full(sb, disk) && (tot == 0 || (off + tot) % BSIZE == 0)
      ensures LoggedOnly(sb, old(logged), logged, Model(), ip.inum, off / BSIZE, (off + |src| + BSIZE - 1) / BSIZE)
    {
      hide LogsAll, Inv, At, Grown, LoggedOnly, Wrote, Full, Patched;
      ghost var s, i, lo, hi := Model(), ip.inum, off / BSIZE, (off + |src| + BSIZE - 1) / BSIZE;
      InvShape(sb, s);
      WroteRefl(sb, s, i, off, src);
      LoggedNothing(sb, logged, s, i, lo, hi);
      tot := 0;
      while tot < |src|
        invariant start == old(start)
        invariant tot <= |src| && Valid() && Holds(ip) && pending == old(pending) && SameInodes(s, Model(), i)
        invariant Shape(sb, Model()) && Wrote(sb, s, Model(), i, off, src, tot)
        invariant tot < |src| ==> tot == 0 || (off + tot) % BSIZE == 0
        invariant LoggedOnly(sb, old(logged), logged, Model(), i, lo, hi)
      {
        ghost var t, l := Model(), logged;
        var p := off + tot;
        BlockInRange(off, |src|, p);
        var addr := Bmap(ip, p / BSIZE);
        ghost var u, l1 := Model(), logged;
        InvShape(sb, u);
        WroteGrown(sb, s, t, u, i, off, src, tot, p / BSIZE);
        LoggedGrown(sb, old(logged), l, l1, t, u, i, lo, hi, p / BSIZE);
        if addr == 0 {
          return;
        }
        var m := if |src| - tot < BSIZE - p % BSIZE then |src| - tot else BSIZE - p % BSIZE;
        WroteBlock(sb, s, u, i, off, src, tot, m);
        LogsSet(start, disk, logged, addr, Patched(disk[addr], p % BSIZE, src[tot..tot + m]));
        disk := disk[addr := Patched(disk[addr], p % BSIZE, src[tot..tot + m])];
        logged := logged + {addr};
        assert Model() == SetBlock(u, addr, Patched(u.disk[addr], p % BSIZE, src[tot..tot + m]));
        InvShape(sb, Model());
        LoggedWritten(sb, old(logged), l1, u, Model(), i, lo, hi, p / BSIZE, addr);
        NextBlock(p, m, |src| - tot);
        tot := tot + m;
      }
    }

    /**
     writei(), when no copy fails: -1 if the range is out of bounds; otherwise the first tot
     bytes replace exactly [off, off + tot), the size grows to cover them, other files keep
     their contents, and the inode is on disk.  Fewer than all bytes only if the disk is full.
     */
    method Writei(ip: Inode, src: seq<Byte>, off: nat) returns (tot: int)
      requires Valid() && Holds(ip) && NoHoles(Model(), ip.inum) && IsWord(off) && IsWord(|src|)
      modifies this, ip
      ensures start == old(start)
      ensures Valid() && Holds(ip) && pending == old(pending) && |inos| == |old(inos)|
      ensures tot == -1 <==> off > old(ip.size) || off + |src| >= 0x1_0000_0000 || off + |src| > MAXFILE * BSIZE
      ensures tot == -1 ==> Model() == old(Model()) && ip.Value() == old(ip.Value()) && logged == old(logged)
      ensures tot != -1 ==> 0 <= tot <= |src| && ip.inum !in dirty && ip.size == Max(old(ip.size), off + tot)
      ensures tot != -1 ==> FileWritten(sb, old(Model()), Model(), ip.inum, off, src[..tot])
      ensures 0 <= tot < |src| ==> Full(sb, disk)
      ensures LoggedOnly(sb, old(logged), logged, Model(), ip.inum, off / BSIZE, (off + |src| + BSIZE - 1) / BSIZE)
    {
      hide NoHoles, LogsAll, Inv, At, LoggedOnly, Wrote, Full, FileWritten, SameInodes, Updated, StoreWords;
      ghost var s, i, lo, hi := Model(), ip.inum, off / BSIZE, (off + |src| + BSIZE - 1) / BSIZE;
      InvShape(sb, s);
      LoggedNothing(sb, logged, s, i, lo, hi);
      if off > ip.size || (off + |src|) % 0x1_0000_0000 < off {
        return -1;
      }
      if off + |src| > MAXFILE * BSIZE {
        return -1;
      }
      tot := WriteBlocks(ip, src, off);
      ghost var t := Model();
      InvShape(sb, t);
      SizeSame(s, t, i);
      ghost var l := logged;
      if off + tot > ip.size {
        ResizedInv(sb, t, i, off + tot);
        ip.size := off + tot;
        inos, dirty := inos[i := inos[i].(size := off + tot)], dirty + {i};
        assert Model() == Resized(t, i, off + tot);
      }
      ghost var u := Model();
      InvShape(sb, u);
      Iupdate(ip);
      UpdatedFields(sb, u, i);
      InvShape(sb, Model());
      FullStays(sb, u, i);
      WriteiDone(sb, s, t, u, i, off, src, tot);
      LoggedUpdated(sb, old(logged), l, t, u, i, lo, hi);
    }

    /** One operation of filewrite(): begin_op(), writei() and end_op(). */
    method WriteChunk(ip: Inode, part: seq<Byte>, off: nat) returns (r: int)
      requires Valid() && Holds(ip) && NoHoles(Model(), ip.inum) && IsWord(off) && |part| <= CHUNK
      modifies this, ip
      ensures Valid() && Holds(ip) && |inos| == |old(inos)| && Shape(sb, Model()) && -1 <= r <= |part|
      ensures LogsAll(old(disk), disk, logged) && (sb.size <= BPB ==> |logged| <= CHUNK_LOGS)
      ensures r == -1 <==> off > old(ip.size) || off + |part| > MAXFILE * BSIZE
      ensures 0 <= r < |part| ==> Full(sb, disk)
      ensures r == -1 ==> Model() == old(Model()) && ip.Value() == old(ip.Value())
      ensures r >= 0 ==> ip.size == Max(old(ip.size), off + r)
      ensures r >= 0 ==> FileWritten(sb, old(Model()), Model(), ip.inum, off, part[..r])
    {
      hide Inv, At, LoggedOnly, FileWritten, NoHoles, Full, LogsAll;
      InvShape(sb, Model());
      SizeBound(Model(), ip.inum);
      logged, start := {}, disk;
      LogsNothing(disk);
      r := Writei(ip, part, off);
      InvShape(sb, Model());
      ChunkLogs(sb, logged, Model(), ip.inum, off, |part|);
    }

    /**
     filewrite() on an inode, in chunks of at most 3 blocks, each an operation of its own on the
     log.  ops are the blocks that each chunk logs, and disks the disk before the first and after
     each of them; advanced is by how much f->off moves.
     */
    method FileWrite(ip: Inode, src: seq<Byte>, off: nat)
      returns (ret: int, advanced: nat, ghost ops: seq<set<nat>>, ghost disks: seq<seq<Block>>)
      requires Valid() && Holds(ip) && NoHoles(Model(), ip.inum) && IsWord(off) && |src| < 0x8000_0000
      modifies this, ip
      ensures Valid() && Holds(ip) && |inos| == |old(inos)| && advanced <= |src|
      ensures off <= old(ip.size) ==> FileWritten(sb, old(Model()), Model(), ip.inum, off, src[..advanced])
      ensures off > old(ip.size) ==> advanced == 0 && Model() == old(Model())
      ensures advanced < |src| ==> off > old(ip.size) || off + |src| > MAXFILE * BSIZE || Full(sb, disk)
      ensures ret == if advanced == |src| then |src| else -1
      ensures |ops| == Chunks(|src|, advanced)
      ensures ByOperations(ops, disks) && |disks| == |ops| + 1 && disks[0] == old(disk) && disks[|ops|] == disk
      ensures ops != [] ==> ops[|ops| - 1] == logged
      ensures sb.size <= BPB ==> forall k :: 0 <= k < |ops| ==> |ops[k]| <= CHUNK_LOGS
    {
      hide Inv, At, FileWritten, NoHoles, LogsAll, ByOperations, Full, Chunks, WrittenSoFar;
      var max := (MAXOPBLOCKS - 1 - 1 - 2) / 2 * BSIZE;
      ghost var s, x := Model(), ip.inum;
      InvShape(sb, s);
      SizeBound(s, x);
      SoFarNothing(sb, s, x, off, src);
      ops, disks, advanced := [], [disk], 0;
      NoOperations(disk);
      var i := 0;
      while i < |src|
        invariant i <= |src| && advanced == i && Valid() && Holds(ip) && |inos| == |s.inos|
        invariant Shape(sb, Model()) && NoHoles(Model(), x) && WrittenSoFar(sb, s, Model(), x, off, src, advanced)
        invariant ByOperations(ops, disks) && |disks| == |ops| + 1 && disks[0] == s.disk && disks[|ops|] == disk
        invariant ops != [] ==> ops[|ops| - 1] == logged
        invariant if i < |src| then i == |ops| * CHUNK else |src| == 0 || |ops| == Chunks(|src|, |src|)
        invariant |src| == 0 ==> ops == []
        invariant sb.size <= BPB ==> forall k :: 0 <= k < |ops| ==> |ops[k]| <= CHUNK_LOGS
        decreases |src| - i
      {
        ghost var t := Model();
        SizeBound(t, x);
        SizeSoFar(sb, s, t, x, off, src, i);
        var n1 := if |src| - i > max then max else |src| - i;
        var r := WriteChunk(ip, src[i..i + n1], off + advanced);
        OneMore(ops, disks, logged, disk);
        ops, disks := ops + [logged], disks + [disk];
        if r >= 0 {
          SoFarMore(sb, s, t, Model(), x, off, src, i, n1, r);
          advanced := advanced + r;
        }
        NextChunk(|src|, i, |ops| - 1, n1, r);
        if r != n1 {
          SizeSoFar(sb, s, Model(), x, off, src, advanced);
          return -1, advanced, ops, disks;
        }
        i := i + r;
      }
      SizeSoFar(sb, s, Model(), x, off, src, advanced);
      NoChunk(|src|);
      ret := if i == |src| then |src| else -1;
    }

    /** The first loop of itrunc(): the direct blocks. */
    method TruncDirect(ip: Inode)
      requires Valid() && Holds(ip)
      modifies this, ip
      ensures start == old(start)
      ensures Valid() && Holds(ip) && Truncated(sb, old(Model()), Model(), ip.inum, NDIRECT)
    {
      hide LogsAll, Inv, At, Truncated, Unreserved;
      ghost var s, x := Model(), ip.inum;
      InvShape(sb, s);
      TruncatedRefl(sb, s, x);
      for i := 0 to NDIRECT
        invariant start == old(start)
        invariant Valid() && Holds(ip) && Shape(sb, Model()) && Truncated(sb, s, Model(), x, i)
      {
        ghost var t := Model();
        if ip.addrs[i] != 0 {
          var b := ip.addrs[i];
          CutInv(sb, t, x, i);
          inos := inos[x := inos[x].(addrs := inos[x].addrs[i := 0])];
          dirty, owner, pending := dirty + {x}, owner - {b}, pending + {b};
          assert Model() == Cut(t, x, i);
          ghost var u := Model();
          InvShape(sb, u);
          PendingData(sb, u, b);
          Bfree(b);
          UnreservedFields(sb, u, b);
          ip.addrs := ip.addrs[i := 0];
          InvShape(sb, Model());
          TruncatedCut(sb, s, t, u, Model(), x, i, b);
        } else {
          TruncatedSkip(sb, s, t, x, i);
        }
      }
    }

    /** The loop of itrunc() over the indirect block a; s is the state before its inode x gave it up. */
    method FreeListed(a: Block, ghost s: State, ghost x: nat)
      requires Valid() && Inv(sb, s) && x < |s.inos| && s.inos[x].addrs[NDIRECT] != 0
               && s.inos[x].addrs[NDIRECT] < |s.disk|
      requires a == s.disk[s.inos[x].addrs[NDIRECT]] && PartCut(sb, s, Model(), x, 0)
      modifies this
      ensures start == old(start)
      ensures Valid() && PartCut(sb, s, Model(), x, WORDS)
    {
      hide LogsAll, Inv, At, Unreserved, PartCut;
      InvShape(sb, s);
      InvShape(sb, Model());
      for j := 0 to WORDS
        invariant start == old(start)
        invariant Valid() && Shape(sb, Model()) && PartCut(sb, s, Model(), x, j)
      {
        ghost var t := Model();
        AtEntry(sb, s, x, j);
        PartCutStep(sb, s, t, x, j);
        if Word(a, j) != 0 {
          var b := Word(a, j);
          PendingData(sb, t, b);
          Bfree(b);
          UnreservedFields(sb, t, b);
          InvShape(sb, Model());
          PartCutFree(sb, s, t, Model(), x, j);
        }
      }
    }

    /** The second half of itrunc(): the indirect block and the blocks it lists. */
    method TruncIndirect(ip: Inode)
      requires Valid() && Holds(ip)
      modifies this, ip
      ensures start == old(start)
      ensures Valid() && Holds(ip) && CutOff(sb, old(Model()), Model(), ip.inum)
    {
      hide LogsAll, Inv, At, Unreserved, PartCut, CutOff, CutBranch;
      ghost var s, x := Model(), ip.inum;
      InvShape(sb, s);
      IndirectOk(sb, s, x);
      CutBranchInv(sb, s, x);
      CutNothing(sb, s, x);
      if ip.addrs[NDIRECT] != 0 {
        var ind := ip.addrs[NDIRECT];
        var a := disk[ind];
        ghost var cut := CutBranch(s, x);
        inos, dirty, owner, pending := cut.inos, cut.dirty, cut.owner, cut.pending;
        assert Model() == cut by { CutFields(s, x); }
        InvShape(sb, cut);
        PartCutStart(sb, s, x);
        FreeListed(a, s, x);
        ghost var t := Model();
        InvShape(sb, t);
        PartCutEnd(sb, s, t, x);
        PendingData(sb, t, ind);
        Bfree(ind);
        UnreservedFields(sb, t, ind);
        InvShape(sb, Model());
        CutOffEnd(sb, s, t, Model(), x);
        ip.addrs := ip.addrs[NDIRECT := 0];
      }
    }

    /** itrunc(): frees exactly the blocks of this inode; other files keep their contents. */
    method Itrunc(ip: Inode)
      requires Valid() && Holds(ip)
      modifies this, ip
      ensures start == old(start)
      ensures Valid() && Holds(ip) && ip.size == 0 && ip.inum !in dirty && |inos| == |old(inos)|
      ensures forall y :: 0 <= y < SLOTS ==> At(Model(), ip.inum, y) == 0
      ensures Emptied(sb, old(Model()), Model(), ip.inum)
    {
      hide LogsAll, Inv, At, Truncated, CutOff, Emptied, Updated;
      ghost var s, x := Model(), ip.inum;
      InvShape(sb, s);
      TruncDirect(ip);
      ghost var t := Model();
      InvShape(sb, t);
      TruncIndirect(ip);
      ghost var u := Model();
      InvShape(sb, u);
      ResizedInv(sb, u, x, 0);
      ip.size := 0;
      inos, dirty := inos[x := inos[x].(size := 0)], dirty + {x};
      assert Model() == Resized(u, x, 0);
      ghost var v := Model();
      InvShape(sb, v);
      Iupdate(ip);
      UpdatedFields(sb, v, x);
      InvShape(sb, Model());
      AllCut(sb, s, t, u, x);
      EmptiedDone(sb, s, t, u, Model(), x);
    }
  }

  /**
   Inode i has lost its first k slots, and their blocks are free; nothing else has changed
   but bitmap blocks.
   */
  ghost predicate Truncated(sb: Super, s: State, t: State, i: nat, k: nat)
    requires Shape(sb, s) && Shape(sb, t) && i < |s.inos|
  {
    && t.pending == s.pending
    && (forall x :: 0 <= x < |s.inos| && x != i ==> t.inos[x] == s.inos[x])
    && (forall y :: 0 <= y < 13 ==> t.inos[i].addrs[y] == if y < k then 0 else s.inos[i].addrs[y])
    && t.inos[i].size == s.inos[i].size
    && (forall b :: b in t.owner <==> b in s.owner && !(s.owner[b].i == i && s.owner[b].p < k))
    && (forall b :: b in t.owner ==> t.owner[b] == s.owner[b])
    && (forall b :: sb.datastart <= b < sb.size ==> t.disk[b] == s.disk[b])
  }

  lemma TruncatedRefl(sb: Super, s: State, i: nat)
    requires Shape(sb, s) && i < |s.inos|
    ensures Truncated(sb, s, s, i, 0)
  {
  }

  lemma UnreservedFields(sb: Super, s: State, b: nat)
    requires GoodSuper(sb) && |s.disk| == sb.size && b < sb.size && BBlock(sb, b) < |s.disk|
    ensures var t := Unreserved(sb, s, b);
            t.inos == s.inos && t.owner == s.owner && t.pending == s.pending - {b} && t.dirty == s.dirty
            && |t.disk| == |s.disk| && forall c :: sb.datastart <= c < sb.size ==> t.disk[c] == s.disk[c]
  {
    Regions(sb, b, 0);
  }

  lemma TruncatedSkip(sb: Super, s: State, t: State, i: nat, k: nat)
    requires Inv(sb, s) && Inv(sb, t) && i < |s.inos| && k < NDIRECT && Truncated(sb, s, t, i, k)
             && t.inos[i].addrs[k] == 0
    ensures Truncated(sb, s, t, i, k + 1)
  {
    forall b | b in s.owner ensures s.owner[b] != Slot(i, k) {
      assert OwnerOk(sb, s, b);
    }
  }

  lemma TruncatedCut(sb: Super, s: State, t: State, u: State, v: State, i: nat, k: nat, b: nat)
    requires Inv(sb, s) && Inv(sb, t) && Shape(sb, u) && Shape(sb, v) && i < |s.inos| && k < NDIRECT
             && Truncated(sb, s, t, i, k)
    requires b == t.inos[i].addrs[k] != 0 && u == Cut(t, i, k)
    requires v.inos == u.inos && v.owner == u.owner && v.pending == u.pending - {b}
    requires forall c :: sb.datastart <= c < sb.size ==> v.disk[c] == u.disk[c]
    ensures Truncated(sb, s, v, i, k + 1)
  {
    assert SlotOk(sb, t, i, k);
    assert OwnerOk(sb, t, b);
    forall c | c in s.owner && s.owner[c] == Slot(i, k) ensures c == b {
      assert OwnerOk(sb, s, c);
    }
  }

  // ----- the indirect block of itrunc() -----

  /** What is left to free of the indirect block and what it lists, after the first j entries. */
  ghost function Rest(s: State, i: nat, j: nat): (bs: set<nat>) {
    set b | b in Branch(s, i) && (s.owner[b].p == NDIRECT || s.owner[b].p >= 13 + j)
  }

  ghost predicate PartCut(sb: Super, s: State, t: State, i: nat, j: nat)
    requires Shape(sb, s) && Shape(sb, t) && i < |s.inos|
  {
    && t.inos == CutBranch(s, i).inos && t.owner == CutBranch(s, i).owner && t.pending == s.pending + Rest(s, i, j)
    && forall b :: sb.datastart <= b < sb.size ==> t.disk[b] == s.disk[b]
  }

  /** The indirect block is gone from the inode, and it and all it listed are free. */
  ghost predicate CutOff(sb: Super, s: State, t: State, i: nat)
    requires Shape(sb, s) && Shape(sb, t) && i < |s.inos|
  {
    && t.inos == s.inos[i := s.inos[i].(addrs := s.inos[i].addrs[NDIRECT := 0])]
    && t.owner == s.owner - Branch(s, i) && t.pending == s.pending
    && forall b :: sb.datastart <= b < sb.size ==> t.disk[b] == s.disk[b]
  }

  lemma CutFields(s: State, i: nat)
    requires i < |s.inos| && GoodIno(s.inos[i])
    ensures CutBranch(s, i).disk == s.disk
  {
  }

  lemma CutNothing(sb: Super, s: State, i: nat)
    requires Inv(sb, s) && i < |s.inos|
    ensures s.inos[i].addrs[NDIRECT] == 0 ==> CutOff(sb, s, s, i)
  {
    if s.inos[i].addrs[NDIRECT] == 0 {
      forall b | b in s.owner ensures b !in Branch(s, i) {
        assert OwnerOk(sb, s, b);
      }
      assert s.owner - Branch(s, i) == s.owner;
      assert s.inos[i].addrs[NDIRECT := 0] == s.inos[i].addrs;
    }
  }

  lemma PartCutStart(sb: Super, s: State, i: nat)
    requires Inv(sb, s) && i < |s.inos| && Shape(sb, CutBranch(s, i))
    ensures PartCut(sb, s, CutBranch(s, i), i, 0)
  {
    assert Rest(s, i, 0) == Branch(s, i);
  }

  lemma PartCutStep(sb: Super, s: State, t: State, i: nat, j: nat)
    requires Inv(sb, s) && Shape(sb, t) && i < |s.inos| && j < WORDS && PartCut(sb, s, t, i, j)
    ensures At(s, i, 13 + j) == 0 ==> PartCut(sb, s, t, i, j + 1)
    ensures At(s, i, 13 + j) != 0 ==> At(s, i, 13 + j) in t.pending
  {
    hide At, CutBranch;
    var a := At(s, i, 13 + j);
    assert SlotOk(sb, s, i, 13 + j);
    if a == 0 {
      forall b | b in Rest(s, i, j) ensures b in Rest(s, i, j + 1) {
        assert OwnerOk(sb, s, b);
      }
      assert Rest(s, i, j + 1) == Rest(s, i, j);
    } else {
      assert a in Rest(s, i, j);
    }
  }

  lemma PartCutFree(sb: Super, s: State, t: State, u: State, i: nat, j: nat)
    requires Inv(sb, s) && Shape(sb, t) && Shape(sb, u) && i < |s.inos| && j < WORDS && PartCut(sb, s, t, i, j)
    requires At(s, i, 13 + j) != 0 && u.inos == t.inos && u.owner == t.owner
             && u.pending == t.pending - {At(s, i, 13 + j)}
    requires forall b :: sb.datastart <= b < sb.size ==> u.disk[b] == t.disk[b]
    ensures PartCut(sb, s, u, i, j + 1)
  {
    hide At, CutBranch;
    var a := At(s, i, 13 + j);
    assert SlotOk(sb, s, i, 13 + j) && OwnerOk(sb, s, a);
    forall b | b in Rest(s, i, j) && b != a ensures b in Rest(s, i, j + 1) {
      assert OwnerOk(sb, s, b);
    }
    assert Rest(s, i, j) - {a} == Rest(s, i, j + 1);
    assert u.pending == s.pending + Rest(s, i, j + 1);
  }

  lemma PartCutEnd(sb: Super, s: State, t: State, i: nat)
    requires Inv(sb, s) && Shape(sb, t) && i < |s.inos| && PartCut(sb, s, t, i, WORDS) && s.inos[i].addrs[NDIRECT] != 0
    ensures s.inos[i].addrs[NDIRECT] in t.pending && s.inos[i].addrs[NDIRECT] !in s.pending
    ensures t.pending == s.pending + {s.inos[i].addrs[NDIRECT]}
  {
    var ind := s.inos[i].addrs[NDIRECT];
    IndirectOk(sb, s, i);
    assert OwnerOk(sb, s, ind);
    forall b | b in Rest(s, i, WORDS) ensures b == ind {
      assert OwnerOk(sb, s, b);
    }
    assert Rest(s, i, WORDS) == {ind};
  }

  lemma CutOffEnd(sb: Super, s: State, t: State, u: State, i: nat)
    requires Inv(sb, s) && Shape(sb, t) && Shape(sb, u) && i < |s.inos| && PartCut(sb, s, t, i, WORDS)
             && s.inos[i].addrs[NDIRECT] != 0
    requires u.inos == t.inos && u.owner == t.owner && u.pending == t.pending - {s.inos[i].addrs[NDIRECT]}
    requires forall b :: sb.datastart <= b < sb.size ==> u.disk[b] == t.disk[b]
    ensures CutOff(sb, s, u, i) && u.inos[i] == s.inos[i].(addrs := s.inos[i].addrs[NDIRECT := 0])
  {
    hide At;
    PartCutEnd(sb, s, t, i);
  }

  /** Both halves together: the inode has no blocks. */
  lemma AllCut(sb: Super, s: State, t: State, u: State, i: nat)
    requires Inv(sb, s) && Inv(sb, t) && Inv(sb, u) && i < |s.inos| && Truncated(sb, s, t, i, NDIRECT)
             && CutOff(sb, t, u, i)
    ensures u.pending == s.pending && (forall y :: 0 <= y < 13 ==> u.inos[i].addrs[y] == 0)
    ensures forall x :: 0 <= x < |s.inos| && x != i ==> u.inos[x] == s.inos[x]
    ensures forall b :: b in u.owner <==> b in s.owner && s.owner[b].i != i
    ensures forall b :: sb.datastart <= b < sb.size ==> u.disk[b] == s.disk[b]
  {
    hide At;
  }

  /** Exactly the blocks of inode i have become free, and other files are as they were. */
  ghost predicate Emptied(sb: Super, s: State, t: State, i: nat)
    requires Shape(sb, s) && Shape(sb, t) && i < |s.inos|
  {
    && t.pending == s.pending
    && (forall b :: b in t.owner <==> b in s.owner && s.owner[b].i != i)
    && (forall b :: sb.datastart <= b < sb.size ==>
          BBlock(sb, b) < sb.size
            && (BlockBit(sb, t.disk, b) <==> BlockBit(sb, s.disk, b) && !(b in s.owner && s.owner[b].i == i)))
    && (forall x :: 0 <= x < |s.inos| && x != i ==> t.inos[x] == s.inos[x])
    && (forall x :: 0 <= x < |s.inos| && x != i && NoHoles(s, x) ==> NoHoles(t, x) && Content(t, x) == Content(s, x))
  }

  lemma EmptiedDone(sb: Super, s: State, t: State, u: State, w: State, i: nat)
    requires Inv(sb, s) && Inv(sb, u) && Inv(sb, w) && i < |s.inos| && |w.inos| == |u.inos| == |s.inos|
    requires u.pending == s.pending && (forall y :: 0 <= y < 13 ==> u.inos[i].addrs[y] == 0)
    requires forall x :: 0 <= x < |s.inos| && x != i ==> u.inos[x] == s.inos[x]
    requires forall b :: b in u.owner <==> b in s.owner && s.owner[b].i != i
    requires forall b :: sb.datastart <= b < sb.size ==> u.disk[b] == s.disk[b]
    requires w.inos == u.inos[i := u.inos[i].(size := 0)] && w.owner == u.owner && w.pending == u.pending
    requires forall b :: sb.datastart <= b < sb.size ==> w.disk[b] == u.disk[b]
    ensures forall y :: 0 <= y < SLOTS ==> At(w, i, y) == 0
    ensures Emptied(sb, s, w, i)
  {
    hide Inv, BlockBit;
    InvShape(sb, s);
    InvShape(sb, w);
    forall b | sb.datastart <= b < sb.size
      ensures BBlock(sb, b) < sb.size
              && (BlockBit(sb, w.disk, b) <==> BlockBit(sb, s.disk, b) && !(b in s.owner && s.owner[b].i == i))
    {
      Regions(sb, b, 0);
      BitsMeanUse(sb, s, b);
      BitsMeanUse(sb, w, b);
    }
    hide At;
    forall x | 0 <= x < |s.inos| && x != i && NoHoles(s, x) ensures NoHoles(w, x) && Content(w, x) == Content(s, x) {
      Untouched(sb, s, w, x);
    }
  }

  lemma BitsMeanUse(sb: Super, s: State, b: nat)
    requires Inv(sb, s) && b < sb.size
    ensures BBlock(sb, b) < sb.size && (BlockBit(sb, s.disk, b) <==> b < sb.datastart || b in s.owner || b in s.pending)
    ensures b in s.owner ==> b !in s.pending
  {
    hide BlockBit;
    Regions(sb, b, 0);
    assert BitOk(sb, s, b) && OwnerOk(sb, s, b);
  }

  /** A file depends on its inode and on data blocks only. */
  lemma Untouched(sb: Super, s: State, w: State, x: nat)
    requires Inv(sb, s) && Shape(sb, w) && x < |s.inos| && w.inos[x] == s.inos[x] && NoHoles(s, x)
    requires forall b :: sb.datastart <= b < sb.size ==> w.disk[b] == s.disk[b]
    ensures NoHoles(w, x) && Content(w, x) == Content(s, x)
  {
    forall y | 0 <= y < SLOTS ensures At(w, x, y) == At(s, x, y) {
      IndirectOk(sb, s, x);
      AtFrame(s, w, x, y);
    }
    hide At;
    forall k | 0 <= k < s.inos[x].size ensures ByteAt(w, x, k) == ByteAt(s, x, k) {
      BlockExists(s, x, k);
      assert SlotOk(sb, s, x, SlotOf(k / BSIZE));
    }
  }

  lemma SizeBound(s: State, i: nat)
    requires i < |s.inos| && GoodIno(s.inos[i]) && NoHoles(s, i)
    ensures s.inos[i].size <= MAXFILE * BSIZE
  {
  }

  lemma WrittenNothing(sb: Super, s: State, i: nat, off: nat)
    requires Shape(sb, s) && i < |s.inos| && NoHoles(s, i) && off <= s.inos[i].size
    ensures FileWritten(sb, s, s, i, off, [])
  {
    assert Spliced(Content(s, i), off, []) == Content(s, i);
  }

  lemma WrittenNoHoles(sb: Super, s: State, t: State, i: nat, off: nat, part: seq<Byte>)
    requires Shape(sb, s) && Shape(sb, t) && i < |s.inos| && s.inos[i].size <= MAXFILE * BSIZE && off <= s.inos[i].size
    requires FileWritten(sb, s, t, i, off, part)
    ensures NoHoles(t, i)
  {
  }

  /** Two writes one after the other are one write. */
  lemma WrittenMore(sb: Super, s: State, t: State, u: State, i: nat, off: nat, a: seq<Byte>, b: seq<Byte>)
    requires Shape(sb, s) && Shape(sb, t) && Shape(sb, u) && i < |s.inos| && s.inos[i].size <= MAXFILE * BSIZE
             && off <= s.inos[i].size
    requires t.inos[i].size <= MAXFILE * BSIZE && off + |a| <= t.inos[i].size
    requires FileWritten(sb, s, t, i, off, a) && FileWritten(sb, t, u, i, off + |a|, b)
    ensures FileWritten(sb, s, u, i, off, a + b)
  {
    hide At, NoHoles, ByteAt;
    SplicedTwice(Content(s, i), off, a, b);
  }

  lemma SplicedTwice(c: seq<Byte>, off: nat, a: seq<Byte>, b: seq<Byte>)
    requires off <= |c|
    ensures Spliced(Spliced(c, off, a), off + |a|, b) == Spliced(c, off, a + b)
  {
  }

  /** The operation that found the disk as `before` and left it as `after` has logged every block that it changed. */
  ghost predicate LogsAll(before: seq<Block>, after: seq<Block>, logged: set<nat>) {
    |after| == |before| && forall b :: 0 <= b < |after| && after[b] != before[b] ==> b in logged
  }

  lemma LogsNothing(disk: seq<Block>)
    ensures LogsAll(disk, disk, {})
  {
  }

  lemma LogsSet(before: seq<Block>, disk: seq<Block>, logged: set<nat>, b: nat, blk: Block)
    requires LogsAll(before, disk, logged) && b < |disk|
    ensures LogsAll(before, disk[b := blk], logged + {b})
  {
  }

  /** Each operation leads from one disk to the next, and logs every block that it changes. */
  ghost predicate ByOperations(ops: seq<set<nat>>, disks: seq<seq<Block>>) {
    |disks| == |ops| + 1 && forall k :: 0 <= k < |ops| ==> LogsAll(disks[k], disks[k + 1], ops[k])
  }

  lemma NoOperations(disk: seq<Block>)
    ensures ByOperations([], [disk])
  {
  }

  lemma OneMore(ops: seq<set<nat>>, disks: seq<seq<Block>>, op: set<nat>, disk: seq<Block>)
    requires ByOperations(ops, disks) && |disks| > |ops| && LogsAll(disks[|ops|], disk, op)
    ensures ByOperations(ops + [op], disks + [disk]) && |disks| == |ops| + 1
  {
    var o, d := ops + [op], disks + [disk];
    forall k | 0 <= k < |o| ensures LogsAll(d[k], d[k + 1], o[k]) {
      assert k < |ops| ==> d[k] == disks[k] && d[k + 1] == disks[k + 1] && o[k] == ops[k];
    }
  }

  /** The most that filewrite() gives to writei() at once. */
  const CHUNK: nat := 3072

  /** The most blocks that such a write logs. */
  const CHUNK_LOGS: nat := 7

  /** The first bytes of src are in file x from off on; nothing has happened if off is beyond its end. */
  ghost predicate WrittenSoFar(sb: Super, s: State, t: State, x: nat, off: nat, src: seq<Byte>, n: nat)
    requires Shape(sb, s) && Shape(sb, t) && x < |s.inos| == |t.inos| && s.inos[x].size <= MAXFILE * BSIZE
  {
    && n <= |src| && (off > s.inos[x].size ==> n == 0 && t == s)
    && (off <= s.inos[x].size ==> off + n <= t.inos[x].size && FileWritten(sb, s, t, x, off, src[..n]))
  }

  lemma SoFarNothing(sb: Super, s: State, x: nat, off: nat, src: seq<Byte>)
    requires Shape(sb, s) && x < |s.inos| && NoHoles(s, x) && s.inos[x].size <= MAXFILE * BSIZE
    ensures WrittenSoFar(sb, s, s, x, off, src, 0)
  {
    hide NoHoles, FileWritten;
    if off <= s.inos[x].size {
      WrittenNothing(sb, s, x, off);
      assert src[..0] == [];
    }
  }

  lemma SizeSoFar(sb: Super, s: State, t: State, x: nat, off: nat, src: seq<Byte>, n: nat)
    requires Shape(sb, s) && Shape(sb, t) && x < |s.inos| == |t.inos| && s.inos[x].size <= MAXFILE * BSIZE
    requires WrittenSoFar(sb, s, t, x, off, src, n)
    ensures n <= |src| && (off > s.inos[x].size ==> n == 0 && t == s)
    ensures off <= s.inos[x].size ==> off + n <= t.inos[x].size && FileWritten(sb, s, t, x, off, src[..n])
  {
    hide NoHoles, FileWritten;
  }

  lemma SoFarMore(sb: Super, s: State, t: State, u: State, x: nat, off: nat, src: seq<Byte>, i: nat, n: nat, r: nat)
    requires Shape(sb, s) && Shape(sb, t) && Shape(sb, u) && x < |s.inos| == |t.inos| == |u.inos|
    requires s.inos[x].size <= MAXFILE * BSIZE && t.inos[x].size <= MAXFILE * BSIZE && off + i <= t.inos[x].size
    requires WrittenSoFar(sb, s, t, x, off, src, i) && r <= n && i + n <= |src|
    requires FileWritten(sb, t, u, x, off + i, src[i..i + n][..r]) && off + i + r <= u.inos[x].size
    ensures WrittenSoFar(sb, s, u, x, off, src, i + r) && NoHoles(u, x)
  {
    hide NoHoles, FileWritten;
    WrittenNoHoles(sb, t, u, x, off + i, src[i..i + n][..r]);
    WrittenMore(sb, s, t, u, x, off, src[..i], src[i..i + n][..r]);
    PrefixMore(src, i, n, r);
  }

  /** How many chunks filewrite() starts for n bytes, if it gets as far as `advanced`. */
  function Chunks(n: nat, advanced: nat): (k: nat) {
    if advanced == n then (n + CHUNK - 1) / CHUNK else advanced / CHUNK + 1
  }

  lemma NoChunk(n: nat)
    ensures n == 0 ==> Chunks(n, n) == 0
  {
  }

  /** The chunk at byte i, of n1 bytes, is number k + 1. */
  lemma NextChunk(n: nat, i: nat, k: nat, n1: nat, r: int)
    requires i < n && i == k * CHUNK && n1 == (if n - i > CHUNK then CHUNK else n - i) && -1 <= r <= n1
    ensures r == n1 ==> if i + n1 < n then i + n1 == (k + 1) * CHUNK else k + 1 == Chunks(n, n)
    ensures r != n1 ==> k + 1 == Chunks(n, if r < 0 then i else i + r)
  {
    if r == n1 {
      if i + n1 == n {
        DivIs(n + CHUNK - 1, CHUNK, k + 1, n1 - 1);
      }
    } else {
      var d := if r < 0 then 0 else r;
      DivIs(i + d, CHUNK, k, d);
    }
  }

  lemma PrefixMore(src: seq<Byte>, i: nat, n: nat, r: nat)
    requires r <= n && i + n <= |src|
    ensures src[..i] + src[i..i + n][..r] == src[..i + r]
  {
  }

  /** A write of at most 3 blocks logs at most 7: a bitmap block, the inode, the indirect block and 4 of data. */
  lemma ChunkLogs(sb: Super, logged: set<nat>, s: State, i: nat, off: nat, n: nat)
    requires Shape(sb, s) && i < |s.inos| && n <= 3 * BSIZE
    requires LoggedOnly(sb, {}, logged, s, i, off / BSIZE, (off + n + BSIZE - 1) / BSIZE)
    ensures sb.size <= BPB ==> |logged| <= CHUNK_LOGS
  {
    hide At;
    if sb.size <= BPB {
      var lo := off / BSIZE;
      assert (off + n + BSIZE - 1) / BSIZE <= lo + 4;
      var some := {sb.bmapstart, IBlock(sb, i), At(s, i, NDIRECT),
                   Or0(s, i, lo), Or0(s, i, lo + 1), Or0(s, i, lo + 2), Or0(s, i, lo + 3)};
      forall x | x in logged ensures x in some {
        assert MayLog(sb, s, i, off / BSIZE, (off + n + BSIZE - 1) / BSIZE, x);
      }
      Subset7(logged, sb.bmapstart, IBlock(sb, i), At(s, i, NDIRECT),
              Or0(s, i, lo), Or0(s, i, lo + 1), Or0(s, i, lo + 2), Or0(s, i, lo + 3));
    }
  }

  ghost function Or0(s: State, i: nat, n: nat): (a: nat)
    requires i < |s.inos| && GoodIno(s.inos[i])
  {
    if n < MAXFILE then At(s, i, SlotOf(n)) else 0
  }

  lemma Subset7(a: set<nat>, x0: nat, x1: nat, x2: nat, x3: nat, x4: nat, x5: nat, x6: nat)
    requires a <= {x0, x1, x2, x3, x4, x5, x6}
    ensures |a| <= 7
  {
    var b := {x0} + {x1} + {x2} + {x3} + {x4} + {x5} + {x6};
    assert |b| <= 7;
    Sequences.SubsetCard(a, b);
  }

  function Max(a: int, b: int): (m: int) {
    if a < b then b else a
  }

  /** part replaces the bytes from off on. */
  function Spliced(c: seq<Byte>, off: nat, part: seq<Byte>): (d: seq<Byte>)
    requires off <= |c|
  {
    c[..off] + part + if off + |part| < |c| then c[off + |part|..] else []
  }

  /** File i has part at off, other files are as they were; files without holes stay so. */
  ghost predicate FileWritten(sb: Super, s: State, t: State, i: nat, off: nat, part: seq<Byte>)
    requires Shape(sb, s) && Shape(sb, t) && i < |s.inos| && s.inos[i].size <= MAXFILE * BSIZE && off <= s.inos[i].size
  {
    && NoHoles(t, i) && Content(t, i) == Spliced(Content(s, i), off, part)
    && forall x :: 0 <= x < |s.inos| && x != i && NoHoles(s, x) ==> NoHoles(t, x) && Content(t, x) == Content(s, x)
  }

  lemma SizeSame(s: State, t: State, i: nat)
    requires SameInodes(s, t, i) && i < |s.inos|
    ensures |t.inos| == |s.inos| && t.inos[i].size == s.inos[i].size
  {
  }

  lemma UpdatedFields(sb: Super, s: State, i: nat)
    requires i < |s.inos| && GoodIno(s.inos[i]) && IBlock(sb, i) < |s.disk|
    ensures var t := Updated(sb, s, i);
            t.inos == s.inos && t.owner == s.owner && t.pending == s.pending && t.dirty == s.dirty - {i}
    ensures |Updated(sb, s, i).disk| == |s.disk|
    ensures forall b :: 0 <= b < |s.disk| && b != IBlock(sb, i) ==> Updated(sb, s, i).disk[b] == s.disk[b]
  {
    hide StoreWords;
  }

  lemma FullStays(sb: Super, s: State, i: nat)
    requires Inv(sb, s) && i < |s.inos| && IBlock(sb, i) < |s.disk|
    ensures Full(sb, s.disk) ==> Full(sb, Updated(sb, s, i).disk)
  {
    hide StoreWords, BlockBit, At;
    UpdatedFields(sb, s, i);
    Regions(sb, 0, i);
    var t := Updated(sb, s, i);
    if Full(sb, s.disk) {
      forall c | 0 <= c < sb.size ensures BBlock(sb, c) < |t.disk| && BlockBit(sb, t.disk, c) {
        Regions(sb, c, 0);
        assert BlockBit(sb, s.disk, c);
        BitElsewhere(sb, s, t, c, IBlock(sb, i));
      }
    }
  }

  /** Sizes and the inode on disk do not matter to addresses and bytes. */
  lemma SameBytes(sb: Super, t: State, u: State, i: nat, x: nat, k: nat)
    requires Inv(sb, t) && Inv(sb, u) && i < |t.inos|
             && (u == t || exists size :: IsWord(size) && u == Resized(t, i, size))
    requires IBlock(sb, i) < |u.disk| && Inv(sb, Updated(sb, u, i)) && x < |t.inos| && k < MAXFILE * BSIZE
    ensures At(Updated(sb, u, i), x, SlotOf(k / BSIZE)) == At(t, x, SlotOf(k / BSIZE))
    ensures ByteAt(Updated(sb, u, i), x, k) == ByteAt(t, x, k)
  {
    hide StoreWords, At;
    Regions(sb, 0, i);
    UpdatedFields(sb, u, i);
    UpdatedInv(sb, u, i);
    if u != t {
      var size :| IsWord(size) && u == Resized(t, i, size);
      ResizedInv(sb, t, i, size);
    }
    assert SlotOk(sb, t, x, SlotOf(k / BSIZE));
  }

  lemma WriteiDone(sb: Super, s: State, t: State, u: State, i: nat, off: nat, src: seq<Byte>, tot: nat)
    requires Inv(sb, s) && Inv(sb, t) && Inv(sb, u) && i < |s.inos| && tot <= |src| && off + |src| <= MAXFILE * BSIZE
    requires NoHoles(s, i) && off <= s.inos[i].size && Wrote(sb, s, t, i, off, src, tot) && SameInodes(s, t, i)
    requires u == if off + tot > t.inos[i].size then Resized(t, i, off + tot) else t
    requires IBlock(sb, i) < |u.disk| && Inv(sb, Updated(sb, u, i))
    ensures FileWritten(sb, s, Updated(sb, u, i), i, off, src[..tot])
  {
    hide Inv, At, ByteAt, StoreWords, Updated, Wrote;
    InvShape(sb, s);
    InvShape(sb, t);
    InvShape(sb, u);
    UpdatedFields(sb, u, i);
    var v := Updated(sb, u, i);
    InvShape(sb, v);
    forall x, k | 0 <= x < |s.inos| && 0 <= k < MAXFILE * BSIZE
      ensures At(v, x, SlotOf(k / BSIZE)) == At(t, x, SlotOf(k / BSIZE)) && ByteAt(v, x, k) == ByteAt(t, x, k)
    {
      SameBytes(sb, t, u, i, x, k);
    }
    WrittenSelf(sb, s, t, v, i, off, src, tot);
    forall x | 0 <= x < |s.inos| && x != i && NoHoles(s, x) ensures NoHoles(v, x) && Content(v, x) == Content(s, x) {
      WrittenOther(sb, s, t, v, i, off, src, tot, x);
    }
  }

  lemma WrittenOther(sb: Super, s: State, t: State, v: State, i: nat, off: nat, src: seq<Byte>, tot: nat, x: nat)
    requires Shape(sb, s) && Shape(sb, t) && Shape(sb, v) && i < |s.inos| && tot <= |src|
             && Wrote(sb, s, t, i, off, src, tot)
    requires x < |s.inos| && x != i && NoHoles(s, x) && v.inos[x] == s.inos[x]
    requires forall k :: 0 <= k < MAXFILE * BSIZE ==>
               At(v, x, SlotOf(k / BSIZE)) == At(t, x, SlotOf(k / BSIZE)) && ByteAt(v, x, k) == ByteAt(t, x, k)
    ensures NoHoles(v, x) && Content(v, x) == Content(s, x)
  {
    hide At, ByteAt;
    forall n | 0 <= n < MAXFILE && n * BSIZE < v.inos[x].size ensures At(v, x, SlotOf(n)) != 0 {
      assert n * BSIZE / BSIZE == n && At(s, x, SlotOf(n)) != 0;
    }
    forall k | 0 <= k < s.inos[x].size ensures Content(v, x)[k] == Content(s, x)[k] {
      BlockExists(s, x, k);
    }
  }

  lemma WrittenSelf(sb: Super, s: State, t: State, v: State, i: nat, off: nat, src: seq<Byte>, tot: nat)
    requires Shape(sb, s) && Shape(sb, t) && Shape(sb, v) && i < |s.inos| && tot <= |src|
             && Wrote(sb, s, t, i, off, src, tot)
    requires NoHoles(s, i) && off <= s.inos[i].size && off + tot <= MAXFILE * BSIZE
             && v.inos[i].size == Max(s.inos[i].size, off + tot)
    requires forall k :: 0 <= k < MAXFILE * BSIZE ==>
               At(v, i, SlotOf(k / BSIZE)) == At(t, i, SlotOf(k / BSIZE)) && ByteAt(v, i, k) == ByteAt(t, i, k)
    ensures NoHoles(v, i) && Content(v, i) == Spliced(Content(s, i), off, src[..tot])
  {
    hide At, ByteAt;
    forall n | 0 <= n < MAXFILE && n * BSIZE < v.inos[i].size ensures At(v, i, SlotOf(n)) != 0 {
      assert n * BSIZE / BSIZE == n;
      assert n * BSIZE < s.inos[i].size ==> At(s, i, SlotOf(n)) != 0;
    }
    var d := Spliced(Content(s, i), off, src[..tot]);
    forall k | 0 <= k < v.inos[i].size ensures ByteAt(v, i, k) == d[k] {
      if !(off <= k < off + tot) {
        BlockExists(s, i, k);
      }
    }
    assert Content(v, i) == d;
  }

  lemma LoggedUpdated(sb: Super, before: set<nat>, mid: set<nat>, t: State, u: State, i: nat, lo: nat, hi: nat)
    requires Inv(sb, t) && Inv(sb, u) && i < |t.inos|
             && (u == t || exists size :: IsWord(size) && u == Resized(t, i, size))
    requires IBlock(sb, i) < |u.disk| && Inv(sb, Updated(sb, u, i)) && LoggedOnly(sb, before, mid, t, i, lo, hi)
    ensures LoggedOnly(sb, before, mid + {IBlock(sb, i)}, Updated(sb, u, i), i, lo, hi)
  {
    hide At, Updated;
    var v := Updated(sb, u, i);
    UpdatedInv(sb, u, i);
    UpdatedFields(sb, u, i);
    Regions(sb, 0, i);
    if u != t {
      var size :| IsWord(size) && u == Resized(t, i, size);
      ResizedInv(sb, t, i, size);
    }
    forall x | x in mid + {IBlock(sb, i)} && x !in before ensures x != 0 && MayLog(sb, v, i, lo, hi, x) {
      if x != IBlock(sb, i) {
        assert MayLog(sb, t, i, lo, hi, x);
      }
    }
  }

  /** A file has its block for each byte below the size. */
  lemma BlockExists(s: State, i: nat, p: nat)
    requires i < |s.inos| && GoodIno(s.inos[i]) && NoHoles(s, i) && p < s.inos[i].size
    ensures p / BSIZE < MAXFILE && At(s, i, SlotOf(p / BSIZE)) != 0
  {
    hide At;
    assert p / BSIZE * BSIZE <= p;
  }

  lemma SliceMore(c: seq<Byte>, a: nat, b: nat, d: nat)
    requires a <= b <= d <= |c|
    ensures c[a..b] + c[b..d] == c[a..d]
  {
  }

  lemma ContentSize(s: State, i: nat)
    requires i < |s.inos| && GoodIno(s.inos[i]) && s.inos[i].size <= MAXFILE * BSIZE
    ensures |Content(s, i)| == s.inos[i].size
  {
  }

  lemma ReadBlock(sb: Super, s: State, i: nat, p: nat, m: nat)
    requires Inv(sb, s) && i < |s.inos| && s.inos[i].size <= MAXFILE * BSIZE && p + m <= s.inos[i].size
             && p < s.inos[i].size
    requires m <= BSIZE - p % BSIZE && At(s, i, SlotOf(p / BSIZE)) != 0
    ensures At(s, i, SlotOf(p / BSIZE)) < |s.disk|
    ensures s.disk[At(s, i, SlotOf(p / BSIZE))][p % BSIZE..p % BSIZE + m] == Content(s, i)[p..p + m]
  {
    hide At;
    var a := At(s, i, SlotOf(p / BSIZE));
    assert SlotOk(sb, s, i, SlotOf(p / BSIZE));
    var part, slice := s.disk[a][p % BSIZE..p % BSIZE + m], Content(s, i)[p..p + m];
    forall k | 0 <= k < m ensures part[k] == slice[k] {
      SameBlock(p, m, p + k);
    }
  }

  lemma LoggedNothing(sb: Super, before: set<nat>, s: State, i: nat, lo: nat, hi: nat)
    requires Shape(sb, s) && i < |s.inos|
    ensures LoggedOnly(sb, before, before, s, i, lo, hi)
  {
  }

  lemma BlockInRange(off: nat, n: nat, p: nat)
    requires off <= p < off + n <= MAXFILE * BSIZE
    ensures off / BSIZE <= p / BSIZE < (off + n + BSIZE - 1) / BSIZE && p / BSIZE < MAXFILE
  {
  }

  /** Addresses that were logged stay addresses of the file. */
  lemma LoggedGrown(sb: Super, before: set<nat>, mid: set<nat>, after: set<nat>, t: State, u: State, i: nat, lo: nat,
                    hi: nat, bn: nat)
    requires Shape(sb, t) && Shape(sb, u) && i < |t.inos| && bn < MAXFILE && Grown(sb, t, u, i, bn) && lo <= bn < hi
    requires LoggedOnly(sb, before, mid, t, i, lo, hi) && LoggedOnly(sb, mid, after, u, i, bn, bn + 1)
    ensures LoggedOnly(sb, before, after, u, i, lo, hi)
  {
    hide At;
    forall x | x in after && x !in before ensures x != 0 && MayLog(sb, u, i, lo, hi, x) {
      if x in mid {
        assert MayLog(sb, t, i, lo, hi, x);
      } else {
        assert MayLog(sb, u, i, bn, bn + 1, x);
      }
    }
  }

  lemma LoggedWritten(sb: Super, before: set<nat>, mid: set<nat>, t: State, u: State, i: nat, lo: nat, hi: nat, bn: nat,
                      addr: nat)
    requires Shape(sb, t) && Shape(sb, u) && i < |t.inos| && bn < MAXFILE && addr == At(t, i, SlotOf(bn)) && addr != 0
    requires lo <= bn < hi && (forall y :: 0 <= y < SLOTS ==> At(u, i, y) == At(t, i, y))
    requires LoggedOnly(sb, before, mid, t, i, lo, hi)
    ensures LoggedOnly(sb, before, mid + {addr}, u, i, lo, hi)
  {
    hide At;
    forall x | x in mid + {addr} && x !in before ensures x != 0 && MayLog(sb, u, i, lo, hi, x) {
      if x != addr {
        assert MayLog(sb, t, i, lo, hi, x);
      }
    }
  }

  lemma NextBlock(p: nat, m: nat, left: nat)
    requires m == if left < BSIZE - p % BSIZE then left else BSIZE - p % BSIZE
    ensures m < left ==> (p + m) % BSIZE == 0
  {
    if m < left {
      assert p + m == (p / BSIZE + 1) * BSIZE;
    }
  }

  /**
   Every block logged since: bitmap blocks, the inode's block, its indirect block, and its
   blocks from lo to hi.
   */
  ghost predicate LoggedOnly(sb: Super, before: set<nat>, after: set<nat>, s: State, i: nat, lo: nat, hi: nat)
    requires Shape(sb, s) && i < |s.inos|
  {
    forall x :: x in after && x !in before ==> x != 0 && MayLog(sb, s, i, lo, hi, x)
  }

  ghost predicate MayLog(sb: Super, s: State, i: nat, lo: nat, hi: nat, x: nat)
    requires Shape(sb, s) && i < |s.inos|
  {
    || sb.bmapstart <= x <= BBlock(sb, sb.size - 1) || x == IBlock(sb, i) || x == At(s, i, NDIRECT)
    || exists n :: lo <= n < hi && n < MAXFILE && x == At(s, i, SlotOf(n))
  }

  lemma BitmapBlock(sb: Super, b: nat)
    requires GoodSuper(sb) && b < sb.size
    ensures sb.bmapstart <= BBlock(sb, b) <= BBlock(sb, sb.size - 1) && BBlock(sb, b) != 0
  {
  }

  lemma LoggedBlock(sb: Super, before: set<nat>, s: State, i: nat, bn: nat, addr: nat)
    requires Shape(sb, s) && i < |s.inos| && bn < MAXFILE && addr == At(s, i, SlotOf(bn)) && 0 < addr < sb.size
    ensures LoggedOnly(sb, before, before + {BBlock(sb, addr), addr}, s, i, bn, bn + 1)
  {
    BitmapBlock(sb, addr);
  }

  lemma LoggedTable(sb: Super, before: set<nat>, s: State, i: nat, bn: nat, addr: nat)
    requires Shape(sb, s) && i < |s.inos| && addr == At(s, i, NDIRECT) && 0 < addr < sb.size
    ensures LoggedOnly(sb, before, before + {BBlock(sb, addr), addr}, s, i, bn, bn)
  {
    BitmapBlock(sb, addr);
  }

  lemma LoggedMore(sb: Super, before: set<nat>, after: set<nat>, s: State, i: nat, bn: nat)
    requires Shape(sb, s) && i < |s.inos| && LoggedOnly(sb, before, after, s, i, bn, bn)
    ensures LoggedOnly(sb, before, after, s, i, bn, bn + 1)
  {
  }

  lemma LoggedEntry(sb: Super, before: set<nat>, mid: set<nat>, t: State, u: State, i: nat, bn: nat, addr: nat)
    requires Shape(sb, t) && Shape(sb, u) && i < |t.inos| && bn < MAXFILE && LoggedOnly(sb, before, mid, t, i, bn, bn)
    requires addr == At(u, i, SlotOf(bn)) && 0 < addr < sb.size && At(u, i, NDIRECT) == At(t, i, NDIRECT) != 0
    ensures LoggedOnly(sb, before, mid + {BBlock(sb, addr), addr} + {At(u, i, NDIRECT)}, u, i, bn, bn + 1)
  {
    BitmapBlock(sb, addr);
  }

  lemma AtUnchanged(s: State, t: State, i: nat, p: nat, b: nat, y: nat)
    requires |t.inos| == |s.inos| && forall x :: 0 <= x < |s.inos| ==> GoodIno(s.inos[x]) && GoodIno(t.inos[x])
    requires AtChanged(s, t, i, p, b) && i < |s.inos| && y < SLOTS && y != p
    ensures At(t, i, y) == At(s, i, y)
  {
  }

  /** An indirect entry. */
  lemma AtEntry(sb: Super, s: State, i: nat, j: nat)
    requires Inv(sb, s) && i < |s.inos| && j < WORDS
    ensures var ind := s.inos[i].addrs[NDIRECT];
            At(s, i, NDIRECT) == ind && (ind == 0 ==> At(s, i, 13 + j) == 0)
            && (ind != 0 ==> ind < |s.disk| && At(s, i, 13 + j) == Word(s.disk[ind], j))
  {
    IndirectOk(sb, s, i);
  }

  /** Every block is in use. */
  ghost predicate Full(sb: Super, disk: seq<Block>) {
    forall c :: 0 <= c < sb.size ==> BBlock(sb, c) < |disk| && BlockBit(sb, disk, c)
  }

  lemma MetadataInUse(sb: Super, s: State, b: nat)
    requires Inv(sb, s) && b < sb.size && BBlock(sb, b) < |s.disk| && !BlockBit(sb, s.disk, b)
    ensures IsData(sb, b) && b != 0
  {
    hide BlockBit;
    assert BitOk(sb, s, b);
  }

  lemma ReservedIs(sb: Super, s: State, b: nat)
    requires BBlock(sb, b) < |s.disk| && b < |s.disk|
    ensures Reserved(sb, s, b)
              == s.(disk := s.disk[BBlock(sb, b) := SetBit(s.disk[BBlock(sb, b)], b % BPB, true)][b := ZEROS],
                                     pending := s.pending + {b})
  {
  }

  lemma ReservedFields(sb: Super, s: State, b: nat)
    requires BBlock(sb, b) < |s.disk| && b < |s.disk|
    ensures var t := Reserved(sb, s, b);
            t.inos == s.inos && t.owner == s.owner && t.dirty == s.dirty
            && t.pending == s.pending + {b} && t.disk[b] == ZEROS
  {
  }

  lemma PendingData(sb: Super, s: State, b: nat)
    requires Inv(sb, s) && b in s.pending
    ensures IsData(sb, b) && BBlock(sb, b) < |s.disk|
  {
    Regions(sb, b, 0);
  }

  lemma InvShape(sb: Super, s: State)
    requires Inv(sb, s)
    ensures Shape(sb, s)
  {
  }
}
