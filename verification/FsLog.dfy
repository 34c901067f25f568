/**
 The logging code of kernel/log.c, running on the buffer cache.  Each loop is proved to
 issue exactly the writes that RedoLog reasons about, so its crash theorems are about this
 code: whatever prefix of the writes reaches the disk, recovery finds the home blocks all
 old or all new.
 */
module FsLog {
  import opened Options
  import opened Params
  import opened Sequences
  import opened RedoLog
  import opened BufferCache

  predicate AllBelow(lh: seq<nat>, n: nat) {
    forall i :: 0 <= i < |lh| ==> lh[i] < n
  }

  /** The contents of the blocks of a transaction. */
  function Contents(view: Disk, lh: seq<nat>): (data: seq<Block>)
    requires AllBelow(lh, |view|)
    ensures |data| == |lh| && forall i :: 0 <= i < |lh| ==> data[i] == view[lh[i]]
  {
    seq(|lh|, i requires 0 <= i < |lh| => view[lh[i]])
  }

  lemma TakenOnce(r: multiset<nat>, h: set<nat>, a: nat)
    requires a !in h
    ensures r + multiset{a} - multiset{a} == r && h + {a} - {a} == h
  {
  }

  lemma TakenTwice(r: multiset<nat>, h: set<nat>, a: nat, b: nat)
    requires a != b && a !in h && b !in h
    ensures r + multiset{a} + multiset{b} - multiset{a} - multiset{b} == r
    ensures b in r ==> (r + multiset{a} + multiset{b} - multiset{b}) - multiset{a} - multiset{b} == r - multiset{b}
    ensures h + {a} + {b} - {a} - {b} == h
  {
  }

  /** What a caller can tell about the cache at one moment. */
  datatype Snap = Snap(trace: seq<Write>, view: Disk, refs: multiset<nat>, held: set<nat>, dirty: set<nat>)

  /** From s0 to s, the first tail rounds of install_trans() have been done and nothing else. */
  ghost predicate Installed(lh: seq<nat>, data: seq<Block>, recovering: bool, s0: Snap, s: Snap, tail: nat)
    requires tail <= |lh| == |data|
  {
    && s.trace == s0.trace + InstallWrites(lh, data)[..tail]
    && s.held == s0.held
    && s.dirty == s0.dirty - Elems(lh[..tail])
    && s.refs == (if recovering then s0.refs else s0.refs - multiset(lh[..tail]))
    && |s.view| == |s0.view|
    && (forall b :: 0 <= b < |s.view| && b !in lh[..tail] ==> s.view[b] == s0.view[b])
    && (forall i :: 0 <= i < tail && lh[i] < |s.view| ==> s.view[lh[i]] == data[i])
  }

  lemma InstalledStep(lh: seq<nat>, data: seq<Block>, recovering: bool, s0: Snap, s: Snap, t: Snap, tail: nat)
    requires tail < |lh| == |data| && Distinct(lh) && lh[tail] < |s.view|
    requires Installed(lh, data, recovering, s0, s, tail)
    requires t.trace == s.trace + [Write(lh[tail], data[tail])] && t.held == s.held
    requires t.dirty == s.dirty - {lh[tail]} && t.view == s.view[lh[tail] := data[tail]]
    requires t.refs == if recovering then s.refs else s.refs - multiset{lh[tail]}
    ensures Installed(lh, data, recovering, s0, t, tail + 1)
  {
    hide InstallWrites, Elems;
    InstalledWrites(lh, data, s0.trace, tail);
    InstalledCounts(lh, s0.refs, s0.dirty, tail);
    InstalledView(lh, data, s0.view, s.view, tail);
  }

  lemma InstalledWrites(lh: seq<nat>, data: seq<Block>, t: seq<Write>, tail: nat)
    requires tail < |lh| == |data|
    ensures |InstallWrites(lh, data)| == |lh|
    ensures t + InstallWrites(lh, data)[..tail] + [Write(lh[tail], data[tail])]
              == t + InstallWrites(lh, data)[..tail + 1]
  {
    assert InstallWrites(lh, data)[..tail + 1] == InstallWrites(lh, data)[..tail] + [Write(lh[tail], data[tail])];
  }

  lemma InstalledNone(lh: seq<nat>, data: seq<Block>, recovering: bool, s0: Snap)
    requires |lh| == |data|
    ensures Installed(lh, data, recovering, s0, s0, 0)
  {
  }

  lemma InstalledTrace(lh: seq<nat>, data: seq<Block>, recovering: bool, s0: Snap, s: Snap, tail: nat)
    requires tail <= |lh| == |data| && Installed(lh, data, recovering, s0, s, tail)
    ensures |InstallWrites(lh, data)| == |lh| && s.trace == s0.trace + InstallWrites(lh, data)[..tail]
  {
  }

  /** The log blocks are not home blocks, so installing leaves them alone. */
  lemma LogBlockKept(l: Layout, lh: seq<nat>, data: seq<Block>, recovering: bool, s0: Snap, s: Snap, tail: nat)
    requires tail < |lh| == |data| && GoodBlocks(l, s0.view, lh) && GoodLayout(l, s0.view)
    requires Installed(lh, data, recovering, s0, s, tail) && data == LogData(l, s0.view, |lh|)
    ensures |s.view| == |s0.view| && s.view[l.start + 1 + tail] == data[tail]
  {
    assert InLog(l, l.start + 1 + tail);
    assert forall i :: 0 <= i < tail ==> Home(l, s0.view, lh[i]);
  }

  lemma InstalledCounts(lh: seq<nat>, r: multiset<nat>, d: set<nat>, tail: nat)
    requires tail < |lh|
    ensures d - Elems(lh[..tail]) - {lh[tail]} == d - Elems(lh[..tail + 1])
    ensures r - multiset(lh[..tail]) - multiset{lh[tail]} == r - multiset(lh[..tail + 1])
  {
    assert lh[..tail + 1] == lh[..tail] + [lh[tail]];
    ElemsAppend(lh[..tail], lh[tail]);
  }

  lemma InstalledView(lh: seq<nat>, data: seq<Block>, v0: Disk, v: Disk, tail: nat)
    requires tail < |lh| == |data| && Distinct(lh) && lh[tail] < |v| == |v0|
    requires forall b :: 0 <= b < |v| && b !in lh[..tail] ==> v[b] == v0[b]
    requires forall i :: 0 <= i < tail && lh[i] < |v| ==> v[lh[i]] == data[i]
    ensures var w := v[lh[tail] := data[tail]];
            && (forall b :: 0 <= b < |w| && b !in lh[..tail + 1] ==> w[b] == v0[b])
            && (forall i :: 0 <= i < tail + 1 && lh[i] < |w| ==> w[lh[i]] == data[i])
  {
    assert lh[..tail + 1] == lh[..tail] + [lh[tail]];
    forall i | 0 <= i < tail && lh[i] < |v| ensures v[lh[tail] := data[tail]][lh[i]] == data[i] {
      assert lh[i] != lh[tail];
    }
  }

  ghost predicate PinnedIn(lh: seq<nat>, refs: multiset<nat>) {
    forall i :: 0 <= i < |lh| ==> lh[i] in refs
  }

  ghost predicate QuietIn(l: Layout, lh: seq<nat>, held: set<nat>) {
    && (forall b :: InLog(l, b) ==> b !in held)
    && (forall i :: 0 <= i < |lh| ==> lh[i] !in held)
  }

  /** From v to w, the data has gone into the log, and the header and home blocks are as they were. */
  ghost predicate LogHas(l: Layout, data: seq<Block>, v: Disk, w: Disk) {
    && |v| == |w| && l.start + |data| < |v|
    && (forall b :: 0 <= b < |v| && (b == l.start || !InLog(l, b)) ==> w[b] == v[b])
    && (forall i :: 0 <= i < |data| ==> w[l.start + 1 + i] == data[i])
  }

  /** No buffer of the log is ahead of the disk. */
  ghost predicate LogClean(l: Layout, dirty: set<nat>) {
    forall b :: b in dirty ==> !InLog(l, b)
  }

  lemma HeadClean(l: Layout, d: Disk, dirty: set<nat>)
    requires GoodLayout(l, d) && LogClean(l, dirty)
    ensures dirty - {l.start} == dirty
  {
    assert InLog(l, l.start);
  }

  lemma FewBlocks(l: Layout, d: Disk, lh: seq<nat>)
    requires GoodBlocks(l, d, lh)
    ensures |lh| <= LOGSIZE && |lh| < l.size
  {
  }

  lemma GoodBlocksSized(l: Layout, d: Disk, e: Disk, lh: seq<nat>)
    requires GoodBlocks(l, d, lh) && |d| == |e|
    ensures GoodBlocks(l, e, lh)
  {
    forall i | 0 <= i < |lh| ensures Home(l, e, lh[i]) {
      assert Home(l, d, lh[i]);
    }
  }

  lemma HeadNotHome(l: Layout, d: Disk, h: Block)
    requires GoodLayout(l, d)
    ensures SameHome(l, d, d[l.start := h])
  {
  }

  lemma InstalledRefs(lh: seq<nat>, data: seq<Block>, recovering: bool, s0: Snap, s: Snap, tail: nat)
    requires tail <= |lh| == |data| && Installed(lh, data, recovering, s0, s, tail)
    ensures s.refs <= s0.refs
  {
  }

  /** Installing what the cache holds anyway changes nothing that its callers see. */
  lemma InstalledSame(lh: seq<nat>, data: seq<Block>, s0: Snap, s: Snap)
    requires AllBelow(lh, |s0.view|) && data == Contents(s0.view, lh)
    requires Installed(lh, data, false, s0, s, |lh|)
    ensures s.view == s0.view && s.held == s0.held
    ensures s.dirty == s0.dirty - Elems(lh) && s.refs == s0.refs - multiset(lh)
  {
    assert lh[..|lh|] == lh;
    forall b | 0 <= b < |s.view| ensures s.view[b] == s0.view[b] {
      if b in lh {
        var i :| 0 <= i < |lh| && lh[i] == b;
        assert s.view[lh[i]] == data[i];
      }
    }
  }

  /** The writes of commit() after the transaction is in the log. */
  function InstallAndErase(l: Layout, h: Block, lh: seq<nat>, data: seq<Block>): (ws: seq<Write>)
    requires |lh| == |data|
  {
    InstallWrites(lh, data) + [HeadWrite(l, h, [])]
  }

  class Log {
    const cache: Bcache
    const l: Layout
    var outstanding: nat   // FS system calls that are executing
    var committing: bool
    var lh: seq<nat>       // lh.block[0..lh.n)

    /** initlog(), before the recovery. */
    constructor (cache: Bcache, l: Layout)
      ensures this.cache == cache && this.l == l && outstanding == 0 && !committing && lh == []
    {
      this.cache, this.l, outstanding, committing, lh := cache, l, 0, false, [];
    }

    ghost predicate Valid()
      reads this`lh, cache, cache.bufs
    {
      && cache.Valid()
      && |cache.view| == |cache.disk|
      && GoodLayout(l, cache.disk)
      && GoodBlocks(l, cache.disk, lh)
      && AllBelow(lh, |cache.view|)
      && LogClean(l, cache.dirty)
    }

    /** Every logged block is pinned. */
    ghost predicate Pinned()
      reads this`lh, cache
    {
      PinnedIn(lh, cache.refs)
    }

    ghost predicate Quiet(b: nat)
      reads cache
    {
      b < |cache.disk| && b !in cache.held
    }

    /** No process has a block of the log or of the transaction locked. */
    ghost predicate AllQuiet()
      reads this`lh, cache
    {
      QuietIn(l, lh, cache.held)
    }

    /** There is a buffer for each logged block and its log block. */
    ghost predicate RoomForAll(refs: multiset<nat>)
      reads this`lh
    {
      forall i :: 0 <= i < |lh| ==> HasRoom(cache.nbuf, refs, {lh[i], l.start + 1 + i})
    }

    // ----- commit -----

    /** write_log() */
    method WriteLog(ghost data: seq<Block>) returns (ok: bool, ghost k: nat)
      requires Valid() && AllQuiet() && data == Contents(cache.view, lh)
      modifies cache, cache.bufs
      ensures cache.Valid() && k <= |lh|
      ensures cache.trace == old(cache.trace) + LogWrites(l, data)[..k]
      ensures ok ==> Valid() && k == |lh| && |cache.disk| == |old(cache.disk)|
      ensures ok ==> cache.dirty == old(cache.dirty) && cache.refs == old(cache.refs) && cache.held == old(cache.held)
      ensures ok ==> LogHas(l, data, old(cache.view), cache.view)
      ensures ok <==> RoomForAll(old(cache.refs))
    {
      hide Bcache.Valid, HasRoom;
      var tail := 0;
      while tail < |lh|
        invariant 0 <= tail <= |lh|
        invariant Valid()
        invariant cache.trace == old(cache.trace) + LogWrites(l, data)[..tail]
        invariant cache.dirty == old(cache.dirty) && cache.refs == old(cache.refs) && cache.held == old(cache.held)
        invariant |cache.disk| == |old(cache.disk)|
        invariant forall b :: 0 <= b < |cache.disk| && (b == l.start || !InLog(l, b)) ==>
                    cache.view[b] == old(cache.view[b])
        invariant forall i :: 0 <= i < tail ==> cache.view[l.start + 1 + i] == data[i]
        invariant forall i :: 0 <= i < tail ==> HasRoom(cache.nbuf, cache.refs, {lh[i], l.start + 1 + i})
      {
        ghost var from, to := lh[tail], l.start + 1 + tail;
        assert Home(l, cache.disk, from) && InLog(l, to);
        assert cache.view[from] == data[tail];
        ok := LogBlock(lh[tail], l.start + 1 + tail);
        if !ok {
          return false, tail;
        }
        assert LogWrites(l, data)[..tail + 1] == LogWrites(l, data)[..tail] + [Write(to, data[tail])];
        tail := tail + 1;
      }
      return true, tail;
    }

    /** One round of write_log(): a cached block goes to its log block. */
    method LogBlock(from: nat, to: nat) returns (ok: bool)
      requires cache.Valid() && from != to && Quiet(from) && Quiet(to)
      modifies cache, cache.bufs
      ensures cache.Valid() && |cache.disk| == |old(cache.disk)|
      ensures ok ==> cache.trace == old(cache.trace) + [Write(to, old(cache.view)[from])]
      ensures ok ==> cache.view == old(cache.view)[to := old(cache.view)[from]]
      ensures ok ==> cache.dirty == old(cache.dirty) - {to}
      ensures ok ==> cache.refs == old(cache.refs) && cache.held == old(cache.held)
      ensures !ok ==> cache.trace == old(cache.trace)
      ensures ok <==> HasRoom(cache.nbuf, old(cache.refs), {from, to})
    {
      hide ToFront, Bcache.Valid, HasRoom, Stable;
      cache.Facts();
      RoomForTwo(cache.nbuf, cache.refs, to, from);
      var t, _ := cache.Bread(to);
      if t.None? {
        return false;
      }
      ok := LogBlockInto(t.value, from, to);
      if ok {
        cache.Brelse(t.value, to);
      }
    }

    /** The part of the round between taking and releasing the log block's buffer. */
    method LogBlockInto(t: nat, from: nat, ghost to: nat) returns (ok: bool)
      requires cache.Valid() && from != to && Quiet(from)
      requires cache.Holds(t, to) && to in cache.held && to in cache.loaded
      modifies cache, cache.bufs
      ensures cache.Valid() && |cache.disk| == |old(cache.disk)|
      ensures ok ==> cache.Holds(t, to) && to in cache.loaded
      ensures ok ==> cache.trace == old(cache.trace) + [Write(to, old(cache.view)[from])]
      ensures ok ==> cache.view == old(cache.view)[to := old(cache.view)[from]]
      ensures ok ==> cache.dirty == old(cache.dirty) - {to}
      ensures ok ==> cache.refs == old(cache.refs) && cache.held == old(cache.held)
      ensures !ok ==> cache.trace == old(cache.trace)
      ensures ok <==> HasRoom(cache.nbuf, old(cache.refs), {from})
    {
      hide ToFront, Bcache.Valid, HasRoom;
      var f, data := BreadBeside(from, t, to);
      if f.None? {
        return false;
      }
      WriteInto(t, to, data);
      cache.Facts();
      cache.Brelse(f.value, from);
      TakenOnce(old(cache.refs), old(cache.held), from);
      return true;
    }

    /** bread() of a block while the caller has the buffer of another. */
    method BreadBeside(b: nat, ghost t: nat, ghost to: nat) returns (r: Option<nat>, data: Block)
      requires cache.Valid() && b != to && Quiet(b)
      requires cache.Holds(t, to) && to in cache.held && to in cache.loaded
      modifies cache`refs, cache`slot, cache`held, cache`loaded, cache.bufs
      ensures cache.Valid() && cache.Holds(t, to) && to in cache.held && to in cache.loaded && b < |cache.view|
      ensures r.Some? ==> cache.Holds(r.value, b) && b in cache.loaded && data == cache.view[b]
      ensures r.Some? ==> cache.refs == old(cache.refs) + multiset{b} && cache.held == old(cache.held) + {b}
      ensures r.Some? && b in cache.dirty ==> 1 < cache.refs[b]
      ensures r.Some? <==> HasRoom(cache.nbuf, old(cache.refs), {b})
    {
      hide Bcache.Valid, HasRoom;
      cache.Facts();
      r, data := cache.Bread(b);
    }

    /** A buffer that the caller has locked gets new contents, on disk as well. */
    method WriteInto(t: nat, ghost to: nat, data: Block)
      requires cache.Valid() && cache.Holds(t, to) && to in cache.held && to in cache.loaded && to < |cache.view|
      modifies cache`view, cache`dirty, cache`disk, cache`trace, cache.bufs
      ensures cache.Valid() && cache.Holds(t, to) && |cache.disk| == |old(cache.disk)|
      ensures cache.trace == old(cache.trace) + [Write(to, data)]
      ensures cache.view == old(cache.view)[to := data] && cache.dirty == old(cache.dirty) - {to}
    {
      hide Bcache.Valid;
      cache.Edit(t, to, data);
      cache.Bwrite(t, to);
      assert cache.dirty == old(cache.dirty) - {to};
    }

    /** write_head() */
    method WriteHead() returns (ok: bool)
      requires Valid() && Quiet(l.start)
      modifies cache, cache.bufs
      ensures cache.Valid() && |cache.disk| == |old(cache.disk)|
      ensures !ok ==> cache.trace == old(cache.trace)
      ensures ok ==> Valid()
      ensures ok ==> cache.trace == old(cache.trace) + [HeadWrite(l, old(cache.view)[l.start], lh)]
      ensures ok ==> cache.view == old(cache.view)[l.start := SetHead(old(cache.view)[l.start], lh)]
      ensures ok ==> cache.dirty == old(cache.dirty) && cache.refs == old(cache.refs) && cache.held == old(cache.held)
      ensures ok <==> HasRoom(cache.nbuf, old(cache.refs), {l.start})
    {
      hide ToFront, Bcache.Valid, HasRoom, Stable, SetHead, GoodBlocks, LogClean;
      cache.Facts();
      ghost var d := cache.disk;
      FewBlocks(l, d, lh);
      HeadClean(l, d, cache.dirty);
      var h, data := cache.Bread(l.start);
      if h.None? {
        return false;
      }
      WriteInto(h.value, l.start, SetHead(data, lh));
      cache.Brelse(h.value, l.start);
      GoodBlocksSized(l, d, cache.disk, lh);
      TakenOnce(old(cache.refs), old(cache.held), l.start);
      return true;
    }

    // ----- install -----

    /** One round of install_trans(): a log block goes to its home block. */
    method InstallBlock(src: nat, dst: nat, recovering: bool) returns (ok: bool)
      requires cache.Valid() && src != dst && Quiet(src) && Quiet(dst)
      requires !recovering ==> dst in cache.refs
      modifies cache, cache.bufs
      ensures cache.Valid() && |cache.disk| == |old(cache.disk)|
      ensures !ok ==> cache.trace == old(cache.trace)
      ensures ok ==> cache.trace == old(cache.trace) + [Write(dst, old(cache.view)[src])]
      ensures ok ==> cache.view == old(cache.view)[dst := old(cache.view)[src]]
      ensures ok ==> cache.dirty == old(cache.dirty) - {dst} && cache.held == old(cache.held)
      ensures ok ==> cache.refs == if recovering then old(cache.refs) else old(cache.refs) - multiset{dst}
      ensures ok <==> HasRoom(cache.nbuf, old(cache.refs), {dst, src})
    {
      hide Bcache.Valid, HasRoom;
      cache.Facts();
      var f, t, data := BreadTwo(src, dst);
      if f.None? || t.None? {
        return false;
      }
      TakenTwice(old(cache.refs), old(cache.held), src, dst);
      InstallInto(f.value, src, t.value, dst, data, recovering);
      return true;
    }

    method BreadTwo(src: nat, dst: nat) returns (f: Option<nat>, t: Option<nat>, data: Block)
      requires cache.Valid() && src != dst && Quiet(src) && Quiet(dst)
      modifies cache`refs, cache`slot, cache`held, cache`loaded, cache.bufs
      ensures cache.Valid()
      ensures f.Some? && t.Some? ==> cache.Holds(f.value, src) && src in cache.loaded && data == cache.view[src]
                                     && cache.Holds(t.value, dst) && dst in cache.loaded
                                     && cache.refs == old(cache.refs) + multiset{src} + multiset{dst}
                                     && cache.held == old(cache.held) + {src} + {dst}
      ensures f.Some? && t.Some? <==> HasRoom(cache.nbuf, old(cache.refs), {dst, src})
    {
      hide Bcache.Valid, HasRoom;
      cache.Facts();
      RoomForTwo(cache.nbuf, cache.refs, src, dst);
      t := None;
      f, data := cache.Bread(src);
      if f.Some? {
        var ignored := data;
        t, ignored := cache.Bread(dst);
      }
    }

    /** The part of the round after both buffers have been taken. */
    method InstallInto(f: nat, ghost src: nat, t: nat, ghost dst: nat, data: Block, recovering: bool)
      requires cache.Valid() && src != dst
      requires cache.Holds(f, src) && src in cache.held && src in cache.loaded
      requires cache.Holds(t, dst) && dst in cache.held && dst in cache.loaded
      requires src in cache.dirty ==> 1 < cache.refs[src]
      requires !recovering ==> 1 < cache.refs[dst]
      modifies cache, cache.bufs
      ensures cache.Valid() && |cache.disk| == |old(cache.disk)|
      ensures cache.trace == old(cache.trace) + [Write(dst, data)]
      ensures cache.view == old(cache.view)[dst := data]
      ensures cache.dirty == old(cache.dirty) - {dst} && cache.held == old(cache.held) - {src} - {dst}
      ensures cache.refs == (if recovering then old(cache.refs) else old(cache.refs) - multiset{dst})
                            - multiset{src} - multiset{dst}
    {
      hide Bcache.Valid;
      cache.Edit(t, dst, data);
      cache.Bwrite(t, dst);
      if !recovering {
        cache.Bunpin(t, dst);
      }
      ReleaseTwo(f, src, t, dst);
    }

    method ReleaseTwo(f: nat, ghost src: nat, t: nat, ghost dst: nat)
      requires cache.Valid() && src != dst
      requires cache.Holds(f, src) && src in cache.held && cache.Holds(t, dst) && dst in cache.held
      requires (src in cache.dirty ==> 1 < cache.refs[src]) && dst !in cache.dirty
      modifies cache`refs, cache`held, cache`order, cache.bufs
      ensures cache.Valid() && cache.held == old(cache.held) - {src} - {dst}
      ensures cache.refs == old(cache.refs) - multiset{src} - multiset{dst}
    {
      hide ToFront, Bcache.Valid;
      cache.Brelse(f, src);
      cache.Brelse(t, dst);
    }

    ghost function Now(): (s: Snap)
      reads cache
    {
      Snap(cache.trace, cache.view, cache.refs, cache.held, cache.dirty)
    }

    /** install_trans() */
    method InstallTrans(recovering: bool, ghost data: seq<Block>) returns (ok: bool, ghost k: nat)
      requires Valid() && AllQuiet() && (recovering || Pinned())
      requires data == LogData(l, cache.view, |lh|)
      modifies cache, cache.bufs
      ensures cache.Valid() && k <= |lh|
      ensures cache.trace == old(cache.trace) + InstallWrites(lh, data)[..k]
      ensures ok ==> Valid() && k == |lh| && Installed(lh, data, recovering, old(Now()), Now(), k)
      ensures RoomForAll(old(cache.refs)) ==> ok
    {
      hide Bcache.Valid, Installed, InstallWrites, HasRoom, Log.RoomForAll;
      ghost var s0 := Now();
      var tail := 0;
      InstalledNone(lh, data, recovering, s0);
      while tail < |lh|
        invariant 0 <= tail <= |lh|
        invariant Valid() && AllQuiet()
        invariant Installed(lh, data, recovering, s0, Now(), tail)
      {
        ghost var s := Now();
        ok := InstallRound(recovering, data, s0, tail);
        if !ok {
          InstalledTrace(lh, data, recovering, s0, s, tail);
          return false, tail;
        }
        tail := tail + 1;
      }
      InstalledTrace(lh, data, recovering, s0, Now(), tail);
      return true, tail;
    }

    /** Round tail of install_trans(), after those before it. */
    method InstallRound(recovering: bool, ghost data: seq<Block>, ghost s0: Snap, tail: nat) returns (ok: bool)
      requires Valid() && AllQuiet() && tail < |lh| == |data| && Installed(lh, data, recovering, s0, Now(), tail)
      requires recovering || forall i :: 0 <= i < |lh| ==> lh[i] in s0.refs
      requires GoodLayout(l, s0.view) && GoodBlocks(l, s0.view, lh) && data == LogData(l, s0.view, |lh|)
      modifies cache, cache.bufs
      ensures cache.Valid()
      ensures !ok ==> cache.trace == old(cache.trace)
      ensures ok ==> Valid() && AllQuiet() && Installed(lh, data, recovering, s0, Now(), tail + 1)
      ensures RoomForAll(s0.refs) ==> ok
    {
      hide Bcache.Valid, Installed, HasRoom, LogData;
      ghost var s := Now();
      var src := l.start + 1 + tail;
      assert Home(l, cache.disk, lh[tail]) && InLog(l, src);
      LogBlockKept(l, lh, data, recovering, s0, s, tail);
      PinnedStill(recovering, data, s0, tail);
      if RoomForAll(s0.refs) {
        assert HasRoom(cache.nbuf, s0.refs, {lh[tail], src});
        InstalledRefs(lh, data, recovering, s0, s, tail);
        RoomForFewer(cache.nbuf, s0.refs, cache.refs, {lh[tail], src});
      }
      ok := InstallBlock(src, lh[tail], recovering);
      if ok {
        InstalledStep(lh, data, recovering, s0, s, Now(), tail);
      }
    }

    lemma ValidSizes()
      requires Valid()
      ensures |cache.view| == |cache.disk| && cache.Valid()
    {
    }

    lemma HeadQuiet()
      requires Valid() && AllQuiet()
      ensures Quiet(l.start) && GoodLayout(l, cache.view) && |cache.view| == |cache.disk| && |lh| <= LOGSIZE
      ensures AllBelow(lh, |cache.view|)
    {
      assert InLog(l, l.start);
    }

    /** With the transaction pinned, one buffer without references is enough for a commit. */
    lemma OneIsEnough()
      requires Pinned() && |InUse(cache.refs)| < cache.nbuf
      ensures RoomForAll(cache.refs) && (lh != [] ==> HasRoom(cache.nbuf, cache.refs, {l.start}))
    {
      hide HasRoom;
      forall i | 0 <= i < |lh| ensures HasRoom(cache.nbuf, cache.refs, {lh[i], l.start + 1 + i}) {
        RoomForOne(cache.nbuf, cache.refs, lh[i], l.start + 1 + i);
      }
      if lh != [] {
        RoomForOne(cache.nbuf, cache.refs, lh[0], l.start);
      }
    }

    lemma PinnedStill(recovering: bool, data: seq<Block>, s0: Snap, tail: nat)
      requires tail < |lh| == |data| && Distinct(lh) && Installed(lh, data, recovering, s0, Now(), tail)
      requires recovering || forall i :: 0 <= i < |lh| ==> lh[i] in s0.refs
      ensures recovering || lh[tail] in cache.refs
    {
      assert lh[tail] !in lh[..tail];
    }

    /** The first half of commit(): after it the transaction is in the log and the header says so. */
    method CommitToLog(ghost data: seq<Block>) returns (ok: bool, ghost k: nat)
      requires Valid() && AllQuiet() && Pinned() && lh != [] && data == Contents(cache.view, lh)
      modifies cache, cache.bufs
      ensures cache.Valid() && k <= |lh| + 1
      ensures cache.trace == old(cache.trace) + CommitWrites(l, old(cache.view)[l.start], lh, data)[..k]
      ensures ok ==> Valid() && AllQuiet() && Pinned() && k == |lh| + 1
      ensures ok ==> cache.dirty == old(cache.dirty) && cache.refs == old(cache.refs) && cache.held == old(cache.held)
      ensures ok ==> |cache.view| == |old(cache.view)| && cache.view[l.start] == SetHead(old(cache.view)[l.start], lh)
      ensures ok ==> LogData(l, cache.view, |lh|) == data
      ensures ok ==> SameHome(l, old(cache.view), cache.view)
      ensures |InUse(old(cache.refs))| < cache.nbuf ==> ok
    {
      hide Bcache.Valid, CommitWrites, LogWrites, HasRoom, InUse, Log.RoomForAll, QuietIn, PinnedIn, LogHas, SameHome;
      hide LogData, SetHead, GoodBlocks, LogClean;
      HeadQuiet();
      FewBlocks(l, cache.disk, lh);
      if |InUse(cache.refs)| < cache.nbuf {
        OneIsEnough();
      }
      ghost var t0, h := cache.trace, cache.view[l.start];
      CommitPrefixes(l, h, lh, data);
      ok, k := WriteLog(data);
      if ok {
        LogWritten(l, lh, data, old(cache.view), cache.view, SetHead(h, lh));
        ghost var t1 := cache.trace;
        ok := WriteHead();
        if ok {
          k := |lh| + 1;
          assert t1 + [HeadWrite(l, h, lh)] == t0 + CommitWrites(l, h, lh, data)[..k];
        }
      }
    }

    /** commit().  Whatever it managed to write is a prefix of the commit's writes; a commit
        that ends has written them all, unpinned the transaction, and changed nothing that a
        caller of the cache can see outside the log. */
    method Commit(ghost data: seq<Block>) returns (ok: bool, ghost k: nat)
      requires Valid() && AllQuiet() && Pinned() && data == Contents(cache.view, lh)
      modifies this`lh, cache, cache.bufs
      ensures cache.Valid()
      ensures k <= |CommitWrites(l, old(cache.view)[l.start], old(lh), data)|
      ensures cache.trace == old(cache.trace) + CommitWrites(l, old(cache.view)[l.start], old(lh), data)[..k]
      ensures ok ==> Valid() && lh == [] && k == |CommitWrites(l, old(cache.view)[l.start], old(lh), data)|
      ensures ok ==> cache.dirty == old(cache.dirty) - Elems(old(lh)) && cache.held == old(cache.held)
      ensures ok ==> cache.refs == old(cache.refs) - multiset(old(lh))
      ensures ok ==> SameHome(l, old(cache.view), cache.view)
      ensures |InUse(old(cache.refs))| < cache.nbuf ==> ok
    {
      hide Bcache.Valid, CommitWrites, InstallAndErase, SameHome, LogData, Contents, InUse;
      ghost var t0, h, lh0, view0 := cache.trace, cache.view[l.start], lh, cache.view;
      CommitLength(l, h, lh, data);
      ok, k := true, 0;
      SameHomeRefl(l, view0);
      if 0 < |lh| {
        ok, k := CommitToLog(data);
        if ok {
          ContentsSame(l, view0, cache.view, lh);
          ghost var view1, j := cache.view, 0;
          ok, j := CommitInstall(data);
          k := |lh0| + 1 + j;
          CommitJoin(l, h, lh0, data, t0, j);
          if ok {
            SameHomeChain(l, view0, view1, cache.view);
          }
        }
      } else {
        assert t0 + CommitWrites(l, h, lh, data)[..0] == t0;
      }
    }

    /** The second half of commit(): install, then erase the header. */
    method CommitInstall(ghost data: seq<Block>) returns (ok: bool, ghost j: nat)
      requires Valid() && AllQuiet() && Pinned()
      requires data == LogData(l, cache.view, |lh|) == Contents(cache.view, lh)
      modifies this`lh, cache, cache.bufs
      ensures cache.Valid() && j <= |old(lh)| + 1
      ensures cache.trace == old(cache.trace) + InstallAndErase(l, old(cache.view)[l.start], old(lh), data)[..j]
      ensures ok ==> Valid() && lh == [] && j == |old(lh)| + 1
      ensures ok ==> cache.dirty == old(cache.dirty) - Elems(old(lh)) && cache.held == old(cache.held)
      ensures ok ==> cache.refs == old(cache.refs) - multiset(old(lh))
      ensures ok ==> SameHome(l, old(cache.view), cache.view)
      ensures old(lh) != [] && |InUse(old(cache.refs))| < cache.nbuf ==> ok
    {
      hide Bcache.Valid, InstallAndErase, InstallWrites, HasRoom, InUse, Log.RoomForAll;
      hide Installed, SameHome, Contents, LogData, Log.Valid, Log.AllQuiet, Log.Pinned, SetHead;
      HeadQuiet();
      if lh != [] && |InUse(cache.refs)| < cache.nbuf {
        OneIsEnough();
        RoomForFewer(cache.nbuf, cache.refs, cache.refs - multiset(lh), {l.start});
      }
      InstallSplit(l, cache.view[l.start], lh, data, cache.trace);
      ok, j := InstallTrans(false, data);
      if ok {
        InstalledSame(lh, data, old(Now()), Now());
        ValidSizes();
        ok := EraseHead();
        if ok {
          j := j + 1;
          HeadNotHome(l, old(cache.view), SetHead(old(cache.view)[l.start], []));
        }
      }
    }

    /** lh.n = 0; write_head(); */
    method EraseHead() returns (ok: bool)
      requires Valid() && Quiet(l.start)
      modifies this`lh, cache, cache.bufs
      ensures cache.Valid()
      ensures !ok ==> cache.trace == old(cache.trace)
      ensures ok ==> Valid() && lh == [] && |cache.view| == |old(cache.view)|
      ensures ok ==> cache.trace == old(cache.trace) + [HeadWrite(l, old(cache.view)[l.start], [])]
      ensures ok ==> cache.view == old(cache.view)[l.start := SetHead(old(cache.view)[l.start], [])]
      ensures ok ==> cache.dirty == old(cache.dirty) && cache.refs == old(cache.refs) && cache.held == old(cache.held)
      ensures ok <==> HasRoom(cache.nbuf, old(cache.refs), {l.start})
    {
      hide Bcache.Valid, HasRoom;
      lh := [];
      ok := WriteHead();
    }

    // ----- recovery -----

    /** read_head() */
    method ReadHead() returns (ok: bool)
      requires cache.Valid() && Quiet(l.start) && GoodHead(l, cache.view)
      modifies this`lh, cache, cache.bufs
      ensures cache.Valid() && cache.trace == old(cache.trace)
      ensures ok ==> lh == HeadBlocks(old(cache.view)[l.start])
      ensures ok ==> Now() == old(Now()) && cache.disk == old(cache.disk)
      ensures ok <==> HasRoom(cache.nbuf, old(cache.refs), {l.start})
    {
      hide ToFront, Bcache.Valid, HasRoom, Stable;
      cache.Facts();
      var h, data := cache.Bread(l.start);
      if h.None? {
        return false;
      }
      assert forall i :: 0 <= i < data[0] ==> Home(l, old(cache.view), HeadBlocks(data)[i]);
      CopyBlocks(data);
      cache.Brelse(h.value, l.start);
      TakenOnce(old(cache.refs), old(cache.held), l.start);
      return true;
    }

    /** read_head()'s loop. */
    method CopyBlocks(h: Block)
      requires 0 <= h[0] <= LOGSIZE && forall i :: 0 <= i < h[0] ==> 0 <= HeadBlocks(h)[i]
      modifies this`lh
      ensures lh == HeadBlocks(h)
    {
      var n := h[0];
      lh := [];
      while |lh| < n
        invariant |lh| <= n
        invariant lh == h[1..1 + |lh|]
      {
        assert h[1 + |lh|] == HeadBlocks(h)[|lh|];
        lh := lh + [h[1 + |lh|]];
      }
    }

    /** recover_from_log(), run on a cache that no one else uses yet: what it writes is a prefix
        of the recovery's writes, and all of them if it ends. */
    method RecoverFromLog() returns (ok: bool, ghost k: nat)
      requires cache.Valid() && cache.dirty == {} && cache.held == {} && GoodHead(l, cache.disk)
      modifies this`lh, cache, cache.bufs
      ensures cache.Valid() && k <= |RecoveryWrites(l, old(cache.disk))|
      ensures cache.trace == old(cache.trace) + RecoveryWrites(l, old(cache.disk))[..k]
      ensures ok ==> Valid() && lh == [] && k == |RecoveryWrites(l, old(cache.disk))|
      ensures ok ==> cache.view == cache.disk && cache.dirty == {} && cache.held == {} && cache.refs == old(cache.refs)
      ensures ok ==> cache.disk[l.start][0] == 0
      ensures |InUse(old(cache.refs))| + 2 <= cache.nbuf ==> ok
    {
      hide Bcache.Valid, InstallAndErase, InstallWrites, HasRoom, InUse;
      cache.Facts();
      ghost var spare := |InUse(cache.refs)| + 2 <= cache.nbuf;
      if spare {
        RoomForAnyTwo(cache.nbuf, cache.refs);
      }
      ghost var d, t0 := cache.disk, cache.trace;
      ok := ReadHead();
      k := 0;
      RecoverySplit(l, d, t0);
      if ok {
        ghost var data := LogData(l, cache.view, |lh|);
        InstallSplit(l, d[l.start], lh, data, t0);
        ok, k := InstallTrans(true, data);
        if ok {
          assert InLog(l, l.start) && l.start !in lh[..|lh|];
          assert cache.view[l.start] == d[l.start];
          ok := EraseHead();
          if ok {
            k := k + 1;
            cache.Facts();
          }
        }
      }
    }

    // ----- operations -----

    /** begin_op()'s test.  False stands for sleeping until the log has room. */
    method BeginOp() returns (admitted: bool)
      modifies this`outstanding
      ensures admitted <==> Admits(|lh|, old(outstanding), committing)
      ensures outstanding == if admitted then old(outstanding) + 1 else old(outstanding)
    {
      if committing {
        return false;
      } else if |lh| + (outstanding + 1) * MAXOPBLOCKS > LOGSIZE {
        return false;
      }
      outstanding := outstanding + 1;
      return true;
    }

    /** commit() on an empty log, seen from the disk. */
    method CommitAtomic(ghost data: seq<Block>) returns (ok: bool, ghost k: nat)
      requires Valid() && AllQuiet() && Pinned() && data == Contents(cache.view, lh)
      requires cache.disk[l.start][0] == 0
      modifies this`lh, cache, cache.bufs
      ensures cache.Valid() && GoodHead(l, cache.disk)
      ensures k <= |old(lh)| ==> SameHome(l, old(cache.disk), Recovered(l, cache.disk))
      ensures k > |old(lh)| ==> Updated(l, old(cache.disk), old(lh), data, Recovered(l, cache.disk))
      ensures ok ==> Valid() && lh == [] && (old(lh) != [] ==> |old(lh)| < k)
      ensures ok ==> SameHome(l, old(cache.view), cache.view)
      ensures ok ==> l.start < |cache.disk| && cache.disk[l.start][0] == 0
      ensures |InUse(old(cache.refs))| < cache.nbuf ==> ok
    {
      hide BufferCache.Inv, RedoLog.Apply, GoodHead, Updated, SameHome, InUse;
      ghost var d0, t0, d, lh0 := cache.disk0, cache.trace, cache.disk, lh;
      cache.Clean(l.start);
      ok, k := Commit(data);
      DiskAfter(d0, t0, CommitWrites(l, d[l.start], lh0, data)[..k]);
      CrashInCommit(l, d, lh0, data, k);
      CommitLength(l, d[l.start], lh0, data);
      if ok {
        CommitDone(l, d, lh0, data);
      }
    }

    /** end_op().  The last operation out commits; wherever that commit stops, the home blocks
        recover to the old ones, or to those of the whole transaction. */
    method EndOp(ghost data: seq<Block>) returns (ok: bool, ghost k: nat)
      requires Valid() && AllQuiet() && Pinned() && data == Contents(cache.view, lh)
      requires 1 <= outstanding && !committing && cache.disk[l.start][0] == 0
      modifies this, cache, cache.bufs
      ensures outstanding == old(outstanding) - 1
      ensures 0 < outstanding ==> ok && !committing && lh == old(lh) && unchanged(cache) && unchanged(cache.bufs)
      ensures outstanding == 0 ==> ok == !committing && GoodHead(l, cache.disk)
      ensures outstanding == 0 && k <= |old(lh)| ==> SameHome(l, old(cache.disk), Recovered(l, cache.disk))
      ensures outstanding == 0 && k > |old(lh)| ==> Updated(l, old(cache.disk), old(lh), data, Recovered(l, cache.disk))
      ensures outstanding == 0 && ok ==> Valid() && lh == [] && (old(lh) != [] ==> |old(lh)| < k)
      ensures outstanding == 0 && ok ==> SameHome(l, old(cache.view), cache.view)
      ensures ok ==> l.start < |cache.disk| && cache.disk[l.start][0] == 0
      ensures |InUse(old(cache.refs))| < cache.nbuf ==> ok
    {
      hide Bcache.Valid, GoodHead, Updated, SameHome, InUse, Recovered, Log.Valid, Log.AllQuiet, Log.Pinned, Contents;
      HeadQuiet();
      outstanding := outstanding - 1;
      ok, k := true, 0;
      if outstanding == 0 {
        committing := true;
        ok, k := CommitAtomic(data);
        if ok {
          committing := false;
        }
      }
    }

    /** log_write().  False is one of its two panics. */
    method LogWrite(i: nat, b: nat) returns (ok: bool)
      requires Valid() && Pinned() && cache.Holds(i, b) && Home(l, cache.disk, b)
      modifies this`lh, cache`refs, cache.bufs
      ensures ok <==> !TooBig(|old(lh)|, l.size) && 1 <= outstanding
      ensures Valid() && Pinned() && lh == if ok then Absorbed(old(lh), b) else old(lh)
      ensures cache.refs == if ok && b !in old(lh) then old(cache.refs) + multiset{b} else old(cache.refs)
    {
      hide Bcache.Valid;
      if |lh| >= LOGSIZE || |lh| >= l.size - 1 {
        return false;
      }
      if outstanding < 1 {
        return false;
      }
      var k := 0;
      while k < |lh| && lh[k] != b
        invariant 0 <= k <= |lh|
        invariant b !in lh[..k]
      {
        k := k + 1;
      }
      if k < |lh| {
        assert lh[k := b] == lh;
        lh := lh[k := b];
      } else {
        assert b !in lh;
        cache.Bpin(i, b);
        lh := lh + [b];
      }
      return true;
    }
  }

  /** A disk that received some writes is the old disk with those writes applied. */
  lemma DiskAfter(d0: Disk, t: seq<Write>, ws: seq<Write>)
    requires OnDisk(d0, t) && OnDisk(d0, t + ws)
    ensures OnDisk(Apply(d0, t), ws) && Apply(d0, t + ws) == Apply(Apply(d0, t), ws)
  {
    assert forall i :: 0 <= i < |ws| ==> ws[i] == (t + ws)[|t| + i];
    ApplyAppend(d0, t, ws);
  }

  /** What one round of begin_op()'s loop lets through. */
  predicate Admits(n: nat, outstanding: nat, committing: bool) {
    !committing && n + (outstanding + 1) * MAXOPBLOCKS <= LOGSIZE
  }

  /** The transaction after log_write(b): a block that is already in it is absorbed. */
  function Absorbed(lh: seq<nat>, b: nat): (r: seq<nat>)
    ensures Elems(r) == Elems(lh) + {b}
    ensures Distinct(lh) ==> Distinct(r)
  {
    if b in lh then lh else lh + [b]
  }

  /** log_write()'s "too big a transaction". */
  predicate TooBig(n: nat, size: nat) {
    n >= LOGSIZE || n >= size - 1
  }

  lemma RecoverySplit(l: Layout, d: Disk, t: seq<Write>)
    requires GoodHead(l, d)
    ensures var lh := HeadBlocks(d[l.start]);
            && (forall i :: 0 <= i < |lh| ==> 0 <= lh[i])
            && RecoveryWrites(l, d) == InstallAndErase(l, d[l.start], lh, LogData(l, d, |lh|))
            && |RecoveryWrites(l, d)| == |lh| + 1
    ensures t + RecoveryWrites(l, d)[..0] == t
  {
    var lh := HeadBlocks(d[l.start]);
    forall i | 0 <= i < |lh| ensures 0 <= lh[i] {
      assert Home(l, d, lh[i]);
    }
  }

  /** The prefixes of a commit's writes, part by part. */
  lemma CommitPrefixes(l: Layout, h: Block, lh: seq<nat>, data: seq<Block>)
    requires 0 < |lh| == |data| <= LOGSIZE
    ensures var ws := CommitWrites(l, h, lh, data);
            && |ws| == 2 * |lh| + 2
            && (forall k :: 0 <= k <= |lh| ==> ws[..k] == LogWrites(l, data)[..k])
            && ws[..|lh| + 1] == LogWrites(l, data)[..|lh|] + [HeadWrite(l, h, lh)]
            && ws[|lh| + 1..] == InstallAndErase(l, SetHead(h, lh), lh, data)
  {
  }

  lemma InstallSplit(l: Layout, h: Block, lh: seq<nat>, data: seq<Block>, t: seq<Write>)
    requires |lh| == |data|
    ensures |InstallWrites(lh, data)| == |lh| && |InstallAndErase(l, h, lh, data)| == |lh| + 1
    ensures forall k :: 0 <= k <= |lh| ==> t + InstallWrites(lh, data)[..k] == t + InstallAndErase(l, h, lh, data)[..k]
    ensures t + InstallWrites(lh, data)[..|lh|] + [HeadWrite(l, h, [])]
              == t + InstallAndErase(l, h, lh, data)[..|lh| + 1]
  {
    var ws := InstallAndErase(l, h, lh, data);
    assert forall k :: 0 <= k <= |lh| ==> ws[..k] == InstallWrites(lh, data)[..k];
    assert ws[..|lh| + 1] == ws[..|lh|] + [HeadWrite(l, h, [])];
  }

  lemma CommitLength(l: Layout, h: Block, lh: seq<nat>, data: seq<Block>)
    requires |lh| == |data| <= LOGSIZE
    ensures |CommitWrites(l, h, lh, data)| == if lh == [] then 0 else 2 * |lh| + 2
  {
  }

  lemma CommitJoin(l: Layout, h: Block, lh: seq<nat>, data: seq<Block>, t: seq<Write>, j: nat)
    requires 0 < |lh| == |data| <= LOGSIZE && j <= |lh| + 1
    ensures |CommitWrites(l, h, lh, data)| == 2 * |lh| + 2
    ensures |InstallAndErase(l, SetHead(h, lh), lh, data)| == |lh| + 1
    ensures t + CommitWrites(l, h, lh, data)[..|lh| + 1] + InstallAndErase(l, SetHead(h, lh), lh, data)[..j]
            == t + CommitWrites(l, h, lh, data)[..|lh| + 1 + j]
  {
    CommitPrefixes(l, h, lh, data);
    var ws := CommitWrites(l, h, lh, data);
    assert ws[|lh| + 1..][..j] == ws[|lh| + 1..|lh| + 1 + j];
    assert ws[..|lh| + 1] + ws[|lh| + 1..|lh| + 1 + j] == ws[..|lh| + 1 + j];
  }

  lemma SameHomeRefl(l: Layout, v: Disk)
    ensures SameHome(l, v, v)
  {
  }

  lemma SameHomeChain(l: Layout, u: Disk, v: Disk, w: Disk)
    requires SameHome(l, u, v) && SameHome(l, v, w)
    ensures SameHome(l, u, w)
  {
    assert forall x :: Home(l, u, x) <==> Home(l, v, x);
  }

  lemma ContentsSame(l: Layout, v: Disk, w: Disk, lh: seq<nat>)
    requires SameHome(l, v, w) && AllBelow(lh, |v|) && forall i :: 0 <= i < |lh| ==> Home(l, v, lh[i])
    ensures AllBelow(lh, |w|) && Contents(w, lh) == Contents(v, lh)
  {
  }

  lemma LogWritten(l: Layout, lh: seq<nat>, data: seq<Block>, v: Disk, w: Disk, h: Block)
    requires GoodLayout(l, v) && |lh| == |data| < l.size && LogHas(l, data, v, w)
    ensures |v| == |w| && SameHome(l, v, w) && w[l.start] == v[l.start]
    ensures LogData(l, w[l.start := h], |lh|) == data && SameHome(l, v, w[l.start := h])
  {
    assert LogData(l, w[l.start := h], |lh|) == data;
  }
}
