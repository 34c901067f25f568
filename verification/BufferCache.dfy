/**
 The buffer cache of kernel/bio.c: an array of buffers threaded on a doubly linked list in
 most-recently-used order.  Pointers are indices into the array; the last entry is the
 list's dummy head.  The cache is proved to be invisible: through every operation the disk
 together with the cached copies behaves as one flat array of blocks.
 */
module BufferCache {
  import opened Options
  import opened Params
  import opened Sequences
  import opened RedoLog

  const ROOTDEV: nat := 1

  datatype Buf = Buf(valid: bool, dev: nat, blockno: nat, refcnt: nat, locked: bool,
                     data: Block, prev: nat, next: nat)

  const ZeroBuf: Buf := Buf(false, 0, 0, 0, false, seq(WORDS, _ => 0), 0, 0)

  // ----- the linked list -----

  /** The buffers r[0], r[1], ... are linked in a circle both ways. */
  ghost predicate Ring(bs: seq<Buf>, r: seq<nat>) {
    RingNodes(bs, r) && RingNext(bs, r) && RingPrev(bs, r)
  }

  ghost predicate RingNodes(bs: seq<Buf>, r: seq<nat>) {
    0 < |r| && Distinct(r) && forall k :: 0 <= k < |r| ==> r[k] < |bs|
  }

  ghost predicate RingNext(bs: seq<Buf>, r: seq<nat>)
    requires RingNodes(bs, r)
  {
    && (forall k :: 0 <= k < |r| - 1 ==> bs[r[k]].next == r[k + 1])
    && bs[r[|r| - 1]].next == r[0]
  }

  ghost predicate RingPrev(bs: seq<Buf>, r: seq<nat>)
    requires RingNodes(bs, r)
  {
    && (forall k :: 0 < k < |r| ==> bs[r[k]].prev == r[k - 1])
    && bs[r[0]].prev == r[|r| - 1]
  }

  function Payload(b: Buf): (r: Buf) {
    b.(prev := 0, next := 0)
  }

  /** The two sequences of buffers differ in links only. */
  ghost predicate SamePayload(bs: seq<Buf>, cs: seq<Buf>) {
    |bs| == |cs| && forall i :: 0 <= i < |bs| ==> Payload(bs[i]) == Payload(cs[i])
  }

  function Unlink(bs: seq<Buf>, b: nat): (r: seq<Buf>)
    requires b < |bs| && bs[b].prev < |bs| && bs[b].next < |bs|
  {
    var bs' := bs[bs[b].next := bs[bs[b].next].(prev := bs[b].prev)];
    bs'[bs'[b].prev := bs'[bs'[b].prev].(next := bs'[b].next)]
  }

  function LinkFront(bs: seq<Buf>, h: nat, b: nat): (r: seq<Buf>)
    requires b < |bs| && h < |bs| && bs[h].next < |bs|
  {
    var q := bs[h].next;
    var bs1 := bs[b := bs[b].(next := q, prev := h)];
    var bs2 := bs1[q := bs1[q].(prev := b)];
    bs2[h := bs2[h].(next := b)]
  }

  lemma UnlinkRing(bs: seq<Buf>, r: seq<nat>, k: nat)
    requires Ring(bs, r) && 0 < k < |r|
    ensures bs[r[k]].prev < |bs| && bs[r[k]].next < |bs|
    ensures Ring(Unlink(bs, r[k]), r[..k] + r[k + 1..])
    ensures SamePayload(bs, Unlink(bs, r[k]))
  {
    var r' := r[..k] + r[k + 1..];
    var p, q := r[k - 1], if k + 1 < |r| then r[k + 1] else r[0];
    assert bs[r[k]].next == q && bs[r[k]].prev == p;
    var bs' := Unlink(bs, r[k]);
    assert RingNodes(bs', r');
    UnlinkNext(bs, r, k, bs');
    UnlinkPrev(bs, r, k, bs');
  }

  lemma UnlinkNext(bs: seq<Buf>, r: seq<nat>, k: nat, bs': seq<Buf>)
    requires RingNodes(bs, r) && RingNext(bs, r) && 0 < k < |r| && |bs'| == |bs|
    requires forall x :: 0 <= x < |bs| ==> bs'[x].next == (if x == r[k - 1] then bs[r[k]].next else bs[x].next)
    requires RingNodes(bs', r[..k] + r[k + 1..])
    ensures RingNext(bs', r[..k] + r[k + 1..])
  {
    var r' := r[..k] + r[k + 1..];
    forall j | 0 <= j < |r'| - 1 ensures bs'[r'[j]].next == r'[j + 1] {
      assert r'[j] == r[if j < k then j else j + 1];
      assert r'[j + 1] == r[if j + 1 < k then j + 1 else j + 2];
    }
  }

  lemma UnlinkPrev(bs: seq<Buf>, r: seq<nat>, k: nat, bs': seq<Buf>)
    requires Ring(bs, r) && 0 < k < |r| && |bs'| == |bs|
    requires forall x :: 0 <= x < |bs| ==> bs'[x].prev == (if x == bs[r[k]].next then r[k - 1] else bs[x].prev)
    requires RingNodes(bs', r[..k] + r[k + 1..])
    ensures RingPrev(bs', r[..k] + r[k + 1..])
  {
    var r' := r[..k] + r[k + 1..];
    var q := if k + 1 < |r| then k + 1 else 0;
    assert bs[r[k]].next == r[q];
    forall j | 0 < j < |r'| ensures bs'[r'[j]].prev == r'[j - 1] {
      assert r'[j] == r[if j < k then j else j + 1];
      assert r'[j - 1] == r[if j - 1 < k then j - 1 else j];
    }
  }

  lemma LinkFrontRing(bs: seq<Buf>, r: seq<nat>, b: nat)
    requires Ring(bs, r) && b < |bs| && b !in r
    ensures bs[r[0]].next < |bs|
    ensures Ring(LinkFront(bs, r[0], b), [r[0], b] + r[1..])
    ensures SamePayload(bs, LinkFront(bs, r[0], b))
  {
    var r' := [r[0], b] + r[1..];
    var q := if |r| == 1 then r[0] else r[1];
    assert bs[r[0]].next == q;
    var bs' := LinkFront(bs, r[0], b);
    assert b != q && b != r[0];
    assert RingNodes(bs', r');
    LinkFrontNext(bs, r, b, bs');
    LinkFrontPrev(bs, r, b, bs');
  }

  lemma LinkFrontNext(bs: seq<Buf>, r: seq<nat>, b: nat, bs': seq<Buf>)
    requires Ring(bs, r) && b < |bs| == |bs'| && b !in r
    requires forall x :: 0 <= x < |bs| ==>
               bs'[x].next == (if x == b then bs[r[0]].next else if x == r[0] then b else bs[x].next)
    requires RingNodes(bs', [r[0], b] + r[1..])
    ensures RingNext(bs', [r[0], b] + r[1..])
  {
    var r' := [r[0], b] + r[1..];
    forall j | 0 <= j < |r'| - 1 ensures bs'[r'[j]].next == r'[j + 1] {
      assert r'[j] == if j == 0 then r[0] else if j == 1 then b else r[j - 1];
      assert r'[j + 1] == if j == 0 then b else r[j];
    }
  }

  lemma LinkFrontPrev(bs: seq<Buf>, r: seq<nat>, b: nat, bs': seq<Buf>)
    requires Ring(bs, r) && b < |bs| == |bs'| && b !in r
    requires forall x :: 0 <= x < |bs| ==>
               bs'[x].prev == (if x == b then r[0] else if x == bs[r[0]].next then b else bs[x].prev)
    requires RingNodes(bs', [r[0], b] + r[1..])
    ensures RingPrev(bs', [r[0], b] + r[1..])
  {
    var r' := [r[0], b] + r[1..];
    assert bs[r[0]].next == if |r| == 1 then r[0] else r[1];
    forall j | 0 < j < |r'| ensures bs'[r'[j]].prev == r'[j - 1] {
      assert r'[j] == if j == 1 then b else r[j - 1];
      assert r'[j - 1] == if j == 1 then r[0] else if j == 2 then b else r[j - 2];
    }
  }

  lemma SameLinks(bs: seq<Buf>, cs: seq<Buf>, r: seq<nat>)
    requires Ring(bs, r) && |bs| == |cs|
    requires forall i :: 0 <= i < |bs| ==> bs[i].prev == cs[i].prev && bs[i].next == cs[i].next
    ensures Ring(cs, r)
  {
  }

  // ----- the state of the cache -----

  /** bcache and the disk under it, with what the proofs keep track of: the list's order, the
      slot each block is cached in, the flat block array the callers see, the references and
      the lock of each block, the blocks whose buffer has been read in,
      and the blocks whose cached copy may be ahead of the disk. */
  datatype State = State(
    n: nat, bufs: seq<Buf>, disk: Disk,
    order: seq<nat>, slot: map<nat, nat>, view: Disk, refs: multiset<nat>, held: set<nat>,
    loaded: set<nat>, dirty: set<nat>)

  ghost predicate Linked(s: State) {
    && |s.bufs| == s.n + 1
    && |s.order| == s.n
    && (forall k :: 0 <= k < s.n ==> s.order[k] < s.n)
    && Ring(s.bufs, [s.n] + s.order)
  }

  /** No block has two buffers. */
  ghost predicate Unique(s: State)
    requires |s.bufs| == s.n + 1
  {
    && (forall i :: 0 <= i < s.n && s.bufs[i].dev != 0 ==>
          s.bufs[i].blockno in s.slot && s.slot[s.bufs[i].blockno] == i)
    && (forall b :: b in s.slot ==> b < |s.disk| && s.slot[b] < s.n
                                    && s.bufs[s.slot[b]].dev == ROOTDEV && s.bufs[s.slot[b]].blockno == b)
  }

  ghost predicate Sized(s: State) {
    |s.view| == |s.disk|
  }

  ghost predicate GoodBuf(s: State, b: Buf)
    requires Sized(s)
  {
    if b.dev == 0 then b.refcnt == 0 && !b.valid && !b.locked
    else
      && b.dev == ROOTDEV
      && b.blockno < |s.disk|
      && b.refcnt == s.refs[b.blockno]
      && b.locked == (b.blockno in s.held)
      && (b.locked ==> 0 < b.refcnt)
      && (b.valid <==> b.blockno in s.loaded)
      && (b.valid ==> b.data == s.view[b.blockno])
  }

  ghost predicate CleanBlocks(s: State)
    requires Sized(s)
  {
    && (forall b :: b !in s.slot ==> b !in s.refs && b !in s.held)
    && (forall b :: 0 <= b < |s.disk| && b !in s.dirty ==> s.view[b] == s.disk[b])
    && (forall b :: b in s.dirty ==> b < |s.disk| && b in s.refs && b in s.loaded)
    && (forall b :: b in s.loaded ==> b in s.slot)
  }

  /** The cache invariant: it holds whenever bcache.lock is free. */
  ghost predicate Inv(s: State) {
    && Linked(s)
    && Sized(s)
    && Unique(s)
    && (forall i :: 0 <= i < s.n ==> GoodBuf(s, s.bufs[i]))
    && CleanBlocks(s)
  }

  /** A buffer that is referenced keeps its block, and its contents stay read in. */
  ghost predicate Stable(slot: map<nat, nat>, refs: multiset<nat>, loaded: set<nat>,
                         slot': map<nat, nat>, loaded': set<nat>)
  {
    forall b :: b in slot && b in refs ==> b in slot' && slot'[b] == slot[b] && (b in loaded ==> b in loaded')
  }

  lemma StableRefl(slot: map<nat, nat>, refs: multiset<nat>, loaded: set<nat>)
    ensures Stable(slot, refs, loaded, slot, loaded)
  {
  }

  /** The k-th buffer of the list; the dummy head is before the first and after the last. */
  ghost function Node(s: State, k: int): (i: nat)
    requires |s.order| == s.n
  {
    if 0 <= k < s.n then s.order[k] else s.n
  }

  lemma FollowLinks(s: State, k: int)
    requires Linked(s) && -1 <= k < s.n
    ensures Node(s, k) <= s.n && s.bufs[Node(s, k)].next == Node(s, k + 1)
    ensures Node(s, k + 1) <= s.n && s.bufs[Node(s, k + 1)].prev == Node(s, k)
  {
    var ring := [s.n] + s.order;
    assert ring[k + 1] == Node(s, k);
    if k + 1 < s.n {
      assert ring[k + 2] == Node(s, k + 1);
    }
  }

  lemma InvFacts(s: State)
    requires Inv(s)
    ensures Linked(s) && |s.bufs| == s.n + 1 && |s.order| == s.n && Unique(s) && |s.view| == |s.disk|
    ensures forall k :: 0 <= k < s.n ==> s.order[k] < s.n
  {
  }

  lemma CachedHere(s: State, i: nat)
    requires Inv(s) && i < s.n && s.bufs[i].dev == ROOTDEV
    ensures s.bufs[i].blockno in s.slot && s.slot[s.bufs[i].blockno] == i
  {
    hide Linked, Ring;
  }

  /** The list holds every buffer exactly once. */
  lemma AllInOrder(s: State)
    requires Linked(s)
    ensures Distinct(s.order) && forall i: nat :: i < s.n <==> i in s.order
  {
    var ring := [s.n] + s.order;
    assert forall i, j :: 0 <= i < j < |s.order| ==> s.order[i] == ring[i + 1] && s.order[j] == ring[j + 1];
    DistinctCovers(s.order, s.n);
  }

  lemma NotCached(s: State, blockno: nat)
    requires Linked(s) && Unique(s)
    requires forall j :: 0 <= j < s.n ==>
               !(s.bufs[s.order[j]].dev == ROOTDEV && s.bufs[s.order[j]].blockno == blockno)
    ensures blockno !in s.slot
  {
    AllInOrder(s);
    forall b | b in s.slot ensures b != blockno {
      assert s.slot[b] in s.order;
    }
  }

  lemma SlotFacts(s: State, b: nat)
    requires Inv(s) && b in s.slot
    ensures s.slot[b] < s.n && |s.bufs| == s.n + 1 && b < |s.disk| == |s.view|
    ensures var buf := s.bufs[s.slot[b]];
            && buf.dev == ROOTDEV && buf.blockno == b
            && buf.refcnt == s.refs[b] && buf.locked == (b in s.held)
            && (buf.valid <==> b in s.loaded) && (buf.valid ==> buf.data == s.view[b])
  {
    assert GoodBuf(s, s.bufs[s.slot[b]]);
  }

  // ----- how many buffers are in use -----

  /** The blocks that somebody refers to. */
  ghost function InUse(refs: multiset<nat>): (u: set<nat>) {
    set b | b in refs
  }

  /** n buffers are enough for the blocks in use and these. */
  ghost predicate HasRoom(n: nat, refs: multiset<nat>, blocks: set<nat>) {
    |InUse(refs) + blocks| <= n
  }

  ghost function BusyBufs(s: State): (u: set<nat>)
    requires |s.bufs| == s.n + 1
  {
    set i: nat | i < s.n && 0 < s.bufs[i].refcnt
  }

  lemma BusyCount(s: State)
    requires Inv(s)
    ensures |s.bufs| == s.n + 1 && |InUse(s.refs)| == |BusyBufs(s)|
  {
    hide Linked;
    InvFacts(s);
    var where := map b | b in InUse(s.refs) && b in s.slot :: s.slot[b];
    ImageCard(where);
    forall i: nat ensures i in where.Values <==> i in BusyBufs(s) {
      if i in BusyBufs(s) {
        assert GoodBuf(s, s.bufs[i]);
        assert where[s.bufs[i].blockno] == i;
      }
      if i in where.Values {
        var b :| b in where && where[b] == i;
        assert GoodBuf(s, s.bufs[i]);
      }
    }
    assert where.Keys == InUse(s.refs) && where.Values == BusyBufs(s);
  }

  lemma AllBusy(s: State)
    requires |s.bufs| == s.n + 1
    ensures |BusyBufs(s)| <= s.n
    ensures |BusyBufs(s)| == s.n <==> forall i :: 0 <= i < s.n ==> 0 < s.bufs[i].refcnt
  {
    SubsetCard(BusyBufs(s), Below(s.n));
    if |BusyBufs(s)| == s.n {
      forall i: nat | i < s.n ensures 0 < s.bufs[i].refcnt {
        assert i in Below(s.n);
      }
    }
    if forall i :: 0 <= i < s.n ==> 0 < s.bufs[i].refcnt {
      assert BusyBufs(s) == Below(s.n);
    }
  }

  /** There is room for a block exactly if it is cached or some buffer has no references. */
  lemma RoomFor(s: State, b: nat)
    requires Inv(s)
    ensures |s.bufs| == s.n + 1
    ensures HasRoom(s.n, s.refs, {b}) <==> b in s.slot || !forall i :: 0 <= i < s.n ==> 0 < s.bufs[i].refcnt
  {
    hide Inv, InUse, BusyBufs;
    BusyCount(s);
    AllBusy(s);
    if b in InUse(s.refs) {
      InUseIsCached(s, b);
      assert InUse(s.refs) + {b} == InUse(s.refs);
    } else {
      assert |InUse(s.refs) + {b}| == |InUse(s.refs)| + 1;
      if b in s.slot {
        SlotFacts(s, b);
        NotInUse(s.refs, b);
        assert s.bufs[s.slot[b]].refcnt == 0;
      }
    }
  }

  lemma InUseIsCached(s: State, b: nat)
    requires Inv(s) && b in InUse(s.refs)
    ensures b in s.slot
  {
    hide Ring;
  }

  lemma NotInUse(refs: multiset<nat>, b: nat)
    requires b !in InUse(refs)
    ensures refs[b] == 0
  {
  }

  /** Room for two blocks is room for one and then for the other. */
  lemma RoomForTwo(n: nat, refs: multiset<nat>, a: nat, b: nat)
    ensures HasRoom(n, refs, {a, b}) <==> HasRoom(n, refs, {a}) && HasRoom(n, refs + multiset{a}, {b})
    ensures HasRoom(n, refs, {a, b}) <==> HasRoom(n, refs, {b, a})
  {
    assert InUse(refs + multiset{a}) + {b} == InUse(refs) + {a, b};
    assert {a, b} == {b, a};
    SubsetCard(InUse(refs) + {a}, InUse(refs) + {a, b});
  }

  lemma RoomForAnyTwo(n: nat, refs: multiset<nat>)
    requires |InUse(refs)| + 2 <= n
    ensures forall a, b :: HasRoom(n, refs, {a, b})
    ensures forall a :: HasRoom(n, refs, {a})
  {
    forall a, b: nat ensures HasRoom(n, refs, {a, b}) {
      assert |InUse(refs) + {a, b}| <= |InUse(refs)| + |{a, b}|;
      assert {a, b} == {a} + {b};
    }
    forall a: nat ensures HasRoom(n, refs, {a}) {
      assert HasRoom(n, refs, {a, a}) && {a, a} == {a};
    }
  }

  lemma RoomForFewer(n: nat, refs: multiset<nat>, fewer: multiset<nat>, blocks: set<nat>)
    requires HasRoom(n, refs, blocks) && fewer <= refs
    ensures HasRoom(n, fewer, blocks)
  {
    SubsetCard(InUse(fewer) + blocks, InUse(refs) + blocks);
  }

  /** One unreferenced buffer is enough for a block that is referenced and another one. */
  lemma RoomForOne(n: nat, refs: multiset<nat>, a: nat, b: nat)
    requires |InUse(refs)| < n && a in refs
    ensures HasRoom(n, refs, {a, b}) && HasRoom(n, refs, {b})
  {
    assert InUse(refs) + {a, b} == InUse(refs) + {b};
  }

  // ----- what each operation does to the state -----

  /** Replace buffer i, whose links and block stay as they are. */
  function Put(s: State, i: nat, b: Buf): (t: State)
    requires i < |s.bufs|
  {
    s.(bufs := s.bufs[i := b])
  }

  ghost predicate Caches(s: State, i: nat) {
    Inv(s) && |s.bufs| == s.n + 1 && i < s.n && s.bufs[i].dev == ROOTDEV
  }

  function WithRef(s: State, i: nat): (t: State)
    requires i < |s.bufs|
  {
    Put(s, i, s.bufs[i].(refcnt := s.bufs[i].refcnt + 1)).(refs := s.refs + multiset{s.bufs[i].blockno})
  }

  function WithoutRef(s: State, i: nat): (t: State)
    requires i < |s.bufs| && 0 < s.bufs[i].refcnt
  {
    Put(s, i, s.bufs[i].(refcnt := s.bufs[i].refcnt - 1)).(refs := s.refs - multiset{s.bufs[i].blockno})
  }

  function SetLock(s: State, i: nat, v: bool): (t: State)
    requires i < |s.bufs|
  {
    Put(s, i, s.bufs[i].(locked := v))
      .(held := if v then s.held + {s.bufs[i].blockno} else s.held - {s.bufs[i].blockno})
  }

  function Recycled(s: State, i: nat, blockno: nat): (t: State)
    requires i < |s.bufs|
  {
    Put(s, i, s.bufs[i].(dev := ROOTDEV, blockno := blockno, valid := false, refcnt := 1))
    .(refs := s.refs + multiset{blockno},
      loaded := if s.bufs[i].dev == 0 then s.loaded else s.loaded - {s.bufs[i].blockno},
      slot := (if s.bufs[i].dev == 0 then s.slot else s.slot - {s.bufs[i].blockno})[blockno := i])
  }

  function Filled(s: State, i: nat): (t: State)
    requires i < |s.bufs| && s.bufs[i].blockno < |s.disk|
  {
    Put(s, i, s.bufs[i].(data := s.disk[s.bufs[i].blockno], valid := true))
    .(loaded := s.loaded + {s.bufs[i].blockno})
  }

  function Edited(s: State, i: nat, data: Block): (t: State)
    requires i < |s.bufs| && s.bufs[i].blockno < |s.view|
  {
    Put(s, i, s.bufs[i].(data := data))
    .(view := s.view[s.bufs[i].blockno := data], dirty := s.dirty + {s.bufs[i].blockno})
  }

  function Flushed(s: State, i: nat): (t: State)
    requires i < |s.bufs| && s.bufs[i].blockno < |s.disk|
  {
    s.(disk := s.disk[s.bufs[i].blockno := s.bufs[i].data], dirty := s.dirty - {s.bufs[i].blockno})
  }

  /** Changing buffer i, but neither its links nor its block, keeps the list and the slots. */
  lemma PutKeeps(s: State, i: nat, t: State)
    requires Caches(s, i) && i < |t.bufs| && t.bufs == s.bufs[i := t.bufs[i]]
    requires t.n == s.n && t.order == s.order && t.slot == s.slot && |t.disk| == |s.disk|
    requires t.bufs[i].(valid := s.bufs[i].valid, refcnt := s.bufs[i].refcnt, locked := s.bufs[i].locked,
                        data := s.bufs[i].data) == s.bufs[i]
    ensures Linked(t) && Unique(t)
    ensures s.bufs[i].blockno in s.slot
    ensures forall j :: 0 <= j < s.n && j != i && s.bufs[j].dev != 0 ==> s.bufs[j].blockno != s.bufs[i].blockno
  {
    SameLinks(s.bufs, t.bufs, [s.n] + s.order);
  }

  lemma CountKept(r: multiset<nat>, b: nat)
    ensures (r + multiset{b})[b] == r[b] + 1 && forall c: nat :: c != b ==> (r + multiset{b})[c] == r[c]
    ensures b in r ==> (r - multiset{b})[b] == r[b] - 1
    ensures forall c: nat :: c != b ==> (r - multiset{b})[c] == r[c]
  {
  }

  lemma WithRefInv(s: State, i: nat)
    requires Caches(s, i)
    ensures Inv(WithRef(s, i))
  {
    hide Linked, Unique;
    var t := WithRef(s, i);
    PutKeeps(s, i, t);
    CountKept(s.refs, s.bufs[i].blockno);
    forall b | b in t.refs ensures b in s.slot {
      assert b == s.bufs[i].blockno || b in s.refs;
    }
    RefsClean(s, t);
    forall j | 0 <= j < s.n ensures GoodBuf(t, t.bufs[j]) {
      assert GoodBuf(s, s.bufs[j]);
    }
  }

  lemma RefsClean(s: State, t: State)
    requires Sized(s) && CleanBlocks(s) && t == s.(bufs := t.bufs, refs := t.refs)
    requires forall b :: b in t.refs ==> b in s.slot
    requires forall b :: b in s.dirty ==> b in t.refs
    ensures CleanBlocks(t)
  {
  }

  lemma WithoutRefInv(s: State, i: nat)
    requires Caches(s, i) && 0 < s.bufs[i].refcnt
    requires s.bufs[i].locked || s.bufs[i].blockno in s.dirty ==> 1 < s.bufs[i].refcnt
    ensures Inv(WithoutRef(s, i))
  {
    hide Linked, Unique;
    var t := WithoutRef(s, i);
    PutKeeps(s, i, t);
    CountKept(s.refs, s.bufs[i].blockno);
    assert GoodBuf(s, s.bufs[i]);
    forall b | b in s.dirty ensures b in t.refs {
      assert t.refs[b] == if b == s.bufs[i].blockno then s.refs[b] - 1 else s.refs[b];
    }
    RefsClean(s, t);
    forall j | 0 <= j < s.n ensures GoodBuf(t, t.bufs[j]) {
      assert GoodBuf(s, s.bufs[j]);
    }
  }

  lemma SetLockInv(s: State, i: nat, v: bool)
    requires Caches(s, i) && (v ==> 0 < s.bufs[i].refcnt)
    ensures Inv(SetLock(s, i, v))
  {
    hide Linked, Unique;
    var t := SetLock(s, i, v);
    PutKeeps(s, i, t);
    forall j | 0 <= j < s.n ensures GoodBuf(t, t.bufs[j]) {
      assert GoodBuf(s, s.bufs[j]);
    }
  }

  ghost predicate MayRecycle(s: State, i: nat, blockno: nat) {
    Inv(s) && i < s.n && s.bufs[i].refcnt == 0 && blockno < |s.disk| && blockno !in s.slot
  }

  lemma RecycledUnique(s: State, i: nat, blockno: nat)
    requires MayRecycle(s, i, blockno)
    ensures Unique(Recycled(s, i, blockno))
            && Stable(s.slot, s.refs, s.loaded, Recycled(s, i, blockno).slot, Recycled(s, i, blockno).loaded)
  {
    var t := Recycled(s, i, blockno);
    forall j | 0 <= j < s.n && t.bufs[j].dev != 0
      ensures t.bufs[j].blockno in t.slot && t.slot[t.bufs[j].blockno] == j {
      if j != i {
        assert t.bufs[j] == s.bufs[j] && s.slot[s.bufs[j].blockno] == j;
      }
    }
  }

  lemma RecycledBlocks(s: State, i: nat, blockno: nat)
    requires MayRecycle(s, i, blockno)
    ensures CleanBlocks(Recycled(s, i, blockno))
  {
    assert GoodBuf(s, s.bufs[i]);
  }

  lemma RecycledInv(s: State, i: nat, blockno: nat)
    requires MayRecycle(s, i, blockno)
    ensures Inv(Recycled(s, i, blockno))
            && Stable(s.slot, s.refs, s.loaded, Recycled(s, i, blockno).slot, Recycled(s, i, blockno).loaded)
  {
    var t := Recycled(s, i, blockno);
    assert Linked(t) by {
      SameLinks(s.bufs, t.bufs, [s.n] + s.order);
    }
    RecycledUnique(s, i, blockno);
    assert GoodBuf(s, s.bufs[i]);
    assert t.refs[blockno] == 1 && forall b: nat :: b != blockno ==> t.refs[b] == s.refs[b];
    RecycledBlocks(s, i, blockno);
    forall j | 0 <= j < s.n ensures GoodBuf(t, t.bufs[j]) {
      assert GoodBuf(s, s.bufs[j]);
      assert j != i ==> t.bufs[j] == s.bufs[j] && (s.bufs[j].dev != 0 ==> s.bufs[j].blockno != blockno);
    }
  }

  lemma FilledInv(s: State, i: nat)
    requires Caches(s, i) && !s.bufs[i].valid
    ensures Inv(Filled(s, i))
  {
    hide Linked, Unique;
    var t := Filled(s, i);
    assert GoodBuf(s, s.bufs[i]);
    PutKeeps(s, i, t);
    forall j | 0 <= j < s.n ensures GoodBuf(t, t.bufs[j]) {
      assert GoodBuf(s, s.bufs[j]);
    }
  }

  lemma EditedInv(s: State, i: nat, data: Block)
    requires Caches(s, i) && s.bufs[i].locked && s.bufs[i].valid
    ensures Inv(Edited(s, i, data))
  {
    PutKeeps(s, i, Edited(s, i, data));
    hide Linked, Unique;
  }

  lemma FlushedInv(s: State, i: nat)
    requires Caches(s, i) && s.bufs[i].valid
    ensures Inv(Flushed(s, i))
  {
    PutKeeps(s, i, Flushed(s, i));
    hide Linked, Unique;
  }

  /** i moves to the front, and the others keep their order. */
  ghost predicate ToFront(before: seq<nat>, after: seq<nat>, i: nat) {
    exists k :: 0 <= k < |before| && before[k] == i && after == [i] + (before[..k] + before[k + 1..])
  }

  /** brelse()'s relinking: buffer i moves to the front of the list. */
  function MovedToFront(s: State, i: nat, k: nat): (t: State)
    requires i < |s.bufs| && s.bufs[i].prev < |s.bufs| && s.bufs[i].next < |s.bufs|
    requires s.n < |s.bufs| && Unlink(s.bufs, i)[s.n].next < |s.bufs| && k < |s.order|
  {
    s.(bufs := LinkFront(Unlink(s.bufs, i), s.n, i), order := [i] + (s.order[..k] + s.order[k + 1..]))
  }

  lemma MovedToFrontInv(s: State, i: nat, k: nat)
    requires Inv(s) && k < s.n && s.order[k] == i
    ensures s.bufs[i].prev < |s.bufs| && s.bufs[i].next < |s.bufs|
    ensures Unlink(s.bufs, i)[s.n].next < |s.bufs|
    ensures Inv(MovedToFront(s, i, k))
  {
    MovedToFrontLinks(s, i, k);
    SamePayloadInv(s, MovedToFront(s, i, k));
  }

  lemma MovedToFrontLinks(s: State, i: nat, k: nat)
    requires Linked(s) && k < s.n && s.order[k] == i
    ensures s.bufs[i].prev < |s.bufs| && s.bufs[i].next < |s.bufs|
    ensures Unlink(s.bufs, i)[s.n].next < |s.bufs|
    ensures Linked(MovedToFront(s, i, k)) && SamePayload(s.bufs, MovedToFront(s, i, k).bufs)
  {
    var ring := [s.n] + s.order;
    var rest := s.order[..k] + s.order[k + 1..];
    DropShape(s.n, s.order, k);
    assert ring[k + 1] == i;
    UnlinkRing(s.bufs, ring, k + 1);
    var bs := Unlink(s.bufs, i);
    LinkFrontRing(bs, [s.n] + rest, i);
    PayloadTrans(s.bufs, bs, LinkFront(bs, s.n, i));
    OrderBound(s.order, s.n, k);
  }

  lemma OrderBound(order: seq<nat>, n: nat, k: nat)
    requires k < |order| && forall j :: 0 <= j < |order| ==> order[j] < n
    ensures var t := [order[k]] + (order[..k] + order[k + 1..]);
            |t| == |order| && forall j :: 0 <= j < |t| ==> t[j] < n
  {
  }

  lemma DropShape<T>(h: T, order: seq<T>, k: nat)
    requires k < |order| && Distinct([h] + order)
    ensures var rest := order[..k] + order[k + 1..];
            && ([h] + order)[..k + 1] + ([h] + order)[k + 2..] == [h] + rest
            && order[k] !in [h] + rest
            && [h, order[k]] + ([h] + rest)[1..] == [h] + ([order[k]] + rest)
  {
    var ring, rest := [h] + order, order[..k] + order[k + 1..];
    assert forall j :: 0 <= j < |order| ==> ring[j + 1] == order[j];
    forall j | 0 <= j < |rest| ensures rest[j] != order[k] {
      assert rest[j] == if j < k then ring[j + 1] else ring[j + 2];
      assert ring[k + 1] == order[k];
    }
    assert ring[0] != ring[k + 1];
  }

  lemma PayloadTrans(a: seq<Buf>, b: seq<Buf>, c: seq<Buf>)
    requires SamePayload(a, b) && SamePayload(b, c)
    ensures SamePayload(a, c)
  {
  }

  lemma SamePayloadInv(s: State, t: State)
    requires Inv(s) && Linked(t) && SamePayload(s.bufs, t.bufs)
    requires t == s.(bufs := t.bufs, order := t.order)
    ensures Inv(t)
  {
    assert forall i :: 0 <= i < s.n ==> Payload(t.bufs[i]) == Payload(s.bufs[i]);
    forall i | 0 <= i < s.n
      ensures t.bufs[i].(prev := s.bufs[i].prev, next := s.bufs[i].next) == s.bufs[i] {
    }
  }

  class Bcache {
    const nbuf: nat
    const bufs: array<Buf>
    var disk: Disk

    ghost const disk0: Disk      // the disk when the machine started
    ghost var trace: seq<Write>  // every block write it has received since
    ghost var order: seq<nat>
    ghost var slot: map<nat, nat>
    ghost var view: Disk
    ghost var refs: multiset<nat>
    ghost var held: set<nat>
    ghost var loaded: set<nat>
    ghost var dirty: set<nat>

    ghost function Model(): (s: State)
      reads this, bufs
    {
      State(nbuf, bufs[..], disk, order, slot, view, refs, held, loaded, dirty)
    }

    ghost predicate Valid()
      reads this, bufs
    {
      Inv(Model()) && OnDisk(disk0, trace) && disk == Apply(disk0, trace)
    }

    /** Is buffer i the one caching block b? */
    ghost predicate Holds(i: nat, b: nat)
      reads this
    {
      && b in slot && slot[b] == i && i < nbuf
      && b < |disk| == |view|
      && b in refs
    }

    lemma Facts()
      requires Valid()
      ensures |view| == |disk| == |disk0|
      ensures forall b :: b in dirty ==> b in refs
      ensures dirty == {} ==> view == disk
    {
    }

    lemma Clean(b: nat)
      requires Valid() && b < |disk| && b !in dirty
      ensures b < |view| && view[b] == disk[b]
    {
    }

    /** binit(): every buffer is put at the front of the list in turn. */
    constructor (n: nat, d: Disk)
      ensures Valid() && fresh(bufs) && nbuf == n
      ensures disk0 == disk == d && view == d && trace == [] && dirty == {}
      ensures refs == multiset{} && held == {}
    {
      nbuf := n;
      bufs := new Buf[n + 1](_ => ZeroBuf);
      disk0, disk, trace, order, slot, view, dirty := d, d, [], [], map[], d, {};
      refs, held, loaded := multiset{}, {}, {};
      new;
      LinkAll();
      assert forall i :: 0 <= i < nbuf ==> bufs[i].dev == Payload(bufs[i]).dev == 0;
      assert forall i :: 0 <= i < nbuf ==> bufs[i].refcnt == Payload(bufs[i]).refcnt == 0;
    }

    method LinkAll()
      requires bufs.Length == nbuf + 1 && forall i :: 0 <= i <= nbuf ==> bufs[i] == ZeroBuf
      modifies this`order, bufs
      ensures Linked(Model()) && forall i :: 0 <= i < nbuf ==> Payload(bufs[i]) == ZeroBuf
    {
      bufs[nbuf] := bufs[nbuf].(prev := nbuf, next := nbuf);
      order := [];
      var b := 0;
      while b < nbuf
        invariant 0 <= b <= nbuf && |order| == b
        invariant forall k :: 0 <= k < b ==> order[k] < b
        invariant Ring(bufs[..], [nbuf] + order)
        invariant forall i :: 0 <= i < nbuf ==> Payload(bufs[i]) == ZeroBuf
      {
        ghost var bs := bufs[..];
        LinkFrontRing(bs, [nbuf] + order, b);
        PutFront(b);
        assert [nbuf, b] + ([nbuf] + order)[1..] == [nbuf] + ([b] + order);
        order := [b] + order;
        b := b + 1;
      }
    }

    method PutFront(b: nat)
      requires bufs.Length == nbuf + 1 && b < nbuf && bufs[nbuf].next < bufs.Length
      modifies bufs
      ensures bufs[..] == LinkFront(old(bufs[..]), nbuf, b)
    {
      bufs[b] := bufs[b].(next := bufs[nbuf].next, prev := nbuf);
      bufs[bufs[nbuf].next] := bufs[bufs[nbuf].next].(prev := b);
      bufs[nbuf] := bufs[nbuf].(next := b);
    }

    /** bget()'s first loop: look for the block, from the most recently used buffer on. */
    method FindCached(blockno: nat) returns (b: nat)
      requires Valid()
      ensures b <= nbuf
      ensures b == nbuf <==> blockno !in slot
      ensures b < nbuf ==> bufs[b].dev == ROOTDEV && bufs[b].blockno == blockno && slot[blockno] == b
    {
      hide Inv, Linked;
      ghost var s := Model();
      InvFacts(s);
      FollowLinks(s, -1);
      b := bufs[nbuf].next;
      ghost var k := 0;
      while b != nbuf && !(bufs[b].dev == ROOTDEV && bufs[b].blockno == blockno)
        invariant 0 <= k <= nbuf && b == Node(s, k)
        invariant forall j :: 0 <= j < k ==> !(bufs[order[j]].dev == ROOTDEV && bufs[order[j]].blockno == blockno)
        decreases nbuf - k
      {
        FollowLinks(s, k);
        b := bufs[b].next;
        k := k + 1;
      }
      if b == nbuf {
        NotCached(s, blockno);
      } else {
        CachedHere(s, b);
      }
    }

    /** bget()'s second loop: the least recently used buffer without references. */
    method FindUnused() returns (b: nat, ghost k: nat)
      requires Valid()
      ensures b <= nbuf
      ensures b < nbuf ==> k < nbuf && order[k] == b && bufs[b].refcnt == 0
                           && forall j :: k < j < nbuf ==> 0 < bufs[order[j]].refcnt
      ensures b == nbuf ==> forall i :: 0 <= i < nbuf ==> 0 < bufs[i].refcnt
    {
      hide Inv, Ring;
      ghost var s := Model();
      InvFacts(s);
      FollowLinks(s, nbuf - 1);
      b := bufs[nbuf].prev;
      k := nbuf;
      while b != nbuf && bufs[b].refcnt != 0
        invariant 0 <= k <= nbuf && b == Node(s, k - 1)
        invariant forall j :: k <= j < nbuf ==> 0 < bufs[order[j]].refcnt
        decreases k
      {
        FollowLinks(s, k - 2);
        b := bufs[b].prev;
        k := k - 1;
      }
      if b == nbuf {
        AllInOrder(s);
        forall i | 0 <= i < nbuf ensures 0 < bufs[i].refcnt {
          assert i in order;
        }
      } else {
        k := k - 1;
      }
    }

    /** bget(), up to the release of bcache.lock: take a reference to the block's buffer,
        recycling the least recently used unreferenced one if the block is not cached.
        None is the panic: every buffer is referenced. */
    method Bget(blockno: nat) returns (r: Option<nat>)
      requires Valid() && blockno < |disk|
      modifies this`refs, this`slot, this`loaded, bufs
      ensures Valid() && Stable(old(slot), old(refs), old(loaded), slot, loaded)
      ensures r.Some? ==> refs == old(refs) + multiset{blockno} && Holds(r.value, blockno)
      ensures r.None? <==> blockno !in old(slot) && forall i :: 0 <= i < nbuf ==> 0 < old(bufs[i].refcnt)
      ensures r.Some? <==> HasRoom(nbuf, old(refs), {blockno})
      ensures r.None? ==> unchanged(this) && unchanged(bufs)
      ensures r.Some? && blockno !in old(slot) ==>
                exists k :: 0 <= k < nbuf && order[k] == r.value && old(bufs[order[k]].refcnt) == 0
                            && forall j :: k < j < nbuf ==> 0 < old(bufs[order[j]].refcnt)
    {
      hide Inv, HasRoom, Stable;
      ghost var s := Model();
      RoomFor(s, blockno);
      assert forall i :: 0 <= i < nbuf ==> s.bufs[i] == old(bufs[i]);
      var b := FindCached(blockno);
      if b != nbuf {
        TakeRef(b, blockno);
        r := Some(b);
      } else {
        ghost var k: nat;
        b, k := FindUnused();
        if b != nbuf {
          Recycle(b, blockno);
          r := Some(b);
        } else {
          StableRefl(slot, refs, loaded);
          r := None;
        }
      }
    }

    method TakeRef(i: nat, ghost b: nat)
      requires Valid() && b in slot && slot[b] == i
      modifies this`refs, bufs
      ensures Valid() && Holds(i, b) && Stable(old(slot), old(refs), old(loaded), slot, loaded)
      ensures refs == old(refs) + multiset{b}
    {
      hide Inv;
      ghost var s := Model();
      SlotFacts(s, b);
      bufs[i] := bufs[i].(refcnt := bufs[i].refcnt + 1);
      refs := refs + multiset{b};
      WithRefInv(s, i);
      assert Model() == WithRef(s, i);
    }

    method Recycle(i: nat, b: nat)
      requires Valid() && i < nbuf && bufs[i].refcnt == 0 && b < |disk| && b !in slot
      modifies this`refs, this`slot, this`loaded, bufs
      ensures Valid() && Holds(i, b) && Stable(old(slot), old(refs), old(loaded), slot, loaded)
      ensures refs == old(refs) + multiset{b}
    {
      hide Inv, Stable, Linked, Unique;
      ghost var s := Model();
      InvFacts(s);
      RecycledInv(s, i, b);
      slot := (if bufs[i].dev == 0 then slot else slot - {bufs[i].blockno})[b := i];
      loaded := if bufs[i].dev == 0 then loaded else loaded - {bufs[i].blockno};
      bufs[i] := bufs[i].(dev := ROOTDEV, blockno := b, valid := false, refcnt := 1);
      refs := refs + multiset{b};
      assert Model() == Recycled(s, i, b);
    }

    /** The successful end of acquiresleep() on a buffer that no one has locked. */
    method Lock(i: nat, ghost b: nat)
      requires Valid() && Holds(i, b) && b !in held
      modifies this`held, bufs
      ensures Valid() && held == old(held) + {b}
    {
      hide Inv;
      ghost var s := Model();
      SlotFacts(s, b);
      bufs[i] := bufs[i].(locked := true);
      held := held + {b};
      SetLockInv(s, i, true);
      assert Model() == SetLock(s, i, true);
    }

    /** bread() after bget(): read the block unless the buffer already has it. */
    method Fill(i: nat, ghost b: nat) returns (data: Block)
      requires Valid() && Holds(i, b) && b in held
      modifies this`loaded, bufs
      ensures Valid() && loaded == old(loaded) + {b} && data == view[b]
    {
      hide Inv;
      ghost var s := Model();
      SlotFacts(s, b);
      if !bufs[i].valid {
        bufs[i] := bufs[i].(data := disk[bufs[i].blockno], valid := true);
        loaded := loaded + {b};
        FilledInv(s, i);
        assert Model() == Filled(s, i);
        SlotFacts(Model(), b);
      }
      data := bufs[i].data;
    }

    /** bread(), when no other process has the block locked.  None is the panic of bget(). */
    method Bread(b: nat) returns (r: Option<nat>, data: Block)
      requires Valid() && b < |disk| && b !in held
      modifies this`refs, this`slot, this`held, this`loaded, bufs
      ensures Valid() && Stable(old(slot), old(refs), old(loaded), slot, loaded)
      ensures r.Some? ==> Holds(r.value, b) && b in loaded && data == view[b]
                          && refs == old(refs) + multiset{b} && held == old(held) + {b}
      ensures r.Some? <==> HasRoom(nbuf, old(refs), {b})
      ensures r.None? ==> unchanged(this) && unchanged(bufs)
    {
      hide Inv, HasRoom;
      r := Bget(b);
      data := ZeroBuf.data;
      if r.Some? {
        Lock(r.value, b);
        data := Fill(r.value, b);
      }
    }

    /** The holder of a buffer changes its data. */
    method Edit(i: nat, ghost b: nat, data: Block)
      requires Valid() && Holds(i, b) && b in held && b in loaded
      modifies this`view, this`dirty, bufs
      ensures Valid() && view == old(view)[b := data] && dirty == old(dirty) + {b}
    {
      hide Inv;
      ghost var s := Model();
      SlotFacts(s, b);
      bufs[i] := bufs[i].(data := data);
      view := view[b := data];
      dirty := dirty + {b};
      EditedInv(s, i, data);
      assert Model() == Edited(s, i, data);
    }

    /** bwrite(): the disk gets what the callers see. */
    method Bwrite(i: nat, ghost b: nat)
      requires Valid() && Holds(i, b) && b in held && b in loaded
      modifies this`disk, this`trace, this`dirty
      ensures Valid() && disk == old(disk)[b := view[b]] && dirty == old(dirty) - {b}
      ensures trace == old(trace) + [Write(b, view[b])]
    {
      hide Inv;
      ghost var s := Model();
      SlotFacts(s, b);
      disk := disk[bufs[i].blockno := bufs[i].data];
      trace := trace + [Write(b, view[b])];
      dirty := dirty - {b};
      FlushedInv(s, i);
      assert Model() == Flushed(s, i);
      ApplyAppend(disk0, old(trace), [Write(b, view[b])]);
    }

    /** brelse().  The caller has written back or pinned what it changed. */
    method Brelse(i: nat, ghost b: nat)
      requires Valid() && Holds(i, b) && b in held
      requires b in dirty ==> 1 < refs[b]
      modifies this`refs, this`held, this`order, bufs
      ensures Valid()
      ensures held == old(held) - {b} && refs == old(refs) - multiset{b}
      ensures refs[b] == 0 ==> ToFront(old(order), order, i)
      ensures refs[b] != 0 ==> order == old(order)
    {
      hide Inv;
      Unlock(i, b);
      Drop(i, b);
      ghost var r := refs;
      assert r == old(refs)[b := old(refs)[b] - 1];
      if bufs[i].refcnt == 0 {
        MoveToFront(i);
      }
    }

    /** The relinking in brelse(). */
    method MoveToFront(i: nat)
      requires Valid() && i < nbuf
      modifies this`order, bufs
      ensures Valid() && ToFront(old(order), order, i)
    {
      hide Unlink, LinkFront, Ring;
      ghost var s := Model();
      AllInOrder(s);
      assert i in order;
      ghost var k :| 0 <= k < nbuf && order[k] == i;
      MovedToFrontInv(s, i, k);
      hide Inv;
      TakeOut(i);
      PutFront(i);
      order := [i] + (order[..k] + order[k + 1..]);
      assert Model() == MovedToFront(s, i, k);
    }

    method TakeOut(i: nat)
      requires i < bufs.Length && bufs[i].prev < bufs.Length && bufs[i].next < bufs.Length
      modifies bufs
      ensures bufs[..] == Unlink(old(bufs[..]), i)
    {
      bufs[bufs[i].next] := bufs[bufs[i].next].(prev := bufs[i].prev);
      bufs[bufs[i].prev] := bufs[bufs[i].prev].(next := bufs[i].next);
    }

    /** releasesleep() on the buffer. */
    method Unlock(i: nat, ghost b: nat)
      requires Valid() && Holds(i, b) && b in held
      modifies this`held, bufs
      ensures Valid() && held == old(held) - {b}
    {
      hide Inv;
      ghost var s := Model();
      SlotFacts(s, b);
      bufs[i] := bufs[i].(locked := false);
      held := held - {b};
      SetLockInv(s, i, false);
      assert Model() == SetLock(s, i, false);
    }

    method Drop(i: nat, ghost b: nat)
      requires Valid() && Holds(i, b)
      requires b in held || b in dirty ==> 1 < refs[b]
      modifies this`refs, bufs
      ensures Valid() && refs == old(refs) - multiset{b}
      ensures i < bufs.Length && bufs[i].refcnt == refs[b]
    {
      hide Inv;
      ghost var s := Model();
      SlotFacts(s, b);
      bufs[i] := bufs[i].(refcnt := bufs[i].refcnt - 1);
      refs := refs - multiset{b};
      WithoutRefInv(s, i);
      assert Model() == WithoutRef(s, i);
    }

    method Bpin(i: nat, ghost b: nat)
      requires Valid() && Holds(i, b)
      modifies this`refs, bufs
      ensures Valid() && Holds(i, b) && refs == old(refs) + multiset{b}
    {
      TakeRef(i, b);
    }

    /** A pinned block is unpinned once the disk has its contents. */
    method Bunpin(i: nat, ghost b: nat)
      requires Valid() && Holds(i, b)
      requires b in held || b in dirty ==> 1 < refs[b]
      modifies this`refs, bufs
      ensures Valid() && refs == old(refs) - multiset{b}
    {
      Drop(i, b);
    }
  }
}
