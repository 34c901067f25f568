/**
 The virtio disk driver (kernel/virtio_disk.c) and the device it shares its rings with.  The
 driver's steps run under vdisk_lock; the device fetches and completes requests at any time.
 Ring positions are kept both as the 16-bit numbers in memory and as the counts they stand for.
 */
module Virtio {
  import opened Modular
  import opened Options
  import opened Sequences

  const NUM: nat := 8
  const WRAP: nat := 0x1_0000

  /** struct virtq_desc; the address stands for what it points to. */
  datatype Target = Nowhere | Header(op: nat) | Data(buf: nat) | Status(op: nat)
  datatype Desc = Desc(addr: Target, len: nat, write: bool, hasNext: bool, next: nat)

  const NODESC: Desc := Desc(Nowhere, 0, false, false, 0)

  /** The request header in ops[]: sector and direction. */
  datatype Op = Op(out: bool, sector: nat)

  datatype Info = Info(b: Option<nat>, status: nat)

  /** How far a request is: in the avail ring, with the device, in the used ring, or collected by the interrupt. */
  datatype Phase = Offered | Taken | Posted | Collected

  /** A request: its three descriptors, its buffer, its direction and its block. */
  datatype Req = Req(h: nat, m: nat, t: nat, buf: nat, out: bool, block: nat, phase: Phase)

  /**
   live are the requests whose descriptors are allocated, by their number; offered and posted are
   the queues that the two rings hold; busy are the buffers with b->disk set.
   */
  datatype State = State(
    free: seq<bool>, desc: seq<Desc>, ops: seq<Op>, info: seq<Info>,
    avail: seq<nat>, availIdx: nat, used: seq<nat>, deviceIdx: nat, usedIdx: nat,
    live: map<nat, Req>, count: nat, fetched: nat, offered: seq<nat>, collected: nat, posted: seq<nat>, busy: set<nat>)

  ghost predicate Shape(s: State) {
    |s.free| == NUM && |s.desc| == NUM && |s.ops| == NUM && |s.info| == NUM && |s.avail| == NUM && |s.used| == NUM
  }

  // ----- the invariant -----

  function Chain(r: Req): (c: set<nat>) {
    {r.h, r.m, r.t}
  }

  /** The descriptors, the header and the record of a request are as virtio_disk_rw() wrote them. */
  ghost predicate ReqOk(s: State, r: Req)
    requires Shape(s)
  {
    && r.h < NUM && r.m < NUM && r.t < NUM && r.h != r.m && r.h != r.t && r.m != r.t
    && !s.free[r.h] && !s.free[r.m] && !s.free[r.t]
    && s.desc[r.h] == Desc(Header(r.h), 16, false, true, r.m)
    && s.desc[r.m] == Desc(Data(r.buf), 1024, !r.out, true, r.t)
    && s.desc[r.t] == Desc(Status(r.h), 1, true, false, 0)
    && s.ops[r.h] == Op(r.out, r.block * 2)
    && s.info[r.h].b == Some(r.buf)
    && (r.phase.Posted? || r.phase.Collected? ==> s.info[r.h].status == 0)
    && (r.buf in s.busy <==> !r.phase.Collected?)
  }

  /** Different requests have different descriptors and buffers. */
  ghost predicate Apart(q: Req, r: Req) {
    q.buf != r.buf && Chain(q) !! Chain(r)
  }

  ghost predicate Requests(s: State)
    requires Shape(s)
  {
    forall n :: n in s.live ==> n < s.count && ReqOk(s, s.live[n])
  }

  ghost predicate AllApart(live: map<nat, Req>) {
    forall n, k :: n in live && k in live && n != k ==> Apart(live[n], live[k])
  }

  ghost predicate Owned(live: map<nat, Req>, i: nat) {
    exists n :: n in live && i in Chain(live[n])
  }

  ghost predicate Pending(live: map<nat, Req>, b: nat) {
    exists n :: n in live && live[n].buf == b
  }

  /** Descriptors that are not free, and buffers that are busy, belong to a request. */
  ghost predicate NothingLost(s: State)
    requires Shape(s)
  {
    && (forall i :: 0 <= i < NUM && !s.free[i] ==> Owned(s.live, i))
    && (forall b :: b in s.busy ==> Pending(s.live, b))
  }

  ghost predicate DescsOk(s: State)
    requires Shape(s)
  {
    Requests(s) && AllApart(s.live) && NothingLost(s)
  }

  predicate InPhase(live: map<nat, Req>, n: nat, p: Phase) {
    n in live && live[n].phase == p
  }

  /** A queue of the requests in phase p, in its ring from position first on. */
  ghost predicate QueueOk(live: map<nat, Req>, queue: seq<nat>, ring: seq<nat>, first: nat, p: Phase) {
    && |ring| == NUM && Distinct(queue)
    && (forall k :: 0 <= k < |queue| ==> InPhase(live, queue[k], p) && ring[(first + k) % NUM] == live[queue[k]].h)
    && (forall n :: InPhase(live, n, p) ==> n in queue)
  }

  ghost predicate RingsOk(s: State) {
    && QueueOk(s.live, s.offered, s.avail, s.fetched, Offered) && s.availIdx == (s.fetched + |s.offered|) % WRAP
    && QueueOk(s.live, s.posted, s.used, s.collected, Posted) && s.deviceIdx == (s.collected + |s.posted|) % WRAP
    && s.usedIdx == s.collected % WRAP
  }

  ghost predicate Inv(s: State) {
    Shape(s) && DescsOk(s) && RingsOk(s)
  }

  ghost predicate Init(s: State) {
    && Shape(s) && s.free == seq(NUM, _ => true) && s.live == map[] && s.offered == [] && s.posted == [] && s.busy == {}
    && s.availIdx == 0 && s.deviceIdx == 0 && s.usedIdx == 0 && s.fetched == 0 && s.collected == 0
  }

  // ----- at most NUM / 3 requests -----

  lemma ThreeSets(a: set<nat>, b: set<nat>, c: set<nat>, n: nat)
    requires |a| == 3 && |b| == 3 && |c| == 3 && a !! b && a !! c && b !! c
             && forall x :: x in a || x in b || x in c ==> x < n
    ensures n >= 9
  {
    assert |a + b| == 6 && |a + b + c| == 9;
    SubsetCard(a + b + c, Below(n));
  }

  lemma ChainOfThree(s: State, r: Req)
    requires Shape(s) && ReqOk(s, r)
    ensures |Chain(r)| == 3 && forall x :: x in Chain(r) ==> x < NUM
  {
    assert Chain(r) == {r.h} + {r.m} + {r.t};
  }

  lemma ThreeOf(keys: set<nat>) returns (a: nat, b: nat, c: nat)
    requires |keys| > 2
    ensures a in keys && b in keys && c in keys && a != b && a != c && b != c
  {
    a :| a in keys;
    assert |keys - {a}| == |keys| - 1;
    b :| b in keys - {a};
    assert |keys - {a} - {b}| == |keys| - 2;
    c :| c in keys - {a} - {b};
  }

  /** There is room for two requests at a time. */
  lemma AtMostTwo(s: State)
    requires Shape(s) && DescsOk(s)
    ensures |s.live| <= NUM / 3
  {
    hide Chain, ReqOk, NothingLost;
    if |s.live.Keys| > 2 {
      var a, b, c := ThreeOf(s.live.Keys);
      ChainOfThree(s, s.live[a]);
      ChainOfThree(s, s.live[b]);
      ChainOfThree(s, s.live[c]);
      assert Apart(s.live[a], s.live[b]) && Apart(s.live[a], s.live[c]) && Apart(s.live[b], s.live[c]);
      ThreeSets(Chain(s.live[a]), Chain(s.live[b]), Chain(s.live[c]), NUM);
    }
  }

  lemma QueueShort(s: State, queue: seq<nat>, ring: seq<nat>, first: nat, p: Phase)
    requires Shape(s) && DescsOk(s) && QueueOk(s.live, queue, ring, first, p)
    ensures |queue| <= NUM / 3
  {
    hide DescsOk;
    AtMostTwo(s);
    DistinctCard(queue);
    SubsetCard(Elems(queue), s.live.Keys);
  }

  // ----- steps -----

  /** virtio_disk_rw() with three free descriptors: the request is formatted and put into the avail ring. */
  function Submitted(s: State, h: nat, m: nat, t: nat, b: nat, out: bool, block: nat): (u: State)
    requires Shape(s) && h < NUM && m < NUM && t < NUM
  {
    s.(free := s.free[h := false][m := false][t := false],
       desc := s.desc[h := Desc(Header(h), 16, false, true, m)][m := Desc(Data(b), 1024, !out, true, t)]
                     [t := Desc(Status(h), 1, true, false, 0)],
       ops := s.ops[h := Op(out, block * 2)],
       info := s.info[h := Info(Some(b), 0xff)],
       avail := s.avail[s.availIdx % NUM := h], availIdx := (s.availIdx + 1) % WRAP,
       live := s.live[s.count := Req(h, m, t, b, out, block, Offered)], count := s.count + 1,
       offered := s.offered + [s.count], busy := s.busy + {b})
  }

  ghost predicate Submit(s: State, u: State, h: nat, m: nat, t: nat, b: nat, out: bool, block: nat) {
    && Shape(s) && h < NUM && m < NUM && t < NUM && h != m && h != t && m != t && s.free[h] && s.free[m] && s.free[t]
    && (forall n :: n in s.live ==> s.live[n].buf != b)      // the caller holds the buffer's sleep lock
    && u == Submitted(s, h, m, t, b, out, block)
  }

  /** The device takes the next request from the avail ring. */
  ghost predicate Fetch(s: State, u: State) {
    && s.offered != [] && s.offered[0] in s.live
    && u == s.(live := s.live[s.offered[0] := s.live[s.offered[0]].(phase := Taken)],
               offered := s.offered[1..], fetched := s.fetched + 1)
  }

  /** The device finishes a request that it has taken, in any order. */
  ghost predicate Complete(s: State, u: State, n: nat) {
    && Shape(s) && n in s.live && s.live[n].phase == Taken && s.live[n].h < NUM
    && u == s.(info := s.info[s.live[n].h := s.info[s.live[n].h].(status := 0)],
               used := s.used[s.deviceIdx % NUM := s.live[n].h], deviceIdx := (s.deviceIdx + 1) % WRAP,
               live := s.live[n := s.live[n].(phase := Posted)], posted := s.posted + [n])
  }

  /** One round of virtio_disk_intr(): the buffer named by info[id] is done. */
  ghost predicate Collect(s: State, u: State) {
    && Shape(s) && s.usedIdx != s.deviceIdx && s.posted != [] && s.posted[0] in s.live
    && s.used[s.usedIdx % NUM] < NUM && s.info[s.used[s.usedIdx % NUM]].b.Some?
    && u == s.(busy := s.busy - {s.info[s.used[s.usedIdx % NUM]].b.value}, usedIdx := (s.usedIdx + 1) % WRAP,
               live := s.live[s.posted[0] := s.live[s.posted[0]].(phase := Collected)],
               posted := s.posted[1..], collected := s.collected + 1)
  }

  /** virtio_disk_rw() goes on when b->disk is 0: it frees the chain. */
  function Finished(s: State, n: nat): (u: State)
    requires Shape(s) && n in s.live && s.live[n].h < NUM && s.live[n].m < NUM && s.live[n].t < NUM
  {
    var r := s.live[n];
    s.(info := s.info[r.h := s.info[r.h].(b := None)],
       desc := s.desc[r.h := NODESC][r.m := NODESC][r.t := NODESC],
       free := s.free[r.h := true][r.m := true][r.t := true], live := s.live - {n})
  }

  ghost predicate Finish(s: State, u: State, n: nat) {
    && Shape(s) && n in s.live && s.live[n].h < NUM && s.live[n].m < NUM && s.live[n].t < NUM
    && s.live[n].buf !in s.busy && u == Finished(s, n)
  }

  /** A request depends on its own descriptors only. */
  lemma ReqFrame(s: State, u: State, r: Req)
    requires Shape(s) && Shape(u) && ReqOk(s, r)
    requires forall i :: i in Chain(r) ==> u.free[i] == s.free[i] && u.desc[i] == s.desc[i]
    requires u.ops[r.h] == s.ops[r.h] && u.info[r.h] == s.info[r.h] && (r.buf in u.busy <==> r.buf in s.busy)
    ensures ReqOk(u, r)
  {
    assert r.h in Chain(r) && r.m in Chain(r) && r.t in Chain(r);
  }

  lemma NotFree(s: State, r: Req, i: nat)
    requires Shape(s) && ReqOk(s, r) && i < NUM && s.free[i]
    ensures i !in Chain(r)
  {
  }

  lemma SubmitRequest(s: State, u: State, h: nat, m: nat, t: nat, b: nat, out: bool, block: nat, r: Req)
    requires Submit(s, u, h, m, t, b, out, block) && ReqOk(s, r) && r.buf != b
    ensures Shape(u) && ReqOk(u, r) && Apart(Req(h, m, t, b, out, block, Offered), r)
  {
    NotFree(s, r, h);
    NotFree(s, r, m);
    NotFree(s, r, t);
    assert r.h in Chain(r);
    ReqFrame(s, u, r);
  }

  lemma SubmitNew(s: State, u: State, h: nat, m: nat, t: nat, b: nat, out: bool, block: nat)
    requires Submit(s, u, h, m, t, b, out, block)
    ensures Shape(u) && ReqOk(u, Req(h, m, t, b, out, block, Offered))
  {
  }

  lemma OwnedKept(live: map<nat, Req>, more: map<nat, Req>, i: nat)
    requires (forall n :: n in live ==> n in more && Chain(more[n]) == Chain(live[n])) && Owned(live, i)
    ensures Owned(more, i)
  {
  }

  lemma SubmitDescs(s: State, u: State, h: nat, m: nat, t: nat, b: nat, out: bool, block: nat)
    requires Shape(s) && DescsOk(s) && Submit(s, u, h, m, t, b, out, block)
    ensures Shape(u) && DescsOk(u)
  {
    hide ReqOk, Chain, Apart;
    var r := Req(h, m, t, b, out, block, Offered);
    SubmitNew(s, u, h, m, t, b, out, block);
    assert s.count !in s.live;
    forall n | n in s.live ensures ReqOk(u, u.live[n]) && Apart(r, u.live[n]) && Apart(u.live[n], r) {
      SubmitRequest(s, u, h, m, t, b, out, block, s.live[n]);
      ApartSym(r, s.live[n]);
    }
    forall i | 0 <= i < NUM && !u.free[i] ensures Owned(u.live, i) {
      ChainHas(r, i);
      if i == h || i == m || i == t {
        assert u.live[s.count] == r;
      } else {
        OwnedKept(s.live, u.live, i);
      }
    }
    forall c | c in u.busy ensures Pending(u.live, c) {
      if c == b {
        assert u.live[s.count].buf == c;
      } else {
        var n :| n in s.live && s.live[n].buf == c;
        assert u.live[n].buf == c;
      }
    }
  }

  lemma ApartSym(q: Req, r: Req)
    requires Apart(q, r)
    ensures Apart(r, q)
  {
  }

  lemma ChainHas(r: Req, i: nat)
    ensures i in Chain(r) <==> i == r.h || i == r.m || i == r.t
  {
  }

  // ----- the rings -----

  /** NUM divides 2^16, so the slot is the same for the count and for its low 16 bits. */
  lemma SlotOfIndex(x: nat)
    ensures x % WRAP % NUM == x % NUM && (x % WRAP + 1) % WRAP == (x + 1) % WRAP
  {
    SlotOfCount(x, WRAP, NUM, 8192);
    NextCount(x, 1, WRAP);
  }

  /** The other requests have the same phase p or not, and the same head. */
  ghost predicate SamePhase(live: map<nat, Req>, more: map<nat, Req>, p: Phase, except: nat) {
    forall n :: n != except ==>
        (InPhase(more, n, p) <==> InPhase(live, n, p)) && (InPhase(live, n, p) ==> more[n].h == live[n].h)
  }

  lemma QueuePush(live: map<nat, Req>, more: map<nat, Req>, queue: seq<nat>, ring: seq<nat>, first: nat, p: Phase,
                  n: nat, x: nat)
    requires QueueOk(live, queue, ring, first, p) && |queue| < NUM && !InPhase(live, n, p) && InPhase(more, n, p)
             && more[n].h == x
    requires SamePhase(live, more, p, n)
    ensures QueueOk(more, queue + [n], ring[(first + |queue|) % NUM := x], first, p)
  {
    var q, r := queue + [n], ring[(first + |queue|) % NUM := x];
    forall k | 0 <= k < |q| ensures InPhase(more, q[k], p) && r[(first + k) % NUM] == more[q[k]].h {
      if k < |queue| {
        CountsEqual(first + k, first + |queue|, NUM);
        assert InPhase(live, queue[k], p);
      }
    }
    forall k | InPhase(more, k, p) ensures k in q {
      if k == n {
        assert q[|queue|] == n;
      } else {
        assert k in queue;
      }
    }
  }

  lemma QueuePop(live: map<nat, Req>, more: map<nat, Req>, queue: seq<nat>, ring: seq<nat>, first: nat, p: Phase)
    requires QueueOk(live, queue, ring, first, p) && queue != [] && !InPhase(more, queue[0], p)
             && SamePhase(live, more, p, queue[0])
    ensures QueueOk(more, queue[1..], ring, first + 1, p)
  {
    var q := queue[1..];
    forall k | 0 <= k < |q| ensures InPhase(more, q[k], p) && ring[(first + 1 + k) % NUM] == more[q[k]].h {
      assert q[k] == queue[k + 1] && InPhase(live, queue[k + 1], p) && queue[k + 1] != queue[0];
      assert first + 1 + k == first + (k + 1);
    }
    forall n | InPhase(more, n, p) ensures n in q {
      assert n in queue;
    }
  }

  lemma QueueSame(live: map<nat, Req>, more: map<nat, Req>, queue: seq<nat>, ring: seq<nat>, first: nat, p: Phase,
                  n: nat)
    requires QueueOk(live, queue, ring, first, p) && !InPhase(live, n, p) && !InPhase(more, n, p)
             && SamePhase(live, more, p, n)
    ensures QueueOk(more, queue, ring, first, p)
  {
    assert forall k :: 0 <= k < |queue| ==> queue[k] != n;
  }

  /** No entry of the avail ring is overwritten before the device has taken it. */
  lemma SubmitInv(s: State, u: State, h: nat, m: nat, t: nat, b: nat, out: bool, block: nat)
    requires Inv(s) && Submit(s, u, h, m, t, b, out, block)
    ensures Inv(u)
  {
    hide DescsOk, QueueOk, ReqOk;
    SubmitDescs(s, u, h, m, t, b, out, block);
    assert s.count !in s.live by { CountIsNew(s); }
    QueueShort(s, s.offered, s.avail, s.fetched, Offered);
    SlotOfIndex(s.fetched + |s.offered|);
    QueuePush(s.live, u.live, s.offered, s.avail, s.fetched, Offered, s.count, h);
    QueueSame(s.live, u.live, s.posted, s.used, s.collected, Posted, s.count);
  }

  lemma CountIsNew(s: State)
    requires Shape(s) && DescsOk(s)
    ensures s.count !in s.live
  {
  }

  // ----- a request changes its phase -----

  /** The descriptors do not depend on the phase of a request, but for the status and b->disk. */
  lemma PhaseDescs(s: State, u: State, n: nat)
    requires Shape(s) && DescsOk(s) && n in s.live && Shape(u) && u.free == s.free && u.desc == s.desc && u.ops == s.ops
    requires n in u.live && u.live == s.live[n := s.live[n].(phase := u.live[n].phase)] && u.count == s.count
             && ReqOk(u, u.live[n])
    requires forall k :: 0 <= k < NUM && k != s.live[n].h ==> u.info[k] == s.info[k]
    requires forall b :: b != s.live[n].buf ==> (b in u.busy <==> b in s.busy)
    requires s.live[n].buf in u.busy ==> s.live[n].buf in s.busy
    ensures DescsOk(u)
  {
    hide ReqOk, Apart, Chain;
    forall k | k in u.live ensures k < u.count && ReqOk(u, u.live[k]) {
      if k != n {
        PhaseOther(s, u, s.live[k], s.live[n]);
      }
    }
    forall k, l | k in u.live && l in u.live && k != l ensures Apart(u.live[k], u.live[l]) {
      ApartPhase(s.live[k], s.live[l], u.live[k], u.live[l]);
    }
    forall i | 0 <= i < NUM && !u.free[i] ensures Owned(u.live, i) {
      SameChain(s.live[n], u.live[n]);
      OwnedKept(s.live, u.live, i);
    }
    forall b | b in u.busy ensures Pending(u.live, b) {
      assert Pending(s.live, b);
      var k :| k in s.live && s.live[k].buf == b;
      assert k in u.live && u.live[k].buf == b;
    }
  }

  lemma SameChain(q: Req, r: Req)
    requires r == q.(phase := r.phase)
    ensures Chain(r) == Chain(q)
  {
  }

  lemma ApartPhase(q: Req, r: Req, q1: Req, r1: Req)
    requires Apart(q, r) && q1 == q.(phase := q1.phase) && r1 == r.(phase := r1.phase)
    ensures Apart(q1, r1)
  {
  }

  lemma PhaseOther(s: State, u: State, q: Req, r: Req)
    requires Shape(s) && Shape(u) && u.free == s.free && u.desc == s.desc && u.ops == s.ops && ReqOk(s, q)
             && Apart(q, r)
    requires forall k :: 0 <= k < NUM && k != r.h ==> u.info[k] == s.info[k]
    requires forall b :: b != r.buf ==> (b in u.busy <==> b in s.busy)
    ensures ReqOk(u, q)
  {
    assert q.h in Chain(q) && r.h in Chain(r);
  }

  lemma FetchInv(s: State, u: State)
    requires Inv(s) && Fetch(s, u)
    ensures Inv(u)
  {
    hide DescsOk, QueueOk, ReqOk;
    var n := s.offered[0];
    assert s.live[n].phase == Offered by { FirstIs(s.live, s.offered, s.avail, s.fetched, Offered); }
    assert DescsOk(u) by { PhaseReq(s, u, n); PhaseDescs(s, u, n); }
    QueuePop(s.live, u.live, s.offered, s.avail, s.fetched, Offered);
    QueueSame(s.live, u.live, s.posted, s.used, s.collected, Posted, n);
  }

  lemma FirstIs(live: map<nat, Req>, queue: seq<nat>, ring: seq<nat>, first: nat, p: Phase)
    requires QueueOk(live, queue, ring, first, p) && queue != []
    ensures InPhase(live, queue[0], p) && ring[first % NUM] == live[queue[0]].h
  {
    assert InPhase(live, queue[0], p) && ring[(first + 0) % NUM] == live[queue[0]].h;
  }

  lemma PhaseReq(s: State, u: State, n: nat)
    requires Shape(s) && DescsOk(s) && n in s.live && s.live[n].phase == Offered
             && u == s.(live := u.live, offered := u.offered, fetched := u.fetched)
    requires n in u.live && u.live[n] == s.live[n].(phase := Taken)
    ensures ReqOk(u, u.live[n])
  {
    assert ReqOk(s, s.live[n]);
  }

  lemma CompleteInv(s: State, u: State, n: nat)
    requires Inv(s) && Complete(s, u, n)
    ensures Inv(u)
  {
    hide DescsOk, QueueOk;
    assert ReqOk(s, s.live[n]) by { ReqOf(s, n); }
    PhaseDescs(s, u, n);
    QueueShort(s, s.posted, s.used, s.collected, Posted);
    SlotOfIndex(s.collected + |s.posted|);
    QueuePush(s.live, u.live, s.posted, s.used, s.collected, Posted, n, s.live[n].h);
    QueueSame(s.live, u.live, s.offered, s.avail, s.fetched, Offered, n);
  }

  lemma ReqOf(s: State, n: nat)
    requires Shape(s) && DescsOk(s) && n in s.live
    ensures ReqOk(s, s.live[n])
  {
  }

  /** The used ring has entries to collect exactly if its two 16-bit indices differ. */
  lemma IndicesDiffer(s: State)
    requires Inv(s)
    ensures s.usedIdx != s.deviceIdx <==> s.posted != []
  {
    hide DescsOk, QueueOk;
    QueueShort(s, s.posted, s.used, s.collected, Posted);
    WrapDiffers(s.collected, |s.posted|);
  }

  lemma WrapDiffers(x: nat, d: nat)
    requires d < WRAP
    ensures x % WRAP == (x + d) % WRAP <==> d == 0
  {
    var q, y := x / WRAP, x % WRAP;
    assert x == q * WRAP + y;
    if y + d < WRAP {
      assert (x + d) % WRAP == y + d by { assert x + d == q * WRAP + (y + d); }
    } else {
      assert (x + d) % WRAP == y + d - WRAP by { assert x + d == (q + 1) * WRAP + (y + d - WRAP); }
    }
  }

  /**
   The entry that virtio_disk_intr() looks at names the request, and through info[] the buffer, that is first in the
   queue.
   */
  lemma CompletionNamesBuffer(s: State)
    requires Inv(s) && s.usedIdx != s.deviceIdx
    ensures s.posted != [] && InPhase(s.live, s.posted[0], Posted)
    ensures var r := s.live[s.posted[0]];
            s.used[s.usedIdx % NUM] == r.h && r.h < NUM && s.info[r.h] == Info(Some(r.buf), 0) && r.buf in s.busy
  {
    hide DescsOk, QueueOk;
    IndicesDiffer(s);
    SlotOfIndex(s.collected);
    FirstIs(s.live, s.posted, s.used, s.collected, Posted);
    ReqOf(s, s.posted[0]);
  }

  lemma CollectInv(s: State, u: State)
    requires Inv(s) && Collect(s, u)
    ensures Inv(u)
  {
    hide DescsOk, QueueOk;
    CompletionNamesBuffer(s);
    var n := s.posted[0];
    ReqOf(s, n);
    PhaseDescs(s, u, n);
    SlotOfIndex(s.collected);
    QueuePop(s.live, u.live, s.posted, s.used, s.collected, Posted);
    QueueSame(s.live, u.live, s.offered, s.avail, s.fetched, Offered, n);
  }

  lemma FinishDescs(s: State, u: State, n: nat)
    requires Shape(s) && DescsOk(s) && Finish(s, u, n)
    ensures Shape(u) && DescsOk(u)
  {
    hide Chain, ReqOk;
    var r := s.live[n];
    assert Shape(u);
    forall k | k in u.live ensures k < u.count && ReqOk(u, u.live[k]) {
      FinishOther(s, u, n, k);
    }
    forall i | 0 <= i < NUM && !u.free[i] ensures Owned(u.live, i) {
      ChainHas(r, i);
      var k :| k in s.live && i in Chain(s.live[k]);
      assert k in u.live && i in Chain(u.live[k]);
    }
    forall b | b in u.busy ensures Pending(u.live, b) {
      assert Pending(s.live, b);
      var k :| k in s.live && s.live[k].buf == b;
      assert k in u.live && u.live[k].buf == b;
    }
  }

  lemma FinishOther(s: State, u: State, n: nat, k: nat)
    requires Shape(s) && DescsOk(s) && Finish(s, u, n) && k in s.live && k != n && Shape(u)
    ensures ReqOk(u, s.live[k])
  {
    hide NothingLost;
    var q, r := s.live[k], s.live[n];
    assert ReqOk(s, q) && Apart(q, r);
    assert q.h in Chain(q) && q.m in Chain(q) && q.t in Chain(q) && r.h in Chain(r) && r.m in Chain(r)
           && r.t in Chain(r);
    ReqFrame(s, u, q);
  }

  lemma FinishInv(s: State, u: State, n: nat)
    requires Inv(s) && Finish(s, u, n)
    ensures Inv(u)
  {
    hide DescsOk, QueueOk;
    ReqOf(s, n);
    FinishDescs(s, u, n);
    QueueSame(s.live, u.live, s.offered, s.avail, s.fetched, Offered, n);
    QueueSame(s.live, u.live, s.posted, s.used, s.collected, Posted, n);
  }

  // ----- whole runs -----

  ghost predicate Next(s: State, u: State) {
    || (exists h, m, t, b, out, block :: Submit(s, u, h, m, t, b, out, block))
    || Fetch(s, u)
    || (exists n :: Complete(s, u, n))
    || Collect(s, u)
    || (exists n :: Finish(s, u, n))
  }

  lemma NextInv(s: State, u: State)
    requires Inv(s) && Next(s, u)
    ensures Inv(u)
  {
    hide Inv, Submit, Fetch, Complete, Collect, Finish;
    if h, m, t, b, out, block :| Submit(s, u, h, m, t, b, out, block) {
      SubmitInv(s, u, h, m, t, b, out, block);
    } else if Fetch(s, u) {
      FetchInv(s, u);
    } else if n :| Complete(s, u, n) {
      CompleteInv(s, u, n);
    } else if Collect(s, u) {
      CollectInv(s, u);
    } else {
      var n :| Finish(s, u, n);
      FinishInv(s, u, n);
    }
  }

  ghost predicate Run(run: seq<State>) {
    |run| > 0 && Init(run[0]) && forall k :: 0 <= k < |run| - 1 ==> Next(run[k], run[k + 1])
  }

  lemma {:induction false} RunInv(run: seq<State>, k: nat)
    requires Run(run) && k < |run|
    ensures Inv(run[k])
  {
    hide Next, Inv, Init;
    if k == 0 {
      InitInv(run[0]);
    } else {
      RunInv(run, k - 1);
      assert Next(run[k - 1], run[k - 1 + 1]);
      NextInv(run[k - 1], run[k]);
    }
  }

  lemma InitInv(s: State)
    requires Init(s)
    ensures Inv(s)
  {
  }

  /** Every descriptor is free or in the chain of exactly one request, and there are at most NUM / 3 requests. */
  lemma DescriptorsPartition(run: seq<State>, k: nat, i: nat)
    requires Run(run) && k < |run| && i < NUM
    ensures Shape(run[k]) && |run[k].live| <= NUM / 3
    ensures run[k].free[i] <==> !Owned(run[k].live, i)
    ensures forall n, l :: n in run[k].live && l in run[k].live && i in Chain(run[k].live[n]) ==>
              i in Chain(run[k].live[l]) ==> n == l
  {
    hide Run, RingsOk, DescsOk, Owned, Chain;
    RunInv(run, k);
    AtMostTwo(run[k]);
    OneOwner(run[k], i);
  }

  lemma OneOwner(s: State, i: nat)
    requires Shape(s) && DescsOk(s) && i < NUM
    ensures s.free[i] <==> !Owned(s.live, i)
    ensures forall n, l :: n in s.live && l in s.live && i in Chain(s.live[n]) && i in Chain(s.live[l]) ==> n == l
  {
    hide ReqOk;
    forall n | n in s.live && i in Chain(s.live[n]) ensures !s.free[i] {
      ReqOf(s, n);
    }
  }

  /** The next avail slot is none that the device has yet to read. */
  lemma AvailNotOverwritten(run: seq<State>, k: nat, j: nat)
    requires Run(run) && k < |run| && j < |run[k].offered|
    ensures run[k].availIdx % NUM != (run[k].fetched + j) % NUM
  {
    hide Run, DescsOk, QueueOk;
    RunInv(run, k);
    var s := run[k];
    QueueShort(s, s.offered, s.avail, s.fetched, Offered);
    SlotOfIndex(s.fetched + |s.offered|);
    CountsEqual(s.fetched + j, s.fetched + |s.offered|, NUM);
  }

  /** What the device reads from the avail ring leads it to the three parts of the request that was submitted. */
  lemma DeviceSeesRequest(run: seq<State>, k: nat)
    requires Run(run) && k < |run| && run[k].offered != []
    ensures Shape(run[k]) && InPhase(run[k].live, run[k].offered[0], Offered)
    ensures var s, r := run[k], run[k].live[run[k].offered[0]];
            var h := s.avail[s.fetched % NUM];
            && h < NUM && s.desc[h].hasNext && s.desc[h].next < NUM && s.desc[s.desc[h].next].hasNext
            && s.desc[s.desc[h].next].next < NUM && !s.desc[s.desc[s.desc[h].next].next].hasNext
            && s.desc[h].addr == Header(h) && s.ops[h] == Op(r.out, r.block * 2)
            && s.desc[s.desc[h].next].addr == Data(r.buf) && s.desc[s.desc[h].next].write == !r.out
            && s.desc[s.desc[s.desc[h].next].next].addr == Status(h)
  {
    hide Run, DescsOk, QueueOk;
    RunInv(run, k);
    var s := run[k];
    FirstIs(s.live, s.offered, s.avail, s.fetched, Offered);
    ReqOf(s, s.offered[0]);
  }

  // ----- the driver's own code -----

  ghost predicate ThreeFree(free: seq<bool>)
    requires |free| == NUM
  {
    exists a, b, c :: 0 <= a < b < c < NUM && free[a] && free[b] && free[c]
  }

  /** The chain of request r is allocated and linked. */
  ghost predicate ChainIn(free: seq<bool>, desc: seq<Desc>, r: Req)
    requires |free| == NUM && |desc| == NUM
  {
    && r.h < NUM && r.m < NUM && r.t < NUM && r.h != r.m && r.h != r.t && r.m != r.t
    && !free[r.h] && !free[r.m] && !free[r.t]
    && desc[r.h].hasNext && desc[r.h].next == r.m && desc[r.m].hasNext && desc[r.m].next == r.t && !desc[r.t].hasNext
  }

  class Disk {
    var free: seq<bool>
    var desc: seq<Desc>
    var ops: seq<Op>
    var info: seq<Info>
    var avail: seq<nat>
    var availIdx: nat
    var used: seq<nat>
    var deviceIdx: nat
    var usedIdx: nat
    var busy: set<nat>
    ghost var live: map<nat, Req>
    ghost var count: nat
    ghost var fetched: nat
    ghost var offered: seq<nat>
    ghost var collected: nat
    ghost var posted: seq<nat>

    ghost function Model(): (s: State)
      reads this
    {
      State(free, desc, ops, info, avail, availIdx, used, deviceIdx, usedIdx, live, count,
            fetched, offered, collected, posted, busy)
    }

    /** alloc_desc(): the first free descriptor, or -1. */
    method AllocDesc() returns (r: int)
      requires |free| == NUM
      modifies this`free
      ensures r == -1 ==> free == old(free) && forall j :: 0 <= j < NUM ==> !free[j]
      ensures r != -1 ==>
                && 0 <= r < NUM && old(free)[r] && free == old(free)[r := false]
                && forall j :: 0 <= j < r ==> !old(free)[j]
    {
      for i := 0 to NUM
        invariant free == old(free) && forall j :: 0 <= j < i ==> !free[j]
      {
        if free[i] {
          free := free[i := false];
          return i;
        }
      }
      return -1;
    }

    /** free_desc(), of a descriptor that is not free. */
    method FreeDesc(i: nat)
      requires |free| == NUM && |desc| == NUM && i < NUM && !free[i]
      modifies this`free, this`desc
      ensures free == old(free)[i := true] && desc == old(desc)[i := NODESC]
    {
      desc := desc[i := NODESC];
      free := free[i := true];
    }

    /** free_chain(), of the chain of request r. */
    method FreeChain(head: nat, ghost r: Req)
      requires |free| == NUM && |desc| == NUM && head == r.h && ChainIn(free, desc, r)
      modifies this`free, this`desc
      ensures free == old(free)[r.h := true][r.m := true][r.t := true]
      ensures desc == old(desc)[r.h := NODESC][r.m := NODESC][r.t := NODESC]
    {
      var i := head;
      ghost var done := 0;
      while true
        invariant 0 <= done <= 2 && i == (if done == 0 then r.h else if done == 1 then r.m else r.t) && |free| == NUM
                  && |desc| == NUM
        invariant free ==
                      if done == 0 then old(free) else if done == 1 then old(free)[r.h := true]
                      else old(free)[r.h := true][r.m := true]
        invariant desc ==
                      if done == 0 then old(desc) else if done == 1 then old(desc)[r.h := NODESC]
                      else old(desc)[r.h := NODESC][r.m := NODESC]
        decreases 2 - done
      {
        var flag, nxt := desc[i].hasNext, desc[i].next;
        FreeDesc(i);
        if flag {
          i := nxt;
        } else {
          return;
        }
        done := done + 1;
      }
    }

    /** alloc3_desc(): three free descriptors, or none taken. */
    method Alloc3() returns (ok: bool, h: nat, m: nat, t: nat)
      requires |free| == NUM && |desc| == NUM
      modifies this`free, this`desc
      ensures |free| == NUM && |desc| == NUM
      ensures ok ==>
                && h < NUM && m < NUM && t < NUM && h != m && h != t && m != t
                && old(free)[h] && old(free)[m] && old(free)[t]
                && free == old(free)[h := false][m := false][t := false] && desc == old(desc)
      ensures !ok ==> free == old(free) && forall j :: 0 <= j < NUM && !free[j] ==> desc[j] == old(desc)[j]
      ensures ok <==> ThreeFree(old(free))
    {
      h, m, t := 0, 0, 0;
      var a := AllocDesc();
      if a < 0 {
        return false, h, m, t;
      }
      var b := AllocDesc();
      if b < 0 {
        FreeDesc(a);
        assert free == old(free);
        return false, h, m, t;
      }
      var c := AllocDesc();
      if c < 0 {
        FreeDesc(a);
        FreeDesc(b);
        assert free == old(free);
        return false, h, m, t;
      }
      return true, a, b, c;
    }

    /** virtio_disk_rw() up to its wait: false if it has to sleep for descriptors. */
    method Rw(b: nat, out: bool, block: nat) returns (ok: bool, ghost h: nat, ghost m: nat, ghost t: nat)
      requires Inv(Model()) && forall n :: n in live ==> live[n].buf != b
      modifies this
      ensures Inv(Model())
      ensures ok ==> Submit(old(Model()), Model(), h, m, t, b, out, block)
      ensures !ok ==> live == old(live) && offered == old(offered) && posted == old(posted) && free == old(free)
    {
      hide DescsOk, RingsOk, ReqOk, ThreeFree;
      ghost var s := Model();
      var i0, i1, i2;
      ok, i0, i1, i2 := Alloc3();
      h, m, t := i0, i1, i2;
      if !ok {
        IdleDescs(s, Model());
        return;
      }
      ops := ops[i0 := Op(out, block * 2)];
      desc := desc[i0 := Desc(Header(i0), 16, false, true, i1)][i1 := Desc(Data(b), 1024, !out, true, i2)]
                  [i2 := Desc(Status(i0), 1, true, false, 0)];
      info := info[i0 := Info(Some(b), 0xff)];
      busy := busy + {b};
      avail := avail[availIdx % NUM := i0];
      availIdx := (availIdx + 1) % WRAP;
      live, offered, count := live[count := Req(i0, i1, i2, b, out, block, Offered)], offered + [count], count + 1;
      assert Model() == Submitted(s, i0, i1, i2, b, out, block);
      SubmitInv(s, Model(), i0, i1, i2, b, out, block);
    }

    /** virtio_disk_intr(): every posted request is collected, in order, and its buffer is done. */
    method Intr()
      requires Inv(Model())
      modifies this
      ensures Inv(Model()) && posted == [] && usedIdx == deviceIdx && live.Keys == old(live.Keys)
              && offered == old(offered)
      ensures forall n :: n in live ==>
                live[n] == if n in old(posted) then old(live)[n].(phase := Collected) else old(live)[n]
    {
      hide DescsOk, RingsOk, QueueOk;
      IndicesDiffer(Model());
      ghost var k := 0;
      while usedIdx != deviceIdx
        invariant Inv(Model()) && k <= |old(posted)| && posted == old(posted)[k..] && live.Keys == old(live.Keys)
                  && offered == old(offered)
        invariant forall n :: n in live ==>
                    live[n] == if n in old(posted)[..k] then old(live)[n].(phase := Collected) else old(live)[n]
        invariant usedIdx != deviceIdx <==> posted != []
        decreases |posted|
      {
        ghost var s := Model();
        CompletionNamesBuffer(s);
        var id := used[usedIdx % NUM];
        assert info[id].status == 0;
        var b := info[id].b.value;
        busy := busy - {b};
        usedIdx := (usedIdx + 1) % WRAP;
        live, posted, collected := live[posted[0] := live[posted[0]].(phase := Collected)], posted[1..], collected + 1;
        assert Collect(s, Model());
        CollectInv(s, Model());
        IndicesDiffer(Model());
        k := k + 1;
      }
      assert old(posted)[..k] == old(posted);
    }

    /** virtio_disk_rw() after its wait. */
    method Done(head: nat, ghost n: nat)
      requires Inv(Model()) && n in live && live[n].h == head && live[n].buf !in busy
      modifies this
      ensures Inv(Model()) && live == old(live) - {n} && offered == old(offered) && posted == old(posted)
    {
      hide DescsOk, RingsOk;
      ghost var s, r := Model(), live[n];
      ReqOf(s, n);
      info := info[head := info[head].(b := None)];
      FreeChain(head, r);
      live := live - {n};
      assert Model() == Finished(s, n);
      FinishInv(s, Model(), n);
    }
  }

  /** Descriptors that are free may hold anything. */
  lemma IdleDescs(s: State, u: State)
    requires Inv(s) && Shape(u) && u == s.(desc := u.desc) && forall j :: 0 <= j < NUM && !s.free[j] ==>
               u.desc[j] == s.desc[j]
    ensures Inv(u)
  {
    hide RingsOk, ReqOk, AllApart, Owned, Pending;
    forall n | n in s.live ensures ReqOk(u, s.live[n]) {
      IdleReq(s, u, s.live[n]);
    }
    SameRings(s, u);
  }

  lemma IdleReq(s: State, u: State, r: Req)
    requires Shape(s) && ReqOk(s, r) && Shape(u) && u == s.(desc := u.desc)
             && forall j :: 0 <= j < NUM && !s.free[j] ==> u.desc[j] == s.desc[j]
    ensures ReqOk(u, r)
  {
  }

  lemma SameRings(s: State, u: State)
    requires RingsOk(s) && u == s.(desc := u.desc)
    ensures RingsOk(u)
  {
  }
}
