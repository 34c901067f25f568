/**
 The log and the buffer cache under concurrency and crashes (kernel/log.c, kernel/bio.c).
 Any number of processes take, read, change, log and release buffers inside and outside FS
 system calls; the committing process writes one disk block at a time; buffers are recycled
 at any moment; and the machine may crash between any two steps, during a commit or a
 recovery included.  The whole is proved to refine a disk of home blocks that changes
 durably only by whole transactions, and only while no FS system call is executing.
 */
module LogProtocol {
  import opened Params
  import opened Sequences
  import opened RedoLog
  import opened FsLog

  type Pid = nat

  datatype Phase =
    | Running
    | Committing(k: nat, d0: Disk, data: seq<Block>)  // k writes done since the disk was d0
    | Recovering(done: nat, from: Disk)               // done writes of the recovery from that disk

  datatype State = State(
    disk: Disk,
    cached: map<nat, Block>,   // buffers that hold their block's contents
    refs: set<(Pid, nat)>,     // references of processes; a logged block has one more, its pin
    holder: map<nat, Pid>,     // locked buffers
    unlogged: set<nat>,        // buffers changed since they were locked, and not yet logged
    lh: seq<nat>,
    ops: set<Pid>,             // FS system calls that are executing
    phase: Phase)

  function Booted(d: Disk): (s: State) {
    State(d, map[], {}, map[], {}, [], {}, Recovering(0, d))
  }

  /** The blocks that are pinned in the cache. */
  function Pinned(s: State): (p: set<nat>) {
    if s.phase.Committing? && |s.lh| < s.phase.k <= 2 * |s.lh| + 1
    then Elems(s.lh[s.phase.k - |s.lh| - 1..])
    else Elems(s.lh)
  }

  /** What a process finds in a block: its buffer if it has one, the disk otherwise. */
  function View(s: State): (v: Disk)
    ensures |v| == |s.disk|
    ensures forall b :: 0 <= b < |v| ==> v[b] == if b in s.cached then s.cached[b] else s.disk[b]
  {
    seq(|s.disk|, b requires 0 <= b < |s.disk| => if b in s.cached then s.cached[b] else s.disk[b])
  }

  // ----- steps -----

  /** begin_op() gets past its tests. */
  ghost predicate Begin(s: State, t: State, p: Pid) {
    && s.phase.Running? && p !in s.ops
    && Admits(|s.lh|, |s.ops|, false)
    && t == s.(ops := s.ops + {p})
  }

  /** bget() takes a reference. */
  ghost predicate Get(l: Layout, s: State, t: State, p: Pid, b: nat) {
    && !s.phase.Recovering? && Home(l, s.disk, b) && (p, b) !in s.refs
    && t == s.(refs := s.refs + {(p, b)})
  }

  /** acquiresleep() on the buffer succeeds, and bread() reads the block in if need be. */
  ghost predicate Load(s: State, t: State, p: Pid, b: nat) {
    && (p, b) in s.refs && b !in s.holder && b < |s.disk|
    && t == s.(holder := s.holder[b := p],
               cached := if b in s.cached then s.cached else s.cached[b := s.disk[b]])
  }

  /** The holder, inside an FS system call, changes the buffer. */
  ghost predicate Edit(s: State, t: State, p: Pid, b: nat, data: Block) {
    && s.phase.Running? && p in s.ops
    && b in s.holder && s.holder[b] == p && b in s.cached
    && t == s.(cached := s.cached[b := data], unlogged := s.unlogged + {b})
  }

  /** log_write() */
  ghost predicate Logs(l: Layout, s: State, t: State, p: Pid, b: nat) {
    && s.phase.Running? && p in s.ops
    && b in s.holder && s.holder[b] == p
    && !TooBig(|s.lh|, l.size)
    && t == s.(lh := Absorbed(s.lh, b), unlogged := s.unlogged - {b})
  }

  /** brelse(), by a process that has logged what it changed. */
  ghost predicate Release(s: State, t: State, p: Pid, b: nat) {
    && b in s.holder && s.holder[b] == p && b !in s.unlogged
    && t == s.(holder := s.holder - {b}, refs := s.refs - {(p, b)})
  }

  /** bget() recycles an unreferenced buffer. */
  ghost predicate Evict(s: State, t: State, b: nat) {
    && b in s.cached && b !in Pinned(s) && (forall p :: (p, b) !in s.refs)
    && t == s.(cached := s.cached - {b})
  }

  /** end_op(): the last one out starts the commit. */
  ghost predicate End(s: State, t: State, p: Pid) {
    && s.phase.Running? && p in s.ops
    && (forall b :: b in s.unlogged && b in s.holder ==> s.holder[b] != p)
    && AllBelow(s.lh, |s.disk|)
    && t == s.(ops := s.ops - {p},
               phase := if s.ops == {p} && s.lh != [] then Committing(0, s.disk, Contents(View(s), s.lh)) else Running)
  }

  /** write_log()'s round k: the pinned buffer goes to the log. */
  ghost predicate LogWrite(l: Layout, s: State, t: State) {
    && s.phase.Committing? && s.phase.k < |s.lh|
    && s.lh[s.phase.k] in s.cached && l.start + 1 + s.phase.k < |s.disk|
    && t == s.(disk := s.disk[l.start + 1 + s.phase.k := s.cached[s.lh[s.phase.k]]],
               phase := Committing(s.phase.k + 1, s.phase.d0, s.phase.data))
  }

  /** The header write that commits. */
  ghost predicate CommitPoint(l: Layout, s: State, t: State) {
    && s.phase.Committing? && s.phase.k == |s.lh| <= LOGSIZE && l.start < |s.disk|
    && t == s.(disk := s.disk[l.start := SetHead(s.disk[l.start], s.lh)],
               phase := Committing(s.phase.k + 1, s.phase.d0, s.phase.data))
  }

  /** install_trans()'s next round: log block to home block, on the disk and in its buffer. */
  ghost predicate Install(l: Layout, s: State, t: State) {
    && s.phase.Committing? && |s.lh| < s.phase.k <= 2 * |s.lh|
    && var i := s.phase.k - |s.lh| - 1;
       && s.lh[i] < |s.disk| && l.start + 1 + i < |s.disk|
       && t == s.(disk := s.disk[s.lh[i] := s.disk[l.start + 1 + i]],
                  cached := s.cached[s.lh[i] := s.disk[l.start + 1 + i]],
                  phase := Committing(s.phase.k + 1, s.phase.d0, s.phase.data))
  }

  /** The header write that erases the log, and the end of end_op(). */
  ghost predicate Erase(l: Layout, s: State, t: State) {
    && s.phase.Committing? && s.phase.k == 2 * |s.lh| + 1 && l.start < |s.disk|
    && t == s.(disk := s.disk[l.start := SetHead(s.disk[l.start], [])], lh := [], phase := Running)
  }

  ghost predicate Crash(s: State, t: State) {
    t == Booted(s.disk)
  }

  /** The next write of recover_from_log(); after the last one the system is up, with
      whatever the recovery has left in the cache. */
  ghost predicate Recover(l: Layout, s: State, t: State) {
    && s.phase.Recovering? && GoodHead(l, s.phase.from)
    && var ws, k := RecoveryWrites(l, s.phase.from), s.phase.done;
       && k < |ws| && ws[k].blockno < |s.disk|
       && var d := s.disk[ws[k].blockno := ws[k].data];
          if k + 1 < |ws| then t == s.(disk := d, phase := Recovering(k + 1, s.phase.from))
          else t == s.(disk := d, cached := t.cached, phase := Running)
               && forall b :: b in t.cached ==> Home(l, d, b) && t.cached[b] == d[b]
  }

  ghost predicate Next(l: Layout, s: State, t: State) {
    || (exists p :: Begin(s, t, p))
    || (exists p, b :: Get(l, s, t, p, b))
    || (exists p, b :: Load(s, t, p, b))
    || (exists p, b, data :: Edit(s, t, p, b, data))
    || (exists p, b :: Logs(l, s, t, p, b))
    || (exists p, b :: Release(s, t, p, b))
    || (exists b :: Evict(s, t, b))
    || (exists p :: End(s, t, p))
    || LogWrite(l, s, t) || CommitPoint(l, s, t) || Install(l, s, t) || Erase(l, s, t)
    || Crash(s, t)
    || Recover(l, s, t)
  }

  // ----- the specification: a disk with transactions -----

  datatype Abs =
    | Down(durable: map<int, Block>)
    | Up(durable: map<int, Block>, current: map<int, Block>, active: set<Pid>)

  /** A running system call changes a block. */
  ghost predicate AbsEdit(a: Abs, c: Abs, b: int, data: Block) {
    a.Up? && b in a.current && a.active != {} && c == a.(current := a.current[b := data])
  }

  /** Besides starting and ending system calls and editing: the machine goes down, comes up
      with the durable contents, or makes the current contents durable, all at once and
      only while no system call is executing. */
  ghost predicate AbsNext(a: Abs, c: Abs) {
    || a == c
    || c == Down(a.durable)
    || (a.Down? && c == Up(a.durable, a.durable, {}))
    || (a.Up? && c.Up? && c.durable == a.durable && c.current == a.current)
    || (exists b, data :: AbsEdit(a, c, b, data))
    || (a.Up? && a.active == {} && c == a.(durable := a.current))
  }

  function HomeMap(l: Layout, d: Disk): (m: map<int, Block>) {
    map b | 0 <= b < |d| && !InLog(l, b) :: d[b]
  }

  lemma HomeMapSame(l: Layout, d: Disk, e: Disk)
    requires SameHome(l, d, e)
    ensures HomeMap(l, d) == HomeMap(l, e)
  {
    assert forall b :: Home(l, d, b) <==> b in HomeMap(l, d);
  }

  ghost function Abstract(l: Layout, s: State): (a: Abs)
    requires GoodHead(l, s.disk)
  {
    if s.phase.Recovering? then Down(HomeMap(l, Recovered(l, s.disk)))
    else Up(HomeMap(l, Recovered(l, s.disk)), HomeMap(l, View(s)), s.ops)
  }

  // ----- the invariant -----

  ghost predicate Base(l: Layout, s: State) {
    Shape(l, s) && Locks(l, s) && forall b :: b in Pinned(s) ==> b in s.cached
  }

  ghost predicate Shape(l: Layout, s: State) {
    && GoodLayout(l, s.disk)
    && GoodBlocks(l, s.disk, s.lh)
    && AllBelow(s.lh, |s.disk|)
    && (forall b :: b in s.cached ==> Home(l, s.disk, b))
  }

  ghost predicate Locks(l: Layout, s: State) {
    && (forall r :: r in s.refs ==> Home(l, s.disk, r.1))
    && (forall b :: b in s.holder ==> (s.holder[b], b) in s.refs && b in s.cached)
    && (forall b :: b in s.unlogged ==> b in s.holder && s.holder[b] in s.ops)
  }

  ghost predicate RunningInv(l: Layout, s: State)
    requires GoodLayout(l, s.disk)
  {
    && s.disk[l.start][0] == 0
    && (forall b :: b in s.cached && b < |s.disk| && b !in s.lh && b !in s.unlogged ==> s.cached[b] == s.disk[b])
    && (s.ops == {} ==> s.lh == [])
  }

  ghost predicate CommittingInv(l: Layout, s: State)
    requires s.phase.Committing?
  {
    var k, d0, data := s.phase.k, s.phase.d0, s.phase.data;
    && s.ops == {} && s.unlogged == {} && s.lh != []
    && GoodCommit(l, d0, s.lh, data)
    && k < |CommitWrites(l, d0[l.start], s.lh, data)|
    && s.disk == CommitPrefix(l, d0, s.lh, data, k)
    && |d0| == |s.disk|
    && (forall i :: 0 <= i < |s.lh| && s.lh[i] in s.cached ==> s.cached[s.lh[i]] == data[i])
    && (forall b :: b in s.cached && b < |d0| && b !in s.lh ==> s.cached[b] == d0[b])
  }

  ghost predicate RecoveringInv(l: Layout, s: State)
    requires s.phase.Recovering?
  {
    && GoodHead(l, s.phase.from)
    && s.phase.done < |RecoveryWrites(l, s.phase.from)|
    && s.disk == RecoveryPrefix(l, s.phase.from, s.phase.done)
    && s == Booted(s.disk).(phase := s.phase)
  }

  ghost predicate PhaseInv(l: Layout, s: State) {
    && GoodLayout(l, s.disk)
    && GoodHead(l, s.disk)
    && match s.phase
       case Running => RunningInv(l, s)
       case Committing(_, _, _) => CommittingInv(l, s)
       case Recovering(_, _) => RecoveringInv(l, s)
  }

  ghost predicate Inv(l: Layout, s: State) {
    Base(l, s) && PhaseInv(l, s)
  }

  // ----- the disk under a commit -----

  lemma CommitPrefixNext(l: Layout, d: Disk, blocks: seq<int>, data: seq<Block>, k: nat)
    requires GoodCommit(l, d, blocks, data) && k < |CommitWrites(l, d[l.start], blocks, data)|
    ensures var w := CommitWrites(l, d[l.start], blocks, data)[k];
            && w.blockno < |d| == |CommitPrefix(l, d, blocks, data, k)|
            && CommitPrefix(l, d, blocks, data, k + 1) == CommitPrefix(l, d, blocks, data, k)[w.blockno := w.data]
  {
    CommitOnDisk(l, d, blocks, data);
    var ws := CommitWrites(l, d[l.start], blocks, data);
    assert ws[..k + 1][..k] == ws[..k];
  }

  /** The home blocks in the middle of a commit: only installed blocks have changed. */
  lemma CommitHome(l: Layout, d0: Disk, lh: seq<nat>, data: seq<Block>, k: nat)
    requires GoodCommit(l, d0, lh, data) && lh != [] && k < |CommitWrites(l, d0[l.start], lh, data)|
    ensures var d := CommitPrefix(l, d0, lh, data, k);
            && |d| == |d0|
            && (forall b :: Home(l, d0, b) && b !in lh ==> d[b] == d0[b])
            && (forall i :: 0 <= i < k - |lh| - 1 && i < |lh| && lh[i] < |d| ==> d[lh[i]] == data[i])
  {
    CommitShape(l, d0[l.start], lh, data);
    if k <= |lh| {
      BeforeCommitPoint(l, d0, lh, data, k);
    } else {
      AfterCommitPoint(l, d0, lh, data, k);
    }
  }

  /** While a commit is under way the processes see the whole transaction. */
  lemma CommittingView(l: Layout, s: State)
    requires Base(l, s) && s.phase.Committing? && CommittingInv(l, s)
    ensures Updated(l, s.phase.d0, s.lh, s.phase.data, View(s))
  {
    hide CommitWrites, CommitPrefix;
    var k, d0, data := s.phase.k, s.phase.d0, s.phase.data;
    CommitHome(l, d0, s.lh, data, k);
    forall i | 0 <= i < |s.lh| ensures View(s)[s.lh[i]] == data[i] {
      if k - |s.lh| - 1 <= i {
        PinnedAt(s, i);
      }
    }
  }

  lemma PinnedAt(s: State, i: nat)
    requires s.phase.Committing? && i < |s.lh| && s.phase.k <= i + |s.lh| + 1
    ensures s.lh[i] in Pinned(s)
  {
    var j := s.phase.k - |s.lh| - 1;
    if 0 <= j {
      assert s.lh[i] == s.lh[j..][i - j];
    }
  }

  lemma UpdatedHomeMap(l: Layout, d: Disk, blocks: seq<int>, data: seq<Block>, e: Disk, f: Disk)
    requires |blocks| == |data| && Updated(l, d, blocks, data, e) && Updated(l, d, blocks, data, f)
    ensures HomeMap(l, e) == HomeMap(l, f)
  {
    UpdatedUnique(l, d, d, blocks, data, e, f);
    HomeMapSame(l, f, e);
  }

  // ----- steps of the processes -----

  /** References and locks matter to the cache, not to the contents. */
  lemma LocksOnly(l: Layout, s: State, t: State)
    requires PhaseInv(l, s) && !s.phase.Recovering? && t == s.(refs := t.refs, holder := t.holder)
    ensures PhaseInv(l, t) && Abstract(l, s) == Abstract(l, t) && Pinned(s) == Pinned(t)
  {
    assert View(s) == View(t);
  }

  lemma BeginStep(l: Layout, s: State, t: State, p: Pid)
    requires Inv(l, s) && Begin(s, t, p)
    ensures Inv(l, t) && AbsNext(Abstract(l, s), Abstract(l, t))
  {
    assert View(s) == View(t);
  }

  lemma GetStep(l: Layout, s: State, t: State, p: Pid, b: nat)
    requires Inv(l, s) && Get(l, s, t, p, b)
    ensures Inv(l, t) && Abstract(l, s) == Abstract(l, t)
  {
    LocksOnly(l, s, t);
    hide PhaseInv, Pinned, Abstract;
  }

  lemma ReleaseStep(l: Layout, s: State, t: State, p: Pid, b: nat)
    requires Inv(l, s) && Release(s, t, p, b)
    ensures Inv(l, t) && Abstract(l, s) == Abstract(l, t)
  {
    assert !s.phase.Recovering?;
    LocksOnly(l, s, t);
    ReleaseLocks(l, s, t, p, b);
    hide PhaseInv, Pinned, Abstract, Locks;
  }

  lemma ReleaseLocks(l: Layout, s: State, t: State, p: Pid, b: nat)
    requires Locks(l, s) && Release(s, t, p, b)
    ensures Locks(l, t)
  {
  }

  /** bread() hands out the current contents, and changes nothing. */
  lemma LoadStep(l: Layout, s: State, t: State, p: Pid, b: nat)
    requires Inv(l, s) && Load(s, t, p, b)
    ensures Inv(l, t) && Abstract(l, s) == Abstract(l, t)
    ensures !s.phase.Recovering? && b in t.cached && b in Abstract(l, s).current
            && t.cached[b] == Abstract(l, s).current[b]
  {
    LoadBase(l, s, t, p, b);
    LoadPhase(l, s, t, b);
    hide PhaseInv, Abstract, Base;
  }

  lemma LoadBase(l: Layout, s: State, t: State, p: Pid, b: nat)
    requires Inv(l, s) && Load(s, t, p, b)
    ensures Home(l, s.disk, b) && Base(l, t) && !s.phase.Recovering?
  {
    assert (p, b) in s.refs;
    LoadLocks(l, s, t, p, b);
    hide PhaseInv, Locks;
    assert Pinned(s) == Pinned(t);
  }

  lemma LoadLocks(l: Layout, s: State, t: State, p: Pid, b: nat)
    requires Locks(l, s) && Load(s, t, p, b)
    ensures Home(l, s.disk, b) && Locks(l, t)
  {
    assert (p, b) in s.refs;
  }

  lemma LoadPhase(l: Layout, s: State, t: State, b: nat)
    requires Inv(l, s) && !s.phase.Recovering? && b < |s.disk| && Home(l, s.disk, b)
    requires t == s.(holder := t.holder, cached := if b in s.cached then s.cached else s.cached[b := s.disk[b]])
    ensures PhaseInv(l, t) && Abstract(l, s) == Abstract(l, t)
    ensures b in Abstract(l, s).current && t.cached[b] == Abstract(l, s).current[b]
  {
    hide CommitWrites, CommitPrefix, Recovered;
    assert View(s) == View(t);
    if s.phase.Committing? {
      CommittingView(l, s);
      assert View(s)[b] == t.cached[b];
    }
  }

  lemma EditStep(l: Layout, s: State, t: State, p: Pid, b: nat, data: Block)
    requires Inv(l, s) && Edit(s, t, p, b, data)
    ensures Inv(l, t) && AbsEdit(Abstract(l, s), Abstract(l, t), b, data)
  {
    EditBase(l, s, t, p, b, data);
    EditView(l, s, t, b, data);
    hide HomeMap, View, Recovered, Base;
  }

  lemma EditBase(l: Layout, s: State, t: State, p: Pid, b: nat, data: Block)
    requires Base(l, s) && Edit(s, t, p, b, data)
    ensures Base(l, t) && Home(l, s.disk, b)
  {
    assert Pinned(s) == Pinned(t);
  }

  lemma EditView(l: Layout, s: State, t: State, b: nat, data: Block)
    requires Home(l, s.disk, b) && t.disk == s.disk && t.cached == s.cached[b := data]
    ensures b in HomeMap(l, View(s)) && HomeMap(l, View(t)) == HomeMap(l, View(s))[b := data]
  {
    assert View(t) == View(s)[b := data];
  }

  lemma LogsStep(l: Layout, s: State, t: State, p: Pid, b: nat)
    requires Inv(l, s) && Logs(l, s, t, p, b)
    ensures Inv(l, t) && Abstract(l, s) == Abstract(l, t)
  {
    LogsBase(l, s, t, p, b);
    assert View(s) == View(t);
    hide Base, HomeMap, View, Recovered;
    assert forall x :: x in t.lh <==> x in Elems(t.lh);
    assert forall x :: x in s.lh <==> x in Elems(s.lh);
  }

  lemma LogsBase(l: Layout, s: State, t: State, p: Pid, b: nat)
    requires Base(l, s) && Logs(l, s, t, p, b)
    ensures Base(l, t)
  {
    assert Home(l, s.disk, b);
    assert forall x :: x in t.lh <==> x in Elems(t.lh);
    assert forall x :: x in s.lh <==> x in Elems(s.lh);
  }

  lemma EvictStep(l: Layout, s: State, t: State, b: nat)
    requires Inv(l, s) && Evict(s, t, b)
    ensures Inv(l, t) && Abstract(l, s) == Abstract(l, t)
  {
    EvictBase(l, s, t, b);
    EvictClean(l, s, b);
    assert View(s) == View(t);
    hide Base, View, Recovered, HomeMap, CommitWrites, CommitPrefix;
  }

  lemma EvictBase(l: Layout, s: State, t: State, b: nat)
    requires Base(l, s) && Evict(s, t, b)
    ensures Base(l, t) && b !in s.holder
  {
    assert b !in s.holder;
    assert Pinned(s) == Pinned(t);
  }

  /** A buffer that may be recycled holds what the disk holds. */
  lemma EvictClean(l: Layout, s: State, b: nat)
    requires Inv(l, s) && b in s.cached && b !in Pinned(s) && b !in s.holder
    ensures b < |s.disk| && s.cached[b] == s.disk[b]
  {
    assert Home(l, s.disk, b);
    if s.phase.Running? {
      assert b !in s.lh by {
        assert forall x :: x in s.lh <==> x in Elems(s.lh);
      }
    } else if s.phase.Committing? {
      hide CommitWrites, CommitPrefix;
      CommitHome(l, s.phase.d0, s.lh, s.phase.data, s.phase.k);
      if b in s.lh {
        var i :| 0 <= i < |s.lh| && s.lh[i] == b;
        if s.phase.k <= i + |s.lh| + 1 {
          PinnedAt(s, i);
        }
      }
    }
  }

  lemma EndStep(l: Layout, s: State, t: State, p: Pid)
    requires Inv(l, s) && End(s, t, p)
    ensures Inv(l, t) && AbsNext(Abstract(l, s), Abstract(l, t))
  {
    EndBase(l, s, t, p);
    assert View(s) == View(t);
    hide Recovered, HomeMap, View, Base;
    if t.phase.Committing? {
      CommitStarts(l, s, t);
    }
  }

  lemma EndBase(l: Layout, s: State, t: State, p: Pid)
    requires Base(l, s) && End(s, t, p)
    ensures Base(l, t) && (t.phase.Committing? ==> s.unlogged == {})
  {
    assert Pinned(s) == Pinned(t);
    forall b | b in s.unlogged ensures b in t.holder && t.holder[b] in t.ops {
      assert s.holder[b] != p;
    }
    if t.phase.Committing? {
      assert forall b :: b !in s.unlogged;
    }
  }

  lemma CommitStarts(l: Layout, s: State, t: State)
    requires Base(l, s) && RunningInv(l, s) && s.unlogged == {} && s.lh != []
    requires t == s.(ops := {}, phase := Committing(0, s.disk, Contents(View(s), s.lh)))
    requires s.phase.Running?
    ensures CommittingInv(l, t)
  {
    assert forall i :: 0 <= i < |s.lh| ==> s.lh[i] in Elems(s.lh);
  }

  // ----- steps of the commit -----

  /** Is the disk of t the one write k of the commit leads to? */
  ghost predicate Advanced(l: Layout, s: State, t: State)
    requires s.phase.Committing? && CommittingInv(l, s)
  {
    |t.disk| == |s.disk| && t.disk == CommitPrefix(l, s.phase.d0, s.lh, s.phase.data, s.phase.k + 1)
  }

  lemma AdvancedBy(l: Layout, s: State, t: State, w: Write)
    requires s.phase.Committing? && CommittingInv(l, s)
    requires w == CommitWrites(l, s.phase.d0[l.start], s.lh, s.phase.data)[s.phase.k]
    requires w.blockno < |s.disk| && t.disk == s.disk[w.blockno := w.data]
    ensures Advanced(l, s, t)
  {
    hide CommitWrites, CommitPrefix;
    CommitPrefixNext(l, s.phase.d0, s.lh, s.phase.data, s.phase.k);
  }

  lemma LogWriteAdvances(l: Layout, s: State, t: State)
    requires Inv(l, s) && LogWrite(l, s, t)
    ensures Advanced(l, s, t)
  {
    hide CommitWrites, CommitPrefix, GoodHead, Base, SetHead;
    var k, data := s.phase.k, s.phase.data;
    CommitShape(l, s.phase.d0[l.start], s.lh, data);
    AdvancedBy(l, s, t, Write(l.start + 1 + k, data[k]));
  }

  lemma CommitPointAdvances(l: Layout, s: State, t: State)
    requires Inv(l, s) && CommitPoint(l, s, t)
    ensures Advanced(l, s, t)
  {
    hide CommitWrites, CommitPrefix, GoodHead, Base, SetHead;
    var d0, data := s.phase.d0, s.phase.data;
    CommitShape(l, d0[l.start], s.lh, data);
    BeforeCommitPoint(l, d0, s.lh, data, |s.lh|);
    AdvancedBy(l, s, t, HeadWrite(l, d0[l.start], s.lh));
  }

  lemma LogDataAt(l: Layout, d: Disk, n: nat, i: nat)
    requires GoodLayout(l, d) && i < n < l.size
    ensures LogData(l, d, n)[i] == d[l.start + 1 + i]
  {
  }

  lemma InstallAdvances(l: Layout, s: State, t: State)
    requires Inv(l, s) && Install(l, s, t)
    ensures Advanced(l, s, t)
    ensures s.disk[l.start + 1 + (s.phase.k - |s.lh| - 1)] == s.phase.data[s.phase.k - |s.lh| - 1]
  {
    hide CommitWrites, CommitPrefix, LogData, GoodHead, Base, SetHead;
    var k, data, i := s.phase.k, s.phase.data, s.phase.k - |s.lh| - 1;
    CommitShape(l, s.phase.d0[l.start], s.lh, data);
    AfterCommitPoint(l, s.phase.d0, s.lh, data, k);
    LogDataAt(l, s.disk, |s.lh|, i);
    AdvancedBy(l, s, t, Write(s.lh[i], data[i]));
  }

  lemma EraseAdvances(l: Layout, s: State, t: State)
    requires Inv(l, s) && Erase(l, s, t)
    ensures Advanced(l, s, t)
  {
    hide CommitWrites, CommitPrefix, LogData, GoodHead, Base;
    var d0, data := s.phase.d0, s.phase.data;
    CommitShape(l, d0[l.start], s.lh, data);
    AfterCommitPoint(l, d0, s.lh, data, s.phase.k);
    AdvancedBy(l, s, t, HeadWrite(l, SetHead(d0[l.start], s.lh), []));
  }

  /** What is durable before and after write k of a commit. */
  lemma CommitDurable(l: Layout, s: State, t: State)
    requires Inv(l, s) && s.phase.Committing? && CommittingInv(l, s) && Advanced(l, s, t)
    ensures GoodHead(l, t.disk)
    ensures s.phase.k != |s.lh| ==> HomeMap(l, Recovered(l, t.disk)) == HomeMap(l, Recovered(l, s.disk))
    ensures s.phase.k == |s.lh| ==> HomeMap(l, Recovered(l, t.disk)) == HomeMap(l, View(s))
  {
    hide Base, HomeMap, View, Recovered, CommitWrites, GoodHead, Updated, SameHome;
    var k, d0, data := s.phase.k, s.phase.d0, s.phase.data;
    CrashInCommit(l, d0, s.lh, data, k);
    CrashInCommit(l, d0, s.lh, data, k + 1);
    var r, r' := Recovered(l, s.disk), Recovered(l, t.disk);
    if k < |s.lh| {
      HomeMapSame(l, d0, r);
      HomeMapSame(l, d0, r');
    } else if k == |s.lh| {
      CommittingView(l, s);
      UpdatedHomeMap(l, d0, s.lh, data, r', View(s));
    } else {
      UpdatedHomeMap(l, d0, s.lh, data, r', r);
    }
  }

  /** What a write of the commit that is not the last has to keep. */
  lemma CommitStep(l: Layout, s: State, t: State)
    requires Inv(l, s) && s.phase.Committing? && CommittingInv(l, s) && Advanced(l, s, t)
    requires Base(l, t) && t.phase.Committing? && CommittingInv(l, t) && t.ops == s.ops
    requires t.phase.d0 == s.phase.d0 && t.phase.data == s.phase.data && t.lh == s.lh
    ensures Inv(l, t) && AbsNext(Abstract(l, s), Abstract(l, t))
  {
    hide Base, HomeMap, View, Recovered, CommitPrefix, CommitWrites, GoodHead, Updated;
    CommitDurable(l, s, t);
    CommittingView(l, s);
    CommittingView(l, t);
    UpdatedHomeMap(l, s.phase.d0, s.lh, s.phase.data, View(t), View(s));
  }

  /** The cached contents agree with the transaction. */
  ghost predicate CachedAgrees(s: State, d0: Disk, data: seq<Block>) {
    && |data| == |s.lh|
    && (forall i :: 0 <= i < |s.lh| && s.lh[i] in s.cached ==> s.cached[s.lh[i]] == data[i])
    && (forall b :: b in s.cached && b < |d0| && b !in s.lh ==> s.cached[b] == d0[b])
  }

  lemma CommittingNext(l: Layout, s: State, t: State)
    requires Inv(l, s) && s.phase.Committing? && CommittingInv(l, s) && Advanced(l, s, t)
    requires t.phase == Committing(s.phase.k + 1, s.phase.d0, s.phase.data) && s.phase.k <= 2 * |s.lh|
    requires t.lh == s.lh && t.ops == s.ops && t.unlogged == s.unlogged
    requires CachedAgrees(t, s.phase.d0, s.phase.data)
    ensures CommittingInv(l, t)
  {
    hide CommitWrites, CommitPrefix, GoodHead, Base, SetHead;
    CommitShape(l, s.phase.d0[l.start], s.lh, s.phase.data);
  }

  lemma LogWriteStep(l: Layout, s: State, t: State)
    requires Inv(l, s) && LogWrite(l, s, t)
    ensures Inv(l, t) && AbsNext(Abstract(l, s), Abstract(l, t))
  {
    LogWriteAdvances(l, s, t);
    CommittingNext(l, s, t);
    SamePins(l, s, t);
    CommitStep(l, s, t);
  }

  lemma CommitPointStep(l: Layout, s: State, t: State)
    requires Inv(l, s) && CommitPoint(l, s, t)
    ensures Inv(l, t) && AbsNext(Abstract(l, s), Abstract(l, t))
  {
    CommitPointAdvances(l, s, t);
    CommittingNext(l, s, t);
    SamePins(l, s, t);
    CommitStep(l, s, t);
  }

  lemma SamePins(l: Layout, s: State, t: State)
    requires Base(l, s) && s.phase.Committing? && s.phase.k <= |s.lh|
    requires t == s.(disk := t.disk, phase := t.phase) && |t.disk| == |s.disk|
    requires t.phase.Committing? && t.phase.k == s.phase.k + 1
    ensures Base(l, t)
  {
    forall b | b in Pinned(t) ensures b in s.cached {
      assert s.lh[0..] == s.lh;
      assert b in Pinned(s);
    }
    hide Pinned;
  }

  lemma InstallStep(l: Layout, s: State, t: State)
    requires Inv(l, s) && Install(l, s, t)
    ensures Inv(l, t) && AbsNext(Abstract(l, s), Abstract(l, t))
  {
    InstallAdvances(l, s, t);
    InstallCached(l, s, t);
    CommittingNext(l, s, t);
    InstallBase(l, s, t);
    CommitStep(l, s, t);
  }

  lemma InstallCached(l: Layout, s: State, t: State)
    requires Inv(l, s) && Install(l, s, t)
    requires s.disk[l.start + 1 + (s.phase.k - |s.lh| - 1)] == s.phase.data[s.phase.k - |s.lh| - 1]
    ensures CachedAgrees(t, s.phase.d0, s.phase.data)
  {
    hide CommitWrites, CommitPrefix;
    var i := s.phase.k - |s.lh| - 1;
    assert forall j :: 0 <= j < |s.lh| && j != i ==> s.lh[j] != s.lh[i];
  }

  lemma InstallBase(l: Layout, s: State, t: State)
    requires Base(l, s) && Install(l, s, t)
    ensures Base(l, t)
  {
    var i := s.phase.k - |s.lh| - 1;
    assert Home(l, s.disk, s.lh[i]);
    forall b | b in Pinned(t) ensures b in s.cached {
      assert s.lh[i + 1..] == s.lh[i..][1..];
      assert b in Pinned(s);
    }
    hide Pinned;
  }

  lemma EraseStep(l: Layout, s: State, t: State)
    requires Inv(l, s) && Erase(l, s, t)
    ensures Inv(l, t) && Abstract(l, s) == Abstract(l, t)
  {
    hide Base, HomeMap, View, Recovered, CommitPrefix, CommitWrites, GoodHead, Updated, CommittingInv;
    EraseAdvances(l, s, t);
    CommitDurable(l, s, t);
    EraseRunning(l, s, t);
    EraseView(l, s, t);
    EraseBase(l, s, t);
  }

  lemma EraseBase(l: Layout, s: State, t: State)
    requires Inv(l, s) && Erase(l, s, t) && |t.disk| == |s.disk|
    ensures Base(l, t)
  {
  }

  lemma EraseRunning(l: Layout, s: State, t: State)
    requires Inv(l, s) && Erase(l, s, t) && Advanced(l, s, t)
    ensures Updated(l, s.phase.d0, s.lh, s.phase.data, t.disk) && t.disk[l.start][0] == 0
    ensures forall b :: b in s.cached ==> b < |t.disk| && s.cached[b] == t.disk[b]
  {
    hide CommitPrefix, CommitWrites, GoodHead, Updated;
    var d0, data := s.phase.d0, s.phase.data;
    CommitShape(l, d0[l.start], s.lh, data);
    CommitDone(l, d0, s.lh, data);
    CachedUpdated(l, d0, data, s, t.disk);
  }

  lemma CachedUpdated(l: Layout, d0: Disk, data: seq<Block>, s: State, e: Disk)
    requires |d0| == |s.disk| == |e| && CachedAgrees(s, d0, data) && Updated(l, d0, s.lh, data, e)
    requires forall b :: b in s.cached ==> Home(l, s.disk, b)
    ensures forall b :: b in s.cached ==> b < |e| && s.cached[b] == e[b]
  {
    forall b | b in s.cached ensures b < |e| && s.cached[b] == e[b] {
      assert Home(l, s.disk, b) && Home(l, d0, b);
      if b in s.lh {
        var i :| 0 <= i < |s.lh| && s.lh[i] == b;
        assert e[s.lh[i]] == data[i];
      }
    }
  }

  lemma EraseView(l: Layout, s: State, t: State)
    requires Inv(l, s) && Erase(l, s, t) && |t.disk| == |s.disk|
    requires Updated(l, s.phase.d0, s.lh, s.phase.data, t.disk)
    requires forall b :: b in s.cached ==> b < |t.disk| && s.cached[b] == t.disk[b]
    ensures HomeMap(l, View(t)) == HomeMap(l, View(s))
  {
    CommittingView(l, s);
    hide CommitPrefix, CommitWrites, Updated, Inv;
    ViewIsDisk(t);
    UpdatedHomeMap(l, s.phase.d0, s.lh, s.phase.data, View(t), View(s));
  }

  // ----- going down and coming up -----

  lemma BootedInv(l: Layout, d: Disk)
    requires GoodHead(l, d)
    ensures Inv(l, Booted(d))
  {
    assert RecoveryWrites(l, d)[..0] == [];
  }

  lemma CrashStep(l: Layout, s: State, t: State)
    requires Inv(l, s) && Crash(s, t)
    ensures Inv(l, t) && Abstract(l, t) == Down(Abstract(l, s).durable)
  {
    BootedInv(l, s.disk);
  }

  lemma RecoveryPrefixNext(l: Layout, d: Disk, k: nat)
    requires GoodHead(l, d) && k < |RecoveryWrites(l, d)|
    ensures var w := RecoveryWrites(l, d)[k];
            && w.blockno < |d| == |RecoveryPrefix(l, d, k)|
            && RecoveryPrefix(l, d, k + 1) == RecoveryPrefix(l, d, k)[w.blockno := w.data]
  {
    RecoveryOnDisk(l, d);
    var ws := RecoveryWrites(l, d);
    assert ws[..k + 1][..k] == ws[..k];
  }

  /** A write of the recovery; after the last one the machine is up with the durable contents. */
  lemma RecoverStep(l: Layout, s: State, t: State)
    requires Inv(l, s) && Recover(l, s, t)
    ensures Inv(l, t) && AbsNext(Abstract(l, s), Abstract(l, t))
  {
    hide HomeMap, View, Recovered, RecoveryPrefix, RecoveryWrites, GoodHead;
    var d, k := s.phase.from, s.phase.done;
    RecoveryPrefixNext(l, d, k);
    CrashInRecovery(l, d, k);
    CrashInRecovery(l, d, k + 1);
    HomeMapSame(l, Recovered(l, s.disk), Recovered(l, d));
    HomeMapSame(l, Recovered(l, t.disk), Recovered(l, d));
    if t.phase.Running? {
      RecoverEnds(l, d, k, s, t);
    } else {
      RecoverGoesOn(l, s, t);
    }
  }

  lemma RecoverGoesOn(l: Layout, s: State, t: State)
    requires Inv(l, s) && Recover(l, s, t) && t.phase.Recovering? && GoodHead(l, t.disk)
    requires t.disk == RecoveryPrefix(l, s.phase.from, s.phase.done + 1)
    ensures Inv(l, t)
  {
    hide Recovered, RecoveryPrefix;
  }

  lemma RecoverEnds(l: Layout, d: Disk, k: nat, s: State, t: State)
    requires GoodHead(l, d) && k + 1 == |RecoveryWrites(l, d)| && GoodHead(l, t.disk)
    requires t.disk == RecoveryPrefix(l, d, k + 1)
    requires s == Booted(s.disk).(phase := s.phase) && t == s.(disk := t.disk, cached := t.cached, phase := Running)
    requires forall b :: b in t.cached ==> Home(l, t.disk, b) && t.cached[b] == t.disk[b]
    ensures Inv(l, t) && HomeMap(l, View(t)) == HomeMap(l, Recovered(l, t.disk))
  {
    hide HomeMap, View, Updated, GoodHead, Recovered, RecoveryPrefix, RecoveryWrites;
    RecoveredWhole(l, d, k);
    RecoveredHome(l, d);
    CleanStart(l, t);
  }

  lemma RecoveredWhole(l: Layout, d: Disk, k: nat)
    requires GoodHead(l, d) && k + 1 == |RecoveryWrites(l, d)|
    ensures RecoveryPrefix(l, d, k + 1) == Recovered(l, d)
  {
    assert RecoveryWrites(l, d)[..k + 1] == RecoveryWrites(l, d);
  }

  lemma CleanStart(l: Layout, t: State)
    requires GoodHead(l, t.disk) && t.disk[l.start][0] == 0
    requires forall b :: b in t.cached ==> Home(l, t.disk, b) && t.cached[b] == t.disk[b]
    ensures HomeMap(l, View(t)) == HomeMap(l, Recovered(l, t.disk))
  {
    hide Recovered, View, HomeMap;
    RecoversOld(l, t.disk, t.disk);
    ViewIsDisk(t);
    HomeMapSame(l, t.disk, Recovered(l, t.disk));
  }

  lemma ViewIsDisk(t: State)
    requires forall b :: b in t.cached && b < |t.disk| ==> t.cached[b] == t.disk[b]
    ensures View(t) == t.disk
  {
  }

  // ----- the theorems -----

  /** Every step keeps the invariant and is a step of the specification. */
  lemma NextRefines(l: Layout, s: State, t: State)
    requires Inv(l, s) && Next(l, s, t)
    ensures Inv(l, t) && AbsNext(Abstract(l, s), Abstract(l, t))
  {
    hide Inv, Abstract;
    if p :| Begin(s, t, p) {
      BeginStep(l, s, t, p);
    } else if p, b :| Get(l, s, t, p, b) {
      GetStep(l, s, t, p, b);
    } else if p, b :| Load(s, t, p, b) {
      LoadStep(l, s, t, p, b);
    } else if p, b, data :| Edit(s, t, p, b, data) {
      EditStep(l, s, t, p, b, data);
    } else if p, b :| Logs(l, s, t, p, b) {
      LogsStep(l, s, t, p, b);
    } else if p, b :| Release(s, t, p, b) {
      ReleaseStep(l, s, t, p, b);
    } else if b :| Evict(s, t, b) {
      EvictStep(l, s, t, b);
    } else if p :| End(s, t, p) {
      EndStep(l, s, t, p);
    } else if LogWrite(l, s, t) {
      LogWriteStep(l, s, t);
    } else if CommitPoint(l, s, t) {
      CommitPointStep(l, s, t);
    } else if Install(l, s, t) {
      InstallStep(l, s, t);
    } else if Erase(l, s, t) {
      EraseStep(l, s, t);
    } else if Crash(s, t) {
      CrashStep(l, s, t);
    } else {
      RecoverStep(l, s, t);
    }
  }

  ghost predicate Run(l: Layout, run: seq<State>) {
    && run != []
    && GoodHead(l, run[0].disk) && run[0] == Booted(run[0].disk)
    && forall i :: 0 <= i < |run| - 1 ==> Next(l, run[i], run[i + 1])
  }

  lemma {:induction false} RunInv(l: Layout, run: seq<State>, i: nat)
    requires Run(l, run) && i < |run|
    ensures Inv(l, run[i])
  {
    if i == 0 {
      BootedInv(l, run[0].disk);
    } else {
      RunInv(l, run, i - 1);
      NextRefines(l, run[i - 1], run[i]);
    }
  }

  /** Every run of the machine, with any interleaving, any commits and any crashes, is a run
      of the transactional disk. */
  lemma RunRefines(l: Layout, run: seq<State>)
    requires Run(l, run)
    ensures forall i :: 0 <= i < |run| ==> GoodHead(l, run[i].disk)
    ensures forall i :: 0 <= i < |run| - 1 ==> AbsNext(Abstract(l, run[i]), Abstract(l, run[i + 1]))
  {
    forall i | 0 <= i < |run| ensures GoodHead(l, run[i].disk) {
      RunInv(l, run, i);
    }
    forall i | 0 <= i < |run| - 1 ensures AbsNext(Abstract(l, run[i]), Abstract(l, run[i + 1])) {
      RunInv(l, run, i);
      NextRefines(l, run[i], run[i + 1]);
    }
  }

  /** No FS system call is executing, and no transaction waits to be committed. */
  predicate Settled(s: State) {
    s.ops == {} && (s.phase.Running? || (s.phase.Committing? && |s.lh| < s.phase.k))
  }

  /**
   The end of the last FS system call makes everything durable: at every point of every run at
   which none is executing and no header write is outstanding, what a crash would leave is what
   the processes see.
   */
  lemma SettledIsDurable(l: Layout, run: seq<State>, i: nat)
    requires Run(l, run) && i < |run| && Settled(run[i])
    ensures GoodHead(l, run[i].disk) && Abstract(l, run[i]).Up?
    ensures Abstract(l, run[i]).durable == Abstract(l, run[i]).current
  {
    RunInv(l, run, i);
    var s := run[i];
    if s.phase.Running? {
      RecoveredHome(l, s.disk);
      assert View(s) == s.disk;
      assert SameHome(l, s.disk, Recovered(l, s.disk));
      HomeMapSame(l, s.disk, Recovered(l, s.disk));
    } else {
      CommittingView(l, s);
      CrashInCommit(l, s.phase.d0, s.lh, s.phase.data, s.phase.k);
      UpdatedHomeMap(l, s.phase.d0, s.lh, s.phase.data, Recovered(l, s.disk), View(s));
    }
  }
}
