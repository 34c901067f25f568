/**
 The on-disk redo log of kernel/log.c, as the sequences of block writes that
 commit() and recover_from_log() issue.  A crash keeps an arbitrary prefix of such a
 sequence; the theorems of this module say what a later recovery makes of it.
 */
module RedoLog {
  import opened Params
  import opened Sequences

  /** A block, viewed as its 32-bit words. */
  type Block = b: seq<int> | |b| == WORDS witness seq(WORDS, _ => 0)
  type Disk = seq<Block>

  /** The log occupies blocks [start, start + size): the header block, then data blocks. */
  datatype Layout = Layout(start: nat, size: nat)

  datatype Write = Write(blockno: nat, data: Block)

  predicate InLog(l: Layout, b: int) {
    l.start <= b < l.start + l.size
  }

  predicate GoodLayout(l: Layout, d: Disk) {
    0 < l.size && l.start + l.size <= |d|
  }

  /** A block number that may be logged: on the disk, and not in the log itself. */
  predicate Home(l: Layout, d: Disk, b: int) {
    0 <= b < |d| && !InLog(l, b)
  }

  /** The transactions the log can hold: distinct home blocks, one log block each. */
  ghost predicate GoodBlocks(l: Layout, d: Disk, blocks: seq<int>) {
    && |blocks| <= LOGSIZE
    && |blocks| < l.size
    && Distinct(blocks)
    && forall i :: 0 <= i < |blocks| ==> Home(l, d, blocks[i])
  }

  // ----- the header block -----

  /** struct logheader overlaid on a block: word 0 is n, words 1.. are the block numbers. */
  function HeadBlocks(h: Block): (blocks: seq<int>)
    requires 0 <= h[0] <= LOGSIZE
  {
    h[1..1 + h[0]]
  }

  /** write_head() overwrites n and the first n block numbers, and keeps the rest. */
  function SetHead(h: Block, blocks: seq<int>): (r: Block)
    requires |blocks| <= LOGSIZE
    ensures r[0] == |blocks| && HeadBlocks(r) == blocks
  {
    [|blocks|] + blocks + h[1 + |blocks|..]
  }

  ghost predicate GoodHead(l: Layout, d: Disk) {
    && GoodLayout(l, d)
    && 0 <= d[l.start][0] <= LOGSIZE
    && GoodBlocks(l, d, HeadBlocks(d[l.start]))
  }

  // ----- applying writes -----

  predicate OnDisk(d: Disk, ws: seq<Write>) {
    forall i :: 0 <= i < |ws| ==> ws[i].blockno < |d|
  }

  function Apply(d: Disk, ws: seq<Write>): (r: Disk)
    requires OnDisk(d, ws)
    ensures |r| == |d|
  {
    if ws == [] then d
    else
      var last := ws[|ws| - 1];
      Apply(d, ws[..|ws| - 1])[last.blockno := last.data]
  }

  lemma {:induction false} ApplyUntouched(d: Disk, ws: seq<Write>, b: nat)
    requires OnDisk(d, ws) && b < |d|
    requires forall i :: 0 <= i < |ws| ==> ws[i].blockno != b
    ensures Apply(d, ws)[b] == d[b]
  {
    if ws != [] {
      ApplyUntouched(d, ws[..|ws| - 1], b);
    }
  }

  /** The last write to a block decides its contents. */
  lemma {:induction false} ApplyLast(d: Disk, ws: seq<Write>, i: nat)
    requires OnDisk(d, ws) && i < |ws|
    requires forall j :: i < j < |ws| ==> ws[j].blockno != ws[i].blockno
    ensures Apply(d, ws)[ws[i].blockno] == ws[i].data
  {
    if i < |ws| - 1 {
      ApplyLast(d, ws[..|ws| - 1], i);
    }
  }

  lemma {:induction false} ApplyAppend(d: Disk, ws: seq<Write>, vs: seq<Write>)
    requires OnDisk(d, ws) && OnDisk(d, vs)
    ensures OnDisk(d, ws + vs)
    ensures Apply(d, ws + vs) == Apply(Apply(d, ws), vs)
  {
    if vs == [] {
      assert ws + vs == ws;
    } else {
      var vs' := vs[..|vs| - 1];
      assert (ws + vs)[..|ws + vs| - 1] == ws + vs';
      ApplyAppend(d, ws, vs');
    }
  }

  // ----- what commit() and recover_from_log() write -----

  /** write_log(): the cached contents go to the log blocks. */
  function LogWrites(l: Layout, data: seq<Block>): (ws: seq<Write>) {
    seq(|data|, i requires 0 <= i < |data| => Write(l.start + 1 + i, data[i]))
  }

  function HeadWrite(l: Layout, h: Block, blocks: seq<int>): (w: Write)
    requires |blocks| <= LOGSIZE
  {
    Write(l.start, SetHead(h, blocks))
  }

  /** install_trans(): the contents go to their home blocks. */
  function InstallWrites(blocks: seq<int>, data: seq<Block>): (ws: seq<Write>)
    requires |blocks| == |data|
    requires forall i :: 0 <= i < |blocks| ==> 0 <= blocks[i]
  {
    seq(|data|, i requires 0 <= i < |data| => Write(blocks[i], data[i]))
  }

  /** All of commit(): log, header, install, erased header. */
  function CommitWrites(l: Layout, h: Block, blocks: seq<int>, data: seq<Block>): (ws: seq<Write>)
    requires |blocks| == |data| && |blocks| <= LOGSIZE
    requires forall i :: 0 <= i < |blocks| ==> 0 <= blocks[i]
  {
    if blocks == [] then []
    else
      LogWrites(l, data) + [HeadWrite(l, h, blocks)]
      + InstallWrites(blocks, data) + [HeadWrite(l, SetHead(h, blocks), [])]
  }

  function LogData(l: Layout, d: Disk, n: nat): (data: seq<Block>)
    requires GoodLayout(l, d) && n < l.size
  {
    d[l.start + 1..l.start + 1 + n]
  }

  /** All of recover_from_log(): install whatever the header names, then erase the header. */
  function RecoveryWrites(l: Layout, d: Disk): (ws: seq<Write>)
    requires GoodHead(l, d)
  {
    var h := d[l.start];
    InstallWrites(HeadBlocks(h), LogData(l, d, h[0])) + [HeadWrite(l, h, [])]
  }

  lemma RecoveryOnDisk(l: Layout, d: Disk)
    requires GoodHead(l, d)
    ensures OnDisk(d, RecoveryWrites(l, d))
  {
  }

  /** The disk after a recovery that is not interrupted. */
  ghost function Recovered(l: Layout, d: Disk): (r: Disk)
    requires GoodHead(l, d)
  {
    RecoveryOnDisk(l, d);
    Apply(d, RecoveryWrites(l, d))
  }

  /** The first j installs replace the first j home blocks, and nothing else. */
  lemma InstallEffect(l: Layout, d: Disk, blocks: seq<int>, data: seq<Block>, j: nat)
    requires GoodBlocks(l, d, blocks) && |blocks| == |data| && j <= |blocks|
    ensures OnDisk(d, InstallWrites(blocks, data)[..j])
    ensures var e := Apply(d, InstallWrites(blocks, data)[..j]);
            && (forall i :: 0 <= i < j ==> e[blocks[i]] == data[i])
            && (forall b :: 0 <= b < |d| && b !in blocks ==> e[b] == d[b])
            && (forall b :: InLog(l, b) && b < |d| ==> e[b] == d[b])
  {
    var ws := InstallWrites(blocks, data)[..j];
    assert forall i :: 0 <= i < |ws| ==> ws[i].blockno == blocks[i] && Home(l, d, ws[i].blockno);
    forall i | 0 <= i < j ensures Apply(d, ws)[blocks[i]] == data[i] {
      ApplyLast(d, ws, i);
    }
    forall b | 0 <= b < |d| && b !in blocks ensures Apply(d, ws)[b] == d[b] {
      ApplyUntouched(d, ws, b);
    }
    forall b | InLog(l, b) && b < |d| ensures Apply(d, ws)[b] == d[b] {
      ApplyUntouched(d, ws, b);
    }
  }

  // ----- the file system's view: the home blocks -----

  ghost predicate SameHome(l: Layout, d: Disk, e: Disk) {
    |d| == |e| && forall b :: Home(l, d, b) ==> d[b] == e[b]
  }

  /** e is d with every block of the transaction replaced, and no other home block changed. */
  ghost predicate Updated(l: Layout, d: Disk, blocks: seq<int>, data: seq<Block>, e: Disk)
    requires |blocks| == |data|
  {
    && |d| == |e|
    && (forall i :: 0 <= i < |blocks| && Home(l, d, blocks[i]) ==> e[blocks[i]] == data[i])
    && (forall b :: Home(l, d, b) && b !in blocks ==> e[b] == d[b])
  }

  // ----- recovery -----

  /** What recovery computes, independently of the order of its writes. */
  lemma RecoveredHome(l: Layout, d: Disk)
    requires GoodHead(l, d)
    ensures GoodHead(l, Recovered(l, d)) && Recovered(l, d)[l.start][0] == 0
    ensures Updated(l, d, HeadBlocks(d[l.start]), LogData(l, d, d[l.start][0]), Recovered(l, d))
  {
    var blocks := HeadBlocks(d[l.start]);
    var data := LogData(l, d, |blocks|);
    InstallEffect(l, d, blocks, data, |blocks|);
    var ws := InstallWrites(blocks, data);
    assert ws[..|blocks|] == ws;
    assert RecoveryWrites(l, d)[..|ws|] == ws;
    assert Recovered(l, d) == Apply(d, ws)[l.start := SetHead(d[l.start], [])];
  }

  /** The disk when recovery is cut short after k writes. */
  ghost function RecoveryPrefix(l: Layout, d: Disk, k: nat): (c: Disk)
    requires GoodHead(l, d) && k <= |RecoveryWrites(l, d)|
  {
    RecoveryOnDisk(l, d);
    Apply(d, RecoveryWrites(l, d)[..k])
  }

  /** Before the header is erased, an interrupted recovery has touched only blocks that the
      header still names, and not the log. */
  lemma RecoveryPrefixShape(l: Layout, d: Disk, k: nat)
    requires GoodHead(l, d) && k < |RecoveryWrites(l, d)|
    ensures var c := RecoveryPrefix(l, d, k);
            && |c| == |d|
            && (forall b :: InLog(l, b) ==> c[b] == d[b])
            && (forall b :: Home(l, d, b) && b !in HeadBlocks(d[l.start]) ==> c[b] == d[b])
  {
    var blocks := HeadBlocks(d[l.start]);
    var data := LogData(l, d, |blocks|);
    InstallEffect(l, d, blocks, data, k);
    assert RecoveryWrites(l, d)[..k] == InstallWrites(blocks, data)[..k];
  }

  /** A recovery that crashes anywhere leaves a disk that recovers to the same home blocks. */
  lemma CrashInRecovery(l: Layout, d: Disk, k: nat)
    requires GoodHead(l, d) && k <= |RecoveryWrites(l, d)|
    ensures GoodHead(l, RecoveryPrefix(l, d, k))
    ensures SameHome(l, Recovered(l, RecoveryPrefix(l, d, k)), Recovered(l, d))
  {
    var c := RecoveryPrefix(l, d, k);
    RecoveredHome(l, d);
    if k == |RecoveryWrites(l, d)| {
      assert RecoveryWrites(l, d)[..k] == RecoveryWrites(l, d);
      RecoversOld(l, c, c);
    } else {
      RecoveryPrefixShape(l, d, k);
      SameLogRecovers(l, d, c);
    }
  }

  /** Disks with the same log that differ only in blocks the header names recover alike. */
  lemma SameLogRecovers(l: Layout, d: Disk, c: Disk)
    requires GoodHead(l, d) && |c| == |d|
    requires forall b :: InLog(l, b) ==> c[b] == d[b]
    requires forall b :: Home(l, d, b) && b !in HeadBlocks(d[l.start]) ==> c[b] == d[b]
    ensures GoodHead(l, c) && SameHome(l, Recovered(l, c), Recovered(l, d))
  {
    assert InLog(l, l.start);
    var n := d[l.start][0];
    assert GoodBlocks(l, c, HeadBlocks(c[l.start])) by {
      assert forall b :: Home(l, d, b) <==> Home(l, c, b);
    }
    LogDataKept(l, d, c, n);
    RecoveredHome(l, c);
    RecoveredHome(l, d);
    UpdatedUnique(l, d, c, HeadBlocks(d[l.start]), LogData(l, d, n), Recovered(l, d), Recovered(l, c));
  }

  lemma UpdatedUnique(l: Layout, d: Disk, c: Disk, blocks: seq<int>, data: seq<Block>, e: Disk, f: Disk)
    requires |blocks| == |data| && |d| == |c|
    requires forall b :: Home(l, d, b) && b !in blocks ==> c[b] == d[b]
    requires Updated(l, d, blocks, data, e) && Updated(l, c, blocks, data, f)
    ensures SameHome(l, f, e)
  {
    forall b | Home(l, f, b) ensures f[b] == e[b] {
      assert Home(l, d, b) && Home(l, c, b);
      if b in blocks {
        var i :| 0 <= i < |blocks| && blocks[i] == b;
        assert e[blocks[i]] == data[i] && f[blocks[i]] == data[i];
      }
    }
  }

  // ----- commit -----

  ghost predicate GoodCommit(l: Layout, d: Disk, blocks: seq<int>, data: seq<Block>) {
    && GoodLayout(l, d)
    && d[l.start][0] == 0
    && |blocks| == |data|
    && GoodBlocks(l, d, blocks)
  }

  lemma CommitOnDisk(l: Layout, d: Disk, blocks: seq<int>, data: seq<Block>)
    requires GoodCommit(l, d, blocks, data)
    ensures OnDisk(d, CommitWrites(l, d[l.start], blocks, data))
  {
    forall i | 0 <= i < |blocks| ensures 0 <= blocks[i] < |d| {
      assert Home(l, d, blocks[i]);
    }
  }

  /** The disk when commit() is cut short after k writes. */
  ghost function CommitPrefix(l: Layout, d: Disk, blocks: seq<int>, data: seq<Block>, k: nat): (c: Disk)
    requires GoodCommit(l, d, blocks, data)
    requires k <= |CommitWrites(l, d[l.start], blocks, data)|
  {
    CommitOnDisk(l, d, blocks, data);
    Apply(d, CommitWrites(l, d[l.start], blocks, data)[..k])
  }

  lemma CommitShape(l: Layout, h: Block, blocks: seq<int>, data: seq<Block>)
    requires |blocks| == |data| && 0 < |blocks| <= LOGSIZE
    requires forall i :: 0 <= i < |blocks| ==> 0 <= blocks[i]
    ensures var ws, n := CommitWrites(l, h, blocks, data), |blocks|;
            && |ws| == 2 * n + 2
            && ws[n] == HeadWrite(l, h, blocks)
            && ws[2 * n + 1] == HeadWrite(l, SetHead(h, blocks), [])
            && (forall i :: 0 <= i < n ==> ws[i] == Write(l.start + 1 + i, data[i]))
            && (forall i :: n < i <= 2 * n ==> ws[i] == Write(blocks[i - n - 1], data[i - n - 1]))
  {
  }

  /** Up to the header write, only log data blocks change. */
  lemma BeforeCommitPoint(l: Layout, d: Disk, blocks: seq<int>, data: seq<Block>, k: nat)
    requires GoodCommit(l, d, blocks, data) && k <= |blocks|
    ensures k <= |CommitWrites(l, d[l.start], blocks, data)|
    ensures var c := CommitPrefix(l, d, blocks, data, k);
            && |c| == |d| && c[l.start] == d[l.start] && SameHome(l, d, c)
            && forall i :: 0 <= i < k ==> c[l.start + 1 + i] == data[i]
  {
    CommitOnDisk(l, d, blocks, data);
    var ws := CommitWrites(l, d[l.start], blocks, data)[..k];
    forall b | 0 <= b < |d| && (b == l.start || !InLog(l, b)) ensures Apply(d, ws)[b] == d[b] {
      ApplyUntouched(d, ws, b);
    }
    forall i | 0 <= i < k ensures Apply(d, ws)[l.start + 1 + i] == data[i] {
      ApplyLast(d, ws, i);
    }
  }

  /** The writes of a commit up to the header write, and then the installs. */
  lemma CommitWritesSplit(l: Layout, h: Block, blocks: seq<int>, data: seq<Block>, k: nat)
    requires |blocks| == |data| && 0 < |blocks| <= LOGSIZE && |blocks| < k <= 2 * |blocks| + 1
    requires forall i :: 0 <= i < |blocks| ==> 0 <= blocks[i]
    ensures var ws, log, install := CommitWrites(l, h, blocks, data), LogWrites(l, data), InstallWrites(blocks, data);
            && |ws| == 2 * |blocks| + 2 && |install| == |blocks| && ws[..|blocks|] == log
            && ws[..k] == log + [HeadWrite(l, h, blocks)] + install[..k - |blocks| - 1]
  {
    hide SetHead;
    var n := |blocks|;
    TakeConcat(LogWrites(l, data), HeadWrite(l, h, blocks), InstallWrites(blocks, data),
               HeadWrite(l, SetHead(h, blocks), []), k - n - 1);
  }

  /** Applying writes, then one more, then others. */
  lemma ApplySplit(d: Disk, a: seq<Write>, w: Write, b: seq<Write>)
    requires OnDisk(d, a + [w] + b)
    ensures OnDisk(d, a) && w.blockno < |d| && OnDisk(Apply(d, a)[w.blockno := w.data], b)
    ensures Apply(d, a + [w] + b) == Apply(Apply(d, a)[w.blockno := w.data], b)
  {
    var ws := a + [w] + b;
    assert forall i :: 0 <= i < |a| ==> a[i] == ws[i];
    assert w == ws[|a|];
    assert forall i :: 0 <= i < |b| ==> b[i] == ws[|a| + 1 + i];
    assert OnDisk(d, a + [w]);
    ApplyAppend(d, a + [w], b);
    assert (a + [w])[..|a|] == a;
  }

  lemma CommitPrefixSplit(l: Layout, d: Disk, blocks: seq<int>, data: seq<Block>, k: nat)
    requires GoodCommit(l, d, blocks, data) && |blocks| < k <= 2 * |blocks| + 1
    requires k <= |CommitWrites(l, d[l.start], blocks, data)|
    ensures |blocks| <= |InstallWrites(blocks, data)|
    ensures var c := CommitPrefix(l, d, blocks, data, |blocks|)[l.start := SetHead(d[l.start], blocks)];
            var install := InstallWrites(blocks, data)[..k - |blocks| - 1];
            OnDisk(c, install) && CommitPrefix(l, d, blocks, data, k) == Apply(c, install)
  {
    CommitNotEmpty(l, d, blocks, data, k);
    hide CommitWrites, SetHead, LogWrites, InstallWrites, Apply;
    var h := d[l.start];
    CommitOnDisk(l, d, blocks, data);
    CommitWritesSplit(l, h, blocks, data, k);
    ApplySplit(d, LogWrites(l, data), HeadWrite(l, h, blocks), InstallWrites(blocks, data)[..k - |blocks| - 1]);
  }

  lemma CommitNotEmpty(l: Layout, d: Disk, blocks: seq<int>, data: seq<Block>, k: nat)
    requires GoodCommit(l, d, blocks, data) && |blocks| < k <= |CommitWrites(l, d[l.start], blocks, data)|
    ensures 0 < |blocks| <= LOGSIZE && forall i :: 0 <= i < |blocks| ==> 0 <= blocks[i]
  {
    forall i | 0 <= i < |blocks| ensures 0 <= blocks[i] {
      assert Home(l, d, blocks[i]);
    }
  }

  lemma TakeConcat<T>(a: seq<T>, x: T, b: seq<T>, y: T, j: nat)
    requires j <= |b|
    ensures (a + [x] + b + [y])[..|a|] == a
    ensures (a + [x] + b + [y])[..|a| + 1 + j] == (a + [x]) + b[..j]
  {
  }

  /** From the header write on, the header names the transaction, the log holds its
      contents, and only its home blocks may have changed. */
  lemma AfterCommitPoint(l: Layout, d: Disk, blocks: seq<int>, data: seq<Block>, k: nat)
    requires GoodCommit(l, d, blocks, data) && |blocks| < k <= 2 * |blocks| + 1
    requires k <= |CommitWrites(l, d[l.start], blocks, data)|
    ensures var c := CommitPrefix(l, d, blocks, data, k);
            && |c| == |d| && c[l.start] == SetHead(d[l.start], blocks)
            && LogData(l, c, |blocks|) == data
            && (forall b :: Home(l, d, b) && b !in blocks ==> c[b] == d[b])
            && (forall i :: 0 <= i < k - |blocks| - 1 ==> c[blocks[i]] == data[i])
  {
    hide CommitWrites, SetHead, Apply, InstallWrites, CommitPrefix;
    CommitPrefixSplit(l, d, blocks, data, k);
    BeforeCommitPoint(l, d, blocks, data, |blocks|);
    CommitHome(l, d, blocks);
    var c := CommitPrefix(l, d, blocks, data, |blocks|)[l.start := SetHead(d[l.start], blocks)];
    assert LogData(l, c, |blocks|) == data;
    assert GoodBlocks(l, c, blocks);
    InstallEffect(l, c, blocks, data, k - |blocks| - 1);
    LogDataKept(l, c, CommitPrefix(l, d, blocks, data, k), |blocks|);
  }

  lemma CommitHome(l: Layout, d: Disk, blocks: seq<int>)
    requires GoodBlocks(l, d, blocks)
    ensures forall i :: 0 <= i < |blocks| ==> 0 <= blocks[i] < |d| && !InLog(l, blocks[i])
  {
    forall i | 0 <= i < |blocks| ensures 0 <= blocks[i] < |d| && !InLog(l, blocks[i]) {
      assert Home(l, d, blocks[i]);
    }
  }

  lemma LogDataKept(l: Layout, c: Disk, e: Disk, n: nat)
    requires GoodLayout(l, c) && |c| == |e| && n < l.size
    requires forall b :: InLog(l, b) && b < |c| ==> c[b] == e[b]
    ensures LogData(l, c, n) == LogData(l, e, n)
  {
    forall i | 0 <= i < n ensures LogData(l, c, n)[i] == LogData(l, e, n)[i] {
      assert InLog(l, l.start + 1 + i);
    }
  }

  lemma RecoversOld(l: Layout, d: Disk, c: Disk)
    requires GoodLayout(l, d) && SameHome(l, d, c) && c[l.start][0] == 0
    ensures GoodHead(l, c) && SameHome(l, d, Recovered(l, c))
  {
    hide Recovered;
    assert HeadBlocks(c[l.start]) == [];
    RecoveredHome(l, c);
    assert forall b :: Home(l, d, b) <==> Home(l, c, b);
  }

  lemma RecoversNew(l: Layout, d: Disk, blocks: seq<int>, data: seq<Block>, c: Disk)
    requires GoodCommit(l, d, blocks, data) && |c| == |d|
    requires c[l.start] == SetHead(d[l.start], blocks) && LogData(l, c, |blocks|) == data
    requires forall b :: Home(l, d, b) && b !in blocks ==> c[b] == d[b]
    ensures GoodHead(l, c) && Updated(l, d, blocks, data, Recovered(l, c))
  {
    assert GoodBlocks(l, c, blocks);
    RecoveredHome(l, c);
    assert forall b :: Home(l, d, b) <==> Home(l, c, b);
  }

  /** A commit() that crashes anywhere: up to and including the last log block the disk
      recovers to the old home blocks, from the header write on to the new ones. */
  lemma CrashInCommit(l: Layout, d: Disk, blocks: seq<int>, data: seq<Block>, k: nat)
    requires GoodCommit(l, d, blocks, data)
    requires k <= |CommitWrites(l, d[l.start], blocks, data)|
    ensures GoodHead(l, CommitPrefix(l, d, blocks, data, k))
    ensures var r := Recovered(l, CommitPrefix(l, d, blocks, data, k));
            if k <= |blocks| then SameHome(l, d, r) else Updated(l, d, blocks, data, r)
  {
    var c := CommitPrefix(l, d, blocks, data, k);
    if k <= |blocks| {
      BeforeCommitPoint(l, d, blocks, data, k);
      RecoversOld(l, d, c);
    } else if k <= 2 * |blocks| + 1 {
      AfterCommitPoint(l, d, blocks, data, k);
      RecoversNew(l, d, blocks, data, c);
    } else {
      CommitShape(l, d[l.start], blocks, data);
      assert k == |CommitWrites(l, d[l.start], blocks, data)|;
      CommitDone(l, d, blocks, data);
      RecoversOld(l, c, c);
      UpdatedThenSame(l, d, blocks, data, c, Recovered(l, c));
    }
  }

  lemma UpdatedThenSame(l: Layout, d: Disk, blocks: seq<int>, data: seq<Block>, c: Disk, r: Disk)
    requires |blocks| == |data| && Updated(l, d, blocks, data, c) && SameHome(l, c, r)
    ensures Updated(l, d, blocks, data, r)
  {
    assert forall b :: Home(l, d, b) <==> Home(l, c, b);
  }

  /** A commit() that is not interrupted installs the transaction and erases the log. */
  lemma CommitDone(l: Layout, d: Disk, blocks: seq<int>, data: seq<Block>)
    requires GoodCommit(l, d, blocks, data)
    ensures var c := CommitPrefix(l, d, blocks, data, |CommitWrites(l, d[l.start], blocks, data)|);
            Updated(l, d, blocks, data, c) && |c| == |d| && c[l.start][0] == 0
  {
    var ws := CommitWrites(l, d[l.start], blocks, data);
    CommitOnDisk(l, d, blocks, data);
    assert ws[..|ws|] == ws;
    if blocks != [] {
      var k := |ws| - 1;
      AfterCommitPoint(l, d, blocks, data, k);
      var c := CommitPrefix(l, d, blocks, data, k);
      assert Apply(d, ws) == c[l.start := ws[k].data];
      forall i | 0 <= i < |blocks| ensures Apply(d, ws)[blocks[i]] == data[i] {
        assert Home(l, d, blocks[i]);
      }
    }
  }

  // ----- any number of crashes -----

  /** Recovery is started and cut short after ks[0] writes, started again, and so on. */
  ghost predicate CrashRun(l: Layout, d: Disk, ks: seq<nat>, e: Disk)
    decreases |ks|
  {
    if ks == [] then d == e
    else
      && GoodHead(l, d)
      && ks[0] <= |RecoveryWrites(l, d)|
      && CrashRun(l, RecoveryPrefix(l, d, ks[0]), ks[1..], e)
  }

  lemma {:induction false} CrashesInRecovery(l: Layout, d: Disk, ks: seq<nat>, e: Disk)
    requires GoodHead(l, d) && CrashRun(l, d, ks, e)
    ensures GoodHead(l, e) && SameHome(l, Recovered(l, d), Recovered(l, e))
    decreases |ks|
  {
    if ks != [] {
      var c := RecoveryPrefix(l, d, ks[0]);
      CrashInRecovery(l, d, ks[0]);
      CrashesInRecovery(l, c, ks[1..], e);
      SameHomeTrans(l, Recovered(l, e), Recovered(l, c), Recovered(l, d));
    }
  }

  lemma SameHomeTrans(l: Layout, a: Disk, b: Disk, c: Disk)
    requires SameHome(l, b, a) && SameHome(l, b, c)
    ensures SameHome(l, c, a)
  {
    assert forall x :: Home(l, c, x) <==> Home(l, b, x);
  }

  /** Crash atomicity.  Commit is cut short after any number k of writes, recovery after that
      is cut short any number of times at any points, and a last recovery completes: the home
      blocks are all old or all new, and the header write alone decides which. */
  lemma CrashAtomicity(l: Layout, d: Disk, blocks: seq<int>, data: seq<Block>, k: nat, ks: seq<nat>, e: Disk)
    requires GoodCommit(l, d, blocks, data)
    requires k <= |CommitWrites(l, d[l.start], blocks, data)|
    requires CrashRun(l, CommitPrefix(l, d, blocks, data, k), ks, e)
    ensures GoodHead(l, e)
    ensures k <= |blocks| ==> SameHome(l, d, Recovered(l, e))
    ensures k > |blocks| ==> Updated(l, d, blocks, data, Recovered(l, e))
  {
    var c := CommitPrefix(l, d, blocks, data, k);
    CrashInCommit(l, d, blocks, data, k);
    CrashesInRecovery(l, c, ks, e);
    if k <= |blocks| {
      assert forall b :: Home(l, d, b) <==> Home(l, Recovered(l, c), b);
    } else {
      UpdatedThenSame(l, d, blocks, data, Recovered(l, c), Recovered(l, e));
    }
  }
}
