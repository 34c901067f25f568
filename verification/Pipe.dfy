/**
 Pipes (kernel/pipe.c).  nread and nwrite are 32-bit counters that wrap around; inserted and
 removed are the bytes that have gone in and come out since the pipe was made.
 */
module Pipe {
  import opened Modular

  const PIPESIZE: nat := 512
  const WRAP: nat := 0x1_0000_0000

  type Byte = x: int | 0 <= x < 256

  datatype State = State(data: seq<Byte>, nread: nat, nwrite: nat, inserted: seq<Byte>, removed: seq<Byte>)

  ghost predicate Init(s: State) {
    |s.data| == PIPESIZE && s.nread == 0 && s.nwrite == 0 && s.inserted == [] && s.removed == []
  }

  predicate IsFull(s: State) {
    s.nwrite == (s.nread + PIPESIZE) % WRAP
  }

  predicate IsEmpty(s: State) {
    s.nread == s.nwrite
  }

  /** One round of pipewrite()'s loop. */
  function Put(s: State, ch: Byte): (t: State)
    requires |s.data| == PIPESIZE
  {
    State(s.data[s.nwrite % PIPESIZE := ch], s.nread, (s.nwrite + 1) % WRAP, s.inserted + [ch], s.removed)
  }

  /** One round of piperead()'s loop; the byte leaves the pipe even if copyout() then fails. */
  function Get(s: State): (t: State)
    requires |s.data| == PIPESIZE
  {
    s.(nread := (s.nread + 1) % WRAP, removed := s.removed + [s.data[s.nread % PIPESIZE]])
  }

  // ----- the invariant -----

  /** What is in the ring: the bytes inserted and not removed. */
  ghost predicate Inv(s: State) {
    && |s.data| == PIPESIZE && s.removed <= s.inserted && |s.inserted| <= |s.removed| + PIPESIZE
    && s.nread == |s.removed| % WRAP && s.nwrite == |s.inserted| % WRAP
    && forall k :: |s.removed| <= k < |s.inserted| ==> s.data[k % PIPESIZE] == s.inserted[k]
  }

  /** PIPESIZE divides 2^32, so wrapping a counter does not move its slot. */
  lemma SlotOfCounter(x: nat)
    ensures x % WRAP % PIPESIZE == x % PIPESIZE && (x % WRAP + 1) % WRAP == (x + 1) % WRAP
    ensures (x % WRAP + PIPESIZE) % WRAP == (x + PIPESIZE) % WRAP
  {
    SlotOfCount(x, WRAP, PIPESIZE, 0x80_0000);
    NextCount(x, 1, WRAP);
    NextCount(x, PIPESIZE, WRAP);
  }

  /** The two tests on the wrapped counters mean what they should. */
  lemma TestsMean(s: State)
    requires Inv(s)
    ensures IsEmpty(s) <==> |s.inserted| == |s.removed|
    ensures IsFull(s) <==> |s.inserted| == |s.removed| + PIPESIZE
  {
    CountsEqual(|s.removed|, |s.inserted|, WRAP);
    SlotOfCounter(|s.removed|);
    CountsEqual(|s.inserted|, |s.removed| + PIPESIZE, WRAP);
  }

  lemma PutInv(s: State, ch: Byte)
    requires Inv(s) && !IsFull(s)
    ensures Inv(Put(s, ch))
  {
    var t := Put(s, ch);
    TestsMean(s);
    SlotOfCounter(|s.inserted|);
    forall k | |t.removed| <= k < |t.inserted| ensures t.data[k % PIPESIZE] == t.inserted[k] {
      if k < |s.inserted| {
        CountsEqual(k, |s.inserted|, PIPESIZE);
      }
    }
  }

  lemma GetInv(s: State)
    requires Inv(s) && !IsEmpty(s)
    ensures Inv(Get(s)) && Get(s).removed == s.removed + [s.inserted[|s.removed|]]
  {
    TestsMean(s);
    SlotOfCounter(|s.removed|);
    var k := |s.removed|;
    assert s.data[k % PIPESIZE] == s.inserted[k];
  }

  // ----- every interleaving of writers and readers -----

  ghost predicate Next(s: State, t: State) {
    || (|s.data| == PIPESIZE && !IsFull(s) && exists ch :: t == Put(s, ch))
    || (|s.data| == PIPESIZE && !IsEmpty(s) && t == Get(s))
  }

  ghost predicate Run(run: seq<State>) {
    |run| > 0 && Init(run[0]) && forall k :: 0 <= k < |run| - 1 ==> Next(run[k], run[k + 1])
  }

  lemma {:induction false} RunInv(run: seq<State>, k: nat)
    requires Run(run) && k < |run|
    ensures Inv(run[k])
  {
    if k > 0 {
      RunInv(run, k - 1);
      var s, t := run[k - 1], run[k];
      assert Next(run[k - 1], run[k - 1 + 1]);
      if !IsFull(s) && exists ch :: t == Put(s, ch) {
        var ch :| t == Put(s, ch);
        PutInv(s, ch);
      } else {
        GetInv(s);
      }
    }
  }

  /** The bytes in the ring, oldest first. */
  ghost function InRing(s: State): (bytes: seq<Byte>)
    requires |s.data| == PIPESIZE && |s.removed| <= |s.inserted|
  {
    seq(|s.inserted| - |s.removed|, i requires 0 <= i => s.data[(|s.removed| + i) % PIPESIZE])
  }

  /** What has come out, followed by what is in the ring, is what went in, at every point of every run. */
  lemma Fifo(run: seq<State>, k: nat)
    requires Run(run) && k < |run|
    ensures |run[k].data| == PIPESIZE && |run[k].removed| <= |run[k].inserted| <= |run[k].removed| + PIPESIZE
    ensures run[k].removed + InRing(run[k]) == run[k].inserted
    ensures (run[k].nwrite - run[k].nread) % WRAP == |run[k].inserted| - |run[k].removed|
  {
    RunInv(run, k);
    var s := run[k];
    assert forall i :: 0 <= i < |InRing(s)| ==> InRing(s)[i] == s.inserted[|s.removed| + i];
    Difference(|s.removed|, |s.inserted|);
  }

  lemma Difference(a: nat, b: nat)
    requires a <= b <= a + PIPESIZE
    ensures (b % WRAP - a % WRAP) % WRAP == b - a
  {
    NextCount(a, b - a, WRAP);
    var y, d := a % WRAP, b - a;
    if y + d < WRAP {
      assert b % WRAP - y == d;
    } else {
      assert b % WRAP - y == d - WRAP;
    }
  }

  // ----- pipewrite and piperead between two sleeps -----

  class Buffer {
    var data: array<Byte>
    var nread: nat
    var nwrite: nat
    ghost var inserted: seq<Byte>
    ghost var removed: seq<Byte>

    constructor ()
      ensures Valid() && inserted == [] && removed == [] && fresh(data)
    {
      data := new Byte[512](_ => 0);
      nread, nwrite, inserted, removed := 0, 0, [], [];
    }

    ghost function Model(): (s: State)
      reads this, data
    {
      State(data[..], nread, nwrite, inserted, removed)
    }

    ghost predicate Valid()
      reads this, data
    {
      data.Length == PIPESIZE && Inv(Model())
    }

    /**
     pipewrite() from byte i on, until all is written, the pipe is full (where it sleeps), or copyin() fails at byte
     bad.
     */
    method Write(src: seq<Byte>, start: nat, bad: nat) returns (i: nat)
      requires Valid() && start <= |src|
      modifies this, data
      ensures Valid() && data == old(data) && start <= i <= |src| && removed == old(removed)
      ensures inserted == old(inserted) + src[start..i]
      ensures i == Least(|src|, start + PIPESIZE - |old(inserted)| + |removed|, if start <= bad then bad else |src|)
    {
      hide Inv;
      InvPrefix(Model());
      i := start;
      while i < |src|
        invariant start <= i <= |src| && Valid() && data == old(data) && removed == old(removed)
        invariant inserted == old(inserted) + src[start..i] && (start <= bad ==> i <= bad)
        invariant |inserted| <= |removed| + PIPESIZE
      {
        ghost var s := Model();
        TestsMean(s);
        if nwrite == (nread + PIPESIZE) % WRAP {
          return;
        }
        if i == bad {
          return;
        }
        PutInv(s, src[i]);
        data[nwrite % PIPESIZE] := src[i];
        nwrite := (nwrite + 1) % WRAP;
        inserted := inserted + [src[i]];
        assert Model() == Put(s, src[i]);
        assert src[start..i] + [src[i]] == src[start..i + 1];
        i := i + 1;
      }
    }

    /**
     piperead() once there is something to read: up to n bytes, or until copyout() fails at byte
     bad.  That byte has left the pipe by then.
     */
    method Read(n: nat, bad: nat) returns (i: nat, bytes: seq<Byte>)
      requires Valid()
      modifies this
      ensures Valid() && data == old(data) && inserted == old(inserted) && i == |bytes| <= n
      ensures |old(removed)| + i <= |removed| <= |inserted| && removed == inserted[..|removed|]
      ensures bytes == inserted[|old(removed)|..|old(removed)| + i]
      ensures i == Least(n, |inserted| - |old(removed)|, bad)
      ensures |removed| == |old(removed)| + i + if Loses(n, bad, |inserted| - |old(removed)|) then 1 else 0
    {
      hide Inv;
      i, bytes := 0, [];
      InvPrefix(Model());
      while i < n
        invariant i == |bytes| <= n && Valid() && data == old(data) && inserted == old(inserted) && i <= bad
        invariant |removed| == |old(removed)| + i <= |inserted| && removed == inserted[..|removed|]
                  && bytes == inserted[|old(removed)|..|removed|]
      {
        ghost var s := Model();
        TestsMean(s);
        if nread == nwrite {
          return;
        }
        GetInv(s);
        var ch := data[nread % PIPESIZE];
        nread := (nread + 1) % WRAP;
        removed := removed + [ch];
        assert Model() == Get(s);
        InvPrefix(Model());
        if i == bad {
          return;
        }
        bytes := bytes + [ch];
        i := i + 1;
      }
    }
  }

  function Least(a: int, b: int, c: int): (m: int) {
    if a <= b && a <= c then a else if b <= c then b else c
  }

  /** A read of n bytes loses one, if copyout() fails at byte bad and the pipe holds `held` bytes. */
  predicate Loses(n: nat, bad: nat, held: nat) {
    bad < n && bad < held
  }

  /** A pipe with one byte, read to a bad address: the byte is in the pipe no more, and the reader has not got it. */
  method ByteLost(ch: Byte) returns (p: Buffer, bytes: seq<Byte>)
    ensures p.Valid() && p.inserted == [ch] && p.removed == [ch] && bytes == []
  {
    p := new Buffer();
    var written := p.Write([ch], 0, 1);
    var i;
    i, bytes := p.Read(1, 0);
  }

  lemma InvPrefix(s: State)
    requires Inv(s)
    ensures |s.removed| <= |s.inserted| <= |s.removed| + PIPESIZE && s.removed == s.inserted[..|s.removed|]
  {
  }
}
