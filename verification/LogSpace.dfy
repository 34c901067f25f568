/**
 How many blocks the operations of one transaction may log (kernel/log.c, begin_op,
 log_write, end_op).  Operations start, log blocks and end in any interleaving; each logs at
 most `budget` different blocks.  With a log of LOGSIZE blocks, as mkfs lays it out, the
 panic "too big a transaction" is unreachable exactly when the budget is below MAXOPBLOCKS.
 */
module LogSpace {
  import opened Params
  import opened Sequences
  import opened RedoLog
  import opened FsLog

  /** nlog in mkfs/mkfs.c: the header block and LOGSIZE - 1 data blocks. */
  const NLOG: nat := LOGSIZE

  /** lh is the transaction so far; ops holds, for each operation that is executing, the
      blocks it has logged. */
  datatype State = State(lh: seq<nat>, ops: seq<set<nat>>, committing: bool)

  const Start: State := State([], [], false)

  ghost predicate Begin(s: State, t: State) {
    Admits(|s.lh|, |s.ops|, s.committing) && t == s.(ops := s.ops + [{}])
  }

  /** Operation i calls log_write() on block b, within its budget. */
  ghost predicate Attempts(budget: nat, s: State, i: nat, b: nat) {
    i < |s.ops| && |s.ops[i] + {b}| <= budget
  }

  ghost predicate Logs(budget: nat, s: State, t: State, i: nat, b: nat) {
    && Attempts(budget, s, i, b)
    && !TooBig(|s.lh|, NLOG)
    && t == s.(lh := Absorbed(s.lh, b), ops := s.ops[i := s.ops[i] + {b}])
  }

  /** end_op(): the last one out starts the commit. */
  ghost predicate Ends(s: State, t: State, i: nat) {
    && i < |s.ops|
    && t == s.(ops := s.ops[..i] + s.ops[i + 1..], committing := |s.ops| == 1)
  }

  ghost predicate Committed(s: State, t: State) {
    s.committing && t == s.(lh := [], committing := false)
  }

  ghost predicate Next(budget: nat, s: State, t: State) {
    || Begin(s, t)
    || (exists i, b :: Logs(budget, s, t, i, b))
    || (exists i :: Ends(s, t, i))
    || Committed(s, t)
  }

  ghost predicate Run(budget: nat, run: seq<State>) {
    && run != []
    && run[0] == Start
    && forall k :: 0 <= k < |run| - 1 ==> Next(budget, run[k], run[k + 1])
  }

  ghost predicate Reachable(budget: nat, s: State) {
    exists run :: Run(budget, run) && run[|run| - 1] == s
  }

  /** Some operation within its budget runs into the panic. */
  ghost predicate Panics(budget: nat, s: State) {
    exists i, b :: Attempts(budget, s, i, b) && TooBig(|s.lh|, NLOG)
  }

  // ----- the invariant -----

  /** The space begin_op() has reserved and the operations have not used. */
  function Slack(ops: seq<set<nat>>): (r: int) {
    if ops == [] then 0 else Slack(ops[..|ops| - 1]) + MAXOPBLOCKS - |ops[|ops| - 1]|
  }

  lemma {:induction false} SlackUpdate(ops: seq<set<nat>>, i: nat, o: set<nat>)
    requires i < |ops|
    ensures Slack(ops[i := o]) == Slack(ops) + |ops[i]| - |o|
  {
    if i == |ops| - 1 {
      assert ops[i := o][..i] == ops[..i];
    } else {
      assert ops[i := o][..|ops| - 1] == ops[..|ops| - 1][i := o];
      SlackUpdate(ops[..|ops| - 1], i, o);
    }
  }

  lemma {:induction false} SlackRemove(ops: seq<set<nat>>, i: nat)
    requires i < |ops|
    ensures Slack(ops[..i] + ops[i + 1..]) == Slack(ops) - MAXOPBLOCKS + |ops[i]|
  {
    var last := |ops| - 1;
    if i == last {
      assert ops[..i] + ops[i + 1..] == ops[..i];
    } else {
      var front := ops[..last];
      var rest := ops[..i] + ops[i + 1..];
      assert rest[..|rest| - 1] == front[..i] + front[i + 1..];
      assert rest[|rest| - 1] == ops[last];
      SlackRemove(front, i);
    }
  }

  lemma {:induction false} SlackBounds(budget: nat, ops: seq<set<nat>>)
    requires forall i :: 0 <= i < |ops| ==> |ops[i]| <= budget
    ensures Slack(ops) >= |ops| * (MAXOPBLOCKS - budget)
  {
    if ops != [] {
      SlackBounds(budget, ops[..|ops| - 1]);
      assert Slack(ops) >= (|ops| - 1) * (MAXOPBLOCKS - budget) + (MAXOPBLOCKS - budget);
    }
  }

  lemma {:induction false} SlackMost(ops: seq<set<nat>>)
    ensures Slack(ops) <= |ops| * MAXOPBLOCKS
  {
    if ops != [] {
      SlackMost(ops[..|ops| - 1]);
    }
  }

  ghost predicate Inv(budget: nat, s: State) {
    && (s.committing ==> s.ops == [])
    && (s.ops == [] && !s.committing ==> s.lh == [])
    && (forall i :: 0 <= i < |s.ops| ==> |s.ops[i]| <= budget && s.ops[i] <= Elems(s.lh))
    && (s.ops != [] ==> |s.lh| + Slack(s.ops) <= LOGSIZE)
    && (|s.ops| == 1 ==> |s.lh| + Slack(s.ops) < LOGSIZE)
  }

  lemma BeginInv(budget: nat, s: State, t: State)
    requires Inv(budget, s) && Begin(s, t)
    ensures Inv(budget, t)
  {
    SlackMost(s.ops);
    assert t.ops[..|s.ops|] == s.ops;
    assert Slack(t.ops) == Slack(s.ops) + MAXOPBLOCKS;
  }

  lemma LogsInv(budget: nat, s: State, t: State, i: nat, b: nat)
    requires Inv(budget, s) && Logs(budget, s, t, i, b)
    ensures Inv(budget, t)
  {
    SlackUpdate(s.ops, i, s.ops[i] + {b});
    if b in s.lh {
      assert |s.ops[i] + {b}| >= |s.ops[i]|;
    } else {
      assert b !in s.ops[i];
    }
    forall j | 0 <= j < |t.ops| ensures |t.ops[j]| <= budget && t.ops[j] <= Elems(t.lh) {
      assert s.ops[j] <= Elems(s.lh);
    }
  }

  lemma EndsInv(budget: nat, s: State, t: State, i: nat)
    requires Inv(budget, s) && Ends(s, t, i) && budget < MAXOPBLOCKS
    ensures Inv(budget, t)
  {
    SlackRemove(s.ops, i);
  }

  lemma NextInv(budget: nat, s: State, t: State)
    requires Inv(budget, s) && Next(budget, s, t) && budget < MAXOPBLOCKS
    ensures Inv(budget, t)
  {
    if Begin(s, t) {
      BeginInv(budget, s, t);
    } else if i, b :| Logs(budget, s, t, i, b) {
      LogsInv(budget, s, t, i, b);
    } else if i :| Ends(s, t, i) {
      EndsInv(budget, s, t, i);
    }
  }

  lemma {:induction false} RunInv(budget: nat, run: seq<State>, k: nat)
    requires Run(budget, run) && k < |run| && budget < MAXOPBLOCKS
    ensures Inv(budget, run[k])
  {
    if k > 0 {
      RunInv(budget, run, k - 1);
      NextInv(budget, run[k - 1], run[k]);
    }
  }

  /** In every reachable state: no operation executing and no commit under way means an empty
      transaction; and no operation within its budget can hit the panic. */
  lemma Safe(budget: nat, s: State)
    requires budget < MAXOPBLOCKS && Reachable(budget, s)
    ensures s.ops == [] && !s.committing ==> s.lh == []
    ensures !Panics(budget, s)
    ensures s.ops != [] ==> |s.lh| <= NLOG - 2
  {
    var run :| Run(budget, run) && run[|run| - 1] == s;
    RunInv(budget, run, |run| - 1);
    SlackBounds(budget, s.ops);
    AtLeast(|s.ops|, MAXOPBLOCKS - budget);
  }

  lemma AtLeast(n: nat, g: int)
    requires 1 <= g
    ensures n <= n * g
  {
  }

  // ----- a budget of MAXOPBLOCKS is too much -----

  lemma ReachNext(budget: nat, s: State, t: State)
    requires Reachable(budget, s) && Next(budget, s, t)
    ensures Reachable(budget, t)
  {
    var run :| Run(budget, run) && run[|run| - 1] == s;
    var run' := run + [t];
    assert forall k :: 0 <= k < |run'| - 1 ==> Next(budget, run'[k], run'[k + 1]);
    assert Run(budget, run') && run'[|run'| - 1] == t;
  }

  function Upto(n: nat): (r: seq<nat>)
    ensures |r| == n && forall i :: 0 <= i < n ==> r[i] == i
  {
    seq(n, i requires 0 <= i < n => i)
  }

  function Range(lo: nat, hi: nat): (r: set<nat>) {
    set x | x in Upto(hi) && lo <= x
  }

  lemma {:induction false} RangeCard(lo: nat, hi: nat)
    requires lo <= hi
    ensures |Range(lo, hi)| == hi - lo
    decreases hi - lo
  {
    if lo == hi {
      assert Range(lo, hi) == {};
    } else {
      RangeCard(lo, hi - 1);
      RangeNext(lo, hi - 1);
      assert hi - 1 !in Range(lo, hi - 1);
    }
  }

  lemma RangeNext(lo: nat, hi: nat)
    requires lo <= hi
    ensures Range(lo, hi) + {hi} == Range(lo, hi + 1)
  {
    assert Upto(hi + 1) == Upto(hi) + [hi];
  }

  /** How far operation k is when blocks 0 .. n - 1 are logged ten to an operation. */
  function Filled(n: nat, k: nat): (r: nat) {
    if n < 10 * k then 10 * k else if n < 10 * k + 10 then n else 10 * k + 10
  }

  function Logged(n: nat, k: nat): (r: set<nat>) {
    Range(10 * k, Filled(n, k))
  }

  function Full(n: nat): (s: State) {
    State(Upto(n), [Logged(n, 0), Logged(n, 1), Logged(n, 2)], false)
  }

  lemma {:induction false} FullReachable(budget: nat, n: nat)
    requires MAXOPBLOCKS <= budget && n < LOGSIZE
    ensures Reachable(budget, Full(n))
  {
    if n == 0 {
      assert Run(budget, [Start]);
      ReachNext(budget, Start, State([], [{}], false));
      ReachNext(budget, State([], [{}], false), State([], [{}, {}], false));
      ReachNext(budget, State([], [{}, {}], false), State([], [{}, {}, {}], false));
      assert Logged(0, 0) == {} && Logged(0, 1) == {} && Logged(0, 2) == {};
      assert Full(0) == State([], [{}, {}, {}], false);
    } else {
      FullReachable(budget, n - 1);
      FullStep(budget, n - 1);
      ReachNext(budget, Full(n - 1), Full(n));
    }
  }

  lemma AbsorbFresh(n: nat)
    ensures Absorbed(Upto(n), n) == Upto(n + 1)
  {
    assert n !in Upto(n);
    assert Upto(n + 1) == Upto(n) + [n];
  }

  lemma FullStep(budget: nat, n: nat)
    requires MAXOPBLOCKS <= budget && n + 1 < LOGSIZE
    ensures Next(budget, Full(n), Full(n + 1))
  {
    hide Logged, Absorbed, Upto, Next;
    var i := n / 10;
    LoggedNext(n, i);
    AbsorbFresh(n);
    OneLogs(budget, Full(n), Full(n + 1), i, n, Logged(n, i), Logged(n + 1, i));
  }

  lemma LoggedNext(n: nat, i: nat)
    requires i == n / 10
    ensures Logged(n + 1, i) == Logged(n, i) + {n} && |Logged(n + 1, i)| <= MAXOPBLOCKS
    ensures forall j: nat :: j != i ==> Logged(n + 1, j) == Logged(n, j)
  {
    RangeNext(10 * i, n);
    RangeCard(10 * i, n + 1);
    forall j: nat | j != i ensures Filled(n + 1, j) == Filled(n, j) {
    }
  }

  lemma OneLogs(budget: nat, s: State, t: State, i: nat, b: nat, o: set<nat>, o': set<nat>)
    requires i < |s.ops| == |t.ops| && s.ops[i] == o && t.ops[i] == o' == o + {b} && |o'| <= budget
    requires forall j :: 0 <= j < |s.ops| && j != i ==> t.ops[j] == s.ops[j]
    requires t.lh == Absorbed(s.lh, b) && !TooBig(|s.lh|, NLOG) && t.committing == s.committing
    ensures Next(budget, s, t)
  {
    assert t.ops == s.ops[i := o'];
    assert Logs(budget, s, t, i, b);
  }

  lemma Unsafe(budget: nat)
    requires MAXOPBLOCKS <= budget
    ensures Reachable(budget, Full(LOGSIZE - 1)) && Panics(budget, Full(LOGSIZE - 1))
  {
    FullReachable(budget, LOGSIZE - 1);
    var s := Full(LOGSIZE - 1);
    LoggedNext(29, 2);
    assert Attempts(budget, s, 2, 29);
  }

  /** The exact condition: the panic cannot happen if and only if every operation stays below
      MAXOPBLOCKS blocks. */
  lemma PanicUnreachableIff(budget: nat)
    ensures (forall s :: Reachable(budget, s) ==> !Panics(budget, s)) <==> budget < MAXOPBLOCKS
  {
    if budget < MAXOPBLOCKS {
      forall s | Reachable(budget, s) ensures !Panics(budget, s) {
        Safe(budget, s);
      }
    } else {
      Unsafe(budget);
    }
  }
}
