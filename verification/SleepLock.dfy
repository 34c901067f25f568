/**
 Sleep locks and sleep/wakeup (kernel/sleeplock.c; sleep, wakeup, sched, scheduler and kill
 of kernel/proc.c), as an interleaving of steps.  Every acquire and release of a spinlock is
 a step of its own, so the windows between them are all there: between the test of `locked`
 and going to sleep, between releasing lk and setting SLEEPING, between setting SLEEPING and
 leaving the CPU, and inside the loop of wakeup.
 */
module SleepLock {
  import opened Options

  datatype RunState = RUNNING | RUNNABLE | SLEEPING

  /** Where a process is, in acquiresleep(l), releasesleep(l) or neither. */
  datatype Pc =
    | Outside
    | AcqWait(l: nat)            // acquire(&lk->lk), also the one at the end of sleep()
    | AcqTest(l: nat)            // holds lk; about to test `locked`
    | AcqRelease(l: nat)         // holds lk; locked and pid are set
    | SleepWait(l: nat)          // in sleep(), holds lk; acquire(&p->lock)
    | SleepDrop(l: nat)          // holds lk and p->lock; release(lk)
    | SleepMark(l: nat)          // holds p->lock; sets chan and state
    | SleepSwitch(l: nat)        // holds p->lock, is SLEEPING; sched()
    | Off(l: nat)                // switched out inside sleep()
    | SleepTidy(l: nat)          // switched in again, holds p->lock; chan = 0, release
    | RelWait(l: nat)            // releasesleep(): acquire(&lk->lk)
    | RelClear(l: nat)           // holds lk; clears locked and pid
    | Wake(l: nat, j: nat)       // holds lk; wakeup() is about to look at process j
    | WakeTest(l: nat, j: nat)   // holds lk and the lock of process j
    | WakeDrop(l: nat, j: nat)   // has dealt with process j; release its lock
    | RelRelease(l: nat)         // holds lk; release(&lk->lk)

  datatype Owner = Proc(i: nat) | Scheduler

  datatype Process = Process(pc: Pc, state: RunState, chan: Option<nat>, lock: Option<Owner>, holds: set<nat>)

  datatype Lock = Lock(spin: Option<nat>, locked: bool, pid: nat)

  datatype State = State(procs: seq<Process>, locks: seq<Lock>)

  /** Process ids are distinct and not 0. */
  function Pid(i: nat): (pid: nat) {
    i + 1
  }

  function At(s: State, i: nat, pc: Pc): (t: State)
    requires i < |s.procs|
  {
    s.(procs := s.procs[i := s.procs[i].(pc := pc)])
  }

  function SetProc(s: State, i: nat, p: Process): (t: State)
    requires i < |s.procs|
  {
    s.(procs := s.procs[i := p])
  }

  function SetLock(s: State, l: nat, k: Lock): (t: State)
    requires l < |s.locks|
  {
    s.(locks := s.locks[l := k])
  }

  predicate Exists(s: State, i: nat, l: nat) {
    i < |s.procs| && l < |s.locks|
  }

  // ----- steps of process i -----

  ghost predicate StartAcquire(s: State, t: State, i: nat, l: nat) {
    Exists(s, i, l) && s.procs[i].pc == Outside && t == At(s, i, AcqWait(l))
  }

  ghost predicate AcquireLk(s: State, t: State, i: nat, l: nat) {
    && Exists(s, i, l) && s.locks[l].spin == None
    && (s.procs[i].pc == AcqWait(l) || s.procs[i].pc == RelWait(l))
    && t == SetLock(At(s, i, if s.procs[i].pc == AcqWait(l) then AcqTest(l) else RelClear(l)),
                    l, s.locks[l].(spin := Some(i)))
  }

  /** while (lk->locked) sleep(lk, &lk->lk); */
  ghost predicate TestLocked(s: State, t: State, i: nat, l: nat) {
    && Exists(s, i, l) && s.procs[i].pc == AcqTest(l)
    && t == if s.locks[l].locked then At(s, i, SleepWait(l))
            else SetLock(SetProc(s, i, s.procs[i].(pc := AcqRelease(l), holds := s.procs[i].holds + {l})),
                         l, s.locks[l].(locked := true, pid := Pid(i)))
  }

  ghost predicate ReleaseLk(s: State, t: State, i: nat, l: nat) {
    && Exists(s, i, l)
    && (s.procs[i].pc == AcqRelease(l) || s.procs[i].pc == RelRelease(l) || s.procs[i].pc == SleepDrop(l))
    && t == SetLock(At(s, i, if s.procs[i].pc == SleepDrop(l) then SleepMark(l) else Outside),
                    l, s.locks[l].(spin := None))
  }

  ghost predicate AcquireOwn(s: State, t: State, i: nat, l: nat) {
    && Exists(s, i, l) && s.procs[i].pc == SleepWait(l) && s.procs[i].lock == None
    && t == SetProc(s, i, s.procs[i].(pc := SleepDrop(l), lock := Some(Proc(i))))
  }

  ghost predicate MarkSleeping(s: State, t: State, i: nat, l: nat) {
    && Exists(s, i, l) && s.procs[i].pc == SleepMark(l)
    && t == SetProc(s, i, s.procs[i].(pc := SleepSwitch(l), chan := Some(l), state := SLEEPING))
  }

  /** sched(): the scheduler now has p->lock. */
  ghost predicate SwitchOut(s: State, t: State, i: nat, l: nat) {
    && Exists(s, i, l) && s.procs[i].pc == SleepSwitch(l)
    && t == SetProc(s, i, s.procs[i].(pc := Off(l), lock := Some(Scheduler)))
  }

  ghost predicate SchedulerRelease(s: State, t: State, i: nat) {
    && i < |s.procs| && s.procs[i].lock == Some(Scheduler)
    && t == SetProc(s, i, s.procs[i].(lock := None))
  }

  /** scheduler() finds the process RUNNABLE and hands it its own lock. */
  ghost predicate Dispatch(s: State, t: State, i: nat, l: nat) {
    && Exists(s, i, l) && s.procs[i].pc == Off(l) && s.procs[i].state == RUNNABLE && s.procs[i].lock == None
    && t == SetProc(s, i, s.procs[i].(pc := SleepTidy(l), state := RUNNING, lock := Some(Proc(i))))
  }

  ghost predicate Tidy(s: State, t: State, i: nat, l: nat) {
    && Exists(s, i, l) && s.procs[i].pc == SleepTidy(l)
    && t == SetProc(s, i, s.procs[i].(pc := AcqWait(l), chan := None, lock := None))
  }

  /** A process releases only a lock it holds. */
  ghost predicate StartRelease(s: State, t: State, i: nat, l: nat) {
    && Exists(s, i, l) && s.procs[i].pc == Outside && l in s.procs[i].holds
    && t == At(s, i, RelWait(l))
  }

  ghost predicate ClearLocked(s: State, t: State, i: nat, l: nat) {
    && Exists(s, i, l) && s.procs[i].pc == RelClear(l)
    && t == SetLock(SetProc(s, i, s.procs[i].(pc := Wake(l, 0), holds := s.procs[i].holds - {l})),
                    l, s.locks[l].(locked := false, pid := 0))
  }

  /** The loop of wakeup() at process j: done, skips the caller, or takes process j's lock. */
  ghost predicate WakeNext(s: State, t: State, i: nat, l: nat, j: nat) {
    && Exists(s, i, l) && s.procs[i].pc == Wake(l, j)
    && if j >= |s.procs| then t == At(s, i, RelRelease(l))
       else if j == i then t == At(s, i, Wake(l, j + 1))
       else s.procs[j].lock == None
            && t == SetProc(At(s, i, WakeTest(l, j)), j, s.procs[j].(lock := Some(Proc(i))))
  }

  ghost predicate WakeOne(s: State, t: State, i: nat, l: nat, j: nat) {
    && Exists(s, i, l) && j < |s.procs| && j != i && s.procs[i].pc == WakeTest(l, j)
    && t == SetProc(At(s, i, WakeDrop(l, j)), j,
                    if s.procs[j].state == SLEEPING && s.procs[j].chan == Some(l) then s.procs[j].(state := RUNNABLE)
                    else s.procs[j])
  }

  ghost predicate WakeRelease(s: State, t: State, i: nat, l: nat, j: nat) {
    && Exists(s, i, l) && j < |s.procs| && j != i && s.procs[i].pc == WakeDrop(l, j)
    && t == SetProc(At(s, i, Wake(l, j + 1)), j, s.procs[j].(lock := None))
  }

  /** kill(): under the victim's lock, a sleeper is made RUNNABLE. */
  ghost predicate Kill(s: State, t: State, j: nat) {
    && j < |s.procs| && s.procs[j].lock == None && s.procs[j].state == SLEEPING
    && t == SetProc(s, j, s.procs[j].(state := RUNNABLE))
  }

  /** Which step is taken, by which process, on which lock. */
  datatype Step =
    | StartAcquireStep(i: nat, l: nat)
    | AcquireLkStep(i: nat, l: nat)
    | TestLockedStep(i: nat, l: nat)
    | ReleaseLkStep(i: nat, l: nat)
    | AcquireOwnStep(i: nat, l: nat)
    | MarkSleepingStep(i: nat, l: nat)
    | SwitchOutStep(i: nat, l: nat)
    | SchedulerReleaseStep(i: nat)
    | DispatchStep(i: nat, l: nat)
    | TidyStep(i: nat, l: nat)
    | StartReleaseStep(i: nat, l: nat)
    | ClearLockedStep(i: nat, l: nat)
    | WakeNextStep(i: nat, l: nat, j: nat)
    | WakeOneStep(i: nat, l: nat, j: nat)
    | WakeReleaseStep(i: nat, l: nat, j: nat)
    | KillStep(j: nat)

  ghost predicate NextStep(s: State, t: State, a: Step) {
    match a
    case StartAcquireStep(i, l) => StartAcquire(s, t, i, l)
    case AcquireLkStep(i, l) => AcquireLk(s, t, i, l)
    case TestLockedStep(i, l) => TestLocked(s, t, i, l)
    case ReleaseLkStep(i, l) => ReleaseLk(s, t, i, l)
    case AcquireOwnStep(i, l) => AcquireOwn(s, t, i, l)
    case MarkSleepingStep(i, l) => MarkSleeping(s, t, i, l)
    case SwitchOutStep(i, l) => SwitchOut(s, t, i, l)
    case SchedulerReleaseStep(i) => SchedulerRelease(s, t, i)
    case DispatchStep(i, l) => Dispatch(s, t, i, l)
    case TidyStep(i, l) => Tidy(s, t, i, l)
    case StartReleaseStep(i, l) => StartRelease(s, t, i, l)
    case ClearLockedStep(i, l) => ClearLocked(s, t, i, l)
    case WakeNextStep(i, l, j) => WakeNext(s, t, i, l, j)
    case WakeOneStep(i, l, j) => WakeOne(s, t, i, l, j)
    case WakeReleaseStep(i, l, j) => WakeRelease(s, t, i, l, j)
    case KillStep(j) => Kill(s, t, j)
  }

  ghost predicate Next(s: State, t: State) {
    exists a :: NextStep(s, t, a)
  }

  ghost predicate Init(s: State) {
    && (forall i :: 0 <= i < |s.procs| ==> s.procs[i] == Process(Outside, RUNNING, None, None, {}))
    && (forall l :: 0 <= l < |s.locks| ==> s.locks[l] == Lock(None, false, 0))
  }

  // ----- the invariant -----

  /** The lk that a process at pc holds. */
  function LkOf(pc: Pc): (r: Option<nat>) {
    match pc
    case AcqTest(l) => Some(l)
    case AcqRelease(l) => Some(l)
    case SleepWait(l) => Some(l)
    case SleepDrop(l) => Some(l)
    case RelClear(l) => Some(l)
    case Wake(l, _) => Some(l)
    case WakeTest(l, _) => Some(l)
    case WakeDrop(l, _) => Some(l)
    case RelRelease(l) => Some(l)
    case _ => None
  }

  /** The process whose p->lock process i holds at pc. */
  function PLockOf(i: nat, pc: Pc): (r: Option<nat>) {
    match pc
    case SleepDrop(_) => Some(i)
    case SleepMark(_) => Some(i)
    case SleepSwitch(_) => Some(i)
    case SleepTidy(_) => Some(i)
    case WakeTest(_, j) => Some(j)
    case WakeDrop(_, j) => Some(j)
    case _ => None
  }

  ghost predicate StateInv(p: Process) {
    match p.pc
    case SleepSwitch(l) => p.state == SLEEPING && p.chan == Some(l)
    case Off(l) => p.state != RUNNING && p.chan == Some(l)
    case _ => p.state == RUNNING
  }

  /** Process p is asleep on l, or past its test of `locked` and on its way to sleep. */
  predicate Sleepy(p: Process, l: nat) {
    match p.pc
    case SleepWait(k) => k == l
    case SleepDrop(k) => k == l
    case SleepMark(k) => k == l
    case SleepSwitch(k) => k == l
    case Off(k) => k == l && p.state == SLEEPING
    case _ => false
  }

  /** A process at pc is in wakeup(l) and has yet to deal with process i. */
  predicate WillWake(pc: Pc, i: nat) {
    match pc
    case Wake(_, j) => j <= i
    case WakeTest(_, j) => j <= i
    case WakeDrop(_, j) => j < i
    case _ => false
  }

  predicate PcBelow(pc: Pc, n: nat) {
    pc.Outside? || pc.l < n
  }

  /** What holds of process i alone, among n processes and m locks. */
  ghost predicate ProcInv(p: Process, i: nat, n: nat, m: nat) {
    && PcBelow(p.pc, m)
    && StateInv(p)
    && (PLockOf(i, p.pc).Some? ==> PLockOf(i, p.pc).value < n)
    && (p.lock == Some(Scheduler) ==> p.pc.Off?)
    && (p.lock.Some? && p.lock.value.Proc? ==> p.lock.value.i < n)
    && (p.pc.WakeTest? || p.pc.WakeDrop? ==> p.pc.j != i)
    && (p.pc.RelWait? || p.pc.RelClear? ==> p.pc.l in p.holds)
  }

  ghost predicate LockInv(k: Lock, n: nat) {
    && (k.spin.Some? ==> k.spin.value < n)
    && if k.locked then 1 <= k.pid <= n else k.pid == 0
  }

  /** Process i holds lk, and the sleep lock, exactly if l says so; if it sleeps on l, l is held or lk is. */
  ghost predicate ProcLockInv(p: Process, i: nat, k: Lock, l: nat) {
    && (LkOf(p.pc) == Some(l) <==> k.spin == Some(i))
    && (l in p.holds <==> k.pid == Pid(i))
    && (Sleepy(p, l) ==> k.locked || k.spin.Some?)
  }

  /**
   Process i has the lock of process j exactly if j says so.  If i has the lk that j sleeps
   on, then i will wake j, or the sleep lock is held.
   */
  ghost predicate PairInv(p: Process, i: nat, q: Process, j: nat, locks: seq<Lock>)
    requires PcBelow(p.pc, |locks|)
  {
    PairLock(p, i, q, j) && PairWake(p, q, j, locks)
  }

  ghost predicate PairLock(p: Process, i: nat, q: Process, j: nat) {
    PLockOf(i, p.pc) == Some(j) <==> q.lock == Some(Proc(i))
  }

  ghost predicate PairWake(p: Process, q: Process, j: nat, locks: seq<Lock>)
    requires PcBelow(p.pc, |locks|)
  {
    LkOf(p.pc).Some? && Sleepy(q, p.pc.l) ==> WillWake(p.pc, j) || locks[p.pc.l].locked
  }

  ghost predicate Inv(s: State) {
    && (forall i :: 0 <= i < |s.procs| ==> ProcInv(s.procs[i], i, |s.procs|, |s.locks|))
    && (forall l :: 0 <= l < |s.locks| ==> LockInv(s.locks[l], |s.procs|))
    && (forall i, l :: 0 <= i < |s.procs| && 0 <= l < |s.locks| ==> ProcLockInv(s.procs[i], i, s.locks[l], l))
    && (forall i, j :: 0 <= i < |s.procs| && 0 <= j < |s.procs| ==> PairInv(s.procs[i], i, s.procs[j], j, s.locks))
  }

  /** The process that a step belongs to, and the lock it is about (any, if none). */
  function Actor(a: Step): (i: nat) {
    match a
    case SchedulerReleaseStep(i) => i
    case KillStep(j) => j
    case _ => a.i
  }

  function About(a: Step): (l: nat) {
    match a
    case SchedulerReleaseStep(_) => 0
    case KillStep(_) => 0
    case _ => a.l
  }

  predicate IsWake(a: Step) {
    a.WakeNextStep? || a.WakeOneStep? || a.WakeReleaseStep?
  }

  // The invariant about two processes, and about a process and a lock.

  ghost predicate LockFacts(s: State, i: nat, j: nat) {
    && i < |s.procs| && j < |s.procs|
    && ProcInv(s.procs[i], i, |s.procs|, |s.locks|)
    && ProcInv(s.procs[j], j, |s.procs|, |s.locks|)
    && PairLock(s.procs[i], i, s.procs[j], j)
    && PairLock(s.procs[j], j, s.procs[i], i)
    && PairLock(s.procs[i], i, s.procs[i], i)
    && PairLock(s.procs[j], j, s.procs[j], j)
  }

  ghost predicate LkFacts(s: State, i: nat, l: nat) {
    && i < |s.procs|
    && (l < |s.locks| ==> LockInv(s.locks[l], |s.procs|) && ProcLockInv(s.procs[i], i, s.locks[l], l))
  }

  ghost predicate Woken(s: State, i: nat, j: nat) {
    && i < |s.procs| && j < |s.procs|
    && PcBelow(s.procs[i].pc, |s.locks|) && PairWake(s.procs[i], s.procs[j], j, s.locks)
  }

  lemma StepProcWake(s: State, t: State, a: Step, i: nat)
    requires NextStep(s, t, a) && IsWake(a) && LockFacts(s, i, Actor(a))
    ensures |t.procs| == |s.procs| && |t.locks| == |s.locks|
    ensures ProcInv(t.procs[i], i, |t.procs|, |t.locks|)
  {
    hide PairWake, LockInv, ProcLockInv;
  }

  lemma StepProcOther(s: State, t: State, a: Step, i: nat)
    requires NextStep(s, t, a) && !IsWake(a) && LockFacts(s, i, Actor(a))
    ensures |t.procs| == |s.procs| && |t.locks| == |s.locks|
    ensures ProcInv(t.procs[i], i, |t.procs|, |t.locks|)
  {
    hide PairWake, LockInv, ProcLockInv;
  }

  lemma StepProc(s: State, t: State, a: Step, i: nat)
    requires NextStep(s, t, a) && LockFacts(s, i, Actor(a))
    ensures |t.procs| == |s.procs| && |t.locks| == |s.locks|
    ensures ProcInv(t.procs[i], i, |t.procs|, |t.locks|)
  {
    hide NextStep, ProcInv, PairLock;
    if IsWake(a) {
      StepProcWake(s, t, a, i);
    } else {
      StepProcOther(s, t, a, i);
    }
  }

  lemma StepLock(s: State, t: State, a: Step, l: nat)
    requires NextStep(s, t, a) && LkFacts(s, Actor(a), l) && l < |s.locks|
    ensures |t.procs| == |s.procs| && |t.locks| == |s.locks|
    ensures LockInv(t.locks[l], |t.procs|)
  {
  }

  lemma StepProcLockWake(s: State, t: State, a: Step, i: nat, l: nat)
    requires NextStep(s, t, a) && IsWake(a) && LkFacts(s, i, l) && LkFacts(s, Actor(a), l) && Woken(s, Actor(a), i)
    requires l < |s.locks| && ProcInv(s.procs[Actor(a)], Actor(a), |s.procs|, |s.locks|)
    ensures |t.procs| == |s.procs| && |t.locks| == |s.locks|
    ensures ProcLockInv(t.procs[i], i, t.locks[l], l)
  {
    hide PLockOf, StateInv;
  }

  lemma StepProcLockOther(s: State, t: State, a: Step, i: nat, l: nat)
    requires NextStep(s, t, a) && !IsWake(a) && LkFacts(s, i, l) && LkFacts(s, Actor(a), l) && Woken(s, Actor(a), i)
    requires l < |s.locks| && ProcInv(s.procs[Actor(a)], Actor(a), |s.procs|, |s.locks|)
    ensures |t.procs| == |s.procs| && |t.locks| == |s.locks|
    ensures ProcLockInv(t.procs[i], i, t.locks[l], l)
  {
    hide PLockOf, StateInv;
  }

  lemma StepProcLock(s: State, t: State, a: Step, i: nat, l: nat)
    requires NextStep(s, t, a) && LkFacts(s, i, l) && LkFacts(s, Actor(a), l) && Woken(s, Actor(a), i)
    requires l < |s.locks| && ProcInv(s.procs[Actor(a)], Actor(a), |s.procs|, |s.locks|)
    ensures |t.procs| == |s.procs| && |t.locks| == |s.locks|
    ensures ProcLockInv(t.procs[i], i, t.locks[l], l)
  {
    hide NextStep, ProcLockInv;
    if IsWake(a) {
      StepProcLockWake(s, t, a, i, l);
    } else {
      StepProcLockOther(s, t, a, i, l);
    }
  }

  lemma StepPairLockWake(s: State, t: State, a: Step, i: nat, j: nat)
    requires NextStep(s, t, a) && IsWake(a)
    requires LockFacts(s, i, Actor(a)) && LockFacts(s, j, Actor(a)) && LockFacts(s, i, j)
    ensures |t.procs| == |s.procs|
    ensures PairLock(t.procs[i], i, t.procs[j], j)
  {
    hide StateInv;
  }

  lemma StepPairLockOther(s: State, t: State, a: Step, i: nat, j: nat)
    requires NextStep(s, t, a) && !IsWake(a)
    requires LockFacts(s, i, Actor(a)) && LockFacts(s, j, Actor(a)) && LockFacts(s, i, j)
    ensures |t.procs| == |s.procs|
    ensures PairLock(t.procs[i], i, t.procs[j], j)
  {
    hide StateInv;
  }

  lemma StepPairLock(s: State, t: State, a: Step, i: nat, j: nat)
    requires NextStep(s, t, a)
    requires LockFacts(s, i, Actor(a)) && LockFacts(s, j, Actor(a)) && LockFacts(s, i, j)
    ensures |t.procs| == |s.procs|
    ensures PairLock(t.procs[i], i, t.procs[j], j)
  {
    hide NextStep, ProcInv, PairLock;
    if IsWake(a) {
      StepPairLockWake(s, t, a, i, j);
    } else {
      StepPairLockOther(s, t, a, i, j);
    }
  }

  lemma StepPairWake(s: State, t: State, a: Step, i: nat, j: nat)
    requires NextStep(s, t, a) && !IsWake(a)
    requires LkFacts(s, i, About(a)) && LkFacts(s, j, About(a)) && LkFacts(s, Actor(a), About(a))
    requires Woken(s, i, j) && Woken(s, Actor(a), j)
    ensures |t.procs| == |s.procs|
    ensures Woken(t, i, j)
  {
    hide PLockOf, ProcInv;
  }

  lemma StepWakeNext(s: State, t: State, a: Step, i: nat, j: nat)
    requires NextStep(s, t, a) && a.WakeNextStep?
    requires LockFacts(s, j, Actor(a))
    requires LkFacts(s, i, About(a)) && LkFacts(s, j, About(a)) && LkFacts(s, Actor(a), About(a))
    requires Woken(s, i, j) && Woken(s, Actor(a), j)
    ensures |t.procs| == |s.procs|
    ensures Woken(t, i, j)
  {
  }

  lemma StepWakeOne(s: State, t: State, a: Step, i: nat, j: nat)
    requires NextStep(s, t, a) && a.WakeOneStep?
    requires LockFacts(s, j, Actor(a))
    requires LkFacts(s, i, About(a)) && LkFacts(s, j, About(a)) && LkFacts(s, Actor(a), About(a))
    requires Woken(s, i, j) && Woken(s, Actor(a), j)
    ensures |t.procs| == |s.procs|
    ensures Woken(t, i, j)
  {
  }

  lemma StepWakeRelease(s: State, t: State, a: Step, i: nat, j: nat)
    requires NextStep(s, t, a) && a.WakeReleaseStep?
    requires LockFacts(s, j, Actor(a))
    requires LkFacts(s, i, About(a)) && LkFacts(s, j, About(a)) && LkFacts(s, Actor(a), About(a))
    requires Woken(s, i, j) && Woken(s, Actor(a), j)
    ensures |t.procs| == |s.procs|
    ensures Woken(t, i, j)
  {
  }

  /** The same for the loop of wakeup: where process j leaves WillWake, it has left Sleepy. */
  lemma StepWakeLoop(s: State, t: State, a: Step, i: nat, j: nat)
    requires NextStep(s, t, a) && IsWake(a)
    requires LockFacts(s, j, Actor(a))
    requires LkFacts(s, i, About(a)) && LkFacts(s, j, About(a)) && LkFacts(s, Actor(a), About(a))
    requires Woken(s, i, j) && Woken(s, Actor(a), j)
    ensures |t.procs| == |s.procs|
    ensures Woken(t, i, j)
  {
    hide NextStep, LockFacts, LkFacts, Woken;
    if a.WakeNextStep? {
      StepWakeNext(s, t, a, i, j);
    } else if a.WakeOneStep? {
      StepWakeOne(s, t, a, i, j);
    } else {
      StepWakeRelease(s, t, a, i, j);
    }
  }

  lemma FactsOf(s: State, i: nat, j: nat, l: nat)
    requires Inv(s) && i < |s.procs| && j < |s.procs|
    ensures LockFacts(s, i, j) && LkFacts(s, i, l) && LkFacts(s, j, l) && Woken(s, i, j) && Woken(s, j, i)
  {
    assert PairInv(s.procs[i], i, s.procs[j], j, s.locks);
    assert PairInv(s.procs[j], j, s.procs[i], i, s.locks);
    assert PairInv(s.procs[i], i, s.procs[i], i, s.locks);
    assert PairInv(s.procs[j], j, s.procs[j], j, s.locks);
  }

  lemma NextPair(s: State, t: State, a: Step, i: nat, j: nat)
    requires Inv(s) && NextStep(s, t, a) && i < |s.procs| && j < |s.procs| && Actor(a) < |s.procs|
    ensures |t.procs| == |s.procs| && |t.locks| == |s.locks|
    ensures PcBelow(t.procs[i].pc, |t.locks|) && PairInv(t.procs[i], i, t.procs[j], j, t.locks)
  {
    hide NextStep, Inv, LockFacts, LkFacts, PairLock, PairWake;
    FactsOf(s, i, j, About(a));
    FactsOf(s, i, Actor(a), About(a));
    FactsOf(s, j, Actor(a), About(a));
    StepProc(s, t, a, i);
    StepPairLock(s, t, a, i, j);
    if IsWake(a) {
      StepWakeLoop(s, t, a, i, j);
    } else {
      StepPairWake(s, t, a, i, j);
    }
  }

  lemma ActorExists(s: State, t: State, a: Step)
    requires NextStep(s, t, a)
    ensures Actor(a) < |s.procs| && |t.procs| == |s.procs| && |t.locks| == |s.locks|
  {
  }

  /** Every step keeps the invariant. */
  lemma NextInv(s: State, t: State)
    requires Inv(s) && Next(s, t)
    ensures Inv(t)
  {
    hide NextStep, Inv, ProcInv, LockInv, ProcLockInv, PairInv, LockFacts, LkFacts;
    var a :| NextStep(s, t, a);
    ActorExists(s, t, a);
    forall i | 0 <= i < |t.procs| ensures ProcInv(t.procs[i], i, |t.procs|, |t.locks|) {
      FactsOf(s, i, Actor(a), About(a));
      StepProc(s, t, a, i);
    }
    forall l | 0 <= l < |t.locks| ensures LockInv(t.locks[l], |t.procs|) {
      FactsOf(s, Actor(a), Actor(a), l);
      StepLock(s, t, a, l);
    }
    forall i, l | 0 <= i < |t.procs| && 0 <= l < |t.locks| ensures ProcLockInv(t.procs[i], i, t.locks[l], l) {
      FactsOf(s, i, Actor(a), l);
      StepProcLock(s, t, a, i, l);
    }
    forall i, j | 0 <= i < |t.procs| && 0 <= j < |t.procs|
      ensures PcBelow(t.procs[i].pc, |t.locks|) && PairInv(t.procs[i], i, t.procs[j], j, t.locks)
    {
      NextPair(s, t, a, i, j);
    }
    InvIntro(t);
  }

  lemma InvIntro(s: State)
    requires forall i :: 0 <= i < |s.procs| ==> ProcInv(s.procs[i], i, |s.procs|, |s.locks|)
    requires forall l :: 0 <= l < |s.locks| ==> LockInv(s.locks[l], |s.procs|)
    requires forall i, l :: 0 <= i < |s.procs| && 0 <= l < |s.locks| ==> ProcLockInv(s.procs[i], i, s.locks[l], l)
    requires forall i, j :: 0 <= i < |s.procs| && 0 <= j < |s.procs| ==>
                              PcBelow(s.procs[i].pc, |s.locks|) && PairInv(s.procs[i], i, s.procs[j], j, s.locks)
    ensures Inv(s)
  {
  }

  // ----- whole runs -----

  ghost predicate Run(run: seq<State>) {
    && |run| > 0 && Init(run[0])
    && forall k :: 0 <= k < |run| - 1 ==> Next(run[k], run[k + 1])
  }

  lemma {:induction false} RunInv(run: seq<State>, k: nat)
    requires Run(run) && k < |run|
    ensures Inv(run[k])
  {
    if k > 0 {
      RunInv(run, k - 1);
      assert Next(run[k - 1], run[k - 1 + 1]);
      NextInv(run[k - 1], run[k]);
    }
  }

  /** The value of holdingsleep(l) in process i. */
  predicate HoldingSleep(s: State, i: nat, l: nat)
    requires l < |s.locks|
  {
    s.locks[l].locked && s.locks[l].pid == Pid(i)
  }

  /**
   No wakeup is lost: whenever a sleep lock is free and nobody is inside its critical section,
   no process sleeps on it or is on its way to sleep on it, at any point of any run.
   */
  lemma NoLostWakeup(run: seq<State>, k: nat, i: nat, l: nat)
    requires Run(run) && k < |run| && i < |run[k].procs| && l < |run[k].locks|
    requires run[k].locks[l].spin == None && !run[k].locks[l].locked
    ensures !Sleepy(run[k].procs[i], l)
    ensures run[k].procs[i].state == SLEEPING ==> run[k].procs[i].chan != Some(l)
  {
    RunInv(run, k);
    FactsOf(run[k], i, i, l);
  }

  /**
   A sleeper is never forgotten: while a process sleeps on l, some process holds l, or the one
   that has released it is in wakeup and has yet to reach the sleeper.
   */
  lemma SleeperHasWaker(run: seq<State>, k: nat, i: nat, l: nat)
    requires Run(run) && k < |run| && i < |run[k].procs| && l < |run[k].locks|
    requires run[k].procs[i].state == SLEEPING && run[k].procs[i].chan == Some(l)
    ensures (exists h :: 0 <= h < |run[k].procs| && l in run[k].procs[h].holds)
            || (run[k].locks[l].spin.Some? && run[k].locks[l].spin.value < |run[k].procs|
                && WillWake(run[k].procs[run[k].locks[l].spin.value].pc, i))
  {
    var s := run[k];
    RunInv(run, k);
    FactsOf(s, i, i, l);
    if s.locks[l].locked {
      var h := s.locks[l].pid - 1;
      FactsOf(s, h, i, l);
      assert l in s.procs[h].holds;
    } else {
      FactsOf(s, s.locks[l].spin.value, i, l);
    }
  }

  /** At most one process holds a sleep lock, and holdingsleep tells it so. */
  lemma MutualExclusion(run: seq<State>, k: nat, i: nat, j: nat, l: nat)
    requires Run(run) && k < |run| && i < |run[k].procs| && j < |run[k].procs| && l < |run[k].locks|
    ensures l in run[k].procs[i].holds && l in run[k].procs[j].holds ==> i == j
    ensures HoldingSleep(run[k], i, l) <==> l in run[k].procs[i].holds
  {
    RunInv(run, k);
    FactsOf(run[k], i, j, l);
  }
}
