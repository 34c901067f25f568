/**
 fork, exit, reparent, wait, freeproc and kill of kernel/proc.c as an interleaving of steps over
 the process table, its locks and wait_lock.  A process can be preempted wherever it holds no
 spinlock, and can sleep on channels other than those of wait().
 */
module ExitWait {
  import opened Options

  datatype RunState = UNUSED | USED | SLEEPING | RUNNABLE | RUNNING | ZOMBIE

  datatype Chan = NoChan | ProcChan(i: nat) | OtherChan

  datatype Owner = Proc(i: nat) | Scheduler

  datatype Pc =
    | Free                       // the slot is not in use
    | Embryo                     // allocated by fork, not yet runnable
    | Out                        // in none of the calls below
    // fork(), for slot j
    | ForkInit(j: nat)           // holds the lock of j: copies memory and files
    | ForkWant(j: nat)           // acquire(&wait_lock)
    | ForkSet(j: nat)            // holds wait_lock: sets the parent, release
    | ForkLock(j: nat)           // acquire(&np->lock)
    | ForkRun(j: nat)            // holds the lock of j: RUNNABLE, release
    // exit(status); k is the next slot for reparent, ch the channel wakeup is called with
    | ExitWant(status: int)
    | ExitScan(status: int, k: nat)
    | ExitWake(status: int, k: nat, last: bool, ch: Chan, w: nat)
    | ExitWakeHold(status: int, k: nat, last: bool, ch: Chan, w: nat)
    | ExitLock(status: int)      // acquire(&p->lock)
    | ExitMark(status: int)      // sets xstate and ZOMBIE
    | ExitDrop                   // release(&wait_lock)
    | ExitSwitch                 // sched()
    | Gone                       // off its stack for good
    // wait(); k is the slot the scan is at
    | WaitWant                   // acquire(&wait_lock)
    | WaitScan(k: nat, have: bool)
    | WaitHold(k: nat)           // holds wait_lock and the lock of child k
    | WaitPut(k: nat)            // releases the lock of child k
    | WaitDone                   // releases wait_lock
    | WaitKilled                 // tests killed(p)
    | WaitSleep                  // sleep(p, &wait_lock): acquire(&p->lock)
    | WaitDrop                   // release(&wait_lock)
    | WaitMark                   // sets chan and SLEEPING
    | WaitSwitch                 // sched()
    | WaitOff                    // switched out
    | WaitTidy                   // chan = 0, release(&p->lock)

  datatype Process = Process(
    pc: Pc, state: RunState, parent: Option<nat>, pid: nat, chan: Chan, killed: bool, xstate: int, lock: Option<Owner>)

  /** A process that has exited: with which status, and in which slot. */
  datatype Exit = Exit(status: int, slot: nat)

  /** exited and freed record every process that became ZOMBIE, and how often wait() has freed it. */
  datatype Shared = Shared(waitLock: Option<nat>, nextpid: nat, exited: map<nat, Exit>, freed: multiset<nat>)

  datatype State = State(procs: seq<Process>, sh: Shared)

  const INIT: nat := 0

  // ----- steps -----

  /** freeproc(): everything but the lock is reset. */
  function Freed(p: Process): (q: Process) {
    Process(Free, UNUSED, None, 0, NoChan, false, 0, p.lock)
  }

  /** Points of a process that is on its own stack and holds no spinlock. */
  predicate Preemptible(pc: Pc) {
    pc.Out? || pc.ForkWant? || pc.ForkLock? || pc.ExitWant? || pc.WaitWant?
  }

  /** The channel that exit() wakes for its own parent. */
  function ParentChan(p: Process): (ch: Chan) {
    if p.parent.Some? then ProcChan(p.parent.value) else NoChan
  }

  /** Steps of process i (or of the scheduler or kill() on it); those with j also lock or read slot j. */
  datatype Step =
    | Preempt(i: nat) | Resume(i: nat) | SleepElsewhere(i: nat) | WakeElsewhere(i: nat) | Kill(i: nat)
    | SchedulerRelease(i: nat)
    | ForkAlloc(i: nat, j: nat) | ForkFail(i: nat, j: nat) | ForkRelease(i: nat, j: nat) | ForkTake(i: nat)
    | ForkParent(i: nat, j: nat) | ForkRelock(i: nat, j: nat) | ForkGo(i: nat, j: nat)
    | ExitStart(i: nat, status: int) | ExitTake(i: nat) | ExitChild(i: nat, j: nat) | ExitSkip(i: nat, j: nat)
    | ExitSelf(i: nat) | ExitScanned(i: nat) | WakeSelf(i: nat) | WakeDone(i: nat)
    | WakeLock(i: nat, j: nat) | WakeOne(i: nat, j: nat)
    | ExitOwn(i: nat) | ExitZombie(i: nat) | ExitRelease(i: nat) | ExitSched(i: nat)
    | WaitStart(i: nat) | WaitTake(i: nat) | WaitSkip(i: nat, j: nat) | WaitSelf(i: nat) | WaitScanned(i: nat)
    | WaitChild(i: nat, j: nat) | WaitLook(i: nat, j: nat) | WaitCopyFail(i: nat, j: nat) | WaitReap(i: nat, j: nat)
    | WaitUnlock(i: nat, j: nat) | WaitReturn(i: nat) | WaitTest(i: nat) | WaitOwn(i: nat) | WaitRelease(i: nat)
    | WaitSet(i: nat) | WaitSched(i: nat) | WaitDispatch(i: nat) | WaitAgain(i: nat)

  predicate IsDuo(a: Step) {
    || a.ForkAlloc? || a.ForkFail? || a.ForkRelease? || a.ForkParent? || a.ForkRelock? || a.ForkGo?
    || a.ExitChild? || a.ExitSkip? || a.WakeLock? || a.WakeOne?
    || a.WaitSkip? || a.WaitChild? || a.WaitLook? || a.WaitCopyFail? || a.WaitReap? || a.WaitUnlock?
  }

  // A step on slot i alone, in a table of n slots: its entry p becomes p1, and sh becomes sh1.

  /** Interrupts, the scheduler, kill(), and sleeping on other channels. */
  ghost predicate SchedStep(a: Step, n: nat, p: Process, sh: Shared, p1: Process, sh1: Shared) {
    match a
    case Preempt(_) =>
      Preemptible(p.pc) && p.state == RUNNING && p.lock == None && p1 == p.(state := RUNNABLE) && sh1 == sh
    case Resume(_) =>
      Preemptible(p.pc) && p.state == RUNNABLE && p.lock == None && p1 == p.(state := RUNNING) && sh1 == sh
    case SleepElsewhere(_) =>
      p.pc.Out? && p.state == RUNNING && p.lock == None && p1 == p.(state := SLEEPING, chan := OtherChan) && sh1 == sh
    case WakeElsewhere(_) =>
      p.state == SLEEPING && p.chan == OtherChan && p.lock == None
      && p1 == p.(state := RUNNABLE, chan := NoChan) && sh1 == sh
    case Kill(_) =>
      p.lock == None && sh1 == sh
      && p1 == p.(killed := true, state := if p.state == SLEEPING then RUNNABLE else p.state)
    case SchedulerRelease(_) => p.lock == Some(Scheduler) && p1 == p.(lock := None) && sh1 == sh
    case WaitSched(_) => p.pc.WaitSwitch? && p1 == p.(pc := WaitOff, lock := Some(Scheduler)) && sh1 == sh
    case WaitDispatch(i) =>
      && p.pc.WaitOff? && p.state == RUNNABLE && p.lock == None && sh1 == sh
      && p1 == p.(pc := WaitTidy, state := RUNNING, lock := Some(Proc(i)))
    case WaitAgain(_) => p.pc.WaitTidy? && p1 == p.(pc := WaitWant, chan := NoChan, lock := None) && sh1 == sh
    case _ => false
  }

  /** exit() and the parts of reparent() and wakeup() that involve no other slot; and fork() taking wait_lock. */
  ghost predicate ExitStep(a: Step, n: nat, p: Process, sh: Shared, p1: Process, sh1: Shared) {
    match a
    case ExitStart(i, status) =>            // initproc panics instead
      p.pc.Out? && p.state == RUNNING && i != INIT && p1 == p.(pc := ExitWant(status)) && sh1 == sh
    case ExitTake(i) =>
      p.pc.ExitWant? && p.state == RUNNING && p1 == p.(pc := ExitScan(p.pc.status, 0)) && Acquired(i, sh, sh1)
    case ExitSelf(i) =>                     // reparent() at the caller's own slot
      p.pc.ExitScan? && p.pc.k == i && p.parent != Some(i) && p1 == p.(pc := ExitScan(p.pc.status, i + 1)) && sh1 == sh
    case ExitScanned(_) =>                  // the end of reparent()
      p.pc.ExitScan? && p.pc.k == n && p1 == p.(pc := ExitWake(p.pc.status, n, true, ParentChan(p), 0)) && sh1 == sh
    case WakeSelf(i) =>                     // wakeup() passes over its caller
      && p.pc.ExitWake? && p.pc.w == i && sh1 == sh
      && p1 == p.(pc := ExitWake(p.pc.status, p.pc.k, p.pc.last, p.pc.ch, i + 1))
    case WakeDone(_) =>
      && p.pc.ExitWake? && p.pc.w == n && sh1 == sh
      && p1 == p.(pc := if p.pc.last then ExitLock(p.pc.status) else ExitScan(p.pc.status, p.pc.k))
    case ExitOwn(i) =>
      p.pc.ExitLock? && p.lock == None && p1 == p.(pc := ExitMark(p.pc.status), lock := Some(Proc(i))) && sh1 == sh
    case ExitZombie(i) =>
      && p.pc.ExitMark? && p1 == p.(pc := ExitDrop, xstate := p.pc.status, state := ZOMBIE)
      && sh1 == sh.(exited := sh.exited[p.pid := Exit(p.pc.status, i)])
    case ExitRelease(_) => p.pc.ExitDrop? && p1 == p.(pc := ExitSwitch) && sh1 == sh.(waitLock := None)
    case ExitSched(_) => p.pc.ExitSwitch? && p1 == p.(pc := Gone, lock := Some(Scheduler)) && sh1 == sh
    case ForkTake(i) => p.pc.ForkWant? && p.state == RUNNING && p1 == p.(pc := ForkSet(p.pc.j)) && Acquired(i, sh, sh1)
    case _ => false
  }

  /** wait() and its sleep(). */
  ghost predicate WaitStep(a: Step, n: nat, p: Process, sh: Shared, p1: Process, sh1: Shared) {
    match a
    case WaitStart(_) => p.pc.Out? && p.state == RUNNING && p1 == p.(pc := WaitWant) && sh1 == sh
    case WaitTake(i) =>
      p.pc.WaitWant? && p.state == RUNNING && p1 == p.(pc := WaitScan(0, false)) && Acquired(i, sh, sh1)
    case WaitSelf(i) =>
      p.pc.WaitScan? && p.pc.k == i && p.parent != Some(i) && p1 == p.(pc := WaitScan(i + 1, p.pc.have)) && sh1 == sh
    case WaitScanned(_) =>                  // returns -1 if there are no children
      p.pc.WaitScan? && p.pc.k == n && p1 == p.(pc := if p.pc.have then WaitKilled else WaitDone) && sh1 == sh
    case WaitReturn(_) => p.pc.WaitDone? && p1 == p.(pc := Out) && sh1 == sh.(waitLock := None)
    case WaitTest(_) =>
      p.pc.WaitKilled? && p.lock == None && p1 == p.(pc := if p.killed then WaitDone else WaitSleep) && sh1 == sh
    case WaitOwn(i) => p.pc.WaitSleep? && p.lock == None && p1 == p.(pc := WaitDrop, lock := Some(Proc(i))) && sh1 == sh
    case WaitRelease(_) => p.pc.WaitDrop? && p1 == p.(pc := WaitMark) && sh1 == sh.(waitLock := None)
    case WaitSet(i) => p.pc.WaitMark? && p1 == p.(pc := WaitSwitch, chan := ProcChan(i), state := SLEEPING) && sh1 == sh
    case _ => false
  }

  ghost predicate Solo(a: Step, n: nat, p: Process, sh: Shared, p1: Process, sh1: Shared) {
    SchedStep(a, n, p, sh, p1, sh1) || ExitStep(a, n, p, sh, p1, sh1) || WaitStep(a, n, p, sh, p1, sh1)
  }

  ghost predicate Acquired(i: nat, sh: Shared, sh1: Shared) {
    sh.waitLock == None && sh1 == sh.(waitLock := Some(i))
  }

  // A step of process i, at p, that involves another slot j, at q.

  /** fork() and the slot of the new process. */
  ghost predicate ForkDuo(a: Step, p: Process, q: Process, sh: Shared, p1: Process, q1: Process, sh1: Shared) {
    match a
    case ForkAlloc(i, j) =>
      && p.pc.Out? && p.state == RUNNING && q.state == UNUSED && q.lock == None
      && p1 == p.(pc := ForkInit(j))
      && q1 == q.(pc := Embryo, state := USED, pid := sh.nextpid, lock := Some(Proc(i)))
      && sh1 == sh.(nextpid := sh.nextpid + 1)
    case ForkFail(_, j) =>                  // no memory
      p.pc == ForkInit(j) && p1 == p.(pc := Out) && q1 == Freed(q).(lock := None) && sh1 == sh
    case ForkRelease(_, j) => p.pc == ForkInit(j) && p1 == p.(pc := ForkWant(j)) && q1 == q.(lock := None) && sh1 == sh
    case ForkParent(i, j) =>
      p.pc == ForkSet(j) && p1 == p.(pc := ForkLock(j)) && q1 == q.(parent := Some(i)) && sh1 == sh.(waitLock := None)
    case ForkRelock(i, j) =>
      && p.pc == ForkLock(j) && p.state == RUNNING && q.lock == None && sh1 == sh
      && p1 == p.(pc := ForkRun(j)) && q1 == q.(lock := Some(Proc(i)))
    case ForkGo(_, j) =>
      p.pc == ForkRun(j) && p1 == p.(pc := Out) && q1 == q.(pc := Out, state := RUNNABLE, lock := None) && sh1 == sh
    case _ => false
  }

  /** exit() at one slot of reparent() or wakeup(). */
  ghost predicate ExitDuo(a: Step, p: Process, q: Process, sh: Shared, p1: Process, q1: Process, sh1: Shared) {
    match a
    case ExitChild(i, j) =>                 // reparent() at a child
      && p.pc.ExitScan? && p.pc.k == j && q.parent == Some(i) && sh1 == sh
      && p1 == p.(pc := ExitWake(p.pc.status, j + 1, false, ProcChan(INIT), 0)) && q1 == q.(parent := Some(INIT))
    case ExitSkip(i, j) =>                  // reparent() at another process
      && p.pc.ExitScan? && p.pc.k == j && q.parent != Some(i) && sh1 == sh
      && p1 == p.(pc := ExitScan(p.pc.status, j + 1)) && q1 == q
    case WakeLock(i, j) =>
      && p.pc.ExitWake? && p.pc.w == j && q.lock == None && sh1 == sh
      && p1 == p.(pc := ExitWakeHold(p.pc.status, p.pc.k, p.pc.last, p.pc.ch, j)) && q1 == q.(lock := Some(Proc(i)))
    case WakeOne(_, j) =>
      && p.pc.ExitWakeHold? && p.pc.w == j && sh1 == sh
      && p1 == p.(pc := ExitWake(p.pc.status, p.pc.k, p.pc.last, p.pc.ch, j + 1))
      && q1 == q.(lock := None, state := if q.state == SLEEPING && q.chan == p.pc.ch then RUNNABLE else q.state)
    case _ => false
  }

  /** wait() at one slot of its scan. */
  ghost predicate WaitDuo(a: Step, p: Process, q: Process, sh: Shared, p1: Process, q1: Process, sh1: Shared) {
    match a
    case WaitSkip(i, j) =>
      && p.pc.WaitScan? && p.pc.k == j && q.parent != Some(i) && sh1 == sh
      && p1 == p.(pc := WaitScan(j + 1, p.pc.have)) && q1 == q
    case WaitChild(i, j) =>
      && p.pc.WaitScan? && p.pc.k == j && q.parent == Some(i) && q.lock == None && sh1 == sh
      && p1 == p.(pc := WaitHold(j)) && q1 == q.(lock := Some(Proc(i)))
    case WaitLook(_, j) =>
      && p.pc == WaitHold(j) && q.state != ZOMBIE && sh1 == sh
      && p1 == p.(pc := WaitScan(j + 1, true)) && q1 == q.(lock := None)
    case WaitCopyFail(_, j) =>              // copyout() of xstate fails: the child stays a ZOMBIE
      p.pc == WaitHold(j) && q.state == ZOMBIE && p1 == p.(pc := WaitPut(j)) && q1 == q && sh1 == sh
    case WaitReap(_, j) =>
      && p.pc == WaitHold(j) && q.state == ZOMBIE && p1 == p.(pc := WaitPut(j)) && q1 == Freed(q)
      && sh1 == sh.(freed := sh.freed + multiset{q.pid})
    case WaitUnlock(_, j) => p.pc == WaitPut(j) && p1 == p.(pc := WaitDone) && q1 == q.(lock := None) && sh1 == sh
    case _ => false
  }

  ghost predicate Duo(a: Step, p: Process, q: Process, sh: Shared, p1: Process, q1: Process, sh1: Shared) {
    ForkDuo(a, p, q, sh, p1, q1, sh1) || ExitDuo(a, p, q, sh, p1, q1, sh1) || WaitDuo(a, p, q, sh, p1, q1, sh1)
  }

  ghost predicate NextStep(s: State, t: State, a: Step) {
    && a.i < |s.procs| && |t.procs| == |s.procs|
    && if IsDuo(a) then
         && a.j < |s.procs| && a.j != a.i
         && t.procs == s.procs[a.i := t.procs[a.i]][a.j := t.procs[a.j]]
         && Duo(a, s.procs[a.i], s.procs[a.j], s.sh, t.procs[a.i], t.procs[a.j], t.sh)
       else
         && t.procs == s.procs[a.i := t.procs[a.i]]
         && Solo(a, |s.procs|, s.procs[a.i], s.sh, t.procs[a.i], t.sh)
  }

  ghost predicate Next(s: State, t: State) {
    exists a :: NextStep(s, t, a)
  }

  /** Only the first process exists. */
  ghost predicate Init(s: State) {
    && INIT < |s.procs|
    && s.procs[INIT] == Process(Out, RUNNABLE, None, 1, NoChan, false, 0, None)
    && (forall i :: 0 < i < |s.procs| ==> s.procs[i] == Process(Free, UNUSED, None, 0, NoChan, false, 0, None))
    && s.sh == Shared(None, 2, map[], multiset{})
  }

  // ----- the invariant -----

  /** pc is inside a critical section of wait_lock. */
  predicate HasWaitLock(pc: Pc) {
    || pc.ForkSet? || pc.ExitScan? || pc.ExitWake? || pc.ExitWakeHold? || pc.ExitLock? || pc.ExitMark? || pc.ExitDrop?
    || pc.WaitScan? || pc.WaitHold? || pc.WaitPut? || pc.WaitDone? || pc.WaitKilled? || pc.WaitSleep? || pc.WaitDrop?
  }

  /** The slot whose lock process i holds at pc. */
  function LockOf(i: nat, pc: Pc): (r: Option<nat>) {
    match pc
    case ForkInit(j) => Some(j)
    case ForkRun(j) => Some(j)
    case ExitWakeHold(_, _, _, _, w) => Some(w)
    case ExitMark(_) => Some(i)
    case ExitDrop => Some(i)
    case ExitSwitch => Some(i)
    case WaitHold(k) => Some(k)
    case WaitPut(k) => Some(k)
    case WaitDrop => Some(i)
    case WaitMark => Some(i)
    case WaitSwitch => Some(i)
    case WaitTidy => Some(i)
    case _ => None
  }

  /** The slot that a process at pc is forking into. */
  function ForkOf(pc: Pc): (r: Option<nat>) {
    match pc
    case ForkInit(j) => Some(j)
    case ForkWant(j) => Some(j)
    case ForkSet(j) => Some(j)
    case ForkLock(j) => Some(j)
    case ForkRun(j) => Some(j)
    case _ => None
  }

  /** The run states that a process can have at its program counter. */
  predicate StateOk(p: Process) {
    match p.pc
    case Free => p.state == UNUSED
    case Embryo => p.state == USED
    case Out => p.state == RUNNING || p.state == RUNNABLE || (p.state == SLEEPING && p.chan == OtherChan)
    case WaitOff => (p.state == SLEEPING || p.state == RUNNABLE) && p.chan.ProcChan?
    case WaitSwitch => p.state == SLEEPING && p.chan.ProcChan?
    case ExitDrop => p.state == ZOMBIE
    case ExitSwitch => p.state == ZOMBIE
    case Gone => p.state == ZOMBIE
    case _ => p.state == RUNNING || (p.state == RUNNABLE && Preemptible(p.pc))
  }

  /** The first slot in which a process at pc can still have a child. */
  function KidsFrom(pc: Pc, n: nat): (k: nat) {
    match pc
    case Free => n
    case Embryo => n
    case ExitScan(_, k) => k
    case ExitWake(_, k, last, _, _) => if last then n else k
    case ExitWakeHold(_, k, last, _, _) => if last then n else k
    case ExitLock(_) => n
    case ExitMark(_) => n
    case ExitDrop => n
    case ExitSwitch => n
    case Gone => n
    case _ => 0
  }

  predicate Exiting(pc: Pc) {
    || pc.ExitWant? || pc.ExitScan? || pc.ExitWake? || pc.ExitWakeHold? || pc.ExitLock? || pc.ExitMark?
    || pc.ExitDrop? || pc.ExitSwitch? || pc.Gone?
  }

  /** Process i has found no ZOMBIE child, and is asleep in wait() or on its way to sleep. */
  predicate Drowsy(p: Process) {
    || p.pc.WaitSleep? || p.pc.WaitDrop? || p.pc.WaitMark? || p.pc.WaitSwitch?
    || (p.pc.WaitOff? && p.state == SLEEPING)
  }

  /** A process at pc is in wakeup() for process q and has yet to deal with it. */
  predicate WillWake(pc: Pc, q: nat) {
    (pc.ExitWake? || pc.ExitWakeHold?) && pc.ch == ProcChan(q) && pc.w <= q
  }

  ghost predicate PidOk(p: Process, i: nat, sh: Shared) {
    && (p.state == UNUSED ==> p.pid == 0)
    && (p.state != UNUSED ==> 1 <= p.pid < sh.nextpid)
    && (p.state != UNUSED ==> sh.freed[p.pid] == 0)
    && (p.state == ZOMBIE ==> p.pid in sh.exited && sh.exited[p.pid] == Exit(p.xstate, i))
    && (p.state != ZOMBIE ==> p.pid !in sh.exited)
  }

  /** What wakeup() is called with, and how far reparent() has gone. */
  predicate WakeArgs(p: Process, n: nat) {
    p.pc.ExitWake? || p.pc.ExitWakeHold? ==>
      p.pc.ch == (if p.pc.last then ParentChan(p) else ProcChan(INIT)) && (p.pc.last ==> p.pc.k >= n)
  }

  ghost predicate ProcInv(p: Process, i: nat, n: nat, sh: Shared) {
    && (HasWaitLock(p.pc) <==> sh.waitLock == Some(i))
    && StateOk(p)
    && (p.pc.WaitOff? || p.pc.WaitSwitch? ==> p.chan == ProcChan(i))
    && (p.lock == Some(Scheduler) ==> p.pc.WaitOff? || p.pc.Gone?)
    && (p.lock.Some? && p.lock.value.Proc? ==> p.lock.value.i < n)
    && (LockOf(i, p.pc).Some? ==> LockOf(i, p.pc).value < n)
    && (ForkOf(p.pc).Some? ==> ForkOf(p.pc).value < n && ForkOf(p.pc).value != i)
    && (p.parent.Some? ==> p.parent.value < n && p.parent.value != i)
    && (p.pc.Free? ==> p.parent == None)
    && (!p.pc.Free? && !p.pc.Embryo? && i != INIT ==> p.parent.Some?)
    && (i == INIT ==> !Exiting(p.pc) && !p.pc.Free? && !p.pc.Embryo? && p.parent == None)
    && WakeArgs(p, n)
  }

  /** Every pid that has exited is a ZOMBIE that has not been freed, or has been freed exactly once. */
  ghost predicate ExitInv(s: State, x: nat) {
    if x !in s.sh.exited then s.sh.freed[x] == 0
    else || s.sh.freed[x] == 1
         || (s.sh.freed[x] == 0 && s.sh.exited[x].slot < |s.procs|
             && s.procs[s.sh.exited[x].slot].pid == x && s.procs[s.sh.exited[x].slot].state == ZOMBIE)
  }

  ghost predicate PairLock(p: Process, i: nat, q: Process, j: nat) {
    LockOf(i, p.pc) == Some(j) <==> q.lock == Some(Proc(i))
  }

  /** Forks have slots of their own, and the parent is set before the child can run. */
  ghost predicate PairFork(p: Process, i: nat, q: Process, j: nat) {
    && (ForkOf(p.pc) == Some(j) ==> q.pc.Embryo?)
    && (ForkOf(p.pc) == Some(j) ==> q.parent == if p.pc.ForkLock? || p.pc.ForkRun? then Some(i) else None)
    && (ForkOf(p.pc).Some? && ForkOf(p.pc) == ForkOf(q.pc) ==> i == j)
    && (p.pid == q.pid && p.pid != 0 ==> i == j)
  }

  /** Parent i and child j: reparent() and the scan of wait() miss nobody, and exit() wakes its parent. */
  ghost predicate PairKids(p: Process, i: nat, q: Process, j: nat, n: nat) {
    q.parent == Some(i) ==>
      && KidsFrom(p.pc, n) <= j
      && (p.pc.WaitScan? && j < p.pc.k ==> p.pc.have && q.state != ZOMBIE)
      && (p.pc.WaitHold? && j < p.pc.k ==> q.state != ZOMBIE)
      && (p.pc.WaitKilled? || p.pc.WaitSleep? || p.pc.WaitDrop? ==> q.state != ZOMBIE)
      && ((q.pc.ExitWake? || q.pc.ExitWakeHold?) && q.pc.last && Drowsy(p) ==> q.pc.w <= i)
      && (q.pc.ExitLock? || q.pc.ExitMark? ==> !Drowsy(p))
  }

  ghost predicate PairHold(p: Process, i: nat, q: Process, j: nat) {
    p.pc == WaitHold(j) ==> q.parent == Some(i)
  }

  /** The pc of the owner of wait_lock (Out if it is free). */
  function Waker(s: State): (pc: Pc) {
    if s.sh.waitLock.Some? && s.sh.waitLock.value < |s.procs| then s.procs[s.sh.waitLock.value].pc else Out
  }

  /** A ZOMBIE q whose parent p, in slot i, is drowsy: the owner of wait_lock will wake the parent. */
  ghost predicate PairZombie(p: Process, i: nat, q: Process, waker: Pc) {
    q.parent == Some(i) && q.state == ZOMBIE && Drowsy(p) ==> WillWake(waker, i)
  }

  /** What holds of each process alone. */
  ghost predicate One(p: Process, i: nat, n: nat, sh: Shared) {
    ProcInv(p, i, n, sh) && PidOk(p, i, sh) && PairLock(p, i, p, i)
  }

  /** What holds of every two different processes. */
  ghost predicate Two(p: Process, i: nat, q: Process, j: nat, n: nat) {
    PairLock(p, i, q, j) && PairFork(p, i, q, j) && PairKids(p, i, q, j, n) && PairHold(p, i, q, j)
  }

  ghost predicate SharedInv(sh: Shared) {
    && 0 < sh.nextpid
    && (forall x :: x in sh.exited ==> 0 < x < sh.nextpid)
    && (forall x :: x in sh.freed ==> x in sh.exited)
  }

  ghost predicate Ones(s: State) {
    && INIT < |s.procs| && SharedInv(s.sh)
    && (s.sh.waitLock.Some? ==> s.sh.waitLock.value < |s.procs|)
    && (forall i :: 0 <= i < |s.procs| ==> One(s.procs[i], i, |s.procs|, s.sh))
  }

  ghost predicate Twos(s: State) {
    forall i, j :: 0 <= i < |s.procs| && 0 <= j < |s.procs| && i != j ==>
                     Two(s.procs[i], i, s.procs[j], j, |s.procs|) && PairZombie(s.procs[i], i, s.procs[j], Waker(s))
  }

  ghost predicate Exits(s: State) {
    forall x: nat :: ExitInv(s, x)
  }

  ghost predicate Inv(s: State) {
    Ones(s) && Twos(s) && Exits(s)
  }

  // ----- every step keeps it -----

  /** A step on slot i frees nobody; it may make p a ZOMBIE, which is then recorded. */
  ghost predicate Exited(i: nat, p: Process, sh: Shared, p1: Process, sh1: Shared) {
    && sh1.freed == sh.freed
    && (p.state == ZOMBIE ==> p1.state == ZOMBIE && p1.pid == p.pid && sh1.exited == sh.exited)
    && (|| sh1.exited == sh.exited
        || (p1.state == ZOMBIE && p1.pid !in sh.exited && sh.freed[p1.pid] == 0
            && sh1.exited == sh.exited[p1.pid := Exit(p1.xstate, i)]))
  }

  /** Of the steps on two slots, only WaitReap ends a ZOMBIE, which is then recorded. */
  ghost predicate Reaped(a: Step, p: Process, q: Process, sh: Shared, p1: Process, q1: Process, sh1: Shared) {
    && sh1.exited == sh.exited
    && (p.state == ZOMBIE ==> p1.state == ZOMBIE && p1.pid == p.pid)
    && if a.WaitReap? then q.state == ZOMBIE && q.pid in sh.exited && sh.freed[q.pid] == 0
                           && sh1.freed == sh.freed + multiset{q.pid}
       else sh1.freed == sh.freed && (q.state == ZOMBIE ==> q1.state == ZOMBIE && q1.pid == q.pid)
  }

  ghost predicate Before(a: Step, n: nat, p: Process, sh: Shared) {
    INIT < n && a.i < n && One(p, a.i, n, sh) && SharedInv(sh)
  }

  ghost predicate Before2(a: Step, n: nat, p: Process, q: Process, sh: Shared) {
    && Before(a, n, p, sh)
    && IsDuo(a) && a.j < n && a.i != a.j && One(q, a.j, n, sh)
    && Both(p, a.i, q, a.j, n)
  }

  ghost predicate Both(p: Process, i: nat, z: Process, x: nat, n: nat) {
    Two(p, i, z, x, n) && Two(z, x, p, i, n)
  }

  lemma SchedSelf(a: Step, n: nat, p: Process, sh: Shared, p1: Process, sh1: Shared)
    requires Before(a, n, p, sh) && SchedStep(a, n, p, sh, p1, sh1)
    ensures PairLock(p1, a.i, p1, a.i)
  {
    hide PidOk, SharedInv, WakeArgs, Exiting;
  }

  lemma SchedState(a: Step, n: nat, p: Process, sh: Shared, p1: Process, sh1: Shared)
    requires Before(a, n, p, sh) && SchedStep(a, n, p, sh, p1, sh1)
    ensures StateOk(p1) && (HasWaitLock(p1.pc) <==> sh1.waitLock == Some(a.i))
  {
    hide PidOk, SharedInv, ForkOf, WakeArgs, Exiting;
  }

  lemma SchedProc(a: Step, n: nat, p: Process, sh: Shared, p1: Process, sh1: Shared)
    requires Before(a, n, p, sh) && SchedStep(a, n, p, sh, p1, sh1)
    ensures ProcInv(p1, a.i, n, sh1) && PairLock(p1, a.i, p1, a.i)
  {
    hide PidOk, SharedInv, HasWaitLock;
    SchedState(a, n, p, sh, p1, sh1);
    SchedSelf(a, n, p, sh, p1, sh1);
  }

  lemma SchedPid(a: Step, n: nat, p: Process, sh: Shared, p1: Process, sh1: Shared)
    requires Before(a, n, p, sh) && SchedStep(a, n, p, sh, p1, sh1)
    ensures PidOk(p1, a.i, sh1) && SharedInv(sh1) && Exited(a.i, p, sh, p1, sh1)
  {
    hide LockOf, ForkOf, HasWaitLock, WakeArgs, Exiting;
  }

  lemma SchedLinksOut(a: Step, n: nat, p: Process, sh: Shared, p1: Process, sh1: Shared, z: Process, x: nat)
    requires Before(a, n, p, sh) && SchedStep(a, n, p, sh, p1, sh1)
    requires x < n && x != a.i && One(z, x, n, sh) && Both(p, a.i, z, x, n)
    ensures PairLock(p1, a.i, z, x) && PairFork(p1, a.i, z, x) && PairHold(p1, a.i, z, x)
  {
    hide PairKids, PidOk, SharedInv, StateOk, WakeArgs, Exiting, HasWaitLock;
  }

  lemma SchedLinksIn(a: Step, n: nat, p: Process, sh: Shared, p1: Process, sh1: Shared, z: Process, x: nat)
    requires Before(a, n, p, sh) && SchedStep(a, n, p, sh, p1, sh1)
    requires x < n && x != a.i && One(z, x, n, sh) && Both(p, a.i, z, x, n)
    ensures PairLock(z, x, p1, a.i) && PairFork(z, x, p1, a.i) && PairHold(z, x, p1, a.i)
  {
    hide PairKids, PidOk, SharedInv, StateOk, WakeArgs, Exiting, HasWaitLock;
  }

  lemma SchedLinks(a: Step, n: nat, p: Process, sh: Shared, p1: Process, sh1: Shared, z: Process, x: nat)
    requires Before(a, n, p, sh) && SchedStep(a, n, p, sh, p1, sh1)
    requires x < n && x != a.i && One(z, x, n, sh) && Both(p, a.i, z, x, n)
    ensures PairLock(p1, a.i, z, x) && PairFork(p1, a.i, z, x) && PairHold(p1, a.i, z, x)
    ensures PairLock(z, x, p1, a.i) && PairFork(z, x, p1, a.i) && PairHold(z, x, p1, a.i)
  {
    hide Before, SchedStep, One, Both, PairLock, PairFork, PairHold;
    SchedLinksOut(a, n, p, sh, p1, sh1, z, x);
    SchedLinksIn(a, n, p, sh, p1, sh1, z, x);
  }

  lemma SchedKidsOut(a: Step, n: nat, p: Process, sh: Shared, p1: Process, sh1: Shared, z: Process, x: nat)
    requires Before(a, n, p, sh) && SchedStep(a, n, p, sh, p1, sh1)
    requires x < n && x != a.i && One(z, x, n, sh) && Both(p, a.i, z, x, n)
    ensures PairKids(p1, a.i, z, x, n)
  {
    hide PairLock, PairFork, PairHold, PidOk, SharedInv, LockOf, ForkOf, WakeArgs, Exiting;
  }

  lemma SchedKidsIn(a: Step, n: nat, p: Process, sh: Shared, p1: Process, sh1: Shared, z: Process, x: nat)
    requires Before(a, n, p, sh) && SchedStep(a, n, p, sh, p1, sh1)
    requires x < n && x != a.i && One(z, x, n, sh) && Both(p, a.i, z, x, n)
    ensures PairKids(z, x, p1, a.i, n)
  {
    hide PairLock, PairFork, PairHold, PidOk, SharedInv, LockOf, ForkOf, WakeArgs, Exiting;
  }

  lemma SchedKids(a: Step, n: nat, p: Process, sh: Shared, p1: Process, sh1: Shared, z: Process, x: nat)
    requires Before(a, n, p, sh) && SchedStep(a, n, p, sh, p1, sh1)
    requires x < n && x != a.i && One(z, x, n, sh) && Both(p, a.i, z, x, n)
    ensures PairKids(p1, a.i, z, x, n) && PairKids(z, x, p1, a.i, n)
  {
    hide Before, SchedStep, One, Both, PairKids;
    SchedKidsOut(a, n, p, sh, p1, sh1, z, x);
    SchedKidsIn(a, n, p, sh, p1, sh1, z, x);
  }

  lemma ExitSelf(a: Step, n: nat, p: Process, sh: Shared, p1: Process, sh1: Shared)
    requires Before(a, n, p, sh) && ExitStep(a, n, p, sh, p1, sh1)
    ensures PairLock(p1, a.i, p1, a.i)
  {
    hide PidOk, SharedInv, WakeArgs, Exiting, StateOk;
  }

  lemma ExitState(a: Step, n: nat, p: Process, sh: Shared, p1: Process, sh1: Shared)
    requires Before(a, n, p, sh) && ExitStep(a, n, p, sh, p1, sh1)
    ensures StateOk(p1) && (HasWaitLock(p1.pc) <==> sh1.waitLock == Some(a.i))
  {
    hide PidOk, SharedInv, ForkOf, WakeArgs, Exiting;
  }

  lemma ExitProc(a: Step, n: nat, p: Process, sh: Shared, p1: Process, sh1: Shared)
    requires Before(a, n, p, sh) && ExitStep(a, n, p, sh, p1, sh1)
    ensures ProcInv(p1, a.i, n, sh1) && PairLock(p1, a.i, p1, a.i)
  {
    hide PidOk, SharedInv, HasWaitLock, StateOk, PairLock;
    ExitState(a, n, p, sh, p1, sh1);
    ExitSelf(a, n, p, sh, p1, sh1);
  }

  lemma ExitPid(a: Step, n: nat, p: Process, sh: Shared, p1: Process, sh1: Shared)
    requires Before(a, n, p, sh) && ExitStep(a, n, p, sh, p1, sh1)
    ensures PidOk(p1, a.i, sh1) && SharedInv(sh1) && Exited(a.i, p, sh, p1, sh1)
  {
    hide LockOf, ForkOf, HasWaitLock, WakeArgs, Exiting;
  }

  lemma ExitLinksOut(a: Step, n: nat, p: Process, sh: Shared, p1: Process, sh1: Shared, z: Process, x: nat)
    requires Before(a, n, p, sh) && ExitStep(a, n, p, sh, p1, sh1)
    requires x < n && x != a.i && One(z, x, n, sh) && Both(p, a.i, z, x, n)
    ensures PairLock(p1, a.i, z, x) && PairFork(p1, a.i, z, x) && PairHold(p1, a.i, z, x)
  {
    hide PairKids, PidOk, SharedInv, StateOk, WakeArgs, Exiting, HasWaitLock;
  }

  lemma ExitLinksIn(a: Step, n: nat, p: Process, sh: Shared, p1: Process, sh1: Shared, z: Process, x: nat)
    requires Before(a, n, p, sh) && ExitStep(a, n, p, sh, p1, sh1)
    requires x < n && x != a.i && One(z, x, n, sh) && Both(p, a.i, z, x, n)
    ensures PairLock(z, x, p1, a.i) && PairFork(z, x, p1, a.i) && PairHold(z, x, p1, a.i)
  {
    hide PairKids, PidOk, SharedInv, StateOk, WakeArgs, Exiting, HasWaitLock;
  }

  lemma ExitLinks(a: Step, n: nat, p: Process, sh: Shared, p1: Process, sh1: Shared, z: Process, x: nat)
    requires Before(a, n, p, sh) && ExitStep(a, n, p, sh, p1, sh1)
    requires x < n && x != a.i && One(z, x, n, sh) && Both(p, a.i, z, x, n)
    ensures PairLock(p1, a.i, z, x) && PairFork(p1, a.i, z, x) && PairHold(p1, a.i, z, x)
    ensures PairLock(z, x, p1, a.i) && PairFork(z, x, p1, a.i) && PairHold(z, x, p1, a.i)
  {
    hide Before, ExitStep, One, Both, PairLock, PairFork, PairHold;
    ExitLinksOut(a, n, p, sh, p1, sh1, z, x);
    ExitLinksIn(a, n, p, sh, p1, sh1, z, x);
  }

  lemma ExitKids(a: Step, n: nat, p: Process, sh: Shared, p1: Process, sh1: Shared, z: Process, x: nat)
    requires Before(a, n, p, sh) && ExitStep(a, n, p, sh, p1, sh1)
    requires x < n && x != a.i && One(z, x, n, sh) && Both(p, a.i, z, x, n)
    ensures PairKids(p1, a.i, z, x, n) && PairKids(z, x, p1, a.i, n)
  {
    hide Before, ExitStep, One, Both, PairKids;
    ExitParentKids(a, n, p, sh, p1, sh1, z, x);
    ExitChildKids(a, n, p, sh, p1, sh1, z, x);
  }

  lemma ExitParentKids(a: Step, n: nat, p: Process, sh: Shared, p1: Process, sh1: Shared, z: Process, x: nat)
    requires Before(a, n, p, sh) && ExitStep(a, n, p, sh, p1, sh1)
    requires x < n && x != a.i && One(z, x, n, sh) && Both(p, a.i, z, x, n)
    ensures PairKids(p1, a.i, z, x, n)
  {
    hide PairLock, PairFork, PairHold, PidOk, SharedInv, LockOf, ForkOf, WakeArgs, Exiting, StateOk;
  }

  lemma ExitChildKids(a: Step, n: nat, p: Process, sh: Shared, p1: Process, sh1: Shared, z: Process, x: nat)
    requires Before(a, n, p, sh) && ExitStep(a, n, p, sh, p1, sh1)
    requires x < n && x != a.i && One(z, x, n, sh) && Both(p, a.i, z, x, n)
    ensures PairKids(z, x, p1, a.i, n)
  {
    hide PairLock, PairFork, PairHold, PidOk, SharedInv, LockOf, ForkOf, WakeArgs, Exiting;
  }

  lemma WaitSelf(a: Step, n: nat, p: Process, sh: Shared, p1: Process, sh1: Shared)
    requires Before(a, n, p, sh) && WaitStep(a, n, p, sh, p1, sh1)
    ensures PairLock(p1, a.i, p1, a.i)
  {
    hide PidOk, SharedInv, WakeArgs, Exiting;
  }

  lemma WaitState(a: Step, n: nat, p: Process, sh: Shared, p1: Process, sh1: Shared)
    requires Before(a, n, p, sh) && WaitStep(a, n, p, sh, p1, sh1)
    ensures StateOk(p1) && (HasWaitLock(p1.pc) <==> sh1.waitLock == Some(a.i))
  {
    hide PidOk, SharedInv, ForkOf, WakeArgs, Exiting;
  }

  lemma WaitProc(a: Step, n: nat, p: Process, sh: Shared, p1: Process, sh1: Shared)
    requires Before(a, n, p, sh) && WaitStep(a, n, p, sh, p1, sh1)
    ensures ProcInv(p1, a.i, n, sh1) && PairLock(p1, a.i, p1, a.i)
  {
    hide PidOk, SharedInv, HasWaitLock, PairLock;
    WaitState(a, n, p, sh, p1, sh1);
    WaitSelf(a, n, p, sh, p1, sh1);
  }

  lemma WaitPid(a: Step, n: nat, p: Process, sh: Shared, p1: Process, sh1: Shared)
    requires Before(a, n, p, sh) && WaitStep(a, n, p, sh, p1, sh1)
    ensures PidOk(p1, a.i, sh1) && SharedInv(sh1) && Exited(a.i, p, sh, p1, sh1)
  {
    hide LockOf, ForkOf, HasWaitLock, WakeArgs, Exiting;
  }

  lemma WaitLinks(a: Step, n: nat, p: Process, sh: Shared, p1: Process, sh1: Shared, z: Process, x: nat)
    requires Before(a, n, p, sh) && WaitStep(a, n, p, sh, p1, sh1)
    requires x < n && x != a.i && One(z, x, n, sh) && Both(p, a.i, z, x, n)
    ensures PairLock(p1, a.i, z, x) && PairFork(p1, a.i, z, x) && PairHold(p1, a.i, z, x)
    ensures PairLock(z, x, p1, a.i) && PairFork(z, x, p1, a.i) && PairHold(z, x, p1, a.i)
  {
    hide PairKids, PidOk, SharedInv, StateOk, WakeArgs, Exiting, HasWaitLock;
  }

  lemma WaitKids(a: Step, n: nat, p: Process, sh: Shared, p1: Process, sh1: Shared, z: Process, x: nat)
    requires Before(a, n, p, sh) && WaitStep(a, n, p, sh, p1, sh1)
    requires x < n && x != a.i && One(z, x, n, sh) && Both(p, a.i, z, x, n)
    ensures PairKids(p1, a.i, z, x, n) && PairKids(z, x, p1, a.i, n)
  {
    hide PairLock, PairFork, PairHold, PidOk, SharedInv, LockOf, ForkOf, WakeArgs, Exiting;
  }

  lemma ForkDuoState(a: Step, n: nat, p: Process, q: Process, sh: Shared, p1: Process, q1: Process, sh1: Shared)
    requires Before2(a, n, p, q, sh) && ForkDuo(a, p, q, sh, p1, q1, sh1)
    ensures StateOk(p1) && (HasWaitLock(p1.pc) <==> sh1.waitLock == Some(a.i))
  {
    hide PidOk, SharedInv, PairKids, PairHold, PairLock, WakeArgs, Exiting, ForkOf;
  }

  lemma ForkDuoProc(a: Step, n: nat, p: Process, q: Process, sh: Shared, p1: Process, q1: Process, sh1: Shared)
    requires Before2(a, n, p, q, sh) && ForkDuo(a, p, q, sh, p1, q1, sh1)
    ensures ProcInv(p1, a.i, n, sh1) && PairLock(p1, a.i, p1, a.i)
  {
    hide PidOk, SharedInv, PairKids, PairHold, PairLock, HasWaitLock, StateOk;
    ForkDuoSelf(a, n, p, q, sh, p1, q1, sh1);
    ForkDuoState(a, n, p, q, sh, p1, q1, sh1);
  }

  lemma ForkDuoSelf(a: Step, n: nat, p: Process, q: Process, sh: Shared, p1: Process, q1: Process, sh1: Shared)
    requires Before2(a, n, p, q, sh) && ForkDuo(a, p, q, sh, p1, q1, sh1)
    ensures PairLock(p1, a.i, p1, a.i)
  {
    hide PidOk, SharedInv, PairKids, PairHold, StateOk, WakeArgs, Exiting;
  }

  lemma ForkDuoChild(a: Step, n: nat, p: Process, q: Process, sh: Shared, p1: Process, q1: Process, sh1: Shared)
    requires Before2(a, n, p, q, sh) && ForkDuo(a, p, q, sh, p1, q1, sh1)
    ensures ProcInv(q1, a.j, n, sh1) && PairLock(q1, a.j, q1, a.j)
  {
    hide PidOk, SharedInv, PairKids, PairHold;
  }

  lemma ForkDuoPid(a: Step, n: nat, p: Process, q: Process, sh: Shared, p1: Process, q1: Process, sh1: Shared)
    requires Before2(a, n, p, q, sh) && ForkDuo(a, p, q, sh, p1, q1, sh1)
    ensures PidOk(p1, a.i, sh1) && PidOk(q1, a.j, sh1) && SharedInv(sh1) && Reaped(a, p, q, sh, p1, q1, sh1)
  {
    hide LockOf, HasWaitLock, WakeArgs, Exiting, PairKids, PairHold;
  }

  lemma ForkDuoLinks(a: Step, n: nat, p: Process, q: Process, sh: Shared, p1: Process, q1: Process, sh1: Shared)
    requires Before2(a, n, p, q, sh) && ForkDuo(a, p, q, sh, p1, q1, sh1)
    ensures PairLock(p1, a.i, q1, a.j) && PairFork(p1, a.i, q1, a.j) && PairHold(p1, a.i, q1, a.j)
    ensures PairLock(q1, a.j, p1, a.i) && PairFork(q1, a.j, p1, a.i) && PairHold(q1, a.j, p1, a.i)
  {
    hide PairKids, SharedInv;
  }

  lemma ForkDuoKids(a: Step, n: nat, p: Process, q: Process, sh: Shared, p1: Process, q1: Process, sh1: Shared)
    requires Before2(a, n, p, q, sh) && ForkDuo(a, p, q, sh, p1, q1, sh1)
    ensures PairKids(p1, a.i, q1, a.j, n) && PairKids(q1, a.j, p1, a.i, n)
  {
    hide PidOk, SharedInv;
  }

  lemma ExitDuoState(a: Step, n: nat, p: Process, q: Process, sh: Shared, p1: Process, q1: Process, sh1: Shared)
    requires Before2(a, n, p, q, sh) && ExitDuo(a, p, q, sh, p1, q1, sh1)
    ensures StateOk(p1) && (HasWaitLock(p1.pc) <==> sh1.waitLock == Some(a.i))
  {
    hide PidOk, SharedInv, PairKids, PairHold, PairLock, WakeArgs, Exiting, ForkOf;
  }

  lemma ExitDuoCaller(a: Step, n: nat, p: Process, q: Process, sh: Shared, p1: Process, q1: Process, sh1: Shared)
    requires Before2(a, n, p, q, sh) && ExitDuo(a, p, q, sh, p1, q1, sh1)
    ensures ProcInv(p1, a.i, n, sh1) && PairLock(p1, a.i, p1, a.i)
  {
    hide PidOk, SharedInv, PairKids, PairHold, HasWaitLock, StateOk;
    ExitDuoState(a, n, p, q, sh, p1, q1, sh1);
  }

  lemma ExitDuoOther(a: Step, n: nat, p: Process, q: Process, sh: Shared, p1: Process, q1: Process, sh1: Shared)
    requires Before2(a, n, p, q, sh) && ExitDuo(a, p, q, sh, p1, q1, sh1)
    ensures ProcInv(q1, a.j, n, sh1) && PairLock(q1, a.j, q1, a.j)
  {
    hide PidOk, SharedInv, PairKids, PairHold;
  }

  lemma ExitDuoProc(a: Step, n: nat, p: Process, q: Process, sh: Shared, p1: Process, q1: Process, sh1: Shared)
    requires Before2(a, n, p, q, sh) && ExitDuo(a, p, q, sh, p1, q1, sh1)
    ensures ProcInv(p1, a.i, n, sh1) && PairLock(p1, a.i, p1, a.i)
    ensures ProcInv(q1, a.j, n, sh1) && PairLock(q1, a.j, q1, a.j)
  {
    hide Before2, ExitDuo, ProcInv, PairLock;
    ExitDuoCaller(a, n, p, q, sh, p1, q1, sh1);
    ExitDuoOther(a, n, p, q, sh, p1, q1, sh1);
  }

  lemma ExitDuoPid(a: Step, n: nat, p: Process, q: Process, sh: Shared, p1: Process, q1: Process, sh1: Shared)
    requires Before2(a, n, p, q, sh) && ExitDuo(a, p, q, sh, p1, q1, sh1)
    ensures PidOk(p1, a.i, sh1) && PidOk(q1, a.j, sh1) && SharedInv(sh1) && Reaped(a, p, q, sh, p1, q1, sh1)
  {
    hide LockOf, HasWaitLock, WakeArgs, Exiting, PairKids, PairHold;
  }

  lemma ExitDuoLinks(a: Step, n: nat, p: Process, q: Process, sh: Shared, p1: Process, q1: Process, sh1: Shared)
    requires Before2(a, n, p, q, sh) && ExitDuo(a, p, q, sh, p1, q1, sh1)
    ensures PairLock(p1, a.i, q1, a.j) && PairFork(p1, a.i, q1, a.j) && PairHold(p1, a.i, q1, a.j)
    ensures PairLock(q1, a.j, p1, a.i) && PairFork(q1, a.j, p1, a.i) && PairHold(q1, a.j, p1, a.i)
  {
    hide PairKids, SharedInv;
  }

  lemma ExitDuoKids(a: Step, n: nat, p: Process, q: Process, sh: Shared, p1: Process, q1: Process, sh1: Shared)
    requires Before2(a, n, p, q, sh) && ExitDuo(a, p, q, sh, p1, q1, sh1)
    ensures PairKids(p1, a.i, q1, a.j, n) && PairKids(q1, a.j, p1, a.i, n)
  {
    hide PidOk, SharedInv;
  }

  lemma WaitDuoState(a: Step, n: nat, p: Process, q: Process, sh: Shared, p1: Process, q1: Process, sh1: Shared)
    requires Before2(a, n, p, q, sh) && WaitDuo(a, p, q, sh, p1, q1, sh1)
    ensures StateOk(p1) && (HasWaitLock(p1.pc) <==> sh1.waitLock == Some(a.i))
  {
    hide PidOk, SharedInv, PairKids, PairHold, PairLock, WakeArgs, Exiting, ForkOf;
  }

  lemma WaitDuoSelf(a: Step, n: nat, p: Process, q: Process, sh: Shared, p1: Process, q1: Process, sh1: Shared)
    requires Before2(a, n, p, q, sh) && WaitDuo(a, p, q, sh, p1, q1, sh1)
    ensures PairLock(p1, a.i, p1, a.i)
  {
    hide PidOk, SharedInv, PairKids, PairHold, StateOk, WakeArgs, Exiting;
  }

  lemma WaitDuoProc(a: Step, n: nat, p: Process, q: Process, sh: Shared, p1: Process, q1: Process, sh1: Shared)
    requires Before2(a, n, p, q, sh) && WaitDuo(a, p, q, sh, p1, q1, sh1)
    ensures ProcInv(p1, a.i, n, sh1) && PairLock(p1, a.i, p1, a.i)
  {
    hide PidOk, SharedInv, PairKids, PairHold, PairLock, HasWaitLock, StateOk;
    WaitDuoSelf(a, n, p, q, sh, p1, q1, sh1);
    WaitDuoState(a, n, p, q, sh, p1, q1, sh1);
  }

  lemma WaitDuoChild(a: Step, n: nat, p: Process, q: Process, sh: Shared, p1: Process, q1: Process, sh1: Shared)
    requires Before2(a, n, p, q, sh) && WaitDuo(a, p, q, sh, p1, q1, sh1)
    ensures ProcInv(q1, a.j, n, sh1) && PairLock(q1, a.j, q1, a.j)
  {
    hide PidOk, SharedInv, PairKids, PairHold;
  }

  lemma WaitDuoPid(a: Step, n: nat, p: Process, q: Process, sh: Shared, p1: Process, q1: Process, sh1: Shared)
    requires Before2(a, n, p, q, sh) && WaitDuo(a, p, q, sh, p1, q1, sh1)
    ensures PidOk(p1, a.i, sh1) && PidOk(q1, a.j, sh1) && SharedInv(sh1) && Reaped(a, p, q, sh, p1, q1, sh1)
  {
    hide LockOf, HasWaitLock, WakeArgs, Exiting, PairKids, PairHold;
  }

  lemma WaitDuoLinksOut(a: Step, n: nat, p: Process, q: Process, sh: Shared, p1: Process, q1: Process, sh1: Shared)
    requires Before2(a, n, p, q, sh) && WaitDuo(a, p, q, sh, p1, q1, sh1)
    ensures PairLock(p1, a.i, q1, a.j) && PairFork(p1, a.i, q1, a.j) && PairHold(p1, a.i, q1, a.j)
  {
    hide PairKids, SharedInv, PidOk, WakeArgs, Exiting, HasWaitLock;
  }

  lemma WaitDuoLinksIn(a: Step, n: nat, p: Process, q: Process, sh: Shared, p1: Process, q1: Process, sh1: Shared)
    requires Before2(a, n, p, q, sh) && WaitDuo(a, p, q, sh, p1, q1, sh1)
    ensures PairLock(q1, a.j, p1, a.i) && PairFork(q1, a.j, p1, a.i) && PairHold(q1, a.j, p1, a.i)
  {
    hide PairKids, SharedInv, PidOk, WakeArgs, Exiting, HasWaitLock;
  }

  lemma WaitDuoLinks(a: Step, n: nat, p: Process, q: Process, sh: Shared, p1: Process, q1: Process, sh1: Shared)
    requires Before2(a, n, p, q, sh) && WaitDuo(a, p, q, sh, p1, q1, sh1)
    ensures PairLock(p1, a.i, q1, a.j) && PairFork(p1, a.i, q1, a.j) && PairHold(p1, a.i, q1, a.j)
    ensures PairLock(q1, a.j, p1, a.i) && PairFork(q1, a.j, p1, a.i) && PairHold(q1, a.j, p1, a.i)
  {
    hide Before2, WaitDuo, PairLock, PairFork, PairHold;
    WaitDuoLinksOut(a, n, p, q, sh, p1, q1, sh1);
    WaitDuoLinksIn(a, n, p, q, sh, p1, q1, sh1);
  }

  lemma WaitDuoKids(a: Step, n: nat, p: Process, q: Process, sh: Shared, p1: Process, q1: Process, sh1: Shared)
    requires Before2(a, n, p, q, sh) && WaitDuo(a, p, q, sh, p1, q1, sh1)
    ensures PairKids(p1, a.i, q1, a.j, n) && PairKids(q1, a.j, p1, a.i, n)
  {
    hide PidOk, SharedInv;
  }

  lemma ForkDuoLinksOtherCaller(a: Step, n: nat, p: Process, q: Process, sh: Shared, p1: Process, q1: Process,
                                sh1: Shared, z: Process, x: nat)
    requires Before2(a, n, p, q, sh) && ForkDuo(a, p, q, sh, p1, q1, sh1)
    requires x < n && x != a.i && x != a.j && One(z, x, n, sh) && Both(p, a.i, z, x, n) && Both(q, a.j, z, x, n)
    ensures PairLock(p1, a.i, z, x) && PairFork(p1, a.i, z, x) && PairHold(p1, a.i, z, x)
    ensures PairLock(z, x, p1, a.i) && PairFork(z, x, p1, a.i) && PairHold(z, x, p1, a.i)
  {
    hide PairKids, SharedInv;
  }

  lemma ForkDuoLinksOtherChild(a: Step, n: nat, p: Process, q: Process, sh: Shared, p1: Process, q1: Process,
                               sh1: Shared, z: Process, x: nat)
    requires Before2(a, n, p, q, sh) && ForkDuo(a, p, q, sh, p1, q1, sh1)
    requires x < n && x != a.i && x != a.j && One(z, x, n, sh) && Both(p, a.i, z, x, n) && Both(q, a.j, z, x, n)
    ensures PairLock(q1, a.j, z, x) && PairFork(q1, a.j, z, x) && PairHold(q1, a.j, z, x)
    ensures PairLock(z, x, q1, a.j) && PairFork(z, x, q1, a.j) && PairHold(z, x, q1, a.j)
  {
    hide PairKids, SharedInv;
  }

  lemma ForkDuoLinksOther(a: Step, n: nat, p: Process, q: Process, sh: Shared, p1: Process, q1: Process, sh1: Shared,
                          z: Process, x: nat)
    requires Before2(a, n, p, q, sh) && ForkDuo(a, p, q, sh, p1, q1, sh1)
    requires x < n && x != a.i && x != a.j && One(z, x, n, sh) && Both(p, a.i, z, x, n) && Both(q, a.j, z, x, n)
    ensures PairLock(p1, a.i, z, x) && PairFork(p1, a.i, z, x) && PairHold(p1, a.i, z, x)
    ensures PairLock(z, x, p1, a.i) && PairFork(z, x, p1, a.i) && PairHold(z, x, p1, a.i)
    ensures PairLock(q1, a.j, z, x) && PairFork(q1, a.j, z, x) && PairHold(q1, a.j, z, x)
    ensures PairLock(z, x, q1, a.j) && PairFork(z, x, q1, a.j) && PairHold(z, x, q1, a.j)
  {
    hide Before2, ForkDuo, One, Both, PairLock, PairFork, PairHold;
    ForkDuoLinksOtherCaller(a, n, p, q, sh, p1, q1, sh1, z, x);
    ForkDuoLinksOtherChild(a, n, p, q, sh, p1, q1, sh1, z, x);
  }

  lemma ForkDuoKidsOther(a: Step, n: nat, p: Process, q: Process, sh: Shared, p1: Process, q1: Process, sh1: Shared,
                         z: Process, x: nat)
    requires Before2(a, n, p, q, sh) && ForkDuo(a, p, q, sh, p1, q1, sh1)
    requires x < n && x != a.i && x != a.j && One(z, x, n, sh) && Both(p, a.i, z, x, n) && Both(q, a.j, z, x, n)
    ensures PairKids(p1, a.i, z, x, n) && PairKids(z, x, p1, a.i, n)
    ensures PairKids(q1, a.j, z, x, n) && PairKids(z, x, q1, a.j, n)
  {
    hide Before2, ForkDuo, One, Both, PairKids;
    ForkParentKids(a, n, p, q, sh, p1, q1, sh1, z, x);
    ForkChildKids(a, n, p, q, sh, p1, q1, sh1, z, x);
  }

  lemma ForkParentKids(a: Step, n: nat, p: Process, q: Process, sh: Shared, p1: Process, q1: Process, sh1: Shared,
                       z: Process, x: nat)
    requires Before2(a, n, p, q, sh) && ForkDuo(a, p, q, sh, p1, q1, sh1)
    requires x < n && x != a.i && x != a.j && One(z, x, n, sh) && Both(p, a.i, z, x, n) && Both(q, a.j, z, x, n)
    ensures PairKids(p1, a.i, z, x, n) && PairKids(z, x, p1, a.i, n)
  {
    hide PidOk, SharedInv, PairLock, LockOf, ForkOf, PairFork, PairHold, StateOk, HasWaitLock, WakeArgs, Exiting;
  }

  lemma ForkChildKids(a: Step, n: nat, p: Process, q: Process, sh: Shared, p1: Process, q1: Process, sh1: Shared,
                      z: Process, x: nat)
    requires Before2(a, n, p, q, sh) && ForkDuo(a, p, q, sh, p1, q1, sh1)
    requires x < n && x != a.i && x != a.j && One(z, x, n, sh) && Both(p, a.i, z, x, n) && Both(q, a.j, z, x, n)
    ensures PairKids(q1, a.j, z, x, n) && PairKids(z, x, q1, a.j, n)
  {
    hide PidOk, SharedInv, PairLock, LockOf;
  }

  lemma ExitDuoLinksOtherCaller(a: Step, n: nat, p: Process, q: Process, sh: Shared, p1: Process, q1: Process,
                                sh1: Shared, z: Process, x: nat)
    requires Before2(a, n, p, q, sh) && ExitDuo(a, p, q, sh, p1, q1, sh1)
    requires x < n && x != a.i && x != a.j && One(z, x, n, sh) && Both(p, a.i, z, x, n) && Both(q, a.j, z, x, n)
    ensures PairLock(p1, a.i, z, x) && PairFork(p1, a.i, z, x) && PairHold(p1, a.i, z, x)
    ensures PairLock(z, x, p1, a.i) && PairFork(z, x, p1, a.i) && PairHold(z, x, p1, a.i)
  {
    hide PairKids, SharedInv;
  }

  lemma ExitDuoLinksOtherChild(a: Step, n: nat, p: Process, q: Process, sh: Shared, p1: Process, q1: Process,
                               sh1: Shared, z: Process, x: nat)
    requires Before2(a, n, p, q, sh) && ExitDuo(a, p, q, sh, p1, q1, sh1)
    requires x < n && x != a.i && x != a.j && One(z, x, n, sh) && Both(p, a.i, z, x, n) && Both(q, a.j, z, x, n)
    ensures PairLock(q1, a.j, z, x) && PairFork(q1, a.j, z, x) && PairHold(q1, a.j, z, x)
    ensures PairLock(z, x, q1, a.j) && PairFork(z, x, q1, a.j) && PairHold(z, x, q1, a.j)
  {
    hide PairKids, SharedInv;
  }

  lemma ExitDuoLinksOther(a: Step, n: nat, p: Process, q: Process, sh: Shared, p1: Process, q1: Process, sh1: Shared,
                          z: Process, x: nat)
    requires Before2(a, n, p, q, sh) && ExitDuo(a, p, q, sh, p1, q1, sh1)
    requires x < n && x != a.i && x != a.j && One(z, x, n, sh) && Both(p, a.i, z, x, n) && Both(q, a.j, z, x, n)
    ensures PairLock(p1, a.i, z, x) && PairFork(p1, a.i, z, x) && PairHold(p1, a.i, z, x)
    ensures PairLock(z, x, p1, a.i) && PairFork(z, x, p1, a.i) && PairHold(z, x, p1, a.i)
    ensures PairLock(q1, a.j, z, x) && PairFork(q1, a.j, z, x) && PairHold(q1, a.j, z, x)
    ensures PairLock(z, x, q1, a.j) && PairFork(z, x, q1, a.j) && PairHold(z, x, q1, a.j)
  {
    hide Before2, ExitDuo, One, Both, PairLock, PairFork, PairHold;
    ExitDuoLinksOtherCaller(a, n, p, q, sh, p1, q1, sh1, z, x);
    ExitDuoLinksOtherChild(a, n, p, q, sh, p1, q1, sh1, z, x);
  }

  lemma ExitDuoKidsOther(a: Step, n: nat, p: Process, q: Process, sh: Shared, p1: Process, q1: Process, sh1: Shared,
                         z: Process, x: nat)
    requires Before2(a, n, p, q, sh) && ExitDuo(a, p, q, sh, p1, q1, sh1)
    requires x < n && x != a.i && x != a.j && One(z, x, n, sh) && Both(p, a.i, z, x, n) && Both(q, a.j, z, x, n)
    ensures PairKids(p1, a.i, z, x, n) && PairKids(z, x, p1, a.i, n)
    ensures PairKids(q1, a.j, z, x, n) && PairKids(z, x, q1, a.j, n)
  {
    hide PidOk, SharedInv, PairLock, LockOf;
  }

  lemma WaitDuoLinksOtherOut(a: Step, n: nat, p: Process, q: Process, sh: Shared, p1: Process, q1: Process, sh1: Shared,
                             z: Process, x: nat)
    requires Before2(a, n, p, q, sh) && WaitDuo(a, p, q, sh, p1, q1, sh1)
    requires x < n && x != a.i && x != a.j && One(z, x, n, sh) && Both(p, a.i, z, x, n) && Both(q, a.j, z, x, n)
    ensures PairLock(p1, a.i, z, x) && PairFork(p1, a.i, z, x) && PairHold(p1, a.i, z, x)
  {
    hide PairKids, SharedInv, PidOk, WakeArgs, Exiting, HasWaitLock;
  }

  lemma WaitDuoLinksOtherIn(a: Step, n: nat, p: Process, q: Process, sh: Shared, p1: Process, q1: Process, sh1: Shared,
                            z: Process, x: nat)
    requires Before2(a, n, p, q, sh) && WaitDuo(a, p, q, sh, p1, q1, sh1)
    requires x < n && x != a.i && x != a.j && One(z, x, n, sh) && Both(p, a.i, z, x, n) && Both(q, a.j, z, x, n)
    ensures PairLock(z, x, p1, a.i) && PairFork(z, x, p1, a.i) && PairHold(z, x, p1, a.i)
  {
    hide PairKids, SharedInv, PidOk, WakeArgs, Exiting, HasWaitLock;
  }

  lemma WaitDuoLinksOther(a: Step, n: nat, p: Process, q: Process, sh: Shared, p1: Process, q1: Process, sh1: Shared,
                          z: Process, x: nat)
    requires Before2(a, n, p, q, sh) && WaitDuo(a, p, q, sh, p1, q1, sh1)
    requires x < n && x != a.i && x != a.j && One(z, x, n, sh) && Both(p, a.i, z, x, n) && Both(q, a.j, z, x, n)
    ensures PairLock(p1, a.i, z, x) && PairFork(p1, a.i, z, x) && PairHold(p1, a.i, z, x)
    ensures PairLock(z, x, p1, a.i) && PairFork(z, x, p1, a.i) && PairHold(z, x, p1, a.i)
  {
    hide Before2, WaitDuo, One, Both, PairLock, PairFork, PairHold;
    WaitDuoLinksOtherOut(a, n, p, q, sh, p1, q1, sh1, z, x);
    WaitDuoLinksOtherIn(a, n, p, q, sh, p1, q1, sh1, z, x);
  }

  lemma WaitChildLinksOther(a: Step, n: nat, p: Process, q: Process, sh: Shared, p1: Process, q1: Process, sh1: Shared,
                            z: Process, x: nat)
    requires Before2(a, n, p, q, sh) && WaitDuo(a, p, q, sh, p1, q1, sh1)
    requires x < n && x != a.i && x != a.j && One(z, x, n, sh) && Both(p, a.i, z, x, n) && Both(q, a.j, z, x, n)
    ensures PairLock(q1, a.j, z, x) && PairFork(q1, a.j, z, x) && PairHold(q1, a.j, z, x)
    ensures PairLock(z, x, q1, a.j) && PairFork(z, x, q1, a.j) && PairHold(z, x, q1, a.j)
  {
    hide PairKids, SharedInv, PidOk, WakeArgs, Exiting, HasWaitLock;
  }

  lemma WaitDuoKidsOtherCaller(a: Step, n: nat, p: Process, q: Process, sh: Shared, p1: Process, q1: Process,
                               sh1: Shared, z: Process, x: nat)
    requires Before2(a, n, p, q, sh) && WaitDuo(a, p, q, sh, p1, q1, sh1)
    requires x < n && x != a.i && x != a.j && One(z, x, n, sh) && Both(p, a.i, z, x, n) && Both(q, a.j, z, x, n)
    ensures PairKids(p1, a.i, z, x, n) && PairKids(z, x, p1, a.i, n)
  {
    hide PidOk, SharedInv, PairLock, LockOf;
  }

  lemma WaitDuoKidsOtherChild(a: Step, n: nat, p: Process, q: Process, sh: Shared, p1: Process, q1: Process,
                              sh1: Shared, z: Process, x: nat)
    requires Before2(a, n, p, q, sh) && WaitDuo(a, p, q, sh, p1, q1, sh1)
    requires x < n && x != a.i && x != a.j && One(z, x, n, sh) && Both(p, a.i, z, x, n) && Both(q, a.j, z, x, n)
    ensures PairKids(q1, a.j, z, x, n) && PairKids(z, x, q1, a.j, n)
  {
    hide PidOk, SharedInv, PairLock, LockOf;
  }

  lemma WaitDuoKidsOther(a: Step, n: nat, p: Process, q: Process, sh: Shared, p1: Process, q1: Process, sh1: Shared,
                         z: Process, x: nat)
    requires Before2(a, n, p, q, sh) && WaitDuo(a, p, q, sh, p1, q1, sh1)
    requires x < n && x != a.i && x != a.j && One(z, x, n, sh) && Both(p, a.i, z, x, n) && Both(q, a.j, z, x, n)
    ensures PairKids(p1, a.i, z, x, n) && PairKids(z, x, p1, a.i, n)
    ensures PairKids(q1, a.j, z, x, n) && PairKids(z, x, q1, a.j, n)
  {
    hide Before2, WaitDuo, One, Both, PairKids;
    WaitDuoKidsOtherCaller(a, n, p, q, sh, p1, q1, sh1, z, x);
    WaitDuoKidsOtherChild(a, n, p, q, sh, p1, q1, sh1, z, x);
  }

  lemma SchedFrame(a: Step, n: nat, p: Process, sh: Shared, p1: Process, sh1: Shared, z: Process, x: nat)
    requires Before(a, n, p, sh) && SchedStep(a, n, p, sh, p1, sh1)
    requires x < n && x != a.i && One(z, x, n, sh) && Both(p, a.i, z, x, n)
    ensures One(z, x, n, sh1)
  {
    hide PairLock, PairKids, PairHold;
  }

  lemma ExitFrame(a: Step, n: nat, p: Process, sh: Shared, p1: Process, sh1: Shared, z: Process, x: nat)
    requires Before(a, n, p, sh) && ExitStep(a, n, p, sh, p1, sh1)
    requires x < n && x != a.i && One(z, x, n, sh) && Both(p, a.i, z, x, n)
    ensures One(z, x, n, sh1)
  {
    hide PairLock, PairKids, PairHold;
  }

  lemma WaitFrame(a: Step, n: nat, p: Process, sh: Shared, p1: Process, sh1: Shared, z: Process, x: nat)
    requires Before(a, n, p, sh) && WaitStep(a, n, p, sh, p1, sh1)
    requires x < n && x != a.i && One(z, x, n, sh) && Both(p, a.i, z, x, n)
    ensures One(z, x, n, sh1)
  {
    hide PairLock, PairKids, PairHold;
  }

  lemma SoloFrame(a: Step, n: nat, p: Process, sh: Shared, p1: Process, sh1: Shared, z: Process, x: nat)
    requires Before(a, n, p, sh) && Solo(a, n, p, sh, p1, sh1)
    requires x < n && x != a.i && One(z, x, n, sh) && Both(p, a.i, z, x, n)
    ensures One(z, x, n, sh1)
  {
    hide Before, One, Both, SchedStep, ExitStep, WaitStep;
    if SchedStep(a, n, p, sh, p1, sh1) {
      SchedFrame(a, n, p, sh, p1, sh1, z, x);
    } else if ExitStep(a, n, p, sh, p1, sh1) {
      ExitFrame(a, n, p, sh, p1, sh1, z, x);
    } else {
      WaitFrame(a, n, p, sh, p1, sh1, z, x);
    }
  }

  lemma ForkDuoFrame(a: Step, n: nat, p: Process, q: Process, sh: Shared, p1: Process, q1: Process, sh1: Shared,
                     z: Process, x: nat)
    requires Before2(a, n, p, q, sh) && ForkDuo(a, p, q, sh, p1, q1, sh1)
    requires x < n && x != a.i && x != a.j && One(z, x, n, sh) && Both(p, a.i, z, x, n) && Both(q, a.j, z, x, n)
    ensures One(z, x, n, sh1)
  {
    hide PairLock, PairKids, PairHold;
  }

  lemma ExitDuoFrame(a: Step, n: nat, p: Process, q: Process, sh: Shared, p1: Process, q1: Process, sh1: Shared,
                     z: Process, x: nat)
    requires Before2(a, n, p, q, sh) && ExitDuo(a, p, q, sh, p1, q1, sh1)
    requires x < n && x != a.i && x != a.j && One(z, x, n, sh) && Both(p, a.i, z, x, n) && Both(q, a.j, z, x, n)
    ensures One(z, x, n, sh1)
  {
    hide PairLock, PairKids, PairHold;
  }

  lemma WaitDuoFrame(a: Step, n: nat, p: Process, q: Process, sh: Shared, p1: Process, q1: Process, sh1: Shared,
                     z: Process, x: nat)
    requires Before2(a, n, p, q, sh) && WaitDuo(a, p, q, sh, p1, q1, sh1)
    requires x < n && x != a.i && x != a.j && One(z, x, n, sh) && Both(p, a.i, z, x, n) && Both(q, a.j, z, x, n)
    ensures One(z, x, n, sh1)
  {
    hide PairLock, PairKids, PairHold;
  }

  lemma DuoFrame(a: Step, n: nat, p: Process, q: Process, sh: Shared, p1: Process, q1: Process, sh1: Shared, z: Process,
                 x: nat)
    requires Before2(a, n, p, q, sh) && Duo(a, p, q, sh, p1, q1, sh1)
    requires x < n && x != a.i && x != a.j && One(z, x, n, sh) && Both(p, a.i, z, x, n) && Both(q, a.j, z, x, n)
    ensures One(z, x, n, sh1)
  {
    hide Before2, One, Both, ForkDuo, ExitDuo, WaitDuo;
    if ForkDuo(a, p, q, sh, p1, q1, sh1) {
      ForkDuoFrame(a, n, p, q, sh, p1, q1, sh1, z, x);
    } else if ExitDuo(a, p, q, sh, p1, q1, sh1) {
      ExitDuoFrame(a, n, p, q, sh, p1, q1, sh1, z, x);
    } else {
      WaitDuoFrame(a, n, p, q, sh, p1, q1, sh1, z, x);
    }
  }

  // A step of process i and the pc of the owner of wait_lock, before and after.

  ghost predicate WakerStep(i: nat, p: Process, sh: Shared, p1: Process, sh1: Shared, wk: Pc, wk1: Pc) {
    && (sh.waitLock == None ==> wk == Out)
    && (sh.waitLock == Some(i) ==> wk == p.pc)
    && (sh1.waitLock == None ==> wk1 == Out)
    && (sh1.waitLock == Some(i) ==> wk1 == p1.pc)
    && (sh.waitLock != Some(i) && sh1.waitLock != Some(i) && sh.waitLock.Some? ==> wk1 == wk)
  }

  lemma SchedZombies(a: Step, n: nat, p: Process, sh: Shared, p1: Process, sh1: Shared, wk: Pc, wk1: Pc, z: Process,
                     x: nat)
    requires Before(a, n, p, sh) && SchedStep(a, n, p, sh, p1, sh1) && WakerStep(a.i, p, sh, p1, sh1, wk, wk1)
    requires x < n && x != a.i && One(z, x, n, sh) && Both(p, a.i, z, x, n)
    requires PairZombie(p, a.i, z, wk) && PairZombie(z, x, p, wk)
    ensures PairZombie(p1, a.i, z, wk1) && PairZombie(z, x, p1, wk1)
  {
    hide PidOk, SharedInv, LockOf, ForkOf, Exiting, WakeArgs, Both, PairLock, WillWake, WakerStep, HasWaitLock;
    SchedWaker(a, n, p, sh, p1, sh1, wk, wk1, a.i);
    SchedWaker(a, n, p, sh, p1, sh1, wk, wk1, x);
  }

  lemma SchedWaker(a: Step, n: nat, p: Process, sh: Shared, p1: Process, sh1: Shared, wk: Pc, wk1: Pc, x: nat)
    requires Before(a, n, p, sh) && SchedStep(a, n, p, sh, p1, sh1) && WakerStep(a.i, p, sh, p1, sh1, wk, wk1)
    ensures WillWake(wk, x) ==> WillWake(wk1, x)
  {
    hide PidOk, SharedInv, LockOf, ForkOf, Exiting, WakeArgs, PairLock, StateOk;
  }

  lemma ExitWaker(a: Step, n: nat, p: Process, sh: Shared, p1: Process, sh1: Shared, wk: Pc, wk1: Pc, z: Process,
                  x: nat)
    requires Before(a, n, p, sh) && ExitStep(a, n, p, sh, p1, sh1) && WakerStep(a.i, p, sh, p1, sh1, wk, wk1)
    requires x < n && x != a.i && One(z, x, n, sh) && Both(p, a.i, z, x, n)
    requires PairZombie(p, a.i, z, wk) && PairZombie(z, x, p, wk)
    ensures WillWake(wk, x) ==> WillWake(wk1, x)
  {
    hide PidOk, SharedInv, LockOf, ForkOf, Exiting, WakeArgs, PairLock, PairFork, PairHold;
  }

  lemma ExitParentZombie(a: Step, n: nat, p: Process, sh: Shared, p1: Process, sh1: Shared, wk: Pc, wk1: Pc, z: Process,
                         x: nat)
    requires Before(a, n, p, sh) && ExitStep(a, n, p, sh, p1, sh1) && WakerStep(a.i, p, sh, p1, sh1, wk, wk1)
    requires x < n && x != a.i && One(z, x, n, sh) && Both(p, a.i, z, x, n)
    requires PairZombie(p, a.i, z, wk) && PairZombie(z, x, p, wk)
    ensures PairZombie(p1, a.i, z, wk1)
  {
    hide PidOk, SharedInv, LockOf, ForkOf, Exiting, WakeArgs, PairLock, PairFork, PairHold, Both, WakerStep;
  }

  lemma ExitChildZombie(a: Step, n: nat, p: Process, sh: Shared, p1: Process, sh1: Shared, wk: Pc, wk1: Pc, z: Process,
                        x: nat)
    requires Before(a, n, p, sh) && ExitStep(a, n, p, sh, p1, sh1) && WakerStep(a.i, p, sh, p1, sh1, wk, wk1)
    requires x < n && x != a.i && One(z, x, n, sh) && Both(p, a.i, z, x, n)
    requires PairZombie(p, a.i, z, wk) && PairZombie(z, x, p, wk)
    ensures PairZombie(z, x, p1, wk1)
  {
    hide PidOk, SharedInv, LockOf, ForkOf, Exiting, WakeArgs, PairLock, PairFork, PairHold;
  }

  lemma ExitZombies(a: Step, n: nat, p: Process, sh: Shared, p1: Process, sh1: Shared, wk: Pc, wk1: Pc, z: Process,
                    x: nat)
    requires Before(a, n, p, sh) && ExitStep(a, n, p, sh, p1, sh1) && WakerStep(a.i, p, sh, p1, sh1, wk, wk1)
    requires x < n && x != a.i && One(z, x, n, sh) && Both(p, a.i, z, x, n)
    requires PairZombie(p, a.i, z, wk) && PairZombie(z, x, p, wk)
    ensures PairZombie(p1, a.i, z, wk1) && PairZombie(z, x, p1, wk1)
    ensures WillWake(wk, x) ==> WillWake(wk1, x)
  {
    hide Before, ExitStep, WakerStep, One, Both, PairZombie, WillWake;
    ExitParentZombie(a, n, p, sh, p1, sh1, wk, wk1, z, x);
    ExitChildZombie(a, n, p, sh, p1, sh1, wk, wk1, z, x);
    ExitWaker(a, n, p, sh, p1, sh1, wk, wk1, z, x);
  }

  lemma WaitZombies(a: Step, n: nat, p: Process, sh: Shared, p1: Process, sh1: Shared, wk: Pc, wk1: Pc, z: Process,
                    x: nat)
    requires Before(a, n, p, sh) && WaitStep(a, n, p, sh, p1, sh1) && WakerStep(a.i, p, sh, p1, sh1, wk, wk1)
    requires x < n && x != a.i && One(z, x, n, sh) && Both(p, a.i, z, x, n)
    requires PairZombie(p, a.i, z, wk) && PairZombie(z, x, p, wk)
    ensures PairZombie(p1, a.i, z, wk1) && PairZombie(z, x, p1, wk1)
    ensures WillWake(wk, x) ==> WillWake(wk1, x)
  {
    hide PidOk, SharedInv, LockOf, ForkOf, Exiting, WakeArgs, PairLock, PairFork, PairHold;
  }

  lemma ForkDuoZombies(a: Step, n: nat, p: Process, q: Process, sh: Shared, p1: Process, q1: Process, sh1: Shared,
                       wk: Pc, wk1: Pc)
    requires Before2(a, n, p, q, sh) && ForkDuo(a, p, q, sh, p1, q1, sh1) && WakerStep(a.i, p, sh, p1, sh1, wk, wk1)
    requires PairZombie(p, a.i, q, wk) && PairZombie(q, a.j, p, wk)
    ensures PairZombie(p1, a.i, q1, wk1) && PairZombie(q1, a.j, p1, wk1)
  {
    hide PidOk, SharedInv;
  }

  lemma ForkDuoZombiesOther(a: Step, n: nat, p: Process, q: Process, sh: Shared, p1: Process, q1: Process, sh1: Shared,
                            wk: Pc, wk1: Pc, z: Process, x: nat)
    requires Before2(a, n, p, q, sh) && ForkDuo(a, p, q, sh, p1, q1, sh1) && WakerStep(a.i, p, sh, p1, sh1, wk, wk1)
    requires x < n && x != a.i && x != a.j && One(z, x, n, sh)
    requires PairZombie(p, a.i, z, wk) && PairZombie(z, x, p, wk) && PairZombie(q, a.j, z, wk)
             && PairZombie(z, x, q, wk)
    ensures PairZombie(p1, a.i, z, wk1) && PairZombie(z, x, p1, wk1)
  {
    hide PidOk, SharedInv, Both, StateOk, LockOf, Exiting, WakeArgs, ForkOf, WillWake, WakerStep, HasWaitLock;
    ForkDuoWaker(a, n, p, q, sh, p1, q1, sh1, wk, wk1, a.i);
    ForkDuoWaker(a, n, p, q, sh, p1, q1, sh1, wk, wk1, x);
  }

  lemma ForkDuoWaker(a: Step, n: nat, p: Process, q: Process, sh: Shared, p1: Process, q1: Process, sh1: Shared, wk: Pc,
                     wk1: Pc, x: nat)
    requires Before2(a, n, p, q, sh) && ForkDuo(a, p, q, sh, p1, q1, sh1) && WakerStep(a.i, p, sh, p1, sh1, wk, wk1)
    ensures WillWake(wk, x) ==> WillWake(wk1, x)
  {
    hide PidOk, SharedInv, Both, StateOk, LockOf, Exiting, WakeArgs, ForkOf;
  }

  lemma ForkChildZombiesOther(a: Step, n: nat, p: Process, q: Process, sh: Shared, p1: Process, q1: Process,
                              sh1: Shared, wk: Pc, wk1: Pc, z: Process, x: nat)
    requires Before2(a, n, p, q, sh) && ForkDuo(a, p, q, sh, p1, q1, sh1) && WakerStep(a.i, p, sh, p1, sh1, wk, wk1)
    requires x < n && x != a.i && x != a.j && One(z, x, n, sh)
    requires PairZombie(p, a.i, z, wk) && PairZombie(z, x, p, wk) && PairZombie(q, a.j, z, wk)
             && PairZombie(z, x, q, wk)
    ensures PairZombie(q1, a.j, z, wk1) && PairZombie(z, x, q1, wk1)
  {
    hide PidOk, SharedInv, Both, StateOk, LockOf, Exiting, WakeArgs, ForkOf, WillWake, WakerStep, HasWaitLock;
    ForkDuoWaker(a, n, p, q, sh, p1, q1, sh1, wk, wk1, a.j);
    ForkDuoWaker(a, n, p, q, sh, p1, q1, sh1, wk, wk1, x);
  }

  lemma ExitDuoZombies(a: Step, n: nat, p: Process, q: Process, sh: Shared, p1: Process, q1: Process, sh1: Shared,
                       wk: Pc, wk1: Pc)
    requires Before2(a, n, p, q, sh) && ExitDuo(a, p, q, sh, p1, q1, sh1) && WakerStep(a.i, p, sh, p1, sh1, wk, wk1)
    requires PairZombie(p, a.i, q, wk) && PairZombie(q, a.j, p, wk)
    ensures PairZombie(p1, a.i, q1, wk1) && PairZombie(q1, a.j, p1, wk1)
  {
    hide PidOk, SharedInv;
  }

  lemma ExitDuoZombiesOther(a: Step, n: nat, p: Process, q: Process, sh: Shared, p1: Process, q1: Process, sh1: Shared,
                            wk: Pc, wk1: Pc, z: Process, x: nat)
    requires Before2(a, n, p, q, sh) && ExitDuo(a, p, q, sh, p1, q1, sh1) && WakerStep(a.i, p, sh, p1, sh1, wk, wk1)
    requires x < n && x != a.i && x != a.j && One(z, x, n, sh)
    requires PairZombie(p, a.i, z, wk) && PairZombie(z, x, p, wk) && PairZombie(q, a.j, z, wk)
             && PairZombie(z, x, q, wk)
    ensures PairZombie(p1, a.i, z, wk1) && PairZombie(z, x, p1, wk1)
    ensures PairZombie(q1, a.j, z, wk1) && PairZombie(z, x, q1, wk1)
    ensures WillWake(wk, x) ==> WillWake(wk1, x)
  {
    hide PidOk, SharedInv, PairKids, PairFork, PairHold, ForkOf, Exiting, WakeArgs;
  }

  lemma WaitDuoZombies(a: Step, n: nat, p: Process, q: Process, sh: Shared, p1: Process, q1: Process, sh1: Shared,
                       wk: Pc, wk1: Pc)
    requires Before2(a, n, p, q, sh) && WaitDuo(a, p, q, sh, p1, q1, sh1) && WakerStep(a.i, p, sh, p1, sh1, wk, wk1)
    requires PairZombie(p, a.i, q, wk) && PairZombie(q, a.j, p, wk)
    ensures PairZombie(p1, a.i, q1, wk1) && PairZombie(q1, a.j, p1, wk1)
  {
    hide PidOk, SharedInv;
  }

  lemma WaitDuoZombiesOther(a: Step, n: nat, p: Process, q: Process, sh: Shared, p1: Process, q1: Process, sh1: Shared,
                            wk: Pc, wk1: Pc, z: Process, x: nat)
    requires Before2(a, n, p, q, sh) && WaitDuo(a, p, q, sh, p1, q1, sh1) && WakerStep(a.i, p, sh, p1, sh1, wk, wk1)
    requires x < n && x != a.i && x != a.j && One(z, x, n, sh)
    requires PairZombie(p, a.i, z, wk) && PairZombie(z, x, p, wk) && PairZombie(q, a.j, z, wk)
             && PairZombie(z, x, q, wk)
    ensures PairZombie(p1, a.i, z, wk1) && PairZombie(z, x, p1, wk1)
    ensures PairZombie(q1, a.j, z, wk1) && PairZombie(z, x, q1, wk1)
    ensures WillWake(wk, x) ==> WillWake(wk1, x)
  {
    hide PidOk, SharedInv, PairKids, PairFork, PairHold, ForkOf, Exiting, WakeArgs;
  }

  // ----- the groups together -----

  lemma SoloKeeps(a: Step, n: nat, p: Process, sh: Shared, p1: Process, sh1: Shared)
    requires Before(a, n, p, sh) && Solo(a, n, p, sh, p1, sh1)
    ensures One(p1, a.i, n, sh1) && SharedInv(sh1) && Exited(a.i, p, sh, p1, sh1)
  {
    hide Before, SchedStep, ExitStep, WaitStep, ProcInv, PidOk, PairLock, SharedInv, Exited;
    if SchedStep(a, n, p, sh, p1, sh1) {
      SchedProc(a, n, p, sh, p1, sh1);
      SchedPid(a, n, p, sh, p1, sh1);
    } else if ExitStep(a, n, p, sh, p1, sh1) {
      ExitProc(a, n, p, sh, p1, sh1);
      ExitPid(a, n, p, sh, p1, sh1);
    } else {
      WaitProc(a, n, p, sh, p1, sh1);
      WaitPid(a, n, p, sh, p1, sh1);
    }
  }

  lemma SoloKeepsBoth(a: Step, n: nat, p: Process, sh: Shared, p1: Process, sh1: Shared, z: Process, x: nat)
    requires Before(a, n, p, sh) && Solo(a, n, p, sh, p1, sh1)
    requires x < n && x != a.i && One(z, x, n, sh) && Both(p, a.i, z, x, n)
    ensures Both(p1, a.i, z, x, n)
  {
    hide Before, SchedStep, ExitStep, WaitStep, One, PairLock, PairFork, PairKids, PairHold;
    if SchedStep(a, n, p, sh, p1, sh1) {
      SchedLinks(a, n, p, sh, p1, sh1, z, x);
      SchedKids(a, n, p, sh, p1, sh1, z, x);
    } else if ExitStep(a, n, p, sh, p1, sh1) {
      ExitLinks(a, n, p, sh, p1, sh1, z, x);
      ExitKids(a, n, p, sh, p1, sh1, z, x);
    } else {
      WaitLinks(a, n, p, sh, p1, sh1, z, x);
      WaitKids(a, n, p, sh, p1, sh1, z, x);
    }
  }

  lemma SoloKeepsZombies(a: Step, n: nat, p: Process, sh: Shared, p1: Process, sh1: Shared, wk: Pc, wk1: Pc, z: Process,
                         x: nat)
    requires Before(a, n, p, sh) && Solo(a, n, p, sh, p1, sh1) && WakerStep(a.i, p, sh, p1, sh1, wk, wk1)
    requires x < n && x != a.i && One(z, x, n, sh) && Both(p, a.i, z, x, n)
    requires PairZombie(p, a.i, z, wk) && PairZombie(z, x, p, wk)
    ensures PairZombie(p1, a.i, z, wk1) && PairZombie(z, x, p1, wk1)
    ensures WillWake(wk, x) ==> WillWake(wk1, x)
  {
    hide Before, SchedStep, ExitStep, WaitStep, One, Both, PairZombie, WillWake, WakerStep;
    if SchedStep(a, n, p, sh, p1, sh1) {
      SchedZombies(a, n, p, sh, p1, sh1, wk, wk1, z, x);
      SchedWaker(a, n, p, sh, p1, sh1, wk, wk1, x);
    } else if ExitStep(a, n, p, sh, p1, sh1) {
      ExitZombies(a, n, p, sh, p1, sh1, wk, wk1, z, x);
    } else {
      WaitZombies(a, n, p, sh, p1, sh1, wk, wk1, z, x);
    }
  }

  lemma DuoKeeps(a: Step, n: nat, p: Process, q: Process, sh: Shared, p1: Process, q1: Process, sh1: Shared)
    requires Before2(a, n, p, q, sh) && Duo(a, p, q, sh, p1, q1, sh1)
    ensures One(p1, a.i, n, sh1) && One(q1, a.j, n, sh1) && SharedInv(sh1) && Both(p1, a.i, q1, a.j, n)
    ensures Reaped(a, p, q, sh, p1, q1, sh1)
  {
    hide Reaped, Before2, ForkDuo, ExitDuo, WaitDuo, ProcInv, PidOk, PairLock, SharedInv, PairFork, PairKids, PairHold;
    if ForkDuo(a, p, q, sh, p1, q1, sh1) {
      ForkDuoProc(a, n, p, q, sh, p1, q1, sh1);
      ForkDuoChild(a, n, p, q, sh, p1, q1, sh1);
      ForkDuoPid(a, n, p, q, sh, p1, q1, sh1);
      ForkDuoLinks(a, n, p, q, sh, p1, q1, sh1);
      ForkDuoKids(a, n, p, q, sh, p1, q1, sh1);
    } else if ExitDuo(a, p, q, sh, p1, q1, sh1) {
      ExitDuoProc(a, n, p, q, sh, p1, q1, sh1);
      ExitDuoPid(a, n, p, q, sh, p1, q1, sh1);
      ExitDuoLinks(a, n, p, q, sh, p1, q1, sh1);
      ExitDuoKids(a, n, p, q, sh, p1, q1, sh1);
    } else {
      WaitDuoProc(a, n, p, q, sh, p1, q1, sh1);
      WaitDuoChild(a, n, p, q, sh, p1, q1, sh1);
      WaitDuoPid(a, n, p, q, sh, p1, q1, sh1);
      WaitDuoLinks(a, n, p, q, sh, p1, q1, sh1);
      WaitDuoKids(a, n, p, q, sh, p1, q1, sh1);
    }
  }

  lemma DuoKeepsOther(a: Step, n: nat, p: Process, q: Process, sh: Shared, p1: Process, q1: Process, sh1: Shared,
                      z: Process, x: nat)
    requires Before2(a, n, p, q, sh) && Duo(a, p, q, sh, p1, q1, sh1)
    requires x < n && x != a.i && x != a.j && One(z, x, n, sh) && Both(p, a.i, z, x, n) && Both(q, a.j, z, x, n)
    ensures Both(p1, a.i, z, x, n) && Both(q1, a.j, z, x, n)
  {
    hide Before2, ForkDuo, ExitDuo, WaitDuo, One, PairLock, PairFork, PairKids, PairHold;
    if ForkDuo(a, p, q, sh, p1, q1, sh1) {
      ForkDuoLinksOther(a, n, p, q, sh, p1, q1, sh1, z, x);
      ForkDuoKidsOther(a, n, p, q, sh, p1, q1, sh1, z, x);
    } else if ExitDuo(a, p, q, sh, p1, q1, sh1) {
      ExitDuoLinksOther(a, n, p, q, sh, p1, q1, sh1, z, x);
      ExitDuoKidsOther(a, n, p, q, sh, p1, q1, sh1, z, x);
    } else {
      WaitDuoLinksOther(a, n, p, q, sh, p1, q1, sh1, z, x);
      WaitChildLinksOther(a, n, p, q, sh, p1, q1, sh1, z, x);
      WaitDuoKidsOther(a, n, p, q, sh, p1, q1, sh1, z, x);
    }
  }

  lemma DuoKeepsZombies(a: Step, n: nat, p: Process, q: Process, sh: Shared, p1: Process, q1: Process, sh1: Shared,
                        wk: Pc, wk1: Pc)
    requires Before2(a, n, p, q, sh) && Duo(a, p, q, sh, p1, q1, sh1) && WakerStep(a.i, p, sh, p1, sh1, wk, wk1)
    requires PairZombie(p, a.i, q, wk) && PairZombie(q, a.j, p, wk)
    ensures PairZombie(p1, a.i, q1, wk1) && PairZombie(q1, a.j, p1, wk1)
  {
    hide Before2, ForkDuo, ExitDuo, WaitDuo, PairZombie, WakerStep;
    if ForkDuo(a, p, q, sh, p1, q1, sh1) {
      ForkDuoZombies(a, n, p, q, sh, p1, q1, sh1, wk, wk1);
    } else if ExitDuo(a, p, q, sh, p1, q1, sh1) {
      ExitDuoZombies(a, n, p, q, sh, p1, q1, sh1, wk, wk1);
    } else {
      WaitDuoZombies(a, n, p, q, sh, p1, q1, sh1, wk, wk1);
    }
  }

  lemma DuoKeepsZombiesOther(a: Step, n: nat, p: Process, q: Process, sh: Shared, p1: Process, q1: Process, sh1: Shared,
                             wk: Pc, wk1: Pc, z: Process, x: nat)
    requires Before2(a, n, p, q, sh) && Duo(a, p, q, sh, p1, q1, sh1) && WakerStep(a.i, p, sh, p1, sh1, wk, wk1)
    requires x < n && x != a.i && x != a.j && One(z, x, n, sh)
    requires PairZombie(p, a.i, z, wk) && PairZombie(z, x, p, wk) && PairZombie(q, a.j, z, wk)
             && PairZombie(z, x, q, wk)
    ensures PairZombie(p1, a.i, z, wk1) && PairZombie(z, x, p1, wk1)
    ensures PairZombie(q1, a.j, z, wk1) && PairZombie(z, x, q1, wk1)
    ensures WillWake(wk, x) ==> WillWake(wk1, x)
  {
    hide Before2, ForkDuo, ExitDuo, WaitDuo, One, PairZombie, WillWake, WakerStep;
    if ForkDuo(a, p, q, sh, p1, q1, sh1) {
      ForkDuoZombiesOther(a, n, p, q, sh, p1, q1, sh1, wk, wk1, z, x);
      ForkDuoWaker(a, n, p, q, sh, p1, q1, sh1, wk, wk1, x);
      ForkChildZombiesOther(a, n, p, q, sh, p1, q1, sh1, wk, wk1, z, x);
    } else if ExitDuo(a, p, q, sh, p1, q1, sh1) {
      ExitDuoZombiesOther(a, n, p, q, sh, p1, q1, sh1, wk, wk1, z, x);
    } else {
      WaitDuoZombiesOther(a, n, p, q, sh, p1, q1, sh1, wk, wk1, z, x);
    }
  }

  // ----- whole states -----

  lemma Pair(s: State, i: nat, j: nat)
    requires Ones(s) && Twos(s) && i < |s.procs| && j < |s.procs| && i != j
    ensures One(s.procs[i], i, |s.procs|, s.sh) && One(s.procs[j], j, |s.procs|, s.sh)
    ensures Both(s.procs[i], i, s.procs[j], j, |s.procs|)
    ensures PairZombie(s.procs[i], i, s.procs[j], Waker(s)) && PairZombie(s.procs[j], j, s.procs[i], Waker(s))
  {
    hide One, Two, PairZombie;
  }

  /** wait_lock is taken from nobody, and released by nobody but its owner. */
  ghost predicate LockMoves(i: nat, sh: Shared, sh1: Shared) {
    || sh1.waitLock == sh.waitLock
    || (sh.waitLock == None && sh1.waitLock == Some(i))
    || (sh.waitLock == Some(i) && sh1.waitLock == None)
  }

  lemma SoloLock(a: Step, n: nat, p: Process, sh: Shared, p1: Process, sh1: Shared)
    requires Before(a, n, p, sh) && Solo(a, n, p, sh, p1, sh1)
    ensures LockMoves(a.i, sh, sh1)
  {
    hide PidOk, PairLock, SharedInv, StateOk, LockOf, ForkOf, Exiting, WakeArgs;
  }

  lemma DuoLock(a: Step, n: nat, p: Process, q: Process, sh: Shared, p1: Process, q1: Process, sh1: Shared)
    requires Before2(a, n, p, q, sh) && Duo(a, p, q, sh, p1, q1, sh1)
    ensures LockMoves(a.i, sh, sh1)
  {
    hide PidOk, PairLock, SharedInv, LockOf, Exiting, WakeArgs, PairKids, PairHold;
  }

  lemma ForkDuoOwner(a: Step, n: nat, p: Process, q: Process, sh: Shared, p1: Process, q1: Process, sh1: Shared)
    requires Before2(a, n, p, q, sh) && ForkDuo(a, p, q, sh, p1, q1, sh1)
    ensures sh.waitLock == Some(a.j) ==> q1.pc == q.pc
  {
    hide PidOk, PairLock, SharedInv, LockOf, Exiting, WakeArgs, PairKids, PairHold;
  }

  lemma ExitDuoOwner(a: Step, n: nat, p: Process, q: Process, sh: Shared, p1: Process, q1: Process, sh1: Shared)
    requires Before2(a, n, p, q, sh) && ExitDuo(a, p, q, sh, p1, q1, sh1)
    ensures sh.waitLock == Some(a.j) ==> q1.pc == q.pc
  {
    hide PidOk, PairLock, SharedInv, LockOf, Exiting, WakeArgs, PairKids, PairHold;
  }

  lemma WaitDuoOwner(a: Step, n: nat, p: Process, q: Process, sh: Shared, p1: Process, q1: Process, sh1: Shared)
    requires Before2(a, n, p, q, sh) && WaitDuo(a, p, q, sh, p1, q1, sh1)
    ensures sh.waitLock == Some(a.j) ==> q1.pc == q.pc
  {
    hide PidOk, PairLock, SharedInv, LockOf, Exiting, WakeArgs, PairKids, PairHold;
  }

  lemma DuoOwner(a: Step, n: nat, p: Process, q: Process, sh: Shared, p1: Process, q1: Process, sh1: Shared)
    requires Before2(a, n, p, q, sh) && Duo(a, p, q, sh, p1, q1, sh1)
    ensures sh.waitLock == Some(a.j) ==> q1.pc == q.pc
  {
    hide Before2, ForkDuo, ExitDuo, WaitDuo;
    if ForkDuo(a, p, q, sh, p1, q1, sh1) {
      ForkDuoOwner(a, n, p, q, sh, p1, q1, sh1);
    } else if ExitDuo(a, p, q, sh, p1, q1, sh1) {
      ExitDuoOwner(a, n, p, q, sh, p1, q1, sh1);
    } else {
      WaitDuoOwner(a, n, p, q, sh, p1, q1, sh1);
    }
  }

  /** The owner of wait_lock changes only with a step of that owner, and no other step moves its pc. */
  lemma WakerSteps(s: State, t: State, a: Step)
    requires Ones(s) && Twos(s) && NextStep(s, t, a)
    ensures WakerStep(a.i, s.procs[a.i], s.sh, t.procs[a.i], t.sh, Waker(s), Waker(t))
    ensures t.sh.waitLock.Some? ==> t.sh.waitLock.value < |t.procs|
  {
    hide One, Two, Both, PairZombie, SharedInv, Solo, Duo, Twos;
    var n := |s.procs|;
    assert One(s.procs[a.i], a.i, |s.procs|, s.sh);
    if IsDuo(a) {
      Pair(s, a.i, a.j);
      DuoLock(a, n, s.procs[a.i], s.procs[a.j], s.sh, t.procs[a.i], t.procs[a.j], t.sh);
      DuoOwner(a, n, s.procs[a.i], s.procs[a.j], s.sh, t.procs[a.i], t.procs[a.j], t.sh);
    } else {
      SoloLock(a, n, s.procs[a.i], s.sh, t.procs[a.i], t.sh);
    }
  }

  lemma NextOne(s: State, t: State, a: Step, x: nat)
    requires Ones(s) && Twos(s) && NextStep(s, t, a) && x < |s.procs|
    ensures One(t.procs[x], x, |t.procs|, t.sh) && SharedInv(t.sh)
  {
    hide One, Two, Both, PairZombie, SharedInv, Solo, Duo, Twos, Exited, Reaped;
    var n, i := |s.procs|, a.i;
    assert One(s.procs[i], i, n, s.sh);
    if IsDuo(a) {
      Pair(s, i, a.j);
      DuoKeeps(a, n, s.procs[i], s.procs[a.j], s.sh, t.procs[i], t.procs[a.j], t.sh);
      if x != i && x != a.j {
        Pair(s, i, x);
        Pair(s, a.j, x);
        DuoFrame(a, n, s.procs[i], s.procs[a.j], s.sh, t.procs[i], t.procs[a.j], t.sh, s.procs[x], x);
      }
    } else {
      SoloKeeps(a, n, s.procs[i], s.sh, t.procs[i], t.sh);
      if x != i {
        Pair(s, i, x);
        SoloFrame(a, n, s.procs[i], s.sh, t.procs[i], t.sh, s.procs[x], x);
      }
    }
  }

  ghost predicate PairOk(s: State, x: nat, y: nat)
    requires x < |s.procs| && y < |s.procs|
  {
    Two(s.procs[x], x, s.procs[y], y, |s.procs|) && PairZombie(s.procs[x], x, s.procs[y], Waker(s))
  }

  lemma SoloNextTwo(s: State, t: State, a: Step, x: nat, y: nat)
    requires Ones(s) && Twos(s) && NextStep(s, t, a) && x < |s.procs| && y < |s.procs| && x != y
    requires !IsDuo(a)
    ensures PairOk(t, x, y)
  {
    hide One, Two, PairZombie, SharedInv, Solo, WakerStep, Twos, WillWake, Waker;
    var n, i := |s.procs|, a.i;
    WakerSteps(s, t, a);
    Pair(s, x, y);
    assert One(s.procs[i], i, n, s.sh);
    if x == i || y == i {
      var z := if x == i then y else x;
      SoloKeepsBoth(a, n, s.procs[i], s.sh, t.procs[i], t.sh, s.procs[z], z);
      SoloKeepsZombies(a, n, s.procs[i], s.sh, t.procs[i], t.sh, Waker(s), Waker(t), s.procs[z], z);
    } else {
      Pair(s, i, x);
      SoloKeepsZombies(a, n, s.procs[i], s.sh, t.procs[i], t.sh, Waker(s), Waker(t), s.procs[x], x);
      Bystanders(s.procs[x], x, s.procs[y], Waker(s), Waker(t));
    }
  }

  lemma Bystanders(p: Process, x: nat, q: Process, wk: Pc, wk1: Pc)
    requires PairZombie(p, x, q, wk) && (WillWake(wk, x) ==> WillWake(wk1, x))
    ensures PairZombie(p, x, q, wk1)
  {
  }

  lemma DuoNextOther(s: State, t: State, a: Step, x: nat)
    requires Ones(s) && Twos(s) && NextStep(s, t, a) && IsDuo(a) && x < |s.procs| && x != a.i && x != a.j
    ensures PairOk(t, x, a.i) && PairOk(t, a.i, x) && PairOk(t, x, a.j) && PairOk(t, a.j, x)
    ensures WillWake(Waker(s), x) ==> WillWake(Waker(t), x)
  {
    hide One, Two, PairZombie, SharedInv, Duo, WakerStep, Twos, WillWake, Waker;
    var n, i, j := |s.procs|, a.i, a.j;
    WakerSteps(s, t, a);
    Pair(s, i, j);
    Pair(s, i, x);
    Pair(s, j, x);
    DuoKeepsOther(a, n, s.procs[i], s.procs[j], s.sh, t.procs[i], t.procs[j], t.sh, s.procs[x], x);
    DuoKeepsZombiesOther(a, n, s.procs[i], s.procs[j], s.sh, t.procs[i], t.procs[j], t.sh, Waker(s), Waker(t),
                         s.procs[x], x);
  }

  lemma DuoNextActors(s: State, t: State, a: Step)
    requires Ones(s) && Twos(s) && NextStep(s, t, a) && IsDuo(a)
    ensures PairOk(t, a.i, a.j) && PairOk(t, a.j, a.i)
  {
    hide One, Two, PairZombie, SharedInv, Duo, WakerStep, Twos, Reaped, Waker;
    var n, i, j := |s.procs|, a.i, a.j;
    WakerSteps(s, t, a);
    Pair(s, i, j);
    DuoKeeps(a, n, s.procs[i], s.procs[j], s.sh, t.procs[i], t.procs[j], t.sh);
    DuoKeepsZombies(a, n, s.procs[i], s.procs[j], s.sh, t.procs[i], t.procs[j], t.sh, Waker(s), Waker(t));
  }

  lemma DuoNextTwo(s: State, t: State, a: Step, x: nat, y: nat)
    requires Ones(s) && Twos(s) && NextStep(s, t, a) && x < |s.procs| && y < |s.procs| && x != y
    requires IsDuo(a)
    ensures PairOk(t, x, y)
  {
    hide Ones, Twos, One, Two, PairZombie, Duo, WillWake, Waker;
    if x != a.i && x != a.j {
      DuoNextOther(s, t, a, x);
      if y != a.i && y != a.j {
        Pair(s, x, y);
        Bystanders(s.procs[x], x, s.procs[y], Waker(s), Waker(t));
      }
    } else if y != a.i && y != a.j {
      DuoNextOther(s, t, a, y);
    } else {
      DuoNextActors(s, t, a);
    }
  }

  lemma NextExit(s: State, t: State, a: Step, x: nat)
    requires Inv(s) && NextStep(s, t, a)
    ensures ExitInv(t, x)
  {
    hide One, Two, PairZombie, SharedInv, Solo, Duo, Twos;
    var n, i := |s.procs|, a.i;
    assert One(s.procs[i], i, n, s.sh) && ExitInv(s, x);
    if IsDuo(a) {
      Pair(s, i, a.j);
      DuoKeeps(a, n, s.procs[i], s.procs[a.j], s.sh, t.procs[i], t.procs[a.j], t.sh);
    } else {
      SoloKeeps(a, n, s.procs[i], s.sh, t.procs[i], t.sh);
    }
  }

  /** Every step keeps the invariant. */
  lemma NextInv(s: State, t: State)
    requires Inv(s) && Next(s, t)
    ensures Inv(t)
  {
    hide One, NextStep, SharedInv, PairOk, ExitInv;
    var a :| NextStep(s, t, a);
    SameSize(s, t, a);
    WakerSteps(s, t, a);
    NextOne(s, t, a, INIT);
    forall x | 0 <= x < |t.procs| ensures One(t.procs[x], x, |t.procs|, t.sh) {
      NextOne(s, t, a, x);
    }
    forall x, y | 0 <= x < |t.procs| && 0 <= y < |t.procs| && x != y ensures PairOk(t, x, y) {
      if IsDuo(a) {
        DuoNextTwo(s, t, a, x, y);
      } else {
        SoloNextTwo(s, t, a, x, y);
      }
    }
    TwosIntro(t);
    forall x: nat ensures ExitInv(t, x) {
      NextExit(s, t, a, x);
    }
  }

  lemma SameSize(s: State, t: State, a: Step)
    requires NextStep(s, t, a)
    ensures |t.procs| == |s.procs|
  {
  }

  lemma TwosIntro(s: State)
    requires forall x, y :: 0 <= x < |s.procs| && 0 <= y < |s.procs| && x != y ==> PairOk(s, x, y)
    ensures Twos(s)
  {
    hide Two, PairZombie;
    forall x, y | 0 <= x < |s.procs| && 0 <= y < |s.procs| && x != y
      ensures Two(s.procs[x], x, s.procs[y], y, |s.procs|) && PairZombie(s.procs[x], x, s.procs[y], Waker(s))
    {
      assert PairOk(s, x, y);
    }
  }

  // ----- whole runs -----

  ghost predicate Run(run: seq<State>) {
    && |run| > 0 && Init(run[0])
    && forall k :: 0 <= k < |run| - 1 ==> Next(run[k], run[k + 1])
  }

  lemma InitInv(s: State)
    requires Init(s)
    ensures Inv(s)
  {
  }

  lemma {:induction false} RunInv(run: seq<State>, k: nat)
    requires Run(run) && k < |run|
    ensures Inv(run[k])
  {
    hide Inv, Next, Init;
    if k == 0 {
      InitInv(run[0]);
    } else {
      RunInv(run, k - 1);
      assert Next(run[k - 1], run[k - 1 + 1]);
      NextInv(run[k - 1], run[k]);
    }
  }

  /** Parent pointers are live at every point of every run: no parent is UNUSED or a ZOMBIE. */
  lemma ParentsAreAlive(run: seq<State>, k: nat, c: nat)
    requires Run(run) && k < |run| && c < |run[k].procs| && run[k].procs[c].parent.Some?
    ensures run[k].procs[c].parent.value < |run[k].procs|
    ensures run[k].procs[run[k].procs[c].parent.value].state !in {UNUSED, ZOMBIE}
  {
    RunInv(run, k);
    var s := run[k];
    assert One(s.procs[c], c, |s.procs|, s.sh);
    Pair(s, s.procs[c].parent.value, c);
  }

  /** While wait_lock is free, no process asleep in wait(), or about to sleep there, has a ZOMBIE child. */
  lemma NoSleepingParentOfZombie(run: seq<State>, k: nat, q: nat, c: nat)
    requires Run(run) && k < |run| && q < |run[k].procs| && c < |run[k].procs|
    requires run[k].sh.waitLock == None && run[k].procs[c].parent == Some(q) && run[k].procs[c].state == ZOMBIE
    ensures !(run[k].procs[q].state == SLEEPING && run[k].procs[q].chan == ProcChan(q))
    ensures !Drowsy(run[k].procs[q])
  {
    RunInv(run, k);
    var s := run[k];
    assert One(s.procs[c], c, |s.procs|, s.sh);
    Pair(s, q, c);
  }

  /** A ZOMBIE is never orphaned: it has a parent, and the parent is neither UNUSED nor a ZOMBIE. */
  lemma ZombieHasParent(run: seq<State>, k: nat, c: nat)
    requires Run(run) && k < |run| && c < |run[k].procs| && run[k].procs[c].state == ZOMBIE
    ensures run[k].procs[c].parent.Some?
  {
    RunInv(run, k);
    assert One(run[k].procs[c], c, |run[k].procs|, run[k].sh);
  }

  /** Every process that has exited is a ZOMBIE in its slot or has been freed exactly once; nothing else is freed. */
  lemma FreedExactlyOnce(run: seq<State>, k: nat, pid: nat)
    requires Run(run) && k < |run|
    ensures pid !in run[k].sh.exited ==> run[k].sh.freed[pid] == 0
    ensures pid in run[k].sh.exited ==>
              || run[k].sh.freed[pid] == 1
              || (run[k].sh.freed[pid] == 0
                  && exists c :: 0 <= c < |run[k].procs|
                                  && run[k].procs[c].state == ZOMBIE && run[k].procs[c].pid == pid)
    ensures forall c :: 0 <= c < |run[k].procs| && run[k].procs[c].state == ZOMBIE && run[k].procs[c].pid == pid ==>
                          run[k].sh.freed[pid] == 0
  {
    RunInv(run, k);
    var s := run[k];
    assert ExitInv(s, pid);
    forall c | 0 <= c < |s.procs| && s.procs[c].state == ZOMBIE && s.procs[c].pid == pid ensures s.sh.freed[pid] == 0 {
      assert One(s.procs[c], c, |s.procs|, s.sh);
    }
  }

  /**
   What wait() frees is its own child, off its stack for good, not freed before; and the pid and
   status it returns are those that the child exited with.
   */
  lemma ReapsOwnChild(run: seq<State>, k: nat, t: State, i: nat, j: nat)
    requires Run(run) && k < |run| && NextStep(run[k], t, WaitReap(i, j))
    ensures run[k].procs[j].parent == Some(i) && run[k].procs[j].pc == Gone && run[k].procs[j].lock == Some(Proc(i))
    ensures run[k].procs[j].pid in run[k].sh.exited && run[k].sh.freed[run[k].procs[j].pid] == 0
    ensures run[k].sh.exited[run[k].procs[j].pid] == Exit(run[k].procs[j].xstate, j)
    ensures t.sh.freed[run[k].procs[j].pid] == 1 && t.procs[j].state == UNUSED
  {
    hide Run, SharedInv, WakeArgs, Exiting, HasWaitLock, PairKids, PairFork;
    RunInv(run, k);
    Pair(run[k], i, j);
  }

  /** wait() returns -1 for want of children only if it has none. */
  lemma NoChildrenMeansNone(run: seq<State>, k: nat, t: State, i: nat, c: nat)
    requires Run(run) && k < |run| && NextStep(run[k], t, WaitScanned(i)) && t.procs[i].pc == WaitDone
    requires c < |run[k].procs|
    ensures run[k].procs[c].parent != Some(i)
  {
    hide Run, Ones, Twos, One, Two, PairZombie;
    RunInv(run, k);
    if c != i {
      Pair(run[k], i, c);
      ScannedNone(run[k].procs[i], i, run[k].procs[c], c, |run[k].procs|);
    } else {
      NotOwnParent(run[k], c);
    }
  }

  lemma ScannedNone(p: Process, i: nat, q: Process, c: nat, n: nat)
    requires Two(p, i, q, c, n) && p.pc.WaitScan? && p.pc.k == n && !p.pc.have && c < n
    ensures q.parent != Some(i)
  {
  }

  lemma NotOwnParent(s: State, c: nat)
    requires Inv(s) && c < |s.procs|
    ensures s.procs[c].parent != Some(c)
  {
    assert One(s.procs[c], c, |s.procs|, s.sh);
  }
}
