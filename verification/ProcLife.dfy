/** The life cycle of processes in kernel/proc.c as a machine whose steps are the
    critical sections of wait_lock and of the processes' own locks.  A lock that is
    held across swtch, or together with another, is part of the state; a section
    under one other process's lock is one step, which waits for that lock. */
module ProcLife {
  datatype Option<T> = None | Some(value: T)

  datatype RunState = UNUSED | USED | SLEEPING | RUNNABLE | RUNNING | ZOMBIE

  datatype Chan = NoChan | OfProc(p: nat) | Other(c: nat)

  /** Where a kernel thread holds no spinlock, so that a timer interrupt can make it
      yield: anywhere else in the kernel, in kfork before wait_lock and before the
      child's lock is taken, and in kwait before wait_lock is. */
  datatype Point = Anywhere | BeforeLink(np: nat) | BeforeRun(np: nat) | BeforeWait

  /** Why a kernel thread is in sched(). */
  datatype Why = Entry | Yielding(at: Point) | Sleeping | Waiting | Exiting

  /** Where a process's kernel thread is.  Leave: in sched(), before swtch.  Away:
      switched out.  Back: switched in again, its own lock still held. */
  datatype Pc =
    | NoThread | Kernel
    | Leave(why: Why) | Away(why: Why) | Back(why: Why)
    | ForkHas(np: nat) | ForkUnlinked(np: nat) | ForkLinking(np: nat) | ForkReady(np: nat)
    | WaitEnter | WaitScan(k: nat, kids: bool) | WaitSleep | WaitLocked | WaitMark
    | WaitLeave(got: Option<nat>)
    | ExitReparent(k: nat) | ExitWakeInit(k: nat, q: nat) | ExitWakeParent(q: nat)
    | ExitLock | ExitMark | ExitRelease

  function PcAt(at: Point): (pc: Pc) {
    match at
    case Anywhere => Kernel
    case BeforeLink(np) => ForkUnlinked(np)
    case BeforeRun(np) => ForkReady(np)
    case BeforeWait => WaitEnter
  }

  /** Where a thread that has come back from sched() goes on. */
  function PcAfter(why: Why): (pc: Pc) {
    match why
    case Yielding(at) => PcAt(at)
    case Waiting => WaitEnter
    case _ => Kernel
  }

  /** lock names the CPU that holds the process's lock, cpu the one that uses its
      kernel stack. */
  datatype Proc = Proc(state: RunState, chan: Chan, parent: Option<nat>, killed: bool,
                       lock: Option<nat>, cpu: Option<nat>, pc: Pc)

  /** A CPU in scheduler(): choosing, about to swtch to i, running i's thread, or
      returned from it but still holding its lock. */
  datatype Cpu = Idle | Switch(i: nat) | Thread(i: nat) | After(i: nat)

  datatype State = State(procs: seq<Proc>, cpus: seq<Cpu>, waitLock: Option<nat>, init: nat)

  function Freed(): (p: Proc) {
    Proc(UNUSED, NoChan, None, false, None, None, NoThread)
  }

  function Set(s: State, i: nat, p: Proc): (s': State)
    requires i < |s.procs|
  {
    s.(procs := s.procs[i := p])
  }

  function At(s: State, i: nat, pc: Pc): (s': State)
    requires i < |s.procs|
  {
    Set(s, i, s.procs[i].(pc := pc))
  }

  ghost predicate Is(s: State, i: nat, pc: Pc) {
    i < |s.procs| && s.procs[i].pc == pc
  }

  ghost predicate Unlocked(s: State, i: nat) {
    i < |s.procs| && s.procs[i].lock == None
  }

  /** One step of wakeup(chan). */
  function Woken(p: Proc, chan: Chan): (r: Proc) {
    if p.state == SLEEPING && p.chan == chan then p.(state := RUNNABLE) else p
  }

  /** A process pointer as a channel. */
  function ChanOf(p: Option<nat>): (c: Chan) {
    if p.Some? then OfProc(p.value) else NoChan
  }

  // ---- scheduler, sched, yield, sleep, wakeup, kkill ----

  ghost predicate Pick(s: State, c: nat, i: nat, s': State) {
    && c < |s.cpus| && s.cpus[c] == Idle && Unlocked(s, i) && s.procs[i].state == RUNNABLE
    && s' == Set(s, i, s.procs[i].(state := RUNNING, lock := Some(c), cpu := Some(c))).(cpus := s.cpus[c := Switch(i)])
  }

  ghost predicate SwitchIn(s: State, c: nat, i: nat, s': State) {
    && c < |s.cpus| && s.cpus[c] == Switch(i) && i < |s.procs| && s.procs[i].pc.Away?
    && s' == At(s, i, Back(s.procs[i].pc.why)).(cpus := s.cpus[c := Thread(i)])
  }

  ghost predicate SwitchOut(s: State, c: nat, i: nat, s': State) {
    && c < |s.cpus| && s.cpus[c] == Thread(i) && i < |s.procs| && s.procs[i].pc.Leave?
    && s' == At(s, i, Away(s.procs[i].pc.why)).(cpus := s.cpus[c := After(i)])
  }

  ghost predicate Put(s: State, c: nat, i: nat, s': State) {
    && c < |s.cpus| && s.cpus[c] == After(i) && i < |s.procs|
    && s' == Set(s, i, s.procs[i].(lock := None, cpu := None)).(cpus := s.cpus[c := Idle])
  }

  ghost predicate Resume(s: State, i: nat, s': State) {
    && i < |s.procs| && s.procs[i].pc.Back?
    && var p := s.procs[i];
       var q := if p.pc.why in {Sleeping, Waiting} then p.(chan := NoChan) else p;
       s' == Set(s, i, q.(lock := None, pc := PcAfter(p.pc.why)))
  }

  ghost predicate Yield(s: State, i: nat, at: Point, s': State) {
    && Is(s, i, PcAt(at)) && Unlocked(s, i)
    && s' == Set(s, i, s.procs[i].(state := RUNNABLE, lock := s.procs[i].cpu, pc := Leave(Yielding(at))))
  }

  ghost predicate SleepOn(s: State, i: nat, ch: nat, s': State) {
    && Is(s, i, Kernel) && Unlocked(s, i)
    && s' == Set(s, i, s.procs[i].(state := SLEEPING, chan := Other(ch), lock := s.procs[i].cpu, pc := Leave(Sleeping)))
  }

  ghost predicate WakeOther(s: State, q: nat, ch: nat, s': State) {
    Unlocked(s, q) && s' == Set(s, q, Woken(s.procs[q], Other(ch)))
  }

  ghost predicate Kill(s: State, q: nat, s': State) {
    && Unlocked(s, q)
    && var p := s.procs[q].(killed := true);
       s' == Set(s, q, if p.state == SLEEPING then p.(state := RUNNABLE) else p)
  }

  // ---- kfork ----

  ghost predicate ForkAlloc(s: State, i: nat, np: nat, s': State) {
    && Is(s, i, Kernel) && Unlocked(s, np) && s.procs[np].state == UNUSED
    && var child := s.procs[np].(state := USED, lock := s.procs[i].cpu, pc := Away(Entry));
       s' == At(Set(s, np, child), i, ForkHas(np))
  }

  /** Out of memory: freeproc(np). */
  ghost predicate ForkFail(s: State, i: nat, np: nat, s': State) {
    Is(s, i, ForkHas(np)) && np < |s.procs| && s' == At(Set(s, np, Freed()), i, Kernel)
  }

  ghost predicate ForkUnlock(s: State, i: nat, np: nat, s': State) {
    && Is(s, i, ForkHas(np)) && np < |s.procs|
    && s' == At(Set(s, np, s.procs[np].(lock := None)), i, ForkUnlinked(np))
  }

  ghost predicate ForkWait(s: State, i: nat, np: nat, s': State) {
    Is(s, i, ForkUnlinked(np)) && s.waitLock == None && s' == At(s, i, ForkLinking(np)).(waitLock := Some(i))
  }

  ghost predicate ForkLink(s: State, i: nat, np: nat, s': State) {
    && Is(s, i, ForkLinking(np)) && np < |s.procs|
    && s' == At(Set(s, np, s.procs[np].(parent := Some(i))), i, ForkReady(np)).(waitLock := None)
  }

  ghost predicate ForkRun(s: State, i: nat, np: nat, s': State) {
    && Is(s, i, ForkReady(np)) && Unlocked(s, np)
    && s' == At(Set(s, np, s.procs[np].(state := RUNNABLE)), i, Kernel)
  }

  // ---- kwait ----

  ghost predicate WaitCall(s: State, i: nat, s': State) {
    Is(s, i, Kernel) && s' == At(s, i, WaitEnter)
  }

  ghost predicate WaitAcquire(s: State, i: nat, s': State) {
    Is(s, i, WaitEnter) && s.waitLock == None && s' == At(s, i, WaitScan(0, false)).(waitLock := Some(i))
  }

  ghost predicate WaitSkip(s: State, i: nat, k: nat, kids: bool, s': State) {
    && Is(s, i, WaitScan(k, kids)) && k < |s.procs| && s.procs[k].parent != Some(i)
    && s' == At(s, i, WaitScan(k + 1, kids))
  }

  ghost predicate WaitPass(s: State, i: nat, k: nat, kids: bool, s': State) {
    && Is(s, i, WaitScan(k, kids)) && k < |s.procs| && s.procs[k].parent == Some(i)
    && Unlocked(s, k) && s.procs[k].state != ZOMBIE
    && s' == At(s, i, WaitScan(k + 1, true))
  }

  /** freeproc(pp), once pp's lock has been acquired. */
  ghost predicate WaitReap(s: State, i: nat, k: nat, kids: bool, s': State) {
    && Is(s, i, WaitScan(k, kids)) && k < |s.procs| && s.procs[k].parent == Some(i)
    && Unlocked(s, k) && s.procs[k].state == ZOMBIE
    && s' == At(Set(s, k, Freed()), i, WaitLeave(Some(k)))
  }

  /** The exit status cannot be copied out, or there is nothing to wait for. */
  ghost predicate WaitFail(s: State, i: nat, k: nat, kids: bool, s': State) {
    && Is(s, i, WaitScan(k, kids)) && k <= |s.procs|
    && (if k < |s.procs| then s.procs[k].parent == Some(i) && Unlocked(s, k) && s.procs[k].state == ZOMBIE
        else Unlocked(s, i) && (!kids || s.procs[i].killed))
    && s' == At(s, i, WaitLeave(None))
  }

  ghost predicate WaitMore(s: State, i: nat, kids: bool, s': State) {
    && Is(s, i, WaitScan(|s.procs|, kids)) && Unlocked(s, i) && kids && !s.procs[i].killed
    && s' == At(s, i, WaitSleep)
  }

  ghost predicate WaitLock(s: State, i: nat, s': State) {
    && Is(s, i, WaitSleep) && Unlocked(s, i)
    && s' == Set(s, i, s.procs[i].(lock := s.procs[i].cpu, pc := WaitLocked))
  }

  ghost predicate WaitUnlock(s: State, i: nat, s': State) {
    Is(s, i, WaitLocked) && s' == At(s, i, WaitMark).(waitLock := None)
  }

  ghost predicate WaitDoze(s: State, i: nat, s': State) {
    && Is(s, i, WaitMark)
    && s' == Set(s, i, s.procs[i].(state := SLEEPING, chan := OfProc(i), pc := Leave(Waiting)))
  }

  /** kwait returns the child it has freed, or -1. */
  ghost predicate WaitReturn(s: State, i: nat, got: Option<nat>, s': State) {
    Is(s, i, WaitLeave(got)) && s' == At(s, i, Kernel).(waitLock := None)
  }

  // ---- kexit ----

  ghost predicate ExitEnter(s: State, i: nat, s': State) {
    && Is(s, i, Kernel) && i != s.init && s.waitLock == None
    && s' == At(s, i, ExitReparent(0)).(waitLock := Some(i))
  }

  ghost predicate ExitKeep(s: State, i: nat, k: nat, s': State) {
    && Is(s, i, ExitReparent(k)) && k < |s.procs| && s.procs[k].parent != Some(i)
    && s' == At(s, i, ExitReparent(k + 1))
  }

  ghost predicate ExitGive(s: State, i: nat, k: nat, s': State) {
    && Is(s, i, ExitReparent(k)) && k < |s.procs| && s.procs[k].parent == Some(i)
    && s' == At(Set(s, k, s.procs[k].(parent := Some(s.init))), i, ExitWakeInit(k, 0))
  }

  ghost predicate ExitWakeI(s: State, i: nat, k: nat, q: nat, s': State) {
    && Is(s, i, ExitWakeInit(k, q)) && q < |s.procs| && (q == i || Unlocked(s, q))
    && var s1 := if q == i then s else Set(s, q, Woken(s.procs[q], OfProc(s.init)));
       s' == At(s1, i, ExitWakeInit(k, q + 1))
  }

  ghost predicate ExitWokeI(s: State, i: nat, k: nat, s': State) {
    Is(s, i, ExitWakeInit(k, |s.procs|)) && s' == At(s, i, ExitReparent(k + 1))
  }

  ghost predicate ExitGiven(s: State, i: nat, s': State) {
    Is(s, i, ExitReparent(|s.procs|)) && s' == At(s, i, ExitWakeParent(0))
  }

  ghost predicate ExitWakeP(s: State, i: nat, q: nat, s': State) {
    && Is(s, i, ExitWakeParent(q)) && q < |s.procs| && (q == i || Unlocked(s, q))
    && var s1 := if q == i then s else Set(s, q, Woken(s.procs[q], ChanOf(s.procs[i].parent)));
       s' == At(s1, i, ExitWakeParent(q + 1))
  }

  ghost predicate ExitWokeP(s: State, i: nat, s': State) {
    Is(s, i, ExitWakeParent(|s.procs|)) && s' == At(s, i, ExitLock)
  }

  ghost predicate ExitAcquire(s: State, i: nat, s': State) {
    && Is(s, i, ExitLock) && Unlocked(s, i)
    && s' == Set(s, i, s.procs[i].(lock := s.procs[i].cpu, pc := ExitMark))
  }

  ghost predicate ExitZombie(s: State, i: nat, s': State) {
    Is(s, i, ExitMark) && s' == Set(s, i, s.procs[i].(state := ZOMBIE, pc := ExitRelease))
  }

  ghost predicate ExitUnlock(s: State, i: nat, s': State) {
    Is(s, i, ExitRelease) && s' == At(s, i, Leave(Exiting)).(waitLock := None)
  }

  // ---- invariants ----

  /** The thread is executing on some CPU. */
  ghost predicate Executing(pc: Pc) {
    !pc.NoThread? && !pc.Away?
  }

  ghost predicate HoldsOwn(pc: Pc) {
    pc.Leave? || pc.Back? || pc.WaitLocked? || pc.WaitMark? || pc.ExitMark? || pc.ExitRelease?
  }

  ghost predicate HoldsWait(pc: Pc) {
    || pc.ForkLinking? || pc.WaitScan? || pc.WaitSleep? || pc.WaitLocked? || pc.WaitLeave?
    || pc.ExitReparent? || pc.ExitWakeInit? || pc.ExitWakeParent? || pc.ExitLock? || pc.ExitMark? || pc.ExitRelease?
  }

  /** In kexit with all children given away. */
  ghost predicate Childless(pc: Pc) {
    || pc.ExitWakeParent? || pc.ExitLock? || pc.ExitMark? || pc.ExitRelease?
    || pc == Leave(Exiting) || pc == Away(Exiting)
  }

  ghost predicate Exits(pc: Pc) {
    Childless(pc) || pc.ExitReparent? || pc.ExitWakeInit?
  }

  /** Where kfork is, whether it runs or has been made to yield. */
  ghost predicate Making(pc: Pc) {
    pc.ForkHas? || pc.ForkUnlinked? || pc.ForkLinking? || pc.ForkReady?
  }

  ghost predicate Preempted(pc: Pc) {
    (pc.Leave? || pc.Away? || pc.Back?) && pc.why.Yielding? && (pc.why.at.BeforeLink? || pc.why.at.BeforeRun?)
  }

  /** The process kfork is setting up. */
  ghost function Child(pc: Pc): Option<nat> {
    if Making(pc) then Some(pc.np) else if Preempted(pc) then Some(pc.why.at.np) else None
  }

  /** kfork has made the caller the child's parent. */
  ghost predicate Linked(pc: Pc) {
    pc.ForkReady? || (Preempted(pc) && pc.why.at.BeforeRun?)
  }

  ghost predicate StateOk(p: Proc) {
    match p.pc
    case NoThread => p.state == UNUSED
    case Away(w) =>
      && p.state != UNUSED && (p.state == ZOMBIE <==> w == Exiting) && (p.state == USED ==> w == Entry)
      && (p.state == SLEEPING ==> w == Sleeping || w == Waiting)
    case Leave(w) =>
      && w != Entry
      && p.state == (if w.Yielding? then RUNNABLE else if w == Exiting then ZOMBIE else SLEEPING)
    case Back(w) => w != Exiting && p.state == RUNNING
    case ExitRelease => p.state == ZOMBIE
    case _ => p.state == RUNNING
  }

  ghost predicate LockOk(p: Proc) {
    && (Executing(p.pc) ==> p.cpu.Some? && p.lock == if HoldsOwn(p.pc) then p.cpu else None)
    && (p.pc.Away? && p.cpu.Some? ==> p.lock == p.cpu)
    && (p.pc.Away? && p.cpu == None && p.state != USED ==> p.lock == None)
    && (p.pc.NoThread? ==> p.lock == None)
    && (p.state == UNUSED || p.state == USED ==> p.cpu == None)
    && (p.state == RUNNING ==> p.cpu.Some?)
  }

  ghost predicate ChanOk(p: Proc, i: nat) {
    p.state == SLEEPING && (p.pc.Leave? || p.pc.Away?) ==>
      (p.pc.why == Waiting ==> p.chan == OfProc(i)) && (p.pc.why == Sleeping ==> p.chan.Other?)
  }

  ghost predicate InitOk(p: Proc, i: nat, init: nat) {
    && (Exits(p.pc) ==> i != init)
    && (p.state == UNUSED ==> p.parent == None)
    && (i == init ==> p.parent == None && p.state != UNUSED && p.state != USED)
    && (i != init && p.state != UNUSED && p.state != USED ==> p.parent.Some?)
  }

  ghost predicate PcOk(pc: Pc, n: nat) {
    && (pc.WaitScan? || pc.ExitReparent? ==> pc.k <= n) && (pc.ExitWakeInit? ==> pc.k < n && pc.q <= n)
    && (pc.ExitWakeParent? ==> pc.q <= n)
  }

  ghost predicate ProcOk(p: Proc, i: nat, n: nat, init: nat) {
    && PcOk(p.pc, n) && StateOk(p) && LockOk(p) && ChanOk(p, i) && InitOk(p, i, init)
    && p.parent != Some(i) && (p.parent.Some? ==> p.parent.value < n)
    && Child(p.pc) != Some(i) && (Child(p.pc).Some? ==> Child(p.pc).value < n)
  }

  /** c uses the kernel stack of i, or is about to, or has just stopped. */
  ghost predicate OnCpu(cpus: seq<Cpu>, c: nat, i: nat) {
    c < |cpus| && cpus[c] != Idle && cpus[c].i == i
  }

  ghost predicate CpuOk(p: Proc, i: nat, cpus: seq<Cpu>) {
    p.cpu.Some? ==>
      && OnCpu(cpus, p.cpu.value, i)
      && match cpus[p.cpu.value]
         case Idle => true
         case Switch(_) => p.pc.Away? && p.state == RUNNING
         case Thread(_) => Executing(p.pc)
         case After(_) => p.pc.Away? && p.state != RUNNING
  }

  // ---- what two processes i and j owe each other ----

  /** i's kfork is setting j up, and no other kfork is. */
  ghost predicate ForkOk(p: Proc, i: nat, q: Proc, j: nat) {
    Child(p.pc).Some? ==>
      && Child(q.pc) != Child(p.pc)
      && (Child(p.pc).value == j ==>
            && q.state == USED && q.lock == (if p.pc.ForkHas? then p.cpu else None)
            && q.parent == (if Linked(p.pc) then Some(i) else None))
  }

  ghost predicate Alive(p: Proc) {
    p.state != UNUSED && p.state != USED && p.state != ZOMBIE
  }

  /** kexit at pc has given away its children below this index. */
  ghost function Given(pc: Pc, n: nat): nat {
    match pc
    case ExitReparent(k) => k
    case ExitWakeInit(k, _) => k + 1
    case _ => if Childless(pc) then n else 0
  }

  /** kwait at pc has looked at its children below this index. */
  ghost function Scanned(pc: Pc, n: nat): nat {
    match pc
    case WaitScan(k, _) => k
    case WaitSleep => n
    case WaitLocked => n
    case _ => 0
  }

  /** kexit at pc has woken its parent if that is below this index. */
  ghost function Woke(pc: Pc, n: nat): nat {
    match pc
    case ExitWakeParent(q) => q
    case ExitLock => n
    case ExitMark => n
    case ExitRelease => n
    case _ => 0
  }

  ghost predicate Kids(pc: Pc) {
    pc.WaitScan? ==> pc.kids
  }

  /** Asleep in kwait, or bound to be before anyone can take its lock. */
  ghost predicate Dozing(p: Proc, i: nat) {
    p.pc == WaitMark || (p.state == SLEEPING && p.chan == OfProc(i))
  }

  /** A parent is alive, and its kexit has not passed the child yet. */
  ghost predicate ParentOk(p: Proc, i: nat, q: Proc, j: nat, n: nat) {
    p.parent == Some(j) ==> Alive(q) && i >= Given(q.pc, n)
  }

  /** The children that the scan of kwait has passed were no zombies. */
  ghost predicate ScanOk(p: Proc, i: nat, q: Proc, j: nat, n: nat) {
    q.parent == Some(i) && j < Scanned(p.pc, n) ==> q.state != ZOMBIE && Kids(p.pc)
  }

  /** i dozes although its child j is a zombie, or has done its wakeup, only while
      the holder of wait_lock is still going to wake i. */
  ghost predicate WakeOk(p: Proc, i: nat, q: Proc, n: nat, init: nat, will: bool) {
    q.parent == Some(i) && Dozing(p, i) ==> (q.state == ZOMBIE ==> i == init && will) && i >= Woke(q.pc, n)
  }

  ghost predicate KinOk(p: Proc, i: nat, q: Proc, j: nat, n: nat, init: nat, will: bool) {
    ParentOk(p, i, q, j, n) && ScanOk(p, i, q, j, n) && WakeOk(p, i, q, n, init, will)
  }

  // ---- the whole state ----

  /** The holder of wait_lock has still to wake init. */
  ghost predicate WillWakeInit(s: State) {
    && s.waitLock.Some? && s.waitLock.value < |s.procs|
    && s.procs[s.waitLock.value].pc.ExitWakeInit? && s.procs[s.waitLock.value].pc.q <= s.init
  }

  ghost predicate OneOk(s: State, i: nat) {
    && i < |s.procs| && ProcOk(s.procs[i], i, |s.procs|, s.init) && CpuOk(s.procs[i], i, s.cpus)
    && (HoldsWait(s.procs[i].pc) <==> s.waitLock == Some(i))
  }

  ghost predicate TwoOk(s: State, i: nat, j: nat) {
    && i < |s.procs| && j < |s.procs|
    && ForkOk(s.procs[i], i, s.procs[j], j)
    && KinOk(s.procs[i], i, s.procs[j], j, |s.procs|, s.init, WillWakeInit(s))
  }

  ghost predicate Cpus(s: State) {
    forall c :: 0 <= c < |s.cpus| && s.cpus[c] != Idle ==>
      s.cpus[c].i < |s.procs| && s.procs[s.cpus[c].i].cpu == Some(c)
  }

  ghost predicate Inv(s: State) {
    && s.init < |s.procs| && Cpus(s)
    && (s.waitLock.Some? ==> s.waitLock.value < |s.procs|)
    && (forall i: nat :: i < |s.procs| ==> OneOk(s, i))
    && (forall i: nat, j: nat :: i < |s.procs| && j < |s.procs| && i != j ==> TwoOk(s, i, j))
  }

  /** Enough to check after a step that changed process i alone. */
  lemma Changed(s: State, i: nat, s': State)
    requires Inv(s) && i < |s.procs| && |s'.procs| == |s.procs| && s'.init == s.init && Cpus(s')
    requires s'.waitLock.Some? ==> s'.waitLock.value < |s.procs|
    requires s'.procs == s.procs[i := s'.procs[i]]
    requires WillWakeInit(s) ==> WillWakeInit(s') || !Dozing(s'.procs[s.init], s.init)
    requires forall j: nat :: j < |s.procs| ==> OneOk(s', j)
    requires forall j: nat :: j < |s.procs| && j != i ==> TwoOk(s', i, j) && TwoOk(s', j, i)
    ensures Inv(s')
  {
    hide OneOk, Cpus, ForkOk, ParentOk, ScanOk;
    forall j: nat, k: nat | j < |s.procs| && k < |s.procs| && j != k
      ensures TwoOk(s', j, k)
    {
      if j != i && k != i {
        assert TwoOk(s, j, k);
      }
    }
  }

  /** A change that no relative of the process can object to. */
  ghost predicate Quiet(p: Proc, p': Proc, i: nat, n: nat) {
    && (p'.parent == p.parent || p'.parent == None) && (Alive(p) ==> Alive(p')) && (p'.state == ZOMBIE ==>
        p.state == ZOMBIE)
    && Given(p'.pc, n) <= Given(p.pc, n) && Woke(p'.pc, n) <= Woke(p.pc, n) && (Dozing(p', i) ==> Dozing(p, i))
    && Scanned(p'.pc, n) <= Scanned(p.pc, n) && (Scanned(p'.pc, n) > 0 && Kids(p.pc) ==> Kids(p'.pc))
  }

  lemma QuietKin(p: Proc, p': Proc, i: nat, q: Proc, j: nat, n: nat, init: nat, will: bool)
    requires Quiet(p, p', i, n)
    ensures KinOk(p, i, q, j, n, init, will) ==> KinOk(p', i, q, j, n, init, will)
    ensures KinOk(q, j, p, i, n, init, will) ==> KinOk(q, j, p', i, n, init, will)
  {
    hide Given, Woke, Scanned, Dozing, Kids, Alive;
  }

  /** A change that no kfork can object to: the process is not being set up, or stays so. */
  ghost predicate ForkQuiet(p: Proc, p': Proc) {
    && (Child(p'.pc) == None || (Child(p'.pc) == Child(p.pc) && Linked(p'.pc) == Linked(p.pc)
        && p'.pc.ForkHas? == p.pc.ForkHas? && (p.pc.ForkHas? ==> p'.cpu == p.cpu)))
    && (p.state == USED ==> p'.state == USED && p'.lock == p.lock && p'.parent == p.parent)
  }

  lemma QuietFork(p: Proc, p': Proc, i: nat, q: Proc, j: nat)
    requires ForkQuiet(p, p')
    ensures ForkOk(p, i, q, j) ==> ForkOk(p', i, q, j)
    ensures ForkOk(q, j, p, i) ==> ForkOk(q, j, p', i)
  {
  }

  /** wait_lock stays as it is, or i takes or releases it; CPU c alone changes, and
      it is i's. */
  ghost predicate Moves(s: State, i: nat, c: nat, s': State) {
    && i < |s.procs| && |s'.procs| == |s.procs| && s'.init == s.init && s'.procs == s.procs[i := s'.procs[i]]
    && (s'.waitLock == s.waitLock || (s.waitLock in {None, Some(i)} && s'.waitLock in {None, Some(i)}))
    && ((s'.cpus == s.cpus && s'.procs[i].cpu == s.procs[i].cpu)
        || (c < |s.cpus| && |s'.cpus| == |s.cpus| && s'.cpus == s.cpus[c := s'.cpus[c]]
            && s.procs[i].cpu in {None, Some(c)} && (s.cpus[c] == Idle || s.cpus[c].i == i)
            && s'.procs[i].cpu == (if s'.cpus[c] == Idle then None else Some(c))
            && (s'.cpus[c] == Idle || s'.cpus[c].i == i)))
  }

  lemma OthersMove(s: State, i: nat, c: nat, s': State)
    requires Inv(s) && Moves(s, i, c, s')
    ensures Cpus(s') && (s'.waitLock.Some? ==> s'.waitLock.value < |s.procs|)
    ensures forall j: nat :: j < |s.procs| && j != i ==> OneOk(s', j)
  {
    hide ProcOk, TwoOk, HoldsWait;
    assert OneOk(s, i);
    forall j: nat | j < |s.procs| && j != i
      ensures OneOk(s', j)
    {
      assert OneOk(s, j);
    }
  }

  lemma One(s: State, i: nat)
    requires Inv(s) && i < |s.procs|
    ensures OneOk(s, i) && s.init < |s.procs|
  {
    hide OneOk, TwoOk, Cpus;
  }

  lemma QuietStep(s: State, i: nat, c: nat, s': State)
    requires Inv(s) && Moves(s, i, c, s') && OneOk(s', i)
    requires Quiet(s.procs[i], s'.procs[i], i, |s.procs|) && ForkQuiet(s.procs[i], s'.procs[i])
    requires WillWakeInit(s) == WillWakeInit(s')
    ensures Inv(s')
  {
    hide Quiet, ForkQuiet, OneOk, ForkOk, KinOk, Cpus, WillWakeInit;
    OthersMove(s, i, c, s');
    forall j: nat | j < |s.procs| && j != i
      ensures TwoOk(s', i, j) && TwoOk(s', j, i)
    {
      assert TwoOk(s, i, j) && TwoOk(s, j, i) && s'.procs[j] == s.procs[j];
      QuietKin(s.procs[i], s'.procs[i], i, s.procs[j], j, |s.procs|, s.init, WillWakeInit(s));
      QuietFork(s.procs[i], s'.procs[i], i, s.procs[j], j);
    }
    Changed(s, i, s');
  }

  lemma PickKeepsInv(s: State, c: nat, i: nat, s': State)
    requires Inv(s) && Pick(s, c, i, s')
    ensures Inv(s')
  {
    hide Inv, TwoOk, Cpus;
    One(s, i);
    QuietStep(s, i, c, s');
  }

  lemma SwitchInKeepsInv(s: State, c: nat, i: nat, s': State)
    requires Inv(s) && SwitchIn(s, c, i, s')
    ensures Inv(s')
  {
    hide TwoOk;
    One(s, i);
    QuietStep(s, i, c, s');
  }

  lemma SwitchOutKeepsInv(s: State, c: nat, i: nat, s': State)
    requires Inv(s) && SwitchOut(s, c, i, s')
    ensures Inv(s')
  {
    hide TwoOk;
    One(s, i);
    QuietStep(s, i, c, s');
  }

  lemma PutKeepsInv(s: State, c: nat, i: nat, s': State)
    requires Inv(s) && Put(s, c, i, s')
    ensures Inv(s')
  {
    hide TwoOk;
    One(s, i);
    QuietStep(s, i, c, s');
  }

  lemma ResumeKeepsInv(s: State, i: nat, s': State)
    requires Inv(s) && Resume(s, i, s')
    ensures Inv(s')
  {
    hide Inv, TwoOk, Cpus;
    One(s, i);
    QuietStep(s, i, 0, s');
  }

  lemma YieldKeepsInv(s: State, i: nat, at: Point, s': State)
    requires Inv(s) && Yield(s, i, at, s')
    ensures Inv(s')
  {
    hide Inv, TwoOk, Cpus;
    One(s, i);
    QuietStep(s, i, 0, s');
  }

  lemma SleepOnKeepsInv(s: State, i: nat, ch: nat, s': State)
    requires Inv(s) && SleepOn(s, i, ch, s')
    ensures Inv(s')
  {
    hide Inv, TwoOk, Cpus;
    One(s, i);
    QuietStep(s, i, 0, s');
  }

  lemma WakeOtherKeepsInv(s: State, q: nat, ch: nat, s': State)
    requires Inv(s) && WakeOther(s, q, ch, s')
    ensures Inv(s')
  {
    hide Inv, TwoOk, Cpus;
    One(s, q);
    QuietStep(s, q, 0, s');
  }

  lemma KillKeepsInv(s: State, q: nat, s': State)
    requires Inv(s) && Kill(s, q, s')
    ensures Inv(s')
  {
    hide Inv, TwoOk, Cpus;
    One(s, q);
    QuietStep(s, q, 0, s');
  }

  lemma ForkWaitKeepsInv(s: State, i: nat, np: nat, s': State)
    requires Inv(s) && ForkWait(s, i, np, s')
    ensures Inv(s')
  {
    hide Inv, TwoOk, Cpus;
    One(s, i);
    QuietStep(s, i, 0, s');
  }

  lemma WaitCallKeepsInv(s: State, i: nat, s': State)
    requires Inv(s) && WaitCall(s, i, s')
    ensures Inv(s')
  {
    hide Inv, TwoOk, Cpus;
    One(s, i);
    QuietStep(s, i, 0, s');
  }

  lemma WaitAcquireKeepsInv(s: State, i: nat, s': State)
    requires Inv(s) && WaitAcquire(s, i, s')
    ensures Inv(s')
  {
    hide Inv, TwoOk, Cpus;
    One(s, i);
    QuietStep(s, i, 0, s');
  }

  lemma WaitFailKeepsInv(s: State, i: nat, k: nat, kids: bool, s': State)
    requires Inv(s) && WaitFail(s, i, k, kids, s')
    ensures Inv(s')
  {
    hide Inv, TwoOk, Cpus;
    One(s, i);
    QuietStep(s, i, 0, s');
  }

  lemma WaitLockKeepsInv(s: State, i: nat, s': State)
    requires Inv(s) && WaitLock(s, i, s')
    ensures Inv(s')
  {
    hide Inv, TwoOk, Cpus;
    One(s, i);
    QuietStep(s, i, 0, s');
  }

  lemma WaitDozeKeepsInv(s: State, i: nat, s': State)
    requires Inv(s) && WaitDoze(s, i, s')
    ensures Inv(s')
  {
    hide Inv, TwoOk, Cpus;
    One(s, i);
    QuietStep(s, i, 0, s');
  }

  lemma WaitReturnKeepsInv(s: State, i: nat, got: Option<nat>, s': State)
    requires Inv(s) && WaitReturn(s, i, got, s')
    ensures Inv(s')
  {
    hide Inv, TwoOk, Cpus;
    One(s, i);
    QuietStep(s, i, 0, s');
  }

  lemma ExitEnterKeepsInv(s: State, i: nat, s': State)
    requires Inv(s) && ExitEnter(s, i, s')
    ensures Inv(s')
  {
    hide Inv, TwoOk, Cpus;
    One(s, i);
    QuietStep(s, i, 0, s');
  }

  lemma ExitWokeIKeepsInv(s: State, i: nat, k: nat, s': State)
    requires Inv(s) && ExitWokeI(s, i, k, s')
    ensures Inv(s')
  {
    hide Inv, TwoOk, Cpus;
    One(s, i);
    QuietStep(s, i, 0, s');
  }

  lemma ExitAcquireKeepsInv(s: State, i: nat, s': State)
    requires Inv(s) && ExitAcquire(s, i, s')
    ensures Inv(s')
  {
    hide Inv, TwoOk, Cpus;
    One(s, i);
    QuietStep(s, i, 0, s');
  }

  lemma ExitUnlockKeepsInv(s: State, i: nat, s': State)
    requires Inv(s) && ExitUnlock(s, i, s')
    ensures Inv(s')
  {
    hide Inv, TwoOk, Cpus;
    One(s, i);
    QuietStep(s, i, 0, s');
  }

  /** The same when the relatives have been asked one by one. */
  lemma KinStep(s: State, i: nat, s': State)
    requires Inv(s) && Moves(s, i, 0, s') && OneOk(s', i) && ForkQuiet(s.procs[i], s'.procs[i])
    requires WillWakeInit(s) ==> WillWakeInit(s') || (s.init != i && !Dozing(s.procs[s.init], s.init))
    requires forall j: nat :: j < |s.procs| && j != i ==>
      && KinOk(s'.procs[i], i, s.procs[j], j, |s.procs|, s.init, WillWakeInit(s'))
      && KinOk(s.procs[j], j, s'.procs[i], i, |s.procs|, s.init, WillWakeInit(s'))
    ensures Inv(s')
  {
    hide ForkQuiet, OneOk, ForkOk, KinOk, Cpus, WillWakeInit, Dozing;
    OthersMove(s, i, 0, s');
    forall j: nat | j < |s.procs| && j != i
      ensures TwoOk(s', i, j) && TwoOk(s', j, i)
    {
      assert TwoOk(s, i, j) && TwoOk(s, j, i) && s'.procs[j] == s.procs[j];
      QuietFork(s.procs[i], s'.procs[i], i, s.procs[j], j);
    }
    Changed(s, i, s');
  }

  lemma WaitSkipKeepsInv(s: State, i: nat, k: nat, kids: bool, s': State)
    requires Inv(s) && WaitSkip(s, i, k, kids, s')
    ensures Inv(s')
  {
    hide Inv, TwoOk, Cpus;
    One(s, i);
    KinAll(s, i);
    KinStep(s, i, s');
  }

  lemma WaitPassKeepsInv(s: State, i: nat, k: nat, kids: bool, s': State)
    requires Inv(s) && WaitPass(s, i, k, kids, s')
    ensures Inv(s')
  {
    hide Inv, TwoOk, Cpus;
    One(s, i);
    KinAll(s, i);
    KinStep(s, i, s');
  }

  lemma WaitMoreKeepsInv(s: State, i: nat, kids: bool, s': State)
    requires Inv(s) && WaitMore(s, i, kids, s')
    ensures Inv(s')
  {
    hide Inv, TwoOk, Cpus;
    One(s, i);
    KinAll(s, i);
    KinStep(s, i, s');
  }

  lemma KinAll(s: State, i: nat)
    requires Inv(s) && i < |s.procs|
    ensures forall j: nat :: j < |s.procs| && j != i ==>
      && KinOk(s.procs[i], i, s.procs[j], j, |s.procs|, s.init, WillWakeInit(s))
      && KinOk(s.procs[j], j, s.procs[i], i, |s.procs|, s.init, WillWakeInit(s))
  {
    hide KinOk, WillWakeInit, ForkOk, OneOk;
    forall j: nat | j < |s.procs| && j != i
      ensures KinOk(s.procs[i], i, s.procs[j], j, |s.procs|, s.init, WillWakeInit(s))
      ensures KinOk(s.procs[j], j, s.procs[i], i, |s.procs|, s.init, WillWakeInit(s))
    {
      assert TwoOk(s, i, j) && TwoOk(s, j, i);
    }
  }

  lemma WaitUnlockKeepsInv(s: State, i: nat, s': State)
    requires Inv(s) && WaitUnlock(s, i, s')
    ensures Inv(s')
  {
    hide Inv, TwoOk, Cpus;
    One(s, i);
    KinAll(s, i);
    forall j: nat | j < |s.procs| && j != i
      ensures KinOk(s'.procs[i], i, s.procs[j], j, |s.procs|, s.init, WillWakeInit(s'))
    {
      One(s, j);
    }
    KinStep(s, i, s');
  }

  lemma ExitKeepKeepsInv(s: State, i: nat, k: nat, s': State)
    requires Inv(s) && ExitKeep(s, i, k, s')
    ensures Inv(s')
  {
    hide Inv, TwoOk, Cpus;
    One(s, i);
    KinAll(s, i);
    KinStep(s, i, s');
  }

  lemma ExitGivenKeepsInv(s: State, i: nat, s': State)
    requires Inv(s) && ExitGiven(s, i, s')
    ensures Inv(s')
  {
    hide Inv, TwoOk, Cpus;
    One(s, i);
    KinAll(s, i);
    KinStep(s, i, s');
  }

  lemma ExitWokePKeepsInv(s: State, i: nat, s': State)
    requires Inv(s) && ExitWokeP(s, i, s')
    ensures Inv(s')
  {
    hide Inv, TwoOk, Cpus;
    One(s, i);
    KinAll(s, i);
    KinStep(s, i, s');
  }

  lemma ExitZombieKeepsInv(s: State, i: nat, s': State)
    requires Inv(s) && ExitZombie(s, i, s')
    ensures Inv(s')
  {
    hide Inv, TwoOk, Cpus;
    One(s, i);
    KinAll(s, i);
    forall j: nat | j < |s.procs| && j != i
      ensures KinOk(s.procs[j], j, s'.procs[i], i, |s.procs|, s.init, WillWakeInit(s'))
    {
      One(s, j);
    }
    KinStep(s, i, s');
  }

  /** One wakeup inside kexit. */
  lemma WokenKeepsInv(s: State, q: nat, chan: Chan, s': State)
    requires Inv(s) && Unlocked(s, q) && s' == Set(s, q, Woken(s.procs[q], chan)) && s.waitLock != Some(q)
    ensures Inv(s') && WillWakeInit(s') == WillWakeInit(s)
    ensures chan == OfProc(q) ==> !Dozing(s'.procs[q], q)
  {
    hide Inv, TwoOk, Cpus;
    One(s, q);
    QuietStep(s, q, 0, s');
  }

  lemma ExitWakeIKeepsInv(s: State, i: nat, k: nat, q: nat, s': State)
    requires Inv(s) && ExitWakeI(s, i, k, q, s')
    ensures Inv(s')
  {
    assert OneOk(s, i);
    var s1 := if q == i then s else Set(s, q, Woken(s.procs[q], OfProc(s.init)));
    if q != i {
      WokenKeepsInv(s, q, OfProc(s.init), s1);
    }
    PassInit(s1, i, k, q, s');
  }

  lemma PassInit(s: State, i: nat, k: nat, q: nat, s': State)
    requires Inv(s) && Is(s, i, ExitWakeInit(k, q)) && q < |s.procs| && s' == At(s, i, ExitWakeInit(k, q + 1))
    requires q == s.init ==> !Dozing(s.procs[q], q)
    ensures Inv(s')
  {
    hide Inv, TwoOk, Cpus;
    One(s, i);
    KinAll(s, i);
    KinStep(s, i, s');
  }

  lemma ExitWakePKeepsInv(s: State, i: nat, q: nat, s': State)
    requires Inv(s) && ExitWakeP(s, i, q, s')
    ensures Inv(s')
  {
    assert OneOk(s, i);
    var s1 := if q == i then s else Set(s, q, Woken(s.procs[q], ChanOf(s.procs[i].parent)));
    if q != i {
      WokenKeepsInv(s, q, ChanOf(s.procs[i].parent), s1);
    }
    PassParent(s1, i, q, s');
  }

  lemma PassParent(s: State, i: nat, q: nat, s': State)
    requires Inv(s) && Is(s, i, ExitWakeParent(q)) && q < |s.procs| && s' == At(s, i, ExitWakeParent(q + 1))
    requires s.procs[i].parent == Some(q) ==> !Dozing(s.procs[q], q)
    ensures Inv(s')
  {
    hide Inv, TwoOk, Cpus;
    One(s, i);
    KinAll(s, i);
    KinStep(s, i, s');
  }

  lemma WaitReapKeepsInv(s: State, i: nat, k: nat, kids: bool, s': State)
    requires Inv(s) && WaitReap(s, i, k, kids, s')
    ensures Inv(s')
  {
    assert OneOk(s, i) && OneOk(s, k);
    ReapKeepsInv(s, i, k);
    ReapLeaves(Set(s, k, Freed()), i, k, s');
  }

  lemma ReapKeepsInv(s: State, i: nat, k: nat)
    requires Inv(s) && Unlocked(s, k) && s.procs[k].state == ZOMBIE && s.waitLock == Some(i) && i != k
    ensures Inv(Set(s, k, Freed()))
  {
    hide Inv, TwoOk, Cpus;
    One(s, k);
    QuietStep(s, k, 0, Set(s, k, Freed()));
  }

  lemma ReapLeaves(s: State, i: nat, k: nat, s': State)
    requires Inv(s) && i < |s.procs| && s.procs[i].pc.WaitScan? && s' == At(s, i, WaitLeave(Some(k)))
    ensures Inv(s')
  {
    hide Inv, TwoOk, Cpus;
    One(s, i);
    QuietStep(s, i, 0, s');
  }

  // ---- steps that change two processes ----

  ghost predicate KinBoth(s: State, i: nat, j: nat) {
    && i < |s.procs| && j < |s.procs|
    && KinOk(s.procs[i], i, s.procs[j], j, |s.procs|, s.init, WillWakeInit(s))
    && KinOk(s.procs[j], j, s.procs[i], i, |s.procs|, s.init, WillWakeInit(s))
  }

  ghost predicate ForkBoth(s: State, i: nat, j: nat) {
    && i < |s.procs| && j < |s.procs|
    && ForkOk(s.procs[i], i, s.procs[j], j) && ForkOk(s.procs[j], j, s.procs[i], i)
  }

  ghost predicate MovesTwo(s: State, i: nat, k: nat, s': State) {
    && i < |s.procs| && k < |s.procs| && i != k && |s'.procs| == |s.procs| && s'.init == s.init && s'.cpus == s.cpus
    && s'.procs == s.procs[i := s'.procs[i]][k := s'.procs[k]]
    && s'.procs[i].cpu == s.procs[i].cpu && s'.procs[k].cpu == s.procs[k].cpu
    && (s'.waitLock == s.waitLock || (s.waitLock in {None, Some(i)} && s'.waitLock in {None, Some(i)}))
  }

  lemma OthersMoveTwo(s: State, i: nat, k: nat, s': State)
    requires Inv(s) && MovesTwo(s, i, k, s')
    ensures Cpus(s') && (s'.waitLock.Some? ==> s'.waitLock.value < |s.procs|)
    ensures forall j: nat :: j < |s.procs| && j != i && j != k ==> OneOk(s', j)
  {
    hide ProcOk, TwoOk, HoldsWait;
    forall j: nat | j < |s.procs| && j != i && j != k
      ensures OneOk(s', j)
    {
      assert OneOk(s, j);
    }
  }

  lemma TwoStep(s: State, i: nat, k: nat, s': State)
    requires Inv(s) && MovesTwo(s, i, k, s') && OneOk(s', i) && OneOk(s', k) && (WillWakeInit(s) ==> WillWakeInit(s'))
    requires forall j: nat :: j < |s.procs| && j != i ==> KinBoth(s', i, j) && ForkBoth(s', i, j)
    requires forall j: nat :: j < |s.procs| && j != k ==> KinBoth(s', k, j) && ForkBoth(s', k, j)
    ensures Inv(s')
  {
    hide OneOk, Cpus, ForkOk, ParentOk, ScanOk, WillWakeInit;
    OthersMoveTwo(s, i, k, s');
    forall j: nat, l: nat | j < |s.procs| && l < |s.procs| && j != l
      ensures TwoOk(s', j, l)
    {
      if j == i {
        assert KinBoth(s', i, l) && ForkBoth(s', i, l);
      } else if l == i {
        assert KinBoth(s', i, j) && ForkBoth(s', i, j);
      } else if j == k {
        assert KinBoth(s', k, l) && ForkBoth(s', k, l);
      } else if l == k {
        assert KinBoth(s', k, j) && ForkBoth(s', k, j);
      } else {
        assert TwoOk(s, j, l);
      }
    }
  }

  /** Both changes are quiet as far as relatives go. */
  lemma QuietTwo(s: State, i: nat, k: nat, s': State)
    requires Inv(s) && MovesTwo(s, i, k, s') && OneOk(s', i) && OneOk(s', k) && WillWakeInit(s) == WillWakeInit(s')
    requires Quiet(s.procs[i], s'.procs[i], i, |s.procs|) && Quiet(s.procs[k], s'.procs[k], k, |s.procs|)
    requires forall j: nat :: j < |s.procs| && j != i ==> ForkBoth(s', i, j)
    requires forall j: nat :: j < |s.procs| && j != k ==> ForkBoth(s', k, j)
    ensures Inv(s')
  {
    hide Quiet, OneOk, ForkOk, KinOk, WillWakeInit;
    forall j: nat | j < |s.procs| && j != i
      ensures KinBoth(s', i, j)
    {
      QuietPair(s, i, j, k, s');
    }
    forall j: nat | j < |s.procs| && j != k
      ensures KinBoth(s', k, j)
    {
      QuietPair(s, k, j, i, s');
    }
    TwoStep(s, i, k, s');
  }

  lemma QuietPair(s: State, i: nat, j: nat, k: nat, s': State)
    requires Inv(s) && i < |s.procs| && j < |s.procs| && k < |s.procs| && i != j && i != k && |s'.procs| == |s.procs|
    requires s'.init == s.init && s'.procs == s.procs[i := s'.procs[i]][k := s'.procs[k]]
    requires WillWakeInit(s) == WillWakeInit(s')
    requires Quiet(s.procs[i], s'.procs[i], i, |s.procs|) && Quiet(s.procs[k], s'.procs[k], k, |s.procs|)
    ensures KinBoth(s', i, j)
  {
    hide Quiet, OneOk, ForkOk, KinOk, WillWakeInit;
    assert TwoOk(s, i, j) && TwoOk(s, j, i);
    QuietKin(s.procs[i], s'.procs[i], i, s.procs[j], j, |s.procs|, s.init, WillWakeInit(s));
    if j == k {
      QuietKin(s.procs[k], s'.procs[k], k, s'.procs[i], i, |s.procs|, s.init, WillWakeInit(s));
    }
  }

  /** A third process j is not concerned by what i's kfork does with np. */
  lemma ForkThird(s: State, i: nat, np: nat, j: nat, s': State)
    requires Inv(s) && MovesTwo(s, i, np, s') && j < |s.procs| && j != i && j != np
    requires s.procs[i].state != USED
    requires Child(s.procs[i].pc) == Some(np) || (Child(s.procs[i].pc) == None && s.procs[np].state == UNUSED)
    requires Child(s'.procs[i].pc) == None || Child(s'.procs[i].pc) == Some(np)
    requires Child(s.procs[np].pc) == None && Child(s'.procs[np].pc) == None
    ensures ForkBoth(s', i, j) && ForkBoth(s', np, j)
  {
    hide KinOk, OneOk, WillWakeInit;
    assert TwoOk(s, i, j) && TwoOk(s, j, i) && TwoOk(s, np, j) && TwoOk(s, j, np);
  }

  lemma QuietMaker(p: Proc, pc: Pc, i: nat, n: nat)
    requires p.state == RUNNING && (p.pc == Kernel || Making(p.pc)) && (pc == Kernel || Making(pc))
    ensures Quiet(p, p.(pc := pc), i, n)
  {
  }

  lemma QuietMade(p: Proc, p': Proc, i: nat, n: nat)
    requires p'.parent == p.parent || p'.parent == None
    requires p.state in {UNUSED, USED} && p.pc in {NoThread, Away(Entry)}
    requires p'.state in {UNUSED, USED, RUNNABLE} && p'.pc in {NoThread, Away(Entry)}
    ensures Quiet(p, p', i, n)
  {
  }

  lemma MakerOk(p: Proc, pc: Pc, i: nat, n: nat, init: nat, cpus: seq<Cpu>)
    requires ProcOk(p, i, n, init) && CpuOk(p, i, cpus) && (p.pc == Kernel || Making(p.pc))
    requires pc == Kernel || (Making(pc) && Child(pc).value < n && Child(pc).value != i)
    ensures ProcOk(p.(pc := pc), i, n, init) && CpuOk(p.(pc := pc), i, cpus)
  {
  }

  lemma MadeOk(p: Proc, p': Proc, i: nat, n: nat, init: nat, cpus: seq<Cpu>)
    requires ProcOk(p, i, n, init) && (p.state == UNUSED || p.state == USED) && p'.cpu == None
    requires p'.parent == p.parent || p'.parent == None
    requires || p' == Freed() || (p'.state == USED && p'.pc == Away(Entry))
             || (p'.state == RUNNABLE && p'.pc == Away(Entry) && p'.lock == None && p'.parent.Some?)
    ensures ProcOk(p', i, n, init) && CpuOk(p', i, cpus)
  {
  }

  lemma SameWill(s: State, i: nat, np: nat, s': State)
    requires MovesTwo(s, i, np, s') && s'.waitLock == s.waitLock
    requires !s.procs[i].pc.ExitWakeInit? && !s'.procs[i].pc.ExitWakeInit?
    requires !s.procs[np].pc.ExitWakeInit? && !s'.procs[np].pc.ExitWakeInit?
    ensures WillWakeInit(s) == WillWakeInit(s')
  {
  }

  lemma ForkStep(s: State, i: nat, np: nat, s': State)
    requires Inv(s) && MovesTwo(s, i, np, s') && OneOk(s', i) && OneOk(s', np) && WillWakeInit(s) == WillWakeInit(s')
    requires Quiet(s.procs[i], s'.procs[i], i, |s.procs|) && Quiet(s.procs[np], s'.procs[np], np, |s.procs|)
    requires s.procs[i].state != USED
    requires Child(s.procs[i].pc) == Some(np) || (Child(s.procs[i].pc) == None && s.procs[np].state == UNUSED)
    requires Child(s'.procs[i].pc) == None || Child(s'.procs[i].pc) == Some(np)
    requires Child(s.procs[np].pc) == None && Child(s'.procs[np].pc) == None && ForkBoth(s', i, np)
    ensures Inv(s')
  {
    hide KinOk, OneOk, WillWakeInit, Quiet, Child, TwoOk, ForkOk;
    forall j: nat | j < |s.procs| && j != i && j != np
      ensures ForkBoth(s', i, j) && ForkBoth(s', np, j)
    {
      ForkThird(s, i, np, j, s');
    }
    QuietTwo(s, i, np, s');
  }

  /** What is known of kfork's caller i and of the slot np before a step of kfork. */
  lemma MakerFacts(s: State, i: nat, np: nat)
    requires Inv(s) && i < |s.procs| && np < |s.procs| && (s.procs[i].pc == Kernel || Child(s.procs[i].pc) == Some(np))
    requires s.procs[i].pc == Kernel ==> s.procs[np].state == UNUSED
    ensures i != np && s.procs[i].state != USED && s.procs[np].cpu == None
    ensures s.procs[np].pc == if s.procs[i].pc == Kernel then NoThread else Away(Entry)
    ensures s.procs[i].pc == Kernel ==> s.procs[np].parent == None
    ensures s.procs[i].pc != Kernel ==> s.procs[np].state == USED && ForkOk(s.procs[i], i, s.procs[np], np)
  {
    hide KinOk, Cpus, CpuOk;
    assert OneOk(s, i) && OneOk(s, np);
    assert i != np ==> TwoOk(s, i, np);
  }

  /** A step of kfork: its caller i goes on to pc, and the child np becomes q. */
  ghost predicate Makes(s: State, i: nat, np: nat, s': State, pc: Pc, q: Proc) {
    && i < |s.procs| && np < |s.procs| && i != np && s' == At(Set(s, np, q), i, pc)
    && (if s.procs[i].pc == Kernel then s.procs[np].state == UNUSED && s.procs[np].pc == NoThread
        else
          Making(s.procs[i].pc) && s.procs[i].pc.np == np && s.procs[np].state == USED && s.procs[np].pc == Away(Entry))
    && (pc == Kernel || (Making(pc) && pc.np == np)) && !s.procs[i].pc.ForkLinking? && !pc.ForkLinking?
    && q.cpu == None == s.procs[np].cpu && (q.parent == s.procs[np].parent || q.parent == None)
    && (|| q == Freed() || (q.state == USED && q.pc == Away(Entry))
        || (q.state == RUNNABLE && q.pc == Away(Entry) && q.lock == None && q.parent.Some?))
  }

  lemma MakeStep(s: State, i: nat, np: nat, s': State, pc: Pc, q: Proc)
    requires Inv(s) && Makes(s, i, np, s', pc, q) && ForkOk(s.procs[i].(pc := pc), i, q, np)
    ensures Inv(s')
  {
    hide Inv, OneOk, Quiet, WillWakeInit, ForkOk, ForkBoth, Makes;
    MakesTwo(s, i, np, s', pc, q);
    MakesPcs(s, i, np, s', pc, q);
    MakeOnes(s, i, np, s', pc, q);
    MakeQuiet(s, i, np, s', pc, q);
    ForkPair(s', i, np);
    SameWill(s, i, np, s');
    ForkStep(s, i, np, s');
  }

  lemma MakesTwo(s: State, i: nat, np: nat, s': State, pc: Pc, q: Proc)
    requires Makes(s, i, np, s', pc, q)
    ensures MovesTwo(s, i, np, s') && s'.waitLock == s.waitLock && s'.procs[i] == s.procs[i].(pc := pc)
      && s'.procs[np] == q
  {
    hide Making;
  }

  lemma MakesPcs(s: State, i: nat, np: nat, s': State, pc: Pc, q: Proc)
    requires Makes(s, i, np, s', pc, q)
    ensures !s.procs[i].pc.ExitWakeInit? && !pc.ExitWakeInit? && !s.procs[np].pc.ExitWakeInit? && !q.pc.ExitWakeInit?
    ensures Child(s.procs[i].pc) == Some(np) || (Child(s.procs[i].pc) == None && s.procs[np].state == UNUSED)
    ensures (Child(pc) == None || Child(pc) == Some(np)) && Child(s.procs[np].pc) == None && Child(q.pc) == None
    ensures !HoldsWait(s.procs[i].pc) && !HoldsWait(pc) && !HoldsWait(s.procs[np].pc) && !HoldsWait(q.pc)
  {
    PcKinds(s.procs[i].pc, np);
    PcKinds(pc, np);
    PcKinds(s.procs[np].pc, np);
    PcKinds(q.pc, np);
    hide Child, HoldsWait;
  }

  lemma PcKinds(pc: Pc, np: nat)
    requires pc in {Kernel, NoThread, Away(Entry)} || (Making(pc) && pc.np == np)
    ensures !pc.ExitWakeInit? && Child(pc) == (if Making(pc) then Some(np) else None)
    ensures HoldsWait(pc) <==> pc.ForkLinking?
  {
  }

  lemma SameOne(s: State, s': State, i: nat)
    requires OneOk(s, i) && |s'.procs| == |s.procs| && s'.init == s.init && s'.cpus == s.cpus
      && s'.waitLock == s.waitLock
    requires ProcOk(s'.procs[i], i, |s.procs|, s.init) && CpuOk(s'.procs[i], i, s.cpus)
    requires HoldsWait(s'.procs[i].pc) == HoldsWait(s.procs[i].pc)
    ensures OneOk(s', i)
  {
    hide ProcOk, CpuOk, HoldsWait;
  }

  lemma MakeOnes(s: State, i: nat, np: nat, s': State, pc: Pc, q: Proc)
    requires Inv(s) && Makes(s, i, np, s', pc, q)
    ensures OneOk(s', i) && OneOk(s', np) && s.procs[i].state == RUNNING
  {
    One(s, i);
    One(s, np);
    MakesTwo(s, i, np, s', pc, q);
    MakesPcs(s, i, np, s', pc, q);
    var n := |s.procs|;
    hide Inv, CpuOk, ProcOk;
    RunsHere(s.procs[i], i, n, s.init);
    MakerOk(s.procs[i], pc, i, n, s.init, s.cpus);
    MadeOk(s.procs[np], q, np, n, s.init, s.cpus);
    hide Makes, OneOk;
    SameOne(s, s', i);
    SameOne(s, s', np);
  }

  lemma MakeQuiet(s: State, i: nat, np: nat, s': State, pc: Pc, q: Proc)
    requires Makes(s, i, np, s', pc, q) && s.procs[i].state == RUNNING
    ensures Quiet(s.procs[i], s'.procs[i], i, |s.procs|) && Quiet(s.procs[np], s'.procs[np], np, |s.procs|)
  {
    hide Quiet;
    QuietMaker(s.procs[i], pc, i, |s.procs|);
    QuietMade(s.procs[np], q, np, |s.procs|);
  }

  lemma RunsHere(p: Proc, i: nat, n: nat, init: nat)
    requires ProcOk(p, i, n, init) && (p.pc == Kernel || Making(p.pc))
    ensures p.state == RUNNING
  {
  }

  lemma ForkPair(s: State, i: nat, np: nat)
    requires i < |s.procs| && np < |s.procs| && Child(s.procs[np].pc) == None && ForkOk(s.procs[i], i, s.procs[np], np)
    ensures ForkBoth(s, i, np)
  {
  }

  lemma ForkAllocKeepsInv(s: State, i: nat, np: nat, s': State)
    requires Inv(s) && ForkAlloc(s, i, np, s')
    ensures Inv(s')
  {
    MakerFacts(s, i, np);
    hide Inv;
    MakeStep(s, i, np, s', ForkHas(np), s.procs[np].(state := USED, lock := s.procs[i].cpu, pc := Away(Entry)));
  }

  lemma ForkFailKeepsInv(s: State, i: nat, np: nat, s': State)
    requires Inv(s) && ForkFail(s, i, np, s')
    ensures Inv(s')
  {
    MakerFacts(s, i, np);
    hide Inv;
    MakeStep(s, i, np, s', Kernel, Freed());
  }

  lemma ForkUnlockKeepsInv(s: State, i: nat, np: nat, s': State)
    requires Inv(s) && ForkUnlock(s, i, np, s')
    ensures Inv(s')
  {
    MakerFacts(s, i, np);
    hide Inv;
    MakeStep(s, i, np, s', ForkUnlinked(np), s.procs[np].(lock := None));
  }

  lemma ForkRunKeepsInv(s: State, i: nat, np: nat, s': State)
    requires Inv(s) && ForkRun(s, i, np, s')
    ensures Inv(s')
  {
    MakerFacts(s, i, np);
    hide Inv;
    MakeStep(s, i, np, s', Kernel, s.procs[np].(state := RUNNABLE));
  }

  lemma ForkLinkKeepsInv(s: State, i: nat, np: nat, s': State)
    requires Inv(s) && ForkLink(s, i, np, s')
    ensures Inv(s')
  {
    LinkOnes(s, i, np, s');
    LinkPair(s, i, np, s');
    hide Inv, OneOk, KinBoth, ForkBoth, KinOk, Child;
    forall j: nat | j < |s.procs| && j != i && j != np
      ensures KinBoth(s', i, j) && KinBoth(s', np, j) && ForkBoth(s', i, j) && ForkBoth(s', np, j)
    {
      ForkThird(s, i, np, j, s');
      LinkThird(s, i, np, j, s');
    }
    TwoStep(s, i, np, s');
  }

  lemma LinkOnes(s: State, i: nat, np: nat, s': State)
    requires Inv(s) && ForkLink(s, i, np, s')
    ensures i != np && MovesTwo(s, i, np, s') && OneOk(s', i) && OneOk(s', np) && (WillWakeInit(s) ==> WillWakeInit(s'))
    ensures s.procs[i].state != USED && Child(s.procs[i].pc) == Some(np) && Child(s'.procs[i].pc) == Some(np)
    ensures Child(s.procs[np].pc) == None && Child(s'.procs[np].pc) == None
  {
    hide KinOk, Cpus;
    assert OneOk(s, i) && OneOk(s, np) && TwoOk(s, i, np);
  }

  lemma LinkPair(s: State, i: nat, np: nat, s': State)
    requires Inv(s) && ForkLink(s, i, np, s') && i != np
    ensures KinBoth(s', i, np) && ForkBoth(s', i, np) && KinBoth(s', np, i) && ForkBoth(s', np, i)
  {
    hide Cpus, CpuOk;
    assert OneOk(s, i) && OneOk(s, np) && TwoOk(s, i, np) && TwoOk(s, np, i);
  }

  lemma LinkThird(s: State, i: nat, np: nat, j: nat, s': State)
    requires Inv(s) && ForkLink(s, i, np, s') && i != np && j < |s.procs| && j != i && j != np
    ensures KinBoth(s', i, j) && KinBoth(s', np, j)
  {
    hide CpuOk, Cpus;
    assert OneOk(s, i) && TwoOk(s, i, np);
    assert s.procs[np].parent == None && Alive(s.procs[i]) && !WillWakeInit(s) && !WillWakeInit(s');
    hide ForkOk, ProcOk;
    assert TwoOk(s, i, j) && TwoOk(s, j, i) && TwoOk(s, np, j) && TwoOk(s, j, np);
    LinkThirdKin(s.procs[i], i, s.procs[np], np, s.procs[j], j, |s.procs|, s.init);
  }

  lemma LinkThirdKin(p: Proc, i: nat, c: Proc, np: nat, q: Proc, j: nat, n: nat, init: nat)
    requires p.pc == ForkLinking(np) && c.parent == None && i != j
    requires KinOk(p, i, q, j, n, init, false) && KinOk(q, j, p, i, n, init, false)
    requires KinOk(c, np, q, j, n, init, false) && KinOk(q, j, c, np, n, init, false)
    ensures KinOk(p.(pc := ForkReady(np)), i, q, j, n, init, false)
      && KinOk(q, j, p.(pc := ForkReady(np)), i, n, init, false)
    ensures KinOk(c.(parent := Some(i)), np, q, j, n, init, false)
      && KinOk(q, j, c.(parent := Some(i)), np, n, init, false)
  {
  }

  lemma ExitGiveKeepsInv(s: State, i: nat, k: nat, s': State)
    requires Inv(s) && ExitGive(s, i, k, s')
    ensures Inv(s')
  {
    assert OneOk(s, i) && OneOk(s, k);
    forall j: nat | j < |s.procs| && j != i && j != k
      ensures KinBoth(s', i, j) && KinBoth(s', k, j) && ForkBoth(s', i, j) && ForkBoth(s', k, j)
    {
      GiveThird(s, i, k, j, s');
    }
    GivePair(s, i, k, s');
    TwoStep(s, i, k, s');
  }

  lemma GiveThird(s: State, i: nat, k: nat, j: nat, s': State)
    requires Inv(s) && ExitGive(s, i, k, s') && i != k && j < |s.procs| && j != i && j != k
    ensures KinBoth(s', i, j) && KinBoth(s', k, j) && ForkBoth(s', i, j) && ForkBoth(s', k, j)
  {
    hide KinOk, ForkOk;
    assert OneOk(s, i) && TwoOk(s, i, j) && TwoOk(s, j, i);
    var p, p', q, n := s.procs[i], s'.procs[i], s.procs[j], |s.procs|;
    assert !WillWakeInit(s) && WillWakeInit(s');
    GiveOld(p, p', i, k, q, j, n, s.init);
    QuietFork(p, p', i, q, j);
    assert OneOk(s, j) && OneOk(s, k) && TwoOk(s, k, j) && TwoOk(s, j, k) && TwoOk(s, k, i);
    GiveNew(s.procs[k], k, q, j, n, s.init);
    GiveFork(s.procs[k], k, q, j, s.init);
  }

  lemma GiveOld(p: Proc, p': Proc, i: nat, k: nat, q: Proc, j: nat, n: nat, init: nat)
    requires p.pc == ExitReparent(k) && p' == p.(pc := ExitWakeInit(k, 0)) && j != k
    requires KinOk(p, i, q, j, n, init, false) && KinOk(q, j, p, i, n, init, false)
    ensures KinOk(p', i, q, j, n, init, true) && KinOk(q, j, p', i, n, init, true)
  {
  }

  lemma GiveNew(p: Proc, k: nat, q: Proc, j: nat, n: nat, init: nat)
    requires ProcOk(q, j, n, init) && KinOk(p, k, q, j, n, init, false) && KinOk(q, j, p, k, n, init, false)
    requires !HoldsWait(p.pc) && !HoldsWait(q.pc)
    ensures KinOk(p.(parent := Some(init)), k, q, j, n, init, true)
      && KinOk(q, j, p.(parent := Some(init)), k, n, init, true)
  {
  }

  lemma GiveFork(p: Proc, k: nat, q: Proc, j: nat, init: nat)
    requires ForkOk(p, k, q, j) && ForkOk(q, j, p, k) && p.parent != Some(j) && p.parent != None
    ensures ForkOk(p.(parent := Some(init)), k, q, j) && ForkOk(q, j, p.(parent := Some(init)), k)
  {
  }

  lemma GivePair(s: State, i: nat, k: nat, s': State)
    requires Inv(s) && ExitGive(s, i, k, s') && i != k
    ensures KinBoth(s', i, k) && ForkBoth(s', i, k)
  {
    assert OneOk(s, i) && OneOk(s, k);
    assert TwoOk(s, i, k) && TwoOk(s, k, i);
  }

  // ---- who holds the lock of a slot that is being set up ----

  /** The CPU that holds the lock of a USED slot runs the kfork that has just got it. */
  ghost predicate HeldOk(s: State, i: nat) {
    i < |s.procs| && s.procs[i].state == USED && s.procs[i].lock.Some? ==>
      var c := s.procs[i].lock.value;
      && c < |s.cpus| && s.cpus[c].Thread? && s.cpus[c].i < |s.procs|
      && s.procs[s.cpus[c].i].pc == ForkHas(i)
  }

  ghost predicate Held(s: State) {
    forall i: nat :: i < |s.procs| ==> HeldOk(s, i)
  }

  /** It runs on: the slots it holds the lock of are still its own. */
  lemma HeldAfter(s: State, s': State)
    requires Inv(s) && Inv(s') && Held(s) && AllChange(s, s')
    ensures Held(s')
  {
    hide Inv;
    forall j: nat | j < |s.procs|
      ensures HeldOk(s', j)
    {
      assert HeldOk(s, j) && Changes(s, j, s');
      if s'.procs[j].state == USED && s'.procs[j].lock.Some? {
        if i: nat :| Takes(s, i, j, s') {
          MakerHolds(s', i, j);
          MakerRuns(s, i);
        } else {
          var m := s.cpus[s.procs[j].lock.value].i;
          assert Changes(s, m, s');
          MakerRuns(s, m);
          LockIsCpu(s, j);
          MakerHolds(s', m, j);
        }
      }
    }
  }

  lemma MakerRuns(s: State, i: nat)
    requires Inv(s) && i < |s.procs| && (s.procs[i].pc.ForkHas? || s.procs[i].pc == Kernel)
    ensures s.procs[i].state == RUNNING && s.procs[i].cpu.Some?
  {
    assert OneOk(s, i);
  }

  lemma LockIsCpu(s: State, j: nat)
    requires Inv(s) && j < |s.procs| && s.procs[j].state == USED && s.procs[j].lock.Some? && HeldOk(s, j)
    ensures s.procs[s.cpus[s.procs[j].lock.value].i].cpu == s.procs[j].lock
  {
    hide OneOk, TwoOk;
  }

  lemma MakerHolds(s: State, i: nat, j: nat)
    requires Inv(s) && i < |s.procs| && j < |s.procs| && s.procs[i].pc == ForkHas(j)
    requires s.procs[i].cpu == s.procs[j].lock
    ensures HeldOk(s, j)
  {
    assert OneOk(s, i);
  }

  lemma NextHeld(s: State, s': State)
    requires Inv(s) && Inv(s') && Held(s) && Next(s, s')
    ensures Held(s')
  {
    hide Inv, Held, AllChange, Next;
    NextChanges(s, s');
    HeldAfter(s, s');
  }

  // ---- runs ----

  ghost predicate SchedStep(s: State, s': State) {
    || (exists c: nat, i: nat :: Pick(s, c, i, s'))
    || (exists c: nat, i: nat :: SwitchIn(s, c, i, s'))
    || (exists c: nat, i: nat :: SwitchOut(s, c, i, s'))
    || (exists c: nat, i: nat :: Put(s, c, i, s'))
    || (exists i: nat :: Resume(s, i, s'))
    || (exists i: nat, at: Point :: Yield(s, i, at, s'))
    || (exists i: nat, ch: nat :: SleepOn(s, i, ch, s'))
    || (exists q: nat, ch: nat :: WakeOther(s, q, ch, s'))
    || (exists q: nat :: Kill(s, q, s'))
  }

  ghost predicate ForkCall(s: State, s': State) {
    || (exists i: nat, np: nat :: ForkAlloc(s, i, np, s'))
    || (exists i: nat, np: nat :: ForkFail(s, i, np, s'))
    || (exists i: nat, np: nat :: ForkUnlock(s, i, np, s'))
    || (exists i: nat, np: nat :: ForkWait(s, i, np, s'))
    || (exists i: nat, np: nat :: ForkLink(s, i, np, s'))
    || (exists i: nat, np: nat :: ForkRun(s, i, np, s'))
  }

  ghost predicate WaitStep(s: State, s': State) {
    || (exists i: nat :: WaitCall(s, i, s'))
    || (exists i: nat :: WaitAcquire(s, i, s'))
    || (exists i: nat, k: nat, kids: bool :: WaitSkip(s, i, k, kids, s'))
    || (exists i: nat, k: nat, kids: bool :: WaitPass(s, i, k, kids, s'))
    || (exists i: nat, k: nat, kids: bool :: WaitReap(s, i, k, kids, s'))
    || (exists i: nat, k: nat, kids: bool :: WaitFail(s, i, k, kids, s'))
    || (exists i: nat, kids: bool :: WaitMore(s, i, kids, s'))
    || (exists i: nat :: WaitLock(s, i, s'))
    || (exists i: nat :: WaitUnlock(s, i, s'))
    || (exists i: nat :: WaitDoze(s, i, s'))
    || (exists i: nat, got: Option<nat> :: WaitReturn(s, i, got, s'))
  }

  ghost predicate ExitStep(s: State, s': State) {
    || (exists i: nat :: ExitEnter(s, i, s'))
    || (exists i: nat, k: nat :: ExitKeep(s, i, k, s'))
    || (exists i: nat, k: nat :: ExitGive(s, i, k, s'))
    || (exists i: nat, k: nat, q: nat :: ExitWakeI(s, i, k, q, s'))
    || (exists i: nat, k: nat :: ExitWokeI(s, i, k, s'))
    || (exists i: nat :: ExitGiven(s, i, s'))
    || (exists i: nat, q: nat :: ExitWakeP(s, i, q, s'))
    || (exists i: nat :: ExitWokeP(s, i, s'))
    || (exists i: nat :: ExitAcquire(s, i, s'))
    || (exists i: nat :: ExitZombie(s, i, s'))
    || (exists i: nat :: ExitUnlock(s, i, s'))
  }

  ghost predicate Next(s: State, s': State) {
    SchedStep(s, s') || ForkCall(s, s') || WaitStep(s, s') || ExitStep(s, s')
  }

  /** After userinit: only init exists, ready to run. */
  ghost predicate Init(s: State) {
    && s.init < |s.procs| && s.waitLock == None
    && (forall c :: 0 <= c < |s.cpus| ==> s.cpus[c] == Idle)
    && (forall i :: 0 <= i < |s.procs| ==>
          s.procs[i] == if i == s.init then Freed().(state := RUNNABLE, pc := Away(Entry)) else Freed())
  }

  ghost predicate StepAt(run: seq<State>, k: nat)
    requires k + 1 < |run|
  {
    Next(run[k], run[k + 1])
  }

  ghost predicate IsRun(run: seq<State>) {
    && |run| > 0 && Init(run[0])
    && forall k: nat :: k + 1 < |run| ==> StepAt(run, k)
  }

  lemma InitInv(s: State)
    requires Init(s)
    ensures Inv(s) && Held(s)
  {
    forall i: nat | i < |s.procs|
      ensures OneOk(s, i)
    {
    }
  }

  lemma SchedStepKeepsInv(s: State, s': State)
    requires Inv(s) && SchedStep(s, s')
    ensures Inv(s')
  {
    hide Inv, Pick, SwitchIn, SwitchOut, Put, Resume, Yield, SleepOn, WakeOther, Kill;
    if c: nat, i: nat :| Pick(s, c, i, s') {
      PickKeepsInv(s, c, i, s');
    } else if c: nat, i: nat :| SwitchIn(s, c, i, s') {
      SwitchInKeepsInv(s, c, i, s');
    } else if c: nat, i: nat :| SwitchOut(s, c, i, s') {
      SwitchOutKeepsInv(s, c, i, s');
    } else if c: nat, i: nat :| Put(s, c, i, s') {
      PutKeepsInv(s, c, i, s');
    } else if i: nat :| Resume(s, i, s') {
      ResumeKeepsInv(s, i, s');
    } else if i: nat, at: Point :| Yield(s, i, at, s') {
      YieldKeepsInv(s, i, at, s');
    } else if i: nat, ch: nat :| SleepOn(s, i, ch, s') {
      SleepOnKeepsInv(s, i, ch, s');
    } else if q: nat, ch: nat :| WakeOther(s, q, ch, s') {
      WakeOtherKeepsInv(s, q, ch, s');
    } else if q: nat :| Kill(s, q, s') {
      KillKeepsInv(s, q, s');
    }
  }

  lemma ForkCallKeepsInv(s: State, s': State)
    requires Inv(s) && ForkCall(s, s')
    ensures Inv(s')
  {
    hide Inv, ForkAlloc, ForkFail, ForkUnlock, ForkWait, ForkLink, ForkRun;
    if i: nat, np: nat :| ForkAlloc(s, i, np, s') {
      ForkAllocKeepsInv(s, i, np, s');
    } else if i: nat, np: nat :| ForkFail(s, i, np, s') {
      ForkFailKeepsInv(s, i, np, s');
    } else if i: nat, np: nat :| ForkUnlock(s, i, np, s') {
      ForkUnlockKeepsInv(s, i, np, s');
    } else if i: nat, np: nat :| ForkWait(s, i, np, s') {
      ForkWaitKeepsInv(s, i, np, s');
    } else if i: nat, np: nat :| ForkLink(s, i, np, s') {
      ForkLinkKeepsInv(s, i, np, s');
    } else if i: nat, np: nat :| ForkRun(s, i, np, s') {
      ForkRunKeepsInv(s, i, np, s');
    }
  }

  lemma WaitStepKeepsInv(s: State, s': State)
    requires Inv(s) && WaitStep(s, s')
    ensures Inv(s')
  {
    hide Inv, WaitCall, WaitAcquire, WaitSkip, WaitPass, WaitReap, WaitFail, WaitMore, WaitLock, WaitUnlock, WaitDoze,
        WaitReturn;
    if i: nat :| WaitCall(s, i, s') {
      WaitCallKeepsInv(s, i, s');
    } else if i: nat :| WaitAcquire(s, i, s') {
      WaitAcquireKeepsInv(s, i, s');
    } else if i: nat, k: nat, kids: bool :| WaitSkip(s, i, k, kids, s') {
      WaitSkipKeepsInv(s, i, k, kids, s');
    } else if i: nat, k: nat, kids: bool :| WaitPass(s, i, k, kids, s') {
      WaitPassKeepsInv(s, i, k, kids, s');
    } else if i: nat, k: nat, kids: bool :| WaitReap(s, i, k, kids, s') {
      WaitReapKeepsInv(s, i, k, kids, s');
    } else if i: nat, k: nat, kids: bool :| WaitFail(s, i, k, kids, s') {
      WaitFailKeepsInv(s, i, k, kids, s');
    } else if i: nat, kids: bool :| WaitMore(s, i, kids, s') {
      WaitMoreKeepsInv(s, i, kids, s');
    } else if i: nat :| WaitLock(s, i, s') {
      WaitLockKeepsInv(s, i, s');
    } else if i: nat :| WaitUnlock(s, i, s') {
      WaitUnlockKeepsInv(s, i, s');
    } else if i: nat :| WaitDoze(s, i, s') {
      WaitDozeKeepsInv(s, i, s');
    } else if i: nat, got: Option<nat> :| WaitReturn(s, i, got, s') {
      WaitReturnKeepsInv(s, i, got, s');
    }
  }

  lemma ExitStepKeepsInv(s: State, s': State)
    requires Inv(s) && ExitStep(s, s')
    ensures Inv(s')
  {
    hide Inv, ExitEnter, ExitKeep, ExitGive, ExitWakeI, ExitWokeI, ExitGiven, ExitWakeP, ExitWokeP, ExitAcquire,
        ExitZombie, ExitUnlock;
    if i: nat :| ExitEnter(s, i, s') {
      ExitEnterKeepsInv(s, i, s');
    } else if i: nat, k: nat :| ExitKeep(s, i, k, s') {
      ExitKeepKeepsInv(s, i, k, s');
    } else if i: nat, k: nat :| ExitGive(s, i, k, s') {
      ExitGiveKeepsInv(s, i, k, s');
    } else if i: nat, k: nat, q: nat :| ExitWakeI(s, i, k, q, s') {
      ExitWakeIKeepsInv(s, i, k, q, s');
    } else if i: nat, k: nat :| ExitWokeI(s, i, k, s') {
      ExitWokeIKeepsInv(s, i, k, s');
    } else if i: nat :| ExitGiven(s, i, s') {
      ExitGivenKeepsInv(s, i, s');
    } else if i: nat, q: nat :| ExitWakeP(s, i, q, s') {
      ExitWakePKeepsInv(s, i, q, s');
    } else if i: nat :| ExitWokeP(s, i, s') {
      ExitWokePKeepsInv(s, i, s');
    } else if i: nat :| ExitAcquire(s, i, s') {
      ExitAcquireKeepsInv(s, i, s');
    } else if i: nat :| ExitZombie(s, i, s') {
      ExitZombieKeepsInv(s, i, s');
    } else if i: nat :| ExitUnlock(s, i, s') {
      ExitUnlockKeepsInv(s, i, s');
    }
  }

  lemma NextKeepsInv(s: State, s': State)
    requires Inv(s) && Next(s, s')
    ensures Inv(s')
  {
    hide Inv, SchedStep, ForkCall, WaitStep, ExitStep;
    if SchedStep(s, s') {
      SchedStepKeepsInv(s, s');
    } else if ForkCall(s, s') {
      ForkCallKeepsInv(s, s');
    } else if WaitStep(s, s') {
      WaitStepKeepsInv(s, s');
    } else {
      ExitStepKeepsInv(s, s');
    }
  }

  /** Every state of every run satisfies the invariants. */
  lemma {:induction false} RunKeepsInv(run: seq<State>, k: nat)
    requires IsRun(run) && k < |run|
    ensures Inv(run[k]) && Held(run[k])
  {
    hide Inv, Held, Init, Next;
    if k == 0 {
      InitInv(run[0]);
    } else {
      RunKeepsInv(run, k - 1);
      assert StepAt(run, k - 1);
      NextKeepsInv(run[k - 1], run[k]);
      NextHeld(run[k - 1], run[k]);
    }
  }

  lemma RunStep(run: seq<State>, k: nat)
    requires IsRun(run) && k + 1 < |run|
    ensures Next(run[k], run[k + 1])
  {
    assert StepAt(run, k);
  }

  // ---- what one step does to one process ----

  /** It stays where it is, or is woken, picked, killed or given another parent. */
  ghost predicate Stays(p: Proc, p': Proc) {
    && p'.pc == p.pc && (p'.killed == p.killed || (p'.killed && p'.state != SLEEPING))
    && (p'.state == USED ==> p'.lock == p.lock || p'.lock == None) && (p.pc.ForkHas? ==> p'.cpu == p.cpu)
    && (|| p'.state == p.state || (p.state == SLEEPING && p'.state == RUNNABLE)
        || (p.state == RUNNABLE && p'.state == RUNNING))
  }

  /** Its thread goes on, or is switched in or out, and not to the end of kfork or kwait. */
  ghost predicate Goes(p: Proc, p': Proc) {
    && p.state != UNUSED && p'.state != UNUSED && p'.state != USED && p'.killed == p.killed
    && !p.pc.WaitScan? && !p'.pc.WaitLeave? && !p.pc.ForkHas? && !(p.pc.ForkReady? && p'.pc == Kernel)
  }

  /** The scan of i's kwait passes a slot that is no zombie child of it, or is at its end. */
  ghost predicate Scans(s: State, i: nat, s': State) {
    && i < |s.procs| == |s'.procs| && s.procs[i].pc.WaitScan? && s.procs[i].state != UNUSED
    && (s.procs[i].pc.k < |s.procs| ==>
        s.procs[s.procs[i].pc.k].parent != Some(i) || s.procs[s.procs[i].pc.k].state != ZOMBIE)
    && (exists pc: Pc :: (pc.WaitScan? || pc.WaitSleep?) && s'.procs[i] == s.procs[i].(pc := pc))
  }

  /** The scan of i's kwait has met the zombie z, its child, and freed it. */
  ghost predicate Collects(s: State, i: nat, z: nat, s': State) {
    && i < |s.procs| == |s'.procs| && z < |s.procs| && i != z
    && s.procs[i].pc.WaitScan? && s.procs[i].pc.k == z && s'.procs[i] == s.procs[i].(pc := WaitLeave(Some(z)))
    && s.procs[z].state == ZOMBIE && s.procs[z].parent == Some(i) && s.procs[z].lock == None && s'.procs[z] == Freed()
  }

  /** i's kwait returns -1: it cannot copy out the status, has no children or was killed. */
  ghost predicate Declines(s: State, i: nat, s': State) {
    && i < |s.procs| == |s'.procs| && s.procs[i].pc.WaitScan?
    && s'.procs == s.procs[i := s.procs[i].(pc := WaitLeave(None))]
    && (s.procs[i].pc.k < |s.procs| ==> s.procs[s.procs[i].pc.k].state == ZOMBIE)
    && (s.procs[i].pc.k >= |s.procs| ==> !s.procs[i].pc.kids || s.procs[i].killed)
  }

  /** i's kfork has got slot z, or gives it back. */
  ghost predicate Takes(s: State, i: nat, z: nat, s': State) {
    && i < |s.procs| == |s'.procs| && z < |s.procs| && i != z && s.procs[i].pc == Kernel
    && s'.procs[i] == s.procs[i].(pc := ForkHas(z)) && s.procs[z].state == UNUSED
    && s'.procs[z].state == USED && s'.procs[z].pc == Away(Entry) && s'.procs[z].lock == s.procs[i].cpu
  }

  /** It has filled the slot in and releases its lock. */
  ghost predicate Unlocks(s: State, i: nat, z: nat, s': State) {
    && i < |s.procs| == |s'.procs| && z < |s.procs| && i != z && s.procs[i].pc == ForkHas(z)
    && s'.procs[i] == s.procs[i].(pc := ForkUnlinked(z))
    && s.procs[z].state == USED && s'.procs[z] == s.procs[z].(lock := None)
  }

  ghost predicate Drops(s: State, i: nat, z: nat, s': State) {
    && i < |s.procs| == |s'.procs| && z < |s.procs| && i != z && s.procs[i].pc == ForkHas(z)
    && s'.procs[i] == s.procs[i].(pc := Kernel) && s.procs[z].state == USED && s'.procs[z] == Freed()
  }

  /** i's kfork returns, having made z RUNNABLE. */
  ghost predicate Starts(s: State, i: nat, z: nat, s': State) {
    && i < |s.procs| == |s'.procs| && z < |s.procs| && i != z && s.procs[i].pc == ForkReady(z)
    && s'.procs[i] == s.procs[i].(pc := Kernel) && s.procs[z].state == USED
    && s'.procs[z] == s.procs[z].(state := RUNNABLE)
  }

  ghost predicate Pair(s: State, i: nat, z: nat, s': State) {
    || Collects(s, i, z, s') || Takes(s, i, z, s') || Unlocks(s, i, z, s') || Drops(s, i, z, s')
    || Starts(s, i, z, s')
  }

  /** In kfork, kwait or kexit, and not put off. */
  ghost predicate InCall(pc: Pc) {
    Making(pc) || pc.WaitEnter? || pc.WaitScan? || pc.WaitSleep? || pc.WaitLocked? || pc.WaitMark? || pc.WaitLeave?
    || pc.ExitReparent? || pc.ExitWakeInit? || pc.ExitWakeParent? || pc.ExitLock? || pc.ExitMark? || pc.ExitRelease?
  }

  /** How far a call is from its end; for kwait also from going to sleep. */
  ghost function ToGo(pc: Pc, n: nat): (int, int) {
    match pc
    case ForkHas(_) => (4, 0)
    case ForkUnlinked(_) => (3, 0)
    case ForkLinking(_) => (2, 0)
    case ForkReady(_) => (1, 0)
    case WaitEnter => (n + 5, 0)
    case WaitScan(k, _) => (n - k + 4, 0)
    case WaitSleep => (3, 0)
    case WaitLocked => (2, 0)
    case WaitMark => (1, 0)
    case WaitLeave(_) => (1, 0)
    case ExitReparent(k) => (n - k + 4, 0)
    case ExitWakeInit(k, q) => (n - k + 3, n - q + 1)
    case ExitWakeParent(q) => (3, n - q)
    case ExitLock => (2, 0)
    case ExitMark => (1, 0)
    case ExitRelease => (0, 1)
    case _ => (0, 0)
  }

  ghost predicate Less(a: (int, int), b: (int, int)) {
    a.0 < b.0 || (a.0 == b.0 && a.1 < b.1)
  }

  /** A call goes on towards its end or is made to yield; sched() comes back to where it was. */
  ghost predicate Flows(pc: Pc, pc': Pc, n: nat) {
    && (InCall(pc) ==> Less(ToGo(pc', n), ToGo(pc, n)) || (pc'.Leave? && pc'.why.Yielding? && PcAt(pc'.why.at) == pc))
    && (pc.Leave? ==> pc' == Away(pc.why)) && (pc.Back? ==> pc' == PcAfter(pc.why))
    && (pc.Away? ==> pc' == Back(pc.why) || (pc'.NoThread? && (pc.why.Entry? || pc.why.Exiting?)))
  }

  /** What a step does to process x. */
  ghost predicate Changes(s: State, x: nat, s': State) {
    && x < |s.procs| == |s'.procs|
    && (s'.procs[x].pc == s.procs[x].pc || Flows(s.procs[x].pc, s'.procs[x].pc, |s.procs|))
    && (|| Stays(s.procs[x], s'.procs[x]) || Goes(s.procs[x], s'.procs[x]) || Scans(s, x, s') || Declines(s, x, s')
        || (exists z: nat :: Pair(s, x, z, s')) || (exists i: nat :: Pair(s, i, x, s')))
  }

  ghost predicate AllChange(s: State, s': State) {
    |s'.procs| == |s.procs| && forall x: nat :: x < |s.procs| ==> Changes(s, x, s')
  }

  lemma OneChanges(s: State, i: nat, s': State)
    requires i < |s.procs| && |s'.procs| == |s.procs| && s'.procs == s.procs[i := s'.procs[i]] && Changes(s, i, s')
    ensures AllChange(s, s')
  {
    hide Declines, Scans, Pair, Goes;
    forall x: nat | x < |s.procs|
      ensures Changes(s, x, s')
    {
      if x != i {
        assert Stays(s.procs[x], s'.procs[x]);
      }
    }
  }

  lemma TwoChange(s: State, i: nat, k: nat, s': State)
    requires i < |s.procs| && k < |s.procs| && |s'.procs| == |s.procs|
    requires s'.procs == s.procs[i := s'.procs[i]][k := s'.procs[k]]
    requires Changes(s, i, s') && Changes(s, k, s')
    ensures AllChange(s, s')
  {
    hide Declines, Scans, Pair, Goes;
    forall x: nat | x < |s.procs|
      ensures Changes(s, x, s')
    {
      if x != i && x != k {
        assert Stays(s.procs[x], s'.procs[x]);
      }
    }
  }

  lemma PickChanges(s: State, c: nat, i: nat, s': State)
    requires Inv(s) && Pick(s, c, i, s')
    ensures AllChange(s, s')
  {
    hide Inv, TwoOk, Cpus, CpuOk;
    One(s, i);
    OneChanges(s, i, s');
  }

  lemma SwitchInChanges(s: State, c: nat, i: nat, s': State)
    requires Inv(s) && SwitchIn(s, c, i, s')
    ensures AllChange(s, s')
  {
    hide TwoOk;
    One(s, i);
    OneChanges(s, i, s');
  }

  lemma SwitchOutChanges(s: State, c: nat, i: nat, s': State)
    requires Inv(s) && SwitchOut(s, c, i, s')
    ensures AllChange(s, s')
  {
    hide TwoOk;
    One(s, i);
    OneChanges(s, i, s');
  }

  lemma PutChanges(s: State, c: nat, i: nat, s': State)
    requires Inv(s) && Put(s, c, i, s')
    ensures AllChange(s, s')
  {
    hide TwoOk;
    One(s, i);
    OneChanges(s, i, s');
  }

  lemma ResumeChanges(s: State, i: nat, s': State)
    requires Inv(s) && Resume(s, i, s')
    ensures AllChange(s, s')
  {
    hide Inv, TwoOk, Cpus, CpuOk;
    One(s, i);
    OneChanges(s, i, s');
  }

  lemma YieldChanges(s: State, i: nat, at: Point, s': State)
    requires Inv(s) && Yield(s, i, at, s')
    ensures AllChange(s, s')
  {
    hide Inv, TwoOk, Cpus, CpuOk;
    One(s, i);
    OneChanges(s, i, s');
  }

  lemma SleepOnChanges(s: State, i: nat, ch: nat, s': State)
    requires Inv(s) && SleepOn(s, i, ch, s')
    ensures AllChange(s, s')
  {
    hide Inv, TwoOk, Cpus, CpuOk;
    One(s, i);
    OneChanges(s, i, s');
  }

  lemma WakeOtherChanges(s: State, q: nat, ch: nat, s': State)
    requires Inv(s) && WakeOther(s, q, ch, s')
    ensures AllChange(s, s')
  {
    hide Inv, TwoOk, Cpus, CpuOk;
    One(s, q);
    OneChanges(s, q, s');
  }

  lemma KillChanges(s: State, q: nat, s': State)
    requires Inv(s) && Kill(s, q, s')
    ensures AllChange(s, s')
  {
    hide Inv, TwoOk, Cpus, CpuOk;
    One(s, q);
    OneChanges(s, q, s');
  }

  lemma ForkAllocChanges(s: State, i: nat, np: nat, s': State)
    requires Inv(s) && ForkAlloc(s, i, np, s')
    ensures AllChange(s, s')
  {
    hide Inv, TwoOk, Cpus, CpuOk, ChanOk, InitOk, HoldsWait;
    MakerFacts(s, i, np);
    One(s, i);
    One(s, np);
    assert Pair(s, i, np, s');
    assert Flows(s.procs[i].pc, s'.procs[i].pc, |s.procs|) && Flows(s.procs[np].pc, s'.procs[np].pc, |s.procs|);
    hide Flows, Pair, OneOk;
    TwoChange(s, i, np, s');
  }

  lemma ForkFailChanges(s: State, i: nat, np: nat, s': State)
    requires Inv(s) && ForkFail(s, i, np, s')
    ensures AllChange(s, s')
  {
    hide Inv, TwoOk, Cpus, CpuOk, ChanOk, InitOk, HoldsWait;
    MakerFacts(s, i, np);
    One(s, i);
    One(s, np);
    assert Pair(s, i, np, s');
    assert Flows(s.procs[i].pc, s'.procs[i].pc, |s.procs|) && Flows(s.procs[np].pc, s'.procs[np].pc, |s.procs|);
    hide Flows, Pair, OneOk;
    TwoChange(s, i, np, s');
  }

  lemma ForkUnlockChanges(s: State, i: nat, np: nat, s': State)
    requires Inv(s) && ForkUnlock(s, i, np, s')
    ensures AllChange(s, s')
  {
    MakerFacts(s, i, np);
    hide Inv, TwoOk, Cpus, CpuOk;
    One(s, i);
    One(s, np);
    assert Pair(s, i, np, s');
    TwoChange(s, i, np, s');
  }

  lemma ForkWaitChanges(s: State, i: nat, np: nat, s': State)
    requires Inv(s) && ForkWait(s, i, np, s')
    ensures AllChange(s, s')
  {
    hide Inv, TwoOk, Cpus, CpuOk;
    One(s, i);
    OneChanges(s, i, s');
  }

  lemma ForkLinkChanges(s: State, i: nat, np: nat, s': State)
    requires Inv(s) && ForkLink(s, i, np, s')
    ensures AllChange(s, s')
  {
    MakerFacts(s, i, np);
    hide Inv, TwoOk, Cpus, CpuOk;
    One(s, i);
    One(s, np);
    TwoChange(s, i, np, s');
  }

  lemma ForkRunChanges(s: State, i: nat, np: nat, s': State)
    requires Inv(s) && ForkRun(s, i, np, s')
    ensures AllChange(s, s')
  {
    MakerFacts(s, i, np);
    hide Inv, TwoOk, Cpus, CpuOk;
    One(s, i);
    One(s, np);
    assert Pair(s, i, np, s');
    TwoChange(s, i, np, s');
  }

  lemma WaitCallChanges(s: State, i: nat, s': State)
    requires Inv(s) && WaitCall(s, i, s')
    ensures AllChange(s, s')
  {
    hide Inv, TwoOk, Cpus, CpuOk;
    One(s, i);
    OneChanges(s, i, s');
  }

  lemma WaitAcquireChanges(s: State, i: nat, s': State)
    requires Inv(s) && WaitAcquire(s, i, s')
    ensures AllChange(s, s')
  {
    hide Inv, TwoOk, Cpus, CpuOk;
    One(s, i);
    OneChanges(s, i, s');
  }

  lemma WaitSkipChanges(s: State, i: nat, k: nat, kids: bool, s': State)
    requires Inv(s) && WaitSkip(s, i, k, kids, s')
    ensures AllChange(s, s')
  {
    hide Inv, TwoOk, Cpus, CpuOk;
    One(s, i);
    OneChanges(s, i, s');
  }

  lemma WaitPassChanges(s: State, i: nat, k: nat, kids: bool, s': State)
    requires Inv(s) && WaitPass(s, i, k, kids, s')
    ensures AllChange(s, s')
  {
    hide Inv, TwoOk, Cpus, CpuOk;
    One(s, i);
    OneChanges(s, i, s');
  }

  lemma WaitReapChanges(s: State, i: nat, k: nat, kids: bool, s': State)
    requires Inv(s) && WaitReap(s, i, k, kids, s')
    ensures AllChange(s, s')
  {
    hide Inv, TwoOk, Cpus, CpuOk;
    One(s, i);
    One(s, k);
    assert Pair(s, i, k, s');
    TwoChange(s, i, k, s');
  }

  lemma WaitFailChanges(s: State, i: nat, k: nat, kids: bool, s': State)
    requires Inv(s) && WaitFail(s, i, k, kids, s')
    ensures AllChange(s, s')
  {
    hide Inv, TwoOk, Cpus, CpuOk;
    One(s, i);
    OneChanges(s, i, s');
  }

  lemma WaitMoreChanges(s: State, i: nat, kids: bool, s': State)
    requires Inv(s) && WaitMore(s, i, kids, s')
    ensures AllChange(s, s')
  {
    hide Inv, TwoOk, Cpus, CpuOk;
    One(s, i);
    OneChanges(s, i, s');
  }

  lemma WaitLockChanges(s: State, i: nat, s': State)
    requires Inv(s) && WaitLock(s, i, s')
    ensures AllChange(s, s')
  {
    hide Inv, TwoOk, Cpus, CpuOk;
    One(s, i);
    OneChanges(s, i, s');
  }

  lemma WaitUnlockChanges(s: State, i: nat, s': State)
    requires Inv(s) && WaitUnlock(s, i, s')
    ensures AllChange(s, s')
  {
    hide Inv, TwoOk, Cpus, CpuOk;
    One(s, i);
    OneChanges(s, i, s');
  }

  lemma WaitDozeChanges(s: State, i: nat, s': State)
    requires Inv(s) && WaitDoze(s, i, s')
    ensures AllChange(s, s')
  {
    hide Inv, TwoOk, Cpus, CpuOk;
    One(s, i);
    OneChanges(s, i, s');
  }

  lemma WaitReturnChanges(s: State, i: nat, got: Option<nat>, s': State)
    requires Inv(s) && WaitReturn(s, i, got, s')
    ensures AllChange(s, s')
  {
    hide Inv, TwoOk, Cpus, CpuOk;
    One(s, i);
    OneChanges(s, i, s');
  }

  lemma ExitEnterChanges(s: State, i: nat, s': State)
    requires Inv(s) && ExitEnter(s, i, s')
    ensures AllChange(s, s')
  {
    hide Inv, TwoOk, Cpus, CpuOk;
    One(s, i);
    OneChanges(s, i, s');
  }

  lemma ExitKeepChanges(s: State, i: nat, k: nat, s': State)
    requires Inv(s) && ExitKeep(s, i, k, s')
    ensures AllChange(s, s')
  {
    hide Inv, TwoOk, Cpus, CpuOk;
    One(s, i);
    OneChanges(s, i, s');
  }

  lemma ExitGiveChanges(s: State, i: nat, k: nat, s': State)
    requires Inv(s) && ExitGive(s, i, k, s')
    ensures AllChange(s, s')
  {
    hide Inv, TwoOk, Cpus, CpuOk;
    One(s, i);
    One(s, k);
    TwoChange(s, i, k, s');
  }

  lemma ExitWakeIChanges(s: State, i: nat, k: nat, q: nat, s': State)
    requires Inv(s) && ExitWakeI(s, i, k, q, s')
    ensures AllChange(s, s')
  {
    hide Inv, TwoOk, Cpus, CpuOk;
    One(s, i);
    One(s, q);
    TwoChange(s, i, q, s');
  }

  lemma ExitWokeIChanges(s: State, i: nat, k: nat, s': State)
    requires Inv(s) && ExitWokeI(s, i, k, s')
    ensures AllChange(s, s')
  {
    hide Inv, TwoOk, Cpus, CpuOk;
    One(s, i);
    OneChanges(s, i, s');
  }

  lemma ExitGivenChanges(s: State, i: nat, s': State)
    requires Inv(s) && ExitGiven(s, i, s')
    ensures AllChange(s, s')
  {
    hide Inv, TwoOk, Cpus, CpuOk;
    One(s, i);
    OneChanges(s, i, s');
  }

  lemma ExitWakePChanges(s: State, i: nat, q: nat, s': State)
    requires Inv(s) && ExitWakeP(s, i, q, s')
    ensures AllChange(s, s')
  {
    hide Inv, TwoOk, Cpus, CpuOk;
    One(s, i);
    One(s, q);
    TwoChange(s, i, q, s');
  }

  lemma ExitWokePChanges(s: State, i: nat, s': State)
    requires Inv(s) && ExitWokeP(s, i, s')
    ensures AllChange(s, s')
  {
    hide Inv, TwoOk, Cpus, CpuOk;
    One(s, i);
    OneChanges(s, i, s');
  }

  lemma ExitAcquireChanges(s: State, i: nat, s': State)
    requires Inv(s) && ExitAcquire(s, i, s')
    ensures AllChange(s, s')
  {
    hide Inv, TwoOk, Cpus, CpuOk;
    One(s, i);
    OneChanges(s, i, s');
  }

  lemma ExitZombieChanges(s: State, i: nat, s': State)
    requires Inv(s) && ExitZombie(s, i, s')
    ensures AllChange(s, s')
  {
    hide Inv, TwoOk, Cpus, CpuOk;
    One(s, i);
    OneChanges(s, i, s');
  }

  lemma ExitUnlockChanges(s: State, i: nat, s': State)
    requires Inv(s) && ExitUnlock(s, i, s')
    ensures AllChange(s, s')
  {
    hide Inv, TwoOk, Cpus, CpuOk;
    One(s, i);
    OneChanges(s, i, s');
  }

  lemma SchedStepChanges(s: State, s': State)
    requires Inv(s) && SchedStep(s, s')
    ensures AllChange(s, s')
  {
    hide Inv, AllChange, Pick, SwitchIn, SwitchOut, Put, Resume, Yield, SleepOn, WakeOther, Kill;
    if c: nat, i: nat :| Pick(s, c, i, s') {
      PickChanges(s, c, i, s');
    } else if c: nat, i: nat :| SwitchIn(s, c, i, s') {
      SwitchInChanges(s, c, i, s');
    } else if c: nat, i: nat :| SwitchOut(s, c, i, s') {
      SwitchOutChanges(s, c, i, s');
    } else if c: nat, i: nat :| Put(s, c, i, s') {
      PutChanges(s, c, i, s');
    } else if i: nat :| Resume(s, i, s') {
      ResumeChanges(s, i, s');
    } else if i: nat, at: Point :| Yield(s, i, at, s') {
      YieldChanges(s, i, at, s');
    } else if i: nat, ch: nat :| SleepOn(s, i, ch, s') {
      SleepOnChanges(s, i, ch, s');
    } else if q: nat, ch: nat :| WakeOther(s, q, ch, s') {
      WakeOtherChanges(s, q, ch, s');
    } else if q: nat :| Kill(s, q, s') {
      KillChanges(s, q, s');
    }
  }

  lemma ForkCallChanges(s: State, s': State)
    requires Inv(s) && ForkCall(s, s')
    ensures AllChange(s, s')
  {
    hide Inv, AllChange, ForkAlloc, ForkFail, ForkUnlock, ForkWait, ForkLink, ForkRun;
    if i: nat, np: nat :| ForkAlloc(s, i, np, s') {
      ForkAllocChanges(s, i, np, s');
    } else if i: nat, np: nat :| ForkFail(s, i, np, s') {
      ForkFailChanges(s, i, np, s');
    } else if i: nat, np: nat :| ForkUnlock(s, i, np, s') {
      ForkUnlockChanges(s, i, np, s');
    } else if i: nat, np: nat :| ForkWait(s, i, np, s') {
      ForkWaitChanges(s, i, np, s');
    } else if i: nat, np: nat :| ForkLink(s, i, np, s') {
      ForkLinkChanges(s, i, np, s');
    } else if i: nat, np: nat :| ForkRun(s, i, np, s') {
      ForkRunChanges(s, i, np, s');
    }
  }

  lemma WaitStepChanges(s: State, s': State)
    requires Inv(s) && WaitStep(s, s')
    ensures AllChange(s, s')
  {
    hide Inv, AllChange, WaitCall, WaitAcquire, WaitSkip, WaitPass, WaitReap, WaitFail, WaitMore, WaitLock,
        WaitUnlock, WaitDoze, WaitReturn;
    if i: nat :| WaitCall(s, i, s') {
      WaitCallChanges(s, i, s');
    } else if i: nat :| WaitAcquire(s, i, s') {
      WaitAcquireChanges(s, i, s');
    } else if i: nat, k: nat, kids: bool :| WaitSkip(s, i, k, kids, s') {
      WaitSkipChanges(s, i, k, kids, s');
    } else if i: nat, k: nat, kids: bool :| WaitPass(s, i, k, kids, s') {
      WaitPassChanges(s, i, k, kids, s');
    } else if i: nat, k: nat, kids: bool :| WaitReap(s, i, k, kids, s') {
      WaitReapChanges(s, i, k, kids, s');
    } else if i: nat, k: nat, kids: bool :| WaitFail(s, i, k, kids, s') {
      WaitFailChanges(s, i, k, kids, s');
    } else if i: nat, kids: bool :| WaitMore(s, i, kids, s') {
      WaitMoreChanges(s, i, kids, s');
    } else if i: nat :| WaitLock(s, i, s') {
      WaitLockChanges(s, i, s');
    } else if i: nat :| WaitUnlock(s, i, s') {
      WaitUnlockChanges(s, i, s');
    } else if i: nat :| WaitDoze(s, i, s') {
      WaitDozeChanges(s, i, s');
    } else if i: nat, got: Option<nat> :| WaitReturn(s, i, got, s') {
      WaitReturnChanges(s, i, got, s');
    }
  }

  lemma ExitStepChanges(s: State, s': State)
    requires Inv(s) && ExitStep(s, s')
    ensures AllChange(s, s')
  {
    hide Inv, AllChange, ExitEnter, ExitKeep, ExitGive, ExitWakeI, ExitWokeI, ExitGiven, ExitWakeP, ExitWokeP,
        ExitAcquire, ExitZombie, ExitUnlock;
    if i: nat :| ExitEnter(s, i, s') {
      ExitEnterChanges(s, i, s');
    } else if i: nat, k: nat :| ExitKeep(s, i, k, s') {
      ExitKeepChanges(s, i, k, s');
    } else if i: nat, k: nat :| ExitGive(s, i, k, s') {
      ExitGiveChanges(s, i, k, s');
    } else if i: nat, k: nat, q: nat :| ExitWakeI(s, i, k, q, s') {
      ExitWakeIChanges(s, i, k, q, s');
    } else if i: nat, k: nat :| ExitWokeI(s, i, k, s') {
      ExitWokeIChanges(s, i, k, s');
    } else if i: nat :| ExitGiven(s, i, s') {
      ExitGivenChanges(s, i, s');
    } else if i: nat, q: nat :| ExitWakeP(s, i, q, s') {
      ExitWakePChanges(s, i, q, s');
    } else if i: nat :| ExitWokeP(s, i, s') {
      ExitWokePChanges(s, i, s');
    } else if i: nat :| ExitAcquire(s, i, s') {
      ExitAcquireChanges(s, i, s');
    } else if i: nat :| ExitZombie(s, i, s') {
      ExitZombieChanges(s, i, s');
    } else if i: nat :| ExitUnlock(s, i, s') {
      ExitUnlockChanges(s, i, s');
    }
  }

  lemma NextChanges(s: State, s': State)
    requires Inv(s) && Next(s, s')
    ensures AllChange(s, s')
  {
    hide Inv, AllChange, SchedStep, ForkCall, WaitStep, ExitStep;
    if SchedStep(s, s') {
      SchedStepChanges(s, s');
    } else if ForkCall(s, s') {
      ForkCallChanges(s, s');
    } else if WaitStep(s, s') {
      WaitStepChanges(s, s');
    } else {
      ExitStepChanges(s, s');
    }
  }

  /** The same, at any point of a run. */
  lemma RunChanges(run: seq<State>, k: nat, x: nat)
    requires IsRun(run) && k + 1 < |run| && x < |run[k].procs|
    ensures Inv(run[k]) && Changes(run[k], x, run[k + 1])
  {
    hide IsRun, Inv, Held, Next, Changes;
    RunKeepsInv(run, k);
    RunStep(run, k);
    NextChanges(run[k], run[k + 1]);
  }

  lemma FreedFacts(s: State, i: nat, z: nat, s': State)
    requires Inv(s) && Pair(s, i, z, s') && s'.procs[z].state == UNUSED
    ensures s.procs[z].cpu == None
  {
    assert OneOk(s, z) && OneOk(s, i);
    assert i != z ==> TwoOk(s, i, z);
  }

  lemma OffCpu(s: State, c: nat, z: nat)
    requires Inv(s) && z < |s.procs| && s.procs[z].cpu == None
    ensures !OnCpu(s.cpus, c, z)
  {
    hide OneOk, TwoOk;
  }

  // ---- what holds in every run ----

  /** While wait_lock is free no process sleeps in kwait with a zombie for a child. */
  lemma NoMissedExit(run: seq<State>, k: nat, p: nat, z: nat)
    requires IsRun(run) && k < |run| && run[k].waitLock == None && p < |run[k].procs| && z < |run[k].procs|
    requires run[k].procs[p].state == SLEEPING && run[k].procs[p].chan == OfProc(p) && run[k].procs[z].parent == Some(p)
    ensures run[k].procs[z].state != ZOMBIE
  {
    hide IsRun;
    RunKeepsInv(run, k);
    assert OneOk(run[k], p);
    assert p != z ==> TwoOk(run[k], p, z);
  }

  /** A process has for its parent one that exists and has not exited, and only
      init has none. */
  lemma ParentIsAlive(run: seq<State>, k: nat, z: nat)
    requires IsRun(run) && k < |run| && z < |run[k].procs|
    ensures var s := run[k];
            && (s.procs[z].parent.Some? ==>
                s.procs[z].parent.value < |s.procs| && Alive(s.procs[s.procs[z].parent.value]))
            && (s.procs[z].parent == None && s.procs[z].state != UNUSED && s.procs[z].state != USED ==> z == s.init)
  {
    hide IsRun;
    RunKeepsInv(run, k);
    var s := run[k];
    assert OneOk(s, z);
    if s.procs[z].parent.Some? {
      assert TwoOk(s, z, s.procs[z].parent.value);
    }
  }

  /** A slot becomes UNUSED, in kwait or after a failed kfork, only while no CPU uses its
      kernel stack. */
  lemma FreedIsOffCpu(run: seq<State>, k: nat, z: nat, c: nat)
    requires IsRun(run) && k + 1 < |run| && z < |run[k].procs| == |run[k + 1].procs|
    requires run[k].procs[z].state != UNUSED && run[k + 1].procs[z].state == UNUSED
    ensures !OnCpu(run[k].cpus, c, z)
  {
    hide IsRun, Inv;
    var s, s' := run[k], run[k + 1];
    RunChanges(run, k, z);
    var i: nat :| Pair(s, i, z, s');
    FreedFacts(s, i, z, s');
    OffCpu(s, c, z);
  }

  /** kwait collects a zombie once.  The scan has met its child z as a zombie and is about
      to return it: the slot is UNUSED and nobody's child, and stays so until it is
      allocated again. */
  lemma {:induction false} CollectedIsGone(run: seq<State>, k: nat, l: nat, i: nat, z: nat)
    requires IsRun(run) && k < l < |run| && i < |run[k].procs| == |run[k + 1].procs|
    requires run[k].procs[i].pc != run[k + 1].procs[i].pc == WaitLeave(Some(z))
    requires forall m :: k <= m <= l ==> z < |run[m].procs|
    requires forall m :: k < m <= l ==> run[m].procs[z].state != USED
    ensures run[k].procs[z].state == ZOMBIE && run[k].procs[z].parent == Some(i)
    ensures run[l].procs[z].state == UNUSED && run[l].procs[z].parent == None
    decreases l
  {
    hide IsRun, Inv;
    RunChanges(run, k, i);
    assert Collects(run[k], i, z, run[k + 1]);
    if l > k + 1 {
      CollectedIsGone(run, k, l - 1, i, z);
      RunChanges(run, l - 1, z);
      UnusedIsNobodys(run, l, z);
    }
  }

  lemma UnusedIsNobodys(run: seq<State>, l: nat, z: nat)
    requires IsRun(run) && l < |run| && z < |run[l].procs| && run[l].procs[z].state == UNUSED
    ensures run[l].procs[z].parent == None
  {
    hide IsRun, Held;
    RunKeepsInv(run, l);
    assert OneOk(run[l], z);
  }

  /** So between two times that a slot is collected, by whomever, it was allocated. */
  lemma CollectedOnce(run: seq<State>, k: nat, l: nat, i: nat, j: nat, z: nat)
    requires IsRun(run) && k < l && l + 1 < |run|
    requires i < |run[k].procs| == |run[k + 1].procs| && j < |run[l].procs| == |run[l + 1].procs|
    requires run[k].procs[i].pc != run[k + 1].procs[i].pc == WaitLeave(Some(z))
    requires run[l].procs[j].pc != run[l + 1].procs[j].pc == WaitLeave(Some(z))
    requires forall m :: k <= m <= l + 1 ==> z < |run[m].procs|
    ensures exists m :: k < m <= l && run[m].procs[z].state == USED
  {
    hide IsRun, Inv;
    RunChanges(run, l, j);
    assert Collects(run[l], j, z, run[l + 1]);
    if forall m :: k < m <= l ==> run[m].procs[z].state != USED {
      CollectedIsGone(run, k, l, i, z);
    }
  }

  /** The scan does not pass by a zombie child: it ends there, with the child or with -1 if
      the status cannot be copied out. */
  lemma ZombieEndsScan(run: seq<State>, k: nat, i: nat, z: nat, kids: bool)
    requires IsRun(run) && k + 1 < |run| && i < |run[k].procs| == |run[k + 1].procs| && z < |run[k].procs|
    requires run[k].procs[i].pc == WaitScan(z, kids) && run[k].procs[z].parent == Some(i)
    requires run[k].procs[z].state == ZOMBIE && run[k + 1].procs[i].pc != WaitScan(z, kids)
    ensures run[k + 1].procs[i].pc == WaitLeave(Some(z)) || run[k + 1].procs[i].pc == WaitLeave(None)
  {
    hide IsRun, Inv;
    RunChanges(run, k, i);
    ScannerRuns(run[k], i);
  }

  lemma ScannerRuns(s: State, i: nat)
    requires Inv(s) && i < |s.procs| && s.procs[i].pc.WaitScan?
    ensures s.procs[i].state == RUNNING
  {
    assert OneOk(s, i);
  }

  /** When kfork returns the child is RUNNABLE and the caller's; when it fails the slot is
      free again. */
  lemma ForkReturnsChild(run: seq<State>, k: nat, i: nat, np: nat)
    requires IsRun(run) && k + 1 < |run| && i < |run[k].procs| == |run[k + 1].procs|
    requires run[k + 1].procs[i].pc == Kernel
    ensures run[k].procs[i].pc == ForkReady(np) ==>
              np < |run[k].procs| && run[k + 1].procs[np].state == RUNNABLE && run[k + 1].procs[np].parent == Some(i)
    ensures run[k].procs[i].pc == ForkHas(np) ==> np < |run[k].procs| && run[k + 1].procs[np] == Freed()
  {
    hide IsRun, Inv;
    RunChanges(run, k, i);
    var s, s' := run[k], run[k + 1];
    if s.procs[i].pc == ForkReady(np) {
      assert Starts(s, i, np, s');
      ChildIsLinked(s, i, np);
    }
  }

  lemma ChildIsLinked(s: State, i: nat, np: nat)
    requires Inv(s) && i < |s.procs| && np < |s.procs| && i != np && s.procs[i].pc == ForkReady(np)
    ensures s.procs[np].parent == Some(i)
  {
    hide OneOk, KinOk;
    assert TwoOk(s, i, np);
  }

  /** Nor can it get stuck at one whose lock is free, or kfork before it returns. */
  lemma CanCollect(s: State, i: nat, z: nat, kids: bool)
    requires Is(s, i, WaitScan(z, kids)) && z < |s.procs| && i != z
    requires s.procs[z].parent == Some(i) && s.procs[z].state == ZOMBIE && s.procs[z].lock == None
    ensures exists s' :: Next(s, s') && Collects(s, i, z, s')
  {
    var s' := At(Set(s, z, Freed()), i, WaitLeave(Some(z)));
    assert WaitReap(s, i, z, kids, s');
    assert WaitStep(s, s');
    assert Collects(s, i, z, s');
  }

  lemma CanStart(s: State, i: nat, z: nat)
    requires Is(s, i, ForkReady(z)) && z < |s.procs| && i != z && s.procs[z].state == USED && s.procs[z].lock == None
    ensures exists s' :: Next(s, s') && Starts(s, i, z, s')
  {
    var s' := At(Set(s, z, s.procs[z].(state := RUNNABLE)), i, Kernel);
    assert ForkRun(s, i, z, s');
    assert ForkCall(s, s');
    assert Starts(s, i, z, s');
  }

  /** A process whose lock is free can be killed at any time, and a sleeping one woken. */
  lemma CanKill(s: State, q: nat)
    requires q < |s.procs| && s.procs[q].lock == None
    ensures exists s' :: Next(s, s') && q < |s'.procs| && s'.procs[q].killed && s'.procs[q].state != SLEEPING
  {
    var p := s.procs[q].(killed := true);
    var s' := Set(s, q, if p.state == SLEEPING then p.(state := RUNNABLE) else p);
    assert Kill(s, q, s');
    assert SchedStep(s, s');
    assert Next(s, s') && s'.procs[q].killed;
  }

  lemma CanWake(s: State, q: nat, ch: nat)
    requires q < |s.procs| && s.procs[q].lock == None && s.procs[q].state == SLEEPING && s.procs[q].chan == Other(ch)
    ensures exists s' :: Next(s, s') && q < |s'.procs| && s'.procs[q] == s.procs[q].(state := RUNNABLE)
  {
    var s' := Set(s, q, s.procs[q].(state := RUNNABLE));
    assert WakeOther(s, q, ch, s');
    assert SchedStep(s, s');
    assert Next(s, s') && s'.procs[q].state == RUNNABLE;
  }

  /** Whoever kills a process also wakes it. */
  lemma KilledIsAwake(run: seq<State>, k: nat, q: nat)
    requires IsRun(run) && k + 1 < |run| && q < |run[k].procs| == |run[k + 1].procs|
    requires !run[k].procs[q].killed && run[k + 1].procs[q].killed
    ensures run[k + 1].procs[q].state != SLEEPING
  {
    hide IsRun, Inv;
    RunChanges(run, k, q);
  }

  /** No kernel stack is used by two CPUs, and a CPU that runs a process's thread
      while its state is not RUNNING holds its lock. */
  lemma OneCpuPerStack(run: seq<State>, k: nat, c: nat, d: nat, i: nat)
    requires IsRun(run) && k < |run| && OnCpu(run[k].cpus, c, i)
    ensures OnCpu(run[k].cpus, d, i) ==> c == d
    ensures i < |run[k].procs| && (run[k].procs[i].state == RUNNING || run[k].procs[i].lock == Some(c))
  {
    hide IsRun;
    RunKeepsInv(run, k);
    assert OneOk(run[k], run[k].cpus[c].i);
  }

  /** sched() never panics: its caller holds its own lock, neither wait_lock nor the lock
      of any other process, and is not RUNNING; nor does it ever return to kexit. */
  lemma SchedNeverPanics(run: seq<State>, k: nat, i: nat)
    requires IsRun(run) && k < |run| && i < |run[k].procs|
    ensures run[k].procs[i].pc.Leave? ==>
              && run[k].procs[i].cpu.Some? && run[k].procs[i].lock == run[k].procs[i].cpu
              && run[k].waitLock != Some(i) && run[k].procs[i].state != RUNNING
              && forall j: nat :: j < |run[k].procs| && j != i ==> run[k].procs[j].lock != run[k].procs[i].cpu
    ensures run[k].procs[i].pc != Back(Exiting)
  {
    hide IsRun, Held;
    RunKeepsInv(run, k);
    assert OneOk(run[k], i);
    if run[k].procs[i].pc.Leave? {
      forall j: nat | j < |run[k].procs| && j != i
        ensures run[k].procs[j].lock != run[k].procs[i].cpu
      {
        NoOtherLock(run[k], i, j);
      }
    }
  }

  lemma NoOtherLock(s: State, i: nat, j: nat)
    requires Inv(s) && Held(s) && i < |s.procs| && j < |s.procs| && i != j && s.procs[i].pc.Leave?
    ensures s.procs[j].lock != s.procs[i].cpu
  {
    hide TwoOk, Cpus;
    assert OneOk(s, i) && OneOk(s, j) && HeldOk(s, j);
  }

  /** kwait gives up at the end of its scan only with no children, unless it was killed. */
  lemma GivesUpWithoutChildren(run: seq<State>, k: nat, i: nat, kids: bool, z: nat)
    requires IsRun(run) && k + 1 < |run| && i < |run[k].procs| == |run[k + 1].procs| && z < |run[k].procs|
    requires run[k].procs[i].pc == WaitScan(|run[k].procs|, kids) && run[k + 1].procs[i].pc == WaitLeave(None)
    requires !run[k].procs[i].killed
    ensures run[k].procs[z].parent != Some(i)
  {
    hide IsRun, Inv;
    RunChanges(run, k, i);
    assert Declines(run[k], i, run[k + 1]);
    NoKids(run[k], i, z);
  }

  lemma NoKids(s: State, i: nat, z: nat)
    requires Inv(s) && i < |s.procs| && z < |s.procs| && s.procs[i].pc == WaitScan(|s.procs|, false)
    ensures s.procs[z].parent != Some(i)
  {
    assert OneOk(s, i);
    assert i != z ==> TwoOk(s, i, z);
  }

  /** The side conditions of the steps hold of themselves: a CPU about to switch finds a
      saved context, kfork's child is another slot that nobody else sets up, and an
      exiting process has a parent to wake. */
  lemma StepsAreSound(run: seq<State>, k: nat, c: nat, i: nat)
    requires IsRun(run) && k < |run| && i < |run[k].procs|
    ensures OnCpu(run[k].cpus, c, i) && !run[k].cpus[c].Thread? ==> run[k].procs[i].pc.Away?
    ensures var p := run[k].procs[i];
            && (Child(p.pc).Some? ==> Child(p.pc).value < |run[k].procs| && Child(p.pc).value != i
                                      && run[k].procs[Child(p.pc).value].state == USED)
            && (p.pc.ExitWakeParent? ==> p.parent.Some? && i != run[k].init) && p.parent != Some(i)
    ensures Child(run[k].procs[i].pc).Some? ==>
              forall j: nat :: j < |run[k].procs| && j != i ==> Child(run[k].procs[j].pc) != Child(run[k].procs[i].pc)
  {
    hide IsRun, Held;
    RunKeepsInv(run, k);
    assert OneOk(run[k], i);
    var p := run[k].procs[i];
    if Child(p.pc).Some? {
      assert TwoOk(run[k], i, Child(p.pc).value);
      forall j: nat | j < |run[k].procs| && j != i
        ensures Child(run[k].procs[j].pc) != Child(p.pc)
      {
        assert TwoOk(run[k], i, j);
      }
    }
  }
}
