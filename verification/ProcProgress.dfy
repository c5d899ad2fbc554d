/** No call of kernel/proc.c gets stuck: what a thread waits for is a lock, and chains of
    such waits are short and end at a CPU that can go on. */
module ProcProgress {
  import opened ProcLife

  /** CPU c goes on: in scheduler() or swtch, or in the thread it runs. */
  ghost predicate CpuMoves(s: State, c: nat, s': State) {
    && c < |s.cpus| == |s'.cpus| && |s'.procs| == |s.procs|
    && (|| s'.cpus[c] != s.cpus[c]
        || (s.cpus[c].Thread? && s.cpus[c].i < |s.procs| && s'.procs[s.cpus[c].i].pc != s.procs[s.cpus[c].i].pc))
  }

  ghost predicate CanGoOn(s: State, c: nat) {
    exists s' :: Next(s, s') && CpuMoves(s, c, s')
  }

  /** i's thread waits for wait_lock. */
  ghost predicate WantsWait(s: State, i: nat) {
    i < |s.procs| && (s.procs[i].pc.WaitEnter? || s.procs[i].pc.ForkUnlinked?) && s.waitLock.Some?
  }

  /** i's thread waits for the lock of q, in the scan of kwait or in wakeup(). */
  ghost predicate WantsLock(s: State, i: nat, q: nat) {
    && i < |s.procs| && q < |s.procs| && s.procs[q].lock.Some?
    && match s.procs[i].pc
       case WaitScan(k, _) => k == q && s.procs[q].parent == Some(i)
       case ExitWakeInit(_, k) => k == q
       case ExitWakeParent(k) => k == q
       case _ => false
  }

  /** i's thread is on CPU c. */
  ghost predicate Runs(s: State, c: nat, i: nat) {
    c < |s.cpus| && s.cpus[c] == Thread(i) && i < |s.procs|
  }

  lemma Witness(s: State, c: nat, s': State)
    requires Next(s, s') && CpuMoves(s, c, s')
    ensures CanGoOn(s, c)
  {
  }

  // ---- in sched() and scheduler() ----

  lemma SchedGoesOn(s: State, c: nat, i: nat)
    requires Runs(s, c, i) && (s.procs[i].pc.Leave? || s.procs[i].pc.Back?)
    ensures CanGoOn(s, c)
  {
    var p := s.procs[i];
    if p.pc.Leave? {
      var s' := At(s, i, Away(p.pc.why)).(cpus := s.cpus[c := After(i)]);
      assert SwitchOut(s, c, i, s');
      assert SchedStep(s, s') && s'.cpus[c] != s.cpus[c];
      Witness(s, c, s');
    } else {
      var q := if p.pc.why in {Sleeping, Waiting} then p.(chan := NoChan) else p;
      var s' := Set(s, i, q.(lock := None, pc := PcAfter(p.pc.why)));
      assert Resume(s, i, s');
      assert SchedStep(s, s');
      Witness(s, c, s');
    }
  }

  lemma SwitchGoesOn(s: State, c: nat, i: nat)
    requires c < |s.cpus| && s.cpus[c] in {Switch(i), After(i)} && i < |s.procs| && s.procs[i].pc.Away?
    ensures CanGoOn(s, c)
  {
    if s.cpus[c] == Switch(i) {
      var s' := At(s, i, Back(s.procs[i].pc.why)).(cpus := s.cpus[c := Thread(i)]);
      assert SwitchIn(s, c, i, s');
      assert SchedStep(s, s');
      Witness(s, c, s');
    } else {
      var s' := Set(s, i, s.procs[i].(lock := None, cpu := None)).(cpus := s.cpus[c := Idle]);
      assert Put(s, c, i, s');
      assert SchedStep(s, s');
      Witness(s, c, s');
    }
  }

  /** An idle CPU can run any process that is RUNNABLE and whose lock is free. */
  lemma CanRun(s: State, c: nat, i: nat)
    requires c < |s.cpus| && s.cpus[c] == Idle && i < |s.procs|
    requires s.procs[i].state == RUNNABLE && s.procs[i].lock == None
    ensures exists s' :: Next(s, s') && c < |s'.cpus| && s'.cpus[c] == Switch(i)
                         && i < |s'.procs| && s'.procs[i].state == RUNNING
  {
    var p := s.procs[i].(state := RUNNING, lock := Some(c), cpu := Some(c));
    var s' := Set(s, i, p).(cpus := s.cpus[c := Switch(i)]);
    assert Pick(s, c, i, s');
    assert SchedStep(s, s');
    assert Next(s, s');
  }

  // ---- in kfork ----

  lemma ForkGoesOn(s: State, c: nat, i: nat)
    requires Runs(s, c, i) && Making(s.procs[i].pc) && s.procs[i].pc.np < |s.procs| && s.procs[i].pc.np != i
    requires s.procs[i].pc.ForkReady? ==> s.procs[s.procs[i].pc.np].lock == None
    ensures CanGoOn(s, c) || WantsWait(s, i)
  {
    var np := s.procs[i].pc.np;
    match s.procs[i].pc
    case ForkHas(_) =>
      var s' := At(Set(s, np, s.procs[np].(lock := None)), i, ForkUnlinked(np));
      assert ForkUnlock(s, i, np, s');
      assert ForkCall(s, s');
      Witness(s, c, s');
    case ForkUnlinked(_) =>
      if s.waitLock == None {
        var s' := At(s, i, ForkLinking(np)).(waitLock := Some(i));
        assert ForkWait(s, i, np, s');
        assert ForkCall(s, s');
        Witness(s, c, s');
      }
    case ForkLinking(_) =>
      var s' := At(Set(s, np, s.procs[np].(parent := Some(i))), i, ForkReady(np)).(waitLock := None);
      assert ForkLink(s, i, np, s');
      assert ForkCall(s, s');
      Witness(s, c, s');
    case ForkReady(_) =>
      var s' := At(Set(s, np, s.procs[np].(state := RUNNABLE)), i, Kernel);
      assert ForkRun(s, i, np, s');
      assert ForkCall(s, s');
      Witness(s, c, s');
  }

  // ---- in kwait ----

  ghost predicate Waits(pc: Pc) {
    pc.WaitEnter? || pc.WaitScan? || pc.WaitSleep? || pc.WaitLocked? || pc.WaitMark? || pc.WaitLeave?
  }

  lemma ScanGoesOn(s: State, c: nat, i: nat, k: nat, kids: bool)
    requires Runs(s, c, i) && s.procs[i].pc == WaitScan(k, kids) && k <= |s.procs| && s.procs[i].lock == None
    ensures CanGoOn(s, c) || WantsLock(s, i, k)
  {
    if k == |s.procs| {
      if kids && !s.procs[i].killed {
        var s' := At(s, i, WaitSleep);
        assert WaitMore(s, i, kids, s');
        assert WaitStep(s, s');
        Witness(s, c, s');
      } else {
        var s' := At(s, i, WaitLeave(None));
        assert WaitFail(s, i, k, kids, s');
        assert WaitStep(s, s');
        Witness(s, c, s');
      }
    } else if s.procs[k].parent != Some(i) {
      var s' := At(s, i, WaitScan(k + 1, kids));
      assert WaitSkip(s, i, k, kids, s');
      assert WaitStep(s, s');
      Witness(s, c, s');
    } else if s.procs[k].lock == None {
      ChildGoesOn(s, c, i, k, kids);
    }
  }

  lemma ChildGoesOn(s: State, c: nat, i: nat, k: nat, kids: bool)
    requires Runs(s, c, i) && s.procs[i].pc == WaitScan(k, kids) && k < |s.procs|
    requires s.procs[k].parent == Some(i) && s.procs[k].lock == None
    ensures CanGoOn(s, c)
  {
    if s.procs[k].state != ZOMBIE {
      var s' := At(s, i, WaitScan(k + 1, true));
      assert WaitPass(s, i, k, kids, s');
      assert WaitStep(s, s');
      Witness(s, c, s');
    } else {
      var s' := At(Set(s, k, Freed()), i, WaitLeave(Some(k)));
      assert WaitReap(s, i, k, kids, s');
      assert WaitStep(s, s');
      Witness(s, c, s');
    }
  }

  lemma WaitGoesOn(s: State, c: nat, i: nat)
    requires Runs(s, c, i) && Waits(s.procs[i].pc) && PcOk(s.procs[i].pc, |s.procs|)
    requires s.procs[i].pc.WaitScan? || s.procs[i].pc.WaitSleep? ==> s.procs[i].lock == None
    ensures CanGoOn(s, c) || WantsWait(s, i) || exists q: nat :: WantsLock(s, i, q)
  {
    match s.procs[i].pc
    case WaitEnter =>
      if s.waitLock == None {
        var s' := At(s, i, WaitScan(0, false)).(waitLock := Some(i));
        assert WaitAcquire(s, i, s');
        assert WaitStep(s, s');
        Witness(s, c, s');
      }
    case WaitScan(k, kids) =>
      ScanGoesOn(s, c, i, k, kids);
    case WaitSleep =>
      var s' := Set(s, i, s.procs[i].(lock := s.procs[i].cpu, pc := WaitLocked));
      assert WaitLock(s, i, s');
      assert WaitStep(s, s');
      Witness(s, c, s');
    case WaitLocked =>
      var s' := At(s, i, WaitMark).(waitLock := None);
      assert WaitUnlock(s, i, s');
      assert WaitStep(s, s');
      Witness(s, c, s');
    case WaitMark =>
      var s' := Set(s, i, s.procs[i].(state := SLEEPING, chan := OfProc(i), pc := Leave(Waiting)));
      assert WaitDoze(s, i, s');
      assert WaitStep(s, s');
      Witness(s, c, s');
    case WaitLeave(got) =>
      var s' := At(s, i, Kernel).(waitLock := None);
      assert WaitReturn(s, i, got, s');
      assert WaitStep(s, s');
      Witness(s, c, s');
  }

  // ---- in kexit ----

  ghost predicate Leaves(pc: Pc) {
    pc.ExitReparent? || pc.ExitWakeInit? || pc.ExitWakeParent? || pc.ExitLock? || pc.ExitMark? || pc.ExitRelease?
  }

  lemma ReparentGoesOn(s: State, c: nat, i: nat, k: nat)
    requires Runs(s, c, i) && s.procs[i].pc == ExitReparent(k) && k <= |s.procs|
    requires k < |s.procs| && s.procs[k].parent == Some(i) ==> k != i
    ensures CanGoOn(s, c)
  {
    if k == |s.procs| {
      var s' := At(s, i, ExitWakeParent(0));
      assert ExitGiven(s, i, s');
      assert ExitStep(s, s');
      Witness(s, c, s');
    } else if s.procs[k].parent != Some(i) {
      var s' := At(s, i, ExitReparent(k + 1));
      assert ExitKeep(s, i, k, s');
      assert ExitStep(s, s');
      Witness(s, c, s');
    } else {
      var s' := At(Set(s, k, s.procs[k].(parent := Some(s.init))), i, ExitWakeInit(k, 0));
      assert ExitGive(s, i, k, s');
      assert ExitStep(s, s');
      Witness(s, c, s');
    }
  }

  lemma WakeInitGoesOn(s: State, c: nat, i: nat, k: nat, q: nat)
    requires Runs(s, c, i) && s.procs[i].pc == ExitWakeInit(k, q) && q <= |s.procs|
    ensures CanGoOn(s, c) || WantsLock(s, i, q)
  {
    if q == |s.procs| {
      var s' := At(s, i, ExitReparent(k + 1));
      assert ExitWokeI(s, i, k, s');
      assert ExitStep(s, s');
      Witness(s, c, s');
    } else if q == i || s.procs[q].lock == None {
      var s1 := if q == i then s else Set(s, q, Woken(s.procs[q], OfProc(s.init)));
      var s' := At(s1, i, ExitWakeInit(k, q + 1));
      assert ExitWakeI(s, i, k, q, s');
      assert ExitStep(s, s');
      Witness(s, c, s');
    }
  }

  lemma WakeParentGoesOn(s: State, c: nat, i: nat, q: nat)
    requires Runs(s, c, i) && s.procs[i].pc == ExitWakeParent(q) && q <= |s.procs|
    ensures CanGoOn(s, c) || WantsLock(s, i, q)
  {
    if q == |s.procs| {
      var s' := At(s, i, ExitLock);
      assert ExitWokeP(s, i, s');
      assert ExitStep(s, s');
      Witness(s, c, s');
    } else if q == i || s.procs[q].lock == None {
      var s1 := if q == i then s else Set(s, q, Woken(s.procs[q], ChanOf(s.procs[i].parent)));
      var s' := At(s1, i, ExitWakeParent(q + 1));
      assert ExitWakeP(s, i, q, s');
      assert ExitStep(s, s');
      Witness(s, c, s');
    }
  }

  lemma ExitGoesOn(s: State, c: nat, i: nat)
    requires Runs(s, c, i) && Leaves(s.procs[i].pc) && PcOk(s.procs[i].pc, |s.procs|) && s.procs[i].parent != Some(i)
    requires s.procs[i].pc.ExitLock? ==> s.procs[i].lock == None
    ensures CanGoOn(s, c) || exists q: nat :: WantsLock(s, i, q)
  {
    match s.procs[i].pc
    case ExitReparent(k) =>
      ReparentGoesOn(s, c, i, k);
    case ExitWakeInit(k, q) =>
      WakeInitGoesOn(s, c, i, k, q);
    case ExitWakeParent(q) =>
      WakeParentGoesOn(s, c, i, q);
    case ExitLock =>
      var s' := Set(s, i, s.procs[i].(lock := s.procs[i].cpu, pc := ExitMark));
      assert ExitAcquire(s, i, s');
      assert ExitStep(s, s');
      Witness(s, c, s');
    case ExitMark =>
      var s' := Set(s, i, s.procs[i].(state := ZOMBIE, pc := ExitRelease));
      assert ExitZombie(s, i, s');
      assert ExitStep(s, s');
      Witness(s, c, s');
    case ExitRelease =>
      var s' := At(s, i, Leave(Exiting)).(waitLock := None);
      assert ExitUnlock(s, i, s');
      assert ExitStep(s, s');
      Witness(s, c, s');
  }

  // ---- who holds a lock ----

  /** A thread in a call, or in sched(), goes on or waits for a lock. */
  lemma ThreadGoesOn(s: State, c: nat, i: nat)
    requires Inv(s) && Runs(s, c, i) && s.procs[i].pc != Kernel
    ensures CanGoOn(s, c) || WantsWait(s, i) || exists q: nat :: WantsLock(s, i, q)
  {
    hide CanGoOn, WantsWait, WantsLock;
    OnIt(s, c, i);
    var pc := s.procs[i].pc;
    if Making(pc) {
      ForkChild(s, i);
      ForkGoesOn(s, c, i);
    } else if Waits(pc) {
      WaitGoesOn(s, c, i);
    } else if Leaves(pc) {
      ExitGoesOn(s, c, i);
    } else {
      SchedGoesOn(s, c, i);
    }
  }

  lemma OnIt(s: State, c: nat, i: nat)
    requires Inv(s) && Runs(s, c, i)
    ensures s.procs[i].cpu == Some(c) && Executing(s.procs[i].pc) && PcOk(s.procs[i].pc, |s.procs|)
    ensures !HoldsOwn(s.procs[i].pc) ==> s.procs[i].lock == None
    ensures s.procs[i].parent != Some(i)
  {
    assert OneOk(s, i);
  }

  lemma ForkChild(s: State, i: nat)
    requires Inv(s) && i < |s.procs| && Making(s.procs[i].pc)
    ensures s.procs[i].pc.np < |s.procs| && s.procs[i].pc.np != i
    ensures !s.procs[i].pc.ForkHas? ==> s.procs[s.procs[i].pc.np].lock == None
  {
    assert OneOk(s, i);
    assert TwoOk(s, i, s.procs[i].pc.np);
  }

  /** The CPU that holds a process's lock goes on. */
  lemma LockHolderGoesOn(s: State, c: nat, q: nat)
    requires Inv(s) && Held(s) && q < |s.procs| && s.procs[q].lock == Some(c)
    ensures CanGoOn(s, c)
  {
    hide CanGoOn;
    var p := s.procs[q];
    if p.state == USED {
      assert HeldOk(s, q);
      ThreadGoesOn(s, c, s.cpus[c].i);
    } else {
      HolderIs(s, c, q);
      if p.pc.Away? {
        SwitchGoesOn(s, c, q);
      } else {
        ThreadGoesOn(s, c, q);
      }
    }
  }

  lemma HolderIs(s: State, c: nat, q: nat)
    requires Inv(s) && q < |s.procs| && s.procs[q].lock == Some(c) && s.procs[q].state != USED
    ensures c < |s.cpus| && (s.procs[q].pc.Away? ==> s.cpus[c] in {Switch(q), After(q)})
    ensures !s.procs[q].pc.Away? ==> s.cpus[c] == Thread(q) && HoldsOwn(s.procs[q].pc)
  {
    assert OneOk(s, q);
  }

  /** So does the one whose thread holds wait_lock, or the one that holds what it waits for. */
  lemma WaitLockHolderGoesOn(s: State, i: nat)
    requires Inv(s) && Held(s) && s.waitLock == Some(i)
    ensures i < |s.procs| && s.procs[i].cpu.Some?
    ensures || CanGoOn(s, s.procs[i].cpu.value)
            || exists q: nat :: WantsLock(s, i, q) && CanGoOn(s, s.procs[q].lock.value)
  {
    hide CanGoOn, Held;
    HasWait(s, i);
    ThreadGoesOn(s, s.procs[i].cpu.value, i);
    if q: nat :| WantsLock(s, i, q) {
      LockHolderGoesOn(s, s.procs[q].lock.value, q);
    }
  }

  lemma HasWait(s: State, i: nat)
    requires Inv(s) && s.waitLock == Some(i)
    ensures i < |s.procs| && s.procs[i].cpu.Some? && Runs(s, s.procs[i].cpu.value, i) && HoldsWait(s.procs[i].pc)
  {
    assert i < |s.procs|;
    assert OneOk(s, i);
  }

  /** In no reachable state is a CPU stuck in kfork, kwait, kexit, sched() or scheduler(): it
      can go on, or it waits for the lock of a process, which is held by a CPU that can go
      on, or for wait_lock, and then the thread that holds that can go on or waits for the
      lock of a process in its turn. */
  lemma NoDeadlock(run: seq<State>, k: nat, c: nat)
    requires IsRun(run) && k < |run| && c < |run[k].cpus| && run[k].cpus[c] != Idle
    ensures var s := run[k];
            var i := s.cpus[c].i;
            && i < |s.procs|
            && (|| CanGoOn(s, c)
                || (s.cpus[c].Thread? && s.procs[i].pc == Kernel)
                || (exists q: nat :: WantsLock(s, i, q) && CanGoOn(s, s.procs[q].lock.value))
                || (WantsWait(s, i) && s.waitLock.value < |s.procs| && s.procs[s.waitLock.value].cpu.Some?
                    && (|| CanGoOn(s, s.procs[s.waitLock.value].cpu.value)
                        || exists q: nat :: WantsLock(s, s.waitLock.value, q) && CanGoOn(s, s.procs[q].lock.value))))
  {
    hide IsRun, CanGoOn, Inv, Held;
    RunKeepsInv(run, k);
    var s := run[k];
    var i := s.cpus[c].i;
    NotIdle(s, c);
    if s.cpus[c].Thread? && s.procs[i].pc != Kernel {
      ThreadGoesOn(s, c, i);
      if q: nat :| WantsLock(s, i, q) {
        LockHolderGoesOn(s, s.procs[q].lock.value, q);
      } else if WantsWait(s, i) {
        WaitLockHolderGoesOn(s, s.waitLock.value);
      }
    } else if !s.cpus[c].Thread? {
      SwitchGoesOn(s, c, i);
    }
  }

  lemma NotIdle(s: State, c: nat)
    requires Inv(s) && c < |s.cpus| && s.cpus[c] != Idle
    ensures s.cpus[c].i < |s.procs| && (!s.cpus[c].Thread? ==> s.procs[s.cpus[c].i].pc.Away?)
  {
    assert OneOk(s, s.cpus[c].i);
  }

  /** Every step of a thread in kfork, kwait or kexit brings the call nearer its end, or kwait
      nearer to sleeping, unless a timer interrupt makes it yield; then it goes on later
      where it was.  kexit ends as a zombie, off the lock. */
  lemma CallsEnd(run: seq<State>, k: nat, i: nat)
    requires IsRun(run) && k + 1 < |run| && i < |run[k].procs| == |run[k + 1].procs|
    requires run[k + 1].procs[i].pc != run[k].procs[i].pc
    ensures var pc, pc', n := run[k].procs[i].pc, run[k + 1].procs[i].pc, |run[k].procs|;
            && (InCall(pc) ==> || Less(ToGo(pc', n), ToGo(pc, n))
                               || (exists at :: pc == PcAt(at) && pc' == Leave(Yielding(at))))
            && ToGo(pc', n).0 >= 0 && ToGo(pc', n).1 >= 0
            && (forall at :: pc == Leave(Yielding(at)) ==> pc' == Away(Yielding(at)))
            && (forall at :: pc == Away(Yielding(at)) ==> pc' == Back(Yielding(at)))
            && (forall at :: pc == Back(Yielding(at)) ==> pc' == PcAt(at))
    ensures run[k + 1].procs[i].pc == Leave(Exiting) ==> run[k + 1].procs[i].state == ZOMBIE
  {
    hide IsRun, Inv, Held;
    RunChanges(run, k, i);
    RunKeepsInv(run, k + 1);
    Bounds(run[k + 1], i);
    var pc, pc' := run[k].procs[i].pc, run[k + 1].procs[i].pc;
    assert pc'.Leave? && pc'.why.Yielding? && PcAt(pc'.why.at) == pc ==> pc' == Leave(Yielding(pc'.why.at));
  }

  lemma Bounds(s: State, i: nat)
    requires Inv(s) && i < |s.procs|
    ensures PcOk(s.procs[i].pc, |s.procs|) && (s.procs[i].pc == Leave(Exiting) ==> s.procs[i].state == ZOMBIE)
  {
    assert OneOk(s, i);
  }
}
