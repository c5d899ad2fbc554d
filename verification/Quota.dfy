/** The CPU quotas of kernel/trap.c, kernel/sysproc.c and kernel/proc.c: a machine
    whose steps are the sections under one process's lock, for any number of CPUs.
    A reset of one process may fall anywhere, as it does inside the loop of
    reset_cpu_quotas; eco_mode is ECO_QUOTA and nothing ever changes it. */
module Quota {
  const DEFAULT_QUOTA: int := 20

  datatype RunState = UNUSED | USED | SLEEPING | RUNNABLE | RUNNING | ZOMBIE

  /** ticked: in usertrap, after the tick was charged and before yield. */
  datatype Proc = Proc(state: RunState, ticked: bool, quota: int, used: int, throttled: bool, violations: int)

  type State = seq<Proc>

  datatype Step =
    | Dispatch(p: nat) | Tick(p: nat) | Yield(p: nat) | Sleep(p: nat) | Wake(p: nat)
    | SetQuota(p: nat, quota: int) | Reset(p: nat)
    | Alloc(p: nat) | Ready(p: nat) | Exit(p: nat) | Free(p: nat)

  /** The section under p->lock in usertrap. */
  function Charged(p: Proc): (r: Proc) {
    var used := p.used + 1;
    if used >= p.quota && !p.throttled
    then p.(ticked := true, used := used, throttled := true, violations := p.violations + 1)
    else p.(ticked := true, used := used)
  }

  function QuotaSet(p: Proc, quota: int): (r: Proc) {
    if quota <= 0 then p
    else if p.used < quota then p.(quota := quota, throttled := false)
    else p.(quota := quota)
  }

  ghost predicate Enabled(p: Proc, step: Step) {
    match step
    case Dispatch(_) => p.state == RUNNABLE && !p.throttled
    case Tick(_) => p.state == RUNNING && !p.ticked
    case Yield(_) => p.state == RUNNING
    case Sleep(_) => p.state == RUNNING && !p.ticked
    case Wake(_) => p.state == SLEEPING
    case SetQuota(_, _) => p.state == RUNNING && !p.ticked
    case Reset(_) => p.state != UNUSED
    case Alloc(_) => p.state == UNUSED
    case Ready(_) => p.state == USED
    case Exit(_) => p.state == RUNNING && !p.ticked
    case Free(_) => p.state == ZOMBIE || p.state == USED
  }

  function After(p: Proc, step: Step): (r: Proc) {
    match step
    case Dispatch(_) => p.(state := RUNNING, ticked := false)
    case Tick(_) => Charged(p)
    case Yield(_) => p.(state := RUNNABLE)
    case Sleep(_) => p.(state := SLEEPING)
    case Wake(_) => p.(state := RUNNABLE)
    case SetQuota(_, quota) => QuotaSet(p, quota)
    case Reset(_) => p.(used := 0, throttled := false)
    case Alloc(_) => Proc(USED, false, DEFAULT_QUOTA, 0, false, 0)
    case Ready(_) => p.(state := RUNNABLE)
    case Exit(_) => p.(state := ZOMBIE)
    case Free(_) => p.(state := UNUSED)
  }

  ghost predicate Next(s: State, step: Step, s': State) {
    step.p < |s| && Enabled(s[step.p], step) && s' == s[step.p := After(s[step.p], step)]
  }

  ghost predicate StepAt(run: seq<State>, steps: seq<Step>, k: nat) {
    k < |steps| && k + 1 < |run| && Next(run[k], steps[k], run[k + 1])
  }

  ghost predicate IsRun(run: seq<State>, steps: seq<Step>) {
    && |run| == |steps| + 1 && (forall i :: 0 <= i < |run[0]| ==> run[0][i].state == UNUSED)
    && forall k: nat :: k < |steps| ==> StepAt(run, steps, k)
  }

  /** A new window of process p starts with this step. */
  ghost predicate Opens(step: Step, p: nat) {
    step == Reset(p) || step == Alloc(p)
  }

  ghost predicate SameWindow(steps: seq<Step>, p: nat, a: nat, b: nat) {
    a <= b <= |steps| && forall k :: a <= k < b ==> !Opens(steps[k], p)
  }

  // ---- what holds of each process in every state ----

  /** A throttled process is not in a position to run user code or system calls. */
  ghost predicate ProcOk(p: Proc) {
    && (p.state != UNUSED ==> p.quota > 0 && p.used >= 0)
    && (p.throttled ==> p.state == UNUSED || p.state == RUNNABLE || (p.state == RUNNING && p.ticked))
  }

  ghost predicate Inv(s: State) {
    forall i :: 0 <= i < |s| ==> ProcOk(s[i]) || s[i].state == UNUSED
  }

  lemma StepKeepsInv(s: State, step: Step, s': State)
    requires Inv(s) && Next(s, step, s')
    ensures Inv(s') && |s'| == |s|
  {
  }

  lemma {:induction false} RunKeepsInv(run: seq<State>, steps: seq<Step>, k: nat)
    requires IsRun(run, steps) && k < |run|
    ensures Inv(run[k]) && |run[k]| == |run[0]|
  {
    if k > 0 {
      RunKeepsInv(run, steps, k - 1);
      assert StepAt(run, steps, k - 1);
      StepKeepsInv(run[k - 1], steps[k - 1], run[k]);
    }
  }

  // ---- what holds over windows ----

  /** From the opening of a window on: at most one violation, counted exactly while
      throttled; an unthrottled process is below some quota in force since then. */
  ghost predicate Within(run: seq<State>, p: nat, a: nat, b: nat, t: nat)
    requires a <= t <= b < |run| && p < |run[a]| && p < |run[t]| && p < |run[b]|
  {
    && (if run[b][p].throttled then run[b][p].used <= run[t][p].quota else run[b][p].used < run[t][p].quota)
    && run[b][p].violations == run[a][p].violations + (if run[b][p].throttled then 1 else 0)
  }

  lemma {:induction false} WindowStep(run: seq<State>, steps: seq<Step>, p: nat, a: nat, b: nat) returns (t: nat)
    requires IsRun(run, steps) && SameWindow(steps, p, a, b) && 0 < a && Opens(steps[a - 1], p) && p < |run[0]|
    ensures a <= t <= b && p < |run[a]| && p < |run[t]| && p < |run[b]|
    ensures Within(run, p, a, b, t)
    decreases b
  {
    RunKeepsInv(run, steps, a);
    if a == b {
      t := a;
      RunKeepsInv(run, steps, a - 1);
      assert StepAt(run, steps, a - 1);
    } else {
      t := WindowStep(run, steps, p, a, b - 1);
      RunKeepsInv(run, steps, b - 1);
      RunKeepsInv(run, steps, t);
      RunKeepsInv(run, steps, b);
      assert StepAt(run, steps, b - 1);
      if run[b][p].used >= run[t][p].quota && !run[b][p].throttled {
        t := b;
      }
    }
  }

  // ---- the same, told from the steps of the run alone ----

  /** The timer ticks that p took while running, in steps a up to b. */
  ghost function Ticks(steps: seq<Step>, p: nat, a: nat, b: nat): nat
    requires a <= b <= |steps|
    decreases b
  {
    if a == b then 0 else Ticks(steps, p, a, b - 1) + if steps[b - 1] == Tick(p) then 1 else 0
  }

  /** The quota in force before step b: what the last accepted setquota asked for, or the
      default of a new process. */
  ghost function InForce(steps: seq<Step>, p: nat, b: nat): int
    requires b <= |steps|
  {
    if b == 0 then DEFAULT_QUOTA
    else
      match steps[b - 1]
      case Alloc(q) => if q == p then DEFAULT_QUOTA else InForce(steps, p, b - 1)
      case SetQuota(q, quota) => if q == p && quota > 0 then quota else InForce(steps, p, b - 1)
      case _ => InForce(steps, p, b - 1)
  }

  /** Step k is a tick with which p has used up the quota then in force. */
  ghost predicate Reaches(steps: seq<Step>, p: nat, a: nat, k: nat) {
    a <= k < |steps| && steps[k] == Tick(p) && Ticks(steps, p, a, k + 1) >= InForce(steps, p, k)
  }

  ghost predicate Spent(steps: seq<Step>, p: nat, a: nat, b: nat) {
    exists k :: a <= k < b && Reaches(steps, p, a, k)
  }

  lemma {:induction false} QuotaIsInForce(run: seq<State>, steps: seq<Step>, p: nat, b: nat)
    requires IsRun(run, steps) && b < |run| && p < |run[0]|
    ensures p < |run[b]| && (run[b][p].state != UNUSED ==> run[b][p].quota == InForce(steps, p, b))
  {
    RunKeepsInv(run, steps, b);
    if b > 0 {
      QuotaIsInForce(run, steps, p, b - 1);
      assert StepAt(run, steps, b - 1);
    }
  }

  lemma SpentMore(steps: seq<Step>, p: nat, a: nat, b: nat)
    requires a < b <= |steps|
    ensures Spent(steps, p, a, b) <==> Spent(steps, p, a, b - 1) || Reaches(steps, p, a, b - 1)
  {
    hide Reaches;
    if k :| a <= k < b - 1 && Reaches(steps, p, a, k) {
      assert a <= k < b && Reaches(steps, p, a, k);
    }
    if Reaches(steps, p, a, b - 1) {
      assert a <= b - 1 < b;
    }
  }

  /** The accounting is exact: in every window p has been charged the ticks it took, and is
      throttled exactly if with one of them it had used up the quota then in force. */
  lemma {:induction false} ChargeIsExact(run: seq<State>, steps: seq<Step>, p: nat, a: nat, b: nat)
    requires IsRun(run, steps) && SameWindow(steps, p, a, b) && 0 < a && Opens(steps[a - 1], p) && p < |run[0]|
    ensures p < |run[b]| && run[b][p].used == Ticks(steps, p, a, b)
    ensures run[b][p].throttled <==> Spent(steps, p, a, b)
    decreases b
  {
    RunKeepsInv(run, steps, b);
    if a == b {
      RunKeepsInv(run, steps, a - 1);
      assert StepAt(run, steps, a - 1);
    } else {
      ChargeIsExact(run, steps, p, a, b - 1);
      RunKeepsInv(run, steps, b - 1);
      QuotaIsInForce(run, steps, p, b - 1);
      assert StepAt(run, steps, b - 1);
      SpentMore(steps, p, a, b);
      hide Spent;
    }
  }

  /** The ticks that p takes in a window never exceed the largest quota in force in it,
      and it counts one violation exactly if they have reached one. */
  lemma ChargeIsBounded(run: seq<State>, steps: seq<Step>, p: nat, a: nat, b: nat)
    requires IsRun(run, steps) && SameWindow(steps, p, a, b) && 0 < a && Opens(steps[a - 1], p) && p < |run[0]|
    ensures p < |run[a]| && p < |run[b]|
    ensures run[b][p].violations == run[a][p].violations + if Spent(steps, p, a, b) then 1 else 0
    ensures exists t :: a <= t <= b && Ticks(steps, p, a, b) <= InForce(steps, p, t)
  {
    var t := WindowStep(run, steps, p, a, b);
    ChargeIsExact(run, steps, p, a, b);
    if Ticks(steps, p, a, b) == 0 {
      QuotaIsPositive(steps, p, a);
      assert Ticks(steps, p, a, b) <= InForce(steps, p, a);
    } else {
      var u := LargestQuota(run, steps, p, a, b, t);
      assert Ticks(steps, p, a, b) <= InForce(steps, p, u);
    }
  }

  lemma {:induction false} QuotaIsPositive(steps: seq<Step>, p: nat, b: nat)
    requires b <= |steps|
    ensures InForce(steps, p, b) > 0
  {
    if b > 0 {
      QuotaIsPositive(steps, p, b - 1);
    }
  }

  lemma LargestQuota(run: seq<State>, steps: seq<Step>, p: nat, a: nat, b: nat, t: nat) returns (u: nat)
    requires IsRun(run, steps) && SameWindow(steps, p, a, b) && 0 < a && Opens(steps[a - 1], p) && p < |run[0]|
    requires a <= t <= b && p < |run[a]| && p < |run[t]| && p < |run[b]| && Within(run, p, a, b, t)
    ensures a <= u <= b && run[b][p].used <= InForce(steps, p, u)
  {
    u := t;
    WindowQuota(run, steps, p, a, t);
  }

  /** p exists from the opening of a window on; when it is freed its quota stays. */
  lemma {:induction false} WindowQuota(run: seq<State>, steps: seq<Step>, p: nat, a: nat, b: nat)
    requires IsRun(run, steps) && SameWindow(steps, p, a, b) && 0 < a && Opens(steps[a - 1], p) && p < |run[0]|
    ensures p < |run[b]| && run[b][p].quota == InForce(steps, p, b)
    decreases b
  {
    RunKeepsInv(run, steps, b);
    if a == b {
      RunKeepsInv(run, steps, a - 1);
      QuotaIsInForce(run, steps, p, a - 1);
      assert StepAt(run, steps, a - 1);
    } else {
      WindowQuota(run, steps, p, a, b - 1);
      assert StepAt(run, steps, b - 1);
    }
  }

  /** From that tick on p takes no other and is not dispatched, until the window ends. */
  lemma SpentIsStopped(run: seq<State>, steps: seq<Step>, p: nat, a: nat, k: nat, b: nat)
    requires IsRun(run, steps) && SameWindow(steps, p, a, b) && 0 < a && Opens(steps[a - 1], p) && p < |run[0]|
    requires a <= k < b && Reaches(steps, p, a, k)
    ensures forall l :: k < l < b ==> steps[l] != Dispatch(p) && steps[l] != Tick(p)
  {
    ChargeIsExact(run, steps, p, a, k + 1);
    RunKeepsInv(run, steps, k);
    assert StepAt(run, steps, k);
    assert Spent(steps, p, a, k + 1);
    hide Reaches, Spent;
    ThrottledIsNotDispatched(run, steps, p, k + 1, b);
    forall l | k < l < b
      ensures steps[l] != Tick(p)
    {
      NoTick(run, steps, p, k + 1, l);
    }
  }

  lemma NoTick(run: seq<State>, steps: seq<Step>, p: nat, a: nat, l: nat)
    requires IsRun(run, steps) && SameWindow(steps, p, a, l) && l < |steps|
    requires p < |run[a]| && run[a][p].throttled && run[a][p].state != UNUSED
    ensures steps[l] != Tick(p)
  {
    ThrottledIsNotDispatched(run, steps, p, a, l);
    RunKeepsInv(run, steps, l);
    assert StepAt(run, steps, l);
  }

  /** A RUNNABLE process can be dispatched exactly if it has not used up a quota. */
  lemma DispatchUnlessSpent(run: seq<State>, steps: seq<Step>, p: nat, a: nat, b: nat)
    requires IsRun(run, steps) && SameWindow(steps, p, a, b) && 0 < a && Opens(steps[a - 1], p) && p < |run[0]|
    ensures p < |run[b]|
    ensures (exists s' :: Next(run[b], Dispatch(p), s')) <==> run[b][p].state == RUNNABLE && !Spent(steps, p, a, b)
  {
    ChargeIsExact(run, steps, p, a, b);
    hide Spent;
    if run[b][p].state == RUNNABLE && !run[b][p].throttled {
      assert Next(run[b], Dispatch(p), run[b][p := After(run[b][p], Dispatch(p))]);
    }
  }

  /** Once throttled, a process stays so and is not dispatched before its next reset. */
  lemma {:induction false} ThrottledIsNotDispatched(run: seq<State>, steps: seq<Step>, p: nat, a: nat, b: nat)
    requires IsRun(run, steps) && SameWindow(steps, p, a, b) && p < |run[a]| && run[a][p].throttled
      && run[a][p].state != UNUSED
    ensures p < |run[b]| && run[b][p].throttled && run[b][p].state != UNUSED
    ensures forall k :: a <= k < b ==> steps[k] != Dispatch(p)
    decreases b - a
  {
    if a < b {
      RunKeepsInv(run, steps, a);
      RunKeepsInv(run, steps, a + 1);
      assert StepAt(run, steps, a);
      ThrottledIsNotDispatched(run, steps, p, a + 1, b);
    }
  }

  /** sys_setquota is never called by a throttled process, so its line that lifts the
      throttling never does. */
  lemma SetQuotaLiftsNothing(run: seq<State>, steps: seq<Step>, k: nat)
    requires IsRun(run, steps) && k < |steps| && steps[k].SetQuota?
    ensures steps[k].p < |run[k]| && !run[k][steps[k].p].throttled
  {
    RunKeepsInv(run, steps, k);
    assert StepAt(run, steps, k);
  }
}
