/** The write-ahead log of kernel/log.c as a state machine.

    Any number of file-system operations run concurrently between begin_op and
    end_op; a commit proceeds one disk write at a time; the machine may crash
    between any two steps, including in the middle of recovery.  `view` is what
    the buffer cache shows for every block (module Bio proves that it is a flat
    array); `committed` records the image of the last written log header. */
module LogProtocol {
  import opened Blocks

  /** One outstanding operation: the distinct blocks it has logged, and how many
      of them took a new log slot. */
  datatype Op = Op(logged: set<nat>, spent: nat)

  datatype Phase =
    | Running              // operations may run
    | WritingLog(i: nat)   // write_log has copied i blocks to the log
    | Installing(i: nat)   // header written, install_trans has copied i blocks home
    | Finishing            // commit returned, committing not yet reset
    | Down                 // crashed, nothing read yet
    | Recovering(i: nat)   // read_head done, i blocks reinstalled

  datatype State = State(
    start: nat,
    disk: Image,
    view: Image,
    lh: seq<nat>,
    pins: multiset<nat>,
    ops: map<int, Op>,
    phase: Phase,
    committed: Image)

  predicate Committing(s: State) {
    s.phase.WritingLog? || s.phase.Installing? || s.phase.Finishing?
  }

  // ---- steps ----

  ghost predicate Init(s: State) {
    && LogReadable(s.disk, s.start)
    && HeaderCount(s.disk, s.start) == 0
    && s.view == s.disk && s.committed == s.disk
    && s.lh == [] && s.pins == multiset{} && s.ops == map[] && s.phase == Running
  }

  /** The admission test of begin_op. */
  predicate Admits(s: State) {
    !Committing(s) && |s.lh| + (|s.ops| + 1) * MAXOPBLOCKS <= LOGBLOCKS
  }

  ghost predicate BeginOp(s: State, op: int, s': State) {
    && s.phase.Running? && op !in s.ops && Admits(s)
    && s' == s.(ops := s.ops[op := Op({}, 0)])
  }

  /** What an operation may ask of log_write: a home block, and no more than
      MAXOPBLOCKS distinct ones in all. */
  predicate MayLog(s: State, op: int, b: nat) {
    && s.phase.Running? && op in s.ops
    && b < |s.disk| == |s.view| && !InLog(s.start, b)
    && |s.ops[op].logged + {b}| <= MAXOPBLOCKS
  }

  /** log_write panics when the log is full, before it looks for absorption. */
  predicate TooBig(s: State) {
    |s.lh| >= LOGBLOCKS
  }

  ghost predicate LogWrite(s: State, op: int, b: nat, data: Block, s': State) {
    && MayLog(s, op, b) && !TooBig(s)
    && var o := s.ops[op];
       s' == s.(
         view := s.view[b := data],
         lh := if b in s.lh then s.lh else s.lh + [b],
         pins := if b in s.lh then s.pins else s.pins + multiset{b},
         ops := s.ops[op := Op(o.logged + {b}, if b in s.lh then o.spent else o.spent + 1)])
  }

  ghost predicate EndOp(s: State, op: int, s': State) {
    && s.phase.Running? && op in s.ops
    && s' == s.(
         ops := s.ops - {op},
         phase := if s.ops.Keys != {op} then Running
                  else if |s.lh| > 0 then WritingLog(0) else Finishing)
  }

  ghost predicate WriteLogBlock(s: State, s': State) {
    && s.phase.WritingLog? && s.phase.i < |s.lh|
    && s.start + 1 + s.phase.i < |s.disk| == |s.view| && s.lh[s.phase.i] < |s.view|
    && var i := s.phase.i;
       s' == s.(disk := s.disk[s.start + 1 + i := s.view[s.lh[i]]],
                view := s.view[s.start + 1 + i := s.view[s.lh[i]]],
                phase := WritingLog(i + 1))
  }

  /** The commit point. */
  ghost predicate WriteHead(s: State, s': State) {
    && s.phase.WritingLog? && s.phase.i == |s.lh|
    && s.start < |s.disk| == |s.view| && HomeBlocks(s.start, |s.disk|, s.lh)
    && var h := HeaderBlock(s.disk[s.start], s.lh);
       s' == s.(disk := s.disk[s.start := h], view := s.view[s.start := h],
                committed := s.view, phase := Installing(0))
  }

  ghost predicate InstallBlock(s: State, s': State) {
    && s.phase.Installing? && s.phase.i < |s.lh|
    && s.start + 1 + s.phase.i < |s.disk| && s.lh[s.phase.i] < |s.disk|
    && var i := s.phase.i;
       s' == s.(disk := s.disk[s.lh[i] := s.disk[s.start + 1 + i]],
                pins := s.pins - multiset{s.lh[i]},
                phase := Installing(i + 1))
  }

  ghost predicate ClearHead(s: State, s': State) {
    && s.phase.Installing? && s.phase.i == |s.lh|
    && s.start < |s.disk| == |s.view|
    && var h := HeaderBlock(s.disk[s.start], []);
       s' == s.(disk := s.disk[s.start := h], view := s.view[s.start := h], lh := [], phase := Finishing)
  }

  ghost predicate FinishCommit(s: State, s': State) {
    s.phase.Finishing? && s' == s.(phase := Running)
  }

  /** Power loss or a panic: memory is gone, the disk stays. */
  ghost predicate Crash(s: State, s': State) {
    s' == s.(view := s.disk, lh := [], pins := multiset{}, ops := map[], phase := Down)
  }

  ghost predicate ReadHead(s: State, s': State) {
    && s.phase.Down? && s.start < |s.disk| && HeaderCount(s.disk, s.start) <= LOGBLOCKS
    && s' == s.(lh := HeaderBlocks(s.disk, s.start), phase := Recovering(0))
  }

  ghost predicate ReinstallBlock(s: State, s': State) {
    && s.phase.Recovering? && s.phase.i < |s.lh|
    && s.start + 1 + s.phase.i < |s.disk| && s.lh[s.phase.i] < |s.disk|
    && var i := s.phase.i;
       var d := s.disk[s.lh[i] := s.disk[s.start + 1 + i]];
       s' == s.(disk := d, view := d, phase := Recovering(i + 1))
  }

  ghost predicate FinishRecovery(s: State, s': State) {
    && s.phase.Recovering? && s.phase.i == |s.lh| && s.start < |s.disk|
    && var d := s.disk[s.start := HeaderBlock(s.disk[s.start], [])];
       s' == s.(disk := d, view := d, lh := [], phase := Running)
  }

  ghost predicate CommitStep(s: State, s': State) {
    WriteLogBlock(s, s') || WriteHead(s, s') || InstallBlock(s, s') || ClearHead(s, s') || FinishCommit(s, s')
  }

  ghost predicate RecoveryStep(s: State, s': State) {
    Crash(s, s') || ReadHead(s, s') || ReinstallBlock(s, s') || FinishRecovery(s, s')
  }

  ghost predicate OpStep(s: State, s': State) {
    || (exists op :: BeginOp(s, op, s'))
    || (exists op, b, data :: LogWrite(s, op, b, data, s'))
    || (exists op :: EndOp(s, op, s'))
  }

  ghost predicate Next(s: State, s': State) {
    OpStep(s, s') || CommitStep(s, s') || RecoveryStep(s, s')
  }

  ghost predicate StepAt(run: seq<State>, i: nat)
    requires i + 1 < |run|
  {
    Next(run[i], run[i + 1])
  }

  ghost predicate IsRun(run: seq<State>) {
    && |run| > 0 && Init(run[0])
    && forall i: nat :: i + 1 < |run| ==> StepAt(run, i)
  }

  // ---- reservations ----

  /** Log slots the outstanding operations may still take. */
  ghost function Unspent(ops: map<int, Op>): int
    decreases |ops|
  {
    if exists op :: op in ops then
      var op :| op in ops;
      MAXOPBLOCKS - ops[op].spent + Unspent(ops - {op})
    else 0
  }

  lemma {:induction false} UnspentWithout(ops: map<int, Op>, op: int)
    requires op in ops
    ensures Unspent(ops) == MAXOPBLOCKS - ops[op].spent + Unspent(ops - {op})
    decreases |ops|
  {
    var first :| first in ops && Unspent(ops) == MAXOPBLOCKS - ops[first].spent + Unspent(ops - {first});
    if first != op {
      UnspentWithout(ops - {first}, op);
      UnspentWithout(ops - {op}, first);
      assert ops - {first} - {op} == ops - {op} - {first};
    }
  }

  lemma UnspentUpdate(ops: map<int, Op>, op: int, o: Op)
    ensures Unspent(ops[op := o]) == Unspent(ops - {op}) + MAXOPBLOCKS - o.spent
  {
    UnspentWithout(ops[op := o], op);
    assert ops[op := o] - {op} == ops - {op};
  }

  lemma {:induction false} UnspentNonNegative(ops: map<int, Op>)
    requires forall op :: op in ops ==> ops[op].spent <= MAXOPBLOCKS
    ensures Unspent(ops) >= 0
    decreases |ops|
  {
    if op0 :| op0 in ops {
      var op :| op in ops && Unspent(ops) == MAXOPBLOCKS - ops[op].spent + Unspent(ops - {op});
      UnspentNonNegative(ops - {op});
    }
  }

  lemma {:induction false} UnspentFresh(ops: map<int, Op>)
    requires forall op :: op in ops ==> ops[op].spent <= MAXOPBLOCKS
    ensures Unspent(ops) <= MAXOPBLOCKS * |ops|
    decreases |ops|
  {
    if op0 :| op0 in ops {
      var op :| op in ops && Unspent(ops) == MAXOPBLOCKS - ops[op].spent + Unspent(ops - {op});
      assert (ops - {op}).Keys == ops.Keys - {op};
      UnspentFresh(ops - {op});
    }
  }

  ghost predicate ReservationInv(s: State) {
    && |s.lh| + Unspent(s.ops) <= LOGBLOCKS
    && (forall op :: op in s.ops ==> s.ops[op].spent <= |s.ops[op].logged| <= MAXOPBLOCKS)
    && (forall op, b :: op in s.ops && b in s.ops[op].logged ==> b in s.lh)
    && (!s.phase.Running? ==> s.ops == map[])
    && (s.phase.Running? && s.ops == map[] ==> s.lh == [])
  }

  // ---- the invariant ----

  /** The first i logged blocks have been copied home. */
  ghost predicate Installed(d: Image, start: nat, lh: seq<nat>, i: nat)
    requires HomeBlocks(start, |d|, lh) && start + LOGBLOCKS < |d| && i <= |lh|
  {
    forall j :: 0 <= j < i ==> d[lh[j]] == d[start + 1 + j]
  }

  ghost predicate PhaseInv(s: State)
    requires LogReadable(s.disk, s.start) && |s.view| == |s.disk| && HomeBlocks(s.start, |s.disk|, s.lh)
  {
    match s.phase
    case Running =>
      && HeaderCount(s.disk, s.start) == 0
      && forall b :: 0 <= b < |s.disk| && !InLog(s.start, b) && b !in s.lh ==> s.disk[b] == s.view[b]
    case WritingLog(i) =>
      && i <= |s.lh| && HeaderCount(s.disk, s.start) == 0
      && (forall b :: 0 <= b < |s.disk| && !InLog(s.start, b) && b !in s.lh ==> s.disk[b] == s.view[b])
      && (forall j :: 0 <= j < i ==> s.disk[s.start + 1 + j] == s.view[s.lh[j]])
    case Installing(i) =>
      && i <= |s.lh| && HeaderBlocks(s.disk, s.start) == s.lh
      && SameHome(s.start, s.view, s.committed)
      && Installed(s.disk, s.start, s.lh, i)
    case Finishing =>
      && s.lh == [] && HeaderCount(s.disk, s.start) == 0
      && SameHome(s.start, s.view, s.committed) && SameHome(s.start, s.disk, s.view)
    case Down =>
      s.view == s.disk
    case Recovering(i) =>
      && s.view == s.disk && i <= |s.lh| && HeaderBlocks(s.disk, s.start) == s.lh
      && Installed(s.disk, s.start, s.lh, i)
  }

  /** The pins held on cached buffers: one for each logged block not yet installed. */
  ghost predicate PinInv(s: State) {
    match s.phase
    case Running => s.pins == multiset(s.lh)
    case WritingLog(_) => s.pins == multiset(s.lh)
    case Installing(i) => i <= |s.lh| && s.pins == multiset(s.lh[i..])
    case Finishing => s.lh == [] && s.pins == multiset{}
    case Down => s.pins == multiset{}
    case Recovering(_) => s.pins == multiset{}
  }

  /** The disk can always be recovered to `committed`. */
  ghost predicate DiskInv(s: State) {
    && LogReadable(s.disk, s.start) && |s.view| == |s.disk|
    && HomeBlocks(s.start, |s.disk|, s.lh)
    && RecoversTo(s.disk, s.start, s.committed)
    && PhaseInv(s)
  }

  ghost predicate Inv(s: State) {
    DiskInv(s) && PinInv(s) && ReservationInv(s)
  }

  lemma InitInv(s: State)
    requires Init(s)
    ensures Inv(s)
  {
  }

  // ---- operation steps ----

  lemma BeginOpKeepsReservations(s: State, op: int, s': State)
    requires ReservationInv(s) && BeginOp(s, op, s')
    ensures ReservationInv(s')
  {
    UnspentUpdate(s.ops, op, Op({}, 0));
    assert s.ops - {op} == s.ops;
    UnspentFresh(s.ops);
  }

  lemma AddOne(xs: set<nat>, b: nat)
    ensures |xs + {b}| == if b in xs then |xs| else |xs| + 1
  {
    if b in xs {
      assert xs + {b} == xs;
    }
  }

  lemma LogWriteKeepsReservations(s: State, op: int, b: nat, data: Block, s': State)
    requires ReservationInv(s) && LogWrite(s, op, b, data, s')
    ensures ReservationInv(s')
  {
    UnspentWithout(s.ops, op);
    UnspentUpdate(s.ops, op, s'.ops[op]);
    AddOne(s.ops[op].logged, b);
  }

  lemma EndOpKeepsReservations(s: State, op: int, s': State)
    requires ReservationInv(s) && EndOp(s, op, s')
    ensures ReservationInv(s')
  {
    UnspentWithout(s.ops, op);
    assert s'.ops.Keys == s.ops.Keys - {op};
    assert s'.ops == map[] ==> s'.ops.Keys == {} && s.ops.Keys == s'.ops.Keys + {op};
    assert s.ops.Keys == {op} ==> s'.ops.Keys == {} && s'.ops == map[];
  }

  lemma OpStepKeepsInv(s: State, s': State)
    requires Inv(s) && OpStep(s, s')
    ensures Inv(s')
  {
    hide DiskInv, PinInv, ReservationInv, BeginOp, LogWrite, EndOp;
    if op :| BeginOp(s, op, s') {
      BeginOpKeepsReservations(s, op, s');
      BeginOpKeepsDisk(s, op, s');
    } else if op, b, data :| LogWrite(s, op, b, data, s') {
      LogWriteKeepsReservations(s, op, b, data, s');
      LogWriteKeepsDisk(s, op, b, data, s');
    } else if op :| EndOp(s, op, s') {
      EndOpKeepsReservations(s, op, s');
      EndOpKeepsDisk(s, op, s');
    }
  }

  lemma BeginOpKeepsDisk(s: State, op: int, s': State)
    requires DiskInv(s) && PinInv(s) && BeginOp(s, op, s')
    ensures DiskInv(s') && PinInv(s')
  {
  }

  lemma LogWriteKeepsDisk(s: State, op: int, b: nat, data: Block, s': State)
    requires DiskInv(s) && PinInv(s) && LogWrite(s, op, b, data, s')
    ensures DiskInv(s') && PinInv(s')
  {
  }

  lemma EndOpKeepsDisk(s: State, op: int, s': State)
    requires DiskInv(s) && PinInv(s) && EndOp(s, op, s')
    ensures DiskInv(s') && PinInv(s')
  {
  }

  // ---- commit and recovery steps ----

  lemma HeadCommitsImage(d: Image, start: nat, lh: seq<nat>, img: Image)
    requires start + LOGBLOCKS < |d| == |img| < 0x8000_0000 && HomeBlocks(start, |d|, lh)
    requires forall b :: 0 <= b < |d| && !InLog(start, b) && b !in lh ==> d[b] == img[b]
    requires forall j :: 0 <= j < |lh| ==> d[start + 1 + j] == img[lh[j]]
    ensures var d' := d[start := HeaderBlock(d[start], lh)];
            LogReadable(d', start) && HeaderBlocks(d', start) == lh && RecoversTo(d', start, img)
  {
    assert HeaderBlocks(d[start := HeaderBlock(d[start], lh)], start) == lh;
  }

  lemma InstallKeepsImage(d: Image, start: nat, lh: seq<nat>, i: nat, img: Image)
    requires LogReadable(d, start) && HeaderBlocks(d, start) == lh && i < |lh|
    requires RecoversTo(d, start, img) && Installed(d, start, lh, i)
    ensures var d' := d[lh[i] := d[start + 1 + i]];
            && HeaderBlocks(d', start) == lh && LogReadable(d', start)
            && RecoversTo(d', start, img) && Installed(d', start, lh, i + 1)
  {
  }

  lemma ClearKeepsImage(d: Image, start: nat, lh: seq<nat>, img: Image)
    requires LogReadable(d, start) && HeaderBlocks(d, start) == lh
    requires RecoversTo(d, start, img) && Installed(d, start, lh, |lh|)
    ensures var d' := d[start := HeaderBlock(d[start], [])];
            && LogReadable(d', start) && HeaderCount(d', start) == 0
            && RecoversTo(d', start, img) && SameHome(start, d', img)
  {
    forall b | 0 <= b < |d| && !InLog(start, b)
      ensures d[b] == img[b]
    {
      if b in lh {
        var i :| 0 <= i < |lh| && lh[i] == b;
        assert d[lh[i]] == d[start + 1 + i];
      }
    }
  }

  lemma WriteLogBlockKeepsDisk(s: State, s': State)
    requires DiskInv(s) && WriteLogBlock(s, s')
    ensures DiskInv(s')
  {
    assert HeaderBlocks(s'.disk, s.start) == HeaderBlocks(s.disk, s.start) == [];
  }

  lemma WriteHeadKeepsDisk(s: State, s': State)
    requires DiskInv(s) && WriteHead(s, s')
    ensures DiskInv(s')
  {
    HeadCommitsImage(s.disk, s.start, s.lh, s.view);
    assert SameHome(s.start, s'.view, s'.committed);
  }

  lemma InstallBlockKeepsDisk(s: State, s': State)
    requires DiskInv(s) && InstallBlock(s, s')
    ensures DiskInv(s')
  {
    InstallKeepsImage(s.disk, s.start, s.lh, s.phase.i, s.committed);
  }

  lemma ReinstallBlockKeepsDisk(s: State, s': State)
    requires DiskInv(s) && ReinstallBlock(s, s')
    ensures DiskInv(s')
  {
    InstallKeepsImage(s.disk, s.start, s.lh, s.phase.i, s.committed);
  }

  lemma ClearHeadKeepsDisk(s: State, s': State)
    requires DiskInv(s) && ClearHead(s, s')
    ensures DiskInv(s')
  {
    ClearKeepsImage(s.disk, s.start, s.lh, s.committed);
  }

  lemma FinishRecoveryImage(s: State, s': State)
    requires DiskInv(s) && FinishRecovery(s, s')
    ensures DiskInv(s') && SameHome(s.start, s'.disk, s.committed) && s'.view == s'.disk
  {
    ClearKeepsImage(s.disk, s.start, s.lh, s.committed);
  }

  lemma RestKeepsDisk(s: State, s': State)
    requires DiskInv(s) && (FinishCommit(s, s') || Crash(s, s') || ReadHead(s, s'))
    ensures DiskInv(s')
  {
  }

  lemma CommitOrRecoveryKeepsDisk(s: State, s': State)
    requires DiskInv(s) && (CommitStep(s, s') || RecoveryStep(s, s'))
    ensures DiskInv(s')
  {
    hide DiskInv, WriteLogBlock, WriteHead, InstallBlock, ReinstallBlock, ClearHead, FinishRecovery,
         FinishCommit, Crash, ReadHead;
    if WriteLogBlock(s, s') {
      WriteLogBlockKeepsDisk(s, s');
    } else if WriteHead(s, s') {
      WriteHeadKeepsDisk(s, s');
    } else if InstallBlock(s, s') {
      InstallBlockKeepsDisk(s, s');
    } else if ReinstallBlock(s, s') {
      ReinstallBlockKeepsDisk(s, s');
    } else if ClearHead(s, s') {
      ClearHeadKeepsDisk(s, s');
    } else if FinishRecovery(s, s') {
      FinishRecoveryImage(s, s');
    } else {
      RestKeepsDisk(s, s');
    }
  }

  lemma UnpinOne(lh: seq<nat>, i: nat)
    requires i < |lh|
    ensures multiset(lh[i..]) - multiset{lh[i]} == multiset(lh[i + 1..])
  {
    assert lh[i..] == [lh[i]] + lh[i + 1..];
  }

  lemma InstallBlockKeepsPins(s: State, s': State)
    requires PinInv(s) && InstallBlock(s, s')
    ensures PinInv(s')
  {
    UnpinOne(s.lh, s.phase.i);
  }

  lemma HeadKeepsPins(s: State, s': State)
    requires PinInv(s) && (WriteHead(s, s') || ClearHead(s, s'))
    ensures PinInv(s')
  {
    assert s.lh[0..] == s.lh && s.lh[|s.lh|..] == [];
  }

  lemma RestKeepsPins(s: State, s': State)
    requires PinInv(s)
    requires || WriteLogBlock(s, s') || FinishCommit(s, s')
             || Crash(s, s') || ReadHead(s, s') || ReinstallBlock(s, s') || FinishRecovery(s, s')
    ensures PinInv(s')
  {
  }

  lemma CommitOrRecoveryKeepsPins(s: State, s': State)
    requires PinInv(s) && (CommitStep(s, s') || RecoveryStep(s, s'))
    ensures PinInv(s')
  {
    hide PinInv, WriteLogBlock, WriteHead, InstallBlock, ReinstallBlock, ClearHead, FinishRecovery,
         FinishCommit, Crash, ReadHead;
    if InstallBlock(s, s') {
      InstallBlockKeepsPins(s, s');
    } else if WriteHead(s, s') || ClearHead(s, s') {
      HeadKeepsPins(s, s');
    } else {
      RestKeepsPins(s, s');
    }
  }

  lemma CommitOrRecoveryKeepsReservations(s: State, s': State)
    requires ReservationInv(s) && |s.lh| <= LOGBLOCKS && (s.phase.Finishing? ==> s.lh == [])
    requires CommitStep(s, s') || RecoveryStep(s, s')
    ensures ReservationInv(s')
  {
    assert s'.ops == map[];
    assert |s'.lh| <= LOGBLOCKS;
  }

  lemma LogFits(s: State)
    requires DiskInv(s)
    ensures |s.lh| <= LOGBLOCKS && (s.phase.Finishing? ==> s.lh == [])
  {
  }

  lemma StepKeepsInv(s: State, s': State)
    requires Inv(s) && Next(s, s')
    ensures Inv(s')
  {
    hide DiskInv, PinInv, ReservationInv, OpStep, CommitStep, RecoveryStep;
    if OpStep(s, s') {
      OpStepKeepsInv(s, s');
    } else {
      CommitOrRecoveryKeepsDisk(s, s');
      CommitOrRecoveryKeepsPins(s, s');
      LogFits(s);
      CommitOrRecoveryKeepsReservations(s, s');
    }
  }

  // ---- every run ----

  lemma StepAtKeepsInv(run: seq<State>, i: nat)
    requires i + 1 < |run| && StepAt(run, i) && Inv(run[i])
    ensures Inv(run[i + 1])
  {
    hide Inv, Next;
    StepKeepsInv(run[i], run[i + 1]);
  }

  lemma {:induction false} RunKeepsInv(run: seq<State>, k: nat)
    requires IsRun(run) && k < |run|
    ensures Inv(run[k])
  {
    hide Inv, Init, StepAt;
    if k == 0 {
      InitInv(run[0]);
    } else {
      RunKeepsInv(run, k - 1);
      StepAtKeepsInv(run, k - 1);
    }
  }

  /** While a commit is in progress no operation is outstanding; so no header
      ever names a block of an unfinished operation. */
  lemma CommitHoldsWholeOperations(run: seq<State>, k: nat)
    requires IsRun(run) && k < |run|
    ensures Committing(run[k]) ==> run[k].ops == map[]
    ensures |run[k].lh| + Unspent(run[k].ops) <= LOGBLOCKS
  {
    RunKeepsInv(run, k);
  }

  /** An operation that has logged fewer than MAXOPBLOCKS distinct blocks never
      meets the "too big a transaction" panic. */
  lemma ReservationPreventsPanic(run: seq<State>, k: nat, op: int)
    requires IsRun(run) && k < |run|
    requires op in run[k].ops && |run[k].ops[op].logged| < MAXOPBLOCKS
    ensures !TooBig(run[k])
  {
    RunKeepsInv(run, k);
    UnspentWithout(run[k].ops, op);
    UnspentNonNegative(run[k].ops - {op});
  }

  /** When log_write does panic, every outstanding operation has used up its
      whole reservation. */
  lemma PanicOnlyWhenExhausted(run: seq<State>, k: nat, op: int)
    requires IsRun(run) && k < |run|
    requires op in run[k].ops && TooBig(run[k])
    ensures run[k].ops[op].spent == MAXOPBLOCKS == |run[k].ops[op].logged|
  {
    RunKeepsInv(run, k);
    UnspentWithout(run[k].ops, op);
    UnspentNonNegative(run[k].ops - {op});
  }

  /** Each block of the transaction is pinned exactly once, and all pins are gone
      when the commit has finished. */
  lemma PinnedOnce(run: seq<State>, k: nat, b: nat)
    requires IsRun(run) && k < |run|
    ensures run[k].pins[b] <= 1
    ensures run[k].phase.Running? || run[k].phase.WritingLog? ==> (run[k].pins[b] == 1 <==> b in run[k].lh)
    ensures run[k].phase.Finishing? ==> run[k].pins == multiset{}
  {
    RunKeepsInv(run, k);
    DistinctOnce(run[k].lh, b);
    if run[k].phase.Installing? {
      DistinctOnce(run[k].lh[run[k].phase.i..], b);
    }
  }

  lemma {:induction false} DistinctOnce(s: seq<nat>, b: nat)
    requires Distinct(s)
    ensures multiset(s)[b] <= 1
    ensures multiset(s)[b] == 1 <==> b in s
  {
    if s != [] {
      assert s == [s[0]] + s[1..];
      DistinctOnce(s[1..], b);
    }
  }

  // ---- atomicity across crashes ----

  /** The header of a transaction is written. */
  ghost predicate Commits(s: State, s': State) {
    s.phase.WritingLog? && s'.phase.Installing?
  }

  /** The image of the last transaction whose header was written, read off the
      run: the cache contents at that write, or the initial disk. */
  ghost function LastCommit(run: seq<State>, k: nat): Image
    requires k < |run|
  {
    if k == 0 then run[0].disk
    else if Commits(run[k - 1], run[k]) then run[k - 1].view
    else LastCommit(run, k - 1)
  }

  lemma {:induction false} CommittedIsLastCommit(run: seq<State>, k: nat)
    requires IsRun(run) && k < |run|
    ensures run[k].committed == LastCommit(run, k) && run[k].start == run[0].start
  {
    if k > 0 {
      CommittedIsLastCommit(run, k - 1);
      assert StepAt(run, k - 1);
      CommittedChanges(run[k - 1], run[k]);
    }
  }

  lemma CommittedChanges(s: State, s': State)
    requires Next(s, s')
    ensures s'.start == s.start
    ensures s'.committed == if Commits(s, s') then s.view else s.committed
  {
  }

  predicate InRecovery(s: State) {
    s.phase.Down? || s.phase.Recovering?
  }

  lemma {:induction false} RecoveryKeepsCommitted(run: seq<State>, c: nat, r: nat)
    requires IsRun(run) && c <= r < |run|
    requires forall j :: c < j <= r ==> InRecovery(run[j])
    ensures run[r].committed == run[c].committed && run[r].start == run[c].start
  {
    if c < r {
      RecoveryKeepsCommitted(run, c, r - 1);
      assert StepAt(run, r - 1);
      CommittedChanges(run[r - 1], run[r]);
    }
  }

  lemma RecoveryEnds(s: State, s': State)
    requires Next(s, s') && InRecovery(s) && s'.phase.Running?
    ensures FinishRecovery(s, s')
  {
  }

  lemma RecoveryRestoresCommitted(run: seq<State>, c: nat, r: nat)
    requires IsRun(run) && c < r < |run|
    requires c + 1 < r && run[r].phase.Running?
    requires forall j :: c < j < r ==> InRecovery(run[j])
    ensures SameHome(run[c].start, run[r].disk, run[c].committed)
    ensures run[r].view == run[r].disk
  {
    hide Next, DiskInv, FinishRecovery, SameHome;
    RecoveryKeepsCommitted(run, c, r - 1);
    RunKeepsInv(run, r - 1);
    assert StepAt(run, r - 1) && InRecovery(run[r - 1]);
    RecoveryEnds(run[r - 1], run[r]);
    FinishRecoveryImage(run[r - 1], run[r]);
  }

  /** Crash safety.  A crash in state c, followed by recovery that may itself be
      cut off any number of times and finally completes at r, leaves every home
      block as the last transaction committed before the crash left it. */
  lemma RecoveryRestoresLastCommit(run: seq<State>, c: nat, r: nat)
    requires IsRun(run) && c + 1 < r < |run| && run[r].phase.Running?
    requires forall j :: c < j < r ==> InRecovery(run[j])
    ensures SameHome(run[0].start, run[r].disk, LastCommit(run, c))
    ensures run[r].view == run[r].disk
  {
    hide IsRun, SameHome, LastCommit;
    RecoveryRestoresCommitted(run, c, r);
    CommittedIsLastCommit(run, c);
  }

  lemma CommittingStep(s: State, s': State)
    requires |s.view| == |s.disk| && |s.lh| <= LOGBLOCKS
    requires Next(s, s') && Committing(s) && Committing(s')
    ensures SameHome(s.start, s'.view, s.view)
    ensures s'.committed == s.committed || s'.committed == s.view
  {
    assert CommitStep(s, s');
    if WriteLogBlock(s, s') {
    } else if WriteHead(s, s') {
    } else if InstallBlock(s, s') {
    } else {
      assert ClearHead(s, s');
    }
  }

  lemma RunShape(run: seq<State>, k: nat)
    requires IsRun(run) && k < |run|
    ensures run[k].start == run[0].start
    ensures |run[k].view| == |run[k].disk| && |run[k].lh| <= LOGBLOCKS
  {
    RunKeepsInv(run, k);
    CommittedIsLastCommit(run, k);
  }

  lemma SameHomeTransitive(start: nat, x: Image, y: Image, z: Image)
    requires SameHome(start, x, y) && SameHome(start, y, z)
    ensures SameHome(start, x, z)
  {
  }

  lemma {:induction false} CommitInProgress(run: seq<State>, e: nat, c: nat)
    requires IsRun(run) && e <= c < |run|
    requires forall j :: e <= j <= c ==> Committing(run[j])
    ensures SameHome(run[0].start, run[c].view, run[e].view)
    ensures run[c].committed == run[e].committed || SameHome(run[0].start, run[c].committed, run[e].view)
  {
    if e < c {
      CommitInProgress(run, e, c - 1);
      RunShape(run, c - 1);
      assert StepAt(run, c - 1);
      CommittingStep(run[c - 1], run[c]);
      SameHomeTransitive(run[0].start, run[c].view, run[c - 1].view, run[e].view);
    }
  }

  /** All or nothing.  If the machine crashes anywhere during the commit that
      started at e, the recovered disk holds either none of the transaction's
      writes or all of them. */
  lemma CommitIsAtomic(run: seq<State>, e: nat, c: nat, r: nat)
    requires IsRun(run) && e <= c && c + 1 < r < |run| && run[r].phase.Running?
    requires forall j :: e <= j <= c ==> Committing(run[j])
    requires forall j :: c < j < r ==> InRecovery(run[j])
    ensures || SameHome(run[0].start, run[r].disk, LastCommit(run, e))
            || SameHome(run[0].start, run[r].disk, run[e].view)
  {
    hide IsRun, SameHome, LastCommit;
    CommitInProgress(run, e, c);
    CommittedIsLastCommit(run, e);
    CommittedIsLastCommit(run, c);
    RecoveryRestoresLastCommit(run, c, r);
    if run[c].committed != run[e].committed {
      SameHomeTransitive(run[0].start, run[r].disk, run[c].committed, run[e].view);
    }
  }

  /** Once a commit has finished, its contents are what any later crash recovers. */
  lemma FinishedCommitIsDurable(run: seq<State>, k: nat)
    requires IsRun(run) && k < |run| && run[k].phase.Finishing?
    ensures SameHome(run[0].start, LastCommit(run, k), run[k].view)
    ensures SameHome(run[0].start, run[k].disk, run[k].view)
  {
    RunKeepsInv(run, k);
    CommittedIsLastCommit(run, k);
  }

  /** Whenever the log is idle, with no operation outstanding and no commit or recovery under
      way, everything the cache shows is on the disk and nothing is logged or pinned. */
  lemma IdleIsDurable(run: seq<State>, k: nat)
    requires IsRun(run) && k < |run| && run[k].phase.Running? && run[k].ops == map[]
    ensures run[k].lh == [] && run[k].pins == multiset{}
    ensures SameHome(run[0].start, run[k].disk, run[k].view)
    ensures SameHome(run[0].start, LastCommit(run, k), run[k].view)
  {
    RunKeepsInv(run, k);
    CommittedIsLastCommit(run, k);
  }

  /** What the operations had written when the last of them ended, at step e, is on the disk
      when the log runs again, at f, unless the machine crashes in between. */
  lemma EndedIsDurable(run: seq<State>, e: nat, f: nat)
    requires IsRun(run) && e < f < |run| && run[e].ops != map[] && run[e + 1].ops == map[]
    requires forall j :: e < j < f ==> Committing(run[j])
    requires run[f].phase.Running?
    ensures SameHome(run[0].start, run[f].disk, run[e].view)
    ensures SameHome(run[0].start, LastCommit(run, f), run[e].view)
  {
    hide SameHome, LastCommit, Next, Inv, Init;
    RunKeepsInv(run, e);
    assert StepAt(run, e);
    LastEnd(run[e], run[e + 1]);
    if f > e + 1 {
      CommitInProgress(run, e + 1, f - 1);
      RunKeepsInv(run, f - 1);
      assert StepAt(run, f - 1) && Committing(run[f - 1]);
      CommitEnds(run[f - 1], run[f]);
    } else {
      SameHomeRefl(run[0].start, run[f].view);
    }
    IdleIsDurable(run, f);
    SameHomeTransitive(run[0].start, run[f].disk, run[f].view, run[e].view);
    SameHomeTransitive(run[0].start, LastCommit(run, f), run[f].view, run[e].view);
  }

  lemma SameHomeRefl(start: nat, x: Image)
    ensures SameHome(start, x, x)
  {
  }

  lemma LastEnd(s: State, s': State)
    requires Next(s, s') && s.ops != map[] && s'.ops == map[] && Inv(s) && !s'.phase.Down?
    ensures s'.view == s.view
  {
    hide DiskInv, PinInv;
    assert s.phase.Running?;
    assert !CommitStep(s, s') && !RecoveryStep(s, s');
    assert forall op, b, data :: LogWrite(s, op, b, data, s') ==> op in s'.ops;
    assert forall op :: BeginOp(s, op, s') ==> op in s'.ops;
  }

  lemma CommitEnds(s: State, s': State)
    requires Next(s, s') && Committing(s) && s'.phase.Running? && Inv(s)
    ensures s'.view == s.view && s'.ops == map[]
  {
    hide DiskInv, PinInv;
    assert FinishCommit(s, s');
  }

  // ---- nothing is stuck ----

  /** Disk writes and other steps until the log runs again. */
  ghost function ToGo(s: State): int {
    match s.phase
    case Running => 0
    case WritingLog(i) => |s.lh| - i + |s.lh| + 3
    case Installing(i) => |s.lh| - i + 2
    case Finishing => 1
    case Down => LOGBLOCKS + 2
    case Recovering(i) => |s.lh| - i + 1
  }

  lemma Nearer(s: State, s': State)
    requires !s.phase.Running? && Next(s, s') && !s'.phase.Down?
    ensures ToGo(s') < ToGo(s)
  {
    assert !OpStep(s, s');
    assert ReadHead(s, s') ==> |s'.lh| <= LOGBLOCKS;
  }

  lemma CommitCanGoOn(s: State)
    requires DiskInv(s) && Committing(s)
    ensures exists s' :: CommitStep(s, s')
  {
    hide Installed, SameHome, RecoversTo, HeaderBlock;
    match s.phase
    case WritingLog(i) =>
      if i < |s.lh| {
        var s' := s.(disk := s.disk[s.start + 1 + i := s.view[s.lh[i]]],
                     view := s.view[s.start + 1 + i := s.view[s.lh[i]]], phase := WritingLog(i + 1));
        assert WriteLogBlock(s, s');
        assert CommitStep(s, s');
      } else {
        var h := HeaderBlock(s.disk[s.start], s.lh);
        var s' := s.(disk := s.disk[s.start := h], view := s.view[s.start := h],
                     committed := s.view, phase := Installing(0));
        assert WriteHead(s, s');
        assert CommitStep(s, s');
      }
    case Installing(i) =>
      if i < |s.lh| {
        var s' := s.(disk := s.disk[s.lh[i] := s.disk[s.start + 1 + i]],
                     pins := s.pins - multiset{s.lh[i]}, phase := Installing(i + 1));
        assert InstallBlock(s, s');
        assert CommitStep(s, s');
      } else {
        var h := HeaderBlock(s.disk[s.start], []);
        var s' := s.(disk := s.disk[s.start := h], view := s.view[s.start := h], lh := [], phase := Finishing);
        assert ClearHead(s, s');
        assert CommitStep(s, s');
      }
    case Finishing =>
      assert CommitStep(s, s.(phase := Running));
  }

  lemma RecoveryCanGoOn(s: State)
    requires DiskInv(s) && InRecovery(s)
    ensures exists s' :: RecoveryStep(s, s') && !s'.phase.Down?
  {
    hide Installed, SameHome, RecoversTo, HeaderBlock;
    match s.phase
    case Down =>
      assert ReadHead(s, s.(lh := HeaderBlocks(s.disk, s.start), phase := Recovering(0)));
    case Recovering(i) =>
      if i < |s.lh| {
        var d := s.disk[s.lh[i] := s.disk[s.start + 1 + i]];
        assert ReinstallBlock(s, s.(disk := d, view := d, phase := Recovering(i + 1)));
      } else {
        var d := s.disk[s.start := HeaderBlock(s.disk[s.start], [])];
        assert FinishRecovery(s, s.(disk := d, view := d, lh := [], phase := Running));
      }
  }

  /** A commit and a recovery can always go on, and short of a crash each step brings them
      nearer their end. */
  lemma CommitAndRecoveryEnd(run: seq<State>, k: nat)
    requires IsRun(run) && k < |run| && !run[k].phase.Running?
    ensures exists s' :: Next(run[k], s') && !s'.phase.Down?
    ensures forall s' :: Next(run[k], s') && !s'.phase.Down? ==> ToGo(s') < ToGo(run[k])
    ensures ToGo(run[k]) > 0
  {
    var s := run[k];
    hide ToGo, CommitStep, RecoveryStep, OpStep, DiskInv, PinInv, ReservationInv;
    RunKeepsInv(run, k);
    forall s' | Next(s, s') && !s'.phase.Down?
      ensures ToGo(s') < ToGo(s)
    {
      Nearer(s, s');
    }
    PositiveToGo(s);
    if Committing(s) {
      CommitCanGoOn(s);
      var s' :| CommitStep(s, s');
      StaysUp(s, s');
    } else {
      RecoveryCanGoOn(s);
    }
  }

  lemma StaysUp(s: State, s': State)
    requires CommitStep(s, s')
    ensures Next(s, s') && !s'.phase.Down?
  {
  }

  lemma PositiveToGo(s: State)
    requires DiskInv(s) && !s.phase.Running?
    ensures ToGo(s) > 0
  {
  }

  /** While the log runs, an operation is admitted just if MAXOPBLOCKS more blocks would
      fit for it and all others, and one that is outstanding can end. */
  lemma CanBeginAndEnd(s: State, op: int)
    requires s.phase.Running?
    ensures op !in s.ops ==>
              ((exists s' :: Next(s, s') && op in s'.ops) <==>
               |s.lh| + (|s.ops| + 1) * MAXOPBLOCKS <= LOGBLOCKS)
    ensures op in s.ops ==> exists s' :: Next(s, s') && s'.ops == s.ops - {op} && s'.view == s.view
  {
    if op in s.ops {
      var s' := s.(ops := s.ops - {op},
                   phase := if s.ops.Keys != {op} then Running
                            else if |s.lh| > 0 then WritingLog(0) else Finishing);
      assert EndOp(s, op, s');
      assert Next(s, s');
    } else if Admits(s) {
      assert BeginOp(s, op, s.(ops := s.ops[op := Op({}, 0)]));
      assert Next(s, s.(ops := s.ops[op := Op({}, 0)]));
    }
  }

  /** Whatever a process wants in a block it may log, one step puts it there. */
  lemma CanLog(s: State, op: int, b: nat, data: Block)
    requires MayLog(s, op, b) && !TooBig(s)
    ensures exists s' :: Next(s, s') && s'.view == s.view[b := data] && b in s'.lh && s'.ops.Keys == s.ops.Keys
  {
    var o := s.ops[op];
    var s' := s.(
      view := s.view[b := data],
      lh := if b in s.lh then s.lh else s.lh + [b],
      pins := if b in s.lh then s.pins else s.pins + multiset{b},
      ops := s.ops[op := Op(o.logged + {b}, if b in s.lh then o.spent else o.spent + 1)]);
    assert LogWrite(s, op, b, data, s');
    assert Next(s, s');
  }

  /** No other step changes what the cache shows of a home block: short of a crash and
      the recovery from it, what changes has just been logged by an operation. */
  lemma OnlyLoggedChanges(s: State, s': State, b: nat)
    requires Inv(s) && Next(s, s') && !InRecovery(s')
    requires b < |s.view| == |s'.view| && !InLog(s.start, b) && s'.view[b] != s.view[b]
    ensures s.phase.Running? && s'.phase.Running? && b in s'.lh
    ensures exists op :: op in s.ops && op in s'.ops && b in s'.ops[op].logged
  {
    hide PinInv;
    if CommitStep(s, s') {
      CommitShowsSame(s, s', b);
    } else if RecoveryStep(s, s') {
      RecoveryShowsSame(s, s', b);
    }
    hide DiskInv, CommitStep, RecoveryStep;
    var op, c, data :| LogWrite(s, op, c, data, s');
    assert c == b;
    assert op in s.ops && op in s'.ops && b in s'.ops[op].logged;
  }

  lemma CommitShowsSame(s: State, s': State, b: nat)
    requires DiskInv(s) && CommitStep(s, s') && b < |s.view| == |s'.view| && !InLog(s.start, b)
    ensures s'.view[b] == s.view[b]
  {
  }

  lemma RecoveryShowsSame(s: State, s': State, b: nat)
    requires DiskInv(s) && RecoveryStep(s, s') && !InRecovery(s')
    requires b < |s.view| == |s'.view| && !InLog(s.start, b)
    ensures s'.view[b] == s.view[b]
  {
  }

  // ---- a full log panics even on an absorbed write ----

  ghost predicate Reachable(s: State) {
    exists run :: IsRun(run) && run[|run| - 1] == s
  }

  lemma ReachableStep(s: State, s': State)
    requires Reachable(s) && Next(s, s')
    ensures Reachable(s')
  {
    hide Init, Next;
    var run :| IsRun(run) && run[|run| - 1] == s;
    var longer := run + [s'];
    forall i: nat | i + 1 < |longer|
      ensures StepAt(longer, i)
    {
      if i + 1 < |run| {
        assert StepAt(run, i);
      }
    }
    assert IsRun(longer);
  }

  const BLANK: Block := seq(256, _ => 0)

  /** A state in which three operations have made k log_writes in all, ten each
      before the next one starts logging. */
  ghost predicate Filling(s: State, k: nat) {
    && k <= LOGBLOCKS && Reachable(s) && s.phase.Running? && s.start == 2
    && |s.disk| == |s.view| == 200
    && |s.lh| == k && (forall i :: 0 <= i < k ==> s.lh[i] == 100 + i)
    && s.ops.Keys == {0, 1, 2}
    && (forall j :: 0 <= j < 3 ==>
          |s.ops[j].logged| == if k <= 10 * j then 0 else if k < 10 * j + 10 then k - 10 * j else 10)
    && (k > 0 ==> 99 + k in s.ops[(k - 1) / 10].logged)
  }

  lemma ReachableStart() returns (s: State)
    ensures Reachable(s) && s.phase.Running? && s.start == 2
    ensures |s.disk| == |s.view| == 200 && s.lh == [] && s.ops == map[]
  {
    var d: Image := seq(200, _ => BLANK);
    s := State(2, d, d, [], multiset{}, map[], Running, d);
    assert IsRun([s]);
    assert [s][|[s]| - 1] == s;
  }

  lemma ReachableBegin(s: State, op: int) returns (s': State)
    requires Reachable(s) && s.phase.Running? && op !in s.ops && Admits(s)
    ensures Reachable(s') && s' == s.(ops := s.ops[op := Op({}, 0)])
  {
    s' := s.(ops := s.ops[op := Op({}, 0)]);
    assert BeginOp(s, op, s');
    assert OpStep(s, s');
    ReachableStep(s, s');
  }

  lemma StartFilling() returns (s: State)
    ensures Filling(s, 0)
  {
    hide Reachable;
    s := ReachableStart();
    s := ReachableBegin(s, 0);
    s := ReachableBegin(s, 1);
    s := ReachableBegin(s, 2);
  }

  lemma ReachableLogWrite(s: State, op: int, b: nat, data: Block) returns (s': State)
    requires Reachable(s) && MayLog(s, op, b) && !TooBig(s)
    ensures Reachable(s') && LogWrite(s, op, b, data, s')
  {
    var o := s.ops[op];
    s' := s.(
      view := s.view[b := data],
      lh := if b in s.lh then s.lh else s.lh + [b],
      pins := if b in s.lh then s.pins else s.pins + multiset{b},
      ops := s.ops[op := Op(o.logged + {b}, if b in s.lh then o.spent else o.spent + 1)]);
    assert OpStep(s, s') by {
      assert LogWrite(s, op, b, data, s');
    }
    hide Next, OpStep;
    assert Next(s, s') by {
      OpStepIsNext(s, s');
    }
    ReachableStep(s, s');
  }

  lemma OpStepIsNext(s: State, s': State)
    requires OpStep(s, s')
    ensures Next(s, s')
  {
  }

  lemma FillOne(s: State, k: nat) returns (s': State)
    requires k < LOGBLOCKS && Filling(s, k)
    ensures Filling(s', k + 1)
  {
    hide Reachable;
    var j := k / 10;
    assert j in s.ops.Keys;
    LoggedIsInLog(s);
    assert 100 + k !in s.lh;
    AddOne(s.ops[j].logged, 100 + k);
    s' := ReachableLogWrite(s, j, 100 + k, BLANK);
  }

  lemma LoggedIsInLog(s: State)
    requires Reachable(s)
    ensures forall op, b :: op in s.ops && b in s.ops[op].logged ==> b in s.lh
  {
    hide DiskInv, PinInv, Init;
    var run :| IsRun(run) && run[|run| - 1] == s;
    RunKeepsInv(run, |run| - 1);
  }

  lemma {:induction false} Fill(k: nat) returns (s: State)
    requires k <= LOGBLOCKS
    ensures Filling(s, k)
  {
    hide Filling;
    if k == 0 {
      s := StartFilling();
    } else {
      s := Fill(k - 1);
      s := FillOne(s, k - 1);
    }
  }

  /** MAXOPBLOCKS distinct blocks per operation is not enough to avoid the panic:
      three operations that have each logged ten blocks fill the log, and then even
      re-logging a block that is already in it is refused.  (The exact guarantee is
      ReservationPreventsPanic: fewer than MAXOPBLOCKS before the call.) */
  lemma AbsorbedWriteCanPanic()
    ensures exists s, op, b :: Reachable(s) && MayLog(s, op, b) && b in s.ops[op].logged && TooBig(s)
  {
    hide Reachable;
    var s := Fill(LOGBLOCKS);
    AddOne(s.ops[2].logged, 129);
    assert MayLog(s, 2, 129);
  }
}
