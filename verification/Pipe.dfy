/** The pipe of kernel/pipe.c between one writer process and one reader process, as a
    machine whose steps are single loads and stores under sequential consistency.
    Bytes pass one at a time, each in a critical section of Peterson's algorithm. */
module Pipe {
  const PIPESIZE: nat := 512
  const WRAP: nat := 0x1_0000_0000   // nread and nwrite are 32 bits wide

  type Byte = x: nat | x < 256 witness 0

  /** The writer: before its request, after want, after turn (it then reads want of
      the other, and turn), and inside. */
  datatype WPc = WOut | WWant | WTurn | WLook | WLook2 | WOpen | WFull | WStore | WInc | WExit | WDone

  datatype RPc = ROut | RWant | RTurn | RLook | RLook2 | REmpty | RClosed | RLoad | RInc | RExit | REof | RDone

  /** Peterson's variables, and where the two are. */
  datatype Sync = Sync(want0: bool, want1: bool, turn: nat, w: WPc, r: RPc)

  /** written and taken are the bytes enqueued and dequeued so far. */
  datatype State = State(p: Sync, nread: nat, nwrite: nat, data: seq<Byte>, readopen: bool, writeopen: bool,
                         wch: Byte, rch: Byte, written: seq<Byte>, taken: seq<Byte>)

  ghost predicate WriterIn(p: Sync) {
    p.w.WOpen? || p.w.WFull? || p.w.WStore? || p.w.WInc? || p.w.WExit?
  }

  ghost predicate ReaderIn(p: Sync) {
    p.r.REmpty? || p.r.RClosed? || p.r.RLoad? || p.r.RInc? || p.r.RExit?
  }

  /** Writer: in the wait loop of peterson_enter. */
  ghost predicate WriterWaits(p: Sync) {
    p.w.WLook? || p.w.WLook2?
  }

  ghost predicate ReaderWaits(p: Sync) {
    p.r.RLook? || p.r.RLook2?
  }

  // ---- pipewrite ----

  /** Where the writer goes, and what it does to Peterson's variables; open and full
      are what it sees inside. */
  ghost predicate WriterMoves(p: Sync, p': Sync, open: bool, full: bool) {
    && p'.want1 == p.want1 && p'.r == p.r
    && p'.want0 == (if p.w.WWant? then true else if p.w.WExit? then false else p.want0)
    && p'.turn == (if p.w.WTurn? then 1 else p.turn)
    && match p.w
       case WOut => (open && p'.w.WWant?) || p'.w.WDone?
       case WWant => p'.w.WTurn?
       case WTurn => p'.w.WLook?
       case WLook => if p.want1 then p'.w.WLook2? else p'.w.WOpen?
       case WLook2 => if p.turn == 1 then p'.w.WLook? else p'.w.WOpen?
       case WOpen => if open then p'.w.WFull? else p'.w.WExit?
       case WFull => if full then p'.w.WExit? else p'.w.WStore?
       case WStore => p'.w.WInc?
       case WInc => p'.w.WExit?
       case WExit => p'.w.WOut?
       case WDone => false
  }

  /** The data side of a step of the writer, which holds byte ch. */
  function WriterEffect(s: State, p': Sync, ch: Byte): (s': State)
    requires |s.data| == PIPESIZE
  {
    if s.p.w.WOut? then s.(p := p', wch := ch, writeopen := s.writeopen && !p'.w.WDone?)
    else if s.p.w.WStore? then s.(p := p', data := s.data[s.nwrite % PIPESIZE := s.wch])
    else if s.p.w.WInc? then s.(p := p', nwrite := (s.nwrite + 1) % WRAP, written := s.written + [s.wch])
    else s.(p := p')
  }

  ghost predicate WriterStep(s: State, s': State) {
    && |s.data| == PIPESIZE
    && WriterMoves(s.p, s'.p, s.readopen, s.nwrite == (s.nread + PIPESIZE) % WRAP)
    && s' == WriterEffect(s, s'.p, s'.wch)
  }

  // ---- piperead ----

  ghost predicate ReaderMoves(p: Sync, p': Sync, open: bool, empty: bool) {
    && p'.want0 == p.want0 && p'.w == p.w
    && p'.want1 == (if p.r.RWant? then true else if p.r.RExit? || p'.r.REof? then false else p.want1)
    && p'.turn == (if p.r.RTurn? then 0 else p.turn)
    && match p.r
       case ROut => p'.r.RWant? || p'.r.RDone?
       case RWant => p'.r.RTurn?
       case RTurn => p'.r.RLook?
       case RLook => if p.want0 then p'.r.RLook2? else p'.r.REmpty?
       case RLook2 => if p.turn == 0 then p'.r.RLook? else p'.r.REmpty?
       case REmpty => if empty then p'.r.RClosed? else p'.r.RLoad?
       case RClosed => if open then p'.r.RExit? else p'.r.REof?
       case RLoad => p'.r.RInc?
       case RInc => p'.r.RExit?
       case RExit => p'.r.ROut?
       case REof => p'.r.ROut?
       case RDone => false
  }

  function ReaderEffect(s: State, p': Sync): (s': State)
    requires |s.data| == PIPESIZE
  {
    if s.p.r.ROut? then s.(p := p', readopen := s.readopen && !p'.r.RDone?)
    else if s.p.r.RLoad? then s.(p := p', rch := s.data[s.nread % PIPESIZE])
    else if s.p.r.RInc? then s.(p := p', nread := (s.nread + 1) % WRAP, taken := s.taken + [s.rch])
    else s.(p := p')
  }

  ghost predicate ReaderStep(s: State, s': State) {
    && |s.data| == PIPESIZE
    && ReaderMoves(s.p, s'.p, s.writeopen, s.nread == s.nwrite)
    && s' == ReaderEffect(s, s'.p)
  }

  ghost predicate Next(s: State, s': State) {
    WriterStep(s, s') || ReaderStep(s, s')
  }

  ghost predicate Init(s: State) {
    && !s.p.want0 && !s.p.want1 && s.p.turn == 0 && s.nread == 0 && s.nwrite == 0 && |s.data| == PIPESIZE
    && s.readopen && s.writeopen && s.p.w.WOut? && s.p.r.ROut? && s.written == [] && s.taken == []
  }

  ghost predicate StepAt(run: seq<State>, k: nat)
    requires k + 1 < |run|
  {
    Next(run[k], run[k + 1])
  }

  ghost predicate IsRun(run: seq<State>) {
    && |run| > 0 && Init(run[0])
    && forall k: nat :: k + 1 < |run| ==> StepAt(run, k)
  }

  // ---- mutual exclusion ----

  ghost predicate Flags(p: Sync) {
    && p.turn <= 1
    && (p.want0 <==> !(p.w.WOut? || p.w.WWant? || p.w.WDone?))
    && (p.want1 <==> !(p.r.ROut? || p.r.RWant? || p.r.RDone? || p.r.REof?))
  }

  ghost predicate Peterson(p: Sync) {
    && Flags(p)
    && !(WriterIn(p) && ReaderIn(p))
    && (WriterIn(p) && ReaderWaits(p) ==> p.turn == 0)
    && (ReaderIn(p) && WriterWaits(p) ==> p.turn == 1)
  }

  // ---- the ring ----

  /** Byte k of those written is still in the ring. */
  ghost predicate InRing(s: State, k: nat) {
    |s.data| == PIPESIZE && k < |s.written| && s.data[k % PIPESIZE] == s.written[k]
  }

  ghost predicate Ring(s: State) {
    && |s.data| == PIPESIZE
    && s.nwrite == |s.written| % WRAP && s.nread == |s.taken| % WRAP
    && |s.taken| <= |s.written| <= |s.taken| + PIPESIZE
    && s.taken == s.written[..|s.taken|]
    && (forall k: nat :: |s.taken| <= k < |s.written| ==> InRing(s, k))
  }

  /** What the writer knows inside. */
  ghost predicate WriterHolds(s: State) {
    && (s.p.w.WStore? || s.p.w.WInc? ==> |s.written| < |s.taken| + PIPESIZE)
    && (s.p.w.WInc? ==> |s.data| == PIPESIZE && s.data[|s.written| % PIPESIZE] == s.wch)
    && (s.writeopen <==> !s.p.w.WDone?)
  }

  /** What the reader knows inside, and at the end of the file. */
  ghost predicate ReaderHolds(s: State) {
    && (s.p.r.RClosed? || s.p.r.REof? ==> s.taken == s.written)
    && (s.p.r.RLoad? || s.p.r.RInc? ==> |s.taken| < |s.written|)
    && (s.p.r.RInc? ==> s.rch == s.written[|s.taken|])
    && (s.p.r.REof? ==> !s.writeopen)
  }

  ghost predicate Inv(s: State) {
    Peterson(s.p) && Ring(s) && WriterHolds(s) && ReaderHolds(s)
  }

  lemma WrapAdd(a: nat, d: nat)
    requires d <= PIPESIZE
    ensures (a + d) % WRAP == if a % WRAP + d < WRAP then a % WRAP + d else a % WRAP + d - WRAP
  {
  }

  lemma WrapPlace(a: nat)
    ensures a % WRAP % PIPESIZE == a % PIPESIZE
  {
    var r := a % WRAP;
    RemainderOf(a, a / WRAP * 0x80_0000 + r / PIPESIZE, r % PIPESIZE);
  }

  lemma RemainderOf(x: nat, k: nat, m: nat)
    requires x == k * PIPESIZE + m && m < PIPESIZE
    ensures x % PIPESIZE == m
  {
  }

  /** The wrapped counters tell the same as the true ones, since at most PIPESIZE bytes
      are in the ring. */
  lemma Wrapped(a: nat, b: nat)
    requires a <= b <= a + PIPESIZE
    ensures a % WRAP == b % WRAP <==> a == b
    ensures b % WRAP == (a % WRAP + PIPESIZE) % WRAP <==> b == a + PIPESIZE
    ensures (b % WRAP + 1) % WRAP == (b + 1) % WRAP && (a % WRAP + 1) % WRAP == (a + 1) % WRAP
    ensures (b % WRAP + WRAP - a % WRAP) % WRAP == b - a
  {
    WrapAdd(a, b - a);
    WrapAdd(a, PIPESIZE);
    WrapAdd(a, 1);
    WrapAdd(b, 1);
    WrapSmall(a % WRAP, PIPESIZE);
    WrapSmall(a % WRAP, 1);
    WrapSmall(b % WRAP, 1);
  }

  lemma WrapSmall(r: nat, d: nat)
    requires r < WRAP && d <= PIPESIZE
    ensures (r + d) % WRAP == if r + d < WRAP then r + d else r + d - WRAP
  {
  }

  /** Bytes that are both in the ring have different places. */
  lemma Places(a: nat, b: nat)
    requires a < b < a + PIPESIZE
    ensures a % PIPESIZE != b % PIPESIZE
  {
  }

  lemma WriterKeepsPeterson(p: Sync, p': Sync, open: bool, full: bool)
    requires Peterson(p) && WriterMoves(p, p', open, full)
    ensures Peterson(p')
  {
  }

  lemma ReaderKeepsPeterson(p: Sync, p': Sync, open: bool, empty: bool)
    requires Peterson(p) && ReaderMoves(p, p', open, empty)
    ensures Peterson(p')
  {
  }

  ghost predicate SameRing(s: State, s': State) {
    && s'.data == s.data && s'.nread == s.nread && s'.nwrite == s.nwrite && s'.written == s.written
        && s'.taken == s.taken
  }

  lemma RingSame(s: State, s': State)
    requires Ring(s) && SameRing(s, s')
    ensures Ring(s')
  {
    forall k: nat | |s.taken| <= k < |s.written|
      ensures InRing(s', k)
    {
      assert InRing(s, k);
    }
  }

  lemma StoreKeeps(s: State, s': State)
    requires Ring(s) && s.p.w.WStore? && |s.written| < |s.taken| + PIPESIZE && WriterStep(s, s')
    ensures Ring(s') && s'.data[|s.written| % PIPESIZE] == s.wch
  {
    WrapPlace(|s.written|);
    forall k: nat | |s.taken| <= k < |s.written|
      ensures InRing(s', k)
    {
      assert InRing(s, k);
      Places(k, |s.written|);
    }
  }

  lemma IncKeeps(s: State, s': State)
    requires Ring(s) && s.p.w.WInc? && |s.written| < |s.taken| + PIPESIZE && WriterStep(s, s')
    requires s.data[|s.written| % PIPESIZE] == s.wch
    ensures Ring(s')
  {
    Wrapped(|s.taken|, |s.written|);
    forall k: nat | |s.taken| <= k < |s'.written|
      ensures InRing(s', k)
    {
      assert k < |s.written| ==> InRing(s, k);
    }
  }

  lemma TakeKeeps(s: State, s': State)
    requires Ring(s) && s.p.r.RInc? && |s.taken| < |s.written| && s.rch == s.written[|s.taken|] && ReaderStep(s, s')
    ensures Ring(s')
  {
    Wrapped(|s.taken|, |s.written|);
    forall k: nat | |s'.taken| <= k < |s.written|
      ensures InRing(s', k)
    {
      assert InRing(s, k);
    }
  }

  lemma WriterKeepsInv(s: State, s': State)
    requires Inv(s) && WriterStep(s, s')
    ensures Inv(s')
  {
    hide Ring;
    WriterKeepsPeterson(s.p, s'.p, s.readopen, s.nwrite == (s.nread + PIPESIZE) % WRAP);
    WriterKeepsReader(s, s');
    hide Peterson, ReaderHolds;
    if s.p.w.WStore? {
      StoreKeeps(s, s');
    } else if s.p.w.WInc? {
      IncKeeps(s, s');
    } else {
      RingSame(s, s');
      FullTest(s);
    }
  }

  /** With the reader inside, the writer adds nothing; after the end, never. */
  lemma WriterKeepsReader(s: State, s': State)
    requires Peterson(s.p) && WriterHolds(s) && ReaderHolds(s) && WriterStep(s, s')
    ensures ReaderHolds(s')
  {
  }

  lemma FullTest(s: State)
    requires Ring(s)
    ensures |s.taken| <= |s.written| <= |s.taken| + PIPESIZE
    ensures s.nwrite == (s.nread + PIPESIZE) % WRAP <==> |s.written| == |s.taken| + PIPESIZE
    ensures s.nread == s.nwrite <==> s.taken == s.written
  {
    Wrapped(|s.taken|, |s.written|);
  }

  lemma ReaderKeepsInv(s: State, s': State)
    requires Inv(s) && ReaderStep(s, s')
    ensures Inv(s')
  {
    hide Ring;
    ReaderKeepsPeterson(s.p, s'.p, s.writeopen, s.nread == s.nwrite);
    ReaderKeepsWriter(s, s');
    hide Peterson, WriterHolds;
    if s.p.r.RInc? {
      TakeKeeps(s, s');
    } else {
      RingSame(s, s');
      FullTest(s);
      if s.p.r.RLoad? {
        LoadFront(s);
      }
    }
  }

  lemma ReaderKeepsWriter(s: State, s': State)
    requires WriterHolds(s) && ReaderStep(s, s')
    ensures WriterHolds(s')
  {
  }

  lemma LoadFront(s: State)
    requires Ring(s) && |s.taken| < |s.written|
    ensures |s.data| == PIPESIZE && s.data[s.nread % PIPESIZE] == s.written[|s.taken|]
  {
    WrapPlace(|s.taken|);
    assert InRing(s, |s.taken|);
  }

  lemma {:induction false} RunKeepsInv(run: seq<State>, k: nat)
    requires IsRun(run) && k < |run|
    ensures Inv(run[k])
  {
    if k > 0 {
      RunKeepsInv(run, k - 1);
      assert StepAt(run, k - 1);
      if WriterStep(run[k - 1], run[k]) {
        WriterKeepsInv(run[k - 1], run[k]);
      } else {
        ReaderKeepsInv(run[k - 1], run[k]);
      }
    }
  }

  // ---- what holds in every run ----

  /** Writer and reader are never both in the critical section. */
  lemma MutualExclusion(run: seq<State>, k: nat)
    requires IsRun(run) && k < |run|
    ensures !(WriterIn(run[k].p) && ReaderIn(run[k].p))
  {
    RunKeepsInv(run, k);
  }

  /** What was dequeued is a prefix of what was enqueued, and the 32-bit difference of
      the counters is the number of bytes in between, at most PIPESIZE. */
  lemma FirstInFirstOut(run: seq<State>, k: nat)
    requires IsRun(run) && k < |run|
    ensures run[k].taken <= run[k].written && |run[k].written| - |run[k].taken| <= PIPESIZE
    ensures (run[k].nwrite + WRAP - run[k].nread) % WRAP == |run[k].written| - |run[k].taken|
  {
    RunKeepsInv(run, k);
    Wrapped(|run[k].taken|, |run[k].written|);
  }

  /** The reader sees the end of the file only once every byte has been dequeued and
      none will follow. */
  lemma {:induction false} EndOfFile(run: seq<State>, k: nat, m: nat)
    requires IsRun(run) && k <= m < |run| && run[k].p.r.REof?
    ensures run[k].taken == run[k].written && run[m].written == run[k].written && run[m].p.w.WDone?
    decreases m - k
  {
    RunKeepsInv(run, k);
    if k < m {
      LastByte(run, k, m);
    }
  }

  lemma {:induction false} LastByte(run: seq<State>, k: nat, m: nat)
    requires IsRun(run) && k <= m < |run| && run[k].p.w.WDone?
    ensures run[m].written == run[k].written && run[m].p.w.WDone?
    decreases m
  {
    if k < m {
      LastByte(run, k, m - 1);
      assert StepAt(run, m - 1);
    }
  }

  /** Steps in which the writer, or the reader, goes into the critical section. */
  ghost function WriterEntries(run: seq<State>, a: nat, b: nat): nat
    requires a <= b < |run|
    decreases b - a
  {
    if a == b then 0
    else (if !WriterIn(run[a].p) && WriterIn(run[a + 1].p) then 1 else 0) + WriterEntries(run, a + 1, b)
  }

  ghost function ReaderEntries(run: seq<State>, a: nat, b: nat): nat
    requires a <= b < |run|
    decreases b - a
  {
    if a == b then 0
    else (if !ReaderIn(run[a].p) && ReaderIn(run[a + 1].p) then 1 else 0) + ReaderEntries(run, a + 1, b)
  }

  /** While the writer waits, having written turn, the reader enters at most once. */
  lemma {:induction false} ReaderBypassesOnce(run: seq<State>, a: nat, b: nat)
    requires IsRun(run) && a <= b < |run| && forall m :: a <= m <= b ==> WriterWaits(run[m].p)
    ensures ReaderEntries(run, a, b) <= if run[a].p.turn == 1 && ReaderWaits(run[a].p) then 1 else 0
    decreases b - a
  {
    if a < b {
      RunKeepsInv(run, a);
      assert StepAt(run, a);
      ReaderBypassesOnce(run, a + 1, b);
      assert WriterWaits(run[a].p) && WriterWaits(run[a + 1].p);
    }
  }

  lemma {:induction false} WriterBypassesOnce(run: seq<State>, a: nat, b: nat)
    requires IsRun(run) && a <= b < |run| && forall m :: a <= m <= b ==> ReaderWaits(run[m].p)
    ensures WriterEntries(run, a, b) <= if run[a].p.turn == 0 && WriterWaits(run[a].p) then 1 else 0
    decreases b - a
  {
    if a < b {
      RunKeepsInv(run, a);
      assert StepAt(run, a);
      WriterBypassesOnce(run, a + 1, b);
      assert ReaderWaits(run[a].p) && ReaderWaits(run[a + 1].p);
    }
  }

  /** Steps that the writer, or the reader, takes. */
  ghost function WriterSteps(run: seq<State>, a: nat, b: nat): nat
    requires a <= b < |run|
    decreases b - a
  {
    if a == b then 0 else (if run[a].p.w != run[a + 1].p.w then 1 else 0) + WriterSteps(run, a + 1, b)
  }

  ghost function ReaderSteps(run: seq<State>, a: nat, b: nat): nat
    requires a <= b < |run|
    decreases b - a
  {
    if a == b then 0 else (if run[a].p.r != run[a + 1].p.r then 1 else 0) + ReaderSteps(run, a + 1, b)
  }

  /** When both wait and turn is 0, the writer is not stuck: it takes at most one step
      before it enters, whatever the reader does. */
  lemma {:induction false} WriterNotStuck(run: seq<State>, a: nat, b: nat)
    requires IsRun(run) && a <= b < |run| && WriterWaits(run[a].p) && ReaderWaits(run[a].p) && run[a].p.turn == 0
    requires forall m :: a <= m <= b ==> !WriterIn(run[m].p)
    ensures WriterSteps(run, a, b) <= if run[a].p.w.WLook? then 1 else 0
    decreases b - a
  {
    if a < b {
      RunKeepsInv(run, a);
      assert StepAt(run, a) && !WriterIn(run[a + 1].p);
      WriterNotStuck(run, a + 1, b);
    }
  }

  /** And when turn is 1, the reader is not. */
  lemma {:induction false} ReaderNotStuck(run: seq<State>, a: nat, b: nat)
    requires IsRun(run) && a <= b < |run| && WriterWaits(run[a].p) && ReaderWaits(run[a].p) && run[a].p.turn == 1
    requires forall m :: a <= m <= b ==> !ReaderIn(run[m].p)
    ensures ReaderSteps(run, a, b) <= if run[a].p.r.RLook? then 1 else 0
    decreases b - a
  {
    if a < b {
      RunKeepsInv(run, a);
      assert StepAt(run, a) && !ReaderIn(run[a + 1].p);
      ReaderNotStuck(run, a + 1, b);
    }
  }

  /** Alone, each gets in with at most one step more. */
  lemma {:induction false} WriterNotStuckAlone(run: seq<State>, a: nat, b: nat)
    requires IsRun(run) && a <= b < |run| && WriterWaits(run[a].p)
    requires forall m :: a <= m <= b ==> !WriterIn(run[m].p) && !run[m].p.want1
    ensures WriterSteps(run, a, b) <= if run[a].p.w.WLook? then 0 else 1
    decreases b - a
  {
    if a < b {
      RunKeepsInv(run, a);
      assert StepAt(run, a) && !WriterIn(run[a + 1].p) && !run[a].p.want1;
      WriterNotStuckAlone(run, a + 1, b);
    }
  }

  lemma {:induction false} ReaderNotStuckAlone(run: seq<State>, a: nat, b: nat)
    requires IsRun(run) && a <= b < |run| && ReaderWaits(run[a].p)
    requires forall m :: a <= m <= b ==> !ReaderIn(run[m].p) && !run[m].p.want0
    ensures ReaderSteps(run, a, b) <= if run[a].p.r.RLook? then 0 else 1
    decreases b - a
  {
    if a < b {
      RunKeepsInv(run, a);
      assert StepAt(run, a) && !ReaderIn(run[a + 1].p) && !run[a].p.want0;
      ReaderNotStuckAlone(run, a + 1, b);
    }
  }

  // ---- from the entry to the exit of a critical section ----

  /** How many steps a party still has to take until it is out again, not counting
      those it waits. */
  ghost function WriterToGo(w: WPc): nat {
    match w
    case WWant => 8
    case WTurn => 7
    case WLook => 6
    case WLook2 => 6
    case WOpen => 5
    case WFull => 4
    case WStore => 3
    case WInc => 2
    case WExit => 1
    case _ => 0
  }

  ghost function ReaderToGo(r: RPc): nat {
    match r
    case RWant => 7
    case RTurn => 6
    case RLook => 5
    case RLook2 => 5
    case REmpty => 4
    case RClosed => 3
    case RLoad => 3
    case RInc => 2
    case RExit => 1
    case REof => 1
    case _ => 0
  }

  ghost predicate WriterNearer(p: Sync, p': Sync) {
    WriterToGo(p'.w) < WriterToGo(p.w) || (WriterWaits(p) && WriterWaits(p'))
  }

  /** A writer under way can always go on, and each of its steps brings it nearer the exit
      unless it waits. */
  lemma WriterGoesOn(s: State)
    requires Inv(s) && !s.p.w.WOut? && !s.p.w.WDone?
    ensures exists s' :: WriterStep(s, s')
    ensures forall s' :: WriterStep(s, s') ==> WriterNearer(s.p, s'.p)
  {
    assert forall s' :: WriterStep(s, s') ==> WriterNearer(s.p, s'.p);
    hide WriterNearer, Peterson, WriterToGo;
    hide Ring;
    assert |s.data| == PIPESIZE by {
      SizeOf(s);
    }
    var full := s.nwrite == (s.nread + PIPESIZE) % WRAP;
    var w := match s.p.w
             case WWant => WTurn
             case WTurn => WLook
             case WLook => if s.p.want1 then WLook2 else WOpen
             case WLook2 => if s.p.turn == 1 then WLook else WOpen
             case WOpen => if s.readopen then WFull else WExit
             case WFull => if full then WExit else WStore
             case WStore => WInc
             case WInc => WExit
             case _ => WOut;
    var want0 := if s.p.w.WWant? then true else if s.p.w.WExit? then false else s.p.want0;
    var p' := s.p.(w := w, want0 := want0, turn := if s.p.w.WTurn? then 1 else s.p.turn);
    assert WriterMoves(s.p, p', s.readopen, full);
    assert WriterStep(s, WriterEffect(s, p', s.wch));
  }

  ghost predicate ReaderNearer(p: Sync, p': Sync) {
    ReaderToGo(p'.r) < ReaderToGo(p.r) || (ReaderWaits(p) && ReaderWaits(p'))
  }

  lemma ReaderGoesOn(s: State)
    requires Inv(s) && !s.p.r.ROut? && !s.p.r.RDone?
    ensures exists s' :: ReaderStep(s, s')
    ensures forall s' :: ReaderStep(s, s') ==> ReaderNearer(s.p, s'.p)
  {
    assert forall s' :: ReaderStep(s, s') ==> ReaderNearer(s.p, s'.p);
    hide ReaderNearer, Peterson, ReaderToGo;
    hide Ring;
    assert |s.data| == PIPESIZE by {
      SizeOf(s);
    }
    var r := match s.p.r
             case RWant => RTurn
             case RTurn => RLook
             case RLook => if s.p.want0 then RLook2 else REmpty
             case RLook2 => if s.p.turn == 0 then RLook else REmpty
             case REmpty => if s.nread == s.nwrite then RClosed else RLoad
             case RClosed => if s.writeopen then RExit else REof
             case RLoad => RInc
             case RInc => RExit
             case _ => ROut;
    var want1 := if s.p.r.RWant? then true else if s.p.r.RExit? || r.REof? then false else s.p.want1;
    var p' := s.p.(r := r, want1 := want1, turn := if s.p.r.RTurn? then 0 else s.p.turn);
    assert ReaderMoves(s.p, p', s.writeopen, s.nread == s.nwrite);
    assert ReaderStep(s, ReaderEffect(s, p'));
  }

  /** Outside, the writer may ask to write any byte just if the reader is open, and may
      always close; the reader may always ask to read, and close. */
  lemma MayWrite(s: State, ch: Byte)
    requires Inv(s) && s.p.w.WOut?
    ensures s.readopen <==> exists s' :: WriterStep(s, s') && s'.p.w.WWant? && s'.wch == ch
    ensures exists s' :: WriterStep(s, s') && s'.p.w.WDone?
  {
    var full := s.nwrite == (s.nread + PIPESIZE) % WRAP;
    assert WriterMoves(s.p, s.p.(w := WDone), s.readopen, full);
    assert WriterStep(s, WriterEffect(s, s.p.(w := WDone), ch));
    if s.readopen {
      assert WriterMoves(s.p, s.p.(w := WWant), s.readopen, full);
      assert WriterStep(s, WriterEffect(s, s.p.(w := WWant), ch));
    }
  }

  lemma MayRead(s: State)
    requires Inv(s) && s.p.r.ROut?
    ensures exists s' :: ReaderStep(s, s') && s'.p.r.RWant?
    ensures exists s' :: ReaderStep(s, s') && s'.p.r.RDone?
  {
    assert ReaderMoves(s.p, s.p.(r := RDone), s.writeopen, s.nread == s.nwrite);
    assert ReaderStep(s, ReaderEffect(s, s.p.(r := RDone)));
    assert ReaderMoves(s.p, s.p.(r := RWant), s.writeopen, s.nread == s.nwrite);
    assert ReaderStep(s, ReaderEffect(s, s.p.(r := RWant)));
  }

  lemma SizeOf(s: State)
    requires Ring(s)
    ensures |s.data| == PIPESIZE
  {
  }

  lemma ClosedWhenDone(s: State)
    requires Inv(s)
    ensures s.writeopen <==> !s.p.w.WDone?
    ensures |s.taken| <= |s.written| && (s.taken != s.written ==> |s.taken| < |s.written|)
  {
  }

  /** The reader went in at u and is inside at s. */
  ghost predicate InsideReader(u: State, s: State) {
    && s.written == u.written && (s.writeopen ==> u.writeopen)
    && match s.p.r
       case RClosed => s.taken == u.taken == u.written
       case RExit => if u.taken == u.written then s.taken == u.taken && u.writeopen
                     else |u.taken| < |u.written| && s.taken == u.taken + [u.written[|u.taken|]]
       case RLoad => s.taken == u.taken && |u.taken| < |u.written|
       case RInc => s.taken == u.taken && |u.taken| < |u.written|
       case _ => s.taken == u.taken
  }

  lemma ReaderOneStep(u: State, s: State, s': State)
    requires Inv(s) && ReaderIn(s.p) && ReaderIn(s'.p) && InsideReader(u, s) && Next(s, s')
    ensures InsideReader(u, s')
  {
    FullTest(s);
    ClosedWhenDone(s);
    hide Ring;
  }

  lemma {:induction false} ReaderInside(run: seq<State>, e: nat, m: nat)
    requires IsRun(run) && e + 1 <= m < |run| && !ReaderIn(run[e].p)
    requires forall x :: e < x <= m ==> ReaderIn(run[x].p)
    ensures InsideReader(run[e + 1], run[m])
    decreases m
  {
    hide Inv;
    if m == e + 1 {
      assert StepAt(run, e);
    } else {
      ReaderInside(run, e, m - 1);
      RunKeepsInv(run, m - 1);
      assert StepAt(run, m - 1) && ReaderIn(run[m - 1].p);
      ReaderOneStep(run[e + 1], run[m - 1], run[m]);
    }
  }

  lemma ReaderLastStep(u: State, s: State, s': State)
    requires Inv(s) && ReaderIn(s.p) && !ReaderIn(s'.p) && InsideReader(u, s) && Next(s, s')
    ensures s'.written == u.written
    ensures if u.taken != u.written then |u.taken| < |u.written| && s'.taken == u.taken + [u.written[|u.taken|]]
            else s'.taken == u.taken
    ensures s'.p.r.REof? ==> u.taken == u.written && !s'.writeopen
    ensures s'.p.r.REof? || (s'.p.r.ROut? && (u.taken != u.written || u.writeopen))
  {
    hide Ring;
  }

  /** A pass of the reader, in at step e and out at step f.  With bytes in the ring it takes
      exactly one, the oldest.  With none it takes none, and if the writer is done it
      leaves at the end of the file. */
  lemma ReaderPass(run: seq<State>, e: nat, f: nat)
    requires IsRun(run) && e < f && f + 1 < |run| && !ReaderIn(run[e].p) && !ReaderIn(run[f + 1].p)
    requires forall x :: e < x <= f ==> ReaderIn(run[x].p)
    ensures var u, v := run[e + 1], run[f + 1];
            && v.written == u.written
            && (|u.taken| < |u.written| ==>
                v.taken == u.taken + [u.written[|u.taken|]] && v.p.r.ROut?)
            && (u.taken == u.written ==> v.taken == u.taken)
            && (u.taken == u.written && u.p.w.WDone? ==> v.p.r.REof?)
  {
    hide Inv;
    ReaderInside(run, e, f);
    RunKeepsInv(run, e + 1);
    RunKeepsInv(run, f);
    assert StepAt(run, f) && ReaderIn(run[f].p);
    ReaderLastStep(run[e + 1], run[f], run[f + 1]);
    ClosedWhenDone(run[e + 1]);
  }

  /** The writer went in at u and is inside at s. */
  ghost predicate InsideWriter(u: State, s: State) {
    && s.taken == u.taken && s.wch == u.wch && (s.readopen ==> u.readopen)
    && match s.p.w
       case WFull => s.written == u.written && u.readopen
       case WStore => s.written == u.written && u.readopen && |u.written| < |u.taken| + PIPESIZE
       case WInc => s.written == u.written && u.readopen && |u.written| < |u.taken| + PIPESIZE
       case WExit => || (s.written == u.written + [u.wch] && u.readopen && |u.written| < |u.taken| + PIPESIZE)
                     || (s.written == u.written && (!s.readopen || |u.written| >= |u.taken| + PIPESIZE))
       case _ => s.written == u.written
  }

  lemma WriterOneStep(u: State, s: State, s': State)
    requires Inv(s) && WriterIn(s.p) && WriterIn(s'.p) && InsideWriter(u, s) && Next(s, s')
    ensures InsideWriter(u, s')
  {
    hide Ring;
    FullTest(s);
  }

  lemma {:induction false} WriterInside(run: seq<State>, e: nat, m: nat)
    requires IsRun(run) && e + 1 <= m < |run| && !WriterIn(run[e].p)
    requires forall x :: e < x <= m ==> WriterIn(run[x].p)
    ensures InsideWriter(run[e + 1], run[m])
    decreases m
  {
    hide Inv;
    if m == e + 1 {
      assert StepAt(run, e);
    } else {
      WriterInside(run, e, m - 1);
      RunKeepsInv(run, m - 1);
      assert StepAt(run, m - 1) && WriterIn(run[m - 1].p);
      WriterOneStep(run[e + 1], run[m - 1], run[m]);
    }
  }

  lemma WriterLastStep(u: State, s: State, s': State)
    requires Inv(s) && WriterIn(s.p) && !WriterIn(s'.p) && InsideWriter(u, s) && Next(s, s')
    ensures s.p.w.WExit? && s'.p.w.WOut? && s'.written == s.written && s'.taken == s.taken && s'.readopen == s.readopen
  {
    hide Ring;
  }

  /** A pass of the writer, in at step e and out at step f.  With room in the ring and the
      reader open throughout it appends exactly its byte; with the ring full, or the reader
      closed when it enters, nothing. */
  lemma WriterPass(run: seq<State>, e: nat, f: nat)
    requires IsRun(run) && e < f && f + 1 < |run| && !WriterIn(run[e].p) && !WriterIn(run[f + 1].p)
    requires forall x :: e < x <= f ==> WriterIn(run[x].p)
    ensures var u, v := run[e + 1], run[f + 1];
            && v.taken == u.taken && v.p.w.WOut? && (v.written == u.written || v.written == u.written + [u.wch])
            && (|u.written| - |u.taken| < PIPESIZE && v.readopen ==> v.written == u.written + [u.wch])
            && (|u.written| - |u.taken| >= PIPESIZE || !u.readopen ==> v.written == u.written)
  {
    hide Inv;
    WriterInside(run, e, f);
    RunKeepsInv(run, f);
    assert StepAt(run, f) && WriterIn(run[f].p);
    WriterLastStep(run[e + 1], run[f], run[f + 1]);
  }

  /** The writer found the pipe open and room in the ring. */
  ghost predicate Found(u: State, s: State) {
    && s.wch == u.wch && s.taken == u.taken && |u.written| < |u.taken| + PIPESIZE
    && match s.p.w
       case WExit => s.written == u.written + [u.wch]
       case WOpen => false
       case _ => s.written == u.written
  }

  lemma FoundStep(u: State, s: State, s': State)
    requires Inv(s) && WriterIn(s.p) && WriterIn(s'.p) && Found(u, s) && Next(s, s')
    ensures Found(u, s')
  {
    hide Ring;
    FullTest(s);
  }

  lemma {:induction false} FoundInside(run: seq<State>, x: nat, m: nat)
    requires IsRun(run) && x <= m < |run| && run[x].p.w.WFull? && |run[x].written| < |run[x].taken| + PIPESIZE
    requires forall y :: x <= y <= m ==> WriterIn(run[y].p)
    ensures Found(run[x], run[m])
    decreases m
  {
    hide Inv;
    if x < m {
      FoundInside(run, x, m - 1);
      RunKeepsInv(run, m - 1);
      assert StepAt(run, m - 1) && WriterIn(run[m - 1].p);
      FoundStep(run[x], run[m - 1], run[m]);
    }
  }

  /** A writer that at x has found the pipe open, with fewer than PIPESIZE bytes in the ring,
      leaves at f with exactly its byte appended, also if the reader closes meanwhile. */
  lemma FoundOpenWrites(run: seq<State>, x: nat, f: nat)
    requires IsRun(run) && x <= f && f + 1 < |run| && run[x].p.w.WFull? && !WriterIn(run[f + 1].p)
    requires |run[x].written| - |run[x].taken| < PIPESIZE
    requires forall y :: x <= y <= f ==> WriterIn(run[y].p)
    ensures run[f + 1].written == run[x].written + [run[x].wch] && run[f + 1].taken == run[x].taken
  {
    hide Inv;
    FoundInside(run, x, f);
    RunKeepsInv(run, f);
    assert StepAt(run, f) && WriterIn(run[f].p);
    FoundLast(run[x], run[f], run[f + 1]);
  }

  lemma FoundLast(u: State, s: State, s': State)
    requires Inv(s) && WriterIn(s.p) && !WriterIn(s'.p) && Found(u, s) && Next(s, s')
    ensures s'.written == u.written + [u.wch] && s'.taken == u.taken
  {
    hide Ring;
  }
}
