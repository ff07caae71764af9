/** The two reader-writer locks and the reader and writer threads that use them.
    The two programs differ only in the `fair_lock` lines, so one transition
    system carries both: `fair` says which of the two it is. Every shared access
    that is not a semaphore operation is split into a load and a store. */
module ReaderWriter {
  import opened Common
  import opened Sums

  // The line a thread is about to execute.
  datatype Pc =
    // rwlock_acquire_readlock
    | RFair | RLock | RIncLoad | RIncStore | RFirst | RWaitWrite | RUnlock | RUnfair
    // the read itself
    | Reading
    // rwlock_release_readlock
    | RRelock | RDecLoad | RDecStore | RLast | RPostWrite | RRelUnlock
    // rwlock_acquire_writelock, value++, rwlock_release_writelock
    | WFair | WWait | WLoad | WStore | WPost | WUnfair
    | Done

  // `i` is the loop counter of the thread, `reg` the value it loaded last.
  datatype Thread = Thread(pc: Pc, writer: bool, i: nat, reg: int)

  // What the threads share.
  datatype Shared = Shared(fairLock: nat, readLock: nat, writeLock: nat, readers: int, value: int)

  // Which of the two programs runs, and its loop bound.
  datatype Program = Program(fair: bool, loops: nat)

  datatype State = State(p: Program, sh: Shared, threads: seq<Thread>)

  function StartPc(p: Program, writer: bool): Pc {
    if writer then (if p.fair then WFair else WWait) else (if p.fair then RFair else RLock)
  }

  // The end of one loop body: `i++` and the loop test.
  function NextIteration(p: Program, th: Thread): Thread {
    th.(i := th.i + 1, pc := if th.i + 1 < p.loops then StartPc(p, th.writer) else Done)
  }

  predicate Ready(sh: Shared, th: Thread) {
    match th.pc
    case RFair | WFair => sh.fairLock > 0
    case RLock | RRelock => sh.readLock > 0
    case RWaitWrite | WWait => sh.writeLock > 0
    case Done => false
    case _ => true
  }

  // What the executed line does to the thread ...
  function Advance(p: Program, sh: Shared, th: Thread): Thread {
    match th.pc
    case RFair => th.(pc := RLock)
    case RLock => th.(pc := RIncLoad)
    case RIncLoad => th.(pc := RIncStore, reg := sh.readers)
    case RIncStore => th.(pc := RFirst, reg := th.reg + 1)
    case RFirst => th.(pc := if sh.readers == 1 then RWaitWrite else RUnlock)
    case RWaitWrite => th.(pc := RUnlock)
    case RUnlock => th.(pc := if p.fair then RUnfair else Reading)
    case RUnfair => th.(pc := Reading)
    case Reading => th.(pc := RRelock, reg := sh.value)
    case RRelock => th.(pc := RDecLoad)
    case RDecLoad => th.(pc := RDecStore, reg := sh.readers)
    case RDecStore => th.(pc := RLast, reg := th.reg - 1)
    case RLast => th.(pc := if sh.readers == 0 then RPostWrite else RRelUnlock)
    case RPostWrite => th.(pc := RRelUnlock)
    case RRelUnlock => NextIteration(p, th)
    case WFair => th.(pc := WWait)
    case WWait => th.(pc := WLoad)
    case WLoad => th.(pc := WStore, reg := sh.value)
    case WStore => th.(pc := WPost)
    case WPost => if p.fair then th.(pc := WUnfair) else NextIteration(p, th)
    case WUnfair => NextIteration(p, th)
    case Done => th
  }

  // ... and what it does to the shared variables.
  function Effect(sh: Shared, th: Thread): Shared
    requires Ready(sh, th)
  {
    match th.pc
    case RFair | WFair => sh.(fairLock := sh.fairLock - 1)
    case RUnfair | WUnfair => sh.(fairLock := sh.fairLock + 1)
    case RLock | RRelock => sh.(readLock := sh.readLock - 1)
    case RUnlock | RRelUnlock => sh.(readLock := sh.readLock + 1)
    case RWaitWrite | WWait => sh.(writeLock := sh.writeLock - 1)
    case RPostWrite | WPost => sh.(writeLock := sh.writeLock + 1)
    case RIncStore => sh.(readers := th.reg + 1)
    case RDecStore => sh.(readers := th.reg - 1)
    case WStore => sh.(value := th.reg + 1)
    case _ => sh
  }

  predicate Enabled(s: State, t: nat) {
    t < |s.threads| && Ready(s.sh, s.threads[t])
  }

  // The run cannot be extended.
  ghost predicate Stuck(s: State) { forall t :: !Enabled(s, t) }

  function Step(s: State, t: nat): State
    requires Enabled(s, t)
  {
    var th := s.threads[t];
    s.(sh := Effect(s.sh, th), threads := s.threads[t := Advance(s.p, s.sh, th)])
  }

  /** `s'` is reached from `s` when the scheduler picks the threads in `schedule`. */
  predicate Run(s: State, schedule: seq<nat>, s': State)
    decreases |schedule|
  {
    if schedule == [] then s' == s
    else Enabled(s, schedule[0]) && Run(Step(s, schedule[0]), schedule[1..], s')
  }

  lemma {:induction false} RunExtend(s: State, schedule: seq<nat>, mid: State, t: nat)
    requires Run(s, schedule, mid) && Enabled(mid, t)
    ensures Run(s, schedule + [t], Step(mid, t))
    decreases |schedule|
  {
    if schedule == [] {
      assert ([] + [t])[1..] == [];
      assert Run(Step(mid, t), [], Step(mid, t));
    } else {
      assert (schedule + [t])[1..] == schedule[1..] + [t];
      RunExtend(Step(s, schedule[0]), schedule[1..], mid, t);
    }
  }

  function Init(p: Program, numReaders: nat, numWriters: nat): State {
    State(p, Shared(1, 1, 1, 0, 0), seq(numReaders, _ => Fresh(p, false)) + seq(numWriters, _ => Fresh(p, true)))
  }

  function Fresh(p: Program, writer: bool): Thread {
    Thread(if 0 < p.loops then StartPc(p, writer) else Done, writer, 0, 0)
  }

  // ------------------------------------------------------------------ who holds what

  function HoldsFair(th: Thread): nat {
    match th.pc
    case RLock | RIncLoad | RIncStore | RFirst | RWaitWrite | RUnlock | RUnfair => 1
    case WWait | WLoad | WStore | WPost | WUnfair => 1
    case _ => 0
  }

  function HoldsRead(th: Thread): nat {
    match th.pc
    case RIncLoad | RIncStore | RFirst | RWaitWrite | RUnlock => 1
    case RDecLoad | RDecStore | RLast | RPostWrite | RRelUnlock => 1
    case _ => 0
  }

  // The readers that the shared counter counts.
  function Counted(th: Thread): nat {
    match th.pc
    case RFirst | RWaitWrite | RUnlock | RUnfair | Reading | RRelock | RDecLoad | RDecStore => 1
    case _ => 0
  }

  // The first reader of a group, before it owns `writelock`.
  function Awaiting(th: Thread): nat { Bit((th.pc == RFirst && th.reg == 1) || th.pc == RWaitWrite) }

  // The last reader of a group, before it gives `writelock` back.
  function Releasing(th: Thread): nat { Bit((th.pc == RLast && th.reg == 0) || th.pc == RPostWrite) }

  function HoldsWrite(th: Thread): nat {
    match th.pc
    case WLoad | WStore | WPost => 1
    case _ => 0
  }

  // How often a thread has incremented `value`.
  function Written(th: Thread): nat {
    if th.writer then th.i + Bit(th.pc == WPost || th.pc == WUnfair) else 0
  }

  // The numbers of threads of each kind.
  datatype Counts = Counts(fair: nat, read: nat, counted: nat, awaiting: nat, releasing: nat, write: nat, written: nat)

  function CountsOf(ts: seq<Thread>): Counts {
    Counts(Total(HoldsFair, ts), Total(HoldsRead, ts), Total(Counted, ts), Total(Awaiting, ts),
           Total(Releasing, ts), Total(HoldsWrite, ts), Total(Written, ts))
  }

  // The readers own `writelock` together, whoever of them took it.
  function GroupHolds(sh: Shared, c: Counts): nat { Bit(sh.readers > 0 && c.awaiting == 0) }

  predicate ThreadOk(p: Program, sh: Shared, th: Thread) {
    && (if th.pc == Done then th.i == p.loops else th.i < p.loops)
    && match th.pc
       case RFair | RUnfair => !th.writer && p.fair
       case WFair | WUnfair => th.writer && p.fair
       case RIncStore | RFirst | RDecStore | RLast => !th.writer && th.reg == sh.readers
       case RWaitWrite => !th.writer && sh.readers == 1
       case RPostWrite => !th.writer && sh.readers == 0
       case WStore => th.writer && th.reg == sh.value
       case WWait | WLoad | WPost => th.writer
       case Done => true
       case _ => !th.writer
  }

  predicate CountsOk(p: Program, sh: Shared, c: Counts) {
    && sh.fairLock + (if p.fair then c.fair else 0) == 1
    && sh.readLock + c.read == 1
    && sh.readers == c.counted
    && sh.writeLock + c.write + c.releasing + GroupHolds(sh, c) == 1
    && sh.value == c.written
  }

  predicate Inv(s: State) {
    && (forall t :: 0 <= t < |s.threads| ==> ThreadOk(s.p, s.sh, s.threads[t]))
    && CountsOk(s.p, s.sh, CountsOf(s.threads))
  }

  // ------------------------------------------------------------------ the invariant

  lemma InitThreads(p: Program, numReaders: nat, numWriters: nat)
    ensures Roles(Init(p, numReaders, numWriters), numReaders, numWriters)
    ensures AllFresh(p, Init(p, numReaders, numWriters).threads)
  {
    var ts := Init(p, numReaders, numWriters).threads;
    forall t | 0 <= t < |ts|
      ensures ts[t] == Fresh(p, t >= numReaders)
    {
    }
  }

  predicate AllFresh(p: Program, ts: seq<Thread>) {
    forall t :: 0 <= t < |ts| ==> ts[t] == Fresh(p, ts[t].writer)
  }

  // The readers come first, then the writers.
  predicate Roles(s: State, numReaders: nat, numWriters: nat) {
    && |s.threads| == numReaders + numWriters
    && forall t :: 0 <= t < |s.threads| ==> s.threads[t].writer == (t >= numReaders)
  }

  lemma FreshCounts(p: Program, ts: seq<Thread>)
    requires AllFresh(p, ts)
    ensures var c := CountsOf(ts); c.read == c.counted == c.releasing == c.write == c.written == 0
    ensures p.fair ==> CountsOf(ts).fair == 0
  {
    if p.fair { TotalZero(HoldsFair, ts); }
    TotalZero(HoldsRead, ts);
    TotalZero(Counted, ts);
    TotalZero(HoldsWrite, ts);
    TotalZero(Releasing, ts);
    TotalZero(Written, ts);
  }

  lemma InitInv(p: Program, numReaders: nat, numWriters: nat)
    ensures Inv(Init(p, numReaders, numWriters))
  {
    InitThreads(p, numReaders, numWriters);
    FreshCounts(p, Init(p, numReaders, numWriters).threads);
  }

  // `c'` is `c` with the contribution of one thread replaced.
  predicate Replaced(c: Counts, before: Thread, after: Thread, c': Counts) {
    && c'.fair + HoldsFair(before) == c.fair + HoldsFair(after)
    && c'.read + HoldsRead(before) == c.read + HoldsRead(after)
    && c'.counted + Counted(before) == c.counted + Counted(after)
    && c'.awaiting + Awaiting(before) == c.awaiting + Awaiting(after)
    && c'.releasing + Releasing(before) == c.releasing + Releasing(after)
    && c'.write + HoldsWrite(before) == c.write + HoldsWrite(after)
    && c'.written + Written(before) == c.written + Written(after)
  }

  lemma CountsAfter(ts: seq<Thread>, t: nat, th: Thread)
    requires t < |ts|
    ensures Replaced(CountsOf(ts), ts[t], th, CountsOf(ts[t := th]))
  {
    TotalUpdate(HoldsFair, ts, t, th);
    TotalUpdate(HoldsRead, ts, t, th);
    TotalUpdate(Counted, ts, t, th);
    TotalUpdate(Awaiting, ts, t, th);
    TotalUpdate(Releasing, ts, t, th);
    TotalUpdate(HoldsWrite, ts, t, th);
    TotalUpdate(Written, ts, t, th);
  }

  // The counts include the thread's own share; the first and the last reader of a
  // group are inside the `readlock` section.
  predicate Contains(c: Counts, th: Thread) {
    && HoldsFair(th) <= c.fair && HoldsRead(th) <= c.read && Counted(th) <= c.counted
    && HoldsWrite(th) <= c.write
    && Awaiting(th) <= c.awaiting <= c.read - HoldsRead(th) + Awaiting(th)
    && Releasing(th) <= c.releasing <= c.read - HoldsRead(th) + Releasing(th)
  }

  lemma WriterCounts(p: Program, sh: Shared, th: Thread, c: Counts, c': Counts)
    requires th.writer && Ready(sh, th) && ThreadOk(p, sh, th)
    requires CountsOk(p, sh, c) && Contains(c, th)
    requires Replaced(c, th, Advance(p, sh, th), c')
    ensures CountsOk(p, Effect(sh, th), c')
  {
  }

  // Has the reader not yet got through rwlock_acquire_readlock?
  predicate Acquiring(th: Thread) {
    match th.pc
    case RFair | RLock | RIncLoad | RIncStore | RFirst | RWaitWrite | RUnlock | RUnfair => true
    case _ => false
  }

  lemma AcquireCounts(p: Program, sh: Shared, th: Thread, c: Counts, c': Counts)
    requires Acquiring(th) && Ready(sh, th) && ThreadOk(p, sh, th)
    requires CountsOk(p, sh, c) && Contains(c, th)
    requires Replaced(c, th, Advance(p, sh, th), c')
    ensures CountsOk(p, Effect(sh, th), c')
  {
  }

  lemma ReleaseCounts(p: Program, sh: Shared, th: Thread, c: Counts, c': Counts)
    requires !th.writer && !Acquiring(th) && Ready(sh, th) && ThreadOk(p, sh, th)
    requires CountsOk(p, sh, c) && Contains(c, th)
    requires Replaced(c, th, Advance(p, sh, th), c')
    ensures CountsOk(p, Effect(sh, th), c')
  {
  }

  lemma LocalCounts(p: Program, sh: Shared, th: Thread, c: Counts, c': Counts)
    requires Ready(sh, th) && ThreadOk(p, sh, th)
    requires CountsOk(p, sh, c) && Contains(c, th)
    requires Replaced(c, th, Advance(p, sh, th), c')
    ensures CountsOk(p, Effect(sh, th), c')
  {
    if th.writer {
      WriterCounts(p, sh, th, c, c');
    } else if Acquiring(th) {
      AcquireCounts(p, sh, th, c, c');
    } else {
      ReleaseCounts(p, sh, th, c, c');
    }
  }

  lemma LocalSelf(p: Program, sh: Shared, th: Thread)
    requires Ready(sh, th) && ThreadOk(p, sh, th)
    ensures ThreadOk(p, Effect(sh, th), Advance(p, sh, th))
  {
  }

  // Two threads never hold the same lock, so a step does not disturb what another thread remembers.
  lemma LocalOther(p: Program, sh: Shared, th: Thread, other: Thread)
    requires Ready(sh, th) && ThreadOk(p, sh, th) && ThreadOk(p, sh, other)
    requires HoldsRead(th) + HoldsRead(other) <= 1
    requires HoldsWrite(th) + HoldsWrite(other) <= 1
    ensures ThreadOk(p, Effect(sh, th), other)
  {
  }

  lemma ContainsThread(s: State, t: nat)
    requires t < |s.threads|
    ensures Contains(CountsOf(s.threads), s.threads[t])
  {
    TotalAtLeast(HoldsFair, s.threads, t);
    TotalAtLeast(HoldsRead, s.threads, t);
    TotalAtLeast(Counted, s.threads, t);
    TotalAtLeast(HoldsWrite, s.threads, t);
    TotalAtLeast(Awaiting, s.threads, t);
    TotalAtLeast(Releasing, s.threads, t);
    SlackAt(Awaiting, HoldsRead, s.threads, t);
    SlackAt(Releasing, HoldsRead, s.threads, t);
  }

  /** Every step of every thread keeps the invariant. */
  lemma StepInv(s: State, t: nat)
    requires Inv(s) && Enabled(s, t)
    ensures Inv(Step(s, t))
  {
    var s' := Step(s, t);
    ContainsThread(s, t);
    CountsAfter(s.threads, t, s'.threads[t]);
    LocalCounts(s.p, s.sh, s.threads[t], CountsOf(s.threads), CountsOf(s'.threads));
    LocalSelf(s.p, s.sh, s.threads[t]);
    forall u | 0 <= u < |s'.threads| && u != t
      ensures ThreadOk(s'.p, s'.sh, s'.threads[u])
    {
      TwoTerms(HoldsRead, s.threads, t, u);
      TwoTerms(HoldsWrite, s.threads, t, u);
      LocalOther(s.p, s.sh, s.threads[t], s.threads[u]);
    }
  }

  // ------------------------------------------------------------------ refinement

  /** What either lock is for: a set of readers inside or one writer inside. */
  datatype Lock = Lock(readers: set<nat>, writers: set<nat>)

  // A reader is inside from the step that completes acquisition to the decrement of the counter.
  predicate ReadsInside(th: Thread) {
    match th.pc
    case RUnlock | RUnfair | Reading | RRelock | RDecLoad | RDecStore => true
    case _ => false
  }

  function Abs(s: State): Lock {
    Lock(set t | 0 <= t < |s.threads| && ReadsInside(s.threads[t]),
         set t | 0 <= t < |s.threads| && HoldsWrite(s.threads[t]) == 1)
  }

  // The step by which a reader gets in.
  predicate EntersRead(s: State, t: nat) {
    && Enabled(s, t)
    && (s.threads[t].pc == RWaitWrite || (s.threads[t].pc == RFirst && s.sh.readers != 1))
  }

  ghost predicate LockStep(a: Lock, line: Pc, entersRead: bool, t: nat, b: Lock) {
    if entersRead then a.writers == {} && t !in a.readers && b == Lock(a.readers + {t}, {})
    else if line == RDecStore then t in a.readers && b == Lock(a.readers - {t}, a.writers)
    else if line == WWait then a == Lock({}, {}) && b == Lock({}, {t})
    else if line == WPost then a.writers == {t} && b == Lock(a.readers, {})
    else b == a
  }

  // A reader inside is counted, and the group of counted readers owns `writelock`.
  lemma InsideExcludesWriter(s: State, t: nat, w: nat)
    requires Inv(s) && t < |s.threads| && w < |s.threads|
    requires HoldsWrite(s.threads[w]) == 1
    ensures !ReadsInside(s.threads[t]) && s.sh.writeLock == 0
    ensures !EntersRead(s, t)
    ensures HoldsWrite(s.threads[t]) == 1 ==> t == w
  {
    var ts := s.threads;
    assert ThreadOk(s.p, s.sh, ts[t]);
    ContainsThread(s, t);
    ContainsThread(s, w);
    if t != w {
      TwoTerms(HoldsWrite, ts, t, w);
    }
    if ReadsInside(ts[t]) {
      if Total(Awaiting, ts) > 0 {
        var a := PositiveTerm(Awaiting, ts);
        assert ThreadOk(s.p, s.sh, ts[a]);
        TwoTerms(Counted, ts, a, t);
      }
    }
  }

  lemma OnlyWriter(s: State, w: nat)
    requires Inv(s) && w in Abs(s).writers
    ensures Abs(s) == Lock({}, {w})
  {
    forall t | 0 <= t < |s.threads|
      ensures !ReadsInside(s.threads[t]) && (HoldsWrite(s.threads[t]) == 1 ==> t == w)
    {
      InsideExcludesWriter(s, t, w);
    }
    assert Abs(s).readers == {} && Abs(s).writers == {w};
  }

  /** Mutual exclusion: at most one writer inside, and never a writer beside a reader. */
  lemma MutualExclusion(s: State)
    requires Inv(s)
    ensures |Abs(s).writers| <= 1
    ensures Abs(s).writers != {} ==> Abs(s).readers == {}
  {
    if w :| w in Abs(s).writers {
      OnlyWriter(s, w);
    } else {
      assert Abs(s).writers == {};
    }
  }

  lemma LocalInside(p: Program, sh: Shared, th: Thread)
    requires Ready(sh, th) && ThreadOk(p, sh, th)
    ensures ReadsInside(Advance(p, sh, th)) <==>
      (th.pc == RWaitWrite || (th.pc == RFirst && sh.readers != 1) || (ReadsInside(th) && th.pc != RDecStore))
    ensures HoldsWrite(Advance(p, sh, th)) == 1 <==> (th.pc == WWait || (HoldsWrite(th) == 1 && th.pc != WPost))
  {
  }

  /** Each step of either program is one step of the abstract lock or none. */
  lemma Refines(s: State, t: nat)
    requires Inv(s) && Enabled(s, t)
    ensures LockStep(Abs(s), s.threads[t].pc, EntersRead(s, t), t, Abs(Step(s, t)))
  {
    var a, b, th := Abs(s), Abs(Step(s, t)), s.threads[t];
    LocalInside(s.p, s.sh, th);
    assert b.readers == if EntersRead(s, t) then a.readers + {t}
                        else if th.pc == RDecStore then a.readers - {t} else a.readers;
    assert b.writers == if th.pc == WWait then a.writers + {t}
                        else if th.pc == WPost then a.writers - {t} else a.writers;
    if th.pc == WWait {
      WriteLockFree(s);
    }
    if w :| w in a.writers {
      InsideExcludesWriter(s, t, w);
      OnlyWriter(s, w);
    }
  }

  lemma WriteLockFree(s: State)
    requires Inv(s) && s.sh.writeLock > 0
    ensures Abs(s) == Lock({}, {})
  {
    var ts := s.threads;
    forall t | 0 <= t < |ts|
      ensures !ReadsInside(ts[t]) && HoldsWrite(ts[t]) == 0
    {
      ContainsThread(s, t);
      if ReadsInside(ts[t]) {
        var a := PositiveTerm(Awaiting, ts);
        assert ThreadOk(s.p, s.sh, ts[a]);
        TwoTerms(Counted, ts, a, t);
      }
    }
  }

  /** What a reader reads is the number of increments that have been completed, and no
      writer is in the middle of one. */
  lemma ReadsValue(s: State, t: nat)
    requires Inv(s) && Enabled(s, t) && s.threads[t].pc == Reading
    ensures Step(s, t).threads[t].reg == s.sh.value == Total(Written, s.threads)
    ensures Abs(s).writers == {}
  {
    forall w | 0 <= w < |s.threads|
      ensures HoldsWrite(s.threads[w]) == 0
    {
      if HoldsWrite(s.threads[w]) == 1 { InsideExcludesWriter(s, t, w); }
    }
    assert Abs(s).writers == {};
  }

  // ------------------------------------------------------------------ total correctness

  // Who can move when `writelock` is taken and nobody is inside the `readlock` section.
  lemma WriteHolderMoves(s: State) returns (t: nat)
    requires Inv(s) && s.sh.writeLock == 0 && s.sh.readLock == 1
    ensures Enabled(s, t)
    ensures s.threads[t].pc == RUnfair || HoldsFair(s.threads[t]) == 0 || HoldsWrite(s.threads[t]) == 1
    ensures s.threads[t].pc != RFair && s.threads[t].pc != WFair
  {
    TotalMonotone(Awaiting, HoldsRead, s.threads);
    TotalMonotone(Releasing, HoldsRead, s.threads);
    if Total(HoldsWrite, s.threads) > 0 {
      t := PositiveTerm(HoldsWrite, s.threads);
    } else {
      t := PositiveTerm(Counted, s.threads);
      TotalAtLeast(HoldsRead, s.threads, t);
    }
  }

  /** No reachable state is stuck before every thread has finished. */
  lemma Progress(s: State, unfinished: nat) returns (t: nat)
    requires Inv(s) && unfinished < |s.threads| && s.threads[unfinished].pc != Done
    ensures Enabled(s, t)
    ensures t == unfinished || (s.threads[t].pc != RFair && s.threads[t].pc != WFair)
  {
    t := unfinished;
    assert ThreadOk(s.p, s.sh, s.threads[t]);
    if s.sh.readLock == 0 {
      t := PositiveTerm(HoldsRead, s.threads);
      if !Enabled(s, t) {
        ContainsThread(s, t);
        t := PositiveTerm(HoldsWrite, s.threads);
      }
    } else {
      if s.p.fair && s.sh.fairLock == 0 {
        t := PositiveTerm(HoldsFair, s.threads);
      }
      ContainsThread(s, t);
      if !Enabled(s, t) {
        t := WriteHolderMoves(s);
      }
    }
  }

  // The number of steps left in the current iteration, at most.
  function Rank(pc: Pc): nat {
    match pc
    case RFair => 15 case RLock => 14 case RIncLoad => 13 case RIncStore => 12 case RFirst => 11
    case RWaitWrite => 10 case RUnlock => 9 case RUnfair => 8 case Reading => 7 case RRelock => 6
    case RDecLoad => 5 case RDecStore => 4 case RLast => 3 case RPostWrite => 2 case RRelUnlock => 1
    case WFair => 6 case WWait => 5 case WLoad => 4 case WStore => 3 case WPost => 2 case WUnfair => 1
    case Done => 0
  }

  function Remaining(loops: nat): Thread -> nat {
    (th: Thread) => if th.i < loops then 15 * (loops - th.i - 1) + Rank(th.pc) else 0
  }

  function Work(s: State): nat { Total(Remaining(s.p.loops), s.threads) }

  lemma LocalWork(p: Program, sh: Shared, th: Thread)
    requires Ready(sh, th) && ThreadOk(p, sh, th)
    ensures Remaining(p.loops)(Advance(p, sh, th)) < Remaining(p.loops)(th)
    ensures Advance(p, sh, th).writer == th.writer
  {
  }

  lemma StepWork(s: State, t: nat)
    requires Inv(s) && Enabled(s, t)
    ensures Work(Step(s, t)) < Work(s)
    ensures Step(s, t).p == s.p && |Step(s, t).threads| == |s.threads|
    ensures Step(s, t).threads[t].writer == s.threads[t].writer
  {
    var th' := Advance(s.p, s.sh, s.threads[t]);
    LocalWork(s.p, s.sh, s.threads[t]);
    TotalUpdate(Remaining(s.p.loops), s.threads, t, th');
  }

  lemma {:induction false} RunWork(s: State, schedule: seq<nat>, s': State, numReaders: nat, numWriters: nat)
    requires Inv(s) && Run(s, schedule, s') && Roles(s, numReaders, numWriters)
    ensures Inv(s') && s'.p == s.p && Roles(s', numReaders, numWriters)
    ensures |schedule| + Work(s') <= Work(s)
    decreases |schedule|
  {
    if schedule != [] {
      StepWork(s, schedule[0]);
      StepInv(s, schedule[0]);
      RunWork(Step(s, schedule[0]), schedule[1..], s', numReaders, numWriters);
    }
  }

  lemma WrittenAtEnd(ts: seq<Thread>, loops: nat, numReaders: nat, numWriters: nat)
    requires |ts| == numReaders + numWriters
    requires forall t :: 0 <= t < |ts| ==> ts[t].pc == Done && ts[t].i == loops && ts[t].writer == (t >= numReaders)
    ensures Total(Written, ts) == loops * numWriters
  {
    assert ts == ts[..numReaders] + ts[numReaders..];
    TotalConcat(Written, ts[..numReaders], ts[numReaders..]);
    TotalZero(Written, ts[..numReaders]);
    TotalConstant(Written, ts[numReaders..], loops);
  }

  lemma DoneCounts(ts: seq<Thread>)
    requires forall t :: 0 <= t < |ts| ==> ts[t].pc == Done
    ensures CountsOf(ts) == Counts(0, 0, 0, 0, 0, 0, Total(Written, ts))
  {
    TotalZero(HoldsFair, ts);
    TotalZero(HoldsRead, ts);
    TotalZero(Counted, ts);
    TotalZero(Awaiting, ts);
    TotalZero(Releasing, ts);
    TotalZero(HoldsWrite, ts);
  }

  lemma StuckMeansFinished(s: State, numReaders: nat, numWriters: nat)
    requires Inv(s) && Roles(s, numReaders, numWriters) && Stuck(s)
    ensures forall t :: 0 <= t < |s.threads| ==> s.threads[t].pc == Done
    ensures s.sh == Shared(1, 1, 1, 0, s.p.loops * numWriters)
  {
    forall t | 0 <= t < |s.threads|
      ensures s.threads[t].pc == Done && ThreadOk(s.p, s.sh, s.threads[t])
    {
      if s.threads[t].pc != Done {
        var u := Progress(s, t);
      }
    }
    WrittenAtEnd(s.threads, s.p.loops, numReaders, numWriters);
    DoneCounts(s.threads);
  }

  lemma InitWork(p: Program, numReaders: nat, numWriters: nat)
    ensures Work(Init(p, numReaders, numWriters)) <= 15 * p.loops * (numReaders + numWriters)
  {
    InitThreads(p, numReaders, numWriters);
    FreshWork(p, Init(p, numReaders, numWriters).threads);
  }

  lemma FreshWork(p: Program, ts: seq<Thread>)
    requires AllFresh(p, ts)
    ensures Total(Remaining(p.loops), ts) <= 15 * p.loops * |ts|
  {
    forall t | 0 <= t < |ts|
      ensures Remaining(p.loops)(ts[t]) <= 15 * p.loops
    {
    }
    TotalAtMost(Remaining(p.loops), ts, 15 * p.loops);
  }

  // What a run from the initial state leads to.
  lemma InitialRun(p: Program, numReaders: nat, numWriters: nat, schedule: seq<nat>, s: State)
    requires Run(Init(p, numReaders, numWriters), schedule, s)
    ensures Inv(s) && s.p == p && Roles(s, numReaders, numWriters)
    ensures |schedule| <= 15 * p.loops * (numReaders + numWriters)
  {
    InitInv(p, numReaders, numWriters);
    InitThreads(p, numReaders, numWriters);
    InitWork(p, numReaders, numWriters);
    RunWork(Init(p, numReaders, numWriters), schedule, s, numReaders, numWriters);
  }

  /** Either program, with any numbers of readers, writers and loops: every run is
      finite, and a run that cannot be extended has finished every thread, has lost
      no increment and has freed every lock. */
  lemma TotalCorrectness(p: Program, numReaders: nat, numWriters: nat, schedule: seq<nat>, s: State)
    requires Run(Init(p, numReaders, numWriters), schedule, s)
    ensures |schedule| <= 15 * p.loops * (numReaders + numWriters)
    ensures Stuck(s) ==> s.sh == Shared(1, 1, 1, 0, p.loops * numWriters)
    ensures Stuck(s) ==> forall t :: 0 <= t < |s.threads| ==> s.threads[t].pc == Done
  {
    InitialRun(p, numReaders, numWriters, schedule, s);
    if Stuck(s) {
      StuckMeansFinished(s, numReaders, numWriters);
    }
  }

  /** In every state that either program can reach at most one writer is inside, and
      never a writer beside a reader. */
  lemma AlwaysExclusive(p: Program, numReaders: nat, numWriters: nat, schedule: seq<nat>, s: State)
    requires Run(Init(p, numReaders, numWriters), schedule, s)
    ensures |Abs(s).writers| <= 1
    ensures Abs(s).writers != {} ==> Abs(s).readers == {}
  {
    InitialRun(p, numReaders, numWriters, schedule, s);
    MutualExclusion(s);
  }
}
