/** Producers and consumers over a ring buffer guarded by three semaphores. The
    model keeps two history variables: the values stored and the values loaded, in order. */
module BoundedBuffer {
  import opened Sums
  import opened Modulo

  datatype Pc =
    | PEmpty | PMutex | PStore | PFill | PPostMutex | PPostFull     // producer
    | CFull | CMutex | CLoad | CUse | CPostMutex | CPostEmpty       // consumer
    | Done

  datatype Thread = Thread(pc: Pc, producer: bool, i: nat, tmp: int)

  // MAX and `loops`.
  datatype Program = Program(max: nat, loops: nat)

  datatype Shared = Shared(empty: nat, full: nat, mutex: nat, buffer: seq<int>, fill: nat, use: nat,
                           puts: seq<int>, gets: seq<int>)

  datatype State = State(p: Program, sh: Shared, threads: seq<Thread>)

  function StartPc(producer: bool): Pc { if producer then PEmpty else CFull }

  function NextIteration(p: Program, th: Thread): Thread {
    th.(i := th.i + 1, pc := if th.i + 1 < p.loops then StartPc(th.producer) else Done)
  }

  predicate Ready(p: Program, sh: Shared, th: Thread) {
    match th.pc
    case PEmpty => sh.empty > 0
    case CFull => sh.full > 0
    case PMutex | CMutex => sh.mutex > 0
    case PStore => sh.fill < |sh.buffer|
    case CLoad => sh.use < |sh.buffer|
    case PFill | CUse => p.max > 0
    case Done => false
    case _ => true
  }

  function Advance(p: Program, sh: Shared, th: Thread): Thread
    requires Ready(p, sh, th)
  {
    match th.pc
    case PEmpty => th.(pc := PMutex)
    case PMutex => th.(pc := PStore)
    case PStore => th.(pc := PFill)
    case PFill => th.(pc := PPostMutex)
    case PPostMutex => th.(pc := PPostFull)
    case CFull => th.(pc := CMutex)
    case CMutex => th.(pc := CLoad)
    case CLoad => th.(pc := CUse, tmp := sh.buffer[sh.use])
    case CUse => th.(pc := CPostMutex)
    case CPostMutex => th.(pc := CPostEmpty)
    case PPostFull | CPostEmpty => NextIteration(p, th)
  }

  function Effect(p: Program, sh: Shared, th: Thread): Shared
    requires Ready(p, sh, th)
  {
    match th.pc
    case PEmpty => sh.(empty := sh.empty - 1)
    case CFull => sh.(full := sh.full - 1)
    case PMutex | CMutex => sh.(mutex := sh.mutex - 1)
    case PStore => sh.(buffer := sh.buffer[sh.fill := th.i], puts := sh.puts + [th.i])
    case PFill => sh.(fill := (sh.fill + 1) % p.max)
    case CLoad => sh.(gets := sh.gets + [sh.buffer[sh.use]])
    case CUse => sh.(use := (sh.use + 1) % p.max)
    case PPostMutex | CPostMutex => sh.(mutex := sh.mutex + 1)
    case PPostFull => sh.(full := sh.full + 1)
    case CPostEmpty => sh.(empty := sh.empty + 1)
  }

  predicate Enabled(s: State, t: nat) {
    t < |s.threads| && Ready(s.p, s.sh, s.threads[t])
  }

  function Step(s: State, t: nat): State
    requires Enabled(s, t)
  {
    var th := s.threads[t];
    s.(sh := Effect(s.p, s.sh, th), threads := s.threads[t := Advance(s.p, s.sh, th)])
  }

  function Fresh(p: Program, producer: bool): Thread {
    Thread(if 0 < p.loops then StartPc(producer) else Done, producer, 0, 0)
  }

  // The initial values that main gives the semaphores; the buffer is a zeroed global.
  function Init(p: Program, producers: nat, consumers: nat): State {
    State(p, Shared(p.max, 0, 1, seq(p.max, _ => 0), 0, 0, [], []),
      seq(producers, _ => Fresh(p, true)) + seq(consumers, _ => Fresh(p, false)))
  }

  predicate Run(s: State, schedule: seq<nat>, s': State)
    decreases |schedule|
  {
    if schedule == [] then s' == s
    else Enabled(s, schedule[0]) && Run(Step(s, schedule[0]), schedule[1..], s')
  }

  ghost predicate Stuck(s: State) { forall t :: !Enabled(s, t) }

  // ------------------------------------------------------------------ the invariant

  function HoldsMutex(th: Thread): nat {
    match th.pc
    case PStore | PFill | PPostMutex | CLoad | CUse | CPostMutex => 1
    case _ => 0
  }

  // Between the two semaphores, with a slot reserved.
  function HoldsToken(th: Thread): nat {
    if th.pc == PEmpty || th.pc == CFull || th.pc == Done then 0 else 1
  }

  // Tokens for slots that hold an unread value.
  function HoldsValue(th: Thread): nat {
    match th.pc
    case PFill | PPostMutex | PPostFull | CMutex | CLoad => 1
    case _ => 0
  }

  function AtFill(th: Thread): nat { if th.pc == PFill then 1 else 0 }
  function AtUse(th: Thread): nat { if th.pc == CUse then 1 else 0 }

  function Stored(th: Thread): nat {
    if !th.producer then 0 else match th.pc
      case PFill | PPostMutex | PPostFull => th.i + 1
      case _ => th.i
  }

  function Loaded(th: Thread): nat {
    if th.producer then 0 else match th.pc
      case CUse | CPostMutex | CPostEmpty => th.i + 1
      case _ => th.i
  }

  datatype Counts = Counts(mutex: nat, tokens: nat, values: nat, atFill: nat, atUse: nat, stored: nat, loaded: nat)

  function CountsOf(ts: seq<Thread>): Counts {
    Counts(Total(HoldsMutex, ts), Total(HoldsToken, ts), Total(HoldsValue, ts), Total(AtFill, ts), Total(AtUse, ts),
           Total(Stored, ts), Total(Loaded, ts))
  }

  predicate ThreadOk(p: Program, th: Thread) {
    && (if th.pc == Done then th.i == p.loops else th.i < p.loops)
    && match th.pc
       case Done => true
       case PEmpty | PMutex | PStore | PFill | PPostMutex | PPostFull => th.producer
       case _ => !th.producer
  }

  predicate CountsOk(p: Program, sh: Shared, c: Counts) {
    && sh.mutex + c.mutex == 1
    && sh.empty + sh.full + c.tokens == p.max
    && |sh.puts| == |sh.gets| + sh.full + c.values
    && |sh.puts| == c.stored && |sh.gets| == c.loaded
    && c.atFill <= |sh.puts| && c.atUse <= |sh.gets|
  }

  // The indices follow the numbers of values stored and loaded around the ring.
  predicate RingOk(p: Program, sh: Shared, c: Counts) {
    && p.max > 0 && c.atFill <= |sh.puts| && c.atUse <= |sh.gets|
    && sh.fill == (|sh.puts| - c.atFill) % p.max && sh.use == (|sh.gets| - c.atUse) % p.max
  }

  /** The ring buffer holds the queue of values stored and not yet loaded. */
  predicate QueueOk(p: Program, sh: Shared) {
    && p.max > 0 && |sh.buffer| == p.max
    && |sh.gets| <= |sh.puts| <= |sh.gets| + p.max
    && sh.gets == sh.puts[..|sh.gets|]
    && forall k :: |sh.gets| <= k < |sh.puts| ==> sh.buffer[k % p.max] == sh.puts[k]
  }

  predicate Inv(s: State) {
    && (forall t {:trigger ThreadOk(s.p, s.threads[t])} :: 0 <= t < |s.threads| ==> ThreadOk(s.p, s.threads[t]))
    && CountsOk(s.p, s.sh, CountsOf(s.threads))
    && RingOk(s.p, s.sh, CountsOf(s.threads))
    && QueueOk(s.p, s.sh)
  }

  // The producers come first, then the consumers.
  predicate Roles(s: State, producers: nat, consumers: nat) {
    && |s.threads| == producers + consumers
    && forall t :: 0 <= t < |s.threads| ==> s.threads[t].producer == (t < producers)
  }

  predicate AllFresh(p: Program, ts: seq<Thread>) {
    forall t :: 0 <= t < |ts| ==> ts[t] == Fresh(p, ts[t].producer)
  }

  lemma InitThreads(p: Program, producers: nat, consumers: nat)
    ensures Roles(Init(p, producers, consumers), producers, consumers)
    ensures AllFresh(p, Init(p, producers, consumers).threads)
  {
    var ts := Init(p, producers, consumers).threads;
    forall t | 0 <= t < |ts|
      ensures ts[t] == Fresh(p, t < producers)
    {
    }
  }

  lemma FreshCounts(p: Program, ts: seq<Thread>)
    requires AllFresh(p, ts)
    ensures CountsOf(ts) == Counts(0, 0, 0, 0, 0, 0, 0)
  {
    TotalZero(HoldsMutex, ts);
    TotalZero(HoldsToken, ts);
    TotalZero(HoldsValue, ts);
    TotalZero(AtFill, ts);
    TotalZero(AtUse, ts);
    TotalZero(Stored, ts);
    TotalZero(Loaded, ts);
  }

  lemma InitInv(p: Program, producers: nat, consumers: nat)
    requires p.max > 0
    ensures Inv(Init(p, producers, consumers))
  {
    InitThreads(p, producers, consumers);
    FreshCounts(p, Init(p, producers, consumers).threads);
    DivModUnique(0, 0, 0, p.max);
  }

  predicate Replaced(c: Counts, before: Thread, after: Thread, c': Counts) {
    && c'.mutex + HoldsMutex(before) == c.mutex + HoldsMutex(after)
    && c'.tokens + HoldsToken(before) == c.tokens + HoldsToken(after)
    && c'.values + HoldsValue(before) == c.values + HoldsValue(after)
    && c'.atFill + AtFill(before) == c.atFill + AtFill(after)
    && c'.atUse + AtUse(before) == c.atUse + AtUse(after)
    && c'.stored + Stored(before) == c.stored + Stored(after)
    && c'.loaded + Loaded(before) == c.loaded + Loaded(after)
  }

  lemma CountsAfter(ts: seq<Thread>, t: nat, th: Thread)
    requires t < |ts|
    ensures Replaced(CountsOf(ts), ts[t], th, CountsOf(ts[t := th]))
  {
    TotalUpdate(HoldsMutex, ts, t, th);
    TotalUpdate(HoldsToken, ts, t, th);
    TotalUpdate(HoldsValue, ts, t, th);
    TotalUpdate(AtFill, ts, t, th);
    TotalUpdate(AtUse, ts, t, th);
    TotalUpdate(Stored, ts, t, th);
    TotalUpdate(Loaded, ts, t, th);
  }

  // A thread inside the mutex is alone there, and the tokens include those for unread values.
  predicate Contains(c: Counts, th: Thread) {
    && HoldsMutex(th) <= c.mutex && HoldsToken(th) <= c.tokens
    && AtFill(th) <= c.atFill <= c.mutex - HoldsMutex(th) + AtFill(th)
    && AtUse(th) <= c.atUse <= c.mutex - HoldsMutex(th) + AtUse(th)
    && HoldsValue(th) <= c.values <= c.tokens - HoldsToken(th) + HoldsValue(th)
  }

  lemma ContainsThread(ts: seq<Thread>, t: nat)
    requires t < |ts|
    ensures Contains(CountsOf(ts), ts[t])
  {
    TotalAtLeast(HoldsMutex, ts, t);
    TotalAtLeast(HoldsToken, ts, t);
    TotalAtLeast(HoldsValue, ts, t);
    TotalAtLeast(AtFill, ts, t);
    TotalAtLeast(AtUse, ts, t);
    SlackAt(AtFill, HoldsMutex, ts, t);
    SlackAt(AtUse, HoldsMutex, ts, t);
    SlackAt(HoldsValue, HoldsToken, ts, t);
  }

  lemma ProducerCounts(p: Program, sh: Shared, th: Thread, c: Counts, c': Counts)
    requires th.producer && Ready(p, sh, th) && ThreadOk(p, th) && CountsOk(p, sh, c) && Contains(c, th)
    requires Replaced(c, th, Advance(p, sh, th), c')
    ensures CountsOk(p, Effect(p, sh, th), c')
  {
  }

  lemma ConsumerCounts(p: Program, sh: Shared, th: Thread, c: Counts, c': Counts)
    requires !th.producer && Ready(p, sh, th) && ThreadOk(p, th) && CountsOk(p, sh, c) && Contains(c, th)
    requires Replaced(c, th, Advance(p, sh, th), c')
    ensures CountsOk(p, Effect(p, sh, th), c')
  {
  }

  lemma RingCounts(p: Program, sh: Shared, th: Thread, c: Counts, c': Counts)
    requires Ready(p, sh, th) && RingOk(p, sh, c) && Contains(c, th) && c.mutex <= 1
    requires Replaced(c, th, Advance(p, sh, th), c')
    ensures RingOk(p, Effect(p, sh, th), c')
  {
    var sh' := Effect(p, sh, th);
    if th.pc == PFill {
      ModNext(|sh.puts| - 1, p.max);
    } else if th.pc == CUse {
      ModNext(|sh.gets| - 1, p.max);
    } else {
      assert sh'.fill == sh.fill && sh'.use == sh.use;
      assert |sh'.puts| - c'.atFill == |sh.puts| - c.atFill && |sh'.gets| - c'.atUse == |sh.gets| - c.atUse;
    }
  }

  /** Where a producer stores, no unread value is; where a consumer loads, the oldest unread value is. */
  lemma SlotsRight(s: State, t: nat)
    requires Inv(s) && Enabled(s, t)
    ensures s.threads[t].pc == PStore ==>
      && |s.sh.puts| < |s.sh.gets| + s.p.max && s.sh.fill == |s.sh.puts| % s.p.max
      && forall k :: |s.sh.gets| <= k < |s.sh.puts| ==> k % s.p.max != s.sh.fill
    ensures s.threads[t].pc == CLoad ==>
      && |s.sh.gets| < |s.sh.puts| && s.sh.use == |s.sh.gets| % s.p.max
      && s.sh.buffer[s.sh.use] == s.sh.puts[|s.sh.gets|]
  {
    ContainsThread(s.threads, t);
    if s.threads[t].pc == PStore {
      forall k | |s.sh.gets| <= k < |s.sh.puts|
        ensures k % s.p.max != s.sh.fill
      {
        RemaindersDiffer(k, |s.sh.puts|, s.p.max);
      }
    }
  }

  // The values stored and not yet loaded.
  function Queue(sh: Shared): seq<int>
    requires |sh.gets| <= |sh.puts|
  {
    sh.puts[|sh.gets|..]
  }

  // Is there a free slot, and is `fill` the right one? Is there an unread value, and is `use` its slot?
  predicate CanStore(p: Program, sh: Shared) {
    QueueOk(p, sh) && |sh.puts| < |sh.gets| + p.max && sh.fill == |sh.puts| % p.max
  }

  predicate CanLoad(p: Program, sh: Shared) {
    QueueOk(p, sh) && |sh.gets| < |sh.puts| && sh.use == |sh.gets| % p.max
  }

  lemma InRange(n: nat, m: nat)
    requires m > 0
    ensures 0 <= n % m < m
  {
  }

  lemma Enqueue(p: Program, sh: Shared, v: int)
    requires CanStore(p, sh)
    ensures sh.fill < |sh.buffer|
    ensures var sh' := sh.(buffer := sh.buffer[sh.fill := v], puts := sh.puts + [v]);
      QueueOk(p, sh') && Queue(sh') == Queue(sh) + [v]
  {
    InRange(|sh.puts|, p.max);
    var sh' := sh.(buffer := sh.buffer[sh.fill := v], puts := sh.puts + [v]);
    assert sh'.puts[..|sh.gets|] == sh.puts[..|sh.gets|];
    forall k | |sh'.gets| <= k < |sh'.puts|
      ensures sh'.buffer[k % p.max] == sh'.puts[k]
    {
      if k < |sh.puts| { RemaindersDiffer(k, |sh.puts|, p.max); }
    }
  }

  lemma Dequeue(p: Program, sh: Shared)
    requires CanLoad(p, sh)
    ensures sh.use < |sh.buffer|
    ensures var sh' := sh.(gets := sh.gets + [sh.buffer[sh.use]]);
      QueueOk(p, sh') && Queue(sh) == [sh.buffer[sh.use]] + Queue(sh')
  {
    InRange(|sh.gets|, p.max);
    assert sh.puts[..|sh.gets| + 1] == sh.puts[..|sh.gets|] + [sh.puts[|sh.gets|]];
  }

  lemma StepQueue(s: State, t: nat)
    requires Inv(s) && Enabled(s, t)
    ensures QueueOk(s.p, Step(s, t).sh)
  {
    SlotsRight(s, t);
    if s.threads[t].pc == PStore {
      Enqueue(s.p, s.sh, s.threads[t].i);
    } else if s.threads[t].pc == CLoad {
      Dequeue(s.p, s.sh);
    }
  }

  /** Every step of every producer and consumer keeps the invariant. */
  lemma StepInv(s: State, t: nat)
    requires Inv(s) && Enabled(s, t)
    ensures Inv(Step(s, t))
  {
    var s' := Step(s, t);
    assert ThreadOk(s.p, s.threads[t]);
    ContainsThread(s.threads, t);
    CountsAfter(s.threads, t, s'.threads[t]);
    if s.threads[t].producer {
      ProducerCounts(s.p, s.sh, s.threads[t], CountsOf(s.threads), CountsOf(s'.threads));
    } else {
      ConsumerCounts(s.p, s.sh, s.threads[t], CountsOf(s.threads), CountsOf(s'.threads));
    }
    RingCounts(s.p, s.sh, s.threads[t], CountsOf(s.threads), CountsOf(s'.threads));
    StepQueue(s, t);
    forall u | 0 <= u < |s'.threads|
      ensures ThreadOk(s'.p, s'.threads[u])
    {
      assert ThreadOk(s.p, s.threads[u]);
    }
  }

  // ------------------------------------------------------------------ refinement

  /** The buffer is a FIFO queue of at most MAX values: storing enqueues, loading
      takes the head out, and nothing else changes the queue. */
  lemma RefinesFifo(s: State, t: nat)
    requires Inv(s) && Enabled(s, t)
    ensures Inv(Step(s, t))
    ensures var q, q', th, th' := Queue(s.sh), Queue(Step(s, t).sh), s.threads[t], Step(s, t).threads[t];
      match th.pc
      case PStore => |q| < s.p.max && q' == q + [th.i]
      case CLoad => q != [] && th'.tmp == q[0] && q' == q[1..]
      case _ => q' == q
  {
    StepInv(s, t);
    SlotsRight(s, t);
  }

  // ------------------------------------------------------------------ runs

  function CallCost(pc: Pc): nat {
    match pc
    case PEmpty | CFull => 6 case PMutex | CMutex => 5 case PStore | CLoad => 4 case PFill | CUse => 3
    case PPostMutex | CPostMutex => 2 case PPostFull | CPostEmpty => 1 case Done => 0
  }

  function Remaining(loops: nat): Thread -> nat {
    (th: Thread) => if th.i < loops then 6 * (loops - th.i - 1) + CallCost(th.pc) else 0
  }

  lemma LocalWork(p: Program, sh: Shared, th: Thread)
    requires Ready(p, sh, th) && ThreadOk(p, th)
    ensures Remaining(p.loops)(Advance(p, sh, th)) < Remaining(p.loops)(th)
    ensures Advance(p, sh, th).producer == th.producer
  {
  }

  lemma StepWork(s: State, t: nat)
    requires Inv(s) && Enabled(s, t)
    ensures Total(Remaining(s.p.loops), Step(s, t).threads) < Total(Remaining(s.p.loops), s.threads)
    ensures Step(s, t).threads[t].producer == s.threads[t].producer
  {
    assert ThreadOk(s.p, s.threads[t]);
    LocalWork(s.p, s.sh, s.threads[t]);
    TotalUpdate(Remaining(s.p.loops), s.threads, t, Advance(s.p, s.sh, s.threads[t]));
  }

  lemma {:induction false} RunInv(s: State, schedule: seq<nat>, s': State, producers: nat, consumers: nat)
    requires Inv(s) && Run(s, schedule, s') && Roles(s, producers, consumers)
    ensures Inv(s') && s'.p == s.p && Roles(s', producers, consumers)
    ensures |schedule| + Total(Remaining(s.p.loops), s'.threads) <= Total(Remaining(s.p.loops), s.threads)
    decreases |schedule|
  {
    if schedule != [] {
      StepInv(s, schedule[0]);
      StepWork(s, schedule[0]);
      RunInv(Step(s, schedule[0]), schedule[1..], s', producers, consumers);
    }
  }

  // In a stuck state every unfinished thread waits at its first semaphore.
  lemma StuckThread(s: State, t: nat)
    requires Inv(s) && Stuck(s) && t < |s.threads| && s.threads[t].pc != Done
    ensures HoldsToken(s.threads[t]) == 0
    ensures if s.threads[t].producer then s.threads[t].pc == PEmpty && s.sh.empty == 0
            else s.threads[t].pc == CFull && s.sh.full == 0
  {
    assert ThreadOk(s.p, s.threads[t]) && !Enabled(s, t);
    if s.sh.mutex == 0 {
      var u := PositiveTerm(HoldsMutex, s.threads);
      IndicesInRange(s);
      assert !Enabled(s, u);
    }
    IndicesInRange(s);
  }

  lemma IndicesInRange(s: State)
    requires Inv(s)
    ensures s.p.max > 0 && s.sh.fill < |s.sh.buffer| && s.sh.use < |s.sh.buffer|
  {
  }

  lemma StuckTokens(s: State)
    requires Inv(s) && Stuck(s)
    ensures s.sh.empty + s.sh.full == s.p.max && |s.sh.puts| == |s.sh.gets| + s.sh.full
  {
    forall t | 0 <= t < |s.threads|
      ensures HoldsToken(s.threads[t]) == 0 && HoldsValue(s.threads[t]) == 0
    {
      if s.threads[t].pc != Done { StuckThread(s, t); }
    }
    TotalZero(HoldsToken, s.threads);
    TotalZero(HoldsValue, s.threads);
  }

  predicate RolesOk(p: Program, ts: seq<Thread>, producers: nat) {
    producers <= |ts| && forall t :: 0 <= t < |ts| ==> ThreadOk(p, ts[t]) && ts[t].producer == (t < producers)
  }

  lemma StoredByProducers(p: Program, ts: seq<Thread>, producers: nat)
    requires RolesOk(p, ts, producers)
    ensures Total(Stored, ts) == Total(Stored, ts[..producers])
  {
    assert ts == ts[..producers] + ts[producers..];
    TotalConcat(Stored, ts[..producers], ts[producers..]);
    TotalZero(Stored, ts[producers..]);
  }

  lemma LoadedByConsumers(p: Program, ts: seq<Thread>, producers: nat)
    requires RolesOk(p, ts, producers)
    ensures Total(Loaded, ts) == Total(Loaded, ts[producers..])
  {
    assert ts == ts[..producers] + ts[producers..];
    TotalConcat(Loaded, ts[..producers], ts[producers..]);
    TotalZero(Loaded, ts[..producers]);
  }

  /** The values stored: no more than the producers' shares, all of them when the
      producers have finished, and not all while one of them has yet to start a turn. */
  lemma PutsBound(s: State, producers: nat, consumers: nat)
    requires Inv(s) && Roles(s, producers, consumers)
    ensures |s.sh.puts| <= s.p.loops * producers
    ensures (forall t :: 0 <= t < producers ==> s.threads[t].pc == Done) ==> |s.sh.puts| == s.p.loops * producers
    ensures (exists t :: 0 <= t < producers && s.threads[t].pc == PEmpty) ==> |s.sh.puts| < s.p.loops * producers
  {
    var a, loops := s.threads[..producers], s.p.loops;
    forall t | 0 <= t < |s.threads| ensures ThreadOk(s.p, s.threads[t]) {}
    StoredByProducers(s.p, s.threads, producers);
    TotalAtMost(Stored, a, loops);
    if forall t :: 0 <= t < producers ==> s.threads[t].pc == Done {
      TotalConstant(Stored, a, loops);
    } else if t :| 0 <= t < producers && s.threads[t].pc == PEmpty {
      TotalLess(Stored, a, loops, t);
    }
  }

  /** The same for the values loaded and the consumers. */
  lemma GetsBound(s: State, producers: nat, consumers: nat)
    requires Inv(s) && Roles(s, producers, consumers)
    ensures |s.sh.gets| <= s.p.loops * consumers
    ensures (forall t :: producers <= t < |s.threads| ==> s.threads[t].pc == Done) ==>
      |s.sh.gets| == s.p.loops * consumers
    ensures (exists t :: producers <= t < |s.threads| && s.threads[t].pc == CFull) ==>
      |s.sh.gets| < s.p.loops * consumers
  {
    var b, loops := s.threads[producers..], s.p.loops;
    forall t | 0 <= t < |s.threads| ensures ThreadOk(s.p, s.threads[t]) {}
    LoadedByConsumers(s.p, s.threads, producers);
    TotalAtMost(Loaded, b, loops);
    if forall t :: producers <= t < |s.threads| ==> s.threads[t].pc == Done {
      forall t | 0 <= t < |b| ensures Loaded(b[t]) == loops { assert b[t] == s.threads[producers + t]; }
      TotalConstant(Loaded, b, loops);
    } else if t :| producers <= t < |s.threads| && s.threads[t].pc == CFull {
      TotalLess(Loaded, b, loops, t - producers);
    }
  }

  /** When a run can get stuck: it has finished every thread exactly when the
      producers offer between none and MAX values more than the consumers take.
      Otherwise only surplus consumers wait at an empty buffer or surplus producers
      at a full one. */
  lemma OnlySurplusWaits(s: State, producers: nat, consumers: nat)
    requires Inv(s) && Roles(s, producers, consumers) && Stuck(s)
    ensures var made, wanted := s.p.loops * producers, s.p.loops * consumers;
      && ((forall t :: 0 <= t < |s.threads| ==> s.threads[t].pc == Done) <==> wanted <= made <= wanted + s.p.max)
      && (made < wanted ==> |s.sh.gets| == |s.sh.puts| == made)
      && (made > wanted + s.p.max ==> |s.sh.gets| == wanted && |s.sh.puts| == wanted + s.p.max)
  {
    StuckTokens(s);
    PutsBound(s, producers, consumers);
    GetsBound(s, producers, consumers);
    if t :| 0 <= t < |s.threads| && s.threads[t].pc != Done {
      StuckThread(s, t);
      forall u | 0 <= u < |s.threads| && s.threads[u].producer != s.threads[t].producer
        ensures s.threads[u].pc == Done
      {
        if s.threads[u].pc != Done { StuckThread(s, u); }
      }
    }
  }

  /** For any MAX > 0 and any numbers of producers, consumers and loops: every run
      ends, the values loaded are the values stored in the same order, and the run
      finishes exactly when the surplus of values fits into the buffer. */
  lemma ProducersConsumers(p: Program, producers: nat, consumers: nat, schedule: seq<nat>, s: State)
    requires p.max > 0 && Run(Init(p, producers, consumers), schedule, s)
    ensures |schedule| <= 6 * p.loops * (producers + consumers)
    ensures s.sh.gets <= s.sh.puts && |s.sh.puts| <= |s.sh.gets| + p.max
    ensures Stuck(s) ==>
      ((forall t :: 0 <= t < |s.threads| ==> s.threads[t].pc == Done) <==>
        p.loops * consumers <= p.loops * producers <= p.loops * consumers + p.max)
  {
    InitInv(p, producers, consumers);
    InitWork(p, producers, consumers);
    InitThreads(p, producers, consumers);
    RunInv(Init(p, producers, consumers), schedule, s, producers, consumers);
    if Stuck(s) {
      OnlySurplusWaits(s, producers, consumers);
    }
  }

  lemma InitWork(p: Program, producers: nat, consumers: nat)
    ensures Total(Remaining(p.loops), Init(p, producers, consumers).threads) <= 6 * p.loops * (producers + consumers)
  {
    InitThreads(p, producers, consumers);
    FreshWork(p, Init(p, producers, consumers).threads);
  }

  lemma FreshWork(p: Program, ts: seq<Thread>)
    requires AllFresh(p, ts)
    ensures Total(Remaining(p.loops), ts) <= 6 * p.loops * |ts|
  {
    forall t | 0 <= t < |ts|
      ensures Remaining(p.loops)(ts[t]) <= 6 * p.loops
    {
    }
    TotalAtMost(Remaining(p.loops), ts, 6 * p.loops);
  }

  // ------------------------------------------------------------------ conservation

  function HasPut(v: int): Thread -> nat {
    (th: Thread) => if 0 <= v < Stored(th) then 1 else 0
  }

  // A value has been stored as often as there are producers that have got beyond it.
  predicate Conserved(s: State, v: int) {
    multiset(s.sh.puts)[v] == Total(HasPut(v), s.threads)
  }

  lemma LocalPut(p: Program, sh: Shared, th: Thread, v: int)
    requires Ready(p, sh, th) && ThreadOk(p, th)
    ensures HasPut(v)(Advance(p, sh, th)) == HasPut(v)(th) + (if th.pc == PStore && th.i == v then 1 else 0)
  {
  }

  lemma StepConserved(s: State, t: nat, v: int)
    requires Inv(s) && Enabled(s, t) && Conserved(s, v)
    ensures Conserved(Step(s, t), v)
  {
    assert ThreadOk(s.p, s.threads[t]);
    LocalPut(s.p, s.sh, s.threads[t], v);
    TotalUpdate(HasPut(v), s.threads, t, Advance(s.p, s.sh, s.threads[t]));
  }

  lemma {:induction false} RunConserved(s: State, schedule: seq<nat>, s': State, v: int)
    requires Inv(s) && Run(s, schedule, s') && Conserved(s, v)
    ensures Conserved(s', v)
    decreases |schedule|
  {
    if schedule != [] {
      StepInv(s, schedule[0]);
      StepConserved(s, schedule[0], v);
      RunConserved(Step(s, schedule[0]), schedule[1..], s', v);
    }
  }

  lemma FreshPuts(p: Program, ts: seq<Thread>, v: int)
    requires AllFresh(p, ts)
    ensures Total(HasPut(v), ts) == 0
  {
    TotalZero(HasPut(v), ts);
  }

  lemma DonePuts(p: Program, ts: seq<Thread>, producers: nat, v: int)
    requires RolesOk(p, ts, producers) && forall t :: 0 <= t < |ts| ==> ts[t].pc == Done
    ensures Total(HasPut(v), ts) == if 0 <= v < p.loops then producers else 0
  {
    var a, b := ts[..producers], ts[producers..];
    assert ts == a + b;
    TotalConcat(HasPut(v), a, b);
    TotalConstant(HasPut(v), a, if 0 <= v < p.loops then 1 else 0);
    TotalZero(HasPut(v), b);
  }

  /** Conservation: when everybody has finished, every number below `loops` has been
      stored once by each producer and nothing else, and with as many consumers as
      producers everything stored has been loaded. */
  lemma NothingLost(p: Program, producers: nat, consumers: nat, schedule: seq<nat>, s: State, v: int)
    requires p.max > 0 && Run(Init(p, producers, consumers), schedule, s)
    requires forall t :: 0 <= t < |s.threads| ==> s.threads[t].pc == Done
    ensures multiset(s.sh.puts)[v] == if 0 <= v < p.loops then producers else 0
    ensures producers == consumers ==> s.sh.gets == s.sh.puts
  {
    var init := Init(p, producers, consumers);
    InitInv(p, producers, consumers);
    InitThreads(p, producers, consumers);
    FreshPuts(p, init.threads, v);
    RunInv(init, schedule, s, producers, consumers);
    RunConserved(init, schedule, s, v);
    forall t | 0 <= t < |s.threads| ensures ThreadOk(s.p, s.threads[t]) {}
    DonePuts(p, s.threads, producers, v);
    PutsBound(s, producers, consumers);
    GetsBound(s, producers, consumers);
  }

  // ------------------------------------------------------------------ in place

  /** The semaphores, the ring buffer and the threads, one line of one thread at a time. */
  class Buffer {
    const p: Program
    var empty: nat
    var full: nat
    var mutex: nat
    var buffer: array<int>
    var fill: nat
    var use: nat
    var threads: seq<Thread>
    ghost var puts: seq<int>
    ghost var gets: seq<int>

    ghost function SharedNow(): Shared
      reads this, buffer
    {
      Shared(empty, full, mutex, buffer[..], fill, use, puts, gets)
    }

    ghost function Snapshot(): State
      reads this, buffer
    {
      State(p, SharedNow(), threads)
    }

    ghost predicate Valid()
      reads this, buffer
    {
      Inv(Snapshot())
    }

    constructor (p: Program, producers: nat, consumers: nat)
      requires p.max > 0
      ensures Valid() && fresh(buffer) && Snapshot() == Init(p, producers, consumers)
    {
      this.p := p;
      empty, full, mutex := p.max, 0, 1;
      buffer := new int[p.max](_ => 0);
      fill, use, puts, gets := 0, 0, [], [];
      threads := seq(producers, _ => Fresh(p, true)) + seq(consumers, _ => Fresh(p, false));
      new;
      assert buffer[..] == seq(p.max, _ => 0);
      InitInv(p, producers, consumers);
    }

    /** The store of put: the value joins the end of the queue of unread values, and
        every unread value stays in its slot. */
    method Store(value: int)
      requires CanStore(p, SharedNow())
      modifies buffer, this`puts
      ensures QueueOk(p, SharedNow()) && Queue(SharedNow()) == old(Queue(SharedNow())) + [value]
      ensures SharedNow() == old(SharedNow()).(buffer := buffer[..], puts := puts)
      ensures buffer[..] == old(buffer[..])[fill := value] && puts == old(puts) + [value]
    {
      Enqueue(p, SharedNow(), value);
      buffer[fill] := value;
      puts := puts + [value];
    }

    /** The load of get: it takes the oldest unread value from the head of the queue. */
    method Fetch() returns (tmp: int)
      requires CanLoad(p, SharedNow())
      modifies this`gets
      ensures QueueOk(p, SharedNow()) && old(Queue(SharedNow())) == [tmp] + Queue(SharedNow())
      ensures SharedNow() == old(SharedNow()).(gets := old(gets) + [tmp])
      ensures tmp == buffer[..][use]
    {
      Dequeue(p, SharedNow());
      tmp := buffer[use];
      gets := gets + [tmp];
    }

    // Thread `t` executes its next line.
    method Line(t: nat)
      requires t < |threads| && Ready(p, SharedNow(), threads[t])
      requires threads[t].pc == PStore ==> CanStore(p, SharedNow())
      requires threads[t].pc == CLoad ==> CanLoad(p, SharedNow())
      modifies this, buffer
      ensures buffer == old(buffer)
      ensures SharedNow() == Effect(p, old(SharedNow()), old(threads)[t])
      ensures threads == old(threads)[t := Advance(p, old(SharedNow()), old(threads)[t])]
    {
      var th := threads[t];
      match th.pc {
        case PEmpty => empty := empty - 1; th := th.(pc := PMutex);
        case PMutex => mutex := mutex - 1; th := th.(pc := PStore);
        case PStore => Store(th.i); th := th.(pc := PFill);
        case PFill => fill := (fill + 1) % p.max; th := th.(pc := PPostMutex);
        case PPostMutex => mutex := mutex + 1; th := th.(pc := PPostFull);
        case PPostFull => full := full + 1; th := NextIteration(p, th);
        case CFull => full := full - 1; th := th.(pc := CMutex);
        case CMutex => mutex := mutex - 1; th := th.(pc := CLoad);
        case CLoad => var tmp := Fetch(); th := th.(pc := CUse, tmp := tmp);
        case CUse => use := (use + 1) % p.max; th := th.(pc := CPostMutex);
        case CPostMutex => mutex := mutex + 1; th := th.(pc := CPostEmpty);
        case CPostEmpty => empty := empty + 1; th := NextIteration(p, th);
      }
      threads := threads[t := th];
    }

    /** ... unless a semaphore blocks it. */
    method Execute(t: nat) returns (moved: bool)
      requires Valid()
      modifies this, buffer
      ensures Valid() && buffer == old(buffer)
      ensures moved == Enabled(old(Snapshot()), t)
      ensures Snapshot() == if moved then Step(old(Snapshot()), t) else old(Snapshot())
    {
      moved := t < |threads| && match threads[t].pc
        case PEmpty => empty > 0
        case CFull => full > 0
        case PMutex | CMutex => mutex > 0
        case Done => false
        case _ => true;
      IndicesInRange(Snapshot());
      if moved {
        StepInv(Snapshot(), t);
        SlotsRight(Snapshot(), t);
        Line(t);
      }
    }
  }
}
