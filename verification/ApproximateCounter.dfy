/** The approximate counter: one local counter per cpu under its own lock, flushed
    into the global one when it reaches the threshold. Any number of threads update
    it by one, any number read it; several threads may share a cpu. Every `+=` is a
    load and a store. */
module ApproximateCounter {
  import opened Common
  import opened Modulo
  import opened Sums

  datatype Pc =
    // update
    | LockLocal | AddLoad | AddStore | Test | LockGlobal | FlushLoad | FlushStore | UnlockGlobal | Zero | UnlockLocal
    // get
    | GetLock | GetRead | GetUnlock
    | Done

  // `reg` is the value loaded last; `val` the result of the last get.
  datatype Thread = Thread(pc: Pc, worker: bool, cpu: nat, i: nat, reg: nat, val: nat)

  // A local counter and its lock. History: `adds` counts the increments on this cpu, `moved` what was flushed.
  datatype Cpu = Cpu(local: nat, lock: nat, adds: nat, moved: nat)

  datatype Global = Global(value: nat, lock: nat)

  datatype Program = Program(threshold: nat, loops: nat)

  datatype State = State(p: Program, g: Global, cpus: seq<Cpu>, threads: seq<Thread>)

  function StartPc(worker: bool): Pc { if worker then LockLocal else GetLock }

  function NextIteration(p: Program, th: Thread): Thread {
    th.(i := th.i + 1, pc := if th.i + 1 < p.loops then StartPc(th.worker) else Done)
  }

  predicate Ready(g: Global, c: Cpu, th: Thread) {
    match th.pc
    case LockLocal => c.lock > 0
    case LockGlobal | GetLock => g.lock > 0
    case Done => false
    case _ => true
  }

  function Advance(p: Program, g: Global, c: Cpu, th: Thread): Thread
    requires Ready(g, c, th)
  {
    match th.pc
    case LockLocal => th.(pc := AddLoad)
    case AddLoad => th.(pc := AddStore, reg := c.local)
    case AddStore => th.(pc := Test)
    case Test => th.(pc := if c.local >= p.threshold then LockGlobal else UnlockLocal)
    case LockGlobal => th.(pc := FlushLoad)
    case FlushLoad => th.(pc := FlushStore, reg := g.value)
    case FlushStore => th.(pc := UnlockGlobal)
    case UnlockGlobal => th.(pc := Zero)
    case Zero => th.(pc := UnlockLocal)
    case GetLock => th.(pc := GetRead)
    case GetRead => th.(pc := GetUnlock, val := g.value)
    case UnlockLocal | GetUnlock => NextIteration(p, th)
  }

  function GlobalEffect(g: Global, c: Cpu, th: Thread): Global
    requires Ready(g, c, th)
  {
    match th.pc
    case LockGlobal | GetLock => g.(lock := g.lock - 1)
    case UnlockGlobal | GetUnlock => g.(lock := g.lock + 1)
    case FlushStore => g.(value := th.reg + c.local)
    case _ => g
  }

  function CpuEffect(g: Global, c: Cpu, th: Thread): Cpu
    requires Ready(g, c, th)
  {
    match th.pc
    case LockLocal => c.(lock := c.lock - 1)
    case UnlockLocal => c.(lock := c.lock + 1)
    case AddStore => c.(local := th.reg + 1, adds := c.adds + 1)
    case FlushStore => c.(moved := c.moved + c.local)
    case Zero => c.(local := 0)
    case _ => c
  }

  predicate Enabled(s: State, t: nat) {
    t < |s.threads| && s.threads[t].cpu < |s.cpus| && Ready(s.g, s.cpus[s.threads[t].cpu], s.threads[t])
  }

  function Step(s: State, t: nat): State
    requires Enabled(s, t)
  {
    var th := s.threads[t];
    var c := s.cpus[th.cpu];
    State(s.p, GlobalEffect(s.g, c, th), s.cpus[th.cpu := CpuEffect(s.g, c, th)],
          s.threads[t := Advance(s.p, s.g, c, th)])
  }

  // Thread `t` works on cpu `t % cpus`.
  function Fresh(p: Program, cpus: nat, t: nat, worker: bool): Thread
    requires cpus > 0
  {
    Thread(if 0 < p.loops then StartPc(worker) else Done, worker, t % cpus, 0, 0, 0)
  }

  function Init(p: Program, cpus: nat, workers: nat, getters: nat): State
    requires cpus > 0
  {
    State(p, Global(0, 1), seq(cpus, _ => Cpu(0, 1, 0, 0)),
      seq(workers + getters, t requires 0 <= t < workers + getters => Fresh(p, cpus, t, t < workers)))
  }

  predicate Run(s: State, schedule: seq<nat>, s': State)
    decreases |schedule|
  {
    if schedule == [] then s' == s
    else Enabled(s, schedule[0]) && Run(Step(s, schedule[0]), schedule[1..], s')
  }

  // ------------------------------------------------------------------ the invariant

  function InGlobal(th: Thread): nat {
    match th.pc
    case FlushLoad | FlushStore | UnlockGlobal | GetRead | GetUnlock => 1
    case _ => 0
  }

  predicate InLocal(th: Thread) {
    match th.pc
    case AddLoad | AddStore | Test | LockGlobal | FlushLoad | FlushStore | UnlockGlobal | Zero | UnlockLocal => true
    case _ => false
  }

  // Flushed, but the local counter not yet reset.
  predicate Flushed(th: Thread) { th.pc == UnlockGlobal || th.pc == Zero }

  function AddsOf(th: Thread): nat {
    if !th.worker then 0 else match th.pc
      case Test | LockGlobal | FlushLoad | FlushStore | UnlockGlobal | Zero | UnlockLocal => th.i + 1
      case _ => th.i
  }

  // The same counts, restricted to the threads of one cpu.
  function InLocalOn(c: nat): Thread -> nat { (th: Thread) => Bit(th.cpu == c && InLocal(th)) }
  function FlushedOn(c: nat): Thread -> nat { (th: Thread) => Bit(th.cpu == c && Flushed(th)) }
  function AddsOn(c: nat): Thread -> nat { (th: Thread) => if th.cpu == c then AddsOf(th) else 0 }

  function Moved(c: Cpu): nat { c.moved }
  function Adds(c: Cpu): nat { c.adds }

  predicate ThreadOk(p: Program, g: Global, c: Cpu, th: Thread) {
    && (if th.pc == Done then th.i == p.loops else th.i < p.loops)
    && th.val <= g.value
    && match th.pc
       case Done => true
       case GetLock | GetRead | GetUnlock => !th.worker
       case LockLocal => th.worker
       case AddLoad | UnlockLocal => th.worker && c.local < p.threshold
       case AddStore => th.worker && th.reg == c.local < p.threshold
       case Test => th.worker && c.local <= p.threshold
       case FlushStore => th.worker && c.local == p.threshold && th.reg == g.value
       case _ => th.worker && c.local == p.threshold
  }

  predicate CpuOk(p: Program, c: Cpu, inside: nat, flushed: nat, adds: nat)
    requires p.threshold > 0
  {
    && c.lock + inside == 1
    && flushed <= inside
    && (c.lock == 1 ==> c.local < p.threshold)
    && c.local <= p.threshold
    && c.adds == c.moved + (if flushed > 0 then 0 else c.local)
    && c.moved % p.threshold == 0
    && c.adds == adds
  }

  predicate CpuInv(s: State, c: nat)
    requires c < |s.cpus| && s.p.threshold > 0
  {
    CpuOk(s.p, s.cpus[c], Total(InLocalOn(c), s.threads), Total(FlushedOn(c), s.threads), Total(AddsOn(c), s.threads))
  }

  predicate Inv(s: State) {
    && s.p.threshold > 0
    && (forall t {:trigger s.threads[t]} :: 0 <= t < |s.threads| ==>
          s.threads[t].cpu < |s.cpus| && ThreadOk(s.p, s.g, s.cpus[s.threads[t].cpu], s.threads[t]))
    && (forall c {:trigger CpuInv(s, c)} :: 0 <= c < |s.cpus| ==> CpuInv(s, c))
    && s.g.lock + Total(InGlobal, s.threads) == 1
    && s.g.value == Total(Moved, s.cpus)
  }

  lemma InitInv(p: Program, cpus: nat, workers: nat, getters: nat)
    requires p.threshold > 0 && cpus > 0
    ensures Inv(Init(p, cpus, workers, getters))
  {
    var s := Init(p, cpus, workers, getters);
    forall t | 0 <= t < |s.threads|
      ensures s.threads[t] == Fresh(p, cpus, t, t < workers) && s.threads[t].cpu < cpus
    {
    }
    TotalZero(InGlobal, s.threads);
    TotalZero(Moved, s.cpus);
    forall c | 0 <= c < |s.cpus|
      ensures CpuInv(s, c)
    {
      TotalZero(InLocalOn(c), s.threads);
      TotalZero(FlushedOn(c), s.threads);
      TotalZero(AddsOn(c), s.threads);
    }
  }

  lemma AddMultiple(a: nat, m: nat)
    requires m > 0 && a % m == 0
    ensures (a + m) % m == 0
  {
    assert a == (a / m) * m;
    assert (a / m + 1) * m == (a / m) * m + m;
    DivModUnique(a + m, a / m + 1, 0, m);
  }

  lemma LocalCpu(p: Program, g: Global, c: Cpu, th: Thread, inside: nat, flushed: nat, adds: nat)
    requires p.threshold > 0 && Ready(g, c, th) && ThreadOk(p, g, c, th) && CpuOk(p, c, inside, flushed, adds)
    requires Bit(InLocal(th)) <= inside && Bit(Flushed(th)) <= flushed
    requires InLocal(th) ==> flushed == Bit(Flushed(th))
    ensures var th' := Advance(p, g, c, th);
      && inside + Bit(InLocal(th')) >= Bit(InLocal(th))
      && flushed + Bit(Flushed(th')) >= Bit(Flushed(th))
      && adds + AddsOf(th') >= AddsOf(th)
      && CpuOk(p, CpuEffect(g, c, th), inside + Bit(InLocal(th')) - Bit(InLocal(th)),
               flushed + Bit(Flushed(th')) - Bit(Flushed(th)), adds + AddsOf(th') - AddsOf(th))
  {
    if th.pc == FlushStore { AddMultiple(c.moved, p.threshold); }
  }

  lemma LocalSelf(p: Program, g: Global, c: Cpu, th: Thread)
    requires p.threshold > 0 && Ready(g, c, th) && ThreadOk(p, g, c, th) && (c.lock == 1 ==> c.local < p.threshold)
    requires c.lock <= 1
    ensures ThreadOk(p, GlobalEffect(g, c, th), CpuEffect(g, c, th), Advance(p, g, c, th))
    ensures GlobalEffect(g, c, th).value == g.value + CpuEffect(g, c, th).moved - c.moved >= g.value
  {
  }

  // A thread on the same cpu is outside its lock, a thread elsewhere outside the global lock if this one is inside.
  lemma LocalOther(p: Program, g: Global, c: Cpu, th: Thread, d: Cpu, d': Cpu, other: Thread)
    requires p.threshold > 0 && Ready(g, c, th) && ThreadOk(p, g, c, th) && ThreadOk(p, g, d, other)
    requires InGlobal(th) + InGlobal(other) <= 1
    requires if th.cpu == other.cpu then d == c && d' == CpuEffect(g, c, th) && !(InLocal(th) && InLocal(other))
             else d' == d
    ensures ThreadOk(p, GlobalEffect(g, c, th), d', other)
  {
  }

  // A step of a thread on another cpu.
  lemma StepElsewhere(s: State, t: nat, c: nat)
    requires Inv(s) && Enabled(s, t) && c < |s.cpus| && s.threads[t].cpu != c
    ensures CpuInv(Step(s, t), c)
  {
    var th' := Step(s, t).threads[t];
    assert CpuInv(s, c);
    TotalUpdate(InLocalOn(c), s.threads, t, th');
    TotalUpdate(FlushedOn(c), s.threads, t, th');
    TotalUpdate(AddsOn(c), s.threads, t, th');
  }

  lemma StepHere(s: State, t: nat)
    requires Inv(s) && Enabled(s, t)
    ensures CpuInv(Step(s, t), s.threads[t].cpu)
  {
    var th := s.threads[t];
    var c := th.cpu;
    var th' := Advance(s.p, s.g, s.cpus[c], th);
    assert CpuInv(s, c);
    TotalUpdate(InLocalOn(c), s.threads, t, th');
    TotalUpdate(FlushedOn(c), s.threads, t, th');
    TotalUpdate(AddsOn(c), s.threads, t, th');
    TotalAtLeast(InLocalOn(c), s.threads, t);
    TotalAtLeast(FlushedOn(c), s.threads, t);
    SlackAt(FlushedOn(c), InLocalOn(c), s.threads, t);
    LocalCpu(s.p, s.g, s.cpus[c], th, Total(InLocalOn(c), s.threads),
             Total(FlushedOn(c), s.threads), Total(AddsOn(c), s.threads));
  }

  lemma StepGlobal(s: State, t: nat)
    requires Inv(s) && Enabled(s, t)
    ensures Step(s, t).g.lock + Total(InGlobal, Step(s, t).threads) == 1
    ensures Step(s, t).g.value == Total(Moved, Step(s, t).cpus)
    ensures Step(s, t).g.value >= s.g.value
  {
    var th, th' := s.threads[t], Step(s, t).threads[t];
    var c := s.cpus[th.cpu];
    TotalUpdate(InGlobal, s.threads, t, th');
    TotalUpdate(Moved, s.cpus, th.cpu, CpuEffect(s.g, c, th));
    assert CpuInv(s, th.cpu);
    LocalSelf(s.p, s.g, c, th);
  }

  lemma StepOther(s: State, t: nat, u: nat)
    requires Inv(s) && Enabled(s, t) && u < |s.threads| && u != t
    ensures ThreadOk(s.p, Step(s, t).g, Step(s, t).cpus[s.threads[u].cpu], s.threads[u])
  {
    var th, other := s.threads[t], s.threads[u];
    TwoTerms(InGlobal, s.threads, t, u);
    if th.cpu == other.cpu {
      assert CpuInv(s, th.cpu);
      TwoTerms(InLocalOn(th.cpu), s.threads, t, u);
    }
    LocalOther(s.p, s.g, s.cpus[th.cpu], th, s.cpus[other.cpu], Step(s, t).cpus[other.cpu], other);
  }

  /** Every step of every thread keeps the invariant, and the global value never decreases. */
  lemma StepInv(s: State, t: nat)
    requires Inv(s) && Enabled(s, t)
    ensures Inv(Step(s, t)) && Step(s, t).g.value >= s.g.value
  {
    var s' := Step(s, t);
    StepGlobal(s, t);
    forall c | 0 <= c < |s'.cpus|
      ensures CpuInv(s', c)
    {
      if c == s.threads[t].cpu { StepHere(s, t); } else { StepElsewhere(s, t, c); }
    }
    forall u | 0 <= u < |s'.threads|
      ensures s'.threads[u].cpu < |s'.cpus| && ThreadOk(s'.p, s'.g, s'.cpus[s'.threads[u].cpu], s'.threads[u])
    {
      if u == t {
        assert CpuInv(s, s.threads[t].cpu);
        LocalSelf(s.p, s.g, s.cpus[s.threads[t].cpu], s.threads[t]);
      } else {
        StepOther(s, t, u);
      }
    }
  }

  // ------------------------------------------------------------------ accuracy

  /** What cpu `c` still holds: its local counter, unless that has just been added to the
      global one and not yet been reset. */
  function Held(s: State, c: nat): nat
    requires c < |s.cpus|
  {
    if Total(FlushedOn(c), s.threads) > 0 then 0 else s.cpus[c].local
  }

  function HeldBy(s: State): seq<nat> { seq(|s.cpus|, c requires 0 <= c < |s.cpus| => Held(s, c)) }

  function Value(x: nat): nat { x }

  lemma HeldIs(s: State, c: nat)
    requires Inv(s) && c < |s.cpus|
    ensures s.cpus[c].adds == s.cpus[c].moved + Held(s, c) == Total(AddsOn(c), s.threads)
    ensures s.cpus[c].moved % s.p.threshold == 0
    ensures Held(s, c) <= s.p.threshold && (s.cpus[c].lock == 1 ==> Held(s, c) <= s.p.threshold - 1)
  {
    assert CpuInv(s, c);
  }

  lemma {:induction false} SplitAdds(cpus: seq<Cpu>, held: seq<nat>)
    requires |held| == |cpus| && forall c :: 0 <= c < |cpus| ==> cpus[c].adds == cpus[c].moved + held[c]
    ensures Total(Adds, cpus) == Total(Moved, cpus) + Total(Value, held)
  {
    if cpus != [] {
      SplitAdds(cpus[1..], held[1..]);
    }
  }

  function AddsBy(ts: seq<Thread>, cpus: nat): seq<nat> { seq(cpus, c requires 0 <= c < cpus => Total(AddsOn(c), ts)) }

  // The increments of the threads, counted cpu by cpu.
  lemma {:induction false} AddsPerCpu(ts: seq<Thread>, cpus: nat)
    requires forall t :: 0 <= t < |ts| ==> ts[t].cpu < cpus
    ensures Total(Value, AddsBy(ts, cpus)) == Total(AddsOf, ts)
  {
    if ts == [] {
      TotalZero<nat>(Value, AddsBy(ts, cpus));
    } else {
      var th, rest: seq<nat> := ts[0], AddsBy(ts[1..], cpus);
      AddsPerCpu(ts[1..], cpus);
      forall c | 0 <= c < cpus
        ensures AddsBy(ts, cpus)[c] == rest[c] + (if c == th.cpu then AddsOf(th) else 0)
      {
        assert Total(AddsOn(c), ts) == AddsOn(c)(th) + Total(AddsOn(c), ts[1..]);
      }
      assert AddsBy(ts, cpus) == rest[th.cpu := rest[th.cpu] + AddsOf(th)];
      TotalUpdate<nat>(Value, rest, th.cpu, rest[th.cpu] + AddsOf(th));
    }
  }

  lemma AddsByThreads(s: State)
    requires Inv(s)
    ensures Total(Adds, s.cpus) == Total(AddsOf, s.threads)
  {
    var perCpu := AddsBy(s.threads, |s.cpus|);
    forall c | 0 <= c < |s.cpus|
      ensures Adds(s.cpus[c]) == Value(perCpu[c])
    {
      HeldIs(s, c);
    }
    TotalNoMore(Adds, s.cpus, Value, perCpu);
    TotalNoMore(Value, perCpu, Adds, s.cpus);
    AddsPerCpu(s.threads, |s.cpus|);
  }

  lemma LocalAdds(p: Program, g: Global, c: Cpu, th: Thread)
    requires p.threshold > 0 && Ready(g, c, th) && ThreadOk(p, g, c, th)
    ensures AddsOf(Advance(p, g, c, th)) == AddsOf(th) + (if th.pc == AddStore then 1 else 0)
  {
  }

  /** That number counts the stores of `local += 1`, and nothing else. */
  lemma StepAdds(s: State, t: nat)
    requires Inv(s) && Enabled(s, t)
    ensures Total(AddsOf, Step(s, t).threads) ==
      Total(AddsOf, s.threads) + (if s.threads[t].pc == AddStore then 1 else 0)
  {
    var th := s.threads[t];
    LocalAdds(s.p, s.g, s.cpus[th.cpu], th);
    TotalUpdate(AddsOf, s.threads, t, Advance(s.p, s.g, s.cpus[th.cpu], th));
  }

  lemma {:induction false} SumOfMultiples(cpus: seq<Cpu>, m: nat)
    requires m > 0 && forall c :: 0 <= c < |cpus| ==> cpus[c].moved % m == 0
    ensures Total(Moved, cpus) % m == 0
  {
    if cpus == [] {
      DivModUnique(0, 0, 0, m);
    } else {
      SumOfMultiples(cpus[1..], m);
      var a, b := cpus[0].moved, Total(Moved, cpus[1..]);
      assert a == (a / m) * m && b == (b / m) * m;
      assert (a / m + b / m) * m == (a / m) * m + (b / m) * m;
      DivModUnique(a + b, a / m + b / m, 0, m);
    }
  }

  /** In every reachable state the global value and what the local counters still hold add
      up to the increments that the threads have performed, the global value is a multiple
      of the threshold, and a reader sees at most `threshold` increments too few per cpu,
      or one less per cpu when no update is under way. */
  lemma Accuracy(s: State)
    requires Inv(s)
    ensures Total(AddsOf, s.threads) == s.g.value + Total(Value, HeldBy(s))
    ensures s.g.value % s.p.threshold == 0
    ensures s.g.value <= Total(AddsOf, s.threads) <= s.g.value + s.p.threshold * |s.cpus|
    ensures (forall c :: 0 <= c < |s.cpus| ==> s.cpus[c].lock == 1) ==>
      Total(AddsOf, s.threads) <= s.g.value + (s.p.threshold - 1) * |s.cpus|
  {
    var held := HeldBy(s);
    forall c | 0 <= c < |s.cpus|
      ensures s.cpus[c].adds == s.cpus[c].moved + held[c] && s.cpus[c].moved % s.p.threshold == 0
      ensures Value(held[c]) <= s.p.threshold && (s.cpus[c].lock == 1 ==> Value(held[c]) <= s.p.threshold - 1)
    {
      HeldIs(s, c);
    }
    AddsByThreads(s);
    SplitAdds(s.cpus, held);
    SumOfMultiples(s.cpus, s.p.threshold);
    TotalAtMost(Value, held, s.p.threshold);
    if forall c :: 0 <= c < |s.cpus| ==> s.cpus[c].lock == 1 {
      TotalAtMost(Value, held, s.p.threshold - 1);
    }
  }

  /** Successive results of get in one thread never decrease, and a turn ends at the last
      unlock of update or get and nowhere else. */
  lemma GetMonotone(s: State, t: nat)
    requires Inv(s) && Enabled(s, t)
    ensures Step(s, t).threads[t].val >= s.threads[t].val
    ensures s.threads[t].pc == GetRead ==> Step(s, t).threads[t].val == s.g.value
    ensures Step(s, t).threads[t].i ==
      s.threads[t].i + Bit(s.threads[t].pc == UnlockLocal || s.threads[t].pc == GetUnlock)
  {
  }

  // ------------------------------------------------------------------ runs

  function CallCost(pc: Pc): nat {
    match pc
    case LockLocal => 10 case AddLoad => 9 case AddStore => 8 case Test => 7 case LockGlobal => 6 case FlushLoad => 5
    case FlushStore => 4 case UnlockGlobal => 3 case Zero => 2 case UnlockLocal => 1
    case GetLock => 3 case GetRead => 2 case GetUnlock => 1 case Done => 0
  }

  function Remaining(loops: nat): Thread -> nat {
    (th: Thread) => if th.i < loops then 10 * (loops - th.i - 1) + CallCost(th.pc) else 0
  }

  lemma LocalWork(p: Program, g: Global, c: Cpu, th: Thread)
    requires p.threshold > 0 && Ready(g, c, th) && ThreadOk(p, g, c, th)
    ensures Remaining(p.loops)(Advance(p, g, c, th)) < Remaining(p.loops)(th)
    ensures Advance(p, g, c, th).worker == th.worker && Advance(p, g, c, th).cpu == th.cpu
  {
  }

  lemma StepWork(s: State, t: nat)
    requires Inv(s) && Enabled(s, t)
    ensures Total(Remaining(s.p.loops), Step(s, t).threads) < Total(Remaining(s.p.loops), s.threads)
    ensures SameSetup(s, Step(s, t))
  {
    var th := s.threads[t];
    LocalWork(s.p, s.g, s.cpus[th.cpu], th);
    TotalUpdate(Remaining(s.p.loops), s.threads, t, Advance(s.p, s.g, s.cpus[th.cpu], th));
  }

  // What a step never changes.
  predicate SameSetup(s: State, s': State) {
    && s'.p == s.p && |s'.cpus| == |s.cpus| && |s'.threads| == |s.threads|
    && forall t :: 0 <= t < |s.threads| ==>
         s'.threads[t].worker == s.threads[t].worker && s'.threads[t].cpu == s.threads[t].cpu
  }

  lemma {:induction false} RunInv(s: State, schedule: seq<nat>, s': State)
    requires Inv(s) && Run(s, schedule, s')
    ensures Inv(s') && SameSetup(s, s') && s'.g.value >= s.g.value
    ensures |schedule| + Total(Remaining(s.p.loops), s'.threads) <= Total(Remaining(s.p.loops), s.threads)
    decreases |schedule|
  {
    if schedule != [] {
      StepInv(s, schedule[0]);
      StepWork(s, schedule[0]);
      RunInv(Step(s, schedule[0]), schedule[1..], s');
    }
  }

  ghost predicate Stuck(s: State) { forall t :: !Enabled(s, t) }

  /** The two levels of locks never block each other for good. */
  lemma Progress(s: State, t: nat) returns (u: nat)
    requires Inv(s) && t < |s.threads| && s.threads[t].pc != Done
    ensures Enabled(s, u)
  {
    if s.g.lock == 0 {
      u := PositiveTerm(InGlobal, s.threads);
    } else if !Enabled(s, t) {
      var c := s.threads[t].cpu;
      assert CpuInv(s, c);
      u := PositiveTerm(InLocalOn(c), s.threads);
    } else {
      u := t;
    }
  }

  // The updates that the workers of one cpu perform.
  function Share(loops: nat, c: nat): Thread -> nat {
    (th: Thread) => if th.worker && th.cpu == c then loops else 0
  }

  // What remains of `n` increments on one cpu when the last incomplete batch is lost.
  function FullBatches(threshold: nat): Cpu -> nat
    requires threshold > 0
  {
    (c: Cpu) => threshold * (c.adds / threshold)
  }

  lemma BatchesMoved(threshold: nat, c: Cpu)
    requires threshold > 0 && c.moved % threshold == 0 && c.local < threshold && c.adds == c.moved + c.local
    ensures c.moved == FullBatches(threshold)(c)
  {
    assert c.moved == (c.moved / threshold) * threshold;
    DivModUnique(c.adds, c.moved / threshold, c.local, threshold);
  }

  lemma FinalCpu(s: State, c: nat)
    requires Inv(s) && c < |s.cpus| && forall t :: 0 <= t < |s.threads| ==> s.threads[t].pc == Done
    ensures s.cpus[c].adds == Total(Share(s.p.loops, c), s.threads)
    ensures s.cpus[c].moved == FullBatches(s.p.threshold)(s.cpus[c])
  {
    assert CpuInv(s, c);
    TotalZero(InLocalOn(c), s.threads);
    TotalZero(FlushedOn(c), s.threads);
    BatchesMoved(s.p.threshold, s.cpus[c]);
    TotalNoMore(AddsOn(c), s.threads, Share(s.p.loops, c), s.threads);
    TotalNoMore(Share(s.p.loops, c), s.threads, AddsOn(c), s.threads);
  }

  // The threads as main creates them: thread `t` works on cpu `t % cpus`.
  predicate Setup(s: State, cpus: nat, workers: nat, getters: nat)
    requires cpus > 0
  {
    && |s.cpus| == cpus && |s.threads| == workers + getters
    && forall t {:trigger s.threads[t]} :: 0 <= t < |s.threads| ==>
         s.threads[t].worker == (t < workers) && s.threads[t].cpu == t % cpus
  }

  /** The number of workers with a given remainder. */
  function WorkersOn(workers: nat, cpus: nat, c: nat): nat
    requires cpus > 0
  {
    |set t | 0 <= t < workers && t % cpus == c|
  }

  lemma WorkersOnNext(workers: nat, cpus: nat, c: nat)
    requires cpus > 0
    ensures WorkersOn(workers + 1, cpus, c) == WorkersOn(workers, cpus, c) + Bit(workers % cpus == c)
  {
    var before := set t | 0 <= t < workers && t % cpus == c;
    var after := set t | 0 <= t < workers + 1 && t % cpus == c;
    if workers % cpus == c {
      assert after == before + {workers};
    } else {
      assert after == before;
    }
  }

  lemma {:induction false} ShareIs(s: State, cpus: nat, workers: nat, getters: nat, c: nat, k: nat)
    requires cpus > 0 && Setup(s, cpus, workers, getters) && k <= |s.threads|
    ensures Total(Share(s.p.loops, c), s.threads[..k]) ==
      s.p.loops * WorkersOn(if k < workers then k else workers, cpus, c)
    decreases k
  {
    var f := Share(s.p.loops, c);
    if k == 0 {
      assert (set t | 0 <= t < 0 && t % cpus == c) == {};
    } else {
      var th := s.threads[k - 1];
      ShareIs(s, cpus, workers, getters, c, k - 1);
      assert s.threads[..k] == s.threads[..k - 1] + [th];
      TotalConcat(f, s.threads[..k - 1], [th]);
      assert Total(f, [th]) == f(th);
      if k <= workers {
        WorkersOnNext(k - 1, cpus, c);
        Distribute(s.p.loops, WorkersOn(k - 1, cpus, c), Bit((k - 1) % cpus == c));
      }
    }
  }

  lemma Distribute(a: nat, b: nat, c: nat)
    ensures a * (b + c) == a * b + a * c
  {
  }

  /** What each cpu contributes to the final value: its updates without the last incomplete batch. */
  function Batches(p: Program, cpus: nat, workers: nat): seq<nat>
    requires p.threshold > 0 && cpus > 0
  {
    seq(cpus, c requires 0 <= c < cpus => p.threshold * (p.loops * WorkersOn(workers, cpus, c) / p.threshold))
  }

  lemma FinalAdds(s: State, cpus: nat, workers: nat, getters: nat, c: nat)
    requires Inv(s) && cpus > 0 && Setup(s, cpus, workers, getters) && c < cpus
    requires forall t :: 0 <= t < |s.threads| ==> s.threads[t].pc == Done
    ensures s.cpus[c].adds == s.p.loops * WorkersOn(workers, cpus, c)
    ensures Moved(s.cpus[c]) == Value(Batches(s.p, cpus, workers)[c])
  {
    FinalCpu(s, c);
    ShareIs(s, cpus, workers, getters, c, |s.threads|);
    assert s.threads[..|s.threads|] == s.threads;
  }

  lemma StuckMeansFinished(s: State)
    requires Inv(s) && Stuck(s)
    ensures forall t :: 0 <= t < |s.threads| ==> s.threads[t].pc == Done
  {
    forall t | 0 <= t < |s.threads|
      ensures s.threads[t].pc == Done
    {
      if s.threads[t].pc != Done {
        var u := Progress(s, t);
      }
    }
  }

  lemma InitSetup(p: Program, cpus: nat, workers: nat, getters: nat)
    requires cpus > 0
    ensures Setup(Init(p, cpus, workers, getters), cpus, workers, getters)
    ensures Total(Remaining(p.loops), Init(p, cpus, workers, getters).threads) <= 10 * p.loops * (workers + getters)
  {
    var ts := Init(p, cpus, workers, getters).threads;
    forall t | 0 <= t < |ts|
      ensures ts[t] == Fresh(p, cpus, t, t < workers) && Remaining(p.loops)(ts[t]) <= 10 * p.loops
    {
    }
    TotalAtMost(Remaining(p.loops), ts, 10 * p.loops);
  }

  // Every thread has all its turns before it.
  predicate AtStart(s: State) {
    forall t {:trigger s.threads[t]} :: 0 <= t < |s.threads| ==>
      s.threads[t].i == 0 && (s.threads[t].pc == Done <==> s.p.loops == 0)
  }

  lemma InitAtStart(p: Program, cpus: nat, workers: nat, getters: nat)
    requires cpus > 0
    ensures AtStart(Init(p, cpus, workers, getters))
  {
    var s := Init(p, cpus, workers, getters);
    forall t | 0 <= t < |s.threads|
      ensures s.threads[t].i == 0 && (s.threads[t].pc == Done <==> s.p.loops == 0)
    {
      assert s.threads[t] == Fresh(p, cpus, t, t < workers);
    }
  }

  lemma FinalState(s: State, cpus: nat, workers: nat, getters: nat)
    requires Inv(s) && cpus > 0 && Setup(s, cpus, workers, getters) && Stuck(s)
    ensures forall t :: 0 <= t < |s.threads| ==> s.threads[t].pc == Done && s.threads[t].i == s.p.loops
    ensures forall c :: 0 <= c < cpus ==> s.cpus[c].adds == s.p.loops * WorkersOn(workers, cpus, c)
    ensures s.g.value == Total(Value, Batches(s.p, cpus, workers))
  {
    StuckMeansFinished(s);
    var batches: seq<nat> := Batches(s.p, cpus, workers);
    forall c | 0 <= c < cpus
      ensures s.cpus[c].adds == s.p.loops * WorkersOn(workers, cpus, c) && Moved(s.cpus[c]) == Value(batches[c])
    {
      FinalAdds(s, cpus, workers, getters, c);
    }
    TotalNoMore(Moved, s.cpus, Value, batches);
    TotalNoMore(Value, batches, Moved, s.cpus);
  }

  lemma SetupStays(s: State, s': State, cpus: nat, workers: nat, getters: nat)
    requires cpus > 0 && SameSetup(s, s') && Setup(s, cpus, workers, getters)
    ensures Setup(s', cpus, workers, getters)
  {
  }

  /** For any threshold > 0 and any numbers of cpus, threads and loops: worker `t` works on
      cpu `t % cpus`, every run ends, all threads finish all their loops, each cpu has
      counted the updates of its workers, and the global value is the sum of the full
      batches of every cpu. */
  lemma FinalValue(p: Program, cpus: nat, workers: nat, getters: nat, schedule: seq<nat>, s: State)
    requires p.threshold > 0 && cpus > 0 && Run(Init(p, cpus, workers, getters), schedule, s)
    ensures |schedule| <= 10 * p.loops * (workers + getters)
    ensures Setup(s, cpus, workers, getters)
    ensures Stuck(s) ==>
      && (forall t :: 0 <= t < |s.threads| ==> s.threads[t].pc == Done && s.threads[t].i == p.loops)
      && (forall c :: 0 <= c < cpus ==> s.cpus[c].adds == p.loops * WorkersOn(workers, cpus, c))
      && s.g.value == Total(Value, Batches(p, cpus, workers))
  {
    var init := Init(p, cpus, workers, getters);
    InitInv(p, cpus, workers, getters);
    InitSetup(p, cpus, workers, getters);
    RunInv(init, schedule, s);
    SetupStays(init, s, cpus, workers, getters);
    if Stuck(s) {
      FinalState(s, cpus, workers, getters);
    }
  }

  // ------------------------------------------------------------------ in place

  /** counter_t and its threads, one line of one thread at a time. */
  class Counter {
    const p: Program
    var global: nat
    var glock: nat
    var local: array<nat>
    var llock: array<nat>
    ghost var adds: seq<nat>
    ghost var moved: seq<nat>
    var threads: seq<Thread>

    ghost predicate Shape()
      reads this
    {
      local != llock && llock.Length == local.Length == |adds| == |moved|
    }

    ghost function CpuNow(c: nat): Cpu
      requires Shape() && c < local.Length
      reads this, local, llock
    {
      Cpu(local[c], llock[c], adds[c], moved[c])
    }

    ghost function Snapshot(): State
      requires Shape()
      reads this, local, llock
    {
      State(p, Global(global, glock),
        seq(local.Length, c requires Shape() && 0 <= c < local.Length reads this, local, llock => CpuNow(c)), threads)
    }

    ghost predicate Valid()
      reads this, local, llock
    {
      Shape() && Inv(Snapshot())
    }

    // init, and the threads that main creates.
    constructor (p: Program, cpus: nat, workers: nat, getters: nat)
      requires p.threshold > 0 && cpus > 0
      ensures Valid() && fresh(local) && fresh(llock) && Snapshot() == Init(p, cpus, workers, getters)
      ensures Setup(Snapshot(), cpus, workers, getters) && global == 0
      ensures AtStart(Snapshot())
      ensures forall c :: 0 <= c < cpus ==> local[c] == 0
    {
      this.p := p;
      global, glock := 0, 1;
      local := new nat[cpus](_ => 0);
      llock := new nat[cpus](_ => 1);
      adds, moved := seq(cpus, _ => 0), seq(cpus, _ => 0);
      threads := seq(workers + getters, t requires 0 <= t < workers + getters => Fresh(p, cpus, t, t < workers));
      new;
      InitInv(p, cpus, workers, getters);
      InitSetup(p, cpus, workers, getters);
      InitAtStart(p, cpus, workers, getters);
      assert Snapshot() == Init(p, cpus, workers, getters);
    }

    // The line of thread `t`, apart from its program counter and registers.
    method Line(t: nat)
      requires Shape() && t < |threads| && threads[t].cpu < local.Length
      requires Ready(Global(global, glock), CpuNow(threads[t].cpu), threads[t])
      modifies this`global, this`glock, this`adds, this`moved, local, llock
      ensures Shape()
      ensures Global(global, glock) == GlobalEffect(old(Global(global, glock)), old(CpuNow(threads[t].cpu)), threads[t])
      ensures CpuNow(threads[t].cpu) == CpuEffect(old(Global(global, glock)), old(CpuNow(threads[t].cpu)), threads[t])
      ensures forall c :: 0 <= c < local.Length && c != threads[t].cpu ==> CpuNow(c) == old(CpuNow(c))
    {
      var th := threads[t];
      var c := th.cpu;
      match th.pc {
        case LockLocal => llock[c] := llock[c] - 1;
        case AddStore => local[c] := th.reg + 1; adds := adds[c := adds[c] + 1];
        case LockGlobal | GetLock => glock := glock - 1;
        case FlushStore => global := th.reg + local[c]; moved := moved[c := moved[c] + local[c]];
        case UnlockGlobal | GetUnlock => glock := glock + 1;
        case Zero => local[c] := 0;
        case UnlockLocal => llock[c] := llock[c] + 1;
        case AddLoad | Test | FlushLoad | GetRead =>
      }
    }

    /** Thread `t` executes its next line. */
    method Execute(t: nat)
      requires Valid() && Enabled(Snapshot(), t)
      modifies this, local, llock
      ensures Valid() && local == old(local) && llock == old(llock)
      ensures Snapshot() == Step(old(Snapshot()), t)
    {
      ghost var before := Snapshot();
      StepInv(before, t);
      var th := threads[t];
      ghost var g, c := before.g, before.cpus[th.cpu];
      var th' := match th.pc
        case LockLocal => th.(pc := AddLoad)
        case AddLoad => th.(pc := AddStore, reg := local[th.cpu])
        case AddStore => th.(pc := Test)
        case Test => th.(pc := if local[th.cpu] >= p.threshold then LockGlobal else UnlockLocal)
        case LockGlobal => th.(pc := FlushLoad)
        case FlushLoad => th.(pc := FlushStore, reg := global)
        case FlushStore => th.(pc := UnlockGlobal)
        case UnlockGlobal => th.(pc := Zero)
        case Zero => th.(pc := UnlockLocal)
        case GetLock => th.(pc := GetRead)
        case GetRead => th.(pc := GetUnlock, val := global)
        case _ => NextIteration(p, th);
      assert th' == Advance(p, g, c, th);
      Line(t);
      threads := threads[t := th'];
      assert Snapshot().cpus == Step(before, t).cpus;
    }
  }
}
