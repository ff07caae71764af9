/** A semaphore built from a mutex and a condition variable. Any number of threads
    run arbitrary programs of zem_wait and zem_post; a thread may barge in before a
    woken one, and a sleeper may wake for no reason. Waking more than one sleeper by
    a signal is a signal followed by such wakeups. */
module Zemaphore {
  import opened Common
  import opened Sums

  datatype Op = Wait | Post

  // The line a thread is about to execute; `Start` is the mutex lock of either call.
  datatype Pc =
    | Start
    | WTest | WCondWait | Asleep | Woken | WDec | WUnlock   // zem_wait
    | PInc | PSignal | PUnlock                              // zem_post

  // `woken`: has this call of zem_wait slept? `posts` and `takes` count what the thread has done.
  datatype Thread = Thread(prog: seq<Op>, ip: nat, pc: Pc, woken: bool, posts: nat, takes: nat)

  datatype Shared = Shared(value: int, lock: nat)   // `lock` is 1 when the mutex is free

  datatype State = State(sh: Shared, threads: seq<Thread>)

  predicate Unfinished(th: Thread) { th.ip < |th.prog| }

  // A sleeper is always ready: that step is a spurious wakeup.
  predicate Ready(sh: Shared, th: Thread) {
    Unfinished(th) && (th.pc == Start || th.pc == Woken ==> sh.lock > 0)
  }

  function Return(th: Thread): Thread { th.(pc := Start, ip := th.ip + 1, woken := false) }

  function Wake(th: Thread): Thread { th.(pc := Woken, woken := true) }

  function Advance(sh: Shared, th: Thread): Thread
    requires Ready(sh, th)
  {
    match th.pc
    case Start => th.(pc := if th.prog[th.ip] == Wait then WTest else PInc)
    case WTest => th.(pc := if sh.value <= 0 then WCondWait else WDec)
    case WCondWait => th.(pc := Asleep)
    case Asleep => Wake(th)
    case Woken => th.(pc := WTest)
    case WDec => th.(pc := WUnlock, takes := th.takes + 1)
    case PInc => th.(pc := PSignal, posts := th.posts + 1)
    case PSignal => th.(pc := PUnlock)
    case WUnlock | PUnlock => Return(th)
  }

  function Effect(sh: Shared, th: Thread): Shared
    requires Ready(sh, th)
  {
    match th.pc
    case Start | Woken => sh.(lock := sh.lock - 1)
    case WCondWait | WUnlock | PUnlock => sh.(lock := sh.lock + 1)
    case WDec => sh.(value := sh.value - 1)
    case PInc => sh.(value := sh.value + 1)
    case _ => sh
  }

  predicate Sleeps(s: State, w: nat) { w < |s.threads| && s.threads[w].pc == Asleep }

  /** Can thread `t` take a step? `w` is the thread that a signal would wake, if any sleeps. */
  ghost predicate Enabled(s: State, t: nat, w: nat) {
    && t < |s.threads| && Ready(s.sh, s.threads[t])
    && (s.threads[t].pc == PSignal ==> Sleeps(s, w) || forall u :: !Sleeps(s, u))
  }

  function Step(s: State, t: nat, w: nat): State
    requires Enabled(s, t, w)
  {
    var th := s.threads[t];
    var ts := s.threads[t := Advance(s.sh, th)];
    State(Effect(s.sh, th), if th.pc == PSignal && Sleeps(s, w) then ts[w := Wake(s.threads[w])] else ts)
  }

  function Init(value: int, progs: seq<seq<Op>>): State {
    State(Shared(value, 1), seq(|progs|, t requires 0 <= t < |progs| => Thread(progs[t], 0, Start, false, 0, 0)))
  }

  // ------------------------------------------------------------------ the invariant

  function HoldsLock(th: Thread): nat {
    match th.pc
    case WTest | WCondWait | WDec | WUnlock | PInc | PSignal | PUnlock => 1
    case _ => 0
  }

  function Sleeping(th: Thread): nat { if th.pc == Asleep then 1 else 0 }

  // A waiter that has been woken and has neither been served nor gone back to sleep.
  function Unserved(th: Thread): nat {
    if th.pc == Woken || (th.woken && (th.pc == WTest || th.pc == WCondWait || th.pc == WDec)) then 1 else 0
  }

  // The value has been incremented, the signal is still to come.
  function Signalling(th: Thread): nat { if th.pc == PSignal then 1 else 0 }

  function Posts(th: Thread): nat { th.posts }
  function Takes(th: Thread): nat { th.takes }

  datatype Counts = Counts(lock: nat, asleep: nat, unserved: nat, signals: nat, posts: nat, takes: nat)

  function CountsOf(ts: seq<Thread>): Counts {
    Counts(Total(HoldsLock, ts), Total(Sleeping, ts), Total(Unserved, ts),
           Total(Signalling, ts), Total(Posts, ts), Total(Takes, ts))
  }

  predicate ThreadOk(sh: Shared, th: Thread) {
    && (th.pc != Start ==> Unfinished(th))
    && match th.pc
       case Start => !th.woken
       case WTest | Asleep | WUnlock => th.prog[th.ip] == Wait
       case Woken => th.prog[th.ip] == Wait && th.woken
       case WCondWait => th.prog[th.ip] == Wait && sh.value <= 0
       case WDec => th.prog[th.ip] == Wait && sh.value > 0
       case _ => th.prog[th.ip] == Post
  }

  predicate CountsOk(init: int, sh: Shared, c: Counts) {
    && sh.lock + c.lock == 1
    && sh.value == init + c.posts - c.takes
    && (init >= 0 ==> sh.value >= 0)
    // no lost wakeup
    && (c.asleep > 0 ==> sh.value <= c.unserved + c.signals)
  }

  predicate Inv(init: int, s: State) {
    && (forall t {:trigger ThreadOk(s.sh, s.threads[t])} :: 0 <= t < |s.threads| ==> ThreadOk(s.sh, s.threads[t]))
    && CountsOk(init, s.sh, CountsOf(s.threads))
  }

  lemma InitInv(value: int, progs: seq<seq<Op>>)
    ensures Inv(value, Init(value, progs))
  {
    var ts := Init(value, progs).threads;
    TotalZero(HoldsLock, ts);
    TotalZero(Sleeping, ts);
    TotalZero(Posts, ts);
    TotalZero(Takes, ts);
  }

  predicate Replaced(c: Counts, before: Thread, after: Thread, c': Counts) {
    && c'.lock + HoldsLock(before) == c.lock + HoldsLock(after)
    && c'.asleep + Sleeping(before) == c.asleep + Sleeping(after)
    && c'.unserved + Unserved(before) == c.unserved + Unserved(after)
    && c'.signals + Signalling(before) == c.signals + Signalling(after)
    && c'.posts + before.posts == c.posts + after.posts
    && c'.takes + before.takes == c.takes + after.takes
  }

  lemma CountsAfter(ts: seq<Thread>, t: nat, th: Thread)
    requires t < |ts|
    ensures Replaced(CountsOf(ts), ts[t], th, CountsOf(ts[t := th]))
  {
    TotalUpdate(HoldsLock, ts, t, th);
    TotalUpdate(Sleeping, ts, t, th);
    TotalUpdate(Unserved, ts, t, th);
    TotalUpdate(Signalling, ts, t, th);
    TotalUpdate(Posts, ts, t, th);
    TotalUpdate(Takes, ts, t, th);
  }

  // A line other than a signal that finds a sleeper.
  lemma LocalCounts(init: int, sh: Shared, th: Thread, c: Counts, c': Counts)
    requires Ready(sh, th) && ThreadOk(sh, th) && CountsOk(init, sh, c)
    requires HoldsLock(th) <= c.lock && (th.pc == PSignal ==> c.asleep == 0)
    requires Replaced(c, th, Advance(sh, th), c')
    ensures CountsOk(init, Effect(sh, th), c')
  {
  }

  // A signal that wakes a sleeper.
  lemma SignalCounts(init: int, sh: Shared, th: Thread, sleeper: Thread, c: Counts, c1: Counts, c': Counts)
    requires Ready(sh, th) && CountsOk(init, sh, c) && th.pc == PSignal && sleeper.pc == Asleep && c.asleep > 0
    requires Replaced(c, th, Advance(sh, th), c1) && Replaced(c1, sleeper, Wake(sleeper), c')
    ensures CountsOk(init, Effect(sh, th), c')
  {
  }

  lemma LocalSelf(sh: Shared, th: Thread)
    requires Ready(sh, th) && ThreadOk(sh, th)
    ensures ThreadOk(Effect(sh, th), Advance(sh, th))
  {
  }

  // Only the holder of the mutex changes the value, so what a holder has tested stays true.
  lemma LocalOther(sh: Shared, th: Thread, other: Thread)
    requires Ready(sh, th) && ThreadOk(sh, th) && ThreadOk(sh, other)
    requires HoldsLock(th) + HoldsLock(other) <= 1
    ensures ThreadOk(Effect(sh, th), other)
    ensures other.pc == Asleep ==> ThreadOk(Effect(sh, th), Wake(other))
  {
  }

  lemma StepCounts(init: int, s: State, t: nat, w: nat)
    requires Inv(init, s) && Enabled(s, t, w)
    ensures CountsOk(init, Step(s, t, w).sh, CountsOf(Step(s, t, w).threads))
  {
    var th := s.threads[t];
    var ts1, c := s.threads[t := Advance(s.sh, th)], CountsOf(s.threads);
    assert ThreadOk(s.sh, th);
    CountsAfter(s.threads, t, ts1[t]);
    TotalAtLeast(HoldsLock, s.threads, t);
    if th.pc == PSignal && Sleeps(s, w) {
      TotalAtLeast(Sleeping, s.threads, w);
      CountsAfter(ts1, w, Wake(s.threads[w]));
      SignalCounts(init, s.sh, th, s.threads[w], c, CountsOf(ts1), CountsOf(ts1[w := Wake(s.threads[w])]));
    } else {
      if th.pc == PSignal && c.asleep > 0 {
        var u := PositiveTerm(Sleeping, s.threads);
        assert Sleeps(s, u);
      }
      LocalCounts(init, s.sh, th, c, CountsOf(ts1));
    }
  }

  /** Every step, including barging and spurious wakeups, keeps the invariant: in
      particular, while a thread sleeps the value is covered by woken waiters that
      have not been served and by signals still to come. */
  lemma StepInv(init: int, s: State, t: nat, w: nat)
    requires Inv(init, s) && Enabled(s, t, w)
    ensures Inv(init, Step(s, t, w))
  {
    var s' := Step(s, t, w);
    assert ThreadOk(s.sh, s.threads[t]);
    StepCounts(init, s, t, w);
    LocalSelf(s.sh, s.threads[t]);
    forall u | 0 <= u < |s'.threads|
      ensures ThreadOk(s'.sh, s'.threads[u])
    {
      if u != t {
        TwoTerms(HoldsLock, s.threads, t, u);
        assert ThreadOk(s.sh, s.threads[u]);
        LocalOther(s.sh, s.threads[t], s.threads[u]);
      }
    }
  }

  // ------------------------------------------------------------------ refinement

  /** The step is a step of an atomic counting semaphore: an increment, a decrement
      of a positive value, or nothing. */
  lemma Refines(init: int, s: State, t: nat, w: nat)
    requires Inv(init, s) && Enabled(s, t, w)
    ensures var v, v' := s.sh.value, Step(s, t, w).sh.value;
      match s.threads[t].pc
      case PInc => v' == v + 1
      case WDec => v > 0 && v' == v - 1
      case _ => v' == v
  {
    assert ThreadOk(s.sh, s.threads[t]);
  }

  // ------------------------------------------------------------------ runs

  ghost predicate Run(s: State, schedule: seq<(nat, nat)>, s': State)
    decreases |schedule|
  {
    if schedule == [] then s' == s
    else Enabled(s, schedule[0].0, schedule[0].1) && Run(Step(s, schedule[0].0, schedule[0].1), schedule[1..], s')
  }

  function SpuriousBit(th: Thread): nat { if th.pc == Asleep then 1 else 0 }

  // The number of wakeups along the run that no signal caused.
  ghost function Spurious(s: State, schedule: seq<(nat, nat)>): nat
    decreases |schedule|
  {
    if schedule == [] || !Enabled(s, schedule[0].0, schedule[0].1) then 0
    else SpuriousBit(s.threads[schedule[0].0]) + Spurious(Step(s, schedule[0].0, schedule[0].1), schedule[1..])
  }

  function CallCost(pc: Pc): nat {
    match pc
    case Start => 7 case WTest => 5 case WCondWait => 4 case Asleep => 3 case Woken => 6 case WDec => 2
    case WUnlock => 1 case PInc => 6 case PSignal => 5 case PUnlock => 1
  }

  function Cost(th: Thread): nat {
    if Unfinished(th) then 7 * (|th.prog| - th.ip - 1) + CallCost(th.pc) else 0
  }

  lemma LocalCost(sh: Shared, th: Thread)
    requires Ready(sh, th) && ThreadOk(sh, th)
    ensures Cost(Advance(sh, th)) + 1 <= Cost(th) + 4 * SpuriousBit(th)
    ensures th.pc == PSignal ==> Cost(Advance(sh, th)) + 4 <= Cost(th)
    ensures th.pc == Asleep ==> Cost(Wake(th)) == Cost(th) + 3
  {
  }

  lemma StepCost(init: int, s: State, t: nat, w: nat)
    requires Inv(init, s) && Enabled(s, t, w)
    ensures Total(Cost, Step(s, t, w).threads) + 1 <= Total(Cost, s.threads) + 4 * SpuriousBit(s.threads[t])
  {
    var th := s.threads[t];
    var ts1 := s.threads[t := Advance(s.sh, th)];
    assert ThreadOk(s.sh, th);
    LocalCost(s.sh, th);
    TotalUpdate(Cost, s.threads, t, ts1[t]);
    if th.pc == PSignal && Sleeps(s, w) {
      assert ThreadOk(s.sh, s.threads[w]);
      LocalCost(s.sh, s.threads[w]);
      TotalUpdate(Cost, ts1, w, Wake(s.threads[w]));
    }
  }

  /** A run is as long as the programs allow, plus four steps for every spurious wakeup. */
  lemma {:induction false} RunInv(init: int, s: State, schedule: seq<(nat, nat)>, s': State)
    requires Inv(init, s) && Run(s, schedule, s')
    ensures Inv(init, s')
    ensures |schedule| + Total(Cost, s'.threads) <= Total(Cost, s.threads) + 4 * Spurious(s, schedule)
    decreases |schedule|
  {
    if schedule != [] {
      var t, w := schedule[0].0, schedule[0].1;
      StepInv(init, s, t, w);
      StepCost(init, s, t, w);
      RunInv(init, Step(s, t, w), schedule[1..], s');
    }
  }

  // Nobody can move, spurious wakeups aside.
  ghost predicate Stuck(s: State) {
    forall t: nat, w: nat :: Enabled(s, t, w) ==> s.threads[t].pc == Asleep
  }

  lemma MutexFreeWhenStuck(init: int, s: State)
    requires Inv(init, s) && Stuck(s)
    ensures s.sh.lock == 1 && Total(HoldsLock, s.threads) == 0
  {
    if Total(HoldsLock, s.threads) > 0 {
      var t := PositiveTerm(HoldsLock, s.threads);
      assert ThreadOk(s.sh, s.threads[t]);
      var w: nat := if u: nat :| Sleeps(s, u) then u else 0;
      assert Enabled(s, t, w);
    }
  }

  /** No lost wakeup: when nobody can move, every unfinished thread sleeps in
      zem_wait, and if there is one the value is not positive; with a non-negative
      initial value it is zero, so an atomic semaphore would block the same calls. */
  lemma NoLostWakeup(init: int, progs: seq<seq<Op>>, schedule: seq<(nat, nat)>, s: State)
    requires Run(Init(init, progs), schedule, s) && Stuck(s)
    ensures forall t :: 0 <= t < |s.threads| && Unfinished(s.threads[t]) ==>
      s.threads[t].pc == Asleep && s.sh.value <= 0 && (init >= 0 ==> s.sh.value == 0)
    ensures s.sh.value == init + Total(Posts, s.threads) - Total(Takes, s.threads)
    ensures Histories(s, progs)
  {
    EveryCallMade(init, progs, schedule, s);
    InitInv(init, progs);
    RunInv(init, Init(init, progs), schedule, s);
    MutexFreeWhenStuck(init, s);
    forall t | 0 <= t < |s.threads| && Unfinished(s.threads[t])
      ensures s.threads[t].pc == Asleep && s.sh.value <= 0
    {
      StuckThread(init, s, t);
    }
  }

  lemma StuckThread(init: int, s: State, t: nat)
    requires Inv(init, s) && Stuck(s) && t < |s.threads| && Unfinished(s.threads[t])
    requires s.sh.lock == 1 && Total(HoldsLock, s.threads) == 0
    ensures s.threads[t].pc == Asleep && s.sh.value <= 0
  {
    TotalAtLeast(HoldsLock, s.threads, t);
    if s.threads[t].pc == Start || s.threads[t].pc == Woken {
      assert Enabled(s, t, 0);
    }
    TotalAtLeast(Sleeping, s.threads, t);
    if Total(Unserved, s.threads) > 0 {
      var u := PositiveTerm(Unserved, s.threads);
      TotalAtLeast(HoldsLock, s.threads, u);
      assert ThreadOk(s.sh, s.threads[u]);
      assert Enabled(s, u, 0);
    }
    TotalMonotone(Signalling, HoldsLock, s.threads);
  }

  // ------------------------------------------------------------------ every call is made, once

  /** The thread has made exactly the calls of its program before `ip`, and of the one at
      `ip` what its program counter says. */
  predicate HistoryOk(th: Thread) {
    && th.ip <= |th.prog|
    && th.posts == multiset(th.prog[..th.ip])[Post] + Bit(th.pc == PSignal || th.pc == PUnlock)
    && th.takes == multiset(th.prog[..th.ip])[Wait] + Bit(th.pc == WUnlock)
  }

  predicate Histories(s: State, progs: seq<seq<Op>>) {
    && |s.threads| == |progs|
    && forall t {:trigger s.threads[t]} :: 0 <= t < |progs| ==> s.threads[t].prog == progs[t] && HistoryOk(s.threads[t])
  }

  lemma LocalHistory(sh: Shared, th: Thread)
    requires Ready(sh, th) && ThreadOk(sh, th) && HistoryOk(th)
    ensures Advance(sh, th).prog == th.prog && HistoryOk(Advance(sh, th))
  {
    assert th.prog[..th.ip + 1] == th.prog[..th.ip] + [th.prog[th.ip]];
  }

  lemma WakeHistory(th: Thread)
    requires th.pc == Asleep && HistoryOk(th)
    ensures Wake(th).prog == th.prog && HistoryOk(Wake(th))
  {
  }

  lemma StepHistory(init: int, s: State, t: nat, w: nat, progs: seq<seq<Op>>)
    requires Inv(init, s) && Enabled(s, t, w) && Histories(s, progs)
    ensures Histories(Step(s, t, w), progs)
  {
    var th, s' := s.threads[t], Step(s, t, w);
    assert ThreadOk(s.sh, th);
    LocalHistory(s.sh, th);
    if th.pc == PSignal && Sleeps(s, w) {
      WakeHistory(s.threads[w]);
    }
    forall u | 0 <= u < |progs|
      ensures s'.threads[u].prog == progs[u] && HistoryOk(s'.threads[u])
    {
      assert s.threads[u].prog == progs[u] && HistoryOk(s.threads[u]);
    }
  }

  lemma {:induction false} RunHistory(init: int, s: State, schedule: seq<(nat, nat)>, s': State, progs: seq<seq<Op>>)
    requires Inv(init, s) && Run(s, schedule, s') && Histories(s, progs)
    ensures Histories(s', progs)
    decreases |schedule|
  {
    if schedule != [] {
      var t, w := schedule[0].0, schedule[0].1;
      StepInv(init, s, t, w);
      StepHistory(init, s, t, w, progs);
      RunHistory(init, Step(s, t, w), schedule[1..], s', progs);
    }
  }

  // How often a program calls zem_wait or zem_post.
  function CallsTo(op: Op): seq<Op> -> nat { (prog: seq<Op>) => multiset(prog)[op] }

  /** In every reachable state each thread stands in its own program and has made exactly
      the calls before that place; when all have finished, the value is the initial one
      plus all zem_post calls of the programs minus all their zem_wait calls. */
  lemma EveryCallMade(init: int, progs: seq<seq<Op>>, schedule: seq<(nat, nat)>, s: State)
    requires Run(Init(init, progs), schedule, s)
    ensures Histories(s, progs)
    ensures (forall t :: 0 <= t < |s.threads| ==> !Unfinished(s.threads[t])) ==>
      s.sh.value == init + Total(CallsTo(Post), progs) - Total(CallsTo(Wait), progs)
  {
    InitInv(init, progs);
    RunInv(init, Init(init, progs), schedule, s);
    RunHistory(init, Init(init, progs), schedule, s, progs);
    if forall t :: 0 <= t < |s.threads| ==> !Unfinished(s.threads[t]) {
      FinishedCounts(init, s, progs);
    }
  }

  lemma FinishedCounts(init: int, s: State, progs: seq<seq<Op>>)
    requires Inv(init, s) && Histories(s, progs)
    requires forall t :: 0 <= t < |s.threads| ==> !Unfinished(s.threads[t])
    ensures Total(Posts, s.threads) == Total(CallsTo(Post), progs)
    ensures Total(Takes, s.threads) == Total(CallsTo(Wait), progs)
  {
    forall t | 0 <= t < |progs|
      ensures Posts(s.threads[t]) == CallsTo(Post)(progs[t]) && Takes(s.threads[t]) == CallsTo(Wait)(progs[t])
    {
      assert ThreadOk(s.sh, s.threads[t]);
      assert progs[t][..s.threads[t].ip] == progs[t];
    }
    TotalNoMore(Posts, s.threads, CallsTo(Post), progs);
    TotalNoMore(CallsTo(Post), progs, Posts, s.threads);
    TotalNoMore(Takes, s.threads, CallsTo(Wait), progs);
    TotalNoMore(CallsTo(Wait), progs, Takes, s.threads);
  }

  /** A sleeper may wake at any moment without a signal, and any caller may take a free
      mutex before a woken waiter does. */
  lemma AnybodyMayMove(init: int, s: State, t: nat, w: nat)
    requires Inv(init, s) && t < |s.threads| && Unfinished(s.threads[t])
    ensures s.threads[t].pc == Asleep ==> Enabled(s, t, w) && Step(s, t, w).threads[t].pc == Woken
    ensures s.sh.lock == 1 && (s.threads[t].pc == Start || s.threads[t].pc == Woken) ==>
      Enabled(s, t, w) && Step(s, t, w).sh.lock == 0
  {
    assert ThreadOk(s.sh, s.threads[t]);
  }

  // ------------------------------------------------------------------ in place

  /** zem_t and the threads that use it, one line of one thread at a time. */
  class Zem {
    ghost const init: int
    var value: int
    var lock: nat
    var threads: seq<Thread>

    function Snapshot(): State
      reads this
    {
      State(Shared(value, lock), threads)
    }

    ghost predicate Valid()
      reads this
    {
      Inv(init, Snapshot())
    }

    constructor (value: int, progs: seq<seq<Op>>)
      ensures Valid() && init == value && Snapshot() == Init(value, progs)
    {
      init := value;
      this.value, lock := value, 1;
      threads := seq(|progs|, t requires 0 <= t < |progs| => Thread(progs[t], 0, Start, false, 0, 0));
      InitInv(value, progs);
    }

    method Goto(t: nat, pc: Pc)
      requires t < |threads|
      modifies this`threads
      ensures threads == old(threads)[t := old(threads)[t].(pc := pc)]
    {
      threads := threads[t := threads[t].(pc := pc)];
    }

    method Line(t: nat)
      requires t < |threads| && Ready(Shared(value, lock), threads[t])
      modifies this
      ensures Shared(value, lock) == Effect(old(Shared(value, lock)), old(threads)[t])
      ensures threads == old(threads)[t := Advance(old(Shared(value, lock)), old(threads)[t])]
    {
      var th := threads[t];
      match th.pc {
        case Start => lock := lock - 1; Goto(t, if th.prog[th.ip] == Wait then WTest else PInc);
        case WTest => Goto(t, if value <= 0 then WCondWait else WDec);
        case WCondWait => lock := lock + 1; Goto(t, Asleep);
        case Asleep => threads := threads[t := Wake(th)];
        case Woken => lock := lock - 1; Goto(t, WTest);
        case WDec => value := value - 1; threads := threads[t := th.(pc := WUnlock, takes := th.takes + 1)];
        case PInc => value := value + 1; threads := threads[t := th.(pc := PSignal, posts := th.posts + 1)];
        case PSignal => Goto(t, PUnlock);
        case WUnlock | PUnlock => lock := lock + 1; threads := threads[t := Return(th)];
      }
    }

    /** Thread `t` executes its next line; a signal wakes `w`. */
    method Execute(t: nat, w: nat)
      requires Valid() && Enabled(Snapshot(), t, w)
      modifies this
      ensures Valid() && Snapshot() == Step(old(Snapshot()), t, w)
    {
      StepInv(init, Snapshot(), t, w);
      var signal := threads[t].pc == PSignal && w < |threads| && threads[w].pc == Asleep;
      Line(t);
      if signal {
        threads := threads[w := Wake(threads[w])];
      }
    }
  }
}
