/** The barrier: `n` threads call it once each, as main does. The initial value of
    `sem` is a parameter, because the first round leaves it different from the value
    that it found. */
module Barrier {
  import opened Common
  import opened Sums

  datatype Pc =
    | Lock | IncLoad | IncStore | Test
    | Post | Reset | UnlockLast    // the thread that finds the threshold reached
    | Unlock | Wait                // the others
    | Done

  // `posted` is the loop counter `i`; `last` says which branch the thread took.
  datatype Thread = Thread(pc: Pc, reg: int, last: bool, posted: nat)

  datatype Shared = Shared(sem: nat, lock: nat, waiters: int)

  datatype State = State(threshold: nat, sh: Shared, threads: seq<Thread>)

  predicate Ready(sh: Shared, th: Thread) {
    match th.pc
    case Lock => sh.lock > 0
    case Wait => sh.sem > 0
    case Done => false
    case _ => true
  }

  function Advance(threshold: nat, sh: Shared, th: Thread): Thread {
    match th.pc
    case Lock => th.(pc := IncLoad)
    case IncLoad => th.(pc := IncStore, reg := sh.waiters)
    case IncStore => th.(pc := Test, reg := th.reg + 1)
    case Test => if sh.waiters == threshold then th.(pc := Post, last := true, posted := 0) else th.(pc := Unlock)
    case Post => if th.posted < threshold then th.(posted := th.posted + 1) else th.(pc := Reset)
    case Reset => th.(pc := UnlockLast)
    case Unlock => th.(pc := Wait)
    case UnlockLast | Wait | Done => th.(pc := Done)
  }

  function Effect(threshold: nat, sh: Shared, th: Thread): Shared
    requires Ready(sh, th)
  {
    match th.pc
    case Lock => sh.(lock := sh.lock - 1)
    case IncStore => sh.(waiters := th.reg + 1)
    case Post => if th.posted < threshold then sh.(sem := sh.sem + 1) else sh
    case Reset => sh.(waiters := 0)
    case UnlockLast | Unlock => sh.(lock := sh.lock + 1)
    case Wait => sh.(sem := sh.sem - 1)
    case _ => sh
  }

  predicate Enabled(s: State, t: nat) {
    t < |s.threads| && Ready(s.sh, s.threads[t])
  }

  function Step(s: State, t: nat): State
    requires Enabled(s, t)
  {
    var th := s.threads[t];
    s.(sh := Effect(s.threshold, s.sh, th), threads := s.threads[t := Advance(s.threshold, s.sh, th)])
  }

  const AtBarrier: Thread := Thread(Lock, 0, false, 0)

  // barrier_init with `n` threads; `sem` is 0 there.
  function Init(n: nat, sem: nat): State {
    State(n, Shared(sem, 1, 0), seq(n, _ => AtBarrier))
  }

  predicate Run(s: State, schedule: seq<nat>, s': State)
    decreases |schedule|
  {
    if schedule == [] then s' == s
    else Enabled(s, schedule[0]) && Run(Step(s, schedule[0]), schedule[1..], s')
  }

  ghost predicate Stuck(s: State) { forall t :: !Enabled(s, t) }

  // ------------------------------------------------------------------ the invariant

  function HoldsLock(th: Thread): nat {
    match th.pc
    case IncLoad | IncStore | Test | Post | Reset | UnlockLast | Unlock => 1
    case _ => 0
  }

  // Has the thread incremented `waiters`?
  function Arrived(th: Thread): nat {
    match th.pc
    case Lock | IncLoad | IncStore => 0
    case _ => 1
  }

  function IsLast(th: Thread): nat { Bit(th.last) }
  function HasReset(th: Thread): nat { Bit(th.last && (th.pc == UnlockLast || th.pc == Done)) }
  function Posting(th: Thread): nat { Bit(th.pc == Post || th.pc == Reset) }
  function Testing(th: Thread): nat { Bit(th.pc == Test) }
  function Released(th: Thread): nat { Bit(th.pc == Done && !th.last) }
  function PostedBy(th: Thread): nat { th.posted }

  datatype Counts = Counts(lock: nat, arrived: nat, last: nat, reset: nat, posting: nat,
                           testing: nat, released: nat, posted: nat)

  function CountsOf(ts: seq<Thread>): Counts {
    Counts(Total(HoldsLock, ts), Total(Arrived, ts), Total(IsLast, ts), Total(HasReset, ts), Total(Posting, ts),
           Total(Testing, ts), Total(Released, ts), Total(PostedBy, ts))
  }

  predicate ThreadOk(n: nat, sh: Shared, th: Thread) {
    match th.pc
    case Lock | IncLoad | Unlock | Wait => !th.last && th.posted == 0
    case IncStore | Test => !th.last && th.posted == 0 && th.reg == sh.waiters
    case Post => th.last && th.posted <= n
    case Reset | UnlockLast => th.last && th.posted == n
    case Done => th.posted == if th.last then n else 0
  }

  predicate CountsOk(n: nat, sem: nat, sh: Shared, c: Counts) {
    && sh.lock + c.lock == 1
    && sh.sem + c.released == sem + c.posted
    && c.arrived <= n
    && c.last == c.reset + c.posting <= 1 && c.testing <= c.lock
    && (c.last > 0 ==> c.arrived == n)
    && (c.arrived == n ==> c.last > 0 || c.testing > 0)
    && sh.waiters == (if c.reset > 0 then 0 else c.arrived)
  }

  predicate Inv(sem: nat, s: State) {
    && s.threshold == |s.threads| > 0
    && (forall t {:trigger ThreadOk(s.threshold, s.sh, s.threads[t])} :: 0 <= t < |s.threads| ==>
          ThreadOk(s.threshold, s.sh, s.threads[t]))
    && CountsOk(s.threshold, sem, s.sh, CountsOf(s.threads))
  }

  lemma InitInv(n: nat, sem: nat)
    requires n > 0
    ensures Inv(sem, Init(n, sem))
  {
    var ts := Init(n, sem).threads;
    TotalZero(HoldsLock, ts);
    TotalZero(Arrived, ts);
    TotalZero(IsLast, ts);
    TotalZero(HasReset, ts);
    TotalZero(Posting, ts);
    TotalZero(Testing, ts);
    TotalZero(Released, ts);
    TotalZero(PostedBy, ts);
  }

  predicate Replaced(c: Counts, before: Thread, after: Thread, c': Counts) {
    && c'.lock + HoldsLock(before) == c.lock + HoldsLock(after)
    && c'.arrived + Arrived(before) == c.arrived + Arrived(after)
    && c'.last + IsLast(before) == c.last + IsLast(after)
    && c'.reset + HasReset(before) == c.reset + HasReset(after)
    && c'.posting + Posting(before) == c.posting + Posting(after)
    && c'.testing + Testing(before) == c.testing + Testing(after)
    && c'.released + Released(before) == c.released + Released(after)
    && c'.posted + before.posted == c.posted + after.posted
  }

  lemma CountsAfter(ts: seq<Thread>, t: nat, th: Thread)
    requires t < |ts|
    ensures Replaced(CountsOf(ts), ts[t], th, CountsOf(ts[t := th]))
  {
    TotalUpdate(HoldsLock, ts, t, th);
    TotalUpdate(Arrived, ts, t, th);
    TotalUpdate(IsLast, ts, t, th);
    TotalUpdate(HasReset, ts, t, th);
    TotalUpdate(Posting, ts, t, th);
    TotalUpdate(Testing, ts, t, th);
    TotalUpdate(Released, ts, t, th);
    TotalUpdate(PostedBy, ts, t, th);
  }

  predicate Contains(n: nat, c: Counts, th: Thread) {
    && HoldsLock(th) <= c.lock && Arrived(th) <= c.arrived <= n - 1 + Arrived(th) && IsLast(th) <= c.last
    && HasReset(th) <= c.reset
    && Posting(th) <= c.posting <= c.lock - HoldsLock(th) + Posting(th)
    && Testing(th) <= c.testing <= c.lock - HoldsLock(th) + Testing(th)
  }

  function One(th: Thread): nat { 1 }

  lemma ContainsThread(ts: seq<Thread>, t: nat)
    requires t < |ts|
    ensures Contains(|ts|, CountsOf(ts), ts[t])
  {
    TotalAtLeast(HoldsLock, ts, t);
    TotalAtLeast(Arrived, ts, t);
    TotalAtLeast(IsLast, ts, t);
    TotalAtLeast(HasReset, ts, t);
    TotalAtLeast(Testing, ts, t);
    TotalConstant(One, ts, 1);
    SlackAt(Arrived, One, ts, t);
    TotalAtLeast(Posting, ts, t);
    SlackAt(Posting, HoldsLock, ts, t);
    SlackAt(Testing, HoldsLock, ts, t);
  }

  lemma LocalCounts(n: nat, sem: nat, sh: Shared, th: Thread, c: Counts, c': Counts)
    requires n > 0 && Ready(sh, th) && ThreadOk(n, sh, th) && CountsOk(n, sem, sh, c) && Contains(n, c, th)
    requires Replaced(c, th, Advance(n, sh, th), c')
    ensures CountsOk(n, sem, Effect(n, sh, th), c')
  {
  }

  lemma LocalThreads(n: nat, sh: Shared, th: Thread, other: Thread)
    requires Ready(sh, th) && ThreadOk(n, sh, th) && ThreadOk(n, sh, other)
    ensures ThreadOk(n, Effect(n, sh, th), Advance(n, sh, th))
    ensures HoldsLock(th) + HoldsLock(other) <= 1 ==> ThreadOk(n, Effect(n, sh, th), other)
  {
  }

  /** Every step keeps the invariant. */
  lemma StepInv(sem: nat, s: State, t: nat)
    requires Inv(sem, s) && Enabled(s, t)
    ensures Inv(sem, Step(s, t))
  {
    var s' := Step(s, t);
    assert ThreadOk(s.threshold, s.sh, s.threads[t]);
    ContainsThread(s.threads, t);
    CountsAfter(s.threads, t, s'.threads[t]);
    LocalCounts(s.threshold, sem, s.sh, s.threads[t], CountsOf(s.threads), CountsOf(s'.threads));
    forall u | 0 <= u < |s'.threads|
      ensures ThreadOk(s'.threshold, s'.sh, s'.threads[u])
    {
      assert ThreadOk(s.threshold, s.sh, s.threads[u]);
      LocalThreads(s.threshold, s.sh, s.threads[t], s.threads[u]);
      if u != t { TwoTerms(HoldsLock, s.threads, t, u); }
    }
  }

  // ------------------------------------------------------------------ single use

  /** Nobody leaves before everybody has come. */
  lemma NobodyEarly(s: State, t: nat, u: nat)
    requires Inv(0, s) && t < |s.threads| && s.threads[t].pc == Done && u < |s.threads|
    ensures Arrived(s.threads[u]) == 1
  {
    TotalAtLeast(IsLast, s.threads, t);
    TotalAtLeast(Released, s.threads, t);
    if Total(IsLast, s.threads) == 0 {
      var v := PositiveTerm(PostedBy, s.threads);
      assert ThreadOk(s.threshold, s.sh, s.threads[v]);
      TotalAtLeast(IsLast, s.threads, v);
    }
    TotalConstant(One, s.threads, 1);
    SlackAt(Arrived, One, s.threads, u);
  }

  // The last thread and the released ones.
  function Gone(th: Thread): nat { Bit(th.last || th.pc == Done) }

  lemma {:induction false} GoneSplits(ts: seq<Thread>)
    ensures Total(Gone, ts) == Total(IsLast, ts) + Total(Released, ts)
  {
    if ts != [] { GoneSplits(ts[1..]); }
  }

  // The posts of the last thread.
  lemma {:induction false} PostsOfLast(ts: seq<Thread>, n: nat, t: nat)
    requires t < |ts| && ts[t].last && Total(IsLast, ts) <= 1
    requires forall u :: 0 <= u < |ts| && !ts[u].last ==> ts[u].posted == 0
    ensures Total(PostedBy, ts) == ts[t].posted
  {
    OthersZero(IsLast, ts, t);
    TotalUpdate(PostedBy, ts, t, AtBarrier);
    TotalZero(PostedBy, ts[t := AtBarrier]);
  }

  // With the lock free, everybody inside or gone and nobody at the test, the last thread has posted for all.
  lemma LastHasPosted(sem: nat, s: State) returns (t: nat)
    requires Inv(sem, s) && s.sh.lock == 1 && Total(Arrived, s.threads) == |s.threads|
    ensures t < |s.threads| && s.threads[t].pc == Done && s.threads[t].last && Total(IsLast, s.threads) == 1
    ensures s.sh.sem + Total(Released, s.threads) == sem + |s.threads|
    ensures s.sh.waiters == 0
  {
    t := PositiveTerm(IsLast, s.threads);
    TotalAtLeast(HoldsLock, s.threads, t);
    assert ThreadOk(s.threshold, s.sh, s.threads[t]);
    forall u | 0 <= u < |s.threads| && !s.threads[u].last
      ensures s.threads[u].posted == 0
    {
      assert ThreadOk(s.threshold, s.sh, s.threads[u]);
    }
    PostsOfLast(s.threads, s.threshold, t);
    TotalAtLeast(HasReset, s.threads, t);
  }

  /** While some thread has not left the barrier, some thread can move. */
  lemma Progress(sem: nat, s: State, t: nat) returns (u: nat)
    requires Inv(sem, s) && t < |s.threads| && s.threads[t].pc != Done
    ensures Enabled(s, u)
  {
    if s.sh.lock == 0 {
      u := PositiveTerm(HoldsLock, s.threads);
    } else if w :| 0 <= w < |s.threads| && s.threads[w].pc == Lock {
      u := w;
    } else {
      forall v | 0 <= v < |s.threads|
        ensures Arrived(s.threads[v]) == 1 && (s.threads[v].pc == Wait || s.threads[v].pc == Done)
      {
        TotalAtLeast(HoldsLock, s.threads, v);
      }
      TotalConstant(Arrived, s.threads, 1);
      var l := LastHasPosted(sem, s);
      assert ThreadOk(s.threshold, s.sh, s.threads[t]);
      GoneSplits(s.threads);
      TotalConstant(One, s.threads, 1);
      SlackAt(Gone, One, s.threads, t);
      u := t;
    }
  }

  lemma Leftover(sem: nat, s: State)
    requires Inv(sem, s) && forall t :: 0 <= t < |s.threads| ==> s.threads[t].pc == Done
    ensures s.sh == Shared(sem + 1, 1, 0)
  {
    TotalZero(HoldsLock, s.threads);
    TotalConstant(Arrived, s.threads, 1);
    var t := LastHasPosted(sem, s);
    GoneSplits(s.threads);
    TotalConstant(Gone, s.threads, 1);
  }

  function Cost(n: nat): Thread -> nat {
    (th: Thread) => match th.pc
      case Lock => n + 10 case IncLoad => n + 9 case IncStore => n + 8 case Test => n + 7
      case Post => if th.posted <= n then n - th.posted + 4 else 4
      case Reset => 3 case UnlockLast => 2 case Unlock => 2 case Wait => 1 case Done => 0
  }

  lemma StepCost(sem: nat, s: State, t: nat)
    requires Inv(sem, s) && Enabled(s, t)
    ensures Total(Cost(s.threshold), Step(s, t).threads) < Total(Cost(s.threshold), s.threads)
  {
    assert ThreadOk(s.threshold, s.sh, s.threads[t]);
    TotalUpdate(Cost(s.threshold), s.threads, t, Step(s, t).threads[t]);
  }

  lemma {:induction false} RunInv(sem: nat, s: State, schedule: seq<nat>, s': State)
    requires Inv(sem, s) && Run(s, schedule, s')
    ensures Inv(sem, s') && |s'.threads| == |s.threads|
    ensures |schedule| + Total(Cost(s.threshold), s'.threads) <= Total(Cost(s.threshold), s.threads)
    decreases |schedule|
  {
    if schedule != [] {
      StepInv(sem, s, schedule[0]);
      StepCost(sem, s, schedule[0]);
      RunInv(sem, Step(s, schedule[0]), schedule[1..], s');
    }
  }

  /** Single use with any number of threads: nobody leaves before all have come, every
      run ends, all threads leave, and one token too many stays in `sem`. */
  lemma SingleUse(n: nat, schedule: seq<nat>, s: State)
    requires n > 0 && Run(Init(n, 0), schedule, s)
    ensures |s.threads| == n && |schedule| <= (n + 10) * n
    ensures (exists t :: 0 <= t < n && s.threads[t].pc == Done) ==>
      forall u :: 0 <= u < n ==> Arrived(s.threads[u]) == 1
    ensures Stuck(s) ==> s.sh == Shared(1, 1, 0) && forall t :: 0 <= t < n ==> s.threads[t].pc == Done
  {
    InitInv(n, 0);
    RunInv(0, Init(n, 0), schedule, s);
    TotalAtMost(Cost(n), Init(n, 0).threads, n + 10);
    if t :| 0 <= t < n && s.threads[t].pc == Done {
      forall u | 0 <= u < n
        ensures Arrived(s.threads[u]) == 1
      {
        NobodyEarly(s, t, u);
      }
    }
    if Stuck(s) {
      StuckMeansDone(0, s);
    }
  }

  lemma StuckMeansDone(sem: nat, s: State)
    requires Inv(sem, s) && Stuck(s)
    ensures forall t :: 0 <= t < |s.threads| ==> s.threads[t].pc == Done
    ensures s.sh == Shared(sem + 1, 1, 0)
  {
    forall t | 0 <= t < |s.threads|
      ensures s.threads[t].pc == Done
    {
      if s.threads[t].pc != Done {
        var u := Progress(sem, s, t);
      }
    }
    Leftover(sem, s);
  }

  // ------------------------------------------------------------------ second use

  // Some thread has left and another has not come.
  predicate LeftEarly(s: State) {
    exists t, u :: 0 <= t < |s.threads| && 0 <= u < |s.threads| &&
      s.threads[t].pc == Done && Arrived(s.threads[u]) == 0
  }

  // Thread 0 after `k` of the six lines by which it goes through alone.
  predicate GoingThrough(s: State, sem: nat, k: nat) {
    && s.threshold == |s.threads| >= 2 && !s.threads[0].last
    && match k
       case 0 => s.threads[0].pc == Lock && s.sh == Shared(sem, 1, 0)
       case 1 => s.threads[0].pc == IncLoad && s.sh == Shared(sem, 0, 0)
       case 2 => s.threads[0].pc == IncStore && s.threads[0].reg == 0 && s.sh == Shared(sem, 0, 0)
       case 3 => s.threads[0].pc == Test && s.sh == Shared(sem, 0, 1)
       case 4 => s.threads[0].pc == Unlock && s.sh == Shared(sem, 0, 1)
       case 5 => s.threads[0].pc == Wait && s.sh == Shared(sem, 1, 1)
       case _ => s.threads[0].pc == Done
  }

  lemma {:induction false} GoesThrough(s: State, sem: nat, k: nat) returns (schedule: seq<nat>, s': State)
    requires sem > 0 && k <= 6 && GoingThrough(s, sem, k)
    ensures Run(s, schedule, s') && |s'.threads| == |s.threads|
    ensures s'.threads[0].pc == Done && s'.threads[1] == s.threads[1]
    decreases 6 - k
  {
    if k == 6 {
      schedule, s' := [], s;
    } else {
      var rest;
      rest, s' := GoesThrough(Step(s, 0), sem, k + 1);
      schedule := [0] + rest;
      assert schedule[1..] == rest;
    }
  }

  // With a token left over, the first thread to come goes straight through.
  lemma EarlyRun(n: nat, sem: nat) returns (schedule: seq<nat>, s: State)
    requires n >= 2 && sem > 0
    ensures Run(Init(n, sem), schedule, s) && LeftEarly(s)
  {
    schedule, s := GoesThrough(Init(n, sem), sem, 0);
    assert s.threads[0].pc == Done && Arrived(s.threads[1]) == 0;
  }

  // Some run lets a thread leave early.
  ghost predicate CanLeak(n: nat, sem: nat) {
    exists schedule, s :: Run(Init(n, sem), schedule, s) && LeftEarly(s)
  }

  lemma SoleThread(sem: nat, schedule: seq<nat>, s: State)
    requires Run(Init(1, sem), schedule, s)
    ensures !LeftEarly(s)
  {
    InitInv(1, sem);
    RunInv(sem, Init(1, sem), schedule, s);
  }

  lemma FirstRoundHolds(n: nat, schedule: seq<nat>, s: State)
    requires n > 0 && Run(Init(n, 0), schedule, s)
    ensures !LeftEarly(s)
  {
    SingleUse(n, schedule, s);
  }

  /** With two threads or more the barrier holds exactly when `sem` starts at zero. */
  lemma HoldsOnlyOnce(n: nat, sem: nat)
    requires n > 0
    ensures CanLeak(n, sem) <==> n >= 2 && sem > 0
  {
    if n >= 2 && sem > 0 {
      var schedule, s := EarlyRun(n, sem);
    } else {
      forall schedule, s | Run(Init(n, sem), schedule, s)
        ensures !LeftEarly(s)
      {
        if n == 1 { SoleThread(sem, schedule, s); } else { FirstRoundHolds(n, schedule, s); }
      }
    }
  }

  // From every reachable state everybody can be brought through.
  lemma {:induction false} Completes(sem: nat, s: State) returns (schedule: seq<nat>, s': State)
    requires Inv(sem, s)
    ensures Run(s, schedule, s') && Inv(sem, s') && s'.threshold == s.threshold
    ensures forall t :: 0 <= t < |s'.threads| ==> s'.threads[t].pc == Done
    decreases Total(Cost(s.threshold), s.threads)
  {
    if t :| 0 <= t < |s.threads| && s.threads[t].pc != Done {
      var u := Progress(sem, s, t);
      StepInv(sem, s, u);
      StepCost(sem, s, u);
      var rest;
      rest, s' := Completes(sem, Step(s, u));
      schedule := [u] + rest;
      assert schedule[1..] == rest;
    } else {
      schedule, s' := [], s;
    }
  }

  // A program in which every thread calls the barrier twice, each when it likes; `again`
  // says which threads have begun their second call.
  datatype Twice = Twice(s: State, again: seq<bool>)

  predicate Recalls(x: Twice, t: nat) {
    t < |x.s.threads| == |x.again| && x.s.threads[t].pc == Done && !x.again[t]
  }

  predicate TwiceEnabled(x: Twice, t: nat) { Recalls(x, t) || Enabled(x.s, t) }

  function TwiceStep(x: Twice, t: nat): Twice
    requires TwiceEnabled(x, t)
  {
    if Recalls(x, t) then Twice(x.s.(threads := x.s.threads[t := AtBarrier]), x.again[t := true])
    else x.(s := Step(x.s, t))
  }

  predicate TwiceRun(x: Twice, schedule: seq<nat>, x': Twice)
    decreases |schedule|
  {
    if schedule == [] then x' == x
    else TwiceEnabled(x, schedule[0]) && TwiceRun(TwiceStep(x, schedule[0]), schedule[1..], x')
  }

  function TwiceInit(n: nat): Twice { Twice(Init(n, 0), seq(n, _ => false)) }

  // Some thread has left the barrier for the second time and another has not come for the second time.
  predicate LeftSecondEarly(x: Twice) {
    |x.again| == |x.s.threads| &&
    exists t, u :: 0 <= t < |x.again| && 0 <= u < |x.again| &&
      x.again[t] && x.s.threads[t].pc == Done && (!x.again[u] || Arrived(x.s.threads[u]) == 0)
  }

  lemma {:induction false} TwiceConcat(x: Twice, a: seq<nat>, mid: Twice, b: seq<nat>, x': Twice)
    requires TwiceRun(x, a, mid) && TwiceRun(mid, b, x')
    ensures TwiceRun(x, a + b, x')
    decreases |a|
  {
    if a == [] {
      assert a + b == b;
    } else {
      assert (a + b)[1..] == a[1..] + b;
      TwiceConcat(TwiceStep(x, a[0]), a[1..], mid, b, x');
    }
  }

  // A run in which nobody begins its second call.
  lemma {:induction false} OneRound(s: State, schedule: seq<nat>, s': State, again: seq<bool>)
    requires Run(s, schedule, s')
    ensures TwiceRun(Twice(s, again), schedule, Twice(s', again))
    decreases |schedule|
  {
    if schedule != [] {
      OneRound(Step(s, schedule[0]), schedule[1..], s', again);
    }
  }

  lemma {:induction false} TwiceShape(x: Twice, schedule: seq<nat>, x': Twice)
    requires TwiceRun(x, schedule, x')
    ensures |x'.s.threads| == |x.s.threads| && |x'.again| == |x.again|
    decreases |schedule|
  {
    if schedule != [] {
      TwiceShape(TwiceStep(x, schedule[0]), schedule[1..], x');
    }
  }

  // Thread 0 begins its second call after everybody has left the first, and goes through.
  lemma SecondRound(n: nat, s1: State) returns (schedule: seq<nat>, x: Twice)
    requires n >= 2 && Inv(0, s1) && s1.threshold == n
    requires forall t :: 0 <= t < |s1.threads| ==> s1.threads[t].pc == Done
    ensures TwiceRun(Twice(s1, seq(n, _ => false)), schedule, x) && LeftSecondEarly(x)
  {
    Leftover(0, s1);
    var x1 := Twice(s1, seq(n, _ => false));
    var x2 := TwiceStep(x1, 0);
    var rest, s := GoesThrough(x2.s, 1, 0);
    OneRound(x2.s, rest, s, x2.again);
    x := Twice(s, x2.again);
    schedule := [0] + rest;
    assert schedule[1..] == rest;
    assert x.again[0] && !x.again[1];
  }

  /** A run from barrier_init in which one of two threads or more gets through its second
      call although another has not begun it. */
  lemma SecondRoundLeaks(n: nat) returns (schedule: seq<nat>, x: Twice)
    requires n >= 2
    ensures TwiceRun(TwiceInit(n), schedule, x) && LeftSecondEarly(x)
  {
    InitInv(n, 0);
    var first, s1 := Completes(0, Init(n, 0));
    OneRound(Init(n, 0), first, s1, seq(n, _ => false));
    var second;
    second, x := SecondRound(n, s1);
    TwiceConcat(TwiceInit(n), first, Twice(s1, seq(n, _ => false)), second, x);
    schedule := first + second;
  }

  ghost predicate CanLeakTwice(n: nat) {
    exists schedule, x :: TwiceRun(TwiceInit(n), schedule, x) && LeftSecondEarly(x)
  }

  /** The barrier cannot be used twice, with any number of threads but one. */
  lemma LeaksTwice(n: nat)
    requires n > 0
    ensures CanLeakTwice(n) <==> n >= 2
  {
    if n >= 2 {
      var schedule, x := SecondRoundLeaks(n);
    } else {
      forall schedule, x | TwiceRun(TwiceInit(n), schedule, x)
        ensures !LeftSecondEarly(x)
      {
        TwiceShape(TwiceInit(n), schedule, x);
      }
    }
  }

  // ------------------------------------------------------------------ in place

  /** barrier_t and its threads, one line of one thread at a time. */
  class Rendezvous {
    const threshold: nat
    ghost const initial: nat
    var sem: nat
    var lock: nat
    var waiters: int
    var threads: seq<Thread>

    function Snapshot(): State
      reads this
    {
      State(threshold, Shared(sem, lock, waiters), threads)
    }

    ghost predicate Valid()
      reads this
    {
      Inv(initial, Snapshot())
    }

    constructor (n: nat)
      requires n > 0
      ensures Valid() && initial == 0 && Snapshot() == Init(n, 0)
    {
      threshold, initial := n, 0;
      sem, lock, waiters := 0, 1, 0;
      threads := seq(n, _ => AtBarrier);
      InitInv(n, 0);
    }

    method Line(t: nat)
      requires t < |threads| && Ready(Shared(sem, lock, waiters), threads[t])
      modifies this
      ensures Shared(sem, lock, waiters) == Effect(threshold, old(Shared(sem, lock, waiters)), old(threads)[t])
      ensures threads == old(threads)[t := Advance(threshold, old(Shared(sem, lock, waiters)), old(threads)[t])]
    {
      var th := threads[t];
      match th.pc {
        case Lock => lock := lock - 1; th := th.(pc := IncLoad);
        case IncLoad => th := th.(pc := IncStore, reg := waiters);
        case IncStore => waiters := th.reg + 1; th := th.(pc := Test, reg := th.reg + 1);
        case Test =>
          th := if waiters == threshold then th.(pc := Post, last := true, posted := 0) else th.(pc := Unlock);
        case Post =>
          if th.posted < threshold {
            sem := sem + 1;
            th := th.(posted := th.posted + 1);
          } else {
            th := th.(pc := Reset);
          }
        case Reset => waiters := 0; th := th.(pc := UnlockLast);
        case Unlock => lock := lock + 1; th := th.(pc := Wait);
        case UnlockLast => lock := lock + 1; th := th.(pc := Done);
        case Wait => sem := sem - 1; th := th.(pc := Done);
      }
      threads := threads[t := th];
    }

    /** Thread `t` executes its next line unless a semaphore blocks it. */
    method Execute(t: nat) returns (moved: bool)
      requires Valid()
      modifies this
      ensures Valid() && moved == Enabled(old(Snapshot()), t)
      ensures Snapshot() == if moved then Step(old(Snapshot()), t) else old(Snapshot())
    {
      moved := t < |threads| && Ready(Shared(sem, lock, waiters), threads[t]);
      if moved {
        StepInv(initial, Snapshot(), t);
        Line(t);
      }
    }
  }
}
