/** What `fair_lock` is for: without it two readers can keep a writer out for ever,
    with it a writer that has reached `writelock` waits for a bounded number of
    steps of the readers inside and nobody overtakes it. */
module Starvation {
  import opened Common
  import opened ReaderWriter
  import opened Sums

  // ------------------------------------------------------------------ with fair_lock

  /** With `fair_lock` a reader's wait for `writelock` never blocks. */
  lemma ReaderNeverBlocks(s: State, t: nat)
    requires Inv(s) && s.p.fair && t < |s.threads| && s.threads[t].pc == RWaitWrite
    ensures s.sh.writeLock == 1 && Enabled(s, t)
  {
    ContainsThread(s, t);
    TotalMonotone(HoldsWrite, HoldsFair, s.threads);
    SlackAt(HoldsWrite, HoldsFair, s.threads, t);
  }

  predicate Waits(s: State, w: nat) { w < |s.threads| && s.threads[w].pc == WWait }

  // The steps a thread can still take before it stands at `fair_lock` again.
  function StepsToFair(th: Thread): nat {
    match th.pc
    case RFair | WFair | WWait | Done => 0
    case _ => Rank(th.pc)
  }

  function StepsInside(s: State): nat { Total(StepsToFair, s.threads) }

  // While `w` waits for `writelock`, all other threads stand before `fair_lock` or are readers that passed it.
  lemma BehindWriter(s: State, w: nat, t: nat)
    requires Inv(s) && s.p.fair && Waits(s, w) && t < |s.threads| && t != w
    ensures HoldsFair(s.threads[t]) == 0 && s.sh.fairLock == 0
    ensures HoldsWrite(s.threads[t]) == 0
  {
    ContainsThread(s, w);
    OthersZero(HoldsFair, s.threads, w);
  }

  // The step of a thread that does not hold `fair_lock` while nobody can take it.
  lemma LocalBehind(p: Program, sh: Shared, th: Thread)
    requires Ready(sh, th) && ThreadOk(p, sh, th) && p.fair && sh.fairLock == 0
    requires HoldsFair(th) == 0 && HoldsWrite(th) == 0
    ensures th.pc != RFair && th.pc != WFair && th.pc != WWait && th.pc != RFirst && th.pc != RWaitWrite
    ensures StepsToFair(Advance(p, sh, th)) < StepsToFair(th)
    ensures Effect(sh, th).writeLock >= sh.writeLock
  {
  }

  /** One step of another thread while writer `w` waits: nobody gets past `fair_lock`
      or into the lock, the readers inside get closer to leaving, and once
      `writelock` is free it stays free for `w`. */
  lemma StepBehindWriter(s: State, w: nat, t: nat)
    requires Inv(s) && s.p.fair && Waits(s, w) && t != w && Enabled(s, t)
    ensures Waits(Step(s, t), w) && Step(s, t).p.fair
    ensures s.threads[t].pc !in {RFair, WFair, WWait} && !EntersRead(s, t)
    ensures StepsInside(Step(s, t)) < StepsInside(s)
    ensures s.sh.writeLock == 1 ==> Step(s, t).sh.writeLock == 1
  {
    BehindWriter(s, w, t);
    LocalBehind(s.p, s.sh, s.threads[t]);
    TotalUpdate(StepsToFair, s.threads, t, Advance(s.p, s.sh, s.threads[t]));
    StepInv(s, t);
  }

  /** While `writelock` is taken some thread other than `w` can take such a step. */
  lemma SomebodyInsideMoves(s: State, w: nat) returns (t: nat)
    requires Inv(s) && s.p.fair && Waits(s, w) && s.sh.writeLock == 0
    ensures t != w && Enabled(s, t)
  {
    if s.sh.readLock == 0 {
      t := PositiveTerm(HoldsRead, s.threads);
      BehindWriter(s, w, t);
    } else {
      t := WriteHolderMoves(s);
    }
  }

  // The number of readers that get in along a run.
  function Entries(s: State, schedule: seq<nat>): nat
    decreases |schedule|
  {
    if schedule == [] || !Enabled(s, schedule[0]) then 0
    else Bit(EntersRead(s, schedule[0])) + Entries(Step(s, schedule[0]), schedule[1..])
  }

  /** No starvation: however the others are scheduled while writer `w` waits at
      `writelock`, no reader gets in, they run out of steps, and when they have, `w` can go. */
  lemma {:induction false} NoStarvation(s: State, w: nat, schedule: seq<nat>, s': State)
    requires Inv(s) && s.p.fair && Waits(s, w) && w !in schedule && Run(s, schedule, s')
    ensures Inv(s') && Waits(s', w) && Entries(s, schedule) == 0
    ensures |schedule| + StepsInside(s') <= StepsInside(s)
    ensures (forall t :: t != w ==> !Enabled(s', t)) ==> Enabled(s', w)
    ensures s.sh.writeLock == 1 ==> s'.sh.writeLock == 1
    decreases |schedule|
  {
    if schedule == [] {
      if s'.sh.writeLock == 0 {
        var t := SomebodyInsideMoves(s', w);
      }
    } else {
      StepBehindWriter(s, w, schedule[0]);
      StepInv(s, schedule[0]);
      NoStarvation(Step(s, schedule[0]), w, schedule[1..], s');
    }
  }

  // A reader that has passed `fair_lock` has at most the seven steps from the read to the end of its loop body.
  lemma WaitIsBounded(s: State, w: nat)
    requires Inv(s) && s.p.fair && Waits(s, w)
    ensures StepsInside(s) <= 7 * |s.threads|
  {
    forall t | 0 <= t < |s.threads|
      ensures StepsToFair(s.threads[t]) <= 7
    {
      if t != w { BehindWriter(s, w, t); }
      assert ThreadOk(s.p, s.sh, s.threads[t]);
    }
    TotalAtMost(StepsToFair, s.threads, 7);
  }

  // ------------------------------------------------------------------ before fair_lock

  predicate StandsBefore(s: State, w: nat) { w < |s.threads| && s.threads[w].pc == WFair }

  /** Along the whole run `w` stands before `fair_lock` and is never scheduled. */
  predicate PassingRun(s: State, w: nat, schedule: seq<nat>, s': State)
    decreases |schedule|
  {
    && StandsBefore(s, w)
    && if schedule == [] then s' == s
       else w != schedule[0] && Enabled(s, schedule[0]) && PassingRun(Step(s, schedule[0]), w, schedule[1..], s')
  }

  predicate PassesFair(th: Thread) { th.pc == RFair || th.pc == WFair }

  // The number of readers and writers that take `fair_lock` along a run.
  function Passes(s: State, schedule: seq<nat>): nat
    decreases |schedule|
  {
    if schedule == [] || !Enabled(s, schedule[0]) then 0
    else Bit(PassesFair(s.threads[schedule[0]])) + Passes(Step(s, schedule[0]), schedule[1..])
  }

  // How often the thread will still take `fair_lock`.
  function CanPass(loops: nat): Thread -> nat {
    (th: Thread) => if th.i >= loops then 0 else loops - th.i - Bit(!PassesFair(th))
  }

  function PassesLeft(s: State): nat { Total(CanPass(s.p.loops), s.threads) }

  lemma LocalPass(p: Program, sh: Shared, th: Thread)
    requires Ready(sh, th) && ThreadOk(p, sh, th) && p.fair
    ensures CanPass(p.loops)(Advance(p, sh, th)) + Bit(PassesFair(th)) == CanPass(p.loops)(th)
  {
  }

  lemma StepPasses(s: State, t: nat)
    requires Inv(s) && s.p.fair && Enabled(s, t)
    ensures PassesLeft(Step(s, t)) + Bit(PassesFair(s.threads[t])) == PassesLeft(s)
  {
    assert ThreadOk(s.p, s.sh, s.threads[t]);
    LocalPass(s.p, s.sh, s.threads[t]);
    TotalUpdate(CanPass(s.p.loops), s.threads, t, Advance(s.p, s.sh, s.threads[t]));
  }

  // What the others have left pays for their passes and still covers what the writer has left.
  lemma {:induction false} RunPasses(s: State, w: nat, schedule: seq<nat>, s': State)
    requires Inv(s) && s.p.fair && PassingRun(s, w, schedule, s')
    ensures w < |s.threads|
    ensures Passes(s, schedule) + CanPass(s.p.loops)(s.threads[w]) <= PassesLeft(s)
    decreases |schedule|
  {
    if schedule == [] {
      TotalAtLeast(CanPass(s.p.loops), s.threads, w);
    } else {
      StepInv(s, schedule[0]);
      StepPasses(s, schedule[0]);
      RunPasses(Step(s, schedule[0]), w, schedule[1..], s');
    }
  }

  // A writer before `fair_lock` leaves the others no more than all their turns.
  lemma OthersPass(ts: seq<Thread>, loops: nat, w: nat)
    requires w < |ts|
    ensures Total(CanPass(loops), ts) <= CanPass(loops)(ts[w]) + loops * (|ts| - 1)
  {
    var most := Thread(WFair, true, 0, 0);
    TotalUpdate(CanPass(loops), ts, w, most);
    TotalAtMost(CanPass(loops), ts[w := most], loops);
    assert loops * |ts| == loops * (|ts| - 1) + loops;
  }

  lemma OtherMoves(s: State, w: nat) returns (t: nat)
    requires Inv(s) && StandsBefore(s, w) && CanPass(s.p.loops)(s.threads[w]) < PassesLeft(s)
    ensures t != w && Enabled(s, t)
  {
    var u := OtherTerm(CanPass(s.p.loops), s.threads, w);
    assert ThreadOk(s.p, s.sh, s.threads[u]);
    t := Progress(s, u);
  }

  /** Others can take `fair_lock` as often as they have left while writer `w` stands before it. */
  lemma {:induction false} PassBy(s: State, w: nat, n: nat) returns (schedule: seq<nat>, s': State)
    requires Inv(s) && StandsBefore(s, w) && n + CanPass(s.p.loops)(s.threads[w]) <= PassesLeft(s)
    ensures PassingRun(s, w, schedule, s') && Passes(s, schedule) == n
    decreases Work(s)
  {
    assert ThreadOk(s.p, s.sh, s.threads[w]);
    if n == 0 {
      schedule, s' := [], s;
    } else {
      var t := OtherMoves(s, w);
      StepInv(s, t);
      StepWork(s, t);
      StepPasses(s, t);
      var rest;
      rest, s' := PassBy(Step(s, t), w, n - Bit(PassesFair(s.threads[t])));
      schedule := [t] + rest;
      assert schedule[1..] == rest;
    }
  }

  /** In some reachable state a writer stands before `fair_lock` and is not scheduled while
      others take it `n` times. */
  ghost predicate CanBePassed(p: Program, numReaders: nat, numWriters: nat, n: nat) {
    exists prefix, start, w: nat, schedule, s' ::
      && Run(Init(p, numReaders, numWriters), prefix, start)
      && PassingRun(start, w, schedule, s') && Passes(start, schedule) == n
  }

  // The same, without the run: `passes` is the number of passes.
  lemma PassingBound(s: State, w: nat, passes: nat, numReaders: nat, numWriters: nat)
    requires Inv(s) && Roles(s, numReaders, numWriters) && StandsBefore(s, w)
    requires passes + CanPass(s.p.loops)(s.threads[w]) <= PassesLeft(s)
    ensures s.p.fair && numWriters >= 1 && s.p.loops >= 1
    ensures passes <= s.p.loops * (numReaders + numWriters - 1)
  {
    assert ThreadOk(s.p, s.sh, s.threads[w]);
    OthersPass(s.threads, s.p.loops, w);
  }

  lemma PassingNeeds(p: Program, numReaders: nat, numWriters: nat, prefix: seq<nat>, start: State,
                     w: nat, schedule: seq<nat>, s': State)
    requires Run(Init(p, numReaders, numWriters), prefix, start) && PassingRun(start, w, schedule, s')
    ensures p.fair && numWriters >= 1 && p.loops >= 1
    ensures Passes(start, schedule) <= p.loops * (numReaders + numWriters - 1)
  {
    ReachableFacts(p, numReaders, numWriters, prefix, start);
    assert ThreadOk(start.p, start.sh, start.threads[w]);
    RunPasses(start, w, schedule, s');
    PassingBound(start, w, Passes(start, schedule), numReaders, numWriters);
  }

  lemma ReachableFacts(p: Program, numReaders: nat, numWriters: nat, prefix: seq<nat>, start: State)
    requires Run(Init(p, numReaders, numWriters), prefix, start)
    ensures Inv(start) && start.p == p && Roles(start, numReaders, numWriters)
  {
    InitialRun(p, numReaders, numWriters, prefix, start);
  }

  lemma FreshPasses(p: Program, ts: seq<Thread>)
    requires AllFresh(p, ts) && p.fair && p.loops >= 1
    ensures Total(CanPass(p.loops), ts) == p.loops * |ts|
  {
    forall t | 0 <= t < |ts|
      ensures CanPass(p.loops)(ts[t]) == p.loops
    {
      assert ts[t] == Fresh(p, ts[t].writer);
    }
    TotalConstant(CanPass(p.loops), ts, p.loops);
  }

  // From a state in which nobody has begun, every number of passes can be reached.
  lemma PassingFrom(init: State, w: nat, others: nat, n: nat) returns (schedule: seq<nat>, s': State)
    requires Inv(init) && AllFresh(init.p, init.threads) && |init.threads| == others + 1
    requires w < |init.threads| && init.threads[w].writer
    requires init.p.fair && init.p.loops >= 1 && n <= init.p.loops * others
    ensures PassingRun(init, w, schedule, s') && Passes(init, schedule) == n
  {
    var loops := init.p.loops;
    FreshPasses(init.p, init.threads);
    assert init.threads[w] == Fresh(init.p, true);
    assert loops * (others + 1) == loops * others + loops;
    schedule, s' := PassBy(init, w, n);
  }

  lemma PassingExists(p: Program, numReaders: nat, numWriters: nat, n: nat)
    requires p.fair && numWriters >= 1 && p.loops >= 1 && n <= p.loops * (numReaders + numWriters - 1)
    ensures CanBePassed(p, numReaders, numWriters, n)
  {
    var init := Init(p, numReaders, numWriters);
    InitInv(p, numReaders, numWriters);
    InitThreads(p, numReaders, numWriters);
    var schedule, s' := PassingFrom(init, numReaders, numReaders + numWriters - 1, n);
    assert Run(init, [], init);
  }

  /** `fair_lock` itself promises no order: while a writer stands before it, the others can
      take it any number of times up to all the turns that they ever have, and no more often. */
  lemma PassedExactly(p: Program, numReaders: nat, numWriters: nat, n: nat)
    ensures CanBePassed(p, numReaders, numWriters, n) <==>
      p.fair && numWriters >= 1 && p.loops >= 1 && n <= p.loops * (numReaders + numWriters - 1)
  {
    if CanBePassed(p, numReaders, numWriters, n) {
      var prefix, start, w: nat, schedule, s' :|
        && Run(Init(p, numReaders, numWriters), prefix, start)
        && PassingRun(start, w, schedule, s') && Passes(start, schedule) == n;
      PassingNeeds(p, numReaders, numWriters, prefix, start, w, schedule, s');
    }
    if p.fair && numWriters >= 1 && p.loops >= 1 && n <= p.loops * (numReaders + numWriters - 1) {
      PassingExists(p, numReaders, numWriters, n);
    }
  }

  // ------------------------------------------------------------------ without fair_lock

  /** Along the whole run `w` stands at `writelock`, is blocked there and is never scheduled. */
  predicate BlockedRun(s: State, w: nat, schedule: seq<nat>, s': State)
    decreases |schedule|
  {
    && Waits(s, w) && s.sh.writeLock == 0
    && if schedule == [] then s' == s
       else w != schedule[0] && Enabled(s, schedule[0]) && BlockedRun(Step(s, schedule[0]), w, schedule[1..], s')
  }

  lemma {:induction false} BlockedConcat(s: State, w: nat, a: seq<nat>, mid: State, b: seq<nat>, s': State)
    requires BlockedRun(s, w, a, mid) && BlockedRun(mid, w, b, s')
    ensures BlockedRun(s, w, a + b, s')
    ensures Entries(s, a + b) == Entries(s, a) + Entries(mid, b)
    decreases |a|
  {
    if a == [] {
      assert a + b == b;
    } else {
      assert (a + b)[1..] == a[1..] + b;
      BlockedConcat(Step(s, a[0]), w, a[1..], mid, b, s');
    }
  }

  lemma OneBlockedStep(s: State, w: nat, t: nat)
    requires Waits(s, w) && s.sh.writeLock == 0 && t != w && Enabled(s, t)
    requires Step(s, t).sh.writeLock == 0
    ensures BlockedRun(s, w, [t], Step(s, t)) && Entries(s, [t]) == Bit(EntersRead(s, t))
  {
    assert [t][1..] == [];
    assert BlockedRun(Step(s, t), w, [], Step(s, t));
    assert Entries(Step(s, t), []) == 0;
  }

  // One more step of `t` at the end of a blocked run.
  lemma Extend(s: State, w: nat, schedule: seq<nat>, mid: State, t: nat)
    requires BlockedRun(s, w, schedule, mid) && t != w && Enabled(mid, t)
    requires Waits(mid, w) && mid.sh.writeLock == 0 && Step(mid, t).sh.writeLock == 0
    ensures BlockedRun(s, w, schedule + [t], Step(mid, t))
    ensures Entries(s, schedule + [t]) == Entries(s, schedule) + Bit(EntersRead(mid, t))
  {
    OneBlockedStep(mid, w, t);
    BlockedConcat(s, w, schedule, mid, [t], Step(mid, t));
  }

  // Only thread `t` has moved, and only the shared variables have changed.
  predicate Alone(s: State, s': State, t: nat) {
    && t < |s.threads| == |s'.threads| && s'.p == s.p
    && s'.threads == s.threads[t := s'.threads[t]] && s'.threads[t].writer == s.threads[t].writer
  }

  // Reader `t` after `k` of the five lines by which it joins the group that owns `writelock`.
  predicate Joining(s: State, s': State, t: nat, k: nat) {
    && Alone(s, s', t) && s'.threads[t].i == s.threads[t].i
    && match k
       case 0 => s'.threads[t].pc == RLock && s'.sh == s.sh
       case 1 => s'.threads[t].pc == RIncLoad && s'.sh == s.sh.(readLock := 0)
       case 2 => s'.threads[t].pc == RIncStore && s'.sh == s.sh.(readLock := 0) && s'.threads[t].reg == s.sh.readers
       case 3 => s'.threads[t].pc == RFirst && s'.sh == s.sh.(readLock := 0, readers := s.sh.readers + 1)
       case 4 => s'.threads[t].pc == RUnlock && s'.sh == s.sh.(readLock := 0, readers := s.sh.readers + 1)
       case _ => s'.threads[t].pc == Reading && s'.sh == s.sh.(readers := s.sh.readers + 1)
  }

  lemma JoinsFurther(s: State, s': State, t: nat, k: nat)
    requires k < 5 && Joining(s, s', t, k) && !s.p.fair && s.sh.readLock == 1 && s.sh.readers >= 1
    ensures Enabled(s', t) && Joining(s, Step(s', t), t, k + 1)
    ensures EntersRead(s', t) <==> k == 3
  {
  }

  lemma {:induction false} JoinLines(s: State, w: nat, t: nat, k: nat) returns (schedule: seq<nat>, s': State)
    requires !s.p.fair && Waits(s, w) && t != w && k <= 5 && Joining(s, s, t, 0)
    requires s.sh.writeLock == 0 && s.sh.readLock == 1 && s.sh.readers >= 1
    ensures BlockedRun(s, w, schedule, s') && Joining(s, s', t, k) && Entries(s, schedule) == Bit(k >= 4)
  {
    if k == 0 {
      schedule, s' := [], s;
    } else {
      var prefix, mid := JoinLines(s, w, t, k - 1);
      JoinsFurther(s, mid, t, k - 1);
      Extend(s, w, prefix, mid, t);
      schedule, s' := prefix + [t], Step(mid, t);
    }
  }

  // Reader `t` runs alone through rwlock_acquire_readlock while the group of readers already owns `writelock`.
  lemma JoinGroup(s: State, w: nat, t: nat) returns (schedule: seq<nat>, s': State)
    requires !s.p.fair && Waits(s, w) && t != w && t < |s.threads|
    requires s.sh.writeLock == 0 && s.sh.readLock == 1 && s.sh.readers >= 1
    requires s.threads[t].pc == RLock
    ensures BlockedRun(s, w, schedule, s') && Entries(s, schedule) == 1
    ensures Alone(s, s', t) && s'.sh == s.sh.(readers := s.sh.readers + 1)
    ensures s'.threads[t].pc == Reading && s'.threads[t].i == s.threads[t].i
  {
    assert s.threads == s.threads[t := s.threads[t]];
    schedule, s' := JoinLines(s, w, t, 5);
  }

  // Reader `t` after `k` of the six lines from its read to the start of its next loop body.
  predicate Leaving(s: State, s': State, t: nat, k: nat) {
    && Alone(s, s', t) && s'.threads[t].i == s.threads[t].i + Bit(k >= 6)
    && match k
       case 0 => s'.threads[t].pc == Reading && s'.sh == s.sh
       case 1 => s'.threads[t].pc == RRelock && s'.sh == s.sh
       case 2 => s'.threads[t].pc == RDecLoad && s'.sh == s.sh.(readLock := 0)
       case 3 => s'.threads[t].pc == RDecStore && s'.sh == s.sh.(readLock := 0) && s'.threads[t].reg == s.sh.readers
       case 4 => s'.threads[t].pc == RLast && s'.sh == s.sh.(readLock := 0, readers := s.sh.readers - 1)
       case 5 => s'.threads[t].pc == RRelUnlock && s'.sh == s.sh.(readLock := 0, readers := s.sh.readers - 1)
       case _ =>
         && s'.threads[t].pc == (if s'.threads[t].i < s.p.loops then RLock else Done)
         && s'.sh == s.sh.(readers := s.sh.readers - 1)
  }

  lemma LeavesFurther(s: State, s': State, t: nat, k: nat)
    requires k < 6 && Leaving(s, s', t, k) && !s.p.fair && s.sh.readLock == 1 && s.sh.readers >= 2
    requires !s.threads[t].writer
    ensures Enabled(s', t) && Leaving(s, Step(s', t), t, k + 1)
    ensures !EntersRead(s', t)
  {
  }

  lemma {:induction false} LeaveLines(s: State, w: nat, t: nat, k: nat) returns (schedule: seq<nat>, s': State)
    requires !s.p.fair && Waits(s, w) && t != w && k <= 6 && Leaving(s, s, t, 0)
    requires s.sh.writeLock == 0 && s.sh.readLock == 1 && s.sh.readers >= 2
    requires !s.threads[t].writer
    ensures BlockedRun(s, w, schedule, s') && Leaving(s, s', t, k) && Entries(s, schedule) == 0
  {
    if k == 0 {
      schedule, s' := [], s;
    } else {
      var prefix, mid := LeaveLines(s, w, t, k - 1);
      LeavesFurther(s, mid, t, k - 1);
      Extend(s, w, prefix, mid, t);
      schedule, s' := prefix + [t], Step(mid, t);
    }
  }

  // Reader `t` runs alone from its read to the start of its next loop body while another reader is inside.
  lemma LeaveGroup(s: State, w: nat, t: nat) returns (schedule: seq<nat>, s': State)
    requires !s.p.fair && Waits(s, w) && t != w && t < |s.threads|
    requires s.sh.writeLock == 0 && s.sh.readLock == 1 && s.sh.readers >= 2
    requires s.threads[t].pc == Reading && !s.threads[t].writer
    ensures BlockedRun(s, w, schedule, s') && Entries(s, schedule) == 0
    ensures Alone(s, s', t) && s'.sh == s.sh.(readers := s.sh.readers - 1)
    ensures s'.threads[t].i == s.threads[t].i + 1
    ensures s'.threads[t].pc == if s'.threads[t].i < s.p.loops then RLock else Done
  {
    assert s.threads == s.threads[t := s.threads[t]];
    schedule, s' := LeaveLines(s, w, t, 6);
  }

  // ------------------------------------------------------------------ how many entries there can be

  // Between the entry and the end of the loop body.
  predicate Entered(th: Thread) {
    match th.pc
    case RUnlock | RUnfair | Reading | RRelock | RDecLoad | RDecStore | RLast | RPostWrite | RRelUnlock => true
    case _ => false
  }

  // How often the thread can still get in as a reader.
  function CanEnter(loops: nat): Thread -> nat {
    (th: Thread) => if th.writer || th.i >= loops then 0 else loops - th.i - Bit(Entered(th))
  }

  function EntriesLeft(s: State): nat { Total(CanEnter(s.p.loops), s.threads) }

  lemma LocalEntry(p: Program, sh: Shared, th: Thread)
    requires Ready(sh, th) && ThreadOk(p, sh, th)
    ensures CanEnter(p.loops)(Advance(p, sh, th)) + Bit(th.pc == RWaitWrite || (th.pc == RFirst && sh.readers != 1)) ==
      CanEnter(p.loops)(th)
  {
  }

  lemma StepEntries(s: State, t: nat)
    requires Inv(s) && Enabled(s, t)
    ensures EntriesLeft(Step(s, t)) + Bit(EntersRead(s, t)) == EntriesLeft(s)
  {
    assert ThreadOk(s.p, s.sh, s.threads[t]);
    LocalEntry(s.p, s.sh, s.threads[t]);
    TotalUpdate(CanEnter(s.p.loops), s.threads, t, Advance(s.p, s.sh, s.threads[t]));
  }

  lemma {:induction false} BlockedEntries(s: State, w: nat, schedule: seq<nat>, s': State)
    requires Inv(s) && BlockedRun(s, w, schedule, s')
    ensures Inv(s') && Entries(s, schedule) + EntriesLeft(s') == EntriesLeft(s)
    decreases |schedule|
  {
    if schedule != [] {
      StepInv(s, schedule[0]);
      StepEntries(s, schedule[0]);
      BlockedEntries(Step(s, schedule[0]), w, schedule[1..], s');
    }
  }

  // Who gets in while `writelock` is taken gets in beside a reader that is inside already.
  lemma EntersBeside(s: State, t: nat) returns (u: nat)
    requires Inv(s) && s.sh.writeLock == 0 && EntersRead(s, t)
    ensures u < |s.threads| && u != t && Entered(s.threads[u])
    ensures !s.threads[t].writer && !s.threads[u].writer
    ensures HoldsFair(s.threads[t]) == 1
  {
    assert ThreadOk(s.p, s.sh, s.threads[t]);
    ContainsThread(s, t);
    u := OtherTerm(Counted, s.threads, t);
    TwoTerms(HoldsRead, s.threads, t, u);
    assert ThreadOk(s.p, s.sh, s.threads[u]);
  }

  // Some reader has used up one of its entries.
  lemma OneUsedUp(s: State, u: nat, numReaders: nat, numWriters: nat)
    requires Inv(s) && Roles(s, numReaders, numWriters) && u < numReaders && Entered(s.threads[u])
    ensures EntriesLeft(s) < s.p.loops * numReaders
  {
    var a, b, f := s.threads[..numReaders], s.threads[numReaders..], CanEnter(s.p.loops);
    assert s.threads == a + b;
    assert ThreadOk(s.p, s.sh, s.threads[u]) && a[u] == s.threads[u];
    TotalConcat(f, a, b);
    TotalZero(f, b);
    TotalLess(f, a, s.p.loops, u);
  }

  /** What an entry beside a blocked writer takes: the plain lock, a second reader, a
      writer, and an earlier entry. */
  lemma {:induction false} EntryNeeds(s: State, w: nat, schedule: seq<nat>, s': State, numReaders: nat, numWriters: nat)
    requires Inv(s) && Roles(s, numReaders, numWriters) && BlockedRun(s, w, schedule, s') && Entries(s, schedule) > 0
    ensures !s.p.fair && numReaders >= 2 && numWriters >= 1
    ensures EntriesLeft(s) < s.p.loops * numReaders
    decreases |schedule|
  {
    var t := schedule[0];
    if EntersRead(s, t) {
      var u := EntersBeside(s, t);
      OneUsedUp(s, u, numReaders, numWriters);
      if s.p.fair { BehindWriter(s, w, t); }
      assert ThreadOk(s.p, s.sh, s.threads[w]);
    } else {
      StepInv(s, t);
      StepEntries(s, t);
      StepWork(s, t);
      EntryNeeds(Step(s, t), w, schedule[1..], s', numReaders, numWriters);
    }
  }

  // ------------------------------------------------------------------ a run with as many entries as possible

  /** Reader `a` is inside alone, all other readers are outside, and writer `w` is blocked. */
  predicate Relay(s: State, w: nat, a: nat) {
    && !s.p.fair && Waits(s, w) && a < |s.threads| && a != w
    && s.sh.writeLock == 0 && s.sh.readLock == 1 && s.sh.readers == 1
    && s.threads[a].pc == Reading && !s.threads[a].writer
    && forall t {:trigger s.threads[t]} :: 0 <= t < |s.threads| && t != a ==>
         s.threads[t].writer || s.threads[t].pc == RLock || s.threads[t].pc == Done
  }

  predicate Outside(s: State, a: nat, b: nat) {
    b < |s.threads| && b != a && !s.threads[b].writer && s.threads[b].pc == RLock
  }

  // Nobody is left inside who could still get in but has nobody to overlap with.
  ghost predicate Alternates(s: State, a: nat)
    requires a < |s.threads|
  {
    CanEnter(s.p.loops)(s.threads[a]) == 0 || exists b: nat :: Outside(s, a, b)
  }

  lemma SomebodyOutside(s: State, w: nat, a: nat) returns (b: nat)
    requires Inv(s) && Relay(s, w, a) && Alternates(s, a) && EntriesLeft(s) > 0
    ensures Outside(s, a, b)
  {
    if CanEnter(s.p.loops)(s.threads[a]) > 0 {
      b :| Outside(s, a, b);
    } else {
      b := PositiveTerm(CanEnter(s.p.loops), s.threads);
      assert ThreadOk(s.p, s.sh, s.threads[b]);
    }
  }

  // Reader `b` has joined and reader `x` has left; `y` is the one that stays inside.
  predicate Exchanged(s: State, s': State, a: nat, b: nat, x: nat, y: nat)
    requires a < |s.threads| && b < |s.threads| && x < |s.threads| && y < |s.threads|
  {
    && s'.p == s.p && |s'.threads| == |s.threads|
    && (forall t {:trigger s'.threads[t]} :: 0 <= t < |s.threads| && t != a && t != b ==> s'.threads[t] == s.threads[t])
    && s'.threads[y].i == s.threads[y].i
    && !s'.threads[x].writer && s'.threads[x].pc == if s.threads[x].i + 1 < s.p.loops then RLock else Done
  }

  lemma ExchangeRelays(s: State, s1: State, s': State, w: nat, a: nat, b: nat, x: nat, y: nat)
    requires Relay(s, w, a) && Outside(s, a, b) && ((x == b && y == a) || (x == a && y == b))
    requires Alone(s, s1, b) && s1.sh == s.sh.(readers := 2)
    requires s1.threads[b].pc == Reading && s1.threads[b].i == s.threads[b].i
    requires Alone(s1, s', x) && s'.sh == s.sh && s'.threads[x].i == s1.threads[x].i + 1
    requires s'.threads[x].pc == if s'.threads[x].i < s1.p.loops then RLock else Done
    ensures Relay(s', w, y) && Exchanged(s, s', a, b, x, y)
  {
  }

  lemma Exchange(s: State, w: nat, a: nat, b: nat, x: nat, y: nat) returns (schedule: seq<nat>, s': State)
    requires Relay(s, w, a) && Outside(s, a, b) && ((x == b && y == a) || (x == a && y == b))
    ensures BlockedRun(s, w, schedule, s') && Entries(s, schedule) == 1
    ensures Relay(s', w, y) && Exchanged(s, s', a, b, x, y)
  {
    var p, s1 := JoinGroup(s, w, b);
    assert x < |s1.threads| && s1.threads[x].pc == Reading && !s1.threads[x].writer;
    var q, s2 := LeaveGroup(s1, w, x);
    ExchangeRelays(s, s1, s2, w, a, b, x, y);
    BlockedConcat(s, w, p, s1, q, s2);
    schedule, s' := p + q, s2;
  }

  // If nobody is outside any more when `b` has left again, `b` has no entry left and may stay instead of `a`.
  lemma OtherStays(s: State, s1: State, s2: State, a: nat, b: nat)
    requires a < |s.threads| && Outside(s, a, b)
    requires Exchanged(s, s1, a, b, b, a) && !Outside(s1, a, b)
    requires Exchanged(s, s2, a, b, a, b) && s2.threads[b].pc == Reading
    ensures Alternates(s2, b)
  {
  }

  /** One more entry: another reader joins, and one of the two leaves, so that whoever
      can still get in has somebody to overlap with. */
  lemma RelayRound(s: State, w: nat, a: nat) returns (schedule: seq<nat>, s': State, a': nat)
    requires Inv(s) && Relay(s, w, a) && Alternates(s, a) && EntriesLeft(s) > 0
    ensures BlockedRun(s, w, schedule, s') && Entries(s, schedule) == 1
    ensures Relay(s', w, a') && Alternates(s', a')
  {
    var b := SomebodyOutside(s, w, a);
    schedule, s' := Exchange(s, w, a, b, b, a);
    a' := a;
    if !Alternates(s', a) {
      var s1 := s';
      schedule, s' := Exchange(s, w, a, b, a, b);
      OtherStays(s, s1, s', a, b);
      a' := b;
    }
  }

  /** Overlapping readers keep the writer blocked for any number of entries that they have left. */
  lemma {:induction false} RelayRun(s: State, w: nat, a: nat, n: nat) returns (schedule: seq<nat>, s': State)
    requires Inv(s) && Relay(s, w, a) && Alternates(s, a) && n <= EntriesLeft(s)
    ensures BlockedRun(s, w, schedule, s') && Entries(s, schedule) == n
    decreases n
  {
    if n == 0 {
      schedule, s' := [], s;
    } else {
      var x, s1, a1 := RelayRound(s, w, a);
      BlockedEntries(s, w, x, s1);
      var y, s2 := RelayRun(s1, w, a1, n - 1);
      BlockedConcat(s, w, x, s1, y, s2);
      schedule, s' := x + y, s2;
    }
  }

  // Reader 0 of the plain program after `k` of the six lines by which it gets in first.
  predicate GettingIn(init: State, s: State, k: nat) {
    && Alone(init, s, 0) && s.threads[0].i == 0
    && match k
       case 0 => s.threads[0].pc == RLock && s.sh == Shared(1, 1, 1, 0, 0)
       case 1 => s.threads[0].pc == RIncLoad && s.sh == Shared(1, 0, 1, 0, 0)
       case 2 => s.threads[0].pc == RIncStore && s.sh == Shared(1, 0, 1, 0, 0) && s.threads[0].reg == 0
       case 3 => s.threads[0].pc == RFirst && s.sh == Shared(1, 0, 1, 1, 0)
       case 4 => s.threads[0].pc == RWaitWrite && s.sh == Shared(1, 0, 1, 1, 0)
       case 5 => s.threads[0].pc == RUnlock && s.sh == Shared(1, 0, 0, 1, 0)
       case _ => s.threads[0].pc == Reading && s.sh == Shared(1, 1, 0, 1, 0)
  }

  lemma GetsFurther(init: State, s: State, k: nat)
    requires k < 6 && GettingIn(init, s, k) && !init.p.fair
    ensures Enabled(s, 0) && GettingIn(init, Step(s, 0), k + 1)
  {
  }

  lemma {:induction false} GetsIn(init: State, k: nat) returns (schedule: seq<nat>, s: State)
    requires GettingIn(init, init, 0) && !init.p.fair && k <= 6
    ensures Run(init, schedule, s) && GettingIn(init, s, k)
  {
    if k == 0 {
      schedule, s := [], init;
    } else {
      var prefix, mid := GetsIn(init, k - 1);
      GetsFurther(init, mid, k - 1);
      RunExtend(init, prefix, mid, 0);
      schedule, s := prefix + [0], Step(mid, 0);
    }
  }

  lemma FreshEntries(s: State, numReaders: nat, numWriters: nat)
    requires Roles(s, numReaders, numWriters) && AllFresh(s.p, s.threads)
    ensures EntriesLeft(s) == s.p.loops * numReaders
  {
    var a, b, f := s.threads[..numReaders], s.threads[numReaders..], CanEnter(s.p.loops);
    assert s.threads == a + b;
    TotalConcat(f, a, b);
    TotalZero(f, b);
    forall t | 0 <= t < |a|
      ensures f(a[t]) == s.p.loops
    {
      assert a[t] == Fresh(s.p, s.threads[t].writer);
    }
    TotalConstant(f, a, s.p.loops);
  }

  // With reader 0 inside and everybody else where they started, the relay can begin.
  lemma RelayReady(init: State, s: State, numReaders: nat, numWriters: nat)
    requires Inv(s) && !init.p.fair && init.p.loops > 0 && numReaders >= 2 && numWriters >= 1
    requires Roles(init, numReaders, numWriters) && AllFresh(init.p, init.threads) && GettingIn(init, s, 6)
    ensures Relay(s, numReaders, 0) && Alternates(s, 0)
    ensures EntriesLeft(s) + 1 == init.p.loops * numReaders
  {
    forall t | 0 < t < |s.threads|
      ensures s.threads[t] == Fresh(init.p, t >= numReaders)
    {
      assert s.threads[t] == init.threads[t];
    }
    assert Outside(s, 0, 1);
    FreshEntries(init, numReaders, numWriters);
    TotalUpdate(CanEnter(init.p.loops), init.threads, 0, s.threads[0]);
  }

  /** Starvation: without `fair_lock` any number of entries short of all that the readers
      ever make can happen while a waiting writer is blocked all along. */
  lemma PlainLockStarves(n: nat, loops: nat, numReaders: nat, numWriters: nat)
      returns (prefix: seq<nat>, start: State, schedule: seq<nat>, s': State)
    requires numReaders >= 2 && numWriters >= 1 && n < loops * numReaders
    ensures Run(Init(Program(false, loops), numReaders, numWriters), prefix, start)
    ensures BlockedRun(start, numReaders, schedule, s') && Entries(start, schedule) == n
  {
    var p := Program(false, loops);
    var init := Init(p, numReaders, numWriters);
    InitThreads(p, numReaders, numWriters);
    assert init.threads[0] == Fresh(p, false);
    assert init.threads == init.threads[0 := init.threads[0]];
    prefix, start := GetsIn(init, 6);
    InitialRun(p, numReaders, numWriters, prefix, start);
    RelayReady(init, start, numReaders, numWriters);
    schedule, s' := RelayRun(start, numReaders, 0, n);
  }

  /** In some reachable state a writer is blocked and stays so while `n` readers get in. */
  ghost predicate CanOvertake(p: Program, numReaders: nat, numWriters: nat, n: nat) {
    exists prefix, start, w: nat, schedule, s' ::
      && Run(Init(p, numReaders, numWriters), prefix, start)
      && BlockedRun(start, w, schedule, s') && Entries(start, schedule) == n
  }

  lemma OvertakingNeeds(p: Program, numReaders: nat, numWriters: nat, prefix: seq<nat>, start: State,
                        w: nat, schedule: seq<nat>, s': State)
    requires Run(Init(p, numReaders, numWriters), prefix, start) && BlockedRun(start, w, schedule, s')
    requires Entries(start, schedule) > 0
    ensures !p.fair && numReaders >= 2 && numWriters >= 1 && Entries(start, schedule) < p.loops * numReaders
  {
    InitialRun(p, numReaders, numWriters, prefix, start);
    EntryNeeds(start, w, schedule, s', numReaders, numWriters);
    BlockedEntries(start, w, schedule, s');
  }

  /** Exactly when readers can overtake a blocked writer, and how often: never with
      `fair_lock`; without it, with two readers and a writer, any number of times short
      of all the entries that the readers ever make. */
  lemma OvertakesExactly(p: Program, numReaders: nat, numWriters: nat, n: nat)
    requires n > 0
    ensures CanOvertake(p, numReaders, numWriters, n) <==>
      !p.fair && numReaders >= 2 && numWriters >= 1 && n < p.loops * numReaders
  {
    if CanOvertake(p, numReaders, numWriters, n) {
      var prefix, start, w: nat, schedule, s' :|
        && Run(Init(p, numReaders, numWriters), prefix, start)
        && BlockedRun(start, w, schedule, s') && Entries(start, schedule) == n;
      OvertakingNeeds(p, numReaders, numWriters, prefix, start, w, schedule, s');
    }
    if !p.fair && numReaders >= 2 && numWriters >= 1 && n < p.loops * numReaders {
      assert p == Program(false, p.loops);
      var prefix, start, schedule, s' := PlainLockStarves(n, p.loops, numReaders, numWriters);
    }
  }
}
