/** Two threads that increment one unprotected global `loops` times each, with the
    load and the store as separate sequentially consistent steps. */
module RacyIncrement {
  import opened Common

  datatype Pc = Load | Increment | Store | Done

  // `j` is the loop counter, `loc` the thread's copy.
  datatype Thread = Thread(pc: Pc, j: nat, loc: int)

  datatype State = State(glob: int, threads: seq<Thread>)

  function AtLoopTest(loops: nat, j: nat, loc: int): Thread {
    Thread(if j < loops then Load else Done, j, loc)
  }

  predicate Enabled(s: State, t: nat) { t < |s.threads| && s.threads[t].pc != Done }

  function Step(loops: nat, s: State, t: nat): State
    requires Enabled(s, t)
  {
    var th := s.threads[t];
    match th.pc
    case Load => s.(threads := s.threads[t := th.(pc := Increment, loc := s.glob)])
    case Increment => s.(threads := s.threads[t := th.(pc := Store, loc := th.loc + 1)])
    case Store => State(th.loc, s.threads[t := AtLoopTest(loops, th.j + 1, th.loc)])
  }

  function Init(loops: nat): State {
    State(0, [AtLoopTest(loops, 0, 0), AtLoopTest(loops, 0, 0)])
  }

  predicate Run(loops: nat, s: State, schedule: seq<nat>, s': State)
    decreases |schedule|
  {
    if schedule == [] then s' == s
    else Enabled(s, schedule[0]) && Run(loops, Step(loops, s, schedule[0]), schedule[1..], s')
  }

  predicate Finished(s: State) { forall t :: 0 <= t < |s.threads| ==> s.threads[t].pc == Done }

  // ------------------------------------------------------------------ the bounds

  // The copy never exceeds the stores so far; a copy taken after the thread's own first store is positive.
  predicate ThreadOk(loops: nat, stores: nat, th: Thread) {
    && (if th.pc == Done then th.j == loops else th.j < loops)
    && (th.pc == Increment ==> 0 <= th.loc <= stores && (th.j >= 1 ==> th.loc >= 1))
    && (th.pc == Store ==> 1 <= th.loc <= stores + 1 && (th.j >= 1 ==> th.loc >= 2))
  }

  predicate Inv(loops: nat, s: State) {
    && |s.threads| == 2
    && (var a, b := s.threads[0], s.threads[1];
        && ThreadOk(loops, a.j + b.j, a) && ThreadOk(loops, a.j + b.j, b)
        && 0 <= s.glob <= a.j + b.j
        && (a.j + b.j > 0 ==> s.glob >= 1)
        // the value is still 1 only if the first store of some thread wrote it last
        && (s.glob == 1 ==> a.j == 1 || b.j == 1))
  }

  lemma StepInv(loops: nat, s: State, t: nat)
    requires Inv(loops, s) && Enabled(s, t)
    ensures Inv(loops, Step(loops, s, t))
  {
    assert t == 0 || t == 1;
  }

  lemma {:induction false} RunInv(loops: nat, s: State, schedule: seq<nat>, s': State)
    requires Inv(loops, s) && Run(loops, s, schedule, s')
    ensures Inv(loops, s')
    decreases |schedule|
  {
    if schedule != [] {
      StepInv(loops, s, schedule[0]);
      RunInv(loops, Step(loops, s, schedule[0]), schedule[1..], s');
    }
  }

  lemma Bounds(loops: nat, schedule: seq<nat>, s: State)
    requires Run(loops, Init(loops), schedule, s) && Finished(s)
    ensures Min(loops, 2) <= s.glob <= 2 * loops
  {
    RunInv(loops, Init(loops), schedule, s);
    assert s.threads[0].pc == Done && s.threads[1].pc == Done;
  }

  // ------------------------------------------------------------------ every value is reached

  lemma {:induction false} RunConcat(loops: nat, s: State, a: seq<nat>, mid: State, b: seq<nat>, s': State)
    requires Run(loops, s, a, mid) && Run(loops, mid, b, s')
    ensures Run(loops, s, a + b, s')
    decreases |a|
  {
    if a == [] {
      assert a + b == b;
    } else {
      assert (a + b)[1..] == a[1..] + b;
      RunConcat(loops, Step(loops, s, a[0]), a[1..], mid, b, s');
    }
  }

  predicate AtLoad(s: State, t: nat) { t < |s.threads| && s.threads[t].pc == Load }

  // Thread `t` loads and increments its copy.
  lemma Fetch(loops: nat, s: State, t: nat) returns (s': State)
    requires AtLoad(s, t)
    ensures Run(loops, s, [t, t], s')
    ensures s' == s.(threads := s.threads[t := Thread(Store, s.threads[t].j, s.glob + 1)])
  {
    var s1 := Step(loops, s, t);
    s' := Step(loops, s1, t);
    assert [t, t][1..] == [t] && [t][1..] == [];
    assert Run(loops, s', [], s');
    assert Run(loops, s1, [t], s');
  }

  // Thread `t` stores its copy and ends its loop body.
  lemma Write(loops: nat, s: State, t: nat) returns (s': State)
    requires t < |s.threads| && s.threads[t].pc == Store
    ensures Run(loops, s, [t], s')
    ensures s' == State(s.threads[t].loc, s.threads[t := AtLoopTest(loops, s.threads[t].j + 1, s.threads[t].loc)])
  {
    s' := Step(loops, s, t);
    assert [t][1..] == [];
    assert Run(loops, s', [], s');
  }

  // Thread `t` runs `n` loop bodies undisturbed.
  lemma {:induction false} Solo(loops: nat, s: State, t: nat, n: nat) returns (schedule: seq<nat>, s': State)
    requires t < |s.threads| && s.threads[t].j + n <= loops
    requires s.threads[t] == AtLoopTest(loops, s.threads[t].j, s.threads[t].loc)
    ensures Run(loops, s, schedule, s') && |s'.threads| == |s.threads|
    ensures s' == State(s.glob + n, s.threads[t := AtLoopTest(loops, s.threads[t].j + n, s'.threads[t].loc)])
    decreases n
  {
    if n == 0 {
      schedule, s' := [], s;
    } else {
      var s1 := Fetch(loops, s, t);
      var s2 := Write(loops, s1, t);
      RunConcat(loops, s, [t, t], s1, [t], s2);
      var rest;
      rest, s' := Solo(loops, s2, t, n - 1);
      schedule := [t, t] + [t] + rest;
      RunConcat(loops, s, [t, t] + [t], s2, rest, s');
    }
  }

  // Both threads run `n` loop bodies in step and lose one of every two increments.
  lemma {:induction false} InStep(loops: nat, s: State, n: nat) returns (schedule: seq<nat>, s': State)
    requires |s.threads| == 2 && s.threads[0].j == s.threads[1].j && s.threads[0].j + n <= loops
    requires forall t :: 0 <= t < 2 ==> s.threads[t] == AtLoopTest(loops, s.threads[t].j, s.threads[t].loc)
    ensures Run(loops, s, schedule, s') && |s'.threads| == 2 && s'.glob == s.glob + n
    ensures forall t :: 0 <= t < 2 ==> s'.threads[t] == AtLoopTest(loops, s.threads[t].j + n, s'.threads[t].loc)
    decreases n
  {
    if n == 0 {
      schedule, s' := [], s;
    } else {
      var s1 := Fetch(loops, s, 0);
      var s2 := Fetch(loops, s1, 1);
      RunConcat(loops, s, [0, 0], s1, [1, 1], s2);
      var s3 := Write(loops, s2, 0);
      RunConcat(loops, s, [0, 0] + [1, 1], s2, [0], s3);
      var s4 := Write(loops, s3, 1);
      RunConcat(loops, s, [0, 0] + [1, 1] + [0], s3, [1], s4);
      var rest;
      rest, s' := InStep(loops, s4, n - 1);
      schedule := [0, 0] + [1, 1] + [0] + [1] + rest;
      RunConcat(loops, s, [0, 0] + [1, 1] + [0] + [1], s4, rest, s');
    }
  }

  // Large values: lose exactly as many increments as are missing.
  lemma ReachLarge(loops: nat, v: nat) returns (schedule: seq<nat>, s': State)
    requires loops <= v <= 2 * loops
    ensures Run(loops, Init(loops), schedule, s') && Finished(s') && s'.glob == v
  {
    var m := 2 * loops - v;
    var x, s1 := InStep(loops, Init(loops), m);
    var y, s2 := Solo(loops, s1, 0, loops - m);
    RunConcat(loops, Init(loops), x, s1, y, s2);
    var z, s3 := Solo(loops, s2, 1, loops - m);
    RunConcat(loops, Init(loops), x + y, s2, z, s3);
    schedule, s' := x + y + z, s3;
  }

  // Small values: thread 0 throws away all but the last increment of thread 1, whose
  // last store in turn throws away what thread 0 does after it.
  lemma ReachSmall(loops: nat, v: nat) returns (schedule: seq<nat>, s': State)
    requires 2 <= v <= loops
    ensures Run(loops, Init(loops), schedule, s') && Finished(s') && s'.glob == v
  {
    var s0 := Init(loops);
    var s1 := Fetch(loops, s0, 0);
    var a, s2 := Solo(loops, s1, 1, loops - 1);
    RunConcat(loops, s0, [0, 0], s1, a, s2);
    var s3 := Write(loops, s2, 0);
    RunConcat(loops, s0, [0, 0] + a, s2, [0], s3);
    var b, s4 := Solo(loops, s3, 0, v - 2);
    RunConcat(loops, s0, [0, 0] + a + [0], s3, b, s4);
    var s5 := Fetch(loops, s4, 1);
    RunConcat(loops, s0, [0, 0] + a + [0] + b, s4, [1, 1], s5);
    var c, s6 := Solo(loops, s5, 0, loops - v + 1);
    RunConcat(loops, s0, [0, 0] + a + [0] + b + [1, 1], s5, c, s6);
    var s7 := Write(loops, s6, 1);
    RunConcat(loops, s0, [0, 0] + a + [0] + b + [1, 1] + c, s6, [1], s7);
    schedule, s' := [0, 0] + a + [0] + b + [1, 1] + c + [1], s7;
  }

  lemma Reach(loops: nat, v: nat) returns (schedule: seq<nat>, s: State)
    requires Min(loops, 2) <= v <= 2 * loops
    ensures Run(loops, Init(loops), schedule, s) && Finished(s) && s.glob == v
  {
    if v >= loops {
      schedule, s := ReachLarge(loops, v);
    } else {
      schedule, s := ReachSmall(loops, v);
    }
  }

  // Some run prints `v` at the end.
  ghost predicate Possible(loops: nat, v: int) {
    exists schedule, s :: Run(loops, Init(loops), schedule, s) && Finished(s) && s.glob == v
  }

  /** The race: for every number of loops, the values that the program can print at
      the end are exactly those from min(loops, 2) to 2 * loops. */
  lemma ExactOutcomes(loops: nat, v: int)
    ensures Possible(loops, v) <==> Min(loops, 2) <= v <= 2 * loops
  {
    if Possible(loops, v) {
      var schedule, s :| Run(loops, Init(loops), schedule, s) && Finished(s) && s.glob == v;
      Bounds(loops, schedule, s);
    }
    if Min(loops, 2) <= v <= 2 * loops {
      var schedule, s := Reach(loops, v);
    }
  }

  // ------------------------------------------------------------------ in place

  /** The global and the two threads, one load, increment or store at a time. */
  class Program {
    const loops: nat
    var glob: int
    var threads: seq<Thread>

    function Snapshot(): State
      reads this
    {
      State(glob, threads)
    }

    ghost predicate Valid()
      reads this
    {
      Inv(loops, Snapshot())
    }

    constructor (loops: nat)
      ensures Valid() && this.loops == loops && Snapshot() == Init(loops)
    {
      this.loops := loops;
      glob := 0;
      threads := [AtLoopTest(loops, 0, 0), AtLoopTest(loops, 0, 0)];
    }

    method Line(t: nat)
      requires Enabled(Snapshot(), t)
      modifies this
      ensures Snapshot() == Step(loops, old(Snapshot()), t)
    {
      var th := threads[t];
      match th.pc {
        case Load => th := th.(pc := Increment, loc := glob);
        case Increment => th := th.(pc := Store, loc := th.loc + 1);
        case Store => glob := th.loc; th := AtLoopTest(loops, th.j + 1, th.loc);
      }
      threads := threads[t := th];
    }

    /** Thread `t` executes its next line. */
    method Execute(t: nat)
      requires Valid() && Enabled(Snapshot(), t)
      modifies this
      ensures Valid() && Snapshot() == Step(loops, old(Snapshot()), t)
    {
      StepInv(loops, Snapshot(), t);
      Line(t);
    }
  }
}
