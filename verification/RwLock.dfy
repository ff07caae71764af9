/** The lock and its clients as the programs keep them: fields updated in place,
    one line of one thread at a time, under an arbitrary scheduler. */
module RwLock {
  import opened ReaderWriter

  /** The choices of a scheduler without those that find their thread blocked or finished. */
  function Taken(s: State, choices: seq<nat>): seq<nat>
    decreases |choices|
  {
    if choices == [] then []
    else if Enabled(s, choices[0]) then [choices[0]] + Taken(Step(s, choices[0]), choices[1..])
    else Taken(s, choices[1..])
  }

  lemma {:induction false} TakenConcat(s: State, a: seq<nat>, mid: State, b: seq<nat>)
    requires Run(s, Taken(s, a), mid)
    ensures Taken(s, a + b) == Taken(s, a) + Taken(mid, b)
    decreases |a|
  {
    if a == [] {
      assert a + b == b;
    } else {
      assert (a + b)[1..] == a[1..] + b;
      if Enabled(s, a[0]) {
        assert Taken(s, a)[1..] == Taken(Step(s, a[0]), a[1..]);
        TakenConcat(Step(s, a[0]), a[1..], mid, b);
      } else {
        TakenConcat(s, a[1..], mid, b);
      }
    }
  }

  lemma OneChoice(s: State, t: nat)
    ensures Taken(s, [t]) == if Enabled(s, t) then [t] else []
  {
    assert [t][1..] == [];
    if Enabled(s, t) { assert Taken(Step(s, t), []) == []; }
  }

  /** Every run of the model is taken when its schedule is chosen. */
  lemma {:induction false} RunIsTaken(s: State, schedule: seq<nat>, s': State)
    requires Run(s, schedule, s')
    ensures Taken(s, schedule) == schedule
    decreases |schedule|
  {
    if schedule != [] {
      RunIsTaken(Step(s, schedule[0]), schedule[1..], s');
    }
  }

  class RwProgram {
    const p: Program
    var fairLock: nat
    var readLock: nat   // called `lock` in the version without `fair_lock`
    var writeLock: nat
    var readers: int
    var value: int
    var threads: seq<Thread>

    function SharedNow(): Shared
      reads this
    {
      Shared(fairLock, readLock, writeLock, readers, value)
    }

    function Snapshot(): State
      reads this
    {
      State(p, SharedNow(), threads)
    }

    ghost predicate Valid()
      reads this
    {
      Inv(Snapshot())
    }

    constructor (p: Program, numReaders: nat, numWriters: nat)
      ensures this.p == p && Valid()
      ensures Snapshot() == Init(p, numReaders, numWriters)
    {
      this.p := p;
      readers, value := 0, 0;
      readLock, writeLock, fairLock := 1, 1, 1;
      threads := seq(numReaders, _ => Fresh(p, false)) + seq(numWriters, _ => Fresh(p, true));
      InitInv(p, numReaders, numWriters);
    }

    method SetPc(t: nat, pc: Pc)
      requires t < |threads|
      modifies this`threads
      ensures threads == old(threads)[t := old(threads)[t].(pc := pc)]
    {
      threads := threads[t := threads[t].(pc := pc)];
    }

    method Load(t: nat, pc: Pc, reg: int)
      requires t < |threads|
      modifies this`threads
      ensures threads == old(threads)[t := old(threads)[t].(pc := pc, reg := reg)]
    {
      threads := threads[t := threads[t].(pc := pc, reg := reg)];
    }

    method EndLoopBody(t: nat)
      requires t < |threads|
      modifies this`threads
      ensures threads == old(threads)[t := NextIteration(p, old(threads)[t])]
    {
      var i := threads[t].i + 1;
      var pc := if i < p.loops then StartPc(p, threads[t].writer) else Done;
      threads := threads[t := threads[t].(i := i, pc := pc)];
    }

    // The line that thread `t` is about to execute.
    method ExecuteLine(t: nat)
      requires t < |threads| && Ready(SharedNow(), threads[t])
      modifies this
      ensures SharedNow() == Effect(old(SharedNow()), old(threads)[t])
      ensures threads == old(threads)[t := Advance(p, old(SharedNow()), old(threads)[t])]
    {
      var th := threads[t];
      match th.pc {
        case RFair => fairLock := fairLock - 1; SetPc(t, RLock);
        case RLock => readLock := readLock - 1; SetPc(t, RIncLoad);
        case RIncLoad => Load(t, RIncStore, readers);
        case RIncStore => readers := th.reg + 1; Load(t, RFirst, th.reg + 1);
        case RFirst => SetPc(t, if readers == 1 then RWaitWrite else RUnlock);
        case RWaitWrite => writeLock := writeLock - 1; SetPc(t, RUnlock);
        case RUnlock => readLock := readLock + 1; SetPc(t, if p.fair then RUnfair else Reading);
        case RUnfair => fairLock := fairLock + 1; SetPc(t, Reading);
        case Reading => Load(t, RRelock, value);
        case RRelock => readLock := readLock - 1; SetPc(t, RDecLoad);
        case RDecLoad => Load(t, RDecStore, readers);
        case RDecStore => readers := th.reg - 1; Load(t, RLast, th.reg - 1);
        case RLast => SetPc(t, if readers == 0 then RPostWrite else RRelUnlock);
        case RPostWrite => writeLock := writeLock + 1; SetPc(t, RRelUnlock);
        case RRelUnlock => readLock := readLock + 1; EndLoopBody(t);
        case WFair => fairLock := fairLock - 1; SetPc(t, WWait);
        case WWait => writeLock := writeLock - 1; SetPc(t, WLoad);
        case WLoad => Load(t, WStore, value);
        case WStore => value := th.reg + 1; SetPc(t, WPost);
        case WPost => writeLock := writeLock + 1; if p.fair { SetPc(t, WUnfair); } else { EndLoopBody(t); }
        case WUnfair => fairLock := fairLock + 1; EndLoopBody(t);
      }
    }

    /** Thread `t` executes its next line unless that line would block; either way
        the invariant holds afterwards. */
    method Execute(t: nat) returns (moved: bool)
      requires Valid()
      modifies this
      ensures Valid()
      ensures moved == Enabled(old(Snapshot()), t)
      ensures Snapshot() == if moved then Step(old(Snapshot()), t) else old(Snapshot())
    {
      moved := t < |threads| && Ready(SharedNow(), threads[t]);
      if moved {
        StepInv(Snapshot(), t);
        ExecuteLine(t);
      }
    }

    /** The scheduler's choices one after the other, skipping threads that cannot
        move; `taken` is the run that results. */
    method Schedule(choices: seq<nat>) returns (taken: seq<nat>)
      requires Valid()
      modifies this
      ensures Valid() && Run(old(Snapshot()), taken, Snapshot())
      ensures taken == Taken(old(Snapshot()), choices)
    {
      taken := [];
      ghost var start := Snapshot();
      assert Run(start, [], start);
      assert choices[..0] == [];
      for k := 0 to |choices|
        invariant Valid() && Run(start, taken, Snapshot())
        invariant taken == Taken(start, choices[..k])
      {
        ghost var before := Snapshot();
        TakenConcat(start, choices[..k], before, [choices[k]]);
        OneChoice(before, choices[k]);
        assert choices[..k + 1] == choices[..k] + [choices[k]];
        var moved := Execute(choices[k]);
        if moved {
          RunExtend(start, taken, before, choices[k]);
          taken := taken + [choices[k]];
        }
      }
      assert choices[..|choices|] == choices;
    }
  }
}
