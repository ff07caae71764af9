/** Whole runs of the list program: every run ends, and the list it leaves is the one
    that a sequential execution of the same calls leaves. */
module ListRuns {
  import opened Sums
  import opened LockCoupling
  import opened Linearizability
  import opened LockOrder

  ghost predicate Stuck(s: State) { forall t, m :: !Enabled(s, t, m) }

  function Calls(prog: seq<Op>): nat { |prog| }

  function Values(heap: Heap, nodes: seq<Node>): seq<int>
    requires forall i :: 0 <= i < |nodes| ==> nodes[i] in heap
  {
    seq(|nodes|, i requires 0 <= i < |nodes| => heap[nodes[i]].val)
  }

  // `chain` is the whole heap: an unlocked, NULL-terminated list from the head.
  ghost predicate QuietList(heap: Heap, chain: seq<Node>) {
    && ChainOk(heap, chain)
    && (forall i :: 0 <= i < |chain| ==> heap[chain[i]].next == Succ(chain, i) && heap[chain[i]].owner == Free)
    && (forall n :: n in heap ==> n in chain)
  }

  /** `log` orders all calls of all programs, each program's in its own order. */
  ghost predicate Interleaves(log: seq<Entry>, progs: seq<seq<Op>>) {
    && (forall e :: e in log ==> e.t < |progs|)
    && forall t :: 0 <= t < |progs| ==> CallsOf(log, t) == progs[t]
  }

  // ------------------------------------------------------------------ the final list

  lemma {:induction false} NoSearches(items: seq<Item>)
    requires |items| > 0 && forall i :: 0 <= i < |items| ==> items[i].search == Nobody
    ensures |After(items)| == |items| - 1 && forall i :: 0 <= i < |items| - 1 ==> After(items)[i] == items[i + 1].val
  {
    if |items| > 1 {
      NoSearches(items[1..]);
    }
  }

  lemma QuietWhenDone(s: State, chain: seq<Node>)
    requires Inv(s, chain) && forall t :: 0 <= t < |s.threads| ==> !Running(s.threads[t])
    ensures QuietList(s.heap, chain)
  {
    forall t | 0 <= t < |s.threads|
      ensures s.threads[t].pc == Begin
    {
      assert ThreadOk(s.heap, chain, t, s.threads[t]);
    }
    forall n | n in s.heap
      ensures s.heap[n].owner == Free && n in chain
    {
      assert Owned(s.heap, s.threads, n);
      assert n in chain || Claimed(s.threads, n);
    }
    forall i | 0 <= i < |chain|
      ensures s.heap[chain[i]].next == Succ(chain, i)
    {
      assert !HalfLinked(s.heap, s.threads);
    }
  }

  lemma QuietItems(s: State, chain: seq<Node>, i: nat)
    requires QuietList(s.heap, chain) && i < |chain|
    ensures Items(s, chain)[i] == Item(s.heap[chain[i]].val, Nobody)
  {
    assert s.heap[chain[i]].owner == Free;
  }

  lemma FinalContents(s: State, chain: seq<Node>)
    requires QuietList(s.heap, chain)
    ensures Contents(s, chain) == Values(s.heap, chain[1..])
  {
    var items := Items(s, chain);
    forall i | 0 <= i < |chain|
      ensures items[i] == Item(s.heap[chain[i]].val, Nobody)
    {
      QuietItems(s, chain, i);
    }
    NoSearches(items);
    SameValues(s.heap, chain, After(items));
  }

  lemma SameValues(heap: Heap, chain: seq<Node>, l: seq<int>)
    requires ChainOk(heap, chain) && |l| == |chain| - 1
    requires forall i :: 0 <= i < |l| ==> l[i] == heap[chain[i + 1]].val
    ensures l == Values(heap, chain[1..])
  {
    forall i | 0 <= i < |l|
      ensures chain[1..][i] in heap && l[i] == heap[chain[1..][i]].val
    {
      assert chain[1..][i] == chain[i + 1];
    }
  }

  lemma DoneLog(s: State, chain: seq<Node>, log: seq<Entry>, progs: seq<seq<Op>>)
    requires Explains(s, chain, log) && |s.threads| == |progs|
    requires forall t :: 0 <= t < |progs| ==> s.threads[t].prog == progs[t] && !Running(s.threads[t])
    ensures Interleaves(log, progs)
  {
    forall t | 0 <= t < |progs|
      ensures CallsOf(log, t) == progs[t]
    {
      assert ThreadOk(s.heap, chain, t, s.threads[t]);
      assert Effective(s.threads[t]) == |progs[t]|;
    }
  }

  lemma RunningNotStuck(s: State, chain: seq<Node>, t: nat)
    requires Inv(s, chain) && t < |s.threads| && Running(s.threads[t])
    ensures !Stuck(s)
  {
    var u := DeadlockFree(s, chain, t);
    var m := FreeAddress(s.heap);
    assert Enabled(s, u, m);
  }

  /** A run that cannot be extended has finished every call, leaves no mutex locked
      and no node allocated outside the list, and the list holds what the calls give
      when they are executed one after the other in some interleaving of the programs. */
  lemma FinalList(progs: seq<seq<Op>>, schedule: seq<(nat, Node)>, s: State) returns (chain: seq<Node>, log: seq<Entry>)
    requires Run(Init(progs), schedule, s) && Stuck(s)
    ensures QuietList(s.heap, chain)
    ensures Interleaves(log, progs) && RealTime(Init(progs), schedule, log)
    ensures Values(s.heap, chain[1..]) == ApplyAll(log)
  {
    chain, log := Linearizable(progs, schedule, s);
    forall t | 0 <= t < |s.threads|
      ensures !Running(s.threads[t])
    {
      if Running(s.threads[t]) {
        RunningNotStuck(s, chain, t);
      }
    }
    QuietWhenDone(s, chain);
    FinalContents(s, chain);
    DoneLog(s, chain, log, progs);
  }

  lemma {:induction false} SameNode(heap: Heap, a: seq<Node>, b: seq<Node>, k: nat)
    requires QuietList(heap, a) && QuietList(heap, b) && k < |a|
    ensures k < |b| && a[k] == b[k]
  {
    if k > 0 {
      SameNode(heap, a, b, k - 1);
      assert a[k] in heap && Succ(a, k - 1) == Succ(b, k - 1);
    }
  }

  /** There is only one way to walk a quiet list, so the final list is a function of the heap. */
  lemma OneChain(heap: Heap, a: seq<Node>, b: seq<Node>)
    requires QuietList(heap, a) && QuietList(heap, b)
    ensures a == b
  {
    SameNode(heap, a, b, |a| - 1);
    SameNode(heap, b, a, |b| - 1);
    forall k | 0 <= k < |a|
      ensures a[k] == b[k]
    {
      SameNode(heap, a, b, k);
    }
  }

  // ------------------------------------------------------------------ every run ends

  lemma {:induction false} CallsStepsIs(k: nat, bound: nat)
    ensures CallsSteps(k, bound) == k * (4 * bound + 10)
  {
    if k > 0 {
      CallsStepsIs(k - 1, bound);
    }
  }

  lemma Distribute(a: nat, b: nat, c: nat)
    ensures (a + b) * c == a * c + b * c
  {
  }

  ghost function ProgSteps(bound: nat): seq<Op> -> nat {
    (prog: seq<Op>) => CallsSteps(|prog|, bound)
  }

  lemma {:induction false} AllProgSteps(progs: seq<seq<Op>>, bound: nat)
    ensures Total(ProgSteps(bound), progs) == Total(Calls, progs) * (4 * bound + 10)
  {
    if progs != [] {
      AllProgSteps(progs[1..], bound);
      CallsStepsIs(|progs[0]|, bound);
      Distribute(|progs[0]|, Total(Calls, progs[1..]), 4 * bound + 10);
    }
  }

  // No more nodes than this are ever linked at once.
  function MaxLinked(progs: seq<seq<Op>>): nat { 1 + Total(InsertsIn, progs) }

  lemma InitSteps(progs: seq<seq<Op>>)
    ensures Bounded(Init(progs), [HEAD], MaxLinked(progs))
    ensures Total(StepsLeft(MaxLinked(progs), [HEAD]), Init(progs).threads) <= Total(ProgSteps(MaxLinked(progs)), progs)
  {
    var ts := Init(progs).threads;
    forall t | 0 <= t < |ts|
      ensures PendingInserts(ts[t]) <= InsertsIn(progs[t])
    {
      assert progs[t][0..] == progs[t];
    }
    TotalNoMore(PendingInserts, ts, InsertsIn, progs);
    TotalNoMore(StepsLeft(MaxLinked(progs), [HEAD]), ts, ProgSteps(MaxLinked(progs)), progs);
  }

  lemma RunSteps(progs: seq<seq<Op>>, schedule: seq<(nat, Node)>, s: State)
    requires Run(Init(progs), schedule, s)
    ensures |schedule| <= Total(ProgSteps(MaxLinked(progs)), progs)
  {
    InitExplains(progs);
    InitSteps(progs);
    RunIsShort(Init(progs), [HEAD], MaxLinked(progs), schedule, s);
  }

  function StepBound(progs: seq<seq<Op>>): nat { Total(Calls, progs) * (4 * MaxLinked(progs) + 10) }

  lemma StepBoundIs(progs: seq<seq<Op>>)
    ensures Total(ProgSteps(MaxLinked(progs)), progs) == StepBound(progs)
  {
    AllProgSteps(progs, MaxLinked(progs));
  }

  /** Termination: with `n` calls of which `i` insert, no run takes more than
      `n * (4 * (1 + i) + 10)` steps. */
  lemma EveryRunEnds(progs: seq<seq<Op>>, schedule: seq<(nat, Node)>, s: State)
    requires Run(Init(progs), schedule, s)
    ensures |schedule| <= StepBound(progs)
  {
    RunSteps(progs, schedule, s);
    StepBoundIs(progs);
  }

  // ------------------------------------------------------------------ the driver

  // insert_list_from_to
  function RangeInserts(a: int, b: int): (prog: seq<Op>)
    ensures |prog| == if a <= b then b - a + 1 else 0
    ensures forall i :: 0 <= i < |prog| ==> prog[i] == Insert(a + i)
    decreases b - a
  {
    if a <= b then [Insert(a)] + RangeInserts(a + 1, b) else []
  }

  function Occurrences(v: int): seq<Op> -> nat {
    (prog: seq<Op>) => multiset(prog)[Insert(v)]
  }

  // A list of inserts comes out in the reverse order of the log.
  lemma {:induction false} InsertsReverse(log: seq<Entry>)
    requires forall e :: e in log ==> e.op.Insert?
    ensures |ApplyAll(log)| == |log|
    ensures forall i :: 0 <= i < |log| ==> ApplyAll(log)[i] == log[|log| - 1 - i].op.val
  {
    if log != [] {
      InsertsReverse(log[..|log| - 1]);
    }
  }

  function CallLists(log: seq<Entry>, n: nat): seq<seq<Op>> {
    seq(n, t requires 0 <= t < n => CallsOf(log, t))
  }

  lemma OneMoreCall(calls: seq<Op>, op: Op, l: seq<int>, v: int)
    requires op.Insert?
    ensures Occurrences(v)(calls + [op]) == Occurrences(v)(calls) + (if op.val == v then 1 else 0)
    ensures multiset([op.val] + l)[v] == multiset(l)[v] + (if op.val == v then 1 else 0)
  {
  }

  lemma CallListsStep(log: seq<Entry>, n: nat)
    requires |log| > 0 && log[|log| - 1].t < n
    ensures var rest, e := log[..|log| - 1], log[|log| - 1];
      CallLists(log, n) == CallLists(rest, n)[e.t := CallLists(rest, n)[e.t] + [e.op]]
  {
    var rest, e := log[..|log| - 1], log[|log| - 1];
    forall t | 0 <= t < n
      ensures CallLists(log, n)[t] == if t == e.t then CallsOf(rest, t) + [e.op] else CallsOf(rest, t)
    {
    }
  }

  lemma {:induction false} CountInserts(log: seq<Entry>, n: nat, v: int)
    requires forall e :: e in log ==> e.op.Insert? && e.t < n
    ensures multiset(ApplyAll(log))[v] == Total(Occurrences(v), CallLists(log, n))
  {
    if log == [] {
      TotalZero(Occurrences(v), CallLists(log, n));
    } else {
      var rest, e := log[..|log| - 1], log[|log| - 1];
      CountInserts(rest, n, v);
      OneMoreCall(CallsOf(rest, e.t), e.op, ApplyAll(rest), v);
      CallListsStep(log, n);
      TotalUpdate(Occurrences(v), CallLists(rest, n), e.t, CallLists(rest, n)[e.t] + [e.op]);
    }
  }

  // The threads behind the positions of a list of inserts.
  function Sources(log: seq<Entry>): seq<nat> {
    seq(|log|, i requires 0 <= i < |log| => log[|log| - 1 - i].t)
  }

  predicate FromRanges(ranges: seq<(int, int)>, progs: seq<seq<Op>>) {
    |progs| == |ranges| && forall t :: 0 <= t < |ranges| ==> progs[t] == RangeInserts(ranges[t].0, ranges[t].1)
  }

  // Every value lies in the range of its thread.
  predicate InRanges(l: seq<int>, source: seq<nat>, ranges: seq<(int, int)>)
    requires |source| == |l|
  {
    forall i :: 0 <= i < |l| ==> source[i] < |ranges| && ranges[source[i]].0 <= l[i] <= ranges[source[i]].1
  }

  // The values of each thread stand in descending order.
  predicate Descending(l: seq<int>, source: seq<nat>)
    requires |source| == |l|
  {
    forall i, j :: 0 <= i < j < |l| && source[i] == source[j] ==> l[i] > l[j]
  }

  lemma LogOfRanges(ranges: seq<(int, int)>, progs: seq<seq<Op>>, log: seq<Entry>, p: nat) returns (k: nat)
    requires FromRanges(ranges, progs) && Interleaves(log, progs) && p < |log|
    ensures log[p].t < |ranges| && k == |CallsOf(log[..p], log[p].t)|
    ensures log[p].op == Insert(ranges[log[p].t].0 + k) && ranges[log[p].t].0 + k <= ranges[log[p].t].1
  {
    k := |CallsOf(log[..p], log[p].t)|;
    assert log[p] in log;
    CallAt(log, p);
  }

  lemma OnlyInserts(ranges: seq<(int, int)>, progs: seq<seq<Op>>, log: seq<Entry>)
    requires FromRanges(ranges, progs) && Interleaves(log, progs)
    ensures forall e :: e in log ==> e.op.Insert?
  {
    forall p | 0 <= p < |log|
      ensures log[p].op.Insert?
    {
      var k := LogOfRanges(ranges, progs, log, p);
    }
  }

  lemma OlderIsSmaller(ranges: seq<(int, int)>, progs: seq<seq<Op>>, log: seq<Entry>, p: nat, q: nat)
    requires FromRanges(ranges, progs) && Interleaves(log, progs)
    requires p < q < |log| && log[p].t == log[q].t
    ensures log[p].op.val < log[q].op.val
  {
    var x := LogOfRanges(ranges, progs, log, p);
    var y := LogOfRanges(ranges, progs, log, q);
    CallsOrdered(log, p, q);
  }

  lemma ValuesInRanges(ranges: seq<(int, int)>, progs: seq<seq<Op>>, log: seq<Entry>, l: seq<int>)
    requires FromRanges(ranges, progs) && Interleaves(log, progs)
    requires |l| == |log| && forall i :: 0 <= i < |log| ==> l[i] == log[|log| - 1 - i].op.val
    ensures InRanges(l, Sources(log), ranges)
  {
    forall i | 0 <= i < |log|
      ensures Sources(log)[i] < |ranges| && ranges[Sources(log)[i]].0 <= l[i] <= ranges[Sources(log)[i]].1
    {
      var k := LogOfRanges(ranges, progs, log, |log| - 1 - i);
    }
  }

  lemma ValuesDescend(ranges: seq<(int, int)>, progs: seq<seq<Op>>, log: seq<Entry>, l: seq<int>)
    requires FromRanges(ranges, progs) && Interleaves(log, progs)
    requires |l| == |log| && forall i :: 0 <= i < |log| ==> l[i] == log[|log| - 1 - i].op.val
    ensures Descending(l, Sources(log))
  {
    forall i, j | 0 <= i < j < |log| && Sources(log)[i] == Sources(log)[j]
      ensures l[i] > l[j]
    {
      OlderIsSmaller(ranges, progs, log, |log| - 1 - j, |log| - 1 - i);
    }
  }

  lemma ListOfRanges(ranges: seq<(int, int)>, progs: seq<seq<Op>>, log: seq<Entry>)
    requires FromRanges(ranges, progs) && Interleaves(log, progs)
    ensures |ApplyAll(log)| == |log|
    ensures InRanges(ApplyAll(log), Sources(log), ranges) && Descending(ApplyAll(log), Sources(log))
  {
    OnlyInserts(ranges, progs, log);
    InsertsReverse(log);
    ValuesInRanges(ranges, progs, log, ApplyAll(log));
    ValuesDescend(ranges, progs, log, ApplyAll(log));
  }

  lemma CountsOfRanges(ranges: seq<(int, int)>, progs: seq<seq<Op>>, log: seq<Entry>, v: int)
    requires FromRanges(ranges, progs) && Interleaves(log, progs)
    ensures multiset(ApplyAll(log))[v] == Total(Occurrences(v), progs)
  {
    OnlyInserts(ranges, progs, log);
    CountInserts(log, |progs|, v);
    assert CallLists(log, |progs|) == progs;
  }

  /** The driver: one thread per range inserts the range in ascending order. After
      the joins every value is in the list as often as in all ranges together, and the
      values of each thread stand in descending order; `source` names the thread
      behind each position. */
  lemma DriverList(ranges: seq<(int, int)>, progs: seq<seq<Op>>, schedule: seq<(nat, Node)>, s: State)
      returns (chain: seq<Node>, source: seq<nat>)
    requires FromRanges(ranges, progs) && Run(Init(progs), schedule, s) && Stuck(s)
    ensures QuietList(s.heap, chain) && |source| == |chain| - 1
    ensures var l := Values(s.heap, chain[1..]);
      && InRanges(l, source, ranges) && Descending(l, source)
      && forall v :: multiset(l)[v] == Total(Occurrences(v), progs)
  {
    var log;
    chain, log := FinalList(progs, schedule, s);
    source := Sources(log);
    ListOfRanges(ranges, progs, log);
    forall v
      ensures multiset(Values(s.heap, chain[1..]))[v] == Total(Occurrences(v), progs)
    {
      CountsOfRanges(ranges, progs, log, v);
    }
  }
}
