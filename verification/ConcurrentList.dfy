/** The list as the program keeps it: nodes relinked and locked in place, one line of
    one thread at a time. The ghost fields hold the linked nodes and the order of the
    calls that explains them. */
module ConcurrentList {
  import opened LockCoupling
  import opened Linearizability
  import opened ListRuns

  // insert_list_from_to: the calls of one thread of the driver.
  method RangeProgram(a: int, b: int) returns (prog: seq<Op>)
    ensures prog == RangeInserts(a, b)
  {
    prog := [];
    var i := a;
    while i <= b
      invariant |prog| == i - a && (i == a || i <= b + 1)
      invariant forall k :: 0 <= k < |prog| ==> prog[k] == Insert(a + k)
      decreases b - i
    {
      prog := prog + [Insert(i)];
      i := i + 1;
    }
    var spec := RangeInserts(a, b);
    assert |prog| == |spec| && forall k :: 0 <= k < |prog| ==> prog[k] == spec[k];
  }

  lemma QuietNode(heap: Heap, nodes: seq<Node>, i: nat)
    requires QuietList(heap, nodes) && i < |nodes|
    ensures nodes[0] == HEAD && nodes[i] in heap && nodes[i] != NULL
    ensures heap[nodes[i]].owner == Free && heap[nodes[i]].next == Succ(nodes, i)
  {
  }

  // `out` holds the values of the nodes between the head and position `i`.
  predicate Printed(heap: Heap, nodes: seq<Node>, i: nat, out: seq<int>) {
    && 1 <= i <= |nodes| && |out| == i - 1
    && forall k :: 0 <= k < |out| ==> nodes[k + 1] in heap && out[k] == heap[nodes[k + 1]].val
  }

  lemma PrintedMore(heap: Heap, nodes: seq<Node>, i: nat, out: seq<int>)
    requires QuietList(heap, nodes) && Printed(heap, nodes, i, out) && i < |nodes|
    ensures nodes[i] in heap && nodes[i] != NULL
    ensures heap[nodes[i]].owner == Free && heap[nodes[i]].next == Succ(nodes, i)
    ensures Printed(heap, nodes, i + 1, out + [heap[nodes[i]].val])
  {
  }

  lemma PrintedAll(heap: Heap, nodes: seq<Node>, i: nat, out: seq<int>)
    requires QuietList(heap, nodes) && Printed(heap, nodes, i, out) && Succ(nodes, i - 1) == NULL
    ensures out == Values(heap, nodes[1..])
  {
    if i < |nodes| { QuietNode(heap, nodes, i); }
    SameValues(heap, nodes, out);
  }

  predicate Later(nodes: seq<Node>, i: nat, n: Node) {
    exists k :: i <= k < |nodes| && nodes[k] == n
  }

  // `now` is what is left of a quiet list when its first `i` nodes have been freed.
  ghost predicate Remains(heap: Heap, nodes: seq<Node>, i: nat, now: Heap) {
    && (forall k :: i <= k < |nodes| ==> nodes[k] in heap && nodes[k] in now && now[nodes[k]] == heap[nodes[k]])
    && forall n {:trigger Later(nodes, i, n)} :: n in now ==> Later(nodes, i, n)
  }

  lemma RemainsLess(heap: Heap, nodes: seq<Node>, i: nat, now: Heap)
    requires Distinct(nodes) && i < |nodes| && Remains(heap, nodes, i, now)
    ensures Remains(heap, nodes, i + 1, now - {nodes[i]})
  {
    forall n | n in now - {nodes[i]}
      ensures Later(nodes, i + 1, n)
    {
      assert Later(nodes, i, n);
    }
  }

  class List {
    var heap: Heap
    var threads: seq<Thread>
    ghost var chain: seq<Node>
    ghost var log: seq<Entry>

    function Snapshot(): State
      reads this
    {
      State(heap, threads)
    }

    ghost predicate Valid()
      reads this
    {
      Explains(Snapshot(), chain, log)
    }

    // list_init, and one thread for each program.
    constructor (progs: seq<seq<Op>>)
      ensures Valid() && Snapshot() == Init(progs) && log == []
    {
      heap := map[HEAD := Cell(0, NULL, Free)];
      threads := seq(|progs|, t requires 0 <= t < |progs| => Thread(progs[t], 0, Begin, NULL, NULL, NULL));
      chain, log := [HEAD], [];
      InitExplains(progs);
    }

    method Lock(t: nat, n: Node)
      requires n in heap
      modifies this`heap
      ensures heap == SetOwner(old(heap), n, Held(t))
    {
      heap := heap[n := heap[n].(owner := Held(t))];
    }

    method Unlock(n: Node)
      requires n in heap
      modifies this`heap
      ensures heap == SetOwner(old(heap), n, Free)
    {
      heap := heap[n := heap[n].(owner := Free)];
    }

    method Goto(t: nat, th: Thread)
      requires t < |threads|
      modifies this`threads
      ensures threads == old(threads)[t := th]
    {
      threads := threads[t := th];
    }

    // The line of list_insert that thread `t` is about to execute; `m` is what malloc returns.
    method InsertLine(t: nat, m: Node)
      requires t < |threads| && Ready(heap, threads[t], m) && Safe(heap, threads[t])
      requires InInsert(threads[t])
      modifies this`heap, this`threads
      ensures heap == Effect(old(heap), t, old(threads)[t], m)
      ensures threads == old(threads)[t := Advance(old(heap), old(threads)[t], m)]
    {
      var th := threads[t];
      match th.pc {
        case ILock => assert Touches(th, HEAD); Lock(t, HEAD); Goto(t, th.(pc := IRead, prev := HEAD));
        case IRead => assert Touches(th, th.prev); Goto(t, th.(pc := ILockCurr, curr := heap[th.prev].next));
        case ILockCurr =>
          if th.curr != NULL { assert Touches(th, th.curr); Lock(t, th.curr); }
          Goto(t, th.(pc := ILink));
        case ILink =>
          assert Touches(th, th.prev);
          heap := heap[th.prev := heap[th.prev].(next := th.newNode)];
          Goto(t, th.(pc := ISetNext));
        case ISetNext =>
          assert Touches(th, th.newNode);
          heap := heap[th.newNode := heap[th.newNode].(next := th.curr)];
          Goto(t, th.(pc := IUnlockCurr));
        case IUnlockCurr =>
          if th.curr != NULL { assert Touches(th, th.curr); Unlock(th.curr); }
          Goto(t, th.(pc := IUnlockPrev));
        case IUnlockPrev => assert Touches(th, th.prev); Unlock(th.prev); Goto(t, Return(th));
      }
    }

    // The same for list_delete, and for the start of either call.
    method DeleteLine(t: nat, m: Node)
      requires t < |threads| && Ready(heap, threads[t], m) && Safe(heap, threads[t])
      requires !InInsert(threads[t])
      modifies this`heap, this`threads
      ensures heap == Effect(old(heap), t, old(threads)[t], m)
      ensures threads == old(threads)[t := Advance(old(heap), old(threads)[t], m)]
    {
      var th := threads[t];
      match th.pc {
        case Begin =>
          if th.prog[th.ip].Insert? {
            heap := heap[m := Cell(th.prog[th.ip].val, NULL, Free)];
            Goto(t, th.(pc := ILock, newNode := m));
          } else {
            Goto(t, th.(pc := DLock));
          }
        case DLock => assert Touches(th, HEAD); Lock(t, HEAD); Goto(t, th.(pc := DRead, prev := HEAD));
        case DRead => assert Touches(th, th.prev); Goto(t, th.(pc := DLockCurr, curr := heap[th.prev].next));
        case DLockCurr =>
          if th.curr != NULL { assert Touches(th, th.curr); Lock(t, th.curr); }
          Goto(t, th.(pc := DTest));
        case DTest =>
          if th.curr == NULL {
            Goto(t, th.(pc := DUnlockLast));
          } else {
            assert Touches(th, th.curr);
            Goto(t, th.(pc := if heap[th.curr].val == th.prog[th.ip].val then DUnlink else DUnlockPrev));
          }
        case DUnlink =>
          assert Touches(th, th.prev) && Touches(th, th.curr);
          heap := heap[th.prev := heap[th.prev].(next := heap[th.curr].next)];
          Goto(t, th.(pc := DUnlockFound));
        case DUnlockFound => assert Touches(th, th.prev); Unlock(th.prev); Goto(t, th.(pc := DFree));
        case DFree => heap := heap - {th.curr}; Goto(t, Return(th));
        case DUnlockPrev => assert Touches(th, th.prev); Unlock(th.prev); Goto(t, th.(pc := DAdvance));
        case DAdvance =>
          assert Touches(th, th.curr);
          Goto(t, th.(pc := DLockCurr, prev := th.curr, curr := heap[th.curr].next));
        case DUnlockLast => assert Touches(th, th.prev); Unlock(th.prev); Goto(t, Return(th));
      }
    }

    /** Thread `t` executes its next line unless it has none or its mutex is taken.
        The order of the calls grows exactly when the line is where a call takes effect. */
    method Execute(t: nat, m: Node) returns (moved: bool)
      requires Valid()
      modifies this
      ensures Valid()
      ensures moved == Enabled(old(Snapshot()), t, m)
      ensures Snapshot() == if moved then Step(old(Snapshot()), t, m) else old(Snapshot())
      ensures log == if moved then LogAfter(old(log), t, old(threads)[t]) else old(log)
    {
      moved := t < |threads| && Ready(heap, threads[t], m);
      if moved {
        MemorySafety(Snapshot(), chain, t);
        StepExplains(Snapshot(), chain, log, t, m);
        chain, log := ChainAfter(chain, threads[t]), LogAfter(log, t, threads[t]);
        if InInsert(threads[t]) { InsertLine(t, m); } else { DeleteLine(t, m); }
      } else if t < |threads| {
        assert !Ready(heap, threads[t], m);
      }
    }

    // One turn of the loop of list_print.
    method Visit(curr: Node) returns (val: int, next: Node)
      requires curr in heap && heap[curr].owner == Free
      modifies this`heap
      ensures heap == old(heap) && val == heap[curr].val && next == heap[curr].next
    {
      Lock(|threads|, curr);
      val := heap[curr].val;
      next := heap[curr].next;
      Unlock(curr);
      assert heap == old(heap);
    }

    /** list_print after the joins: it prints the list and leaves it as it was. */
    method Print() returns (out: seq<int>)
      requires QuietList(heap, chain)
      modifies this`heap
      ensures heap == old(heap) && out == Values(heap, chain[1..])
    {
      ghost var h, nodes := heap, chain;
      out := [];
      QuietNode(h, nodes, 0);
      var curr := heap[HEAD].next;
      ghost var i := 1;
      while curr != NULL
        invariant heap == h && Printed(h, nodes, i, out) && curr == Succ(nodes, i - 1)
        decreases |nodes| - i
      {
        PrintedMore(h, nodes, i, out);
        var val;
        val, curr := Visit(curr);
        out := out + [val];
        i := i + 1;
      }
      PrintedAll(h, nodes, i, out);
    }

    /** list_free after the joins: it frees every node once and leaves none allocated. */
    method FreeAll()
      requires QuietList(heap, chain)
      modifies this`heap
      ensures heap == map[]
    {
      ghost var h, nodes := heap, chain;
      QuietNode(h, nodes, 0);
      forall n | n in h ensures Later(nodes, 0, n) {}
      var curr := HEAD;
      ghost var i := 0;
      while curr != NULL
        invariant 0 <= i <= |nodes| && curr == if i < |nodes| then nodes[i] else NULL
        invariant QuietList(h, nodes) && Remains(h, nodes, i, heap)
        decreases |nodes| - i
      {
        QuietNode(h, nodes, i);
        RemainsLess(h, nodes, i, heap);
        var temp := curr;
        curr := heap[curr].next;
        heap := heap - {temp};
        i := i + 1;
      }
      assert i == |nodes| by { if i < |nodes| { QuietNode(h, nodes, i); } }
      assert forall n :: n in heap ==> Later(nodes, i, n);
    }
  }
}
