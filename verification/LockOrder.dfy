/** What the order of locking gives the hand-over-hand list: no node is freed under
    another thread, no set of threads ever blocks itself, and every run ends. */
module LockOrder {
  import opened Sums
  import opened LockCoupling
  import opened Linearizability

  // ------------------------------------------------------------------ reclamation

  // The pointers a thread may still follow, lock or unlock.
  predicate Refers(th: Thread, n: Node) {
    || HasLock(th, n)
    || (HasNew(th) && n == th.newNode)
    || ((th.pc == ILockCurr || th.pc == DLockCurr || th.pc == ISetNext) && n == th.curr && n != NULL)
    || (th.pc == ISetNext && n == th.newNode)
  }

  /** When a delete frees a node, no other thread can still use it or wait for its
      mutex, and no linked node leads to it. */
  lemma SafeReclamation(s: State, chain: seq<Node>, t: nat, u: nat)
    requires Inv(s, chain) && t < |s.threads| && s.threads[t].pc == DFree
    requires u < |s.threads| && u != t
    ensures !Refers(s.threads[u], s.threads[t].curr)
    ensures forall i :: 0 <= i < |chain| ==> s.heap[chain[i]].next != s.threads[t].curr
  {
    var n, other := s.threads[t].curr, s.threads[u];
    assert ThreadOk(s.heap, chain, t, s.threads[t]) && ThreadOk(s.heap, chain, u, other);
    assert HasLock(s.threads[t], n);
    if other.pc == ILockCurr || other.pc == DLockCurr {
      var i := Position(s, chain, u);
    }
    forall i | 0 <= i < |chain|
      ensures s.heap[chain[i]].next != n
    {
      NextIsLinked(s, chain, i);
    }
  }

  // A linked node leads to a linked node, to nothing, or is the inserter's own node.
  lemma NextIsLinked(s: State, chain: seq<Node>, i: nat)
    requires Inv(s, chain) && i < |chain|
    ensures s.heap[chain[i]].next == NULL || s.heap[chain[i]].next in chain
  {
    if i == 1 && HalfLinked(s.heap, s.threads) {
      var t := s.heap[HEAD].owner.t;
      assert ThreadOk(s.heap, chain, t, s.threads[t]) && HasLock(s.threads[t], HEAD);
    } else {
      assert s.heap[chain[i]].next == Succ(chain, i);
    }
  }

  // ------------------------------------------------------------------ deadlock freedom

  // The furthest locked node among the first `k`, if any is locked.
  lemma {:induction false} FurthestLocked(s: State, chain: seq<Node>, k: nat) returns (i: int)
    requires Inv(s, chain) && k <= |chain|
    ensures -1 <= i < k
    ensures i >= 0 ==> s.heap[chain[i]].owner.Held?
    ensures forall j :: i < j < k ==> s.heap[chain[j]].owner == Free
  {
    if k == 0 {
      i := -1;
    } else if s.heap[chain[k - 1]].owner.Held? {
      i := k - 1;
    } else {
      i := FurthestLocked(s, chain, k - 1);
    }
  }

  /** The thread that holds the furthest locked node can always move. */
  lemma FurthestMoves(s: State, chain: seq<Node>, i: nat, m: Node)
    requires Inv(s, chain) && i < |chain| && s.heap[chain[i]].owner.Held?
    requires forall j :: i < j < |chain| ==> s.heap[chain[j]].owner == Free
    requires m !in s.heap && m != NULL
    ensures Enabled(s, s.heap[chain[i]].owner.t, m)
  {
    var t := s.heap[chain[i]].owner.t;
    assert Owned(s.heap, s.threads, chain[i]);
    assert ThreadOk(s.heap, chain, t, s.threads[t]);
    MemorySafety(s, chain, t);
    if s.threads[t].pc == ILockCurr || s.threads[t].pc == DLockCurr {
      var k := Position(s, chain, t);
      assert k == i;
    }
  }

  lemma UnlockedMoves(s: State, chain: seq<Node>, u: nat, m: Node)
    requires Inv(s, chain) && u < |s.threads| && Running(s.threads[u])
    requires forall j :: 0 <= j < |chain| ==> s.heap[chain[j]].owner == Free
    requires m !in s.heap && m != NULL
    ensures Enabled(s, u, m)
  {
    assert ThreadOk(s.heap, chain, u, s.threads[u]);
    MemorySafety(s, chain, u);
    if s.threads[u].pc == ILockCurr || s.threads[u].pc == DLockCurr {
      assert HasLock(s.threads[u], s.threads[u].prev);
      var k := Position(s, chain, u);
    }
  }

  /** Deadlock freedom: while some thread has calls left, some thread can move,
      whatever address malloc has to offer. */
  lemma DeadlockFree(s: State, chain: seq<Node>, u: nat) returns (t: nat)
    requires Inv(s, chain) && u < |s.threads| && Running(s.threads[u])
    ensures forall m :: m !in s.heap && m != NULL ==> Enabled(s, t, m)
  {
    var i := FurthestLocked(s, chain, |chain|);
    t := if i >= 0 then s.heap[chain[i]].owner.t else u;
    forall m | m !in s.heap && m != NULL
      ensures Enabled(s, t, m)
    {
      if i >= 0 {
        FurthestMoves(s, chain, i, m);
      } else {
        UnlockedMoves(s, chain, u, m);
      }
    }
  }

  /** A heap is finite, so malloc always has an address to offer. */
  lemma FreeAddress(heap: Heap) returns (m: Node)
    ensures m !in heap && m != NULL
  {
    m := Above(heap.Keys);
  }

  lemma {:induction false} Above(nodes: set<Node>) returns (m: Node)
    ensures m > 0 && forall n :: n in nodes ==> n < m
    decreases |nodes|
  {
    if nodes == {} {
      m := 1;
    } else {
      var n :| n in nodes;
      var k := Above(nodes - {n});
      m := if n < k then k else n + 1;
      assert forall x :: x in nodes ==> x == n || x in nodes - {n};
    }
  }

  // ------------------------------------------------------------------ termination

  function InsertsIn(ops: seq<Op>): nat {
    if ops == [] then 0 else (if ops[0].Insert? then 1 else 0) + InsertsIn(ops[1..])
  }

  // The nodes that a thread will still link.
  function PendingInserts(th: Thread): nat {
    if Effective(th) <= |th.prog| then InsertsIn(th.prog[Effective(th)..]) else 0
  }

  // `bound` limits the number of nodes that will ever be linked at once.
  ghost predicate Bounded(s: State, chain: seq<Node>, bound: nat) {
    |chain| + Total(PendingInserts, s.threads) <= bound
  }

  // The part of the list that a delete has not searched yet, its anchor included.
  ghost function Ahead(chain: seq<Node>, n: Node): nat {
    if n in chain then |chain| - IndexOf(chain, n) else 0
  }

  // The steps left in the running call, at most.
  ghost function CallSteps(bound: nat, chain: seq<Node>, th: Thread): nat {
    match th.pc
    case Begin => 4 * bound + 10
    case ILock => 7 case IRead => 6 case ILockCurr => 5 case ILink => 4 case ISetNext => 3
    case IUnlockCurr => 2 case IUnlockPrev => 1
    case DLock => 4 * bound + 9
    case DRead => 4 * Ahead(chain, th.prev) + 8
    case DLockCurr => 4 * Ahead(chain, th.prev) + 7
    case DTest => 4 * Ahead(chain, th.prev) + 6
    case DUnlink => 4 * Ahead(chain, th.prev) + 5
    case DUnlockPrev => 4 * Ahead(chain, th.curr) + 9
    case DAdvance => 4 * Ahead(chain, th.curr) + 8
    case DUnlockFound => 2 case DFree => 1 case DUnlockLast => 1
  }

  // The steps of `k` calls that have not begun, at most.
  ghost function CallsSteps(k: nat, bound: nat): nat {
    if k == 0 then 0 else 4 * bound + 10 + CallsSteps(k - 1, bound)
  }

  // The steps left in all calls of the thread, at most.
  ghost function ThreadSteps(bound: nat, chain: seq<Node>, th: Thread): nat {
    if Running(th) then CallsSteps(|th.prog| - th.ip - 1, bound) + CallSteps(bound, chain, th) else 0
  }

  ghost function StepsLeft(bound: nat, chain: seq<Node>): Thread -> nat {
    (th: Thread) => ThreadSteps(bound, chain, th)
  }

  lemma AheadAfter(s: State, chain: seq<Node>, t: nat, n: Node)
    requires Inv(s, chain) && t < |s.threads| && n in chain
    requires n == HEAD ==> s.threads[t].pc != ILink
    requires s.threads[t].pc == DUnlink ==> n != s.threads[t].curr
    ensures Ahead(ChainAfter(chain, s.threads[t]), n) <= Ahead(chain, n)
  {
    var th := s.threads[t];
    var chain', i := ChainAfter(chain, th), IndexOf(chain, n);
    assert ThreadOk(s.heap, chain, t, th);
    if th.pc == ILink {
      assert chain'[i + 1] == n;
      LinkDistinct(chain, th.newNode);
    } else if th.pc == DUnlink && th.curr in chain {
      var j := IndexOf(chain, th.curr);
      WithoutDistinct(chain, j);
      assert chain'[if i < j then i else i - 1] == n;
    }
  }

  // The other threads do not get further from their end.
  lemma OthersSteps(s: State, chain: seq<Node>, t: nat, m: Node, bound: nat, u: nat)
    requires Inv(s, chain) && Enabled(s, t, m) && u < |s.threads| && u != t
    ensures ThreadSteps(bound, ChainAfter(chain, s.threads[t]), s.threads[u]) <= ThreadSteps(bound, chain, s.threads[u])
  {
    var th, other := s.threads[t], s.threads[u];
    assert ThreadOk(s.heap, chain, t, th) && ThreadOk(s.heap, chain, u, other);
    var n := Anchor(other);
    AnchorLocked(s.heap, chain, u, other);
    if n != NULL && n in chain {
      assert th.pc == ILink ==> HasLock(th, HEAD);
      assert th.pc == DUnlink ==> HasLock(th, th.curr);
      AheadAfter(s, chain, t, n);
    } else if n != NULL {
      AnchorLinked(s, chain, u);
    }
  }

  lemma AnchorLinked(s: State, chain: seq<Node>, u: nat)
    requires Inv(s, chain) && u < |s.threads| && Anchor(s.threads[u]) != NULL
    ensures Anchor(s.threads[u]) in chain
  {
    assert ThreadOk(s.heap, chain, u, s.threads[u]);
    if s.threads[u].pc == DUnlockPrev {
      var i := Position(s, chain, u);
    }
  }

  predicate Returning(th: Thread) { th.pc == IUnlockPrev || th.pc == DFree || th.pc == DUnlockLast }

  lemma OwnCallSteps(heap: Heap, chain: seq<Node>, chain': seq<Node>, t: nat, th: Thread, m: Node, bound: nat)
    requires Ready(heap, th, m) && Safe(heap, th) && !Returning(th)
    requires chain' == chain || th.pc == ILink || th.pc == DUnlink
    requires Ahead(chain, HEAD) <= bound
    requires (th.pc == DTest || th.pc == DUnlockPrev) && th.curr != NULL ==>
      Ahead(chain, th.curr) == Ahead(chain, th.prev) - 1
    ensures CallSteps(bound, chain', Advance(heap, th, m)) < CallSteps(bound, chain, th)
    ensures Running(Advance(heap, th, m)) && Advance(heap, th, m).ip == th.ip && Advance(heap, th, m).prog == th.prog
  {
  }

  lemma ReturnSteps(bound: nat, chain: seq<Node>, chain': seq<Node>, th: Thread)
    requires Running(th) && Returning(th)
    ensures ThreadSteps(bound, chain', Return(th)) < ThreadSteps(bound, chain, th)
  {
  }

  lemma AheadOfNext(s: State, chain: seq<Node>, t: nat)
    requires Inv(s, chain) && t < |s.threads| && (s.threads[t].pc == DTest || s.threads[t].pc == DUnlockPrev)
    ensures s.threads[t].curr != NULL ==> Ahead(chain, s.threads[t].curr) == Ahead(chain, s.threads[t].prev) - 1
  {
    var i := Position(s, chain, t);
  }

  // The thread itself gets closer to its end.
  lemma OwnSteps(s: State, chain: seq<Node>, t: nat, m: Node, bound: nat)
    requires Inv(s, chain) && Enabled(s, t, m) && |chain| <= bound
    ensures ThreadSteps(bound, ChainAfter(chain, s.threads[t]), Step(s, t, m).threads[t]) <
            ThreadSteps(bound, chain, s.threads[t])
  {
    var th, chain' := s.threads[t], ChainAfter(chain, s.threads[t]);
    if Returning(th) {
      ReturnSteps(bound, chain, chain', th);
    } else {
      if th.pc == DTest || th.pc == DUnlockPrev {
        AheadOfNext(s, chain, t);
      }
      OwnCallSteps(s.heap, chain, chain', t, th, m, bound);
      SameCall(bound, chain, chain', th, Advance(s.heap, th, m));
    }
  }

  lemma SameCall(bound: nat, chain: seq<Node>, chain': seq<Node>, th: Thread, th': Thread)
    requires Running(th) && th'.ip == th.ip && th'.prog == th.prog
    requires CallSteps(bound, chain', th') < CallSteps(bound, chain, th)
    ensures ThreadSteps(bound, chain', th') < ThreadSteps(bound, chain, th)
  {
  }

  lemma {:induction false} InsertsSuffix(ops: seq<Op>, i: nat)
    requires i < |ops|
    ensures InsertsIn(ops[i..]) == (if ops[i].Insert? then 1 else 0) + InsertsIn(ops[i + 1..])
  {
    assert ops[i..][1..] == ops[i + 1..];
  }

  lemma StepBounded(s: State, chain: seq<Node>, t: nat, m: Node, bound: nat)
    requires Inv(s, chain) && Enabled(s, t, m) && Bounded(s, chain, bound)
    ensures Bounded(Step(s, t, m), ChainAfter(chain, s.threads[t]), bound)
  {
    var th, th' := s.threads[t], Step(s, t, m).threads[t];
    assert ThreadOk(s.heap, chain, t, th);
    OwnEffect(s.heap, chain, t, th, m);
    TotalUpdate(PendingInserts, s.threads, t, th');
    if TakesEffect(th) {
      InsertsSuffix(th.prog, th.ip);
    }
  }

  lemma StepShortens(s: State, chain: seq<Node>, t: nat, m: Node, bound: nat)
    requires Inv(s, chain) && Enabled(s, t, m) && Bounded(s, chain, bound)
    ensures Total(StepsLeft(bound, ChainAfter(chain, s.threads[t])), Step(s, t, m).threads) <
            Total(StepsLeft(bound, chain), s.threads)
  {
    var f, g := StepsLeft(bound, ChainAfter(chain, s.threads[t])), StepsLeft(bound, chain);
    var ts' := Step(s, t, m).threads;
    OwnSteps(s, chain, t, m, bound);
    forall u | 0 <= u < |ts'|
      ensures f(ts'[u]) <= g(s.threads[u])
    {
      if u != t {
        OthersSteps(s, chain, t, m, bound, u);
      }
    }
    TotalDecreases(f, ts', g, s.threads, t);
  }

  lemma {:induction false} RunIsShort(s: State, chain: seq<Node>, bound: nat, schedule: seq<(nat, Node)>, s': State)
    requires Inv(s, chain) && Bounded(s, chain, bound) && Run(s, schedule, s')
    ensures |schedule| <= Total(StepsLeft(bound, chain), s.threads)
    decreases |schedule|
  {
    if schedule != [] {
      var t, m := schedule[0].0, schedule[0].1;
      var chain1, s1 := ChainAfter(chain, s.threads[t]), Step(s, t, m);
      StepInv(s, chain, t, m);
      StepBounded(s, chain, t, m, bound);
      StepShortens(s, chain, t, m, bound);
      RunIsShort(s1, chain1, bound, schedule[1..], s');
    }
  }
}
