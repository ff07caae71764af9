/** The hand-over-hand list: any number of threads run arbitrary programs of
    list_insert and list_delete on one list, one line at a time. A node is an
    address in a heap of cells that malloc extends and free shrinks. */
module LockCoupling {

  type Node = nat
  const NULL: Node := 0
  const HEAD: Node := 1   // the address that list_init got for `list->head`

  datatype Owner = Free | Held(t: nat)
  datatype Cell = Cell(val: int, next: Node, owner: Owner)
  type Heap = map<Node, Cell>

  datatype Op = Insert(val: int) | Delete(val: int)

  // The line a thread is about to execute.
  datatype Pc =
    | Begin
    // list_insert
    | ILock | IRead | ILockCurr | ILink | ISetNext | IUnlockCurr | IUnlockPrev
    // list_delete
    | DLock | DRead | DLockCurr | DTest | DUnlink | DUnlockFound | DFree | DUnlockPrev | DAdvance | DUnlockLast

  // `prog[ip]` is the running call; `prev`, `curr` and `newNode` (new_node) are its locals.
  datatype Thread = Thread(prog: seq<Op>, ip: nat, pc: Pc, prev: Node, curr: Node, newNode: Node)

  datatype State = State(heap: Heap, threads: seq<Thread>)

  predicate Running(th: Thread) { th.ip < |th.prog| }

  function CurrentOp(th: Thread): Op
    requires Running(th)
  {
    th.prog[th.ip]
  }

  function Return(th: Thread): Thread { th.(pc := Begin, ip := th.ip + 1) }

  // The node whose mutex the next line locks.
  function Locking(th: Thread): Node {
    match th.pc
    case ILock | DLock => HEAD
    case ILockCurr | DLockCurr => th.curr
    case _ => NULL
  }

  // Does the next line dereference, lock, unlock or free node `n`?
  predicate Touches(th: Thread, n: Node) {
    match th.pc
    case Begin => false
    case ILock | DLock => n == HEAD
    case IRead | ILink | IUnlockPrev | DRead | DUnlockFound | DUnlockPrev | DUnlockLast => n == th.prev
    case ILockCurr | DLockCurr | IUnlockCurr | DTest => n == th.curr && n != NULL
    case ISetNext => n == th.newNode
    case DUnlink => n == th.prev || n == th.curr
    case DFree | DAdvance => n == th.curr
  }

  ghost predicate Safe(heap: Heap, th: Thread) {
    forall n :: Touches(th, n) ==> n in heap
  }

  // Is the mutex free that the next line wants, and is there work to do? `m` is what malloc would return.
  predicate Ready(heap: Heap, th: Thread, m: Node) {
    && Running(th)
    && m !in heap && m != NULL
    && (Locking(th) in heap ==> heap[Locking(th)].owner == Free)
  }

  // What the executed line does to the thread ...
  function Advance(heap: Heap, th: Thread, m: Node): Thread
    requires Ready(heap, th, m) && Safe(heap, th)
  {
    assert forall n :: Touches(th, n) ==> n in heap;
    match th.pc
    case Begin => if CurrentOp(th).Insert? then th.(pc := ILock, newNode := m) else th.(pc := DLock)
    case ILock => th.(pc := IRead, prev := HEAD)
    case IRead => assert Touches(th, th.prev); th.(pc := ILockCurr, curr := heap[th.prev].next)
    case ILockCurr => th.(pc := ILink)
    case ILink => th.(pc := ISetNext)
    case ISetNext => th.(pc := IUnlockCurr)
    case IUnlockCurr => th.(pc := IUnlockPrev)
    case IUnlockPrev => Return(th)
    case DLock => th.(pc := DRead, prev := HEAD)
    case DRead => assert Touches(th, th.prev); th.(pc := DLockCurr, curr := heap[th.prev].next)
    case DLockCurr => th.(pc := DTest)
    case DTest =>
      if th.curr == NULL then th.(pc := DUnlockLast)
      else assert Touches(th, th.curr);
           if heap[th.curr].val == CurrentOp(th).val then th.(pc := DUnlink) else th.(pc := DUnlockPrev)
    case DUnlink => th.(pc := DUnlockFound)
    case DUnlockFound => th.(pc := DFree)
    case DFree => Return(th)
    case DUnlockPrev => th.(pc := DAdvance)
    case DAdvance => assert Touches(th, th.curr); th.(pc := DLockCurr, prev := th.curr, curr := heap[th.curr].next)
    case DUnlockLast => Return(th)
  }

  function SetOwner(heap: Heap, n: Node, o: Owner): Heap
    requires n in heap
  {
    heap[n := heap[n].(owner := o)]
  }

  function SetNext(heap: Heap, n: Node, m: Node): Heap
    requires n in heap
  {
    heap[n := heap[n].(next := m)]
  }

  // ... and what it does to the heap.
  function Effect(heap: Heap, t: nat, th: Thread, m: Node): Heap
    requires Ready(heap, th, m) && Safe(heap, th)
  {
    match th.pc
    case Begin => if CurrentOp(th).Insert? then heap[m := Cell(CurrentOp(th).val, NULL, Free)] else heap
    case ILock | DLock => assert Touches(th, HEAD); SetOwner(heap, HEAD, Held(t))
    case ILockCurr | DLockCurr =>
      if th.curr != NULL then assert Touches(th, th.curr); SetOwner(heap, th.curr, Held(t)) else heap
    case ILink => assert Touches(th, th.prev); SetNext(heap, th.prev, th.newNode)
    case ISetNext => assert Touches(th, th.newNode); SetNext(heap, th.newNode, th.curr)
    case IUnlockCurr =>
      if th.curr != NULL then assert Touches(th, th.curr); SetOwner(heap, th.curr, Free) else heap
    case DUnlink => assert Touches(th, th.prev) && Touches(th, th.curr); SetNext(heap, th.prev, heap[th.curr].next)
    case IUnlockPrev | DUnlockFound | DUnlockPrev | DUnlockLast =>
      assert Touches(th, th.prev); SetOwner(heap, th.prev, Free)
    case DFree => heap - {th.curr}
    case IRead | DRead | DTest | DAdvance => heap
  }

  /** Can thread `t` execute its next line, with `m` the address malloc would give it? */
  ghost predicate Enabled(s: State, t: nat, m: Node) {
    t < |s.threads| && Ready(s.heap, s.threads[t], m) && Safe(s.heap, s.threads[t])
  }

  function Step(s: State, t: nat, m: Node): State
    requires Enabled(s, t, m)
  {
    State(Effect(s.heap, t, s.threads[t], m), s.threads[t := Advance(s.heap, s.threads[t], m)])
  }

  // list_init followed by the creation of one thread per program.
  function Init(progs: seq<seq<Op>>): State {
    State(map[HEAD := Cell(0, NULL, Free)],
          seq(|progs|, t requires 0 <= t < |progs| => Thread(progs[t], 0, Begin, NULL, NULL, NULL)))
  }

  // ------------------------------------------------------------------ the invariant

  // Does the thread hold the mutex of node `n`?
  predicate HasLock(th: Thread, n: Node) {
    match th.pc
    case Begin | ILock | DLock => false
    case IRead | ILockCurr | IUnlockPrev | DRead | DLockCurr | DUnlockLast => n == th.prev
    case ILink | ISetNext | IUnlockCurr | DTest => n == th.prev || (n == th.curr && n != NULL)
    case DUnlink | DUnlockFound | DUnlockPrev => n == th.prev || n == th.curr
    case DFree | DAdvance => n == th.curr
  }

  // The new node, before it is linked.
  predicate HasNew(th: Thread) { th.pc == ILock || th.pc == IRead || th.pc == ILockCurr || th.pc == ILink }

  // The removed node, before it is freed.
  predicate HasVictim(th: Thread) { th.pc == DUnlockFound || th.pc == DFree }

  predicate InInsert(th: Thread) {
    HasNew(th) || th.pc == ISetNext || th.pc == IUnlockCurr || th.pc == IUnlockPrev
  }

  function Succ(chain: seq<Node>, i: nat): Node {
    if i + 1 < |chain| then chain[i + 1] else NULL
  }

  predicate Distinct(chain: seq<Node>) {
    forall i, j :: 0 <= i < j < |chain| ==> chain[i] != chain[j]
  }

  // `chain` is the sequence of linked nodes, the head first.
  predicate ChainOk(heap: Heap, chain: seq<Node>) {
    && |chain| > 0 && chain[0] == HEAD && Distinct(chain) && NULL !in heap
    && forall i :: 0 <= i < |chain| ==> chain[i] in heap
  }

  // Between its lines 44 and 45 an inserter's own node is linked but does not lead on yet.
  predicate HalfLinked(heap: Heap, threads: seq<Thread>) {
    && HEAD in heap && heap[HEAD].owner.Held? && heap[HEAD].owner.t < |threads|
    && threads[heap[HEAD].owner.t].pc == ISetNext
  }

  predicate Links(heap: Heap, threads: seq<Thread>, chain: seq<Node>)
    requires ChainOk(heap, chain)
  {
    forall i {:trigger Succ(chain, i)} :: 0 <= i < |chain| && !(i == 1 && HalfLinked(heap, threads)) ==>
      heap[chain[i]].next == Succ(chain, i)
  }

  predicate Private(heap: Heap, chain: seq<Node>, th: Thread)
    requires Running(th)
  {
    th.newNode in heap && th.newNode !in chain && heap[th.newNode] == Cell(CurrentOp(th).val, NULL, Free)
  }

  predicate Adjacent(heap: Heap, chain: seq<Node>, th: Thread) {
    th.prev in heap && th.prev in chain && th.curr == heap[th.prev].next
  }

  // Where a thread stands in the list.
  predicate Placed(heap: Heap, chain: seq<Node>, th: Thread)
    requires Running(th)
  {
    match th.pc
    case Begin | DLock => true
    case ILock => Private(heap, chain, th)
    case IRead => Private(heap, chain, th) && th.prev == HEAD
    case ILockCurr | ILink => Private(heap, chain, th) && th.prev == HEAD && Adjacent(heap, chain, th)
    case ISetNext =>
      && th.prev == HEAD && |chain| >= 2 && chain[1] == th.newNode && th.curr == Succ(chain, 1)
      && th.newNode in heap && heap[th.newNode].owner == Free && heap[th.newNode].next == NULL
    case IUnlockCurr => th.prev == HEAD && th.curr != HEAD
    case IUnlockPrev => th.prev == HEAD
    case DRead => th.prev in chain
    case DLockCurr | DTest => Adjacent(heap, chain, th)
    case DUnlink => Adjacent(heap, chain, th) && th.curr in heap && heap[th.curr].val == CurrentOp(th).val
    case DUnlockPrev => Adjacent(heap, chain, th) && th.curr in heap && heap[th.curr].val != CurrentOp(th).val
    case DUnlockFound => th.prev in chain && th.curr !in chain
    case DFree => th.curr !in chain
    case DAdvance => th.curr in chain
    case DUnlockLast => th.prev in chain && th.curr == NULL
  }

  ghost predicate ThreadOk(heap: Heap, chain: seq<Node>, t: nat, th: Thread) {
    && (th.pc != Begin ==> Running(th))
    && (Running(th) ==> Placed(heap, chain, th))
    && (Running(th) && th.pc != Begin ==> (CurrentOp(th).Insert? <==> InInsert(th)))
    && (forall n :: HasLock(th, n) ==> n in heap && heap[n].owner == Held(t))
  }

  ghost predicate Owned(heap: Heap, threads: seq<Thread>, n: Node)
    requires n in heap
  {
    heap[n].owner.Held? ==> heap[n].owner.t < |threads| && HasLock(threads[heap[n].owner.t], n)
  }

  predicate NewApart(threads: seq<Thread>) {
    forall t, u :: 0 <= t < u < |threads| && HasNew(threads[t]) && HasNew(threads[u]) ==>
      threads[t].newNode != threads[u].newNode
  }

  // Some thread will link or free the node.
  predicate Claimed(threads: seq<Thread>, n: Node) {
    exists t :: 0 <= t < |threads| && Claims(threads[t], n)
  }

  predicate Claims(th: Thread, n: Node) {
    (HasNew(th) && th.newNode == n) || (HasVictim(th) && th.curr == n)
  }

  ghost predicate Inv(s: State, chain: seq<Node>) {
    && ChainOk(s.heap, chain)
    && Links(s.heap, s.threads, chain)
    && (forall n {:trigger Owned(s.heap, s.threads, n)} :: n in s.heap ==> Owned(s.heap, s.threads, n))
    && (forall t {:trigger ThreadOk(s.heap, chain, t, s.threads[t])} :: 0 <= t < |s.threads| ==>
          ThreadOk(s.heap, chain, t, s.threads[t]))
    && NewApart(s.threads)
    && (forall n {:trigger Claimed(s.threads, n)} :: n in s.heap ==> n in chain || Claimed(s.threads, n))
  }

  // ------------------------------------------------------------------ memory safety

  // Where a linked node leads, as seen by a thread that holds its mutex.
  lemma NextOf(s: State, chain: seq<Node>, t: nat, i: nat)
    requires Inv(s, chain) && t < |s.threads| && i < |chain| && HasLock(s.threads[t], chain[i])
    requires s.threads[t].pc != ISetNext
    ensures s.heap[chain[i]].next == Succ(chain, i)
  {
    assert ThreadOk(s.heap, chain, t, s.threads[t]);
    if HalfLinked(s.heap, s.threads) {
      var u := s.heap[HEAD].owner.t;
      assert ThreadOk(s.heap, chain, u, s.threads[u]);
    }
  }

  /** No thread ever touches a node that is not allocated. */
  lemma MemorySafety(s: State, chain: seq<Node>, t: nat)
    requires Inv(s, chain) && t < |s.threads|
    ensures Safe(s.heap, s.threads[t])
  {
    var th := s.threads[t];
    assert ThreadOk(s.heap, chain, t, th);
    forall n | Touches(th, n)
      ensures n in s.heap
    {
      if HasLock(th, n) {
      } else if th.pc == ILockCurr || th.pc == DLockCurr {
        assert HasLock(th, th.prev);
        var i :| 0 <= i < |chain| && chain[i] == th.prev;
        NextOf(s, chain, t, i);
      }
    }
  }

  // ------------------------------------------------------------------ preservation

  ghost function IndexOf(chain: seq<Node>, n: Node): (i: nat)
    requires n in chain
    ensures i < |chain| && chain[i] == n
  {
    var i :| 0 <= i < |chain| && chain[i] == n; i
  }

  function Without(chain: seq<Node>, i: nat): seq<Node>
    requires i < |chain|
  {
    chain[..i] + chain[i + 1..]
  }

  // The linked nodes after the step: line 44 links a node behind the head, line 65 unlinks one.
  ghost function ChainAfter(chain: seq<Node>, th: Thread): seq<Node>
  {
    if th.pc == ILink && chain != [] then [HEAD, th.newNode] + chain[1..]
    else if th.pc == DUnlink && th.curr in chain then Without(chain, IndexOf(chain, th.curr))
    else chain
  }

  // The thread's own position, spelled out.
  lemma Position(s: State, chain: seq<Node>, t: nat) returns (i: nat)
    requires Inv(s, chain) && t < |s.threads|
    requires s.threads[t].pc in {ILockCurr, ILink, DLockCurr, DTest, DUnlink, DUnlockPrev}
    ensures i < |chain| && chain[i] == s.threads[t].prev && s.threads[t].curr == Succ(chain, i)
    ensures s.threads[t].curr != NULL ==> s.threads[t].curr in chain
    ensures s.threads[t].curr != s.threads[t].prev
    ensures s.threads[t].pc in {ILockCurr, ILink} ==> i == 0
  {
    var th := s.threads[t];
    assert ThreadOk(s.heap, chain, t, th) && HasLock(th, th.prev);
    i := IndexOf(chain, th.prev);
    NextOf(s, chain, t, i);
  }

  // A cell whose mutex another thread holds does not change.
  lemma OwnedFrame(s: State, chain: seq<Node>, t: nat, m: Node, n: Node)
    requires Inv(s, chain) && Enabled(s, t, m) && n in s.heap
    requires s.heap[n].owner.Held? && s.heap[n].owner.t != t
    ensures n in Step(s, t, m).heap && Step(s, t, m).heap[n] == s.heap[n]
  {
    var th := s.threads[t];
    assert ThreadOk(s.heap, chain, t, th);
    assert !HasLock(th, n);
  }

  // Neither does the new node of another thread before it is linked.
  lemma PrivateFrame(s: State, chain: seq<Node>, t: nat, m: Node, u: nat)
    requires Inv(s, chain) && Enabled(s, t, m) && u < |s.threads| && u != t && HasNew(s.threads[u])
    ensures var n := s.threads[u].newNode;
      n in s.heap && n in Step(s, t, m).heap && Step(s, t, m).heap[n] == s.heap[n]
  {
    var th, n := s.threads[t], s.threads[u].newNode;
    assert ThreadOk(s.heap, chain, t, th) && ThreadOk(s.heap, chain, u, s.threads[u]);
    assert !HasLock(th, n);
    if th.pc == ILockCurr || th.pc == DLockCurr {
      var i := Position(s, chain, t);
    }
  }

  lemma WithoutMember(chain: seq<Node>, i: nat, n: Node)
    requires i < |chain| && Distinct(chain)
    ensures n in Without(chain, i) <==> n in chain && n != chain[i]
  {
    var rest := Without(chain, i);
    if n in chain && n != chain[i] {
      var k := IndexOf(chain, n);
      assert rest[if k < i then k else k - 1] == n;
    }
    if n in rest {
      var k := IndexOf(rest, n);
      assert n == chain[if k < i then k else k + 1];
    }
  }

  lemma ChainFrame(s: State, chain: seq<Node>, t: nat, n: Node)
    requires Inv(s, chain) && t < |s.threads| && s.threads[t].pc == DUnlink
    ensures s.threads[t].curr in chain
    ensures n in ChainAfter(chain, s.threads[t]) <==> n in chain && n != s.threads[t].curr
  {
    var th := s.threads[t];
    var i := Position(s, chain, t);
    assert ThreadOk(s.heap, chain, t, th);
    WithoutMember(chain, IndexOf(chain, th.curr), n);
  }

  lemma ChainGrows(chain: seq<Node>, th: Thread, n: Node)
    requires |chain| > 0 && chain[0] == HEAD && th.pc == ILink
    ensures n in ChainAfter(chain, th) <==> n in chain || n == th.newNode
  {
    var chain' := ChainAfter(chain, th);
    if n in chain {
      var k := IndexOf(chain, n);
      assert chain'[if k == 0 then 0 else k + 1] == n;
    }
    if n == th.newNode { assert chain'[1] == n; }
  }

  // What another thread knows survives the step.
  lemma OtherThread(s: State, chain: seq<Node>, t: nat, m: Node, u: nat)
    requires Inv(s, chain) && Enabled(s, t, m) && u < |s.threads| && u != t
    requires s.threads[t].pc == DUnlink ==> s.threads[t].curr in chain
    requires s.threads[u].pc != ISetNext
    ensures ThreadOk(Step(s, t, m).heap, ChainAfter(chain, s.threads[t]), u, s.threads[u])
  {
    var s', th, other := Step(s, t, m), s.threads[t], s.threads[u];
    var chain' := ChainAfter(chain, th);
    assert ThreadOk(s.heap, chain, t, th) && ThreadOk(s.heap, chain, u, other);
    forall n | HasLock(other, n)
      ensures n in s.heap && n in s'.heap && s'.heap[n] == s.heap[n] && s.heap[n].owner == Held(u)
    {
      OwnedFrame(s, chain, t, m, n);
    }
    forall n | HasLock(other, n)
      ensures n in chain' <==> n in chain
    {
      if th.pc == DUnlink {
        ChainFrame(s, chain, t, n);
        assert HasLock(th, th.curr);
      } else if th.pc == ILink {
        ChainGrows(chain, th, n);
      }
    }
    if HasNew(other) {
      PrivateFrame(s, chain, t, m, u);
      if th.pc == DUnlink {
        ChainFrame(s, chain, t, other.newNode);
      } else if th.pc == ILink {
        ChainGrows(chain, th, other.newNode);
      }
    }
  }

  // The inserter between its lines 44 and 45 is not disturbed either.
  lemma OtherHalfLinked(s: State, chain: seq<Node>, t: nat, m: Node, u: nat)
    requires Inv(s, chain) && Enabled(s, t, m) && u < |s.threads| && u != t
    requires s.threads[t].pc == DUnlink ==> s.threads[t].curr in chain
    requires s.threads[u].pc == ISetNext
    ensures ThreadOk(Step(s, t, m).heap, ChainAfter(chain, s.threads[t]), u, s.threads[u])
  {
    var s', th, other := Step(s, t, m), s.threads[t], s.threads[u];
    var chain' := ChainAfter(chain, th);
    assert ThreadOk(s.heap, chain, t, th) && ThreadOk(s.heap, chain, u, other);
    assert HasLock(other, HEAD);
    forall n | HasLock(other, n)
      ensures n in s'.heap && s'.heap[n] == s.heap[n] && s.heap[n].owner == Held(u)
    {
      OwnedFrame(s, chain, t, m, n);
    }
    assert !HasLock(th, HEAD) && !HasLock(th, other.newNode);
    if th.pc in {ILockCurr, DLockCurr, DUnlink} {
      var i := Position(s, chain, t);
      assert HasLock(th, th.prev);
      assert i >= 2;
      if th.pc == DUnlink {
        assert HasLock(th, th.curr);
        var j := IndexOf(chain, th.curr);
        assert j >= 3;
      }
    }
  }

  // The thread that moved knows what its next line needs: inserts ...
  lemma OwnInsert(heap: Heap, chain: seq<Node>, chain': seq<Node>, t: nat, th: Thread, m: Node)
    requires ChainOk(heap, chain) && Ready(heap, th, m) && Safe(heap, th) && ThreadOk(heap, chain, t, th)
    requires InInsert(th) || th.pc == Begin
    requires th.pc == ILockCurr || th.pc == ILink ==>
      th.curr == Succ(chain, 0) && (th.curr != NULL ==> th.curr in chain) && th.curr != HEAD
    requires chain' == if th.pc == ILink then [HEAD, th.newNode] + chain[1..] else chain
    ensures ThreadOk(Effect(heap, t, th, m), chain', t, Advance(heap, th, m))
  {
    var heap', th' := Effect(heap, t, th, m), Advance(heap, th, m);
    forall n | HasLock(th', n)
      ensures n in heap' && heap'[n].owner == Held(t)
    {
      assert Touches(th, n) || HasLock(th, n);
    }
  }

  predicate Searching(th: Thread) {
    || th.pc == DLock || th.pc == DRead || th.pc == DLockCurr
    || th.pc == DTest || th.pc == DUnlockPrev || th.pc == DAdvance
  }

  // ... deletes on their way ...
  lemma SearchLocks(heap: Heap, t: nat, th: Thread, m: Node, n: Node)
    requires Ready(heap, th, m) && Safe(heap, th) && Searching(th)
    requires (th.pc == DTest || th.pc == DUnlockPrev) ==> th.curr != th.prev
    requires forall k :: HasLock(th, k) ==> k in heap && heap[k].owner == Held(t)
    requires HasLock(Advance(heap, th, m), n)
    ensures n in Effect(heap, t, th, m) && Effect(heap, t, th, m)[n].owner == Held(t)
  {
    assert Touches(th, n) || HasLock(th, n);
  }

  lemma OwnTest(heap: Heap, chain: seq<Node>, t: nat, th: Thread, m: Node)
    requires ChainOk(heap, chain) && Ready(heap, th, m) && Safe(heap, th) && ThreadOk(heap, chain, t, th)
    requires th.pc == DTest || th.pc == DUnlockPrev
    requires (th.curr != NULL ==> th.curr in chain) && th.curr != th.prev
    ensures ThreadOk(Effect(heap, t, th, m), chain, t, Advance(heap, th, m))
  {
    forall n | HasLock(Advance(heap, th, m), n)
      ensures n in Effect(heap, t, th, m) && Effect(heap, t, th, m)[n].owner == Held(t)
    {
      SearchLocks(heap, t, th, m, n);
    }
  }

  lemma OwnWalk(heap: Heap, chain: seq<Node>, t: nat, th: Thread, m: Node)
    requires ChainOk(heap, chain) && Ready(heap, th, m) && Safe(heap, th) && ThreadOk(heap, chain, t, th)
    requires Searching(th) && th.pc != DTest && th.pc != DUnlockPrev
    requires th.pc == DLockCurr ==> (th.curr != NULL ==> th.curr in chain) && th.curr != th.prev
    ensures ThreadOk(Effect(heap, t, th, m), chain, t, Advance(heap, th, m))
  {
    forall n | HasLock(Advance(heap, th, m), n)
      ensures n in Effect(heap, t, th, m) && Effect(heap, t, th, m)[n].owner == Held(t)
    {
      SearchLocks(heap, t, th, m, n);
    }
  }

  // ... and deletes that end.
  lemma OwnRemove(heap: Heap, chain: seq<Node>, chain': seq<Node>, t: nat, th: Thread, m: Node)
    requires ChainOk(heap, chain) && Ready(heap, th, m) && Safe(heap, th) && ThreadOk(heap, chain, t, th)
    requires th.pc == DUnlink || th.pc == DUnlockFound || th.pc == DFree || th.pc == DUnlockLast
    requires if th.pc == DUnlink then th.prev in chain' && th.curr !in chain' else chain' == chain
    ensures ThreadOk(Effect(heap, t, th, m), chain', t, Advance(heap, th, m))
  {
    var heap', th' := Effect(heap, t, th, m), Advance(heap, th, m);
    forall n | HasLock(th', n)
      ensures n in heap' && heap'[n].owner == Held(t)
    {
      assert HasLock(th, n);
    }
  }

  lemma OwnThread(s: State, chain: seq<Node>, t: nat, m: Node)
    requires Inv(s, chain) && Enabled(s, t, m)
    requires s.threads[t].pc == DUnlink ==> s.threads[t].curr in chain
    ensures ThreadOk(Step(s, t, m).heap, ChainAfter(chain, s.threads[t]), t, Step(s, t, m).threads[t])
  {
    var th := s.threads[t];
    assert ThreadOk(s.heap, chain, t, th);
    if InInsert(th) || th.pc == Begin {
      if th.pc == ILockCurr || th.pc == ILink {
        var i := Position(s, chain, t);
      }
      OwnInsert(s.heap, chain, ChainAfter(chain, th), t, th, m);
    } else if Searching(th) {
      if th.pc == DTest || th.pc == DUnlockPrev {
        var i := Position(s, chain, t);
        OwnTest(s.heap, chain, t, th, m);
      } else {
        if th.pc == DLockCurr {
          var i := Position(s, chain, t);
        }
        OwnWalk(s.heap, chain, t, th, m);
      }
    } else {
      if th.pc == DUnlink {
        var i := Position(s, chain, t);
        ChainFrame(s, chain, t, th.prev);
        ChainFrame(s, chain, t, th.curr);
      }
      OwnRemove(s.heap, chain, ChainAfter(chain, th), t, th, m);
    }
  }

  lemma LinkDistinct(chain: seq<Node>, n: Node)
    requires |chain| > 0 && chain[0] == HEAD && Distinct(chain) && n !in chain
    ensures Distinct([HEAD, n] + chain[1..])
  {
    var chain' := [HEAD, n] + chain[1..];
    forall i, j | 0 <= i < j < |chain'|
      ensures chain'[i] != chain'[j]
    {
      assert j >= 2 ==> chain'[j] == chain[j - 1];
      assert i >= 2 ==> chain'[i] == chain[i - 1];
    }
  }

  lemma WithoutDistinct(chain: seq<Node>, i: nat)
    requires i < |chain| && Distinct(chain)
    ensures Distinct(Without(chain, i))
  {
  }

  // The step frees no linked node and forgets none.
  lemma StepChain(s: State, chain: seq<Node>, t: nat, m: Node)
    requires Inv(s, chain) && Enabled(s, t, m)
    requires s.threads[t].pc == DUnlink ==> s.threads[t].curr in chain
    ensures ChainOk(Step(s, t, m).heap, ChainAfter(chain, s.threads[t]))
  {
    var s', th := Step(s, t, m), s.threads[t];
    var chain' := ChainAfter(chain, th);
    assert ThreadOk(s.heap, chain, t, th);
    if th.pc == ILink {
      LinkDistinct(chain, th.newNode);
    } else if th.pc == DUnlink {
      var i := Position(s, chain, t);
      WithoutDistinct(chain, IndexOf(chain, th.curr));
    }
    forall n | n in chain'
      ensures n in s'.heap
    {
      if th.pc == ILink {
        ChainGrows(chain, th, n);
      } else if th.pc == DUnlink {
        ChainFrame(s, chain, t, n);
      }
    }
  }

  lemma LinkNode(heap: Heap, chain: seq<Node>, n: Node)
    requires ChainOk(heap, chain) && n !in chain
    requires forall i :: 0 <= i < |chain| ==> heap[chain[i]].next == Succ(chain, i)
    ensures var heap', chain' := SetNext(heap, HEAD, n), [HEAD, n] + chain[1..];
      forall i :: 0 <= i < |chain'| && i != 1 ==> chain'[i] in heap' && heap'[chain'[i]].next == Succ(chain', i)
  {
    var chain' := [HEAD, n] + chain[1..];
    forall i | 0 <= i < |chain'| && i != 1
      ensures chain'[i] in heap && SetNext(heap, HEAD, n)[chain'[i]].next == Succ(chain', i)
    {
      if i >= 2 { assert chain'[i] == chain[i - 1]; }
    }
  }

  lemma LinksAtLink(s: State, chain: seq<Node>, t: nat, m: Node)
    requires Inv(s, chain) && Enabled(s, t, m) && s.threads[t].pc == ILink
    requires ChainOk(Step(s, t, m).heap, ChainAfter(chain, s.threads[t]))
    ensures Links(Step(s, t, m).heap, Step(s, t, m).threads, ChainAfter(chain, s.threads[t]))
  {
    var s', th := Step(s, t, m), s.threads[t];
    assert ThreadOk(s.heap, chain, t, th) && HasLock(th, HEAD);
    assert !HalfLinked(s.heap, s.threads) && HalfLinked(s'.heap, s'.threads);
    LinkNode(s.heap, chain, th.newNode);
  }

  // Taking out the node behind position `i` keeps the other links; `half` exempts position 1.
  lemma UnlinkNode(heap: Heap, chain: seq<Node>, i: nat, half: bool)
    requires ChainOk(heap, chain) && i + 1 < |chain| && (half ==> i > 0)
    requires forall k :: 0 <= k < |chain| && !(k == 1 && half) ==> heap[chain[k]].next == Succ(chain, k)
    ensures var heap', chain' := SetNext(heap, chain[i], heap[chain[i + 1]].next), Without(chain, i + 1);
      forall k :: 0 <= k < |chain'| && !(k == 1 && half) ==>
        chain'[k] in heap' && heap'[chain'[k]].next == Succ(chain', k)
  {
    var heap', chain' := SetNext(heap, chain[i], heap[chain[i + 1]].next), Without(chain, i + 1);
    forall k | 0 <= k < |chain'| && !(k == 1 && half)
      ensures chain'[k] in heap' && heap'[chain'[k]].next == Succ(chain', k)
    {
      var j := if k <= i then k else k + 1;
      assert chain'[k] == chain[j] && (k != i ==> Succ(chain', k) == Succ(chain, j));
    }
  }

  lemma LinksAtUnlink(s: State, chain: seq<Node>, t: nat, m: Node)
    requires Inv(s, chain) && Enabled(s, t, m) && s.threads[t].pc == DUnlink && s.threads[t].curr in chain
    requires ChainOk(Step(s, t, m).heap, ChainAfter(chain, s.threads[t]))
    ensures Links(Step(s, t, m).heap, Step(s, t, m).threads, ChainAfter(chain, s.threads[t]))
  {
    var th := s.threads[t];
    assert ThreadOk(s.heap, chain, t, th) && HasLock(th, th.curr) && HasLock(th, th.prev);
    var i := Position(s, chain, t);
    assert IndexOf(chain, th.curr) == i + 1;
    assert HalfLinked(s.heap, s.threads) <==> HalfLinked(Step(s, t, m).heap, Step(s, t, m).threads);
    UnlinkNode(s.heap, chain, i, HalfLinked(s.heap, s.threads));
  }

  // Only three lines change a link.
  lemma NextStays(heap: Heap, t: nat, th: Thread, m: Node, n: Node)
    requires Ready(heap, th, m) && Safe(heap, th) && th.pc != ILink && th.pc != ISetNext && th.pc != DUnlink
    requires n in heap && n in Effect(heap, t, th, m)
    ensures Effect(heap, t, th, m)[n].next == heap[n].next
  {
  }

  lemma LinksAtSetNext(s: State, chain: seq<Node>, t: nat, m: Node)
    requires Inv(s, chain) && Enabled(s, t, m) && s.threads[t].pc == ISetNext
    requires ChainOk(Step(s, t, m).heap, chain)
    ensures Links(Step(s, t, m).heap, Step(s, t, m).threads, chain)
  {
    assert ThreadOk(s.heap, chain, t, s.threads[t]) && HasLock(s.threads[t], HEAD);
  }

  lemma LinksElsewhere(s: State, chain: seq<Node>, t: nat, m: Node)
    requires Inv(s, chain) && Enabled(s, t, m)
    requires s.threads[t].pc != DUnlink && s.threads[t].pc != ILink && s.threads[t].pc != ISetNext
    requires ChainOk(Step(s, t, m).heap, chain)
    ensures Links(Step(s, t, m).heap, Step(s, t, m).threads, chain)
  {
    var s' := Step(s, t, m);
    assert HalfLinked(s.heap, s.threads) ==> HalfLinked(s'.heap, s'.threads) by {
      if HalfLinked(s.heap, s.threads) {
        OwnedFrame(s, chain, t, m, HEAD);
      }
    }
    forall i | 0 <= i < |chain|
      ensures s'.heap[chain[i]].next == s.heap[chain[i]].next
    {
      NextStays(s.heap, t, s.threads[t], m, chain[i]);
    }
  }

  // A mutex that the thread holds after its step is one that it knows it holds.
  lemma InsertOwned(heap: Heap, t: nat, th: Thread, m: Node, n: Node)
    requires InInsert(th)
    requires Ready(heap, th, m) && Safe(heap, th) && n in Effect(heap, t, th, m)
    requires n in heap ==> heap[n].owner == Free || (heap[n].owner == Held(t) && HasLock(th, n))
    ensures Effect(heap, t, th, m)[n].owner.Held? ==>
      Effect(heap, t, th, m)[n].owner.t == t && HasLock(Advance(heap, th, m), n)
  {
  }

  lemma DeleteOwned(heap: Heap, t: nat, th: Thread, m: Node, n: Node)
    requires !InInsert(th)
    requires Ready(heap, th, m) && Safe(heap, th) && n in Effect(heap, t, th, m)
    requires n in heap ==> heap[n].owner == Free || (heap[n].owner == Held(t) && HasLock(th, n))
    ensures Effect(heap, t, th, m)[n].owner.Held? ==>
      Effect(heap, t, th, m)[n].owner.t == t && HasLock(Advance(heap, th, m), n)
  {
  }

  // Every held mutex is held by a thread that knows it.
  lemma StepOwned(s: State, chain: seq<Node>, t: nat, m: Node, n: Node)
    requires Inv(s, chain) && Enabled(s, t, m) && n in Step(s, t, m).heap
    ensures Owned(Step(s, t, m).heap, Step(s, t, m).threads, n)
  {
    assert n in s.heap ==> Owned(s.heap, s.threads, n);
    if n in s.heap && s.heap[n].owner.Held? && s.heap[n].owner.t != t {
      OwnedFrame(s, chain, t, m, n);
    } else {
      if InInsert(s.threads[t]) {
        InsertOwned(s.heap, t, s.threads[t], m, n);
      } else {
        DeleteOwned(s.heap, t, s.threads[t], m, n);
      }
    }
  }

  lemma OwnNew(heap: Heap, th: Thread, m: Node)
    requires Ready(heap, th, m) && Safe(heap, th)
    ensures var th' := Advance(heap, th, m);
      HasNew(th') ==> (HasNew(th) && th'.newNode == th.newNode) || th'.newNode == m
  {
  }

  lemma StepApart(s: State, chain: seq<Node>, t: nat, m: Node)
    requires Inv(s, chain) && Enabled(s, t, m)
    ensures NewApart(Step(s, t, m).threads)
  {
    var s' := Step(s, t, m);
    forall u | 0 <= u < |s.threads| && HasNew(s.threads[u])
      ensures s.threads[u].newNode != m
    {
      assert ThreadOk(s.heap, chain, u, s.threads[u]);
    }
    OwnNew(s.heap, s.threads[t], m);
  }

  // A thread gives up a node only by linking it or freeing it, and claims what it allocates or unlinks.
  lemma OwnClaims(heap: Heap, chain: seq<Node>, t: nat, th: Thread, m: Node, n: Node)
    requires Ready(heap, th, m) && Safe(heap, th) && ThreadOk(heap, chain, t, th)
    requires n in Effect(heap, t, th, m)
    ensures Claims(th, n) ==> Claims(Advance(heap, th, m), n) || (th.pc == ILink && n == th.newNode)
    ensures n !in heap ==> Claims(Advance(heap, th, m), n)
    ensures th.pc == DUnlink && n == th.curr ==> Claims(Advance(heap, th, m), n)
  {
  }

  // No allocated node is ever lost.
  lemma StepClaims(s: State, chain: seq<Node>, t: nat, m: Node, n: Node)
    requires Inv(s, chain) && Enabled(s, t, m) && n in Step(s, t, m).heap
    requires s.threads[t].pc == DUnlink ==> s.threads[t].curr in chain
    ensures n in ChainAfter(chain, s.threads[t]) || Claimed(Step(s, t, m).threads, n)
  {
    var ts', th := Step(s, t, m).threads, s.threads[t];
    assert ThreadOk(s.heap, chain, t, th);
    OwnClaims(s.heap, chain, t, th, m, n);
    if n in chain {
      if th.pc == ILink {
        ChainGrows(chain, th, n);
      } else if th.pc == DUnlink {
        ChainFrame(s, chain, t, n);
      }
      assert n !in ChainAfter(chain, th) ==> Claims(ts'[t], n);
    } else if n in s.heap {
      assert Claimed(s.threads, n);
      var u :| 0 <= u < |s.threads| && Claims(s.threads[u], n);
      if u != t {
        assert Claims(ts'[u], n);
      } else if th.pc == ILink {
        ChainGrows(chain, th, n);
      } else {
        assert Claims(ts'[t], n);
      }
    } else {
      assert Claims(ts'[t], n);
    }
  }

  lemma UnlinksLinked(s: State, chain: seq<Node>, t: nat)
    requires Inv(s, chain) && t < |s.threads| && s.threads[t].pc == DUnlink
    ensures s.threads[t].curr in chain
  {
    assert ThreadOk(s.heap, chain, t, s.threads[t]);
    var i := Position(s, chain, t);
  }

  /** Every step of every thread keeps the invariant, with the linked nodes changed
      only at the link line and the unlink line. */
  lemma StepInv(s: State, chain: seq<Node>, t: nat, m: Node)
    requires Inv(s, chain) && Enabled(s, t, m)
    ensures Inv(Step(s, t, m), ChainAfter(chain, s.threads[t]))
  {
    var s', th := Step(s, t, m), s.threads[t];
    if th.pc == DUnlink {
      UnlinksLinked(s, chain, t);
    }
    var chain' := ChainAfter(chain, th);
    StepChain(s, chain, t, m);
    if th.pc == ILink {
      LinksAtLink(s, chain, t, m);
    } else if th.pc == DUnlink {
      LinksAtUnlink(s, chain, t, m);
    } else if th.pc == ISetNext {
      LinksAtSetNext(s, chain, t, m);
    } else {
      LinksElsewhere(s, chain, t, m);
    }
    forall n | n in s'.heap
      ensures Owned(s'.heap, s'.threads, n) && (n in chain' || Claimed(s'.threads, n))
    {
      StepOwned(s, chain, t, m, n);
      StepClaims(s, chain, t, m, n);
    }
    forall u | 0 <= u < |s'.threads|
      ensures ThreadOk(s'.heap, chain', u, s'.threads[u])
    {
      if u == t {
        OwnThread(s, chain, t, m);
      } else if s.threads[u].pc == ISetNext {
        OtherHalfLinked(s, chain, t, m, u);
      } else {
        OtherThread(s, chain, t, m, u);
      }
    }
    StepApart(s, chain, t, m);
  }
}
