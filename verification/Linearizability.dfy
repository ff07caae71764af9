/** Every run of the hand-over-hand list is explained by one sequential order of its
    calls: an insert takes effect at its link line; a delete takes effect when it
    locks the head, because from then on no later call can overtake it. The contents
    that this order gives are read off the linked nodes from the far end: every
    delete that is still under way removes the first occurrence of its value from
    the part of the list it has not searched yet. */
module Linearizability {
  import opened LockCoupling

  // ------------------------------------------------------------------ the sequential list

  function RemoveFirst(l: seq<int>, v: int): (r: seq<int>)
    ensures v !in l ==> r == l
    ensures multiset(r) == multiset(l) - multiset{v}
  {
    if l == [] then []
    else if l[0] == v then assert l == [v] + l[1..]; l[1..]
    else assert l == [l[0]] + l[1..]; [l[0]] + RemoveFirst(l[1..], v)
  }

  function Apply(l: seq<int>, op: Op): seq<int> {
    match op
    case Insert(v) => [v] + l
    case Delete(v) => RemoveFirst(l, v)
  }

  datatype Entry = Entry(t: nat, op: Op)

  function ApplyAll(log: seq<Entry>): seq<int> {
    if log == [] then [] else Apply(ApplyAll(log[..|log| - 1]), log[|log| - 1].op)
  }

  // The calls of one thread, in the order of the log.
  function CallsOf(log: seq<Entry>, t: nat): seq<Op> {
    if log == [] then []
    else CallsOf(log[..|log| - 1], t) + if log[|log| - 1].t == t then [log[|log| - 1].op] else []
  }

  // ------------------------------------------------------------------ contents with deletes under way

  // A delete that holds a node and has the rest of the list still before it.
  datatype Search = Nobody | For(val: int)

  datatype Item = Item(val: int, search: Search)

  // The values after the first item.
  function After(items: seq<Item>): seq<int>
    requires |items| > 0
  {
    var rest := if |items| == 1 then [] else [items[1].val] + After(items[1..]);
    if items[0].search == Nobody then rest else RemoveFirst(rest, items[0].search.val)
  }

  // A search moves past a node that does not hold its value.
  lemma {:induction false} SearchMoves(items: seq<Item>, items': seq<Item>, k: nat)
    requires |items'| == |items| && k + 1 < |items|
    requires items[k].search.For? && items[k + 1].search == Nobody && items[k + 1].val != items[k].search.val
    requires forall i :: 0 <= i < |items| && i != k && i != k + 1 ==> items'[i] == items[i]
    requires items'[k] == Item(items[k].val, Nobody) && items'[k + 1] == Item(items[k + 1].val, items[k].search)
    ensures After(items') == After(items)
  {
    if k == 0 {
      assert items'[1..][1..] == items[1..][1..];
      assert ([items[1].val] + After(items[1..]))[1..] == After(items[1..]);
    } else {
      SearchMoves(items[1..], items'[1..], k - 1);
    }
  }

  // A search ends at the last node.
  lemma {:induction false} SearchFails(items: seq<Item>, items': seq<Item>)
    requires |items'| == |items| > 0
    requires forall i :: 0 <= i < |items| - 1 ==> items'[i] == items[i]
    requires items'[|items| - 1] == Item(items[|items| - 1].val, Nobody)
    ensures After(items') == After(items)
  {
    if |items| > 1 {
      SearchFails(items[1..], items'[1..]);
    }
  }

  // A search removes the node behind it.
  lemma {:induction false} SearchRemoves(items: seq<Item>, items': seq<Item>, k: nat)
    requires k + 1 < |items|
    requires items[k].search.For? && items[k + 1].search == Nobody && items[k + 1].val == items[k].search.val
    requires items' == items[..k] + [Item(items[k].val, Nobody)] + items[k + 2..]
    ensures After(items') == After(items)
  {
    if k == 0 {
      assert items'[1..] == items[1..][1..];
      assert ([items[1].val] + After(items[1..]))[1..] == After(items[1..]);
    } else {
      assert items'[1..] == items[1..][..k - 1] + [Item(items[k].val, Nobody)] + items[1..][k + 1..];
      SearchRemoves(items[1..], items'[1..], k - 1);
    }
  }

  // ------------------------------------------------------------------ contents of a state

  // The node from which a delete looks for its value.
  function Anchor(th: Thread): Node {
    match th.pc
    case DRead | DLockCurr | DTest | DUnlink => th.prev
    case DUnlockPrev | DAdvance => th.curr
    case _ => NULL
  }

  function SearchAt(s: State, n: Node): Search {
    if n in s.heap && s.heap[n].owner.Held? && s.heap[n].owner.t < |s.threads| then
      var th := s.threads[s.heap[n].owner.t];
      if Running(th) && Anchor(th) == n then For(CurrentOp(th).val) else Nobody
    else Nobody
  }

  function ItemAt(s: State, n: Node): Item {
    Item(if n in s.heap then s.heap[n].val else 0, SearchAt(s, n))
  }

  function Items(s: State, chain: seq<Node>): (items: seq<Item>)
    ensures |items| == |chain|
  {
    seq(|chain|, i requires 0 <= i < |chain| => ItemAt(s, chain[i]))
  }

  function Contents(s: State, chain: seq<Node>): seq<int>
    requires |chain| > 0
  {
    After(Items(s, chain))
  }

  // The thread's own search after the step.
  function Moved(item: Item, n: Node, before: Node, after: Node, v: int): Item {
    if n == after then Item(item.val, For(v)) else if n == before then Item(item.val, Nobody) else item
  }

  // Only the mutexes that a thread holds or takes matter to its search.
  lemma MovedItem(s: State, s': State, t: nat, n: Node, v: int)
    requires t < |s.threads| && |s'.threads| == |s.threads| && n in s.heap && n in s'.heap
    requires forall u :: 0 <= u < |s.threads| && u != t ==> s'.threads[u] == s.threads[u]
    requires Anchor(s.threads[t]) == n ==> s.heap[n].owner == Held(t)
    requires Anchor(s'.threads[t]) == n ==>
      s'.heap[n].owner == Held(t) && Running(s'.threads[t]) && CurrentOp(s'.threads[t]).val == v
    requires s'.heap[n].val == s.heap[n].val
    requires if s.heap[n].owner.Held? && s.heap[n].owner.t != t then s'.heap[n].owner == s.heap[n].owner
             else s'.heap[n].owner == Free || s'.heap[n].owner == Held(t)
    ensures ItemAt(s', n) == Moved(ItemAt(s, n), n, Anchor(s.threads[t]), Anchor(s'.threads[t]), v)
  {
  }

  lemma AnchorLocked(heap: Heap, chain: seq<Node>, t: nat, th: Thread)
    requires ThreadOk(heap, chain, t, th) && NULL !in heap
    ensures Anchor(th) != NULL ==> Running(th) && Anchor(th) in heap && heap[Anchor(th)].owner == Held(t)
  {
    if Anchor(th) != NULL {
      assert HasLock(th, Anchor(th));
    }
  }

  // What a line can do to a cell that no other thread has locked.
  lemma OwnCell(heap: Heap, t: nat, th: Thread, m: Node, n: Node)
    requires Ready(heap, th, m) && Safe(heap, th) && n in heap
    requires heap[n].owner == Free || heap[n].owner == Held(t)
    ensures var heap' := Effect(heap, t, th, m);
      n in heap' ==> heap'[n].val == heap[n].val && (heap'[n].owner == Free || heap'[n].owner == Held(t))
    ensures th.pc != DFree ==> n in Effect(heap, t, th, m)
    ensures Running(Advance(heap, th, m)) && Anchor(Advance(heap, th, m)) != NULL ==>
      CurrentOp(Advance(heap, th, m)) == CurrentOp(th)
  {
  }

  // The linked nodes stay allocated, and the step changes only the thread's own search.
  lemma ItemStep(s: State, chain: seq<Node>, t: nat, m: Node, n: Node)
    requires Inv(s, chain) && Enabled(s, t, m) && n in s.heap
    requires s.threads[t].pc == DFree ==> n in chain
    ensures n in Step(s, t, m).heap
    ensures ItemAt(Step(s, t, m), n) ==
      Moved(ItemAt(s, n), n, Anchor(s.threads[t]), Anchor(Step(s, t, m).threads[t]), CurrentOp(s.threads[t]).val)
  {
    var s', th := Step(s, t, m), s.threads[t];
    if th.pc == DUnlink {
      UnlinksLinked(s, chain, t);
    }
    OwnThread(s, chain, t, m);
    StepChain(s, chain, t, m);
    assert ThreadOk(s.heap, chain, t, th);
    AnchorLocked(s.heap, chain, t, th);
    AnchorLocked(s'.heap, ChainAfter(chain, th), t, s'.threads[t]);
    if s.heap[n].owner.Held? && s.heap[n].owner.t != t {
      OwnedFrame(s, chain, t, m, n);
    } else {
      OwnCell(s.heap, t, th, m, n);
    }
    assert Anchor(s'.threads[t]) != NULL ==> s'.threads[t].prog == th.prog && s'.threads[t].ip == th.ip;
    MovedItem(s, s', t, n, CurrentOp(th).val);
  }

  lemma OwnItem(s: State, chain: seq<Node>, t: nat, i: nat)
    requires Inv(s, chain) && t < |s.threads| && i < |chain|
    ensures Anchor(s.threads[t]) == chain[i] ==>
      Running(s.threads[t]) && Items(s, chain)[i].search == For(CurrentOp(s.threads[t]).val)
    ensures HasLock(s.threads[t], chain[i]) && Anchor(s.threads[t]) != chain[i] ==> Items(s, chain)[i].search == Nobody
  {
    assert ThreadOk(s.heap, chain, t, s.threads[t]);
    AnchorLocked(s.heap, chain, t, s.threads[t]);
  }

  // Steps that leave the thread's own search where it is.
  lemma ContentsQuiet(s: State, chain: seq<Node>, t: nat, m: Node)
    requires Inv(s, chain) && Enabled(s, t, m)
    requires s.threads[t].pc != ILink && s.threads[t].pc != DLock
    requires s.threads[t].pc != DTest && s.threads[t].pc != DUnlink
    ensures Contents(Step(s, t, m), chain) == Contents(s, chain)
  {
    QuietAnchor(s, chain, t, m);
    SameItems(s, chain, t, m);
  }

  lemma QuietAnchor(s: State, chain: seq<Node>, t: nat, m: Node)
    requires Inv(s, chain) && Enabled(s, t, m)
    requires s.threads[t].pc != DLock && s.threads[t].pc != DTest && s.threads[t].pc != DUnlink
    ensures Anchor(Step(s, t, m).threads[t]) == Anchor(s.threads[t])
  {
    assert ThreadOk(s.heap, chain, t, s.threads[t]);
    AnchorStays(s.heap, chain, t, s.threads[t], m);
  }

  lemma SameItems(s: State, chain: seq<Node>, t: nat, m: Node)
    requires Inv(s, chain) && Enabled(s, t, m)
    requires Anchor(Step(s, t, m).threads[t]) == Anchor(s.threads[t])
    ensures Contents(Step(s, t, m), chain) == Contents(s, chain)
  {
    forall i | 0 <= i < |chain|
      ensures Items(Step(s, t, m), chain)[i] == Items(s, chain)[i]
    {
      ItemStep(s, chain, t, m, chain[i]);
      OwnItem(s, chain, t, i);
    }
    assert Items(Step(s, t, m), chain) == Items(s, chain);
  }

  // The next node holds the value.
  lemma ContentsAtHit(s: State, chain: seq<Node>, t: nat, m: Node)
    requires Inv(s, chain) && Enabled(s, t, m) && s.threads[t].pc == DTest && s.threads[t].curr != NULL
    requires Step(s, t, m).threads[t].pc != DUnlockPrev
    ensures Contents(Step(s, t, m), chain) == Contents(s, chain)
  {
    SameItems(s, chain, t, m);
  }

  lemma LinkContents(items: seq<Item>, items': seq<Item>, v: int)
    requires |items| > 0 && items[0].search == Nobody
    requires items' == [items[0], Item(v, Nobody)] + items[1..]
    ensures After(items') == [v] + After(items)
  {
    assert items'[1..] == [Item(v, Nobody)] + items[1..];
    assert items'[1..][1..] == items[1..];
    assert |items| > 1 ==> items'[1..][1] == items[1];
  }

  lemma ContentsAtLink(s: State, chain: seq<Node>, t: nat, m: Node)
    requires Inv(s, chain) && Enabled(s, t, m) && s.threads[t].pc == ILink
    ensures Contents(Step(s, t, m), ChainAfter(chain, s.threads[t])) ==
      [CurrentOp(s.threads[t]).val] + Contents(s, chain)
  {
    var s', th := Step(s, t, m), s.threads[t];
    var chain' := ChainAfter(chain, th);
    assert ThreadOk(s.heap, chain, t, th) && HasLock(th, HEAD);
    var items, items', v := Items(s, chain), Items(s', chain'), CurrentOp(th).val;
    OwnItem(s, chain, t, 0);
    forall i | 0 <= i < |chain'|
      ensures items'[i] == ([items[0], Item(v, Nobody)] + items[1..])[i]
    {
      ItemStep(s, chain, t, m, chain'[i]);
    }
    LinkContents(items, items', v);
  }

  lemma SearchStarts(items: seq<Item>, items': seq<Item>, v: int)
    requires |items'| == |items| > 0 && items[0].search == Nobody && items'[0].search == For(v)
    requires forall i :: 0 < i < |items| ==> items'[i] == items[i]
    ensures After(items') == RemoveFirst(After(items), v)
  {
    assert items'[1..] == items[1..];
  }

  lemma ContentsAtHeadLock(s: State, chain: seq<Node>, t: nat, m: Node)
    requires Inv(s, chain) && Enabled(s, t, m) && s.threads[t].pc == DLock
    ensures Contents(Step(s, t, m), chain) == RemoveFirst(Contents(s, chain), CurrentOp(s.threads[t]).val)
  {
    var items, items', v := Items(s, chain), Items(Step(s, t, m), chain), CurrentOp(s.threads[t]).val;
    assert Locking(s.threads[t]) in s.heap && s.heap[HEAD].owner == Free;
    forall i | 0 <= i < |chain|
      ensures items'[i] == if i == 0 then Item(items[0].val, For(v)) else items[i]
    {
      ItemStep(s, chain, t, m, chain[i]);
    }
    SearchStarts(items, items', v);
  }

  // The last node has been searched.
  lemma ContentsAtEnd(s: State, chain: seq<Node>, t: nat, m: Node)
    requires Inv(s, chain) && Enabled(s, t, m) && s.threads[t].pc == DTest && s.threads[t].curr == NULL
    ensures Contents(Step(s, t, m), chain) == Contents(s, chain)
  {
    var s', th := Step(s, t, m), s.threads[t];
    var k := Position(s, chain, t);
    var items, items' := Items(s, chain), Items(s', chain);
    forall i | 0 <= i < |chain|
      ensures items'[i] == if i == k then Item(items[k].val, Nobody) else items[i]
    {
      ItemStep(s, chain, t, m, chain[i]);
    }
    SearchFails(items, items');
  }

  // The next node holds another value.
  lemma ContentsAtMiss(s: State, chain: seq<Node>, t: nat, m: Node)
    requires Inv(s, chain) && Enabled(s, t, m) && s.threads[t].pc == DTest && s.threads[t].curr != NULL
    requires Step(s, t, m).threads[t].pc == DUnlockPrev
    ensures Contents(Step(s, t, m), chain) == Contents(s, chain)
  {
    var s', th := Step(s, t, m), s.threads[t];
    var k := Position(s, chain, t);
    var items, items', v := Items(s, chain), Items(s', chain), CurrentOp(th).val;
    forall i | 0 <= i < |chain|
      ensures items'[i] == if i == k + 1 then Item(items[i].val, For(v))
        else if i == k then Item(items[k].val, Nobody) else items[i]
    {
      ItemStep(s, chain, t, m, chain[i]);
    }
    OwnItem(s, chain, t, k);
    OwnItem(s, chain, t, k + 1);
    assert Touches(th, th.curr);
    SearchMoves(items, items', k);
  }

  lemma ChainAtUnlink(s: State, chain: seq<Node>, t: nat) returns (k: nat)
    requires Inv(s, chain) && t < |s.threads| && s.threads[t].pc == DUnlink
    ensures k + 1 < |chain| && ChainAfter(chain, s.threads[t]) == Without(chain, k + 1)
    ensures chain[k] == s.threads[t].prev && chain[k + 1] == s.threads[t].curr
    ensures HasLock(s.threads[t], chain[k + 1]) && Anchor(s.threads[t]) == chain[k] != chain[k + 1]
    ensures Running(s.threads[t]) && s.heap[chain[k + 1]].val == CurrentOp(s.threads[t]).val
  {
    var th := s.threads[t];
    k := Position(s, chain, t);
    assert ThreadOk(s.heap, chain, t, th);
  }

  lemma ItemsAtUnlink(s: State, chain: seq<Node>, t: nat, m: Node, k: nat, i: nat)
    requires Inv(s, chain) && Enabled(s, t, m) && s.threads[t].pc == DUnlink
    requires k + 1 < |chain| && chain[k] == s.threads[t].prev && i < |chain| - 1
    ensures ItemAt(Step(s, t, m), Without(chain, k + 1)[i]) ==
      if i == k then Item(ItemAt(s, chain[k]).val, Nobody)
      else if i < k then ItemAt(s, chain[i]) else ItemAt(s, chain[i + 1])
  {
    var n := chain[if i <= k then i else i + 1];
    assert Without(chain, k + 1)[i] == n;
    ItemStep(s, chain, t, m, n);
  }

  lemma ContentsAtUnlink(s: State, chain: seq<Node>, t: nat, m: Node)
    requires Inv(s, chain) && Enabled(s, t, m) && s.threads[t].pc == DUnlink
    requires |ChainAfter(chain, s.threads[t])| > 0
    ensures Contents(Step(s, t, m), ChainAfter(chain, s.threads[t])) == Contents(s, chain)
  {
    var k := ChainAtUnlink(s, chain, t);
    var items, items' := Items(s, chain), Items(Step(s, t, m), Without(chain, k + 1));
    OwnItem(s, chain, t, k);
    OwnItem(s, chain, t, k + 1);
    forall i | 0 <= i < |items'|
      ensures items'[i] == if i == k then Item(items[k].val, Nobody) else if i < k then items[i] else items[i + 1]
    {
      ItemsAtUnlink(s, chain, t, m, k, i);
    }
    SearchRemoves(items, items', k);
  }

  lemma AnchorStays(heap: Heap, chain: seq<Node>, t: nat, th: Thread, m: Node)
    requires Ready(heap, th, m) && Safe(heap, th) && ThreadOk(heap, chain, t, th)
    requires th.pc != DLock && th.pc != DTest && th.pc != DUnlink
    ensures Anchor(Advance(heap, th, m)) == Anchor(th)
  {
  }

  /** The link line prepends, the head lock of a delete removes the first
      occurrence, and no other line of any thread changes the contents. */
  lemma StepContents(s: State, chain: seq<Node>, t: nat, m: Node)
    requires Inv(s, chain) && Enabled(s, t, m)
    ensures |ChainAfter(chain, s.threads[t])| > 0
    ensures Contents(Step(s, t, m), ChainAfter(chain, s.threads[t])) ==
      if TakesEffect(s.threads[t]) then Apply(Contents(s, chain), CurrentOp(s.threads[t])) else Contents(s, chain)
  {
    var th := s.threads[t];
    RightKind(s, chain, t);
    if th.pc == ILink {
      ContentsAtLink(s, chain, t, m);
    } else if th.pc == DUnlink {
      UnlinksLinked(s, chain, t);
      StepChain(s, chain, t, m);
      ContentsAtUnlink(s, chain, t, m);
    } else if th.pc == DLock {
      ContentsAtHeadLock(s, chain, t, m);
    } else if th.pc != DTest {
      ContentsQuiet(s, chain, t, m);
    } else if th.curr == NULL {
      ContentsAtEnd(s, chain, t, m);
    } else if Step(s, t, m).threads[t].pc == DUnlockPrev {
      ContentsAtMiss(s, chain, t, m);
    } else {
      ContentsAtHit(s, chain, t, m);
    }
  }

  lemma RightKind(s: State, chain: seq<Node>, t: nat)
    requires Inv(s, chain) && t < |s.threads|
    ensures s.threads[t].pc == ILink ==> Running(s.threads[t]) && CurrentOp(s.threads[t]).Insert?
    ensures s.threads[t].pc == DLock ==> Running(s.threads[t]) && CurrentOp(s.threads[t]).Delete?
  {
    assert ThreadOk(s.heap, chain, t, s.threads[t]);
  }

  // ------------------------------------------------------------------ linearizability

  predicate TakesEffect(th: Thread) { th.pc == ILink || th.pc == DLock }

  // The calls of the thread that have taken effect.
  function Effective(th: Thread): nat {
    match th.pc
    case Begin | ILock | IRead | ILockCurr | ILink | DLock => th.ip
    case _ => th.ip + 1
  }

  /** `log` is a sequential order that explains the state: it gives the contents, and
      holds for every thread exactly its calls that have taken effect, in its order. */
  ghost predicate Explains(s: State, chain: seq<Node>, log: seq<Entry>) {
    && Inv(s, chain)
    && Contents(s, chain) == ApplyAll(log)
    && (forall e :: e in log ==> e.t < |s.threads|)
    && forall t :: 0 <= t < |s.threads| ==>
         Effective(s.threads[t]) <= |s.threads[t].prog| &&
         CallsOf(log, t) == s.threads[t].prog[..Effective(s.threads[t])]
  }

  function LogAfter(log: seq<Entry>, t: nat, th: Thread): seq<Entry> {
    if TakesEffect(th) && Running(th) then log + [Entry(t, CurrentOp(th))] else log
  }

  lemma OwnEffect(heap: Heap, chain: seq<Node>, t: nat, th: Thread, m: Node)
    requires Ready(heap, th, m) && Safe(heap, th) && ThreadOk(heap, chain, t, th)
    ensures Advance(heap, th, m).prog == th.prog
    ensures Effective(Advance(heap, th, m)) == Effective(th) + (if TakesEffect(th) then 1 else 0) <= |th.prog|
    ensures TakesEffect(th) ==> Effective(th) == th.ip
  {
  }

  lemma StepCalls(s: State, chain: seq<Node>, log: seq<Entry>, t: nat, m: Node, u: nat)
    requires Explains(s, chain, log) && Enabled(s, t, m) && u < |s.threads|
    ensures var th := Step(s, t, m).threads[u];
      Effective(th) <= |th.prog| && CallsOf(LogAfter(log, t, s.threads[t]), u) == th.prog[..Effective(th)]
  {
    var th, log' := s.threads[t], LogAfter(log, t, s.threads[t]);
    assert ThreadOk(s.heap, chain, t, th);
    OwnEffect(s.heap, chain, t, th, m);
    if TakesEffect(th) {
      assert log'[..|log|] == log;
      assert th.prog[..th.ip + 1] == th.prog[..th.ip] + [th.prog[th.ip]];
    }
  }

  lemma StepExplains(s: State, chain: seq<Node>, log: seq<Entry>, t: nat, m: Node)
    requires Explains(s, chain, log) && Enabled(s, t, m)
    ensures Explains(Step(s, t, m), ChainAfter(chain, s.threads[t]), LogAfter(log, t, s.threads[t]))
  {
    StepInv(s, chain, t, m);
    StepContents(s, chain, t, m);
    forall u | 0 <= u < |s.threads|
      ensures var th := Step(s, t, m).threads[u];
        Effective(th) <= |th.prog| && CallsOf(LogAfter(log, t, s.threads[t]), u) == th.prog[..Effective(th)]
    {
      StepCalls(s, chain, log, t, m, u);
    }
    assert TakesEffect(s.threads[t]) ==> LogAfter(log, t, s.threads[t])[..|log|] == log;
  }

  /** A run; each choice is a thread and the address that malloc would return next. */
  ghost predicate Run(s: State, schedule: seq<(nat, Node)>, s': State)
    decreases |schedule|
  {
    if schedule == [] then s' == s
    else Enabled(s, schedule[0].0, schedule[0].1) && Run(Step(s, schedule[0].0, schedule[0].1), schedule[1..], s')
  }

  lemma SameProgram(heap: Heap, th: Thread, m: Node)
    requires Ready(heap, th, m) && Safe(heap, th)
    ensures Advance(heap, th, m).prog == th.prog
  {
  }

  /** The calls that take effect along a run, in the order in which they do. */
  ghost function LogOf(s: State, schedule: seq<(nat, Node)>): seq<Entry>
    decreases |schedule|
  {
    if schedule == [] || !Enabled(s, schedule[0].0, schedule[0].1) then []
    else
      LogAfter([], schedule[0].0, s.threads[schedule[0].0]) +
      LogOf(Step(s, schedule[0].0, schedule[0].1), schedule[1..])
  }

  lemma LogOfStep(s: State, schedule: seq<(nat, Node)>)
    requires schedule != [] && Enabled(s, schedule[0].0, schedule[0].1)
    ensures var t, m := schedule[0].0, schedule[0].1;
      LogOf(s, schedule) == LogAfter([], t, s.threads[t]) + LogOf(Step(s, t, m), schedule[1..])
  {
  }

  lemma JoinLogs(log: seq<Entry>, a: seq<Entry>, b: seq<Entry>)
    ensures log + a + b == log + (a + b)
  {
  }

  // One step, with what it adds to the order.
  lemma StepAdds(s: State, chain: seq<Node>, log: seq<Entry>, t: nat, m: Node)
    requires Explains(s, chain, log) && Enabled(s, t, m)
    ensures Explains(Step(s, t, m), ChainAfter(chain, s.threads[t]), log + LogAfter([], t, s.threads[t]))
    ensures forall u :: 0 <= u < |s.threads| ==> Step(s, t, m).threads[u].prog == s.threads[u].prog
  {
    StepExplains(s, chain, log, t, m);
    SameProgram(s.heap, s.threads[t], m);
    assert LogAfter(log, t, s.threads[t]) == log + LogAfter([], t, s.threads[t]);
  }

  predicate SamePrograms(s: State, s': State) {
    |s'.threads| == |s.threads| && forall t :: 0 <= t < |s.threads| ==> s'.threads[t].prog == s.threads[t].prog
  }

  /** Along every run the order grows by the calls that take effect, and by nothing else. */
  lemma {:induction false} RunExplains(s: State, chain: seq<Node>, log: seq<Entry>,
                                       schedule: seq<(nat, Node)>, s': State)
      returns (chain': seq<Node>)
    requires Explains(s, chain, log) && Run(s, schedule, s')
    ensures Explains(s', chain', log + LogOf(s, schedule))
    ensures SamePrograms(s, s')
    decreases |schedule|
  {
    if schedule == [] {
      chain' := chain;
      assert log + [] == log;
    } else {
      var t, m := schedule[0].0, schedule[0].1;
      var e, s1 := LogAfter([], t, s.threads[t]), Step(s, t, m);
      StepAdds(s, chain, log, t, m);
      chain' := RunExplains(s1, ChainAfter(chain, s.threads[t]), log + e, schedule[1..], s');
      LogOfStep(s, schedule);
      JoinLogs(log, e, LogOf(s1, schedule[1..]));
    }
  }

  lemma InitExplains(progs: seq<seq<Op>>)
    ensures Explains(Init(progs), [HEAD], [])
  {
    var s := Init(progs);
    assert Items(s, [HEAD]) == [Item(0, Nobody)];
  }

  // ------------------------------------------------------------------ real-time order

  // What is left of a run behind the state that its first part leads to.
  lemma {:induction false} RunTail(s: State, a: seq<(nat, Node)>, mid: State, b: seq<(nat, Node)>, s': State)
    requires Run(s, a, mid) && Run(s, a + b, s')
    ensures Run(mid, b, s') && LogOf(s, a + b) == LogOf(s, a) + LogOf(mid, b)
    decreases |a|
  {
    if a == [] {
      assert a + b == b;
    } else {
      assert (a + b)[1..] == a[1..] + b;
      RunTail(Step(s, a[0].0, a[0].1), a[1..], mid, b, s');
    }
  }

  // The call at position `p` of the log is its thread's call number |CallsOf(log[..p], t)|.
  lemma {:induction false} CallAt(log: seq<Entry>, p: nat)
    requires p < |log|
    ensures var t := log[p].t;
      |CallsOf(log[..p], t)| < |CallsOf(log, t)| && CallsOf(log, t)[|CallsOf(log[..p], t)|] == log[p].op
  {
    var last := |log| - 1;
    if p < last {
      assert log[..last][..p] == log[..p];
      CallAt(log[..last], p);
    }
  }

  // Two calls of one thread stand in the log in the order of its program.
  lemma CallsOrdered(log: seq<Entry>, p: nat, q: nat)
    requires p < q < |log| && log[p].t == log[q].t
    ensures |CallsOf(log[..p], log[p].t)| < |CallsOf(log[..q], log[p].t)|
  {
    assert log[..q][..p] == log[..p];
    CallAt(log[..q], p);
  }

  // The entry at position `p` is call number `k` of thread `t`.
  predicate IsCall(log: seq<Entry>, p: nat, t: nat, k: nat) {
    p < |log| && log[p].t == t && |CallsOf(log[..p], t)| == k
  }

  /** Call `k` of thread `t` is in the order, and call `j` of thread `u`, if at all, behind it. */
  ghost predicate Before(log: seq<Entry>, t: nat, k: nat, u: nat, j: nat) {
    exists p: nat :: IsCall(log, p, t, k) && forall q: nat :: IsCall(log, q, u, j) ==> p < q
  }

  lemma {:induction false} FindCall(log: seq<Entry>, t: nat, k: nat) returns (p: nat)
    requires k < |CallsOf(log, t)|
    ensures IsCall(log, p, t, k)
  {
    var last := |log| - 1;
    if k < |CallsOf(log[..last], t)| {
      p := FindCall(log[..last], t, k);
      assert log[..last][..p] == log[..p];
    } else {
      p := last;
    }
  }

  // The calls in the first part of an order stand before those that are not in it.
  lemma PrefixFirst(first: seq<Entry>, rest: seq<Entry>, t: nat, k: nat, u: nat, j: nat)
    requires k < |CallsOf(first, t)| && |CallsOf(first, u)| <= j
    ensures Before(first + rest, t, k, u, j)
  {
    var log := first + rest;
    var p := FindCall(first, t, k);
    assert log[..p] == first[..p];
    assert IsCall(log, p, t, k);
    forall q: nat | IsCall(log, q, u, j)
      ensures p < q
    {
      if q < |first| {
        assert log[..q] == first[..q];
        CallAt(first, q);
      }
    }
  }

  predicate Returned(s: State, t: nat, k: nat) { t < |s.threads| && k < s.threads[t].ip }

  predicate NotBegun(s: State, u: nat, j: nat) {
    u < |s.threads| && (j > s.threads[u].ip || (j == s.threads[u].ip && s.threads[u].pc == Begin))
  }

  /** `log` puts every call that has returned in state `s` before every call that has not begun there. */
  ghost predicate KeepsOrder(s: State, log: seq<Entry>) {
    forall t: nat, k: nat, u: nat, j: nat :: Returned(s, t, k) && NotBegun(s, u, j) ==> Before(log, t, k, u, j)
  }

  /** The one order `log` does so for every state that the run passes through. */
  ghost predicate RealTime(init: State, schedule: seq<(nat, Node)>, log: seq<Entry>) {
    forall i, mid :: 0 <= i <= |schedule| && Run(init, schedule[..i], mid) ==> KeepsOrder(mid, log)
  }

  // A call that has returned has taken effect, one that has not begun has not.
  lemma EffectiveBetween(th: Thread)
    ensures th.ip <= Effective(th) <= th.ip + 1
    ensures th.pc == Begin ==> Effective(th) == th.ip
  {
  }

  // A run from a state in which no call has taken effect.
  lemma RunFromStart(init: State, schedule: seq<(nat, Node)>, s: State) returns (chain: seq<Node>)
    requires Explains(init, [HEAD], []) && Run(init, schedule, s)
    ensures Explains(s, chain, LogOf(init, schedule)) && SamePrograms(init, s)
  {
    chain := RunExplains(init, [HEAD], [], schedule, s);
    assert [] + LogOf(init, schedule) == LogOf(init, schedule);
  }

  lemma OrderFrom(mid: State, chain: seq<Node>, first: seq<Entry>, rest: seq<Entry>)
    requires Explains(mid, chain, first)
    ensures KeepsOrder(mid, first + rest)
  {
    forall t: nat, k: nat, u: nat, j: nat | Returned(mid, t, k) && NotBegun(mid, u, j)
      ensures Before(first + rest, t, k, u, j)
    {
      EffectiveBetween(mid.threads[t]);
      EffectiveBetween(mid.threads[u]);
      PrefixFirst(first, rest, t, k, u, j);
    }
  }

  // The state reached by the first part of a run and the order that the whole run gives.
  lemma OrderAt(init: State, a: seq<(nat, Node)>, mid: State, b: seq<(nat, Node)>, s: State)
    requires Explains(init, [HEAD], []) && Run(init, a, mid) && Run(init, a + b, s)
    ensures KeepsOrder(mid, LogOf(init, a + b))
  {
    var chain := RunFromStart(init, a, mid);
    RunTail(init, a, mid, b, s);
    OrderFrom(mid, chain, LogOf(init, a), LogOf(mid, b));
  }

  /** Real-time order: the order in which the calls of a run take effect puts every call
      that has returned at any moment before every call that has not begun then. */
  lemma RealTimeOrder(init: State, schedule: seq<(nat, Node)>, s: State)
    requires Explains(init, [HEAD], []) && Run(init, schedule, s)
    ensures RealTime(init, schedule, LogOf(init, schedule))
  {
    forall i, mid | 0 <= i <= |schedule| && Run(init, schedule[..i], mid)
      ensures KeepsOrder(mid, LogOf(init, schedule))
    {
      assert schedule == schedule[..i] + schedule[i..];
      OrderAt(init, schedule[..i], mid, schedule[i..], s);
    }
  }

  /** Linearizability: for every run there is one sequential order of its calls that
      explains the state it reaches, keeps each thread's own order, and puts every call
      that had returned at any moment of the run before every call that had not begun. */
  lemma Linearizable(progs: seq<seq<Op>>, schedule: seq<(nat, Node)>, s: State)
      returns (chain: seq<Node>, log: seq<Entry>)
    requires Run(Init(progs), schedule, s)
    ensures |s.threads| == |progs| && forall t :: 0 <= t < |progs| ==> s.threads[t].prog == progs[t]
    ensures Explains(s, chain, log) && RealTime(Init(progs), schedule, log)
  {
    InitExplains(progs);
    log := LogOf(Init(progs), schedule);
    chain := RunFromStart(Init(progs), schedule, s);
    RealTimeOrder(Init(progs), schedule, s);
  }
}
