# Models of the synchronisation programs and of some stateful tools

The repository holds small C programs written along two textbooks. This project models
the ones that have an argument in them and proves that argument for every number of
threads, every interleaving, every loop count and every input.

| file | what it models |
|---|---|
| `LockCoupling.dfy`, `Linearizability.dfy`, `LockOrder.dfy`, `ListRuns.dfy`, `ConcurrentList.dfy` | the list with hand-over-hand locking: shape invariant and memory safety; linearizability; safe reclamation, deadlock freedom and termination; whole runs and the driver; the list updated in place |
| `ReaderWriter.dfy`, `Starvation.dfy`, `RwLock.dfy` | the two reader-writer locks and their clients: invariant, mutual exclusion, refinement, total correctness; starvation and its absence; the program updated in place |
| `Zemaphore.dfy` | the semaphore built from a mutex and a condition variable |
| `BoundedBuffer.dfy` | producers and consumers over a ring buffer |
| `RacyIncrement.dfy` | two threads that increment a global without a lock |
| `ApproximateCounter.dfy` | per-cpu counters flushed into a global one |
| `Barrier.dfy` | the barrier and what a second use of it allows |
| `SequenceServer.dfy` | the sequence-number server with its persisted counter |
| `Decimal.dfy`, `Tail.dfy`, `Getcwd.dfy` | `dtoa` and the descriptor loop, the backwards scan of `tail`, the upward walk of `getcwd` |
| `Sums.dfy`, `Modulo.dfy`, `Common.dfy` | sums over sequences, division by a symbolic divisor, what several models share |

How the concurrent models are built: a thread is a program counter and its locals. `Ready`
says whether the next line of a thread can execute (semaphores and mutexes may block it),
`Advance` and `Effect` say what that line does to the thread and to the shared variables,
`Step` applies both to one thread, and a `Run` is any sequence of steps that a scheduler may
choose. A `++` on a shared variable is a load and a store. The primitives mean what IEEE Std
1003.1-2017 says of `sem_wait`, `sem_post`, `pthread_mutex_lock`, `pthread_cond_wait` and
`pthread_cond_signal`; a condition wait may end spuriously, and a signal wakes one of the
sleepers, if there is one (more wakeups are spurious ones). Beside each transition system
stands a class with the program's fields, whose methods update them one line at a time and are
proved to take exactly the steps of the transition system. `Stuck` means that a run cannot be
extended, so "every run ends" and "a stuck state is finished" together say that the program
terminates with that result under every scheduler.

Where the code does not do what its name or comments suggest, the model follows the code:

- the barrier posts one token more than threads wait for, so two threads or more cannot use
  it twice (`Barrier.HoldsOnlyOnce`, `Barrier.LeaksTwice`);
- `dtoa` does not negate the least 64-bit number (`Decimal.RoundTrip`, `Decimal.AcceptsDecimal`);
- `tail` can cut a line where a chunk begins (`Tail.LongestWhenHarmless`, `Tail.LineCut`);
- the server keeps its ranges in order exactly when no length is negative and the counter
  does not overflow (`SequenceServer.OrderlyIff`), and with non-negative lengths numbers
  repeat exactly when an int cannot tell them apart any more (`SequenceServer.DistinctIff`);
  `SequenceServer.DistinctWithoutOverflow` covers negative lengths, and
  `SequenceServer.NegativeLengthRepeats` and `SequenceServer.OverflowRepeats` give the inputs
  that fail;
- the plain reader-writer lock lets readers overtake a blocked writer
  (`Starvation.OvertakesExactly` says when, and how often), and `fair_lock` does not keep
  the others from passing a writer that still stands before it (`Starvation.PassedExactly`);
- `getcwd` can leave the process in another directory when the path does not fit its buffer
  (`Getcwd.Process.Run`, `Getcwd.LeftElsewhere`).

## Model

| member | source | states |
|---|---|---|
| `LockCoupling.StepInv` | os-three-easy-pieces/concurrency/lock_coupling.c:24-84 | every line of every insert and delete keeps the invariant: a sequence of distinct linked nodes from the head, each leading to the next and the last to NULL (except an inserter's own node between lines 44 and 45), every thread where its line says, every held mutex known to its holder, every allocated node linked or about to be linked or freed; the linked nodes change at lines 44 and 65 only |
| `LockCoupling.MemorySafety` | os-three-easy-pieces/concurrency/lock_coupling.c:36-50 | no thread ever touches a node that is not allocated |
| `LockCoupling.Position` | os-three-easy-pieces/concurrency/lock_coupling.c:55-80 | a thread between locking `prev` and giving it up stands at a linked node whose successor is its `curr` |
| `LockCoupling.OwnedFrame` | os-three-easy-pieces/concurrency/lock_coupling.c:37-80 | nobody changes a node whose mutex another thread holds |
| `LockCoupling.StepClaims` | os-three-easy-pieces/concurrency/lock_coupling.c:26-34 | no allocated node is ever lost: each is linked, or some thread will link or free it |
| `LockOrder.SafeReclamation` | os-three-easy-pieces/concurrency/lock_coupling.c:65-68 | when a delete frees a node, no other thread holds, waits for or will follow a pointer to it, and no linked node leads to it |
| `LockOrder.FurthestMoves` | os-three-easy-pieces/concurrency/lock_coupling.c:36-80 | the thread that holds the furthest locked node can take its next step |
| `LockOrder.DeadlockFree` | os-three-easy-pieces/concurrency/lock_coupling.c:36-84 | while some thread has calls left, some thread can move, whatever address malloc offers |
| `LockOrder.StepShortens` | os-three-easy-pieces/concurrency/lock_coupling.c:63-78 | every step of any thread shortens a measure over all threads, although inserts make the list longer under a running delete |
| `Linearizability.StepContents` | os-three-easy-pieces/concurrency/lock_coupling.c:44-65 | line 44 prepends the value, the head lock of line 56 removes the first occurrence of the value or nothing, and no other line of any thread changes the contents |
| `Linearizability.StepExplains` | os-three-easy-pieces/concurrency/lock_coupling.c:24-84 | one step of any thread extends the explaining order by the call that takes effect, if any |
| `Linearizability.RunExplains` | os-three-easy-pieces/concurrency/lock_coupling.c:24-84 | along every run the explaining order grows by the calls that take effect in it, in that order, and by nothing else |
| `Linearizability.Linearizable` | os-three-easy-pieces/concurrency/lock_coupling.c:24-84 | for every run of any number of threads with any programs of inserts and deletes there is one sequential order of the calls that explains the state reached, keeps each thread's own order, and puts every call that had returned at any moment of the run before every call that had not begun at that moment |
| `Linearizability.RealTimeOrder` | os-three-easy-pieces/concurrency/lock_coupling.c:24-84 | the order in which the calls of a run take effect is such an order: one and the same for all pairs of calls and all moments |
| `ListRuns.FinalList` | os-three-easy-pieces/concurrency/lock_coupling.c:24-84 | a run that cannot be extended has finished all calls, holds no mutex, has leaked no node, and leaves the list that the calls give when they are executed one after the other in an interleaving that keeps the real-time order |
| `ListRuns.OneChain` | os-three-easy-pieces/concurrency/lock_coupling.c:86-97 | there is only one way to walk the final list |
| `ListRuns.EveryRunEnds` | os-three-easy-pieces/concurrency/lock_coupling.c:121-130 | every run has at most n * (4 * (1 + i) + 10) steps for n calls of which i insert |
| `ListRuns.InsertsReverse` | os-three-easy-pieces/concurrency/lock_coupling.c:36-50 | a list built by inserts alone holds the values in the reverse order in which the inserts took effect |
| `ListRuns.DriverList` | os-three-easy-pieces/concurrency/lock_coupling.c:121-149 | after the joins every value is in the list as often as in all ranges together, and the values of each thread stand in descending order |
| `ConcurrentList.RangeProgram` | os-three-easy-pieces/concurrency/lock_coupling.c:121-130 | the loop issues one insert for each value of the range, in ascending order |
| `ConcurrentList.List.constructor` | os-three-easy-pieces/concurrency/lock_coupling.c:17-22 | list_init leaves the empty list of the model |
| `ConcurrentList.List.InsertLine` | os-three-easy-pieces/concurrency/lock_coupling.c:36-50 | the in-place update of each line of list_insert, with everything it leaves alone |
| `ConcurrentList.List.DeleteLine` | os-three-easy-pieces/concurrency/lock_coupling.c:55-84 | the same for list_delete and for the start of either call |
| `ConcurrentList.List.Execute` | os-three-easy-pieces/concurrency/lock_coupling.c:24-84 | a thread moves exactly when its mutex is free, the new heap and threads are those of the model, and the explaining order grows when the call takes effect |
| `ConcurrentList.List.Print` | os-three-easy-pieces/concurrency/lock_coupling.c:86-97 | after the joins the loop visits exactly the values of the list in order and leaves every mutex as it was |
| `ConcurrentList.List.FreeAll` | os-three-easy-pieces/concurrency/lock_coupling.c:99-108 | after the joins every node is freed once and nothing stays allocated |
| `ReaderWriter.StepInv` | os-three-easy-pieces/concurrency/sema/reader-writer-nostarve.c:25-59 | every line of every reader and writer keeps the invariant: `readers` counts the readers between increment and decrement, each semaphore is 1 minus its holders, `writelock` is owned by one writer or by the group of readers, whoever of them took it |
| `ReaderWriter.MutualExclusion` | os-three-easy-pieces/concurrency/sema/reader-writer.c:21-47 | at most one writer is inside, and never a writer beside a reader |
| `ReaderWriter.AlwaysExclusive` | os-three-easy-pieces/concurrency/sema/reader-writer-nostarve.c:72-91 | the same for every state that either program can reach with any numbers of readers, writers and loops |
| `ReaderWriter.Refines` | os-three-easy-pieces/concurrency/sema/reader-writer.c:21-47 | every step of either lock is one step of an abstract reader-writer lock (a set of readers, at most one writer) or none |
| `ReaderWriter.ReadsValue` | os-three-easy-pieces/concurrency/sema/reader-writer-nostarve.c:72-78 | a reader reads the number of completed increments while no writer is in the middle of one |
| `ReaderWriter.Progress` | os-three-easy-pieces/concurrency/sema/reader-writer-nostarve.c:25-59 | no reachable state is stuck before every thread has finished |
| `ReaderWriter.StepWork` | os-three-easy-pieces/concurrency/sema/reader-writer-nostarve.c:72-91 | every step shortens a measure over all threads |
| `ReaderWriter.TotalCorrectness` | os-three-easy-pieces/concurrency/sema/reader-writer.c:60-79 | every run of either program is finite, and a run that cannot be extended has finished every thread with `value == num_writers * loops`, no reader counted and every semaphore back at 1, with `value++` as a load and a store |
| `Starvation.ReaderNeverBlocks` | os-three-easy-pieces/concurrency/sema/reader-writer-nostarve.c:27-35 | with `fair_lock` a reader that comes to `writelock` always finds it free |
| `Starvation.StepBehindWriter` | os-three-easy-pieces/concurrency/sema/reader-writer-nostarve.c:49-59 | while a writer waits for `writelock` nobody else passes `fair_lock` or gets in, the readers inside get closer to leaving, and a free `writelock` stays free |
| `Starvation.SomebodyInsideMoves` | os-three-easy-pieces/concurrency/sema/reader-writer-nostarve.c:38-53 | while `writelock` is taken, some thread other than the waiting writer can step |
| `Starvation.NoStarvation` | os-three-easy-pieces/concurrency/sema/reader-writer-nostarve.c:25-59 | however the others are scheduled while a writer waits, no reader gets in, they run out of steps, and then the writer can go |
| `Starvation.WaitIsBounded` | os-three-easy-pieces/concurrency/sema/reader-writer-nostarve.c:38-53 | they have at most seven steps each |
| `Starvation.PassBy` | os-three-easy-pieces/concurrency/sema/reader-writer-nostarve.c:25-59 | while a writer stands before `fair_lock` and is not chosen, the others can take the lock as often as they have turns left |
| `Starvation.PassedExactly` | os-three-easy-pieces/concurrency/sema/reader-writer-nostarve.c:25-91 | with any numbers of readers, writers and loops, others can take `fair_lock` n times while a writer stands before it exactly when the program has `fair_lock`, a writer and a turn, and n is at most all the turns of the other threads |
| `Starvation.RelayRun` | os-three-easy-pieces/concurrency/sema/reader-writer.c:21-37 | without `fair_lock` overlapping readers keep a waiting writer blocked for any number of the entries that they have left |
| `Starvation.PlainLockStarves` | os-three-easy-pieces/concurrency/sema/reader-writer.c:21-42 | for any two or more readers and any writers, every number of entries short of all that the readers ever make can happen beside one blocked writer, in a run from the initial state |
| `Starvation.EntryNeeds` | os-three-easy-pieces/concurrency/sema/reader-writer.c:21-42 | an entry beside a blocked writer takes the plain lock, a second reader, a writer, and an earlier entry that has been used up |
| `Starvation.OvertakesExactly` | os-three-easy-pieces/concurrency/sema/reader-writer.c:21-79 | readers can overtake a blocked writer n > 0 times exactly when the lock is the plain one, there are two readers and a writer, and n is less than the number of all entries of the readers |
| `RwLock.RwProgram.constructor` | os-three-easy-pieces/concurrency/sema/reader-writer-nostarve.c:16-23 | rwlock_init and the created threads give the initial state of the model |
| `RwLock.RwProgram.ExecuteLine` | os-three-easy-pieces/concurrency/sema/reader-writer-nostarve.c:25-91 | the in-place update of each line |
| `RwLock.RwProgram.Execute` | os-three-easy-pieces/concurrency/sema/reader-writer-nostarve.c:25-91 | a thread moves exactly when its semaphore lets it, and the new state is that of the model |
| `RwLock.RwProgram.Schedule` | os-three-easy-pieces/concurrency/sema/reader-writer-nostarve.c:93-119 | a loop over arbitrary scheduler choices performs exactly those that find their thread able to move, as a run of the model |
| `RwLock.RunIsTaken` | os-three-easy-pieces/concurrency/sema/reader-writer-nostarve.c:93-119 | so every run of the model is performed when its schedule is chosen |
| `Zemaphore.StepInv` | os-three-easy-pieces/concurrency/sema/zemaphore.c:16-32 | every step, with threads that barge in and with spurious wakeups, keeps the invariant: while a thread sleeps, the value is at most the number of woken waiters not yet served plus the signals still to come |
| `Zemaphore.Refines` | os-three-easy-pieces/concurrency/sema/zemaphore.c:16-32 | each step is an increment, a decrement of a positive value, or nothing: a step of an atomic counting semaphore |
| `Zemaphore.RunInv` | os-three-easy-pieces/concurrency/sema/zemaphore.c:16-32 | a run is as long as the programs allow, plus four steps for every spurious wakeup |
| `Zemaphore.NoLostWakeup` | os-three-easy-pieces/concurrency/sema/zemaphore.c:9-32 | when nobody can move, every unfinished thread sleeps in zem_wait, the value is then not positive (zero for a non-negative initial value), it is the initial value plus increments minus decrements, and each thread has made exactly the calls of its own program before the one it stands in |
| `Zemaphore.EveryCallMade` | os-three-easy-pieces/concurrency/sema/zemaphore.c:16-32 | in every reachable state each thread stands in its own program, has incremented once for every zem_post and decremented once for every zem_wait before its place; when all have finished the value is the initial one plus all zem_post minus all zem_wait calls of the programs |
| `Zemaphore.AnybodyMayMove` | os-three-easy-pieces/concurrency/sema/zemaphore.c:18-21 | a sleeper may wake at any moment without a signal, and any caller may take a free mutex before a woken waiter does |
| `Zemaphore.Zem.constructor` | os-three-easy-pieces/concurrency/sema/zemaphore.c:9-14 | zem_init gives the initial state of the model |
| `Zemaphore.Zem.Line` | os-three-easy-pieces/concurrency/sema/zemaphore.c:16-32 | the in-place update of each line |
| `Zemaphore.Zem.Execute` | os-three-easy-pieces/concurrency/sema/zemaphore.c:16-32 | the whole step, with the thread that a signal wakes |
| `BoundedBuffer.StepInv` | os-three-easy-pieces/concurrency/buffer.c:13-50 | every step keeps the invariant: `empty`, `full` and the threads with tokens add up to MAX, the indices follow the counts around the ring, the unread values lie in their slots in order |
| `BoundedBuffer.SlotsRight` | os-three-easy-pieces/concurrency/buffer.c:13-24 | a producer never overwrites an unread value, and a consumer always finds the oldest unread one |
| `BoundedBuffer.RefinesFifo` | os-three-easy-pieces/concurrency/buffer.c:13-24 | storing enqueues, loading takes the head of the queue, nothing else changes the queue |
| `BoundedBuffer.PutsBound` | os-three-easy-pieces/concurrency/buffer.c:26-36 | at most loops values per producer are stored, exactly that many in all when the producers have finished, and fewer while one of them stands before a turn |
| `BoundedBuffer.GetsBound` | os-three-easy-pieces/concurrency/buffer.c:38-50 | at most loops values per consumer are loaded, exactly that many in all when the consumers have finished, and fewer while one of them stands before a turn |
| `BoundedBuffer.OnlySurplusWaits` | os-three-easy-pieces/concurrency/buffer.c:26-50 | a stuck run has finished everybody exactly when the surplus of values lies between 0 and MAX; otherwise the short side is used up, and the buffer is empty or full |
| `BoundedBuffer.ProducersConsumers` | os-three-easy-pieces/concurrency/buffer.c:26-57 | for any MAX > 0, producers, consumers and loops every run ends, and the k-th value loaded is the k-th value stored |
| `BoundedBuffer.NothingLost` | os-three-easy-pieces/concurrency/buffer.c:26-50 | when everybody has finished, every number below loops has been stored once by each producer and nothing else, and with as many consumers as producers everything stored has been loaded |
| `BoundedBuffer.Buffer.constructor` | os-three-easy-pieces/concurrency/buffer.c:4-11 | the buffer and the semaphores start as in the model |
| `BoundedBuffer.Buffer.Store` | os-three-easy-pieces/concurrency/buffer.c:15-15 | with a free slot the store appends the value to the queue of unread values and leaves each of them in its slot |
| `BoundedBuffer.Buffer.Fetch` | os-three-easy-pieces/concurrency/buffer.c:21-21 | with an unread value the load takes the oldest one from the head of the queue |
| `BoundedBuffer.Buffer.Line` | os-three-easy-pieces/concurrency/buffer.c:13-50 | the in-place update of each line |
| `BoundedBuffer.Buffer.Execute` | os-three-easy-pieces/concurrency/buffer.c:26-50 | a thread moves exactly when its semaphore lets it, and the new state is that of the model |
| `RacyIncrement.StepInv` | linux-api-kerrisk/POSIXthreads-sync/thread_incr.c:22-28 | no copy exceeds the stores so far, and the value falls back to 1 only by the first store of a thread |
| `RacyIncrement.Bounds` | linux-api-kerrisk/POSIXthreads-sync/thread_incr.c:22-28 | the final value lies between min(loops, 2) and 2 * loops |
| `RacyIncrement.ReachSmall` | linux-api-kerrisk/POSIXthreads-sync/thread_incr.c:22-28 | a run for every value from 2 to loops |
| `RacyIncrement.ReachLarge` | linux-api-kerrisk/POSIXthreads-sync/thread_incr.c:22-28 | a run for every value from loops to 2 * loops |
| `RacyIncrement.ExactOutcomes` | linux-api-kerrisk/POSIXthreads-sync/thread_incr.c:15-66 | the values that the program can print at the end are exactly those from min(loops, 2) to 2 * loops |
| `RacyIncrement.Program.Execute` | linux-api-kerrisk/POSIXthreads-sync/thread_incr.c:22-28 | the in-place update of each line |
| `ApproximateCounter.StepInv` | os-three-easy-pieces/concurrency/approximate_counter.c:31-57 | every step keeps the invariant of both levels of locks, and the global value never decreases |
| `ApproximateCounter.StepAdds` | os-three-easy-pieces/concurrency/approximate_counter.c:34-34 | the number of increments performed, as the threads stand, counts the stores of line 34 and nothing else |
| `ApproximateCounter.Accuracy` | os-three-easy-pieces/concurrency/approximate_counter.c:31-49 | in every state of the invariant the global value and the local counters (one that has just been added to the global value and not yet been reset counts as 0) add up to the increments performed; the global value is a multiple of the threshold and lags by at most threshold per cpu, one less per cpu at rest |
| `ApproximateCounter.GetMonotone` | os-three-easy-pieces/concurrency/approximate_counter.c:44-57 | the successive results of get in a thread never decrease, each is the global value of its moment, and a turn ends at the last unlock and nowhere else |
| `ApproximateCounter.Progress` | os-three-easy-pieces/concurrency/approximate_counter.c:31-49 | the two levels of locks never block each other for good |
| `ApproximateCounter.FinalValue` | os-three-easy-pieces/concurrency/approximate_counter.c:31-57 | worker t works on cpu t % cpus; every run ends and all threads finish all their turns; cpu c has then counted loops times the number of workers t with t % cpus == c, and the global value is the sum over the cpus of threshold * (that / threshold) |
| `ApproximateCounter.Counter.constructor` | os-three-easy-pieces/concurrency/approximate_counter.c:20-32 | init zeroes the global and the local counters, and thread t works on cpu t % cpus with all its turns before it |
| `ApproximateCounter.Counter.Line` | os-three-easy-pieces/concurrency/approximate_counter.c:31-49 | the in-place update of each line, with every other cpu left alone |
| `ApproximateCounter.Counter.Execute` | os-three-easy-pieces/concurrency/approximate_counter.c:31-57 | the whole step, with the program counter and registers |
| `Barrier.StepInv` | os-three-easy-pieces/concurrency/sema/barrier.c:25-44 | every step keeps the invariant, for any initial value of `sem` |
| `Barrier.NobodyEarly` | os-three-easy-pieces/concurrency/sema/barrier.c:31-43 | nobody has left the barrier before everybody has incremented `waiters` |
| `Barrier.Progress` | os-three-easy-pieces/concurrency/sema/barrier.c:31-43 | while a thread has not left, some thread can move |
| `Barrier.SingleUse` | os-three-easy-pieces/concurrency/sema/barrier.c:25-98 | with n threads of one call each: nobody leaves early, every run ends, all leave, and one token too many stays in `sem` |
| `Barrier.EarlyRun` | os-three-easy-pieces/concurrency/sema/barrier.c:40-43 | with a token left over, a thread leaves although another has not come |
| `Barrier.HoldsOnlyOnce` | os-three-easy-pieces/concurrency/sema/barrier.c:34-43 | a thread can leave early exactly when there are two threads or more and `sem` does not start at 0 |
| `Barrier.SecondRoundLeaks` | os-three-easy-pieces/concurrency/sema/barrier.c:17-44 | with two threads or more that may each call the barrier twice, a run from barrier_init in which one gets through its second call although another has not begun it |
| `Barrier.LeaksTwice` | os-three-easy-pieces/concurrency/sema/barrier.c:17-44 | in a program whose threads each call the barrier twice, at their own speed, a thread can leave its second call before another has come to it exactly when there are two threads or more |
| `Barrier.Rendezvous.constructor` | os-three-easy-pieces/concurrency/sema/barrier.c:17-23 | barrier_init gives the initial state of the model |
| `Barrier.Rendezvous.Line` | os-three-easy-pieces/concurrency/sema/barrier.c:31-43 | the in-place update of each line |
| `Barrier.Rendezvous.Execute` | os-three-easy-pieces/concurrency/sema/barrier.c:25-44 | a thread moves exactly when its semaphore lets it |
| `SequenceServer.HandedTile` | linux-api-kerrisk/pipesFIFOs/seqnum/fifo_seqnum_server.c:92-107 | with non-negative lengths and no overflow the ranges handed out are ascending and disjoint and cover everything between the first and the last counter |
| `SequenceServer.HandedConcat` | linux-api-kerrisk/pipesFIFOs/seqnum/fifo_seqnum_server.c:72-108 | serving requests one after the other composes |
| `SequenceServer.OrderlyIff` | linux-api-kerrisk/pipesFIFOs/seqnum/fifo_seqnum_server.c:92-100 | the ranges are proper, within the int, and ascending without overlap exactly when no length is negative and the counter plus all lengths does not overflow |
| `SequenceServer.DistinctIff` | linux-api-kerrisk/pipesFIFOs/seqnum/fifo_seqnum_server.c:92-100 | with non-negative lengths a number, in 32-bit arithmetic, is handed out twice exactly when more than 2^32 of them have been handed out |
| `SequenceServer.DistinctWithoutOverflow` | linux-api-kerrisk/pipesFIFOs/seqnum/fifo_seqnum_server.c:92-100 | for any lengths, as long as the counter does not overflow, a number is handed out twice exactly when two of the ranges between the partial sums of the lengths overlap |
| `SequenceServer.HeldOrLost` | linux-api-kerrisk/pipesFIFOs/seqnum/fifo_seqnum_server.c:93-100 | every number between the first and the last counter is either in a range whose reply was written or in one whose reply was lost, never in both |
| `SequenceServer.AllHeld` | linux-api-kerrisk/pipesFIFOs/seqnum/fifo_seqnum_server.c:92-100 | when every reply is written the clients hold all ranges handed out, and none is lost |
| `SequenceServer.CoveredExactly` | linux-api-kerrisk/pipesFIFOs/seqnum/fifo_seqnum_server.c:92-107 | with non-negative lengths and no overflow the numbers handed out are exactly those from the first counter up to the last |
| `SequenceServer.FlattenConcat` | linux-api-kerrisk/pipesFIFOs/seqnum/fifo_seqnum_server.c:72-108 | the requests of several processes are those of one after those of the other |
| `SequenceServer.Server.StartUp` | linux-api-kerrisk/pipesFIFOs/seqnum/fifo_seqnum_server.c:43-48 | the counter starts at 0 from an empty file and at the stored value otherwise; a short file stops the server |
| `SequenceServer.Server.Serve` | linux-api-kerrisk/pipesFIFOs/seqnum/fifo_seqnum_server.c:73-107 | a request that is not served changes nothing; a served one gets the range at the counter, which reaches the client exactly when the reply is written, and counter and file move behind it |
| `SequenceServer.Server.Session` | linux-api-kerrisk/pipesFIFOs/seqnum/fifo_seqnum_server.c:72-108 | a process serves its requests, and the file equals the counter whenever it waits for the next one |
| `SequenceServer.Server.Restarts` | linux-api-kerrisk/pipesFIFOs/seqnum/fifo_seqnum_server.c:43-108 | any number of restarts hands out what one process would hand out for all requests; the ranges of all processes are in order exactly when no length is negative and the counter does not overflow, and from an empty file they then cover exactly the numbers from 0 up to the sum of the lengths |
| `Decimal.RoundTrip` | linux-api-kerrisk/procfs/userfsact.c:27-65 | reading back what dtoa writes gives the number, for every 64-bit value except exactly the least one |
| `Decimal.Canonical` | linux-api-kerrisk/procfs/userfsact.c:34-50 | no leading zero, at most twenty characters |
| `Decimal.AcceptsDecimal` | linux-api-kerrisk/procfs/userfsact.c:13-25 | isdigitstr accepts what dtoa writes, for every 64-bit value except exactly the least one |
| `Decimal.AcceptsNumerals` | linux-api-kerrisk/procfs/userfsact.c:13-25 | isdigitstr accepts exactly white space, an optional sign, and at least one digit up to the end |
| `Decimal.StoreDigits` | linux-api-kerrisk/procfs/userfsact.c:45-49 | the digit loop appends the digits, last one first |
| `Decimal.ReverseInPlace` | linux-api-kerrisk/procfs/userfsact.c:52-60 | the two-pointer loop reverses the part behind the sign and leaves the rest |
| `Decimal.Dtoa` | linux-api-kerrisk/procfs/userfsact.c:27-65 | the two loops together leave the terminated decimal text in the buffer |
| `Decimal.FirstMatchIsFirst` | linux-api-kerrisk/procfs/userfsact.c:103-116 | the match is the first number that hits |
| `Decimal.Append` | linux-api-kerrisk/procfs/userfsact.c:105-106 | strcat of the number |
| `Decimal.NamesRead` | linux-api-kerrisk/procfs/userfsact.c:105-106 | the name of a descriptor is the path followed by a text that reads back as its number |
| `Decimal.CutBack` | linux-api-kerrisk/procfs/userfsact.c:118-118 | cutting off strlen(s) characters restores the path |
| `Decimal.ScanDescriptors` | linux-api-kerrisk/procfs/userfsact.c:103-119 | the i-th lookup is made under the path followed by a text that reads back as i, all names differ, the loop ends at the first name that links to the target, and without one the path is unchanged |
| `Getcwd.FoundIsFound` | linux-api-kerrisk/dirsrefs/getcwd.c:49-66 | the name that the directory read yields leads to the wanted directory |
| `Getcwd.SearchAnswers` | linux-api-kerrisk/dirsrefs/getcwd.c:49-66 | the directory read fails exactly when an entry that stat fails on stands before every entry for the wanted directory, and otherwise yields the first entry for it, if there is one; `.` and `..` are skipped |
| `Getcwd.ResolveAppend` | linux-api-kerrisk/dirsrefs/getcwd.c:61-62 | one more component at the end of a path is one more lookup |
| `Getcwd.PathResolves` | linux-api-kerrisk/dirsrefs/getcwd.c:33-70 | the path that the walk builds exists exactly when in no directory on the way an entry that stat fails on comes first, is absolute, and resolves from the root to the directory where the walk started |
| `Getcwd.PathShape` | linux-api-kerrisk/dirsrefs/getcwd.c:61-62 | the path has one component for every level below the root and no empty one |
| `Getcwd.Process.NameOf` | linux-api-kerrisk/dirsrefs/getcwd.c:49-66 | the inner loop yields the first entry for the directory with no failing stat before it, or the failing stat that comes first, or neither |
| `Getcwd.Process.WalkUp` | linux-api-kerrisk/dirsrefs/getcwd.c:33-70 | the walk ends at the root with the path of the directory it started from, cut to the buffer |
| `Getcwd.LeftElsewhere` | linux-api-kerrisk/dirsrefs/getcwd.c:61-77 | for every size of the path buffer there is a tree in which getcwd leaves the process at the root instead of the directory where it started |
| `Getcwd.Process.Run` | linux-api-kerrisk/dirsrefs/getcwd.c:10-80 | getcwd fails exactly when on the way up an entry that stat fails on comes before the one that leads down; otherwise it returns the path cut to the buffers, "/" for the root, and the process ends where the cut path leads, or at the root if that is no directory; a path that fits resolves to the directory that was current, from anywhere, and that directory is current again |
| `Tail.ScanChunk` | linux-api-kerrisk/fbufio/tail.c:80-91 | the scan of one chunk counts its newlines from the end and stops right behind the first one too many |
| `Tail.NewlinesAre` | linux-api-kerrisk/fbufio/tail.c:82-82 | what is counted is the newline character |
| `Tail.LongestIff` | linux-api-kerrisk/fbufio/tail.c:80-91 | a suffix is the longest with its number of newlines exactly when it starts a line |
| `Tail.FindStart` | linux-api-kerrisk/fbufio/tail.c:68-92 | the backwards scan stops where min(n, all) newlines are still to come: at the last chunk edge with exactly n of them behind it, or else at the start of a line |
| `Tail.StopsOnce` | linux-api-kerrisk/fbufio/tail.c:68-92 | that position is unique: the text, the number and the chunk size determine the output |
| `Tail.LongestWhenHarmless` | linux-api-kerrisk/fbufio/tail.c:69-92 | the output starts a line exactly when no chunk begins inside a line with n newlines behind it |
| `Tail.LineCut` | linux-api-kerrisk/fbufio/tail.c:69-73 | for every chunk size there is a text of one line that `-n 1` cuts |
| `Tail.CopyFrom` | linux-api-kerrisk/fbufio/tail.c:100-107 | the copy loop writes everything from the position on |
| `Tail.Tail` | linux-api-kerrisk/fbufio/tail.c:61-107 | the output is the suffix that starts where the scan stops, with exactly min(n, all) newline characters, and the longest one if the text fits into one chunk |

## Left out

- LockCoupling.StepInv: malloc always succeeds here; the error return of list_insert (lines 27-30) is not modelled, and destroying a mutex together with the free that follows it is one removal from the heap.
- ConcurrentList.List.Print: only after the joins; beside running updates the loop reads the head link without its mutex, and what it prints then is not modelled.
- ReaderWriter.TotalCorrectness: a negative `loops` behaves as 0; the semaphore `lock` of the fair version, which nothing uses, has no counterpart.
- Zemaphore.NoLostWakeup: a thread that sleeps may still wake spuriously and sleep again; the claim is about states where nothing else can happen.
- BoundedBuffer.ProducersConsumers: `get` (line 19) is read as returning `tmp`, and the undeclared `loops` as a parameter; `main` creates no threads, so their numbers are parameters.
- ApproximateCounter.FinalValue: the threshold is positive and every update adds 1, as `worker` does; other amounts are not modelled.
- Barrier.LeaksTwice: two calls per thread; what a third round would add is not modelled.
- SequenceServer.Server.Restarts: processes stop only at the read of a request, not in the middle of a turn, and writing the file never fails; a file longer than one int counts by its first int.
- Getcwd.Process.Run: opendir, chdir("..") and stat of "/", "." and ".." succeed, and a caller's buffer that the path fills entirely has no terminator.
- Tail.Tail: reads return all the bytes asked for; opening the file and reading the options are not modelled.
- Decimal.ScanDescriptors: the loop over the descriptors of one process; the outer loop over /proc, the lengths of the path buffers and the text that readlink cuts are not modelled.
- Overflow of the `int` counters other than the one of the server.
- Printing, timing, sleep, command lines, and failures to create or join a thread.
- Orderings weaker than sequential consistency.
- `sema/ns_mutex.c`, whose node semaphores start at 1, so that it does not exclude anybody.
- The programs that only demonstrate system calls (signals, processes, sockets, message queues, mappings, attributes), and the small finite ones (`one_time_init.c`, `fork-join.c`, `randezvous.c`, `counter.c`).
