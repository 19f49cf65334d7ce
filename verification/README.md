# Verified models of the Scal containers

Scal is a collection of lock-free, wait-free and relaxed concurrent containers. This project models its
algorithms in Dafny and proves what they promise.

The concurrent algorithms are interleaved step machines: a heap of shared words, and for each of any number
of threads a program counter with its local variables. One step of one thread is one read, write,
fetch-and-add or compare-and-swap of a shared word. A run is any sequence of such steps, so that a lemma
about all runs speaks of every interleaving and of every random choice. The containers over the timestamped
deque buffer, the relaxed containers seen one operation at a time, the sequential list, the breadth-first
search and the random number generator are classes and methods with loops, as in the source.

## Modules

| modules | what they model |
|---|---|
| `Basics`, `Histories`, `Linearization`, `Calls`, `Segments` | cyclic searches; logs of events and the FIFO queue or stack they replay; from the log of the operations that changed a container to one history of all operations; what a thread has done in one call; slots of segments |
| `WaitFree*` | the wait-free queue of Kogan and Petrank |
| `Timestamps`, `TSDequeModel`, `TSDequeBuffer`, `TSContainers` | the timestamped deque buffer, and the deque, queue and stack over it |
| `KFifo*` | the unbounded k-FIFO queue: interleaved; `KFifoOrder` is one operation at a time |
| `KStack*` | the k-stack: interleaved; `KStackOrder` is one operation at a time; `KStackTwoReads` is interleaved with the remove counter read twice |
| `MsQueue*`, `Treiber*`, `DistributedQueue*` | the Michael-Scott queue, the Treiber stack, and the distributed queue over either |
| `RandomDequeue*`, `FlatCombining*`, `StutteringClock` | the random-dequeue queue, flat combining, and the clock of one counter per thread |
| `SingleLists`, `ShortestPath`, `Schrage` | the sequential queue, the breadth-first search and the random number generator |

Each interleaved model has a module with its steps (`...Model`), an invariant in two parts (the heap, and
what each thread knows at each program counter), lemmas that every step keeps both, and theorems over runs.
`Rely` is what the steps of the other threads may do; what a thread knows is stable under it. A module
`...Calls` ties the theorems to what a caller sees: from the start of a call with its argument to its return,
the thread has had exactly the effect that the argument and the result say, and between its calls none.

## Assumptions

- Memory is sequentially consistent.
- A 128-bit atomic is a pair of a value and a version without bound, as in the default build.
- A node, a segment or a descriptor is fresh when it is published; it is allocated in the step that makes it
  visible, so its own initialisation is not a shared step. The Treiber stack is the exception: its nodes are
  recycled as soon as nobody holds them.
- The results of `pseudorand` and `hwrand`, and of a balancer, are arbitrary. `hwrand` is below 2^58, so that
  adding the number of a round does not wrap around.
- Items are not NULL, and distinct where a lemma speaks of items instead of nodes.
- In the buffer a node is a position in its memory. `add_next_aba` (`ts_deque_buffer.h:53-60`) keeps an
  address only below 2^60. A timestamp is a number of ticks, or the top value that no clock reaches.
- The `compare_exchange_weak` of an end pointer may fail for no reason; the one on `taken` succeeds if the
  flag is clear, which it is when one operation runs at a time.

## Where the code does less than it seems to

- A `dequeue` of the k-FIFO queue that answers false was right at the moment it read `tail_`, not when it
  checked `head_` once more. `KFifoRecheck.RecheckTooLate` is a run in which an enqueue has returned and its
  item is in the queue at that check; `KFifoTheorems.AtRecheck` says exactly when the check comes in time:
  if and only if no committed item is beyond the segment at head, which holds if tail is still there.
- `pseudorand` says its range is 0 to 2^31-1; it is 0 to 2^31-2. It divides the seed as an unsigned number,
  so for a negative seed the result is not that of the signed number (`Schrage.ExactForSigned`).
- Removals of the timestamped containers take a NULL element for the answer that an attempt must be repeated,
  and so drop it. A removal is that of a deque if and only if the element at that end is not NULL, or there is
  none (`TSContainers.RemovalIsExact`); `TSContainers.NullIsDropped` has inputs on which it is not.
- `committed` of the k-stack reads the remove counter twice. If the first read finds it positive and the second
  one zero, it returns false with the item left in place or already popped, and push puts the item into the
  stack once more (`KStackTwoReads.PushedTwice`). This happens if and only if the second read finds zero
  (`KStackTwoReads.StartsOver`); as long as it does not, the runs are those of `KStackModel`
  (`KStackTwoReads.SameAsOneRead`), where the counter is read once.
- The exit of the random-dequeue queue for having run past the last node is never taken
  (`RandomDequeueProof.DequeueFalse`).

## Model

| member | source | states |
|---|---|---|
| WaitFreeTheorems.StepInv | src/datastructures/wf_queue_ppopp11.h:139-339 | Every step of every thread, whatever it helps with, keeps the invariant and only does what the other threads rely on |
| WaitFreeTheorems.ContentsStep | src/datastructures/wf_queue_ppopp11.h:192-213 | The abstract queue changes only by appending the value of a pending enqueue at its end or by removing the oldest value for a pending dequeue, and each such change is logged for the operation it belongs to, not for its helper |
| WaitFreeTheorems.EnqueueReturns | src/datastructures/wf_queue_ppopp11.h:175-189 | An enqueue that returns has appended its item by exactly one event; its node is in the list exactly once, at or before tail |
| WaitFreeTheorems.DequeueReturns | src/datastructures/wf_queue_ppopp11.h:238-254 | A dequeue returns exactly the value its one event removed; if it returns false it has removed nothing and the queue was empty at an instant since its publication |
| WaitFreeTheorems.PreparedEmpty | src/datastructures/wf_queue_ppopp11.h:266-283 | While a helper prepares the descriptor that says "empty", the queue has been empty since the publication of the operation it helps, or that operation is over; when the helper succeeds in installing it, it is not over |
| WaitFreeTheorems.InstalledEmpty | src/datastructures/wf_queue_ppopp11.h:268-283 | An installed descriptor that says "empty", whoever installed it, goes back to an instant since the publication of this very operation at which the queue was empty |
| WaitFreeTheorems.EmptyInstant | src/datastructures/wf_queue_ppopp11.h:237-254 | What the model records as "was empty" about the current operation of a thread goes back to such an instant |
| WaitFreeTheorems.Linearizable | src/datastructures/wf_queue_ppopp11.h:174-254 | At every instant the effects so far are a legal history of a FIFO queue that ends in the present contents |
| WaitFreeHistory.AllOperations | src/datastructures/wf_queue_ppopp11.h:174-254 | Every run has one history of all operations, dequeues that return false included, that is legal for a FIFO queue and never revised, and in which each operation takes effect between its publication and its return with the result it returns |
| WaitFreeCalls.CallHasEffect | src/datastructures/wf_queue_ppopp11.h:174-254 | A call publishes one operation; by its return an enqueue has appended its argument exactly once, whoever carried it out, and a dequeue has removed exactly the value it returns, or nothing if it returns false; under way at most this has happened |
| WaitFreeCalls.NothingBetweenCalls | src/datastructures/wf_queue_ppopp11.h:174-254 | Nothing is appended or removed for a thread between its calls |
| WaitFreeTheorems.RealTimeOrder | src/datastructures/wf_queue_ppopp11.h:174-254 | What has taken effect before an operation is published precedes that operation in the linearization |
| WaitFreeTheorems.LogGrows | src/datastructures/wf_queue_ppopp11.h:174-254 | An effect once taken is never undone |
| WaitFreeTheorems.EnqueueDiscipline | src/datastructures/wf_queue_ppopp11.h:192-235 | At most one node lies beyond tail, no node is linked twice, a descriptor stops being pending only after its node is linked, and tail passes the node only after that |
| WaitFreeTheorems.TailMoves | src/datastructures/wf_queue_ppopp11.h:216-235 | Tail advances by exactly one node, whose owner's descriptor is by then final and names the node |
| WaitFreeTheorems.HeadMoves | src/datastructures/wf_queue_ppopp11.h:318-339 | Head advances by exactly one node, and only after the descriptor of the claimant of the old head is final and names that node |
| WaitFreeTheorems.ClaimsAndPhasesStay | src/datastructures/wf_queue_ppopp11.h:139-149 | Over any run a claimed node keeps its claimant, and the phase in the slot of a thread never decreases, although the scan for the highest phase is not atomic |
| WaitFreeTheorems.LaterPhases | src/datastructures/wf_queue_ppopp11.h:152-172 | A helper accepts the phase in a slot if and only if the operation there is the one it set out to help; it never takes a later one for it |
| WaitFreeTheorems.HelpersStayOnTarget | src/datastructures/wf_queue_ppopp11.h:192-315 | Whenever a helper changes shared memory inside help_enqueue or help_dequeue, the operation it set out to help is current and pending |
| TSDequeModel.BeforeIsStrictOrder | src/datastructures/ts_deque_buffer.h:293-324 | The two comparisons of the buffer are one strict order, read from the left and from the right |
| TSDequeModel.InsertLeftInv | src/datastructures/ts_deque_buffer.h:195-238 | Linking a new leftmost node past the taken ones keeps lists index-sorted and every node not taken between the end pointers, and puts the node first in the deque |
| TSDequeModel.InsertRightInv | src/datastructures/ts_deque_buffer.h:243-280 | The same at the right end |
| TSDequeModel.MirrorInv | src/datastructures/ts_deque_buffer.h:195-280 | The buffer is symmetric: exchanging left and right keeps the invariant and reverses the deque |
| TSDequeModel.StampInv | src/datastructures/ts_timestamp.h:220-222 | Replacing the top timestamp of a new node by a tick of the clock keeps the node where it is in the deque |
| TSDequeModel.TakeInv | src/datastructures/ts_deque_buffer.h:380-394 | Taking a node at the end of its list keeps the invariant, whether or not the end pointer moves, and removes just this node from the deque |
| TSDequeModel.BestOfAll | src/datastructures/ts_deque_buffer.h:357-376 | The best of the leftmost nodes of all lists is the left end of the whole deque |
| TSDequeModel.BestRightOfAll | src/datastructures/ts_deque_buffer.h:468-487 | The best of the rightmost nodes of all lists is the right end of the whole deque |
| TSDequeBuffer.Buffer.constructor | src/datastructures/ts_deque_buffer.h:133-189 | A new buffer is an empty deque |
| TSDequeBuffer.Buffer.GetLeftItem | src/datastructures/ts_deque_buffer.h:64-95 | The leftmost node of the list of a thread that is not taken, and NULL exactly if there is none |
| TSDequeBuffer.Buffer.GetRightItem | src/datastructures/ts_deque_buffer.h:99-129 | The rightmost node of the list of a thread that is not taken, and NULL exactly if there is none |
| TSDequeBuffer.Buffer.InsertLeft | src/datastructures/ts_deque_buffer.h:195-238 | The element becomes the left end of the deque, whichever thread inserts it |
| TSDequeBuffer.Buffer.InsertRight | src/datastructures/ts_deque_buffer.h:243-280 | The element becomes the right end of the deque |
| TSDequeBuffer.Buffer.TryRemoveLeft | src/datastructures/ts_deque_buffer.h:326-435 | On a deque that is not empty an attempt removes one element, namely the left end, or one inserted at the left no earlier than the invocation time; on an empty deque it answers false exactly if no end pointer has changed since this thread looked last, so that it does at the second attempt at the latest |
| TSDequeBuffer.Buffer.TryRemoveRight | src/datastructures/ts_deque_buffer.h:437-547 | The same at the right end |
| TSContainers.TSDeque.InsertLeft | src/datastructures/ts_deque.h:58-65 | Adds the element at the left end of the abstract deque |
| TSContainers.TSDeque.InsertRight | src/datastructures/ts_deque.h:67-74 | Adds the element at the right end of the abstract deque |
| TSContainers.TSDeque.RemoveLeft | src/datastructures/ts_deque.h:76-89 | Terminates, and removes and returns exactly the left end of the deque after the NULL elements there; false exactly if there is none |
| TSContainers.TSDeque.RemoveRight | src/datastructures/ts_deque.h:91-104 | The same at the right end |
| TSContainers.TSQueue.Enqueue | src/datastructures/ts_queue.h:39-46 | Appends to the abstract FIFO queue |
| TSContainers.TSQueue.Dequeue | src/datastructures/ts_queue.h:48-63 | Terminates, and removes and returns the oldest element of the queue; false exactly if there is none |
| TSContainers.TSStack.Push | src/datastructures/ts_stack.h:39-43 | Pushes onto the abstract stack |
| TSContainers.TSStack.Pop | src/datastructures/ts_stack.h:45-58 | Terminates, and removes and returns the youngest element of the stack; false exactly if there is none |
| TSContainers.RemovalIsExact | src/datastructures/ts_deque.h:76-104 | A removal is exactly that of a deque if and only if the element at that end is not NULL or there is none |
| TSContainers.NullIsDropped | src/datastructures/ts_deque.h:76-104 | With NULL before 5 a removal returns 5 and empties the deque; with NULL alone it answers false and empties the deque |
| TSContainers.RemovalFails | src/datastructures/ts_deque.h:76-104 | A removal answers false if and only if the deque holds nothing but NULL elements |
| TSContainers.RemovalOfNonNull | src/datastructures/ts_deque.h:76-104 | Without NULL elements a removal is exactly that of a deque: false if and only if it is empty, else its end |
| KFifoTheorems.StepInv | src/datastructures/unboundedsize_kfifo.h:96-256 | Every step of every thread keeps the invariant |
| KFifoCalls.NoItemLost | src/datastructures/unboundedsize_kfifo.h:163-197 | The item of an enqueue that has got to its return has been returned by some dequeue, or it is in exactly one slot of a segment that can be reached from head; it is never lost with a removed segment, and never both |
| KFifoCalls.CallHasEffect | src/datastructures/unboundedsize_kfifo.h:199-256 | From start to return a dequeue has taken out exactly the item it returns, or nothing if it returns false, and an enqueue has handed in its argument and taken out nothing |
| KFifoCalls.NothingBetweenCalls | src/datastructures/unboundedsize_kfifo.h:199-256 | A thread takes nothing out between its calls |
| KFifoCalls.LoggedIsReturned | src/datastructures/unboundedsize_kfifo.h:215-217 | Whatever is taken out of a slot is returned, by the dequeue that took it |
| KFifoCalls.DequeuedMeans | src/datastructures/unboundedsize_kfifo.h:199-227 | An item counts as dequeued if and only if some dequeue has returned it |
| KFifoCalls.DoneMeans | src/datastructures/unboundedsize_kfifo.h:247-249 | An item counts as committed if and only if an enqueue called with it is over |
| KFifoCalls.FalseMeansEmpty | src/datastructures/unboundedsize_kfifo.h:205-222 | A dequeue that returns false met an instant of the call at which every item whose enqueue was over had been returned by some dequeue |
| KFifoCalls.ReturnedWasCalled | src/datastructures/unboundedsize_kfifo.h:199-256 | What a dequeue returns is the argument of an enqueue called before |
| KFifoTheorems.ReturnedOnce | src/datastructures/unboundedsize_kfifo.h:199-227 | No two dequeues of any threads, at any times, return the same item, and what is returned was enqueued |
| KFifoTheorems.DequeueFalse | src/datastructures/unboundedsize_kfifo.h:205-222 | A dequeue that returns false met an instant of the call at which every item of a returned enqueue had been dequeued |
| KFifoTheorems.AtRecheck | src/datastructures/unboundedsize_kfifo.h:209-221 | At the check of head this is so if and only if no committed item is beyond the segment at head; hence if tail is still there |
| KFifoRecheck.RecheckTooLate | src/datastructures/unboundedsize_kfifo.h:205-221 | A run in which a dequeue returns false although a committed item is in the queue at the check of head |
| Segments.FindIndex | src/datastructures/unboundedsize_kfifo.h:145-161 | A search from any start finds a free (or used) slot if and only if there is one |
| KFifoOrder.BoundedOvertaking | src/datastructures/unboundedsize_kfifo.h:199-256 | Over any sequence of operations and any slots, fewer than k younger items are dequeued before any item |
| KFifoOrder.BoundedLeftBehind | src/datastructures/unboundedsize_kfifo.h:199-227 | An item in the segment at head has fewer than k older ones in the queue |
| KFifoOrder.PutInv | src/datastructures/unboundedsize_kfifo.h:244-250 | Putting an item into a free slot at tail never exceeds k items in the life of a segment |
| KFifoOrder.KFifo.Enqueue | src/datastructures/unboundedsize_kfifo.h:230-256 | Terminates; the item is the last to arrive, and nothing is dequeued |
| KFifoOrder.KFifo.Dequeue | src/datastructures/unboundedsize_kfifo.h:200-227 | Terminates; false exactly if everything that arrived has been dequeued; else an item that had not been, with fewer than k older ones left behind |
| KFifoOrder.KFifo.Committed | src/datastructures/unboundedsize_kfifo.h:164-197 | Without interference it answers false exactly if the item is still in its slot and the segment has been deleted |
| KStackTheorems.StepInv | src/datastructures/kstack.h:102-255 | Every step of every thread keeps the invariant |
| KStackCalls.NoItemLost | src/datastructures/kstack.h:158-183 | The item of a push that has got to its return has been returned by some pop, or it is in exactly one slot of a segment that can be reached from top; it is never lost with a removed segment, and never both |
| KStackCalls.CallHasEffect | src/datastructures/kstack.h:205-255 | From start to return a pop has taken out exactly the item it returns, or nothing if it returns false, and a push has handed in its argument and taken out nothing |
| KStackCalls.NothingBetweenCalls | src/datastructures/kstack.h:205-255 | A thread takes nothing out between its calls |
| KStackCalls.LoggedIsReturned | src/datastructures/kstack.h:238-241 | Whatever is taken out of a slot is returned, by the pop that took it |
| KStackCalls.PoppedMeans | src/datastructures/kstack.h:228-255 | An item counts as popped if and only if some pop has returned it |
| KStackCalls.DoneMeans | src/datastructures/kstack.h:215-217 | An item counts as committed if and only if a push called with it is over |
| KStackCalls.FalseMeansEmpty | src/datastructures/kstack.h:244-249 | A pop that returns false met an instant of the call at which every item whose push was over had been returned by some pop |
| KStackCalls.ReturnedWasCalled | src/datastructures/kstack.h:205-255 | What a pop returns is the argument of a push called before |
| KStackTheorems.PoppedOnce | src/datastructures/kstack.h:228-255 | No two pops of any threads, at any times, return the same item, and what is returned was pushed, although the CAS goes through the current top |
| KStackTheorems.PopFalse | src/datastructures/kstack.h:244-249 | A pop that returns false met an instant of the call at which top was the only segment, all its k slots were empty at once, and every completed push had been popped |
| KStackTheorems.TopIncreases | src/datastructures/kstack.h:131-156 | Every change of top makes it strictly greater in one order, so no value of top recurs |
| KStackTheorems.Counters | src/datastructures/kstack.h:141-156 | The counter of a segment is the number of threads that are removing it, and one more once it has been removed; zero means that it can be reached from top |
| KStackTheorems.RemovedStays | src/datastructures/kstack.h:141-156 | A removed segment stays removed and keeps a counter of at least one for ever |
| KStackTwoReads.SameAsOneRead | src/datastructures/kstack.h:159-183 | With two reads of the counter, as long as no second read finds zero, every state is one of a run with one read, so that all theorems about those hold |
| KStackTwoReads.StartsOver | src/datastructures/kstack.h:164-182 | When push starts over after `committed`, its item is in no slot and has not been popped if and only if the second read did not find zero |
| KStackTwoReads.PushedTwice | src/datastructures/kstack.h:159-183 | A run in which a push returns with its item in two slots |
| KStackOrder.BoundedOvertaking | src/datastructures/kstack.h:204-255 | Fewer than k of the items below an item when it was pushed are popped before it |
| KStackOrder.AmongTheYoungest | src/datastructures/kstack.h:227-242 | An item in the segment on top is one of the k youngest in the stack |
| KStackOrder.TakeInv | src/datastructures/kstack.h:236-241 | Taking any item of the segment on top keeps upper segments younger than lower ones and the budget of overtaking of every item |
| KStackOrder.DropInv | src/datastructures/kstack.h:141-156 | Removing an empty segment on top loses no item and keeps the order of the segments |
| KStackOrder.KStack.IsEmpty | src/datastructures/kstack.h:103-128 | True exactly if all k slots are empty, from whatever place the two passes start |
| KStackOrder.KStack.TryRemoveSegment | src/datastructures/kstack.h:141-156 | Removes the segment if it is on top, empty and not the last one; else everything, the counter included, is as before |
| KStackOrder.KStack.Committed | src/datastructures/kstack.h:159-183 | Without interference it answers false, and retracts the item, exactly if the item is still in its slot, the segment is being removed and is not on top; if it is on top, the version of top is increased, which makes the removal fail |
| KStackOrder.KStack.Push | src/datastructures/kstack.h:205-225 | Terminates; the item is the last one pushed, above exactly the items then in the stack |
| KStackOrder.KStack.Pop | src/datastructures/kstack.h:228-255 | Terminates; false exactly if everything pushed has been popped; else an item that had not been, with fewer than k younger ones in the stack |
| MsQueueProof.StepInv | src/datastructures/ms_queue.h:109-195 | Every step keeps the invariant, and the values after head change only at the CAS of next (append) and at the CAS of head (remove first) |
| MsQueueProof.Linearizable | src/datastructures/ms_queue.h:109-195 | At every instant the effects so far are a legal history of a FIFO queue that ends in the present contents |
| MsQueueProof.VersionsCountLinks | src/datastructures/ms_queue.h:43-47 | Head never passes tail, and the version of tail minus that of head is the number of links from head to tail |
| MsQueueProof.EnqueueReturns | src/datastructures/ms_queue.h:109-133 | An enqueue that returns has appended its item exactly once, and tail has reached its node |
| MsQueueProof.DequeueReturns | src/datastructures/ms_queue.h:135-163 | A dequeue returns the value that its one event removed |
| MsQueueProof.DequeueFalse | src/datastructures/ms_queue.h:141-149 | A dequeue that returns false has no effect, and the queue was empty when it read next |
| MsQueueProof.AllOperations | src/datastructures/ms_queue.h:109-163 | Every run has one history of all operations, dequeues that return false included, that is legal for a FIFO queue and never revised, and in which each operation takes effect between its start and its return with the result it returns |
| MsQueueCalls.CallHasEffect | src/datastructures/ms_queue.h:109-163 | From start to return an enqueue has appended its argument exactly once, and a dequeue has removed exactly the value it returns, or nothing if it returns false; under way at most this has happened |
| MsQueueCalls.NothingBetweenCalls | src/datastructures/ms_queue.h:109-163 | A thread changes nothing between its calls |
| MsQueueProof.RealTimeOrder | src/datastructures/ms_queue.h:109-163 | What has taken effect before an operation starts precedes that operation in the history |
| TreiberProof.StepInv | src/datastructures/treiber_stack.h:59-106 | Every step, with nodes recycled at once, keeps the invariant and does to the abstract stack what it should |
| TreiberProof.Linearizable | src/datastructures/treiber_stack.h:59-106 | At every instant the effects so far are a legal history of a stack that ends in the present contents |
| TreiberProof.VersionsIncrease | src/datastructures/treiber_stack.h:64-87 | Every change of top strictly increases its version |
| TreiberProof.NoAba | src/datastructures/treiber_stack.h:78-87 | If top has the same value at two instants it had it all the time in between, so a successful CAS of a pop saw no change |
| TreiberProof.PushReturns | src/datastructures/treiber_stack.h:59-72 | A push that returns has pushed its item exactly once |
| TreiberProof.PopReturns | src/datastructures/treiber_stack.h:74-88 | A pop returns, from a node it reads only after the removal, exactly the value its one event removed |
| TreiberProof.PopFalse | src/datastructures/treiber_stack.h:80-82 | A pop that returns false has no effect, and met the empty stack |
| TreiberProof.AllOperations | src/datastructures/treiber_stack.h:59-88 | The same for a stack |
| TreiberCalls.CallHasEffect | src/datastructures/treiber_stack.h:59-88 | From start to return a push has added its argument exactly once, and a pop has removed exactly the value it returns, or nothing if it returns false; under way at most this has happened |
| TreiberCalls.NothingBetweenCalls | src/datastructures/treiber_stack.h:59-88 | A thread changes nothing between its calls |
| TreiberProof.RealTimeOrder | src/datastructures/treiber_stack.h:59-88 | What has taken effect before an operation starts precedes that operation in the history |
| DistributedQueueProof.EmptyTogether | src/datastructures/distributed_queue.h:57-82 | A get that returns false met an instant of the call at which all partial structures were empty at once: stacks exactly, queues with head at tail, so that no completed put remained |
| DistributedQueueCalls.CallHasEffect | src/datastructures/distributed_queue.h:51-82 | From start to return, over all partial structures together, a put has added its argument exactly once, and a get has removed exactly the value it returns, or nothing if it returns false; under way at most this has happened |
| DistributedQueueCalls.GetReturnsPut | src/datastructures/distributed_queue.h:51-82 | What a get returns is the argument of a put called before |
| DistributedQueueCalls.NoMoreThanPut | src/datastructures/distributed_queue.h:51-82 | On every partial structure no value is removed more often than it was added |
| DistributedQueueCalls.FalseMeansEmpty | src/datastructures/distributed_queue.h:71-80 | At the instant that a get which returns false has met, no node of any put that had got to its return was left in a partial queue, and all partial structures were empty |
| DistributedQueueProof.FalseRecorded | src/datastructures/ms_queue.h:165-195 | A failed removal from a partial structure hands out a word that records an empty state of it |
| DistributedQueueProof.RecordedEmpty | src/datastructures/treiber_stack.h:90-106 | As long as that word is unchanged the structure is empty |
| DistributedQueueProof.CheckOn | src/datastructures/distributed_queue.h:67-77 | A word that the second pass finds as recorded was the same at the end of the first pass |
| RandomDequeueProof.HeadPassesOnlyDeleted | src/datastructures/random_dequeue_queue.h:98-159 | Head never passes tail or a node that has not been deleted |
| RandomDequeueProof.BoundedOvertaking | src/datastructures/random_dequeue_queue.h:98-159 | As long as an item has not been removed, fewer than quasi_factor younger ones have been |
| RandomDequeueProof.ReturnedOnce | src/datastructures/random_dequeue_queue.h:98-159 | No two dequeues return the item of the same node, and each returns the item of the node it deleted |
| RandomDequeueCalls.CallHasEffect | src/datastructures/random_dequeue_queue.h:71-159 | From start to return an enqueue has linked exactly one node, with its argument, and a dequeue has deleted exactly the node whose item it returns, or none if it returns false; under way at most this has happened |
| RandomDequeueCalls.NothingBetweenCalls | src/datastructures/random_dequeue_queue.h:71-159 | A thread links and deletes nothing between its calls |
| RandomDequeueCalls.ItemReturnedOnce | src/datastructures/random_dequeue_queue.h:71-159 | If no two enqueues are called with the same item, no two dequeues return the same item |
| RandomDequeueCalls.LoggedIsReturned | src/datastructures/random_dequeue_queue.h:98-159 | The item of a node that is deleted is returned, by the dequeue that deleted it |
| RandomDequeueCalls.DeletedMeans | src/datastructures/random_dequeue_queue.h:98-159 | A node is deleted if and only if some dequeue has returned its item |
| RandomDequeueCalls.FalseMeansEmpty | src/datastructures/random_dequeue_queue.h:98-159 | A dequeue that returns false met an instant of the call at which the item of every linked node had been returned |
| RandomDequeueProof.DequeueFalse | src/datastructures/random_dequeue_queue.h:98-159 | A dequeue that returns false met an instant at which everything enqueued had been removed; it never runs past the last node |
| FlatCombiningProof.OneQueue | src/datastructures/flatcombining_queue.h:76-92 | The operations applied so far, in the order of application, are a run of a single FIFO queue that is now in the state of the sequential one |
| FlatCombiningProof.NotBeforePublication | src/datastructures/flatcombining_queue.h:95-125 | No operation is applied before it is published |
| FlatCombiningProof.EnqueueReturns | src/datastructures/flatcombining_queue.h:95-110 | An enqueue that returns has been applied exactly once, by whomever |
| FlatCombiningProof.DequeueReturns | src/datastructures/flatcombining_queue.h:112-134 | A dequeue that returns has been applied exactly once, and returns what that removed, or false if the queue was empty then |
| FlatCombiningProof.MutualExclusion | src/datastructures/flatcombining_queue.h:76-92 | At most one thread scans the operations |
| FlatCombiningProof.RealTimeOrder | src/datastructures/flatcombining_queue.h:95-134 | What has been applied before an operation starts precedes that operation in the order of application |
| FlatCombiningCalls.CallHasEffect | src/datastructures/flatcombining_queue.h:95-134 | From start to return an enqueue has appended its argument exactly once, and a dequeue has removed exactly the value it returns or found the queue empty exactly once and returns false, whoever applied it; under way at most this has happened |
| FlatCombiningCalls.NothingBetweenCalls | src/datastructures/flatcombining_queue.h:95-134 | Nothing is applied for a thread between its calls |
| StutteringClock.TimestampsRespectRealTime | src/datastructures/ts_timestamp.h:292-317 | A timestamp set by an operation that starts after another one has finished is strictly greater than what that one delivered; a time read then is at least that |
| StutteringClock.CallIsExact | src/datastructures/ts_timestamp.h:292-317 | An operation reads every clock once, in order, while it runs; a time that is read is the latest of those, and a timestamp that is set is one more and is what the thread's own clock shows at the end |
| SingleLists.SingleList.constructor | src/datastructures/single_list.h:35-40 | A new list is empty, and nothing has been enqueued |
| SingleLists.SingleList.IsEmpty | src/datastructures/single_list.h:42-49 | True exactly if the list holds nothing |
| SingleLists.SingleList.Enqueue | src/datastructures/single_list.h:51-59 | Appends the item |
| SingleLists.SingleList.Dequeue | src/datastructures/single_list.h:60-71 | Removes and returns the oldest item; false exactly if there is none, and nothing changes |
| ShortestPath.Analyze | src/benchmark/bfs/spf_sequential.cc:25-45 | Every vertex that is given a distance is given that of a shortest path, along which the parents lead back to the root; the end stays unset if and only if it cannot be reached, also after an early exit; the root, what has been enqueued, and the end if the search came to it are together the vertices with a distance, each of them once and in the order of the distances |
| ShortestPath.VisitNeighbours | src/benchmark/bfs/spf_sequential.cc:30-40 | The loop over the neighbours of a vertex keeps the search invariant, enqueues exactly what it marks, and stops, before it enqueues it, exactly when it marks the end |
| ShortestPath.ParentPath | src/benchmark/bfs/spf_sequential.cc:33-34 | Following the parents of a marked vertex leads to the root along a path as long as its distance |
| ShortestPath.UnmarkedIsFar | src/benchmark/bfs/spf_sequential.cc:28-41 | While a vertex at distance d is being processed, every path to an unmarked vertex is longer than d |
| ShortestPath.AllReached | src/benchmark/bfs/spf_sequential.cc:28-41 | When the queue runs empty the marked vertices are exactly those that can be reached |
| Schrage.ThreadContext.Pseudorand | src/util/random.cc:30-40 | For every 32-bit seed the computation with wrap-around yields 16807 times the unsigned seed modulo 2^31 - 1, and stores it |
| Schrage.Exact | src/util/random.cc:32-37 | Neither product nor their difference leaves the 32-bit range, and the corrected difference is exact |
| Schrage.Calls | src/util/random.cc:30-40 | n calls of the 32-bit computation leave 16807^n times the unsigned seed modulo 2^31 - 1 in the context |
| Schrage.StepsArePowers | src/util/random.cc:30-40 | n exact steps multiply the seed by 16807^n modulo 2^31 - 1 |
| Schrage.StepIsBijection | src/util/random.cc:30-40 | On 1 .. 2^31 - 2 the step has an inverse, given as a formula, and never reaches zero |
| Schrage.StepIsInjective | src/util/random.cc:30-40 | Distinct seeds in that range stay distinct |
| Schrage.ExactForSigned | src/util/random.cc:31-37 | For a seed read as a signed number the result is exact if and only if it is not negative |

## Left out

- KStackModel.StepCommitted: reads the remove counter once, where the code reads it twice (`kstack.h:164-166`); `KStackTwoReads` reads it twice and says exactly when the two differ.
- KFifoOrder.KFifo.AdvanceTail: has no branch for a segment that another thread has linked already, and AdvanceHead none for head at tail; neither occurs when operations run one at a time. `KFifoModel` has both.
- TSContainers.TSDeque.RemoveLeft: one operation runs at a time, by any thread; the timestamped structures have no fixed linearization points when they overlap, and that they are linearizable is not shown.
- ShortestPath.Analyze: a distance is a number without bound or unset, where the source has 64 bits and a reserved value.
- RandomDequeueProof.BoundedOvertaking: the number of retries is arbitrary, as `max_retries` is never stored, and no termination is claimed.
- DistributedQueueProof.EmptyTogether: the balancer is an arbitrary choice; the balancers themselves are not modelled.
- `boundedsize_kfifo.h`: head and tail are never reduced modulo the size of the queue, but the test for a full queue compares a reduced with an unreduced value.
- `wf_queue_ppopp12.h`: its own header admits an ABA problem, and its help records are only ever reset at the start.
- `ts_stack_buffer.h`, `ts_queue_buffer.h`, `dts_queue.h` and the hardware clocks: special cases of what is here, or not decided by the code.
- Bounds on the number of steps, fairness, and weaker memory models.
- `bfs_sequential.cc` and `bfs_analyzer.cc`: they assign through a reference and so overwrite the root vertex.
- `approx_size`, `try_enqueue` and `try_dequeue` of the Michael-Scott queue; `VersionsCountLinks` is what the first one relies on.
- `pseudorandrange`, which computes in floating point.
- The lock-based queue, the bit packing of 64-bit atomics, `Bitmap256`, the allocator, thread-locals, graph files, the operation logger, the benchmark driver and the scripts under `tools/`.
