# A verified model of five programs

This project models the logic of five C and C++ programs and proves what they promise:
a set-associative cache simulator, a multi-threaded chat server, a parallel merge sort,
a 256-bit integer library, and the line-buffered framing of messages on a connection.
`dafny verify dfyconfig.toml` checks all of it.

**Cache simulator.** `Replacement` defines what a simulated cache means: each set is the
list of its resident tags, next victim last, with the dirty ones among them. `CacheSimulator`
is the program as written, with blocks in slots, a map from tags to slots, timestamps and a
scan for the smallest one, all changed in place; its methods are proved to compute the
abstract step, through `SetRepresentation`, which ties slots, map and clock to the list.
`AddressSplit` and `Bits` do the same for the bit loops over addresses. About the abstract
run, for every trace: when LRU hits (`StackDistance`), that larger LRU caches contain smaller
ones and never hit less (`Inclusion`, which also shows that this is exactly what FIFO lacks), that few tags
cause few misses (`FewTags`), what is resident and what is dirty in terms of the trace alone
(`Residency`), exact accounting of cycles, hits and write-backs (`Accounting`), and that sets
do not influence one another (`Independence`).

**Chat server.** `ChatObjects` holds the objects with their operations, each run without
interruption. `ChatModel` is the server as a transition system over any number of client
threads, rooms and users; a step is one lock, unlock, deque operation, semaphore operation,
network operation, or the work of one short critical section. `ChatEffects` says what a step
does to one room, user and thread; `ChatLocks` and `ChatInvariant` are the inductive
invariant; `ChatUndisturbed` shows that the steps of one thread left alone add up to the calls
of `ChatObjects`; `ChatTheorems` and `ChatProgress` are what clients may rely on: total-order
delivery, safe pops, one room per name, broadcasts that reach the right room, and freedom from
deadlock. `ChatRequests` follows one request through every interleaving, from its arrival to
its answer; `ChatService` is the other side, what the server can do: answer every request, empty
a queue, and bring what one client says to another. `MessageQueue` treats the queue alone, for
any number of producers and consumers.

**Parallel merge sort.** `MergeSort` is the sequential side on arrays, `Sorting` and `Ranges`
what it needs. `ProcessTree` is the tree of forked processes over one shared array as a
transition system in which any process may take the next step, may crash, and may see `fork`
or `waitpid` fail; `ProcessRuns` has the theorems about every interleaving, `ProcessFailures`
what each exit code means and `ProcessBounds` the bounds on the tree.

**256-bit integers.** `UInt256` (addition with its carry test, negation, subtraction),
`LeftShift`, `Multiply` and `Hex` relate four 64-bit limbs to integers modulo 2^256. The
carry test misses one case, so addition, subtraction and multiplication are not exact for
all operands; the project proves exactly for which they are.

**Framing.** `Rio` is buffered reading and complete writing over a descriptor whose calls
move fewer bytes than asked for, are interrupted or fail, as an arbitrary plan says;
`Framing` has `Connection`, the round trips, and the calls that carry a list of messages from
one end of a connection to the other.

Where code and documentation differ, the model follows the code. The comment on
`Message::MAX_LEN` (csf_assign05/message.h) allows encodings of 255 characters including the
newline; `receive` reads at most 254 of them, and `Framing.RoundTrip` has that bound. The
comment above `uint256_mul` speaks of any two operands; `Multiply.ProductExact` says for which
it holds. `update_timestamp_FIFO` is never called, so under FIFO a hit changes nothing.

## Model

| member | source | states |
|---|---|---|
| AddressSplit.IsPowerOfTwo | csf_assign03/cachefuncs.cpp:86-98 | true exactly for powers of two; 0 is not one |
| AddressSplit.Log2 | csf_assign03/cachefuncs.cpp:117-125 | the largest exponent whose power of two is at most the number |
| AddressSplit.ReadIndex | csf_assign03/cachefuncs.cpp:127-144 | for power-of-two geometry the bit loop yields the block number modulo the number of sets |
| AddressSplit.ReadTag | csf_assign03/cachefuncs.cpp:146-162 | for power-of-two geometry the bit loop yields the block number divided by the number of sets |
| AddressSplit.SplitRebuilds | csf_assign03/cachefuncs.cpp:127-162 | tag, index and offset rebuild the address |
| AddressSplit.SameSetAndTag | csf_assign03/cachefuncs.cpp:127-162 | two addresses share index and tag exactly when they lie in the same block |
| CacheSimulator.CacheInitialize | csf_assign03/cachefuncs.cpp:100-115 | separate, empty sets with the given number of invalid blocks |
| CacheSimulator.CacheSet.UpdateTimestampLRU | csf_assign03/cachefuncs.cpp:164-171 | stamping the block is moving its tag to the front of the list; nothing becomes dirty or clean |
| CacheSimulator.CacheSet.FindEmptySpot | csf_assign03/cachefuncs.cpp:182-185 | all slots before the result are in use; the result is unused, or one past the end of a full set |
| CacheSimulator.CacheSet.ChooseEvictedBlock | csf_assign03/cachefuncs.cpp:187-221 | the first slot with the least time, found exactly when some time is below the set's clock |
| CacheSimulator.CacheSet.VictimExists | csf_assign03/cachefuncs.cpp:187-221 | in every reachable full set some time is below the clock, so the scan finds a victim |
| CacheSimulator.CacheSet.VictimIsLast | csf_assign03/cachefuncs.cpp:187-237 | the victim holds the last tag of the list, and is dirty exactly when that tag is |
| CacheSimulator.CacheSet.MakeRoom | csf_assign03/cachefuncs.cpp:225-237 | an unused slot, or the victim's with its tag removed from the map and a write-back counted if it was dirty |
| CacheSimulator.CacheSet.PlaceInCache | csf_assign03/cachefuncs.cpp:223-261 | the tag enters at the front, clean, and the last tag leaves a full set; map, slots and clock still represent the list |
| CacheSimulator.CacheSet.Hit | csf_assign03/cachefuncs.cpp:263-271 | a lookup succeeds exactly for resident tags |
| CacheSimulator.CacheSet.MarkDirty | csf_assign03/cachefuncs.cpp:293-294 | the tag joins the dirty tags and nothing else changes |
| CacheSimulator.CacheSet.StoreHit | csf_assign03/cachefuncs.cpp:275-296 | a store hit moves the tag to the front under LRU only, and dirties it under write-back only |
| CacheSimulator.CacheSet.CacheStore | csf_assign03/cachefuncs.cpp:273-310 | a store is the abstract step, with its exact cost |
| CacheSimulator.CacheSet.CacheLoad | csf_assign03/cachefuncs.cpp:312-330 | a load is the abstract step, with its exact cost |
| CacheSimulator.CacheHandler | csf_assign03/cachefuncs.cpp:332-347 | the access goes to the set of its address; an operation that is neither load nor store changes nothing |
| CacheSimulator.DecodedAccess | csf_assign03/cachefuncs.cpp:332-347 | command k of the input is a store exactly if its letter is 's', and its set, tag and an offset rebuild its address |
| CacheSimulator.KnownFromIsFirst | csf_assign03/cachemain.cpp:53-64 | the loop's stopping point is the first command whose letter is neither 'l' nor 's' |
| CacheSimulator.LettersAreCounted | csf_assign03/cachefuncs.cpp:332-347 | the counters of loads and stores grow by the number of 'l' and of 's' in the input |
| CacheSimulator.Replay | csf_assign03/cachemain.cpp:53-64 | any trace leaves cache and statistics in the abstract run's state up to the first bad command; -1 exactly if there is one |
| CacheSimulator.Simulate | csf_assign03/cachemain.cpp:45-68 | the same from the empty cache and zero statistics; total loads and stores are the number of 'l' and of 's' before the stopping point |
| SetRepresentation.LeastTimeIsLast | csf_assign03/cachestruct.h:8-22 | the slot with the least time holds the last tag of the list, and its time is below the clock |
| SetRepresentation.MapSize | csf_assign03/cachestruct.h:17-22 | the map has as many tags as slots are in use, all different |
| SetRepresentation.TouchRepresents | csf_assign03/cachefuncs.cpp:164-171 | restamping a block keeps slots, map and clock in agreement with the list, its tag now in front |
| SetRepresentation.PlaceRepresents | csf_assign03/cachefuncs.cpp:239-260 | replacing or filling a slot keeps slots, map and clock in agreement with the list |
| Replacement.RunWellFormed | csf_assign03/cachefuncs.cpp:273-347 | in every run a set holds distinct tags, no more than its blocks, and only resident tags are dirty |
| StackDistance.StackDistanceTheorem | csf_assign03/cachefuncs.cpp:187-330 | under write-allocate LRU an access hits if and only if its block was used before and fewer distinct other tags of its set than blocks were used since |
| StackDistance.LruIsRecencyPrefix | csf_assign03/cachefuncs.cpp:187-330 | an LRU set holds the front of the list of all tags ever used, most recent first |
| Inclusion.LruInclusion | csf_assign03/cachefuncs.cpp:223-330 | at every point of every trace the larger LRU set holds the smaller one's tags in the same relative order, with or without write-allocate |
| Inclusion.LruHitsNeverFall | csf_assign03/cachefuncs.cpp:223-330 | load hits and store hits never fall when an LRU cache gets more blocks per set |
| Inclusion.FifoCanLoseHits | csf_assign03/cachefuncs.cpp:206-218 | the same is false of FIFO: a trace with fewer hits on four blocks than on three |
| Inclusion.HitsGrowExactlyUnderLru | csf_assign03/cachefuncs.cpp:187-330 | more blocks per set never cost hits, for all sizes, set counts and traces, if and only if the policy is LRU |
| FewTags.FewTagsFewMisses | csf_assign03/cachefuncs.cpp:187-330 | under write-allocate, LRU or FIFO, from any contents: a stretch with no more tags than blocks misses each tag at most once |
| Residency.LruHoldsLatestUses | csf_assign03/cachefuncs.cpp:164-330 | an LRU set holds the tags of its latest uses, the latest first, as many as it has blocks; a store that misses under no-write-allocate is no use |
| Residency.FifoHoldsLatestPlacements | csf_assign03/cachefuncs.cpp:206-261 | a FIFO set holds the tags of its latest placements, as many as it has blocks, whatever was hit |
| Residency.ResidentWasLoaded | csf_assign03/cachefuncs.cpp:299-308 | under no-write-allocate every resident block was brought in by a load |
| Residency.DirtyExactly | csf_assign03/cachefuncs.cpp:239-295 | a block is dirty if and only if the policy is write-back and a store has hit it since it was last placed |
| Accounting.CyclesAreExact | csf_assign03/cachefuncs.cpp:223-347 | total cycles equal the policy's linear form in hits, misses and dirty evictions, and hits and misses add up to the accesses |
| Accounting.HitsAreCounted | csf_assign03/cachefuncs.cpp:273-347 | each counter of hits and misses is the number of loads or stores of the trace that did so |
| Accounting.DirtyBalance | csf_assign03/cachefuncs.cpp:231-242 | for every trace and all starting contents: dirty evictions plus blocks dirty at the end equal blocks dirty at the start plus the store hits, under write-back, on blocks still clean |
| Accounting.DirtyNeedsStoreHits | csf_assign03/cachefuncs.cpp:231-242 | dirty evictions and blocks still dirty never exceed store hits and blocks dirty at the start |
| Accounting.WriteThroughStaysClean | csf_assign03/cachefuncs.cpp:284-295 | under write-through no block is ever dirty and nothing is ever written back |
| Independence.DifferentSetsCommute | csf_assign03/cachefuncs.cpp:273-347 | accesses to different sets can be exchanged |
| Independence.SetsAreIndependent | csf_assign03/cachemain.cpp:53-64 | a set ends in the state that its own accesses alone give it |
| Independence.StatisticsAreSums | csf_assign03/cachemain.cpp:53-64 | the statistics are the sums of those of the sets simulated alone |
| ChatObjects.Queue.Enqueue | csf_assign05/message_queue.cpp:30-42 | the message joins at the end and the semaphore still counts the messages |
| ChatObjects.Queue.Dequeue | csf_assign05/message_queue.cpp:44-76 | the first message, or none exactly when the wait gives up or the queue is empty |
| ChatObjects.Room.AddMember | csf_assign05/room.cpp:20-29 | the user is a member and in the room by name; other members stay |
| ChatObjects.Room.RemoveMember | csf_assign05/room.cpp:31-40 | the user is no member and has no room; other members stay |
| ChatObjects.Room.BroadcastMessage | csf_assign05/room.cpp:42-58 | every member's queue gets the message once at its end, no other queue changes |
| ChatObjects.Server.FindOrCreateRoom | csf_assign05/server.cpp:291-311 | the registered room of the name, or a new one; a room is registered under its own name only |
| ChatUndisturbed.EnqueueAlone | csf_assign05/message_queue.cpp:30-42 | four steps of one thread in the transition system are a call of Queue.Enqueue |
| ChatUndisturbed.DequeueAlone | csf_assign05/message_queue.cpp:58-75 | four steps from a wait that succeeds are a call of Queue.Dequeue; ChatService.WaitCanSucceed and QueueCanBeEmptied say that they can be taken |
| ChatUndisturbed.AddMemberAlone | csf_assign05/room.cpp:20-29 | three steps are a call of Room.AddMember |
| ChatUndisturbed.RemoveMemberAlone | csf_assign05/room.cpp:31-40 | three steps are a call of Room.RemoveMember |
| ChatUndisturbed.BroadcastAlone | csf_assign05/room.cpp:42-58 | five steps a member and three more are a call of Room.BroadcastMessage: each member's queue gets the message once, no other queue changes |
| ChatUndisturbed.FindOrCreateAlone | csf_assign05/server.cpp:291-311 | two steps are a call of Server.FindOrCreateRoom |
| MessageQueue.SemaphoreAccounting | csf_assign05/message_queue.cpp:30-76 | in every state of every run the deque's length is the semaphore's value plus enqueuers before their post plus dequeuers before their pop |
| MessageQueue.PopNeverEmpty | csf_assign05/message_queue.cpp:68-74 | a dequeuer about to pop never meets an empty deque |
| MessageQueue.NoLossNoReordering | csf_assign05/message_queue.cpp:30-76 | what was pushed is what was popped, in that order, followed by what is queued |
| MessageQueue.MutualExclusion | csf_assign05/guard.h:8-15 | at most one thread is inside the queue's mutex |
| MessageQueue.CanDequeue | csf_assign05/message_queue.cpp:58-75 | in any reachable state with a message on offer and the mutex free a consumer can take the oldest message |
| MessageQueue.CanEnqueue | csf_assign05/message_queue.cpp:30-42 | with the mutex free a producer can queue its message and put it on offer |
| ChatLocks.LocksKept | csf_assign05/guard.h:8-15 | a lock is held by exactly the thread whose code is inside it, and room pointers lead to registered rooms, after every step |
| ChatInvariant.DueMoves | csf_assign05/room.cpp:51-56 | a broadcast message is due to each member from its entry into the log until it is pushed to that member's queue |
| ChatInvariant.InvKept | csf_assign05/server.cpp:27-163 | every step of every thread keeps the invariant that ties queues, broadcasts in progress and room logs together |
| ChatInvariant.ReachableOk | csf_assign05/server.cpp:27-163 | the invariant holds in every state of every run |
| ChatTheorems.TotalOrder | csf_assign05/room.cpp:42-58 | what a member was sent, holds and has queued is its room's log from its join on, each message once and in order; only the newest may be missing while its broadcast is going on |
| ChatTheorems.SentIsAStay | csf_assign05/server.cpp:137-162 | after leaving, it is the part of the log between join and leaving; before joining it is nothing |
| ChatTheorems.ReceiversAgree | csf_assign05/room.cpp:42-58 | two receivers of a room, each still in or already out and looked at in any two states, have the same message for the same place of the log, so never opposite orders |
| ChatTheorems.HistoryGrows | csf_assign05/server.cpp:108-163 | logs and what was sent are only ever extended, and a receiver has one stay only |
| ChatTheorems.PopIsSafe | csf_assign05/message_queue.cpp:58-74 | semaphore accounting for every user's queue within the server; a pop never meets an empty deque |
| ChatTheorems.MutualExclusion | csf_assign05/guard.h:8-15 | no two threads are inside the server lock, one room's lock or one queue's lock |
| ChatTheorems.OneRoomPerName | csf_assign05/server.cpp:291-311 | a name keeps its Room for the whole run |
| ChatTheorems.RegistryIsExact | csf_assign05/server.cpp:291-311 | a Room has a name if and only if the registry leads from that name to it |
| ChatTheorems.LogIsWhatWasSaid | csf_assign05/server.cpp:48-66 | a log grows only by what a sender says, in the one room registered under the name that sender joined last, as room, sender and text |
| ChatProgress.OnlyLocksStop | csf_assign05/server.cpp:27-163 | in a reachable state a thread can step if and only if it has not ended and does not wait for a held lock |
| ChatProgress.NoDeadlock | csf_assign05/guard.h:8-15 | the holder of an awaited lock can step, unless it is broadcasting and waits for a queue whose holder can step |
| ChatProgress.LockOrder | csf_assign05/room.cpp:42-58 | the server's lock is held alone, and nothing is locked while a queue is |
| ChatProgress.WorkMeansLocks | csf_assign05/guard.h:8-15 | a thread has work left until release exactly while it holds a lock |
| ChatProgress.WorkFalls | csf_assign05/room.cpp:51-56 | each step of a lock holder lowers its work until release, the loop over the members included |
| ChatProgress.HolderLetsGo | csf_assign05/guard.h:8-15 | under any scheduling a holder releases within as many steps of its own as its work says |
| ChatRequests.RequestAnswered | csf_assign05/server.cpp:27-106 | a request and its answer under any interleaving: saying a text in a room adds exactly one entry, room name, user name and that text, to the log of the room registered under the sender's room name; no other request adds any; joining leaves the asked room name, leaving and quitting none; the answer is an error only for saying or leaving without a room and for unknown requests |
| ChatRequests.QuietOutside | csf_assign05/server.cpp:46-88 | a sender without a room stays without one, and adds nothing to any log, until it asks to join |
| ChatRequests.QuitIsFinal | csf_assign05/server.cpp:82-103 | a sender that quits is answered at most once more and never served again |
| ChatRequests.ReceiverIsWhereItAsked | csf_assign05/server.cpp:108-162 | while a receiver listens or delivers it is a member, by its own record and the room's, of the one Room registered under the name it asked for, whatever the others do |
| ChatService.WaitCanSucceed | csf_assign05/message_queue.cpp:60-64 | a wait with a message on offer can succeed, and takes one from the semaphore |
| ChatService.QueueCanBeEmptied | csf_assign05/server.cpp:137-159 | a listening receiver with all its messages announced can, by its own steps alone, be sent the whole queue in order, after which it is empty |
| ChatService.CanDrain | csf_assign05/server.cpp:137-159 | the same for the announced part of a queue with a broadcast still in progress |
| ChatService.EveryRequestCanBeAnswered | csf_assign05/server.cpp:27-106 | a sender can ask for anything, and with no other lock held its thread can bring the request to its answer |
| ChatService.CanAskAgain | csf_assign05/server.cpp:33-105 | after any other request, granted or refused, the sender can come to wait for its next one |
| ChatService.CanSay | csf_assign05/room.cpp:42-58 | what a sender says can reach the queue of every member of its room, once, and no other queue |
| ChatService.SaidCanBeHeard | csf_assign05/server.cpp:48-159 | from there it can be sent to a listening member, after everything queued before it |
| ChatService.FailedSendCanLeave | csf_assign05/server.cpp:153-162 | a failed send can end the receiver's stay: it is a member of no room then, and only the message in hand is lost |
| ChatService.ConversationIsPossible | csf_assign05/server.cpp:27-163 | from every reachable state with no lock held, two new clients can join any named room, one say any text, and the other be sent exactly room, sender and text |
| MergeSort.Merge | csf_assign04/parsort.c:25-48 | the temporary array gets the merge of the two ranges, left elements first among equals |
| MergeSort.Sort | csf_assign04/parsort.c:50-106 | the range becomes its sorted permutation and nothing else changes, if children run at their forks |
| Sorting.SortedIsTheOne | csf_assign04/parsort.c:54 | being the sorted sequence is being a sorted permutation |
| Sorting.MergeSorts | csf_assign04/parsort.c:23-48 | merging two sorted halves gives the sorted whole |
| ProcessTree.StepWrites | csf_assign04/parsort.c:57-102 | every step writes only inside the range of the call whose process takes it |
| ProcessTree.InvStep | csf_assign04/parsort.c:50-106 | every step of every process keeps what all calls of the tree have achieved, failures and orphans included |
| ProcessTree.InvFrame | csf_assign04/parsort.c:57-69 | what a call has achieved depends on its own range only |
| ProcessRuns.SuccessSorts | csf_assign04/parsort.c:50-106 | if the root returns, in whatever interleaving, the array is the sorted permutation that sequential sorting gives, after exactly the determined number of forks |
| ProcessRuns.FailureIsReported | csf_assign04/parsort.c:61-92 | once an awaited process failed the root never returns; it ends by a crash or with code 8 to 11 |
| ProcessFailures.ExitCodeHasCause | csf_assign04/parsort.c:61-92 | in every reachable state a dead root's code tells its cause: 8 a fork that was due, 9 an unwaited child, 10 a crashed child, 11 a child dead with a code |
| ProcessFailures.DeathBlow | csf_assign04/parsort.c:61-92 | a process dies only in its active frame, with the code of what happened there in that step |
| ProcessFailures.EveryFailureIsPossible | csf_assign04/parsort.c:57-76 | a living process can crash at any time, and every fork and waitpid that is due can fail |
| ProcessRuns.NoOtherDoom | csf_assign04/parsort.c:57-93 | only a failing fork, a failing waitpid or a crash can make the sort fail |
| ProcessRuns.StepFalls | csf_assign04/parsort.c:50-106 | every step leaves less to do, so no interleaving goes on for ever |
| ProcessRuns.Progress | csf_assign04/parsort.c:71-93 | a call that has neither finished nor died can go on without a further failure |
| ProcessRuns.CleanRunFinishes | csf_assign04/parsort.c:50-106 | a run without failures can stop only with the root's call done |
| ProcessRuns.EveryRunEnds | csf_assign04/parsort.c:61-106 | whatever failed, a run that cannot go on has ended with the root done, or dead by a crash or code 8 to 11; and dead exactly if an awaited process failed |
| ProcessRuns.ForkStep | csf_assign04/parsort.c:59 | each fork is one of those foreseen, and without failures none is left out |
| ProcessRuns.TreeBounds | csf_assign04/parsort.c:50-69 | in every run the number of forks and the depth of the tree stay within the bounds below |
| ProcessRuns.RangesShrink | csf_assign04/parsort.c:52-69 | in every state of every run a call d levels down spans at most n / 2^d elements, rounded up |
| ProcessBounds.ForkBound | csf_assign04/parsort.c:50-69 | for n > t at most n / floor((t+1)/2) - 1 forks |
| ProcessBounds.LargestRange | csf_assign04/parsort.c:52-69 | with the threshold in force, the largest range at depth d has n / 2^d elements, rounded up, as long as calls nest that deep |
| ProcessBounds.DepthBound | csf_assign04/parsort.c:50-69 | the depth is the least d at which the largest range is no longer than the threshold |
| UInt256.Add | csf_assign01/uint256.c:104-135 | the loop computes the limbs of `Sum`, whose value the next rows state |
| UInt256.CarryTest | csf_assign01/uint256.c:122-128 | the carry test is right except for two limbs of all ones with a carry in |
| UInt256.SumValue | csf_assign01/uint256.c:104-135 | the sum modulo 2^256, short by 2^128 or 2^192 if a carry into limb 2 or 3 is dropped |
| UInt256.SumExact | csf_assign01/uint256.c:104-135 | exact modulo 2^256 if and only if neither limb 1 nor limb 2 is all ones in both operands with a carry into it |
| UInt256.SumCanBeWrong | csf_assign01/uint256.c:124 | an input for which the sum is wrong |
| UInt256.Negate | csf_assign01/uint256.c:138-153 | the loop and the addition compute `Negated` |
| UInt256.NegatedValue | csf_assign01/uint256.c:138-153 | negation is exact for every value |
| UInt256.Sub | csf_assign01/uint256.c:156-159 | subtraction computes `Difference` |
| UInt256.DifferenceExact | csf_assign01/uint256.c:156-159 | exact modulo 2^256 if and only if adding the negated operand drops no carry |
| UInt256.DifferenceCanBeWrong | csf_assign01/uint256.c:156-159 | an input for which the difference is wrong |
| LeftShift.ShiftLeft | csf_assign01/uint256.c:188-231 | the in-place bit loops move every bit up once per round |
| LeftShift.ShiftedValue | csf_assign01/uint256.c:188-231 | n rounds multiply by 2^n modulo 2^256 |
| LeftShift.ShiftExact | csf_assign01/uint256.c:202 | exact if and only if the shift is below 2^31, where the loop's int turns negative, or the value is zero |
| LeftShift.ShiftCanBeWrong | csf_assign01/uint256.c:202 | an input for which the shift is wrong |
| Multiply.Mul | csf_assign01/uint256.c:162-185 | the loops over limbs and bits compute `Product` |
| Multiply.AccumulatedValue | csf_assign01/uint256.c:175-183 | after n bits the product is short of the exact one by what was dropped so far |
| Multiply.ProductExact | csf_assign01/uint256.c:162-185 | exact modulo 2^256 if and only if no bit of the left operand makes an exact partial product and shifted right operand drop a carry |
| Multiply.NoOnesRun | csf_assign01/uint256.c:162-185 | exact for every left operand when the right one has no 64 ones in a row |
| Multiply.SmallRight | csf_assign01/uint256.c:162-185 | in particular for every right operand below 2^63 |
| Multiply.ProductCanBeWrong | csf_assign01/uint256.c:162-185 | an input for which the product is wrong |
| Hex.CreateFromHex | csf_assign01/uint256.c:37-67 | reads the number that up to 64 hex digits denote |
| Hex.FormatAsHex | csf_assign01/uint256.c:71-90 | prints the shortest lower-case numeral of the value |
| Hex.DigitsAreTheirPlaces | csf_assign01/uint256.c:59-75 | each digit of "0123456789abcdef", and its upper-case form, reads as its place, and the place prints as the digit |
| Hex.DigitIsWorth | csf_assign01/uint256.c:59 | the hex digits are exactly the characters of the two alphabets, each worth its place |
| Hex.HexValueIsPlaceSum | csf_assign01/uint256.c:54-61 | a string of digits denotes the sum of each digit's place times 16 to the power of its position |
| Hex.LowerIsLower | csf_assign01/uint256.c:75 | lower case changes A to F and nothing else |
| Hex.PrintThenRead | csf_assign01/uint256.c:37-90 | what is printed fits the reader and gives the value back |
| Hex.ReadThenPrint | csf_assign01/uint256.c:37-90 | 1 to 64 digits come back in lower case without leading zeros, down to one digit |
| Rio.WriteN | csf_assign05/csapp.c:781-798 | all bytes in order however the calls split them, or an error after a proper part |
| Rio.Buffered.ReadSome | csf_assign05/csapp.c:811-836 | the next bytes of the stream, at least one unless none is asked for or left; an error loses none |
| Rio.Buffered.ReadN | csf_assign05/csapp.c:855-870 | the next n bytes of the stream, or all that are left; after an error the stream is an end of what it was |
| Rio.Buffered.ReadLine | csf_assign05/csapp.c:877-899 | the stream's next line, cut at the limit, NUL-terminated, whatever the chunks it arrives in; after an error the stream is an end of what it was |
| Rio.LineLengthIs | csf_assign05/csapp.c:877-899 | a line ends exactly with its only newline, at the limit, or where the stream ends |
| Rio.Buffered.constructor | csf_assign05/csapp.c:843-849 | nothing is buffered, so the stream is what is still to come |
| Framing.Connection.Send | csf_assign05/connection.cpp:62-79 | tag, colon, data and newline are written, or a proper part and the result says so |
| Framing.Connection.Receive | csf_assign05/connection.cpp:81-109 | the next line taken apart at its colon; it is accepted exactly if one of the eleven tags of message.h, ended by a colon or the line's end, starts it; unknown tags and the end of the stream are reported and the stream moves on by the line, or to an end of what it was after an error |
| Framing.AcceptedIsKnown | csf_assign05/connection.cpp:97-105 | the tag cut from a line, with or without a colon, is known exactly if the line starts with one of the eleven tags ended by a colon or the line's end |
| Framing.ParsedMeans | csf_assign05/connection.cpp:94-98 | how a line is taken apart: the text up to a NUL, the tag up to the first colon, the data behind it; without a colon both are the whole text |
| Framing.MessageArrives | csf_assign05/connection.cpp:62-109 | what becomes of any message with a known tag, whatever follows it in the stream |
| Framing.FitsMeans | csf_assign05/connection.cpp:62-109 | fitting the format is having no newline or NUL in the data and at most 254 characters in all |
| Framing.RoundTrip | csf_assign05/connection.cpp:62-109 | it comes through if and only if its data has no newline or NUL and its encoding at most 254 bytes |
| Framing.ListRoundTrip | csf_assign05/connection.cpp:62-109 | the stream of a list's encodings parses back to the list, each message once and in order, if and only if every message fits |
| Framing.SendAll | csf_assign05/connection.cpp:62-79 | successive sends write the encodings one behind the other, however the writes are split |
| Framing.ReceiveAll | csf_assign05/connection.cpp:81-109 | successive receives return the stream's lines, taken apart, up to its end, however the reads are split |
| Framing.Transfer | csf_assign05/connection.cpp:62-109 | what is sent over one connection and received at its other end arrives each once and in order if and only if every message fits, under any split and interrupted writes and reads |

## Left out

- 32-bit wrap-around of timestamps and counters in the cache simulator; its numbers are unbounded.
- `num_blocks` of 0, with which the source indexes nothing; the model requires at least one block.
- The cache's functions take a set's index and look the set up; here they are methods of the set.
- Command-line parsing, `handle_error`, `printStats` and `update_timestamp_FIFO`, which nothing calls.
- The third word of a trace line, which the simulator reads and ignores, and failed input conversions.
- Sockets, accept loops, the client programs, login and the creation of threads; a client connects already logged in and then sends arbitrary requests.
- The bytes of requests and replies in the chat model; `Framing` treats them separately.
- The order in which a broadcast visits the members; the model allows every order, the source uses that of its set.
- Wall-clock time in `dequeue`; a timed wait may give up at any moment.
- ChatObjects.Room.BroadcastMessage: says what one call does when nothing else runs; its interleavings are in ChatModel.
- Whether a waiting thread eventually gets its lock, which depends on the scheduler's fairness.
- The algorithm of `qsort` and its element moves; it may write anything into its range and then leaves it sorted.
- MergeSort.Sort: is one schedule, each child running to its end at its fork; every schedule is in ProcessRuns.
- ProcessRuns.StepFalls: counts the writes inside `qsort` as finitely many, however many they are.
- A threshold of 0 in the merge sort, with which one element is split for ever, and overflow of `end + begin`.
- `mmap`, `fstat`, argument parsing and the exit codes 1 to 7 of the sort's `main`.
- Hex.CreateFromHex: does not model other characters than hex digits or more than 64 of them, for which the source promises nothing.
- Unterminated chunks handed to `strtoul`; each chunk is read as exactly its sixteen characters.
- A `write` that returns 0 for a non-empty request, and buffers of 2^31 bytes and more.
- `uint256_create`, `uint256_create_from_u64` and `uint256_get_bits`, which only copy limbs.
- Heap allocation and release throughout.
- The hexdump program, which only prints digits in fixed widths.
