# A verified model of the East coroutine runtime

This project models the core of East, a C++ coroutine server framework, and proves what its
callers rely on. It has four large parts and two small ones.

**The wait/wake protocol.** Worker threads scan a shared task queue, resume fibers, and fall into
an idle fiber that dispatches expired timers and epoll readiness. A fiber that would block arms an
event, may start a timeout timer, and yields; readiness, timeout or close wakes it. `Protocol` is
a transition system for any number of workers: one step is one locked section, one atomic counter
update, or one move of a fiber's own program, and steps interleave freely. Two points keep the code safe
when the event fires before the fiber has left its stack: the scan skips a fiber marked `EXEC`,
and `HOLD` is assigned only by the runner after the yield. `Effects` says what each family of steps
changes; `TaskSafety`, `FiberSafety`, `LoopSafety`, `TimeoutSafety` and `WaitSafety` prove the invariants
step by step; `Runs`, `WaitRuns` and `Progress` have the theorems about whole runs; `Stranded`, `LateWork`,
`EarlyTimeout` and `LostTimeout` have concrete runs, put together by `Playing`. `TaskQueues` is the task list as the source updates it, loops included, proved to do what the protocol's
steps say. `EventTable` and `IOManagers` are the event contexts, the pending counter and the
kernel's interest list as they are updated in place, proved to stay in agreement and to refine
the protocol's arming and triggering steps.

Fiber code may start fibers and callbacks, arm and cancel events, sleep, make hooked calls, and
yield `READY`. One discipline is assumed of it, as the hooked calls keep it: a wait that blocks arms one
waker, a fiber that yields `READY` has armed none, and no code schedules a fiber that already exists.
`Runs.FiberExclusivity` and `Runs.OneWakePerWait` are about code that keeps to it.

**The byte buffer.** `ByteBuffer` has the linked list of blocks with its block pointer, offset,
size and capacity on the heap, and proves that it behaves as one flat byte sequence with a
cursor (`Flat` and `Tiling` have the sequences behind it). `Varint`, `Words` and `Codec` have ZigZag,
variable-length and fixed-width integers in either byte order, and length-prefixed strings;
`Streams` drives the buffer over a transport that moves as little as it likes at a time.

**The timer manager.** `Timers` has timers as objects whose keys change while they are in an
ordered index; `TimerSpec` has the values they stand for and the theorems about runs of
operations. `TimerRefinement` proves that adding, cancelling and expiring are the protocol's steps.
`Clock` has the 64-bit deadlines, shared with the protocol.

**The smaller parts.** `LogPattern` has the log pattern scanner, and `Ipv4` the IPv4 prefix
arithmetic. `Bits` and `Arithmetic` have the words and the arithmetic everything else uses.

Words are natural numbers with an explicit width; wrap-around is written out wherever the source
computes with unsigned types. The clock, the host's byte order, the address of a new
object, the fiber that is running, what the kernel reports, and whether the kernel refuses a call are
parameters, and every theorem holds for all their values.

## What was found

- A task can be left in the queue for ever. `Runs.StrandedExactly` says when: exactly if every worker
  its pin allows had already scanned for the last time when it was in the queue. There are three
  ways. Nothing keeps a thread from scheduling after the workers have left, with a pin or without
  (`LateWork.LateCanStrand`). `schedule` accepts a thread that is no worker. And a worker may leave
  while others still make work for it, for instance because the runner decrements the active
  counter before it puts a `READY` fiber back, so that another worker can see an empty queue and
  nobody active (`Stranded.PinnedCanStrand`, which shows the second way too). A caller is safe as long
  as stopping is not set: what is then queued for a worker, or for none in particular, is
  begun before the last worker leaves (`Runs.NoStrandedWork`).
- `setOffset` to exactly the capacity follows the null block pointer, so a stream transfer that
  ends exactly at the capacity does too. The contracts of `Streams.ReadFixSizeBuffer` and
  `Streams.WriteFixSizeBuffer` say when, in terms of the buffer before the call and the number of bytes
  moved: a receive only when all the bytes arrive and their end is a block boundary at or beyond the
  capacity there was before, a send only when the buffer is full and everything ahead of the cursor
  goes out.
- Dispatching a report fails the assertion in `triggerEvent` exactly when both events are reported
  (an error or a hang-up is widened to both) and exactly one of them is armed:
  `IOManagers.IOManager.Dispatch`. So every error or hang-up does so on a descriptor with a single
  waiter (`IOManagers.HangUpExact`), and a new manager with one event armed has one
  (`IOManagers.IOManager.OneWaiter`).
- `writeStringVarint` writes its length unsigned and `readStringVarint` reads it through
  ZigZag: the string survives exactly when it is empty (`Codec.VarintStringExact`). A string with a
  fixed-width prefix survives exactly when its length fits (`Codec.TextExact`).
- A deadline is `now + period` modulo 2^64, too early exactly when the sum overflows
  (`Clock.DeadlineExact`). In the run `EarlyTimeout.TimesOutEarly` a hooked call therefore reports
  `ETIMEDOUT` at the very clock value at which it began to wait; `Runs.TimeoutSoundness` says that nothing
  else makes it early.
- A hooked call's timeout can be lost. If its event is ready just as its timer expires, and the call
  would block again, the first timer's callback can mark the call before the event is added again: it
  finds no event to cancel, and the callback of the next timer finds the mark and does nothing
  (`LostTimeout.TimeoutCanBeLost`). `WaitRuns.LostExactly` says when: a wait's timeout is lost if and only
  if it was at the beginning of the wait, because the call was marked already and nobody was about
  to cancel its event. Otherwise the timeout is on its way until it wakes the fiber
  (`WaitRuns.TimeoutOnItsWay`).
- `addTimer` accepts an empty function. The timer is then in the index without a callback and cannot be
  cancelled; the index invariant is kept if and only if the caller passed a callback
  (`Timers.TimerManager.AddTimer`).
- The comment above the pattern scanner lists `%%` as a form of its own, but the second percent sign is scanned
  again: `%%` alone gives a literal and an empty field (`LogPattern.DoubledPercent`). A pattern is scanned as
  documented if and only if no percent sign outside a field has another one behind it
  (`LogPattern.DoubledExact`). Nothing is lost by it: `LogPattern.Lossless` covers every pattern.
- The prefix mask is computed with a shift and a subtraction on a signed 32-bit int, so the results
  are defined exactly for 2 to 32 bits (`Ipv4.MaskExact`, `Ipv4.PrefixRange`).

## Model

| member | source | states |
|---|---|---|
| Protocol.FirstEligible | East/src/Scheduler.cc:262-286 | the scan's choice is eligible and everything before it is not; none is chosen only if nothing in the queue is eligible |
| TaskQueues.TaskQueue.Scan | East/src/Scheduler.cc:259-286 | the loop takes exactly the protocol's first eligible task and leaves the rest in order; it asks for a tickle exactly when it passed over another thread's task or left tasks behind the one it took |
| TaskQueues.EmptyHanded | East/src/Scheduler.cc:264-277 | a scan finds nothing if and only if every entry is pinned elsewhere or is a fiber being executed |
| TaskQueues.TaskQueue.ScheduleNoLock | East/include/Scheduler.h:181-191 | a null job is not queued, any other is appended with its pin, an identifier is used up either way, and a wake-up is due exactly when the list was empty |
| TaskQueues.TaskQueue.ScheduleAll | East/include/Scheduler.h:119-132 | the whole range is appended in order under consecutive identifiers, every handle of the caller's is swapped out, and a wake-up is due exactly when the list was empty and the range is not |
| TaskQueues.StampedFrom | East/include/Scheduler.h:206-248 | every queued task comes from the range, in its order, under the identifier its place gives it |
| TaskQueues.StampedAll | East/include/Scheduler.h:181-191 | no job of the range that is not null is lost |
| TaskQueues.OutsideIsStamped | East/include/Scheduler.h:100-111 | a protocol submission from another thread appends what `scheduleNoLock` does, with the job and the pin it is given |
| TaskQueues.SpawnIsStamped | East/include/Scheduler.h:100-111 | so does one from a fiber's code |
| TaskQueues.ReadyIsStamped | East/src/Scheduler.cc:306-311 | so does the runner's, for the fiber that yielded `READY` and without a pin |
| TaskQueues.WakeIsStamped | East/src/Hook.cc:190-195 | so does the callback of a sleep, for the sleeper and without a pin |
| TaskSafety.TaskStep | East/src/Scheduler.cc:262-342 | every step keeps this: each submitted task is queued once, in one worker's hands, or begun by one worker, never two of these, and only by the worker it is pinned to |
| FiberSafety.FiberStep | East/src/Scheduler.cc:274-337 | every step keeps this: a fiber is on at most one stack and `EXEC` only on one, each parked fiber has exactly one wake and every other fiber none, and each dequeued fiber may be resumed |
| FiberSafety.TookIsFree | East/src/Fiber.cc:131-134 | a dequeued fiber is on no stack and nobody's callback fiber, and the task in hand is its only wake |
| FiberSafety.RunnerIsFree | East/src/Fiber.cc:114-116 | the callback fiber about to be reset is on no stack and in the state the assertion in `reset` demands |
| FiberSafety.TokenChange | East/src/IOManager.cc:62-79 | moving a wake from one place to another, together with the fiber's need for it, leaves every fiber with exactly the wakes it needs |
| FiberSafety.ArmKeepsTokens | East/src/Hook.cc:138-151 | arming the event before the yield gives the still running fiber its one wake |
| FiberSafety.WakeKeepsTokens | East/src/Hook.cc:178-220 | the callback of a sleep turns the sleeper's one wake into one queue entry |
| FiberSafety.FlushKeepsTokens | East/src/IOManager.cc:534-541 | an expired timer taken out of the manager stays its sleeper's one wake until its callback is queued |
| FiberSafety.SettleHoldKeeps | East/src/Scheduler.cc:312-315 | the late `HOLD` assignment frees the stack and leaves the wake armed before the yield in place, whether or not it already fired |
| FiberSafety.SettleReadyKeeps | East/src/Scheduler.cc:306-311 | a fiber that yielded `READY` gets exactly the one wake the runner queues |
| LoopSafety.CountStep | East/src/Scheduler.cc:281-351 | every step keeps the active counter equal to the number of workers between dequeue and decrement, and the idle counter equal to the number in their idle fibers |
| LoopSafety.LeaveStep | East/src/Scheduler.cc:338-356 | every step keeps this: no worker's idle fiber has ended, and no worker has scanned for the last time, before stopping is set |
| LoopSafety.QueuedStays | East/src/Scheduler.cc:264-284 | a queued task, pinned or not, stays queued until a worker its pin allows takes it |
| LoopSafety.SomeoneHolds | East/src/Scheduler.cc:264-284 | while a task is queued and some worker its pin allows has yet to scan, every step leaves such a worker: it cannot pass the task in its last scan unless another worker has the fiber on its stack |
| LoopSafety.GoneStays | East/src/Scheduler.cc:344-347 | a worker that has scanned for the last time takes nothing more |
| TimeoutSafety.TimeStep | East/src/Hook.cc:96-168 | every step keeps this: every timeout timer, queued callback and set flag of a call is due, counted from the call's first wait, including those left by earlier retries |
| WaitSafety.WaitStep | East/src/Hook.cc:96-168 | every step keeps this: a call without a result is one fiber's, every timeout timer in the manager belongs to a wait of its call, what is taken out of the manager is in the hands of an idle worker, and an unmarked wait's timeout is on its way |
| WaitSafety.LostStays | East/src/Hook.cc:118-156 | while a wait lasts, no step makes its timeout lost, or found again |
| Clock.DeadlineExact | East/src/Timer.cc:18 | a deadline is at least clock plus period, later than the clock (for a positive period), and at least the period, if and only if the sum fits 64 bits; otherwise it lies before the clock |
| Runs.InvStep | East/src/Scheduler.cc:239-358 | every step of any worker keeps all the invariants together |
| Runs.InvAlways | East/src/Scheduler.cc:239-358 | every state of every run, for any number of workers, satisfies them |
| Runs.FiberExclusivity | East/src/Fiber.cc:131-134 | at most one worker is running a given fiber, and the assertions at the head of `resume` and `reset` hold for every fiber about to be resumed or reset |
| Runs.OneWakePerWait | East/src/IOManager.cc:211-223 | a fiber that blocked, or armed its wake and is about to yield, is in exactly one of an event context, a sleep timer, the queue, a worker's hands or a wake callback; a running or finished fiber is in none |
| Runs.WaiterNeverLost | East/src/IOManager.cc:62-79 | no step overwrites or drops an armed waiter: it stays in its context or becomes the task appended to the queue |
| Runs.NoStrandedWork | East/src/Scheduler.cc:338-356 | a task that is queued at a point of a run where stopping is not set, for a worker or for none in particular, has been begun once every worker has left |
| Runs.StrandedExactly | East/src/Scheduler.cc:264-270 | for every pin or none: a task queued at some point of a run is still queued when every worker has left if and only if every worker its pin allows had scanned for the last time at that point; otherwise it was begun |
| Stranded.PinnedCanStrand | East/src/Scheduler.cc:303-311 | a concrete run of two workers that ends with a task in the queue, pinned to the worker that left first or to any thread that is no worker |
| LateWork.LateCanStrand | East/include/Scheduler.h:100-111 | for every pin or none, a concrete run of one worker in which another thread schedules after that worker has left, and the task stays in the queue |
| Runs.TimeoutSoundness | East/src/Hook.cc:96-168 | a call that reported `ETIMEDOUT` did so at least its timeout after its first wait, unless the clock plus its timeout had reached 2^64 by then |
| EarlyTimeout.TimesOutEarly | East/src/Hook.cc:96-168 | a concrete run in which a hooked call with a positive timeout reports `ETIMEDOUT` at the clock value at which it began to wait |
| WaitRuns.TimerBelongs | East/src/Hook.cc:143-156 | in every state of every run a timeout timer in the manager belongs to exactly one fiber, which is still in the wait it was set for: none outlives its wait |
| WaitRuns.TimeoutOnItsWay | East/src/Hook.cc:118-134 | the timeout of a wait is in the manager, in a dispatcher's hands, queued or running, as long as the call is not marked |
| WaitRuns.LostExactly | East/src/Hook.cc:118-156 | a wait's timeout is lost at any point of the wait if and only if it was lost when the wait began, never if the call was unmarked then |
| LostTimeout.TimeoutCanBeLost | East/src/Hook.cc:118-156 | a concrete run of two workers that ends with a fiber waiting whose timeout will never wake it |
| WaitRuns.CallsEnd | East/src/Hook.cc:100-168 | a call has no result exactly as long as a fiber is in it, and only one is |
| WaitRuns.MarkDecides | East/src/Hook.cc:158-165 | a woken call reports `ETIMEDOUT`, at the clock value at which it looks, if and only if it is marked; otherwise it is retried |
| WaitRuns.CallbackDecides | East/src/Hook.cc:123-132 | a timeout's callback changes nothing for a call that is finished or marked; otherwise it marks it, and then wakes whoever waits for its event, if anybody does |
| WaitRuns.TakenIsHeld | East/src/IOManager.cc:534-541 | an expired timer taken out of the manager is in the hands of a worker that has done nothing else since |
| Runs.TaskConservation | East/src/Scheduler.cc:262-342 | every submitted task is begun if and only if it is no longer queued or held, is in one place only, and was begun where its pin allows; both counters are exact |
| Runs.BegunOnce | East/src/Scheduler.cc:299-342 | what was begun stays begun by the same worker, and no later step begins it again, not even the same worker's |
| Progress.NoWorkerStuck | East/src/Scheduler.cc:239-358 | in every state of every run every worker that has not left can take a step |
| Progress.LeftQuietly | East/src/Scheduler.cc:416-420 | an idle fiber ends, and a worker leaves, only after a moment at which `stop()` had been called, nothing was queued, and no worker was between dequeue and decrement |
| EventTable.ArmedSlots | East/include/IOManager.h:36-40 | the set of armed events over all descriptors, read off their event bits |
| EventTable.ReadyOf | East/src/IOManager.cc:566-578 | the ready events are those named by the report, and both for an error or a hang-up; they are never other bits |
| EventTable.AgreesArm | East/src/IOManager.cc:191-212 | the operation `addEvent` picks is legal for the kernel, and afterwards counter, bits and interest list agree with one more armed event |
| EventTable.AgreesDrop | East/src/IOManager.cc:262-283 | the operation that drops an event is legal, and they agree with one fewer |
| EventTable.AgreesReady | East/src/IOManager.cc:584-620 | the same for all ready events of a descriptor at once, when all are armed |
| IOManagers.Epoll.Control | East/src/IOManager.cc:199 | the kernel refuses to add a registered descriptor or to change or delete an unregistered one, and changes nothing when it refuses |
| IOManagers.FdContext.TriggerEvent | East/src/IOManager.cc:62-79 | the waiter handed to the scheduler is the armed one, the callback first; afterwards that context is empty, its bit clear, and the other untouched |
| IOManagers.FdContext.Arm | East/src/IOManager.cc:212-223 | the context was empty and now holds exactly the new waiter |
| IOManagers.FdContext.Disarm | East/src/IOManager.cc:283-287 | the context is empty again and the other untouched |
| IOManagers.IOManager.Create | East/src/IOManager.cc:94-123 | a new table is in agreement and nothing is armed |
| IOManagers.IOManager.Grow | East/src/IOManager.cc:440-452 | growing the table keeps every waiter and the agreement |
| IOManagers.IOManager.AddEvent | East/src/IOManager.cc:160-229 | it succeeds if and only if the event was not armed and the kernel did not refuse; exactly that slot then has the waiter, every other slot what it had, and bits, contexts, counter and interest list agree |
| IOManagers.IOManager.RemoveEvent | East/src/IOManager.cc:243-289 | it succeeds if and only if the event was armed and the kernel did not refuse; exactly that waiter is dropped and none is queued; agreement is kept |
| IOManagers.IOManager.CancelEvent | East/src/IOManager.cc:299-347 | as removal, but the waiter is appended to the queue |
| IOManagers.IOManager.CancelAll | East/src/IOManager.cc:359-405 | it succeeds if and only if something was armed and the kernel did not refuse; then the reader, if there was one, and after it the writer, if there was one, are at the end of the queue and both contexts empty; agreement is kept |
| IOManagers.IOManager.Dispatch | East/src/IOManager.cc:558-621 | the assertion fails if and only if the kernel does not refuse, both events are ready and exactly one of them is armed; otherwise the reader, if ready and armed, and after it the writer, if ready and armed, are at the end of the queue and those contexts empty; agreement is kept |
| IOManagers.HangUpExact | East/src/IOManager.cc:566-618 | a report with an error or a hang-up meets that condition if and only if exactly one of the descriptor's events is armed |
| IOManagers.IOManager.OneWaiter | East/src/IOManager.cc:160-229 | a valid table with exactly one waiter, for any event of any descriptor, can be had by arming it on a new manager |
| IOManagers.IOManager.AddRefines | East/src/IOManager.cc:211-223 | what `addEvent` without a callback does to a table that shows a protocol state is the protocol's arming step of a hooked call |
| IOManagers.IOManager.AddCallbackRefines | East/src/IOManager.cc:219-221 | what `addEvent` with a callback does is the protocol's step that arms a callback |
| IOManagers.IOManager.WakesRefines | East/src/IOManager.cc:394-403 | what `cancelEvent`, `cancelAll` and any dispatch do is the protocol's trigger for the reader, if it is woken and there is one, and then for the writer |
| IOManagers.IOManager.WakesExactly | East/src/IOManager.cc:606-620 | what the queue gains is exactly what the contexts that became empty held, a lone writer included, and a reader comes before a writer |
| ByteBuffer.ByteArray.constructor | East/src/ByteArray.cc:46-53 | a new buffer is valid, one block long, and already reports that block as readable |
| ByteBuffer.ByteArray.NullAtCapacity | East/src/ByteArray.cc:598-618 | the block pointer is null if and only if the offset is the capacity, and is block number offset / block size otherwise |
| ByteBuffer.ByteArray.AddCapacity | East/src/ByteArray.cc:1008-1037 | room for what is asked, with no block more than needed; the bytes there are kept, and the pointer is right even if it was null |
| ByteBuffer.BlocksExact | East/src/ByteArray.cc:1008-1037 | the number of blocks that growth adds is enough, and one fewer is not |
| ByteBuffer.ByteArray.Write | East/src/ByteArray.cc:589-622 | on the flat sequence: the bytes before the cursor are kept and followed by the buffer, what lies behind is kept, and size, cursor and number of blocks are what the flat form says |
| ByteBuffer.ByteArray.Read | East/src/ByteArray.cc:632-663 | on the flat sequence: the next bytes, or the exception exactly when fewer are readable; the null pointer is followed exactly for an empty read at the capacity |
| ByteBuffer.ByteArray.SetOffset | East/src/ByteArray.cc:721-739 | the exception exactly beyond the capacity and the null pointer exactly at it; otherwise the cursor is there with the block pointer to match, and the size covers it |
| ByteBuffer.ByteArray.Seek | East/src/ByteArray.cc:730-736 | the walk ends at block number position / block size, or off the list exactly at the capacity |
| ByteBuffer.ByteArray.Clear | East/src/ByteArray.cc:567-580 | the buffer is valid, empty and one block long, and holds what its first block held |
| ByteBuffer.ByteArray.ReadableBuffers | East/src/ByteArray.cc:879-909 | vectors for exactly the next readable bytes, up to the length asked for; the walk never steps past the last block |
| ByteBuffer.ByteArray.ReadableBuffersAt | East/src/ByteArray.cc:920-955 | from an explicit position: vectors for as many bytes as are readable from the cursor; the walk runs off the list exactly when they do not fit behind that position |
| ByteBuffer.ByteArray.WriteableBuffers | East/src/ByteArray.cc:965-992 | room for the length asked for behind the cursor and vectors for exactly it; nothing readable changes |
| ByteBuffer.ByteArray.Scatter | East/src/SocketStream.cc:32 | filling the vectors in order writes the data to the flat range they describe and nothing else |
| ByteBuffer.ByteArray.Gather | East/src/SocketStream.cc:51 | reading the vectors in order gives the flat range they describe |
| ByteBuffer.ByteArray.PiecesRoom | East/src/ByteArray.cc:991 | the vectors' lengths add up to the length asked for |
| Flat.PutIsSplice | East/src/ByteArray.cc:601-602 | overwriting part of one block is overwriting a range of the flat sequence |
| Flat.SliceOfBlock | East/src/ByteArray.cc:644 | reading part of one block is reading a range of the flat sequence |
| Tiling.TilesInOrder | East/src/ByteArray.cc:890-907 | the pieces are not empty, lie within one block each, and each starts where the one before ends, from the first position of the range to its last |
| Tiling.TilesPartition | East/src/ByteArray.cc:890-907 | every position of the range lies in exactly one piece and no other position in any |
| Varint.ZigZagArithmetic | East/src/ByteArray.cc:78-91 | the bit formula maps n to 2n and negative n to -2n - 1 |
| Varint.DecodeEncode | East/src/ByteArray.cc:78-113 | decoding undoes encoding for every signed word |
| Varint.EncodeDecode | East/src/ByteArray.cc:78-113 | encoding undoes decoding for every unsigned word |
| Varint.WriteGroups | East/src/ByteArray.cc:228-239 | the loop emits exactly the seven-bit groups and stays inside its local buffer |
| Varint.GroupsMinimal | East/src/ByteArray.cc:228-265 | the encoding has at most k bytes if and only if the value is below 128^k |
| Varint.GroupsMean | East/src/ByteArray.cc:228-265 | the encoding read as base-128 digits is the value |
| Varint.GroupsPrefixFree | East/src/ByteArray.cc:228-265 | no encoding is a prefix of another value's |
| Varint.GroupsExact | East/src/ByteArray.cc:228-265 | the encoding of a value is the one shortest byte string whose seven-bit groups spell it, with the high bit on all bytes but the last |
| Varint.ScanInvertsGroups | East/src/ByteArray.cc:437-478 | the reader's shifts and ors give the written value back and use up exactly its bytes |
| Varint.ScanMeans | East/src/ByteArray.cc:437-478 | on any bytes whatever: the reader stops behind the first byte with its high bit clear or behind the one that fills the word, returns what those bytes spell modulo 2^w, and runs out exactly if neither is there |
| Varint.ScanBounded | East/src/ByteArray.cc:437-478 | on any input the reader looks at no more than ceil(w / 7) bytes, and always ends if there are that many |
| Varint.ScanInWord | East/src/ByteArray.cc:437-478 | whatever the bytes, the result fits the word |
| Words.BswapInvolution | East/include/Endian.h:23-32 | swapping twice gives the word back, and swapping reverses its bytes in memory |
| Words.SwapGivesOrder | East/src/ByteArray.cc:138-145 | swapping when the wanted order is not the host's puts the word into memory in the wanted order on either host, and undoes it on the way back |
| Words.MemoryPositions | East/src/ByteArray.cc:177-182 | in a big-endian word in memory byte i is digit n - 1 - i to base 256, in a little-endian one digit i |
| Words.SpellsExact | East/src/ByteArray.cc:177-182 | bytes spell a number, by their digits in the byte order, if and only if they are its word in memory |
| Words.SignedRoundTrip | East/src/ByteArray.cc:138-145 | signed values and their words determine each other |
| Words.SwapOr | East/src/Address.cc:361-362 | byte swapping commutes with or |
| Words.SwapAnd | East/src/Address.cc:373-374 | byte swapping commutes with and |
| Words.SwapNot | East/src/Address.cc:383-384 | byte swapping commutes with complement |
| Words.SwapCount | East/src/Address.cc:43-50 | byte swapping keeps the number of one bits |
| Codec.WriteFix | East/src/ByteArray.cc:120-208 | what follows the bytes that were before the cursor spells the value, most significant byte first in big-endian order and last in little-endian order, on either host |
| Codec.ReadFix | East/src/ByteArray.cc:343-420 | the value read is the one the next n bytes spell in the buffer's order, on either host; the exception exactly when there are fewer, and then the cursor stays |
| Codec.WriteVar | East/src/ByteArray.cc:228-265 | the value's seven-bit groups follow what was before the cursor |
| Codec.ReadVar | East/src/ByteArray.cc:437-478 | the value and the bytes used are those of the scan of what lies ahead; the exception exactly when it ends too soon |
| Codec.WriteText | East/src/ByteArray.cc:295-316 | the length, cut to the prefix, and the characters follow what was before the cursor |
| Codec.ReadText | East/src/ByteArray.cc:510-546 | on any bytes: as many characters as the prefix spells, with the cursor just behind them; the exception exactly when the bytes end before that, with the cursor behind the prefix if there was one |
| Codec.TextExact | East/src/ByteArray.cc:295-316 | what comes back is the part its cut length announces, so the string itself if and only if its length fits the prefix |
| Codec.WriteTextVar | East/src/ByteArray.cc:324-328 | the length as an unsigned varint and the characters follow what was before the cursor |
| Codec.ReadTextVar | East/src/ByteArray.cc:552-560 | on any bytes: the cursor ends just behind the characters read, or behind the varint with the exception |
| Codec.TextVarIs | East/src/ByteArray.cc:552-560 | on any bytes: the varint's number, halved if even and complemented if odd, is how many characters are read, and the exception comes exactly when there are fewer |
| Codec.VarintStringExact | East/src/ByteArray.cc:552-553 | reading back what was written gives the string if and only if it is empty |
| Codec.WriteItem | East/src/ByteArray.cc:120-316 | each kind of write puts its item's wire form behind the cursor |
| Codec.ReadItem | East/src/ByteArray.cc:343-546 | the matching read gives the item's value back and stops just behind its wire form |
| Codec.WireMeans | East/src/ByteArray.cc:120-316 | what each kind of item's bytes spell: numbers in the byte order, negative ones modulo 2^(8n); seven-bit groups, negative numbers folded onto the odd ones; a length and the characters |
| Codec.Rewind | East/src/ByteArray.cc:721-739 | after moving to the start everything before the cursor is ahead of it, followed by what was ahead |
| Codec.ScriptRoundTrip | East/src/ByteArray.cc:120-546 | for every block size, host, byte order and mixed script, writing it, moving to the start and reading it back gives the same values and leaves the cursor where writing ended |
| Streams.FragmentationIndependent | East/src/Stream.cc:12-64 | on every script of the transport, a transfer moves the least of what is wanted, what there is, and what the calls offer before the first that moves nothing |
| Streams.ReadFixSize | East/src/Stream.cc:12-25 | exactly the next bytes of the transport, in order, and the length or -1 |
| Streams.WriteFixSize | East/src/Stream.cc:39-52 | exactly the next bytes of the buffer, in order, and the length or -1 |
| Streams.StreamRead | East/src/SocketStream.cc:27-38 | for any length, zero included: what arrived is behind the old cursor and before the new one; the null pointer exactly when all of it arrived and its end is a block boundary at or beyond the old capacity |
| Streams.StreamWrite | East/src/SocketStream.cc:46-57 | what was sent is what lay ahead, and the cursor is behind it; the null pointer exactly when something was sent and it ended at the old capacity, so never on a buffer that is not full |
| Streams.ReadFixSizeBuffer | East/src/Stream.cc:27-37 | whatever the fragmentation, exactly the next bytes end up before the cursor, in order; the null pointer exactly when all of them arrived and their end is a block boundary at or beyond the old capacity |
| Streams.WriteFixSizeBuffer | East/src/Stream.cc:54-64 | whatever the fragmentation, exactly the next readable bytes are sent, in order, and the cursor is behind them; the null pointer exactly when something was sent and it ended at the old capacity, so never on a buffer that is not full |
| Streams.BoundaryExact | East/src/ByteArray.cc:1008-1037 | the capacity grown for a number of bytes ends exactly with them if and only if their end is a block boundary at or beyond the capacity before |
| Streams.StandsAtCapacity | East/src/SocketStream.cc:27-38 | a read that received n of the bytes asked for stands at the grown capacity if and only if it received all of them and their end is a block boundary at or beyond the capacity before |
| TimerSpec.LessIsStrictTotal | East/src/Timer.cc:23-35 | the comparator is a strict total order, null included |
| TimerSpec.LessIs | East/src/Timer.cc:23-35 | earlier deadlines come first, among equal ones the lower address, and null before every timer |
| TimerSpec.LowerBound | East/src/Timer.cc:165 | the first position whose key is not less than the one looked for |
| TimerSpec.ListingUnique | East/src/Timer.cc:117 | the members of the index determine it |
| TimerSpec.InsertSorted | East/src/Timer.cc:117 | insertion keeps the index strictly sorted |
| TimerSpec.ExpiryPartition | East/src/Timer.cc:173-195 | exactly the timers due change: one-shots die, recurring ones stay, all others keep everything; what is left is later than now if and only if every recurring timer due has a positive period that does not overflow |
| TimerSpec.DueUnique | East/src/Timer.cc:163-185 | what is emitted and in which order depends on the entries and the clock alone, not on the sentinel |
| TimerSpec.DeadStaysDead | East/src/Timer.cc:37-88 | in every run a timer without a callback never gets one again |
| TimerSpec.OneShotOnce | East/src/Timer.cc:182-194 | in every run a callback emitted twice is a recurring timer's |
| TimerSpec.SilentAfterCancel | East/src/Timer.cc:37-46 | in every run nothing is emitted for a timer after it was cancelled |
| TimerSpec.DeadlineIsBasePlusPeriod | East/src/Timer.cc:48-88 | in every run each deadline is the clock value of the timer's last restart plus its period |
| TimerSpec.ResetKeepsBase | East/src/Timer.cc:77-84 | in every run `reset(p, false)` lands on that clock value plus p; the deadline is at least the period, so the subtraction does not underflow, if and only if the last sum fit |
| TimerSpec.LiveAsAsked | East/src/Timer.cc:63-99 | in every run a live timer has the callback and the kind it was added with, and the period asked for by its last add or reset, whichever way that reset counted |
| Timers.FindIs | East/src/Timer.cc:41 | looking a member up by its present key finds that timer and no other |
| Timers.Timer.Cancel | East/src/Timer.cc:37-46 | it succeeds exactly for a live timer; that entry loses its callback and no other changes; the index stays sorted and holds exactly the live timers |
| Timers.Timer.Refresh | East/src/Timer.cc:48-61 | it succeeds exactly for a live timer, whose deadline is then clock plus period; the index stays sorted and exact although the key changed |
| Timers.Timer.Reset | East/src/Timer.cc:63-88 | it succeeds for a live timer or an unchanged request; then the period is the new one, and the deadline clock plus new period, or moved by the difference of the periods if not counted from now; only that entry changes; the owner is told exactly when the rearmed timer is first and it was not told already |
| Timers.TimerManager.AddTimer | East/src/Timer.cc:93-99 | one entry more, and the owner told exactly when the new timer is first and it was not told already; the index stays sorted, and it stays exact if and only if the function passed is not empty |
| Timers.TimerManager.AddLocked | East/src/Timer.cc:115-126 | the index stays sorted with exactly that timer more |
| Timers.TimerManager.GetNextTimer | East/src/Timer.cc:128-141 | the time to the earliest deadline of any live timer, zero if it has passed, all ones if there is none |
| Timers.TimerManager.FirstLater | East/src/Timer.cc:163-171 | for any sentinel address, the position that separates the timers due from the later ones |
| Timers.TimerManager.ListExpired | East/src/Timer.cc:143-199 | the callbacks of exactly the timers due, in index order, and the entries and index as the partition says |
| TimerRefinement.ExpiryRefines | East/src/IOManager.cc:534-541 | listing the expired timers and submitting their callbacks in bulk is a sequence of the protocol's steps: one expiry for each timer due, in index order, then one submission for each; the queue grows by what bulk submission appends |
| TimerRefinement.ExpiryShows | East/src/Timer.cc:173-195 | after it the manager's entries show the protocol's timers and index again |
| TimerRefinement.CancelRefines | East/src/Hook.cc:143-156 | what the call's steps after a wake and after a failed `addEvent` do to the timers is cancelling the wait's timer, expired already or not |
| TimerRefinement.BlockRefines | East/src/Hook.cc:118-134 | adding the timeout timer is what the protocol's step for a call that would block does to the timers |
| TimerRefinement.SleepRefines | East/src/Hook.cc:190-195 | adding a sleep's timer is what the protocol's step does to the timers |
| LogPattern.ScanField | East/src/LogFormatter.cc:175-208 | the inner loop ends and finds the name, the format and where to go on, or that a brace is not closed |
| LogPattern.Init | East/src/LogFormatter.cc:157-226 | the nested loops end on every pattern with the pieces and error flag of the scan |
| LogPattern.ScanPrint | East/src/LogFormatter.cc:157-226 | scanning a printed canonical list gives its pieces back, without error |
| LogPattern.Lossless | East/src/LogFormatter.cc:157-226 | every pattern scanned without error is the printing of a list with exactly the scanned pieces; one with an error is such a list, the last literal, and a brace that is never closed |
| LogPattern.DoubledPercent | East/src/LogFormatter.cc:168-172 | the pattern `%%` alone gives a literal percent sign and then an empty field, where the documented reading gives the literal only |
| LogPattern.DoubledExact | East/src/LogFormatter.cc:156-172 | every pattern is scanned as documented if and only if no percent sign outside a field has another one behind it |
| Ipv4.PrefixArithmetic | East/src/Address.cc:355-376 | reading the four bytes as they lie in memory, on either host: network <= address <= broadcast, the network address is the address with its low bits cleared, and the two are 2^(32-p) - 1 apart |
| Ipv4.PrefixIdempotent | East/src/Address.cc:355-376 | both operations are idempotent and each can be taken from the other's result |
| Ipv4.SameBlock | East/src/Address.cc:355-376 | two addresses have the same network address, and the same broadcast address, if and only if their bytes in memory share their leading p bits |
| Ipv4.PrefixRange | East/src/Address.cc:355-386 | all three results are addresses if and only if the prefix length is from 2 to 32; above, two of them are null, and below they are not defined |
| Ipv4.SwapCommutes | East/include/Endian.h:34-55 | on either host, swapping undoes itself and commutes with or, and, and complement |
| Ipv4.SwappedNumber | East/include/Endian.h:34-55 | the conditional swap gives the number the four bytes in memory spell, the first the highest, on either host |
| Ipv4.MaskGivesNetwork | East/src/Address.cc:367-386 | masking an address with the subnet mask is taking its network address |
| Ipv4.CountBitIsOne | East/src/Address.cc:42-50 | the loop counts the one bits |
| Ipv4.MaskExact | East/src/Address.cc:29-32 | on a signed 32-bit int the shift and the subtraction are defined if and only if the prefix has 2 to 32 bits, and give ones in exactly the bits behind it |
| Bits.ClearLowest | East/src/Address.cc:47 | clearing the lowest one bit lowers the count by exactly one |
| Ipv4.SubnetMaskCount | East/src/Address.cc:378-386 | counting the bits of the subnet mask gives the prefix length back |
| Ipv4.SubnetMaskNumber | East/src/Address.cc:378-386 | the subnet mask's bytes in memory spell p ones and then zeros |

## Left out

- ucontext switching, threads, mutexes, epoll, pipes and `dlsym`: only their effect on the shared state is modelled.
- The fiber class and the body of `Scheduler::run` are modelled as steps of a transition system, not as classes, because any other worker may act between any two of them. The task list, the event table and the timers are modelled as classes, one locked section per method.
- `IOManager::stopping` also waits until no event is pending and no timer is left. It reads the three parts one after the other, so the protocol requires only the queue part for an idle fiber to end; it therefore allows every run of the source and some more, and claims nothing about events left armed at shutdown.
- User timers with arbitrary callbacks, recurring ones among them, are in the timer manager but not in the protocol, whose timers are those of hooked calls and sleeps; `TimerRefinement` is about managers that hold only those.
- Runs.OneWakePerWait: like Runs.FiberExclusivity, only for fiber code that keeps the discipline above; code that schedules an existing fiber, yields without a waker, or arms two, is not modelled.
- `removeEvent` in the protocol: it drops the waiter by design, so it is modelled in the event table only.
- Tasks that throw: the runner then resets a fiber in a state that `Fiber::reset` asserts against.
- Shrinking the context table when two threads grow it at once, and negative descriptors.
- How soon a worker is woken: `tickle` does nothing while no thread is counted idle. In the protocol an idle worker may return at any time.
- Address reuse in the timer manager: a new timer's address is one no earlier timer had.
- `addConditionTimer`, whose wrapped callback tests a weak pointer, apart from its use by hooked calls; `hasTimer`.
- Const `read` at an offset in another block starts from the current block; `writeToFile`, `readFromFile`, `toString` and `toHexString` are built on it.
- `isLittleEndian`, which returns a non-zero tag either way.
- The block count in `addCapacity` is an `int` in the source and unbounded here; transfer lengths returned as `int` likewise.
- Codec.ReadTextVar: a decoded length beyond what is readable counts as out of range; the source may fail to allocate the string first.
- Streams.StreamRead: a closed connection returns -1 before anything else; here the transport's next result stands for it.
- The second half of `LogFormatter::init`, which looks each field name up in a table.
- LogPattern.Init: letters are those of the C locale.
- The IPv6 prefix methods, marked as unfinished in the source, and port setters.
- HTTP parsing, configuration, loggers and appenders, daemon, environment, servlets, TCP server, URI.
