# Verified models of the PSS client's data structures

The PSS TCP client rests on three groups of code whose correctness is not visible from any
one function. This project models them in Dafny and proves what they are for.

**The single-producer single-consumer ring buffer** addresses a power-of-two array through
unsigned indices that are never reduced and wrap with their type. `Words` and `RingSlots`
hold the arithmetic: the bit-by-bit `&`, the compile-time size test, wrapped differences.
`RingBuffer` is the buffer as an object used by one thread at a time, with the transfers
that call back between pieces. `SpscProtocol` is the buffer shared by two threads, one step
per load, store or slot access, with program-order steps on a sequentially consistent store
for the acquire/release accesses of the code (section 32.4 [atomics.order] of ISO/IEC
14882:2017). `SpscSafety` has the invariant, `SpscTheorems` the results for every
interleaving, `SpscProgress` wait-freedom and agreement with the sequential contracts, and
`RingLink` connects objects and step machine.

**The byte machinery of the vendored asio headers.** `BuffersIterator` is the random-access
iterator over a list of buffers of which any may be empty. `BufferCopy` is the copy between
two differently fragmented lists, in place on one memory (section 16.9 [buffer.copy] of
ISO/IEC TS 19216:2018). `StreamBuf` is the compacting, growing stream buffer with a size cap.

**The timer scheduler and the work queue.** `MessageQueue` is the condition-variable queue
with any number of threads, and the queue object. `LogicTask` is the worker loop on that
queue with its closers, as a step machine and as an object. `TimerScheduler` is the scheduler
thread with adders, cancellers and closers as a step machine, `TimerTheorems` its results;
its additions hold `mtx`. `TimerManager` is that manager as an object, with `timer_run` and
`schedule` in the form of their source; each call is shown to be a run of the step machine.
`TimerProgress` shows that due timers are run. `TimerRaces` and `TimerRaceTheorems` are the
scheduler with additions by the template overloads, which push, set the wake-up state and
notify in three steps without `mtx`. `Tms` adds delayed and repeated
messages as clients of those.

Runs of the step machines are functions of a *schedule*, a sequence of steps, so that "for
every schedule" is "for every interleaving"; a step that is not possible changes nothing.
What a callback or another thread does while an object's method runs is an argument of the
method (`drains`, `offers`, `naps`, `others`), so contracts hold for all such behaviour.
Logs of what was published, taken, pushed, popped or fired are recorded and never consulted.

`dafny verify dfyconfig.toml` checks the whole project.

## Findings

Nine properties one might expect do not hold of the code as it is. Each has a lemma with the
exact condition, or with what holds instead, and a run or a call that shows it. Lines are
those of `pss_tcp_client/TimerManager.hpp` but for the last two.

- A close of the timer manager is lost if and only if `schedule` has not begun, because
  `schedule` sets the flag again (line 264; `TimerTheorems.CloseIsLostIffNotBegun`).
- A close that arrives after the loop has tested its flag, and before `timer_run` waits on an
  empty queue, wakes nobody; it takes effect when the default wait of 300 seconds is over.
  In every other case it takes effect at once (lines 201-211 and 266;
  `TimerTheorems.CloseIsPromptUnlessEntering`, `TimerTheorems.LateCloseIsPossible`).
- A timed wait that ends spuriously, with no addition on record since the last firing, runs
  a timer that is not due (lines 224-234; `TimerTheorems.SpuriousWakeIsEarlyIff`, and
  `TimerTheorems.EarlyFiringIsPossible` from the initial state). Every early firing comes
  from such a wait (`TimerTheorems.NeverEarly`).
- With the template overloads a notification can do the same: it may come when its addition
  has been forgotten (lines 146-152, 168-174 and 257; `TimerRaces.CutWaitIsEarlyIff`,
  `TimerRaces.EarlyWithoutSpuriousWakes`).
- With the template overloads a timer can be lost. If one with a smaller key is pushed after
  the scheduler has looked at the top, and is not on record when the wait ends, it is popped
  in place of the timer that is run (lines 219-244; `TimerRaces.WrongPopIff`,
  `TimerRaces.WrongPopLosesTimer`, `TimerRaces.TimerCanBeLost`). Until that happens nothing is
  lost (`TimerRaces.NothingLostWhileIntact`).
- With the template overloads an addition can go unheard: its notification is lost if it falls
  between the look at the queue and the wait, be it the wait on an empty queue (lines 201-204)
  or the timed wait for the top (lines 219-224), and only then
  (`TimerRaceTheorems.AdditionUnheardIff`). The scheduler then sleeps for the default wait, or
  until the timer it measured is due, through timers due before
  (`TimerRaces.AdditionCanGoUnheard`, `TimerRaceTheorems.EarlierTimerCanGoUnheard`). Additions
  that hold `mtx` are always heard (`TimerTheorems.NoAdditionGoesUnheard`).
- The initial delay of a loop timer lasts until its first wait ends, however that ends. It is
  kept while nobody adds, closes or wakes the scheduler spuriously; an addition cuts it short,
  and the timer's turn comes next if and only if it is still on top and its interval is over
  (lines 71-77 and 223-231; `TimerTheorems.DelayIsKeptAsleep`,
  `TimerTheorems.AdditionLosesDelayIff`, `TimerTheorems.DelayCanBeLost`).
- The index of a delayed message stays on record for good, whoever closes it, if and only if
  its timer is over before the index is recorded (lines 216-227 and 265-292 of
  `pss_tcp_client/tms.hpp`; `Tms.IndexIsLeakedIff`, `Tms.IndexCanBeLeaked`).
- A `reserve` that throws may already have moved the bytes from under the unchanged pointers
  (lines 321-340 of `pss_tcp_client/third_include/asio/basic_streambuf.hpp`). The readable
  bytes survive if and only if they repeat with the distance they have from the front, as
  they do with nothing in front of them or at least as much as there are of them
  (`StreamBuf.FailedReserveKeepsDataIff`, `StreamBuf.FailedReserveMayLoseData`).

## Model

| member | source | states |
|---|---|---|
| Words.PowerOfTwoTest | pss_tcp_client_test/ring_buffer.hpp:340-341 | the compile-time test on the size accepts exactly the powers of two |
| Words.MaskIsMod | pss_tcp_client_test/ring_buffer.hpp:325 | masking with size - 1 is the remainder modulo the size |
| Words.WrapSubExact | pss_tcp_client_test/ring_buffer.hpp:85-95 | the unsigned difference of two wrapped counters is their true distance as long as it fits the type |
| RingSlots.SizeDividesModulus | pss_tcp_client_test/ring_buffer.hpp:340-348 | the compile-time assertions make the size a power of two that divides the index modulus and is at most half of it |
| RingSlots.CompilesIff | pss_tcp_client_test/ring_buffer.hpp:340-348 | the compile-time assertions let through exactly the powers of two up to half the index modulus |
| RingSlots.SlotOfCounter | pss_tcp_client_test/ring_buffer.hpp:325 | an index that has overflowed still selects the slot of the true counter modulo the size |
| RingSlots.DistanceExact | pss_tcp_client_test/ring_buffer.hpp:85-95 | head minus tail, and size minus that, are the true counts; equal indices mean an empty buffer |
| RingSlots.BufferedIsLogSuffix | pss_tcp_client_test/ring_buffer.hpp:245-252 | the queue found through masked, wrapped indices is the unread end of the log of everything published |
| RingBuffer.Ringbuffer.constructor | pss_tcp_client_test/ring_buffer.hpp:37 | a new buffer is empty |
| RingBuffer.Ringbuffer.ContentsAreBuffered | pss_tcp_client_test/ring_buffer.hpp:333-337 | indices and slots alone determine the contents |
| RingBuffer.Ringbuffer.ReadAvailable | pss_tcp_client_test/ring_buffer.hpp:85-87 | the number of elements, across index overflow |
| RingBuffer.Ringbuffer.WriteAvailable | pss_tcp_client_test/ring_buffer.hpp:93-95 | the number of elements and the room add up to the size |
| RingBuffer.Ringbuffer.IsEmpty | pss_tcp_client_test/ring_buffer.hpp:69-71 | true exactly for an empty queue |
| RingBuffer.Ringbuffer.IsFull | pss_tcp_client_test/ring_buffer.hpp:77-79 | true exactly when every slot is taken |
| RingBuffer.Ringbuffer.At | pss_tcp_client_test/ring_buffer.hpp:245-252 | the slot of the element asked for, nothing exactly when out of range |
| RingBuffer.Ringbuffer.Peek | pss_tcp_client_test/ring_buffer.hpp:228-235 | the slot of the oldest element, nothing exactly when empty |
| RingBuffer.Ringbuffer.Insert | pss_tcp_client_test/ring_buffer.hpp:102-115 | appends the element, refusing exactly on a full buffer |
| RingBuffer.Ringbuffer.InsertFromCallbackWhenAvailable | pss_tcp_client_test/ring_buffer.hpp:146-160 | refuses exactly on a full buffer, and then has not called the callback; else has called it once and appended what it returned |
| RingBuffer.Ringbuffer.RemoveOne | pss_tcp_client_test/ring_buffer.hpp:166-176 | drops the oldest element, failing exactly on an empty buffer |
| RingBuffer.Ringbuffer.RemoveMany | pss_tcp_client_test/ring_buffer.hpp:183-191 | drops as many of the oldest as asked for or as there are, and says how many |
| RingBuffer.Ringbuffer.RemoveTo | pss_tcp_client_test/ring_buffer.hpp:207-219 | hands over the oldest element and drops it, failing exactly on an empty buffer |
| RingBuffer.Ringbuffer.ConsumerClear | pss_tcp_client_test/ring_buffer.hpp:61-63 | empties the buffer without touching what was published |
| RingBuffer.Ringbuffer.Fill | pss_tcp_client_test/ring_buffer.hpp:364-365 | the filling loop puts the items into their slots behind everything held, disturbing nothing |
| RingBuffer.Ringbuffer.Fetch | pss_tcp_client_test/ring_buffer.hpp:423-424 | the fetching loop copies exactly the log entries asked for into the caller's array and changes nothing else of it |
| RingBuffer.Ringbuffer.WriteBuff | pss_tcp_client_test/ring_buffer.hpp:352-371 | appends the longest prefix that fits and returns its length |
| RingBuffer.Ringbuffer.ReadBuff | pss_tcp_client_test/ring_buffer.hpp:411-430 | moves as many of the oldest elements as asked for, or as there are, to the front of the array |
| RingBuffer.Ringbuffer.WriteBuffWithCallback | pss_tcp_client_test/ring_buffer.hpp:374-408 | whatever the consumer does in the callbacks, a prefix is published in order, the write falls short only on a buffer full at the last check, and the callbacks find what is written and buffered piece by piece: the first piece as long as asked for, each later one all that is left, or as much as there is room for |
| RingBuffer.WritePiecesLaw | pss_tcp_client_test/ring_buffer.hpp:382-407 | the course of pieces ends short only when full, and with an inert callback it is the simple write |
| RingBuffer.WriteIsSeen | pss_tcp_client_test/ring_buffer.hpp:382-407 | the course of pieces is the one its callbacks see, call by call, and goes on until all is written or the buffer is full |
| RingBuffer.Ringbuffer.ReadBuffWithCallback | pss_tcp_client_test/ring_buffer.hpp:433-467 | whatever the producer does in the callbacks, the next elements arrive in order, the read falls short only on a buffer empty at the last check, and the callbacks find what is read and buffered piece by piece, the first piece as long as asked for, each later one all that is left, or as much as there is |
| RingBuffer.ReadPiecesLaw | pss_tcp_client_test/ring_buffer.hpp:441-466 | the course of pieces ends short only when empty, and with an inert callback it is the simple read |
| RingBuffer.ReadIsSeen | pss_tcp_client_test/ring_buffer.hpp:441-466 | the course of pieces is the one its callbacks see, call by call, and goes on until all is read or the buffer is empty |
| SpscTheorems.EveryInterleavingIsFifo | pss_tcp_client_test/ring_buffer.hpp:102-115 | in every interleaving published = taken followed by buffered, and at most a buffer is pending: no loss, duplication or reordering |
| SpscTheorems.ThreadsNeverShareSlots | pss_tcp_client_test/ring_buffer.hpp:355-368 | slots being filled before publication are disjoint from slots being read before release, although each side acts on an old index |
| SpscTheorems.WritesOwnSlots | pss_tcp_client_test/ring_buffer.hpp:364-365 | no step changes a slot outside those of the producer |
| SpscTheorems.ReadsOwnSlots | pss_tcp_client_test/ring_buffer.hpp:423-424 | what the consumer does next depends on no slot outside its own |
| SpscTheorems.ResultsAreExact | pss_tcp_client_test/ring_buffer.hpp:183-219 | a finished write has published a prefix of its items, a finished read has copied exactly what it took, at has read the element asked for |
| SpscTheorems.ProducerDecidesExactly | pss_tcp_client_test/ring_buffer.hpp:104-107 | when the producer loads tail its arithmetic yields the true room of that instant, and it gives up only on a full buffer |
| SpscTheorems.ConsumerDecidesExactly | pss_tcp_client_test/ring_buffer.hpp:414-420 | when the consumer loads head it finds exactly how much there is at that instant |
| SpscTheorems.AtDecidesExactly | pss_tcp_client_test/ring_buffer.hpp:245-252 | under concurrency too, at yields null exactly when out of range and else the right slot |
| SpscTheorems.AtReturnsElement | pss_tcp_client_test/ring_buffer.hpp:245-252 | and the element found is the one handed over, whatever the producer does in between |
| SpscTheorems.AtFindsElement | pss_tcp_client_test/ring_buffer.hpp:245-252 | from call to return, with any producer steps between its own, at returns the element of the queue it was asked for, null only if the queue was too short when it looked, and never null for an element there when it was called |
| SpscSafety.ProducerStepSafe | pss_tcp_client_test/ring_buffer.hpp:351-371 | every producer step keeps the invariant, whatever the consumer has done since tail was loaded |
| SpscSafety.ConsumerStepSafe | pss_tcp_client_test/ring_buffer.hpp:410-430 | every consumer step keeps the invariant, whatever the producer has done since head was loaded |
| SpscSafety.ReleasedIsNext | pss_tcp_client_test/ring_buffer.hpp:183-191 | the slots a consumer releases, read or skipped, hold the elements published next |
| SpscProgress.ProducerIsWaitFree | pss_tcp_client_test/ring_buffer.hpp:385-405 | every producer step brings its operation nearer the end, and no consumer step sets it back |
| SpscProgress.ConsumerIsWaitFree | pss_tcp_client_test/ring_buffer.hpp:444-464 | every consumer step brings its operation nearer the end, and no producer step sets it back |
| SpscProgress.WriteEnds | pss_tcp_client_test/ring_buffer.hpp:374-408 | in every interleaving a write is over after a number of producer steps known at its start |
| SpscProgress.ReadEnds | pss_tcp_client_test/ring_buffer.hpp:433-467 | in every interleaving a read is over after a number of consumer steps known at its start |
| SpscProgress.PiecesAsPlanned | pss_tcp_client_test/ring_buffer.hpp:382-407 | in every interleaving a transfer with a callback intends a first piece as long as asked for and then all that is left, the others all at once |
| SpscProgress.PieceIsFilled | pss_tcp_client_test/ring_buffer.hpp:396-401 | the piece decided on is the piece published, whatever the consumer does meanwhile |
| SpscProgress.PieceIsFetched | pss_tcp_client_test/ring_buffer.hpp:455-460 | the piece decided on is the piece released, whatever the producer does meanwhile |
| SpscProgress.WriteAloneIsSequential | pss_tcp_client_test/ring_buffer.hpp:352-371 | an undisturbed write of the step machine publishes what the sequential contract says and changes nothing else |
| SpscProgress.UndisturbedWrite | pss_tcp_client_test/ring_buffer.hpp:352-371 | from an idle producer, in terms of the queue alone: the call of a write makes it grow by the prefix that fits |
| SpscProgress.ReadAloneIsSequential | pss_tcp_client_test/ring_buffer.hpp:411-430 | an undisturbed read of the step machine takes what the sequential contract says and changes nothing else |
| SpscProgress.UndisturbedRead | pss_tcp_client_test/ring_buffer.hpp:166-191 | from an idle consumer, in terms of the queue alone: the wanted number, or all there is, leaves its front |
| RingLink.WriteBuffAgrees | pss_tcp_client_test/ring_buffer.hpp:352-371 | the object's write and the step machine's, from the same snapshot, leave the same queue and logs and write the same count |
| RingLink.InsertAgrees | pss_tcp_client_test/ring_buffer.hpp:102-115 | so do the insertions |
| RingLink.RemoveManyAgrees | pss_tcp_client_test/ring_buffer.hpp:183-191 | so do the removals, with the same count |
| RingLink.ReadBuffAgrees | pss_tcp_client_test/ring_buffer.hpp:411-430 | so do the reads, and the array receives what the step machine takes |
| BuffersIterator.PositionDeterminesPlace | pss_tcp_client/third_include/asio/buffers_iterator.hpp:348-351 | equal positions over the same list mean the same buffer and offset |
| BuffersIterator.ByteInConcat | pss_tcp_client/third_include/asio/buffers_iterator.hpp:341-345 | a byte of a buffer is the byte of the concatenation at the bytes before plus the offset |
| BuffersIterator.Iterator.Begin | pss_tcp_client/third_include/asio/buffers_iterator.hpp:167-184 | position 0 in its canonical place, past leading empty buffers |
| BuffersIterator.Iterator.End | pss_tcp_client/third_include/asio/buffers_iterator.hpp:187-203 | the position is the size of all buffers, in its canonical place |
| BuffersIterator.Iterator.Dereference | pss_tcp_client/third_include/asio/buffers_iterator.hpp:341-345 | the byte at the position of the concatenation |
| BuffersIterator.NextIsOneOn | pss_tcp_client/third_include/asio/buffers_iterator.hpp:354-374 | the place after a byte, past any empty buffers, is canonical and one byte on |
| BuffersIterator.PreviousIsOneBack | pss_tcp_client/third_include/asio/buffers_iterator.hpp:377-404 | the place before, past any empty buffers, is canonical and one byte back |
| BuffersIterator.Iterator.Increment | pss_tcp_client/third_include/asio/buffers_iterator.hpp:354-374 | moves to the next place |
| BuffersIterator.Iterator.Decrement | pss_tcp_client/third_include/asio/buffers_iterator.hpp:377-404 | moves to the previous place |
| BuffersIterator.Iterator.Advance | pss_tcp_client/third_include/asio/buffers_iterator.hpp:407-485 | terminates where as many single steps in that direction lead, for every distance that stays in range |
| BuffersIterator.StepsMovePosition | pss_tcp_client/third_include/asio/buffers_iterator.hpp:354-404 | that many single steps, forward or back, move the position by exactly that many bytes |
| BuffersIterator.Index | pss_tcp_client/third_include/asio/buffers_iterator.hpp:218-223 | reads the byte that far away and leaves the iterator alone |
| BuffersIterator.EqualIteratorsCoincide | pss_tcp_client/third_include/asio/buffers_iterator.hpp:348-351 | equality of iterators is equality of places and of the buffer they are on |
| BuffersIterator.AdvanceIsRepeatedStepping | pss_tcp_client/third_include/asio/buffers_iterator.hpp:354-485 | advancing one iterator and stepping another from the same place both end at the place so many steps away |
| BuffersIterator.StepsAreInverse | pss_tcp_client/third_include/asio/buffers_iterator.hpp:354-404 | the previous place of the next place, and the next of the previous, is the place itself, wherever such a step is possible |
| BuffersIterator.AdvanceByDistance | pss_tcp_client/third_include/asio/buffers_iterator.hpp:488-491 | from anywhere over the same buffers, advancing one iterator by its distance to another takes it to where the other is, and the distance back is the negative |
| BuffersIterator.BeginPlusSizeIsEnd | pss_tcp_client/third_include/asio/buffers_iterator.hpp:167-203 | begin advanced by its distance to end equals end, at the size of all buffers |
| BufferCopy.BufferSize | pss_tcp_client/third_include/asio/buffer.hpp:559-572 | the sum of the sizes, in the unsigned type of sizes |
| BufferCopy.BufferCopy1 | pss_tcp_client/third_include/asio/buffer.hpp:2173-2183 | copies the smaller size and changes nothing else |
| BufferCopy.CopyCount | pss_tcp_client/third_include/asio/buffer.hpp:2249-2339 | the number of bytes copied is at most each of the two sizes and the limit, and one of them |
| BufferCopy.CopyManyToMany | pss_tcp_client/third_include/asio/buffer.hpp:2249-2339 | both general loops terminate, return the least of the sizes and the limit, and leave the memory with that source prefix scattered over the target |
| BufferCopy.CopyOneToOne | pss_tcp_client/third_include/asio/buffer.hpp:2185-2201 | the same result as the general loop on singleton lists, with or without a limit |
| BufferCopy.CopyManyToOne | pss_tcp_client/third_include/asio/buffer.hpp:2203-2224 | the same result as the general loop on a singleton target |
| BufferCopy.CopyOneToMany | pss_tcp_client/third_include/asio/buffer.hpp:2226-2247 | the same result as the general loop on a singleton source |
| BufferCopy.BufferCopy | pss_tcp_client/third_include/asio/buffer.hpp:2362-2411 | whichever overload the argument types select, count and memory are those of the general algorithm |
| BufferCopy.CopyContinues | pss_tcp_client/third_include/asio/buffer.hpp:2264-2287 | each piece copied is the next piece of the concatenated source, put behind the previous one in the concatenated target |
| BufferCopy.GatherScatter | pss_tcp_client/third_include/asio/buffer.hpp:2362-2373 | bytes scattered over separate buffers read back as those bytes followed by the old tail |
| BufferCopy.CopyMeansPrefix | pss_tcp_client/third_include/asio/buffer.hpp:2343-2361 | after a copy the concatenated target is a prefix of the concatenated source followed by its own tail, and the rest of memory is unchanged |
| BufferCopy.BufferCopyPrefix | pss_tcp_client/third_include/asio/buffer.hpp:2399-2411 | the same promise for a call, the source unchanged |
| StreamBuf.BasicStreambuf.constructor | pss_tcp_client/third_include/asio/basic_streambuf.hpp:131-141 | empty, with its pointers in order under any cap, zero included |
| StreamBuf.BasicStreambuf.Reserve | pss_tcp_client/third_include/asio/basic_streambuf.hpp:308-346 | fails exactly when size + n exceeds the cap; else the readable bytes are unchanged, n bytes are writable and every pointer is where it was, if there was room, or else as near the front as can be; on failure says what is left |
| StreamBuf.FailedReserveKeepsDataIff | pss_tcp_client/third_include/asio/basic_streambuf.hpp:308-346 | after a reserve the readable bytes are intact if and only if it succeeded or they repeat with their distance from the front |
| StreamBuf.FailedReserveMayLoseData | pss_tcp_client/third_include/asio/basic_streambuf.hpp:321-340 | with a cap of three, three bytes put and one consumed, a reserve of two fails and of the two readable bytes the first is lost |
| StreamBuf.BasicStreambuf.Prepare | pss_tcp_client/third_include/asio/basic_streambuf.hpp:214-219 | the region of n writable bytes behind the readable ones, refused exactly over the cap |
| StreamBuf.BasicStreambuf.Commit | pss_tcp_client/third_include/asio/basic_streambuf.hpp:233-238 | the first n bytes of the put area, or all of it, join the queue and the get area |
| StreamBuf.BasicStreambuf.Consume | pss_tcp_client/third_include/asio/basic_streambuf.hpp:247-254 | the n oldest bytes, or all, leave the queue |
| StreamBuf.BasicStreambuf.Underflow | pss_tcp_client/third_include/asio/basic_streambuf.hpp:263-274 | the oldest byte without taking it, eof exactly when there is none, and all readable bytes in the get area |
| StreamBuf.BasicStreambuf.Overflow | pss_tcp_client/third_include/asio/basic_streambuf.hpp:283-306 | appends exactly the character, growing by at most 128 bytes and only if it must, failing exactly when the size is the cap and then with the readable bytes intact; eof appends nothing |
| StreamBuf.BasicStreambuf.ReadSizeHelper | pss_tcp_client/third_include/asio/basic_streambuf.hpp:352-359 | no subtraction goes below zero, what is asked for fits the cap, and it is nothing only if nothing may be asked for |
| StreamBuf.PrepareForRead | pss_tcp_client/third_include/asio/basic_streambuf.hpp:352-359 | preparing what the helper asks for never fails, in any state |
| StreamBuf.Run | pss_tcp_client/third_include/asio/basic_streambuf.hpp:192-306 | over any run of requests the object takes in exactly the bytes accepted and lets go of exactly as many as are dropped, and shows the abstract queue |
| StreamBuf.QueueConserves | pss_tcp_client/third_include/asio/basic_streambuf.hpp:192-306 | over any run, what the queue held and what was accepted is what was dropped, in order, followed by what it holds |
| StreamBuf.NothingIsRefused | pss_tcp_client/third_include/asio/basic_streambuf.hpp:192-306 | over any run, with room for all that is prepared and put all that is offered is accepted; with enough bytes held all that is asked is dropped, and never more |
| StreamBuf.QueueStaysBounded | pss_tcp_client/third_include/asio/basic_streambuf.hpp:158-171 | that queue never exceeds the cap |
| MessageQueue.DoSafe | pss_tcp_client/ThreadQueue.h:20-55 | every critical section, spurious wake-ups included, keeps the wake-up account |
| MessageQueue.EveryRunIsFifo | pss_tcp_client/ThreadQueue.h:20-55 | with any number of threads, elements leave in the order pushed |
| MessageQueue.NoLostWakeup | pss_tcp_client/ThreadQueue.h:28-42 | while threads sleep un-notified the queue is no longer than the number of notified threads, each of which takes the front element as soon as it runs |
| MessageQueue.WhatAThreadGets | pss_tcp_client/ThreadQueue.h:20-55 | whatever other threads are about, a thread that finds a message takes the oldest, on an empty queue it sleeps if it blocks; a push wakes a sleeper if there is one |
| MessageQueue.CMessageQueue.Push | pss_tcp_client/ThreadQueue.h:20-25 | appends the message |
| MessageQueue.CMessageQueue.Pop | pss_tcp_client/ThreadQueue.h:28-55 | takes the front message at once if there is one, else, blocking, the front of what it first wakes to; returns nothing exactly on an empty queue |
| MessageQueue.SleepsWhileOthersTakeAll | pss_tcp_client/ThreadQueue.h:32-36 | the wait loop sleeps on exactly while every wake-up finds the queue emptied again |
| MessageQueue.PopIsRun | pss_tcp_client/ThreadQueue.h:28-42 | whatever others do in the naps of a blocking pop, the step machine has a run in which the thread takes the same element or sleeps likewise |
| LogicTask.RunsAPrefixOfThePuts | pss_tcp_client/tms.hpp:60-80 | in every interleaving the messages run are the first messages put, in order |
| LogicTask.AtMostOneLateMessage | pss_tcp_client/tms.hpp:48-58 | once the flag is clear at most one more message is started |
| LogicTask.NotStuckAfterClose | pss_tcp_client/tms.hpp:48-58 | after a close the loop cannot stay asleep: it has been woken and will find a message |
| LogicTask.CloseEndsTheLoop | pss_tcp_client/tms.hpp:60-80 | after a close the loop ends within four of its own steps whatever else happens, so the join returns |
| LogicTask.SpuriousWakeIsHarmless | pss_tcp_client/ThreadQueue.h:31-36 | woken spuriously to an empty queue the loop goes back to sleep, and nothing has changed |
| LogicTask.CLogicTask.Svc | pss_tcp_client/tms.hpp:60-80 | the loop on the object, whatever others put while it sleeps or runs a message and whenever they clear the flag, takes the course of its turns |
| LogicTask.CourseConserves | pss_tcp_client/tms.hpp:60-80 | on that course what was queued and put is what was run, in order, the close message it ended on, and what is left; no message is run after the turn in which the flag is cleared |
| LogicTask.CourseIsRun | pss_tcp_client/tms.hpp:60-80 | every such course, with close messages put by closers only, is a run of the step machine |
| LogicTask.CLogicTask.Close | pss_tcp_client/tms.hpp:48-58 | clears the flag and puts the close message |
| TimerTheorems.PopsTheTimerMeasured | pss_tcp_client/TimerManager.hpp:219-244 | the timer popped and run is the one measured, and no pending timer is due before it |
| TimerTheorems.QueuedKeysAreFixed | pss_tcp_client/TimerManager.hpp:318-329 | no step changes the key of a queued timer |
| TimerTheorems.NeverStuck | pss_tcp_client/TimerManager.hpp:197-281 | in every interleaving the scheduler has a move that gets it on exactly when it has begun, has not ended and does not sleep in a wait that nothing has ended; a spurious wake-up ends a sleep |
| TimerTheorems.LoopStartsAnew | pss_tcp_client/TimerManager.hpp:108-116 | when a loop timer's call is over it goes back into the queue, due an interval from then |
| TimerTheorems.ExitsOnlyIfTold | pss_tcp_client/TimerManager.hpp:206-281 | the loop ends only after a close, with the flag clear |
| TimerTheorems.DelayCountsOnce | pss_tcp_client/TimerManager.hpp:71-77 | a timer measured has no delay left from then on; the first time it is waited for exactly as long as its key and delay together are ahead |
| TimerTheorems.DelayIsKeptAsleep | pss_tcp_client/TimerManager.hpp:223-231 | while nobody adds, closes or wakes the scheduler spuriously, no callback starts before the delay waited for is over |
| TimerTheorems.AdditionLosesDelayIff | pss_tcp_client/TimerManager.hpp:223-231 | woken by an addition, the scheduler turns to the timer it waited for, before its delay is over, if and only if that timer is still on top and its interval is over |
| TimerTheorems.DelayCanBeLost | pss_tcp_client/TimerManager.hpp:223-231 | for every interval and delay a run from the start in which a loop timer fires when its interval is over, its delay not |
| TimerTheorems.EveryTimerHasAFate | pss_tcp_client/TimerManager.hpp:178-260 | every timer added is queued once, being run, or over; a one-shot timer has fired exactly once or lost its claim to a cancel, a loop timer is over only without callback |
| TimerTheorems.NeverEarly | pss_tcp_client/TimerManager.hpp:71-77 | no firing before start plus interval unless its wait ended spuriously; firings of a loop timer are an interval apart |
| TimerTheorems.NeverEarlyWithoutSpuriousWakes | pss_tcp_client/TimerManager.hpp:223-257 | with waits that end on notification or timeout no timer is ever early, whatever additions wake the scheduler |
| TimerTheorems.SpuriousWakeIsEarlyIff | pss_tcp_client/TimerManager.hpp:224-244 | a spurious end of the timed wait can lead to an early firing if and only if no addition is on record, the scheduler goes on, the timer has the right to run and its key is still to come |
| TimerTheorems.EarlyFiringIsPossible | pss_tcp_client/TimerManager.hpp:224-244 | for every positive interval a run from the start in which a timer of that interval fires when it is made |
| TimerTheorems.SpentNeverFires | pss_tcp_client/TimerManager.hpp:92-116 | a timer without callback, or a one-shot timer claimed, never starts a callback again |
| TimerTheorems.CancelIsFinal | pss_tcp_client/TimerManager.hpp:79-84 | after a cancel that wins the claim no callback starts; a one-shot timer has then never fired |
| TimerTheorems.CancelledLoopIsDropped | pss_tcp_client/TimerManager.hpp:79-84 | however a run goes on after a loop timer is cancelled it starts no more, and once off the queue, at the latest at its next turn, it is never queued again |
| TimerTheorems.OffQueueForGood | pss_tcp_client/TimerManager.hpp:246-251 | a timer off the queue that is not to be pushed back stays off |
| TimerTheorems.NothingFiresAfterClose | pss_tcp_client/TimerManager.hpp:188-195 | once a close has taken effect no callback starts and the scheduler stays told to stop |
| TimerTheorems.ExitsAfterClose | pss_tcp_client/TimerManager.hpp:197-281 | once a close has taken effect no call of timer_run starts, and the loop has exited when the scheduler has taken three moves awake, whatever else happens |
| TimerTheorems.CloseIsPromptUnlessEntering | pss_tcp_client/TimerManager.hpp:201-211 | with no time passing the scheduler can come to its exit after a close if and only if it was not about to wait on an empty queue |
| TimerTheorems.LateCloseTakesEffectOnTimeout | pss_tcp_client/TimerManager.hpp:201-211 | in that case it takes effect when the default wait is over |
| TimerTheorems.LateCloseWakesNobody | pss_tcp_client/TimerManager.hpp:201-211 | and until then the scheduler stays asleep |
| TimerTheorems.LateCloseIsPossible | pss_tcp_client/TimerManager.hpp:201-211 | a run from the start leads to such a close, and to a sleep of 300 seconds |
| TimerTheorems.CloseIsLostIffNotBegun | pss_tcp_client/TimerManager.hpp:262-266 | after a close the manager can be running again if and only if schedule has not begun |
| TimerTheorems.NoAdditionGoesUnheard | pss_tcp_client/TimerManager.hpp:178-186 | when additions hold mtx, the scheduler asleep un-notified waits on an empty queue or for the top timer, which no queued timer is due before |
| TimerProgress.ForemostIsRun | pss_tcp_client/TimerManager.hpp:197-260 | an overdue timer with the right to run, due before all others, is run once the scheduler has taken the moves left, at most fourteen, that get it anywhere, whatever else happens but a close, its cancel or an earlier addition, and even if its initial delay is still to be counted |
| TimerManager.TimerMgr.Add | pss_tcp_client/TimerManager.hpp:178-186 | adding to the object is the step of the machine, wherever the scheduler stands |
| TimerManager.TimerMgr.Close | pss_tcp_client/TimerManager.hpp:188-195 | closing the object is the step of the machine, wherever the scheduler stands |
| TimerManager.TimerMgr.Cancel | pss_tcp_client/TimerManager.hpp:79-84 | cancelling a timer of the object is the step of the machine, wherever the scheduler stands |
| TimerManager.TimerMgr.WaitFor | pss_tcp_client/TimerManager.hpp:204-224 | a wait takes in what others do, in order, up to the act that ends it by notifying or by its timeout, or all of it and then time up to the deadline; and it is a run of the machine |
| TimerManager.TimerMgr.Call | pss_tcp_client/TimerManager.hpp:92-116 | running a timer on the object is a run of the machine |
| TimerManager.TimerMgr.TimerRun | pss_tcp_client/TimerManager.hpp:197-260 | one call on the object is a run of the machine within one call, that ends in the loop test or the exit; it waits first exactly on an empty queue, again exactly if the top has time left, and what others do in those waits happens in it, in order, and nothing else |
| TimerManager.TimerMgr.RunSchedule | pss_tcp_client/TimerManager.hpp:262-281 | the scheduler loop on the object is a run of the machine that calls timer_run once for each round unless it ends before, and each call goes with the acts of its round |
| TimerRaces.NeverEarlyUnlessCut | pss_tcp_client/TimerManager.hpp:133-176 | with additions in three steps too, no timer fires before start plus interval unless its wait was cut short with no addition on record; firings of a loop timer are an interval apart |
| TimerRaces.CutWaitIsEarlyIff | pss_tcp_client/TimerManager.hpp:223-244 | a wait ended by a notification or spuriously can lead to an early firing if and only if no addition is on record, the scheduler goes on, the timer has the right to run and its key is still to come |
| TimerRaces.EarlyWithoutSpuriousWakes | pss_tcp_client/TimerManager.hpp:147-152 | a run without spurious wake-ups in which a loop timer fires early, for every loop timer due when it is pushed |
| TimerRaces.OneShotFiresOnce | pss_tcp_client/TimerManager.hpp:92-106 | in every such interleaving a one-shot timer has fired once if its turn found its callback, and not otherwise |
| TimerRaces.SpentNeverFires | pss_tcp_client/TimerManager.hpp:92-116 | in every such interleaving a timer without the right to run never starts again |
| TimerRaces.CancelIsFinal | pss_tcp_client/TimerManager.hpp:79-84 | and a cancel that wins the claim is final |
| TimerRaces.NothingLostWhileIntact | pss_tcp_client/TimerManager.hpp:219-253 | as long as every timer popped was the timer run, every timer is queued once, being run, or over with its claim or callback used up |
| TimerRaces.WrongPopIff | pss_tcp_client/TimerManager.hpp:219-244 | the next timer popped is not the one run if and only if a timer with a smaller key was pushed since the scheduler looked at the top |
| TimerRaces.WrongPopLosesTimer | pss_tcp_client/TimerManager.hpp:241-253 | the timer popped in place of another is never queued and never fires again |
| TimerRaces.TimerCanBeLost | pss_tcp_client/TimerManager.hpp:168-174 | a run from the start that loses a timer, for any two timers of which the second is due before the first |
| TimerRaceTheorems.AdditionUnheardIff | pss_tcp_client/TimerManager.hpp:201-224 | in every interleaving, asleep un-notified on a queue found empty or on a timer measured, the scheduler has slept through a complete addition if and only if that addition notified between the look at the queue and the sleep |
| TimerRaceTheorems.SleepsBeyondIff | pss_tcp_client/TimerManager.hpp:219-224 | while nothing is lost, a timer due before the one waited for is fully added, though the scheduler sleeps un-notified, if and only if its notification was so missed |
| TimerRaces.AdditionCanGoUnheard | pss_tcp_client/TimerManager.hpp:201-204 | a run from the start after which an addition is complete and the scheduler sleeps through it for the default wait |
| TimerRaceTheorems.EarlierTimerCanGoUnheard | pss_tcp_client/TimerManager.hpp:222-224 | a run from the start after which an earlier timer is fully added and the scheduler sleeps through it until the one it measured is due, for any two such timers |
| TimerRaceTheorems.NothingFiresAfterClose | pss_tcp_client/TimerManager.hpp:188-195 | with additions in three steps too, after a close no callback starts, the scheduler stays told to stop, and four moves awake bring it to its exit |
| TimerRaceTheorems.CancelledLoopIsDropped | pss_tcp_client/TimerManager.hpp:246-251 | with additions in three steps too, a cancelled loop timer starts no more and once off the queue is never queued again; while nothing is lost its next turn takes it off |
| TimerRaceTheorems.NeverStuck | pss_tcp_client/TimerManager.hpp:197-281 | with additions in three steps too, and even after timers got lost, the scheduler has a move exactly where it does not sleep, and a spurious wake-up ends a sleep |
| TimerRaceTheorems.IdleWaitLasts | pss_tcp_client/TimerManager.hpp:201-204 | on an empty queue the scheduler sleeps for 300 seconds from when it gives up mtx, unless notified or woken, and no longer |
| TimerRaceTheorems.ExitsOnlyIfTold | pss_tcp_client/TimerManager.hpp:206-281 | with additions in three steps too, the loop ends only after a close, with the flag clear |
| Tms.DelayedMessageIsPutOnce | pss_tcp_client/tms.hpp:202-231 | in every interleaving, with the three steps of an addition apart, a delayed message is put at most once, exactly when its timer's turn came before any cancel, and to its own logic thread |
| Tms.AddedOnceAsAsked | pss_tcp_client/tms.hpp:202-231 | in every run after a delayed message is added: it is for its logic thread, its timer is a one-shot timer of its interval without delay, and it is put at most once |
| Tms.AddedLoopAsAsked | pss_tcp_client/tms.hpp:234-262 | in every run after a repeated message is added: it is for its logic thread, and its timer is a loop timer of its interval that starts with its delay |
| Tms.AddedIsNotEarly | pss_tcp_client/tms.hpp:202-262 | every callback of a message is due its interval or more after its adding began, and starts no earlier unless its wait was cut short |
| Tms.AdditionGoesOn | pss_tcp_client/tms.hpp:212-228 | in every run an addition under way can go on where it stands, unless the scheduler holds the queue, and an index is on record only when it is complete |
| Tms.CallbackPuts | pss_tcp_client/tms.hpp:216-222 | a callback puts its message, to its thread, and a delayed message then forgets its index |
| Tms.SchedulerActsFreely | pss_tcp_client/tms.hpp:202-292 | the scheduler, time and closers do in the timer system whatever they do in the machine of the scheduler |
| Tms.ClosedTimerPutsNoMore | pss_tcp_client/tms.hpp:265-292 | closing a timer when its adding is over and its claim still free is final, even if the timer has been lost: a delayed message is never put, a repeated one only if its callback was already running |
| Tms.ClosedTimerIsForgotten | pss_tcp_client/tms.hpp:265-292 | closing a timer that still exists gives its index up for good, and closing it again does nothing |
| Tms.TurnKeepsTimer | pss_tcp_client/tms.hpp:270-280 | a timer whose turn is over can still be closed until the scheduler returns from timer_run |
| Tms.IndexIsLeakedIff | pss_tcp_client/tms.hpp:216-292 | an index once recorded stays on record in every continuation, whoever closes it, if and only if its timer is over when it is recorded |
| Tms.IndexCanBeLeaked | pss_tcp_client/tms.hpp:216-227 | for every delayed message a run from the start in which it is put, when due, before its index is recorded |
| Tms.PutsAreFirings | pss_tcp_client/tms.hpp:216-252 | messages are put as often as their timers fire, but for one about to be put |
| Tms.NothingPutAfterClose | pss_tcp_client/tms.hpp:202-252 | once a close of the scheduler has taken effect no delayed or repeated message is put any more |
| Tms.IndicesAreUnique | pss_tcp_client/tms.hpp:202-262 | an index returned for a delayed or repeated message is new to timers, records and puts; an unknown logic thread yields -1 and changes nothing |

## Left out

- Index types narrower than `int`, which C++ promotes before comparing: the index is an n-bit type that is not promoted, as the default `size_t`.
- Memory orders weaker than sequential consistency, the `fake_tso` variant, padding, the constructor with a dummy argument, and `producerClear`, to which the source gives weaker semantics.
- Unchecked `operator[]` of the ring buffer and changing elements in place through `peek` and `at`. The overloads of `insert` and `remove` that differ only in taking a pointer or a reference share one model.
- SpscProtocol: a callback passed to the ring buffer does no operation of its own side; the other side moves freely during it.
- BufferCopy: counts of copied bytes are unbounded numbers; they stay in range because separate targets fit one address space. Source and target must not overlap, as the source demands.
- BuffersIterator.Iterator.Advance: distances that leave the range are excluded by `requires`, as the source asserts; positions are unbounded numbers.
- StreamBuf: the narrowing to `int` in `pbump` and `gbump`, and pointer arithmetic past the end of the address space. Growth of the vector's capacity is any growth that suffices.
- The dynamic string and vector buffers, which repeat the byte queue in an easier form.
- TimerScheduler, TimerManager: additions by the overload that holds `mtx` throughout; those of the template overloads are in TimerRaces. Timers are added once each.
- TimerRaces: tests of the queue and of the wake-up state while another thread changes them are taken to be atomic. A timer comes on top of the queue only with a smaller key than the top has, as pushing on a binary heap does it; after a timer has been lost the queue may be in any order. Its results are not carried over to the object of TimerManager.
- TimerManager: timers are values named by an identity, so that sharing a timer object between threads is sharing its identity. Others act during the waits of the object; acts at any other point are in TimerScheduler. `RunSchedule` is given the rounds it makes.
- TimerProgress.ForemostIsRun: a timer due at the very instant, and ties in the order of the queue.
- `TimerMgr::clear`, `nearLeftTime`, callbacks that re-enter the manager, and a cancel between the null check and the call of a loop callback.
- Tms: the fields of the timer system are fields of a state value, changed by the steps of its threads. Closing a logic thread with timers pending, and what `Close_Timer` returns.
- LogicTask.CLogicTask: starting and joining the thread; the queue is popped by no other thread, and turns are as many as are given.
- Sockets, serial ports, thread identifiers, time stamps, singletons, library entry points and the packet interface.
