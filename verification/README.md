# Verified model of the IPC benchmarks

The repository measures how fast two threads or processes can signal each other. Its measurements
are only worth something when the signalling works, and that rests on a lock-free ring buffer and on
several small shared-memory and interrupt protocols without locks. This project models that code and
proves what it guarantees, for every input and every interleaving of the modelled steps, under the
assumptions below; where the code does not meet an expectation, the exact condition is proved.

`dafny verify dfyconfig.toml` verifies everything (Dafny 4.11).

## What is modelled

- `Words`, `PowersOfTwo`: C's unsigned arithmetic, its bit operators and the power-of-two helpers of
  the ring buffer, on natural numbers with the 32-bit wrap written out.
- `Ring`, `RingQueue`: where the bytes of a fifo live, and which queue a pair of free-running 32-bit
  indices and a buffer represent.
- `Kfifo`: the ring buffer of `source/common/kfifo.h` as a class over a byte array, with the two
  `memcpy` calls of each copy. Its ghost streams hold everything ever put in and taken out.
- `Spsc`: the same ring buffer shared by one producer and one consumer. Index loads, single bytes
  and index stores are separate steps.
- `Timestamps`, `UintrPro`: the interrupt channel of `source/uintr-pro`, built on `Spsc`.
- `Eventfd`, `PingPong`, `OneWay`, `Handshake`: the eventfd token exchange, the two-way and one-way
  user-interrupt benchmarks, and the guard byte of the shared-memory and memory-mapped-file
  benchmarks.
- `Benchmarks`: the accumulator of `source/common/benchmarks.c`, as a class and as a fold.
- `ForkJoin`: the recursive fork-join sum.

Each concurrent program is a function `Step(state, action)` that returns the next state, or `None`
when the action is not enabled; an action is one atomic access to shared state. `Runs` turns such a
function into runs: a schedule is a sequence of actions, and a theorem about all schedules is a
theorem about all interleavings. Some fields of the states are histories (values sent, values
received); no step depends on them, and the main theorems equate them with what the schedule itself
says: the clock readings in it, in order, and how often each thing was done.

## Assumptions

- Steps take effect in one sequence that all threads agree on. The code asks for this with
  `__sync_synchronize` after each copy (`source/common/kfifo.h:143`, `:179`) and with C11 atomics for
  the guard byte.
- A turn of a wait loop that changes nothing is not a step, except in `UintrPro`, where it is one that
  the progress theorems leave out.
- `now()` returns an arbitrary value at each call.
- The client of `source/uintr-pro` rewrites the shared `fifo->data` pointer with its own address of
  the same buffer (`source/uintr-pro/client.c:53`); the model has one buffer. The file shows no
  registration of `ui_handler`; the model assumes that a posted interrupt runs it, and never twice
  at once.
- User interrupts behave as the hardware defines them: posting sets a pending bit; delivery clears
  it, needs interrupts to be enabled, and does not happen inside the handler.
- `uintr_create_fd` returns a descriptor other than 0, so that the set-up loops of
  `source/uintrfd/uintrfd-bi.c` see it.

## Findings

Five expectations that a reader may have of the code do not hold in full; each has its exact
condition proved.

- `source/common/kfifo.h:104-123`: `__kfifo_init` succeeds for every element count from 2 to 2^31,
  but the rounded-up capacity fits the caller's buffer if and only if the element count is a power
  of two (`Kfifo.Kfifo.Init`). With three single bytes it succeeds with a capacity of four
  (`Kfifo.InitThreeBytes`). The one caller, `source/uintr-pro/server.c:166`, passes 4096 single bytes
  (`UintrPro.SharedFifo`).
- `source/shm/client.c:85-95`, `source/mmap/client.c:86-96`: in the guard-byte handshake the k-th read
  is the k-th timestamp, taken on the k-th request, in every run if and only if the guard does not
  start as `'s'` (`Handshake.GuardDecidesPairing`). A left-over `'s'` can make the client skip the
  first timestamp. Reads are whole and in order in any case.
- `source/eventfd/eventfd-bi.c:18-43`: the eventfd exchange can always be completed, but it is forced
  to end if and only if there are no rounds at all (`Eventfd.ForcedOnlyWithoutRounds`): a side may
  read a token back that it has just put there, any number of times. Nothing else delays it: a run
  is no longer than 10 * count + 21 steps and two for each write-back (`Eventfd.OnlyWriteBacksDelay`).
- `source/uintrfd/uintrfd-uni.c:70-72`: with a negative count the main thread of the one-way benchmark
  never evaluates, because `count` is converted to unsigned in the comparison; with any other count
  it always does (`OneWay.AllRunsFinish`).
- `source/other/pthread-test.c:98-104`: the final sum does not depend on the schedule, but whether an
  int overflows on the way may. No schedule leaves the range of an int if and only if the largest
  swing of the range, a number computed from the array alone, stays inside in both directions
  (`ForkJoin.WidthSuffices`); the program's own array is safe (`ForkJoin.RecursiveAdd`).

## Model

| member | source | states |
|---|---|---|
| Words.OperatorsAreModular | source/common/kfifo.h:69-96 | the 32-bit sum, difference and product of the model are C's, modulo 2^32 |
| Words.LongOperatorsAreModular | source/common/benchmarks.c:32-44 | and the 64-bit sum and difference are C's, modulo 2^64 |
| Words.Bitwise | source/common/kfifo.h:60-64 | `&` and `\|` of the model act bit by bit, at every bit position |
| Words.ShiftsBits | source/common/kfifo.h:60-64 | a right shift by k moves bit k + i to bit i |
| PowersOfTwo.IsPowerOf2Exact | source/common/kfifo.h:99-101 | the bit trick answers yes for exactly 0 and the powers of two |
| PowersOfTwo.RoundupPowOfTwo | source/common/kfifo.h:58-67 | bit smearing gives the least power of two that is at least the argument, below its double, for 1 to 2^31, and 0 for every other argument |
| PowersOfTwo.SmearFills | source/common/kfifo.h:60-64 | the five shift-and-or lines set exactly the bits below the bit length |
| PowersOfTwo.RoundedFits | source/common/kfifo.h:107-109 | a capacity rounded up from size / esize elements stays within size bytes if and only if the element count is a power of two |
| Ring.SlotOfCount | source/common/kfifo.h:132 | masking a wrapped 32-bit index gives its unbounded count modulo the capacity |
| Ring.SizesInWord | source/common/kfifo.h:129-137 | none of the 32-bit products of a copy wraps when the whole buffer is below 2^32 bytes and the copy is at most the capacity |
| Ring.AddrOfElement | source/common/kfifo.h:132-141 | byte j of element i of a copy from index off lands at byte j of slot (off + i) & mask, for every off |
| Ring.PosAhead | source/common/kfifo.h:126-144 | seen from a writer u elements ahead, queued bytes come after all the free ones |
| RingQueue.TwoSegmentsIn | source/common/kfifo.h:138-141 | the two memcpy calls into the buffer make up the modular copy |
| RingQueue.TwoSegmentsOut | source/common/kfifo.h:175-177 | the two memcpy calls out of the buffer make up the modular copy |
| RingQueue.CopiedInBySlot | source/common/kfifo.h:126-144 | for each slot: it receives the element whose index masks to it when that is among the len copied, and otherwise stays as it was |
| RingQueue.CopiedOutBySlot | source/common/kfifo.h:162-180 | element i of a copy out is the content of slot (off + i) & mask |
| RingQueue.Counted | source/common/kfifo.h:69-71 | in - out as unsigned int is the number of queued elements, however often either index has wrapped |
| RingQueue.InKeeps | source/common/kfifo.h:147-160 | copying n elements in and advancing `in` appends them to the represented queue and to the stream, disturbing nothing queued |
| RingQueue.OutKeeps | source/common/kfifo.h:196-202 | advancing `out` by n removes exactly the first n elements and adds them to the released stream |
| RingQueue.StreamInSlots | source/common/kfifo.h:147-202 | element a of the unbounded input stream sits in slot (a mod 2^32) & mask until it is taken out |
| Kfifo.MemCpy | source/common/kfifo.h:140-141 | n bytes of the destination are replaced and no others |
| Kfifo.Kfifo.Len | source/common/kfifo.h:69-71 | the length of the represented queue in elements, never above the capacity |
| Kfifo.Kfifo.Capacity | source/common/kfifo.h:74-76 | the number of elements that fill the buffer |
| Kfifo.Kfifo.Avail | source/common/kfifo.h:79-81 | used plus available is always the capacity |
| Kfifo.Kfifo.IsFull | source/common/kfifo.h:83-85 | full if and only if nothing is available, if and only if the queue fills the buffer |
| Kfifo.Kfifo.IsEmpty | source/common/kfifo.h:87-89 | empty if and only if the represented queue is empty |
| Kfifo.Kfifo.Unused | source/common/kfifo.h:93-96 | the same number as kfifo_avail |
| Kfifo.Kfifo.Init | source/common/kfifo.h:104-123 | success for exactly 2 to 2^31 elements; then the mask is one less than the least power of two, the queue is empty, and the capacity fits the buffer if and only if the element count is a power of two; on failure the mask is 0 |
| Kfifo.InitThreeBytes | source/common/kfifo.h:104-123 | a failing input: three single bytes give a capacity of four in a buffer of three |
| Kfifo.Kfifo.Extent | source/common/kfifo.h:129-138 | the 32-bit start, size and first-segment length of a copy are the true ones |
| Kfifo.Kfifo.CopyIn | source/common/kfifo.h:126-144 | the buffer becomes the modular copy of the source, everything else unchanged |
| Kfifo.Kfifo.CopyOut | source/common/kfifo.h:162-180 | the front of the destination becomes the addressed elements in order, the rest unchanged |
| Kfifo.Kfifo.In | source/common/kfifo.h:147-160 | accepts exactly min(len, free) elements and appends that prefix of the argument to the queue and to the stream of everything put in |
| Kfifo.Kfifo.OutPeek | source/common/kfifo.h:183-193 | copies exactly the first min(len, used) elements and leaves the fifo unchanged |
| Kfifo.Kfifo.Out | source/common/kfifo.h:196-202 | returns exactly the first min(len, used) elements and removes them; everything released so far stays a prefix of everything put in |
| Kfifo.Kfifo.RoundTrip | source/common/kfifo.h:147-202 | in followed by out of everything yields the old contents and then the accepted prefix, and an empty fifo |
| Spsc.PLoadOutKeeps | source/common/kfifo.h:152-156 | the load of the out index, however stale the in index, fixes the number accepted to min(len, free), free counted at that load |
| Spsc.CLoadOutKeeps | source/common/kfifo.h:188-190 | the number taken is min(len, used), used counted when the in index was loaded |
| Spsc.AllCopied | source/common/kfifo.h:140-143 | bytes copied one by one in any order, with the other thread running in between, add up to the whole copy at the index store |
| Spsc.StepKeeps | source/common/kfifo.h:147-202 | every load, byte and store of either thread keeps the invariant |
| Spsc.Refines | source/common/kfifo.h:147-202 | the shared buffer refines a queue: only the index stores change it, the producer's appends the accepted elements, the consumer's removes exactly what it has received |
| Spsc.SafeRuns | source/common/kfifo.h:147-202 | in every interleaving, everything released is a prefix of everything published, no unreleased element is overwritten, no byte is read that may be written, and no address leaves the buffer |
| Spsc.InContract | source/common/kfifo.h:147-160 | a call of __kfifo_in(src, len) in any state, whatever the consumer does until its end, accepts at least min(len, the elements free at the call) and at most len, and appends exactly those, from the front of src, to the published stream |
| Spsc.OutContract | source/common/kfifo.h:183-202 | a call of __kfifo_out(dst, len), whatever the producer does until its end, takes at least min(len, the elements queued at the call) and at most len; dst then holds the next ones of the stream and past them what it held before; exactly those are released |
| Spsc.ProducerIsWaitFree | source/common/kfifo.h:147-160 | from every reachable state, __kfifo_in can always move, any byte next, and returns after at most Size(len) + 3 steps of its own, whatever the consumer does; then any further call can be made |
| Spsc.ConsumerIsWaitFree | source/common/kfifo.h:183-202 | the same of __kfifo_out and __kfifo_out_peek |
| Timestamps.BytesOfTimestamp | source/uintr-pro/server.c:103-106 | byte i of a timestamp in memory is its i-th digit to the base 256 |
| Timestamps.RoundTrip | source/uintr-pro/server.c:103-106 | eight bytes and a 64-bit timestamp determine each other |
| UintrPro.SharedFifo | source/uintr-pro/server.c:166 | the 4096/1 call yields a valid empty fifo with mask 4095 whose buffer holds it |
| UintrPro.StepKeeps | source/uintr-pro/server.c:102-114 | every step of server, client and interrupt delivery keeps the channel's invariant |
| UintrPro.MailboxInRuns | source/uintr-pro/client.c:48-56 | in every run the k-th drain has stored in bench.single_start exactly the k-th clock reading that the schedule gave the server, and at most one is on its way: none lost, repeated, reordered, torn or altered; nothing is drained before the client enables interrupts |
| UintrPro.CoalescingIsHarmless | source/uintr-pro/server.c:89-93 | whenever the server sends, no interrupt is pending; whenever the handler evaluates kfifo_len it is 8, the size of its destination, and 8 bytes are drained |
| UintrPro.RecordsAreContiguous | source/uintr-pro/server.c:106 | both indices stay multiples of 8, every copy has 8 bytes, and the first memcpy moves all of them, so that the second always has length 0, counter wrap included |
| UintrPro.Delivers | source/uintr-pro/server.c:102-114 | no run gets stuck: every reachable state has a continuation, without spinning, that delivers the latest timestamp and ends the spin |
| UintrPro.WorkIsBounded | source/uintr-pro/server.c:102-114 | whatever the choices, a round has at most 29 steps after its timestamp other than turns of the spin loop |
| Eventfd.TokenConservation | source/eventfd/eventfd-bi.c:12-66 | in every run exactly one token, a 1 or a 2, exists until the client is through: in the counter, or next to be written by one side; so the counter is 0 whenever a write is next, it is at most 2, and 2 only when the server has answered; writes never wait for room; rounds differ by at most 1 |
| Eventfd.RoundsAreExchanges | source/eventfd/eventfd-bi.c:45-66 | in every run the client's rounds are the requests it has written, but for one that is open, and the server's are the answers it has written |
| Eventfd.WriteBackRestores | source/eventfd/eventfd-bi.c:28-41 | reading a token meant for the other side and writing it back restores the state |
| Eventfd.Completes | source/eventfd/eventfd-bi.c:45-66 | from every reachable state a continuation linear in the rounds left ends both sides with `count` rounds and the counter 0 |
| Eventfd.CanSpinForEver | source/eventfd/eventfd-bi.c:18-43 | for every positive count and every n there is a run with n fruitless turns of the wait loop |
| Eventfd.ForcedOnlyWithoutRounds | source/eventfd/eventfd-bi.c:45-66 | the length of runs is bounded if and only if there are no rounds |
| Eventfd.OnlyWriteBacksDelay | source/eventfd/eventfd-bi.c:28-41 | every run has at most 10 * count + 21 steps and two for each write-back, and one that cannot be continued has ended on both sides |
| PingPong.StepKeeps | source/uintrfd/uintrfd-bi.c:37-135 | every step of the threads, their handlers and the hardware keeps the single-notification invariant |
| PingPong.NoNotificationLost | source/uintrfd/uintrfd-bi.c:62-72 | in every run at most one notification is pending, in a handler or flagged; the store of 0 erases only the one the spin has seen; sends use registered indices and never merge; before `_stui` a notification stays pending |
| PingPong.NotificationsBalance | source/uintrfd/uintrfd-bi.c:106-135 | in every run the notifications sent to a side are those it has cleared and those it has not seen yet, and the rounds of each side are one notification each way |
| PingPong.HandlerSuspends | source/uintrfd/uintrfd-bi.c:37-44 | a thread stands still while its handler runs |
| PingPong.NeverStuck | source/uintrfd/uintrfd-bi.c:74-135 | set-up and exchange cannot deadlock |
| PingPong.AllRunsFinish | source/uintrfd/uintrfd-bi.c:106-135 | every schedule is finite, at most 16 * count + 17 steps, and one that cannot be continued has both threads through `count` rounds with all flags and pending bits clear |
| OneWay.StepKeeps | source/uintrfd/uintrfd-uni.c:35-79 | every step of the sender, the handler and the main thread keeps the invariant |
| OneWay.RunsAreRaceFree | source/uintrfd/uintrfd-uni.c:35-79 | in every run sample k is the k-th clock reading of the handler minus the k-th of the sender, modulo 2^64, both as the schedule gave them; every handler run comes after its own send; uintr_count, samples and handler runs never pass the sends, which never pass `count`; evaluation starts only when all is quiet, over the fold of exactly `count` samples |
| OneWay.UnsignedIsModular | source/uintrfd/uintrfd-uni.c:72 | the count in the comparison is `count` modulo 2^32 |
| OneWay.AllRunsFinish | source/uintrfd/uintrfd-uni.c:45-79 | every schedule is finite and ends with `count` samples; the main thread then evaluates if and only if the count is not negative |
| Benchmarks.FoldIsSummary | source/common/benchmarks.c:23-41 | the minimum is the least sample if some sample is below 2147483647, and that number otherwise; the maximum is the greatest sample, or 0 if there is none |
| Benchmarks.FoldCounts | source/common/benchmarks.c:43 | the count is the number of samples modulo 2^32, and exactly that up to INT32_MAX samples |
| Benchmarks.FoldSums | source/common/benchmarks.c:42 | the accumulated sum is that of the samples modulo 2^64 |
| Benchmarks.Benchmarks.Setup | source/common/benchmarks.c:23-30 | no samples yet: minimum 2147483647, everything else 0, total_start the clock's reading |
| Benchmarks.Benchmarks.Benchmark | source/common/benchmarks.c:32-44 | the time since single_start is one more sample of the fold |
| Handshake.StepKeeps | source/shm/server.c:45-62 | every guard access and every payload byte keeps the invariant |
| Handshake.ExclusiveInRuns | source/shm/client.c:22-41 | from any initial guard and payload, the client copies only while the server waits, each value read is one complete reading of the server's clock as the schedule gave it, left in bench.single_start, and values come in order with at most the first skipped |
| Handshake.PairedInRuns | source/mmap/client.c:86-96 | when the guard does not start as 's', the k-th read is the k-th clock reading of the schedule, and that was taken after the k-th notification of the schedule and before the next |
| Handshake.GuardDecidesPairing | source/shm/client.c:85-95 | that pairing holds in all runs if and only if the guard does not start as 's' |
| Handshake.Delivers | source/mmap/server.c:49-58 | a waiting client can always be served within 30 steps, whatever the clock reads |
| Handshake.WaitIsBounded | source/mmap/client.c:23-41 | in every run fewer than 30 steps can be made between a notification and the value it asks for, and there is always one to make, any byte next |
| ForkJoin.StepKeeps | source/other/pthread-test.c:98-118 | every step of every thread keeps mutual exclusion, conserves the sum plus what is left to add, and lowers the rank |
| ForkJoin.Conservation | source/other/pthread-test.c:98-118 | in every interleaving the sum plus the elements not yet added is constant, each index is added once or still to be added, and at most one thread is in the critical section |
| ForkJoin.SumIsScheduleIndependent | source/other/pthread-test.c:98-118 | every schedule is finite, at most 9 steps an element, and ends with the root returned, the sum grown by exactly the slice, each index added exactly once and the mutex free |
| ForkJoin.WidthSuffices | source/other/pthread-test.c:98-104 | for any array, range and width: no schedule moves the sum or a value about to be stored out of the width if and only if the two swings of the range stay inside |
| ForkJoin.NoScheduleOverflows | source/other/pthread-test.c:98-104 | without negative elements the sum and every stored value stay between the first and the final sum, and no store lowers the sum |
| ForkJoin.RecursiveAdd | source/other/pthread-test.c:120-123 | the program's own sum goes from 0 to 55 in every schedule and never leaves that range |

## Left out

- Sockets, pipes, FIFOs, message queues, ZeroMQ, TCP and domain sockets: kernel I/O plumbing.
- `source/shm-sync`: `sync_wait` keeps its mutex locked and `sync_notify` carries no predicate, so no
  useful property of runs holds.
- `source/signal` and the signal handshakes of `source/common/signals.c`: their semantics are the
  operating system's.
- `interleaved_add` and `parallel_add` of `source/other/pthread-test.c`: the broadcast of the first
  may precede the wait, and the second only adds an easier case of the recursive sum.
- `print_kfifo`, the message that `__kfifo_in` prints when space is short, `evaluate`, argument
  parsing, launching of processes.
- The 100 ms loops of the clients: a client that stops is a schedule that ends.
- Weak memory orders, virtual addresses, and the passing of descriptors in `source/uintr-pro`.
- A fifo whose rounded-up capacity exceeds its buffer, or whose buffer has 2^32 bytes or more: its
  copies are undefined behaviour or wrap. `Kfifo.Kfifo.Init` says exactly when the buffer is large
  enough.
- ForkJoin.SumIsScheduleIndependent: speaks of unbounded integers; `sum` is an int, whose overflow is
  undefined. `ForkJoin.WidthSuffices` says exactly for which arrays that makes no difference.
- Benchmarks.Benchmarks.Benchmark: the count wraps at the end of the int range, where C leaves it
  undefined. `Benchmarks.FoldCounts` says that this is past 2^31 - 1 samples; `OneWay.RunsAreRaceFree`
  shows that the one-way benchmark does not get there.
