# etherAdapter: a verified model

etherAdapter receives device bytes over TCP, slices and decodes them on one parser thread, batches
the rows and writes them column by column into a time-series database. Between its threads runs a
vendored lock-free queue; below them an event loop with a timer queue; beside them the zlib
checksums. This project models the parts of that system that are hard to get right and proves what
they promise, over every input, every run and every interleaving.

The files, from the bottom up:

| file | what it models |
|---|---|
| Common.dfy | shared definitions; bitwise operations on numbers |
| FreeList.dfy | the reference-counted free list of blocks, any number of threads |
| DequeueTickets.dfy | the optimistic-count / overcommit dequeue protocol, single and bulk; wrapping index comparison |
| BlockQueue.dfy | one implicit producer: blocks, circular growing block index, recycling |
| ConcurrentIndex.dfy, IndexRecycling.dfy | the block index again, under interleaving of the producer with any number of consumers, and what it gives back |
| Semaphore.dfy | the lightweight semaphore with timed waits, and its pairing of tokens with queue items |
| Crc32.dfy, Adler32.dfy | the checksums: tables, four bytes at a time, deferred reduction, combination |
| DeviceModel.dfy, FieldCodec.dfy | devices, fields, integer decoding, column widths |
| StreamSlicer.dfy, FrameCodec.dfy, StreamLaws.dfy | the two resynchronising stream slicers and what they promise about streams |
| RecordCodec.dfy | an encoder for records, bit by bit, and its round trip |
| RoundTrip.dfy, ModbusRoundTrip.dfy | the languages of custom_data frames and modbus responses by the configuration rows, encoders, and the round trips |
| Pipeline.dfy, ParserWorker.dfy | row batches and the parser thread, end to end |
| ColumnWriter.dfy | row-major to column-major staging |
| Routing.dfy | the endpoint index of the configuration |
| EventLoop.dfy, TimerQueue.dfy, TimerTimes.dfy | the wake-up protocol, the timer queue, and when its timers run |

Concurrent code is a state machine whose steps are the atomic operations of the source, in a
sequentially consistent interleaving of any number of threads. Sequential code that updates objects
is a class or a method with loops, proved against a specification function. Clocks, allocator
addresses, database answers and network input are parameters. A device or an endpoint, which the
source knows by pointer, is known here by its value or by its position in a list.

## Where the code does less than its comments or callers may expect

- A timer cancelled while its own insertion is still queued is armed all the same
  (`TimerModel.CancelTakesEffect`, `TimerModel.QueuedCancelIsLost`). A cancel stops the callback
  exactly when it is not still to come in the batch being run and the insertion is not still queued
  (`TimerModel.CancelStopsCallback`).
- A functor the loop thread queues before `loop()` waits for the first poll to time out
  (`EventLoop.EarlyPostIsLost`); a `quit()` is carried out exactly when it is made inside `loop()`
  (`EventLoop.QuitTakesEffect`).
- A timed-out semaphore waiter can be kept spinning while a signal is half done
  (`Semaphore.HalfDoneSignalShutsExit`).
- `feedModbus` with an unusable header length counts one bad frame per call, so its counters depend
  on the cutting of the stream (`StreamLaws.ModbusChunkIndependence`); with a fixed frame above
  64 KiB it keeps the whole stream (`StreamLaws.ModbusPendingBounded`).
- The single-byte path of `adler32_z` may return a second sum that is not below 65521, though
  congruent, when it is given one that is not (`Adler32.Adler32Z`).
- An unsigned 64-bit field keeps its bits, not its value, in its signed column
  (`FieldCodec.NarrowingIsLossless`).
- The ip-only fallback of `matchGroup` compares only the part of a configured ip before a colon: an
  IPv6 peer on another port is overlooked, and a peer can be taken for one whose ip begins like its
  own. `Routing.FallbackAnswer` says exactly when the answer is that of a scan by equality of ips;
  `Routing.ColonPeerOverlooked` and `Routing.ColonRowMistaken` are inputs where it is not.
- `adler32_z` tests for a null buffer only after its single-byte path, so a null buffer must not come
  with length one (`Adler32.Adler32Z`).

## Model

| member | source | states |
|---|---|---|
| `FreeList.StepKeepsInv` | src/base/concurrentqueue.h:1459-1538 | every atomic step of add, try_get and add_knowing_refcount_is_zero, by any thread, keeps the invariant tying reference counts to holders, list membership and the should-be-on-list flag |
| `FreeList.RunInv` | src/base/concurrentqueue.h:1459-1538 | the invariant holds in every state of every interleaving |
| `FreeList.NoDoubleGet` | src/base/concurrentqueue.h:1473-1512 | between two hand-outs of a node there is an add of that node |
| `FreeList.NextIsStable` | src/base/concurrentqueue.h:1473-1538 | no step changes the next pointer of a node some thread holds a reference to |
| `FreeList.PopIsSound` | src/base/concurrentqueue.h:1473-1512 | when the CAS on the head can succeed, the node is the first of the list and the value installed is the rest of the list: no ABA |
| `FreeList.QuiescentNodes` | src/base/concurrentqueue.h:1459-1538 | with no call in progress every node is owned with count 0 or on the list with count 1 |
| `FreeList.NullMeansEmpty` | src/base/concurrentqueue.h:1473-1510 | in every run try_get returns nullptr only if the head it loaded during the call was null, and the list was empty at that moment |
| `FreeList.GetSucceeds` | src/base/concurrentqueue.h:1473-1510 | with every other thread idle and a list that is not empty, try_get hands out the first node, which leaves the list and is owned by the caller |
| `FreeList.AddSucceeds` | src/base/concurrentqueue.h:1459-1471 | with every other thread idle, add puts the node at the front of the list |
| `DequeueTickets.SecondCheck` | src/base/concurrentqueue.h:2561-2614 | of the tickets taken exactly those with room below the tail are granted; the rest are reported as overcommit, and a report is followed by a claim exactly when some were granted |
| `DequeueTickets.PassedFit` | src/base/concurrentqueue.h:2551-2619 | tickets that pass the second check are never more than the items enqueued |
| `DequeueTickets.StepKeepsInv` | src/base/concurrentqueue.h:2551-2619 | every step of the producer and of every consumer keeps the ticket invariant |
| `DequeueTickets.ClaimedIndexBelowTail` | src/base/concurrentqueue.h:2780-2879 | a consumer about to add to headIndex gets indices strictly below tailIndex, single and bulk |
| `DequeueTickets.FifoDelivery` | src/base/concurrentqueue.h:2551-2619 | the claims in the order of headIndex spell out a prefix of what was enqueued: each index goes to one consumer |
| `DequeueTickets.QuiescentCounters` | src/base/concurrentqueue.h:2551-2619 | with no call in progress the counters agree, and the first check succeeds exactly when the queue is not empty |
| `DequeueTickets.StepKeepsCalls` | src/base/concurrentqueue.h:2551-2619 | every step keeps what a call holds, or is about to hold, within what it asked for |
| `DequeueTickets.AtMostAsked` | src/base/concurrentqueue.h:2780-2800 | in every run a call has claimed, or is about to claim, at most the maximum of its bulk dequeue, or one element |
| `DequeueTickets.AloneTakesAll` | src/base/concurrentqueue.h:2780-2800 | with no other call in progress a dequeue takes the elements from the head on, as many as there are up to what it asked for, in one claim; from an empty queue it takes none |
| `DequeueTickets.GivesUpOnlyWhenSpokenFor` | src/base/concurrentqueue.h:2551-2619 | a dequeue gives up only if the elements it saw are all covered by tickets other calls hold, or held when it read the overcommit and have given back |
| `CircularIndex.CircularLessIsLess` | src/base/concurrentqueue.h:476-483 | on indices less than half the word apart the wrapping comparison is the order of the unbounded indices |
| `CircularIndex.HalfApart` | src/base/concurrentqueue.h:476-483 | exactly half a word apart neither index is below the other |
| `BlockQueue.Masked` | src/base/concurrentqueue.h:2948-2964 | the bitwise and with a power-of-two capacity less one is the circular position, also of a negative sum |
| `BlockQueue.GrowOk` | src/base/concurrentqueue.h:2966-3008 | doubling the index keeps every block findable |
| `BlockQueue.NextSlotVacant` | src/base/concurrentqueue.h:2900-2933 | the next slot is in use only when the index is full |
| `BlockQueue.StoreOldOk` | src/base/concurrentqueue.h:2543-2548 | storing into the current block appends one element |
| `BlockQueue.StoreNewOk` | src/base/concurrentqueue.h:2491-2548 | publishing a new block appends one element and keeps the index exact |
| `BlockQueue.HeadLookup` | src/base/concurrentqueue.h:2941-2964 | the index lookup lands on the block of the head index, also after growth and slot reuse |
| `BlockQueue.TakeOk` | src/base/concurrentqueue.h:2562-2609 | taking the head element keeps the invariant, and an emptied block leaves the index for the free list |
| `BlockQueue.GrownOk` | src/base/concurrentqueue.h:3094-3114 | a newly allocated block joins the pool without disturbing live blocks |
| `BlockQueue.Unrolled` | src/base/concurrentqueue.h:2983-2991 | the copied index reads from the oldest slot round to the tail |
| `BlockQueue.ImplicitProducer.constructor` | src/base/concurrentqueue.h:2420-2434 | a new producer is an empty queue with an index of 32 slots |
| `BlockQueue.ImplicitProducer.NewBlockIndex` | src/base/concurrentqueue.h:2966-3008 | the index doubles and nothing else changes |
| `BlockQueue.ImplicitProducer.InsertBlockIndexEntry` | src/base/concurrentqueue.h:2900-2933 | a vacant entry is found, and the index doubles exactly when every slot holds a live block |
| `BlockQueue.ImplicitProducer.RequisitionBlock` | src/base/concurrentqueue.h:3094-3114 | a block of the free list is recycled; one is allocated only if there is none |
| `BlockQueue.ImplicitProducer.EnqueueInNewBlock` | src/base/concurrentqueue.h:2491-2548 | at a block boundary the element is appended in a new block; a block is allocated only if all are in use, the index grown only if all its slots are |
| `BlockQueue.ImplicitProducer.Enqueue` | src/base/concurrentqueue.h:2487-2549 | enqueue succeeds and appends; memory grows only if the queue is now long enough to need it |
| `BlockQueue.ImplicitProducer.TakeElement` | src/base/concurrentqueue.h:2562-2609 | the element at the head index is moved out and its slot destroyed |
| `BlockQueue.ImplicitProducer.Dequeue` | src/base/concurrentqueue.h:2550-2619 | dequeue returns the first element, or nothing exactly when the queue is empty |
| `BlockQueue.Replay` | src/base/concurrentqueue.h:2487-2619 | every run of enqueues and dequeues answers as a FIFO sequence does, and the blocks and index slots ever allocated are bounded by the greatest length of the queue, not by how much goes through it |
| `Bitwise.AndMask` | src/base/concurrentqueue.h:2961-2961 | the bitwise and with one less than a power of two is the remainder |
| `ConcurrentIndex.VacantIsFree` | src/base/concurrentqueue.h:2907-2915 | a vacant next slot belongs to no block from the oldest live one on, and the ring has room |
| `ConcurrentIndex.GrownFinds` | src/base/concurrentqueue.h:2966-3008 | the doubled index finds every such block where the old one did |
| `ConcurrentIndex.TailKey` | src/base/concurrentqueue.h:2954-2957 | while an index is held, the entry at a tail loaded earlier, also of an outgrown header, keeps the key it had |
| `ConcurrentIndex.LookupFinds` | src/base/concurrentqueue.h:2958-2962 | the computed position is that of the block of the index |
| `ConcurrentIndex.ProduceStep` | src/base/concurrentqueue.h:2491-2548 | every step of the producer, slot reuse and growth included, keeps the invariant |
| `ConcurrentIndex.ConsumeStep` | src/base/concurrentqueue.h:2562-2609 | every consumer with a claimed index can take its next step, and every step keeps the invariant |
| `ConcurrentIndex.RunInv` | src/base/concurrentqueue.h:2491-2609 | the invariant holds in every state of every interleaving |
| `ConcurrentIndex.LookupSucceeds` | src/base/concurrentqueue.h:2941-2964 | in every interleaving, until its element is marked, a claimed index has an entry with its block's key and a block that is neither null nor recycled, and the lookup ends in it |
| `IndexRecycling.RunTidy` | src/base/concurrentqueue.h:2491-2609 | in every interleaving an entry with a block belongs to a live block, an emptied block is cleared or being cleared, and every memory block is marked as what it is used for |
| `IndexRecycling.LastTaken` | src/base/concurrentqueue.h:2597-2607 | the consumer that takes the last element of a block is the one that clears its entry |
| `IndexRecycling.AllRecycled` | src/base/concurrentqueue.h:2597-2607 | with no consumer at work the cleared blocks are exactly the emptied ones, and every memory block is in the pool, about to be published, or holds elements still to be taken |
| `IndexRecycling.GrowsOnlyWhenFull` | src/base/concurrentqueue.h:2900-2933 | the producer grows the index only when the block a whole capacity back is still live |
| `Semaphore.StepKeepsInv` | src/base/lightweightsemaphore.h:290-430 | every step of wait, waitMany, tryWait, tryWaitMany and signal keeps the balance of tokens signalled, acquired, on offer and owed |
| `Semaphore.StepKeepsCalls` | src/base/lightweightsemaphore.h:290-430 | every step keeps what a call has got within what it asked for, also on the path of one waited-for token and the rest tried |
| `Semaphore.AtMostMax` | src/base/lightweightsemaphore.h:290-421 | in every run the tokens a call holds are among those it got, at most its maximum, and exactly one for a wait or tryWait that succeeded |
| `Semaphore.CasTakes` | src/base/lightweightsemaphore.h:369-403 | a successful CAS takes the smaller of the count and the maximum, and leaves the rest |
| `Semaphore.EmptyOnlyWithoutTokens` | src/base/lightweightsemaphore.h:290-412 | a dequeue comes back empty-handed only if it does not wait, or timed out, and there was no token |
| `Semaphore.TryTakes` | src/base/lightweightsemaphore.h:391-403 | alone, tryWaitMany takes the smaller of the count and the maximum |
| `Semaphore.StopsShort` | src/base/lightweightsemaphore.h:290-421 | a dequeue ends with fewer tokens than it asked for only when no more were on offer |
| `Semaphore.TokensConserved` | src/base/lightweightsemaphore.h:290-430 | initial + signalled = acquired + positive count + kernel count + releases not yet posted |
| `Semaphore.EveryWaiterIsServed` | src/base/lightweightsemaphore.h:290-430 | with no signal half done, waiters are exactly the negative count plus the kernel tokens |
| `Semaphore.TimedOutWaiterExits` | src/base/lightweightsemaphore.h:303-323 | a timed-out waiter leaves exactly when the count is negative or a kernel token is there, hence always when no signal is half done |
| `Semaphore.HalfDoneSignalShutsExit` | src/base/lightweightsemaphore.h:303-323 | a run in which a half-done signal shuts both exits |
| `Semaphore.TokenMeansItem` | src/base/blockingconcurrentqueue.h:377-388 | who holds tokens finds at least as many items in the inner queue |
| `Semaphore.QuiescentBalance` | src/base/blockingconcurrentqueue.h:123-146 | with no call in progress the tokens on offer are the items in the queue |
| `Crc32.ShiftLinear` | src/base/zlib/crc32.c:108-114 | the register step is linear over GF(2) |
| `Crc32.FeedBitsIsShifts` | src/base/zlib/crc32.c:108-114 | feeding bits one by one is adding them and then shifting |
| `Crc32.PolyIs` | src/base/zlib/crc32.c:103-106 | the listed exponents give the polynomial 0xedb88320 |
| `Crc32.MakeCrcTable` | src/base/zlib/crc32.c:88-131 | all eight tables hold the shifted bytes and their byte reversals |
| `Crc32.ByteStep` | src/base/zlib/crc32.c:198-198 | one table lookup is eight register steps |
| `Crc32.WordTable` | src/base/zlib/crc32.c:260-263 | four lookups are thirty-two register steps |
| `Crc32.WordStep` | src/base/zlib/crc32.c:260-263 | a word step equals four byte steps |
| `Crc32.Do1` | src/base/zlib/crc32.c:198-198 | the next byte through the table is fed to the register |
| `Crc32.Lit4` | src/base/zlib/crc32.c:260-263 | four bytes at once, little endian |
| `Crc32.CrcLittle` | src/base/zlib/crc32.c:266-297 | the little-endian loop, from any address, is the bit-serial CRC |
| `Crc32.BigDo1` | src/base/zlib/crc32.c:306-337 | one byte on a byte-reversed register |
| `Crc32.Big4` | src/base/zlib/crc32.c:300-303 | four bytes at once, big endian |
| `Crc32.CrcBig` | src/base/zlib/crc32.c:306-337 | the big-endian loop, from any address, is the bit-serial CRC |
| `Crc32.CrcBytes` | src/base/zlib/crc32.c:224-234 | the byte-at-a-time loop is the bit-serial CRC |
| `Crc32.CrcZ` | src/base/zlib/crc32.c:202-234 | crc32_z is the CRC of section 8 of RFC 1952 on either machine; a missing buffer gives 0 |
| `Crc32.CrcContinues` | src/base/zlib/crc32.c:202-234 | the CRC of a concatenation is the CRC of the second part continued from the first |
| `Crc32.CheckValue` | src/base/zlib/crc32.c:202-234 | the CRC of the digits 1 to 9 is 0xcbf43926 |
| `Crc32.TimesOp` | src/base/zlib/crc32.c:344-358 | the matrix of n zero bits times a vector is n register steps |
| `Crc32.MatrixTimes` | src/base/zlib/crc32.c:344-358 | the loop computes the product of matrix and vector |
| `Crc32.MatrixSquare` | src/base/zlib/crc32.c:361-369 | squaring the matrix of n steps gives that of 2n steps |
| `Crc32.OneBitMatrix` | src/base/zlib/crc32.c:387-393 | the first matrix is one zero bit |
| `Crc32.CombineLoop` | src/base/zlib/crc32.c:401-421 | the even/odd loop applies exactly eight steps per byte of length |
| `Crc32.CrcOfConcat` | src/base/zlib/crc32.c:372-425 | the CRC of A ++ B is the shifted CRC of A plus the CRC of B |
| `Crc32.Combine` | src/base/zlib/crc32.c:372-425 | crc32_combine_ of crc(A), crc(B) and the length of B is crc(A ++ B) |
| `Adler32.AdlerContinues` | src/base/zlib/adler32.c:63-131 | the checksum of a concatenation is the checksum of the second part continued from the first |
| `Adler32.CheckValue` | src/base/zlib/adler32.c:63-131 | the checksum of the digits 1 to 9 is 0x091e01de |
| `Adler32.RawReduces` | src/base/zlib/adler32.c:103-127 | reducing at the end equals reducing after every byte |
| `Adler32.RawFits` | src/base/zlib/adler32.c:12-14 | NMAX bytes never exceed 32 bits, from any 16-bit halves |
| `Adler32.NmaxIsLargest` | src/base/zlib/adler32.c:12-14 | NMAX is the largest number of bytes for which the deferred sums fit |
| `Adler32.AddBytes` | src/base/zlib/adler32.c:16-20 | wrapping additions over a run of bytes are the unbounded sums |
| `Adler32.AddBlock` | src/base/zlib/adler32.c:103-124 | a block of at most NMAX bytes, sixteen at a time and then singly |
| `Adler32.Blocks` | src/base/zlib/adler32.c:102-127 | the block loops compute the checksum |
| `Adler32.SingleByte` | src/base/zlib/adler32.c:76-84 | the single-byte path is right exactly when the second sum is below twice BASE |
| `Adler32.FewBytes` | src/base/zlib/adler32.c:91-100 | the path for fewer than sixteen bytes |
| `Adler32.Adler32Z` | src/base/zlib/adler32.c:63-131 | adler32_z is the checksum of section 9 of RFC 1950, exactly outside one unreduced single-byte case, and always congruent to it; a null buffer gives 1 |
| `Adler32.UnreducedWitness` | src/base/zlib/adler32.c:76-84 | an input of that unreduced case |
| `Adler32.CombineContinues` | src/base/zlib/adler32.c:143-169 | combining with the checksum of B continues over B |
| `Adler32.CombineIsConcat` | src/base/zlib/adler32.c:143-169 | adler32_combine_ of adler(A), adler(B) and the length of B is adler(A ++ B), for every start value |
| `DeviceModel.ByFrameType` | src/adapter/DeviceModel.h:191-196 | the first member with the frame type; none exactly when no member has it |
| `FieldCodec.LoadRaw` | src/adapter/FrameCodec.cpp:30-38 | the base-256 value of the bytes in either byte order |
| `FieldCodec.ByteOrders` | src/adapter/FrameCodec.cpp:30-38 | bytes a, b are 256a + b in big-endian and a + 256b in little-endian order |
| `FieldCodec.SignExtendIsTwosComplement` | src/adapter/FrameCodec.cpp:40-45 | flipping and subtracting the sign bit is the two's complement reading, with its range |
| `FieldCodec.IntegerOf` | src/adapter/FrameCodec.cpp:47-56 | shifting, masking and sign extension give the selected bits as the field's kind reads them |
| `FieldCodec.LoadedFieldGood` | src/adapter/ConfigDB.cpp:369-398 | a loaded field has a legal width, its bits inside it, and the column materializeField gives it |
| `FieldCodec.LoadFieldIs` | src/adapter/ConfigDB.cpp:135-150 | a row is loaded exactly if its code is one the schema lists; the field has the type the schema names, its offset, and its bit range exactly if that lies inside the field |
| `FieldCodec.ColumnIs` | src/adapter/ConfigDB.cpp:163-208 | bind type, column type and width of a loaded field agree, each kind has its own family of columns, and an integer gets the narrowest column that holds all its values, except that 64-bit unsigned ones share the widest |
| `FieldCodec.WideningKeeps` | src/adapter/ConfigDB.cpp:163-208 | unsigned values survive in the next wider signed column |
| `FieldCodec.NarrowingIsLossless` | src/adapter/EtherDBWriter.cpp:281-305 | every decoded integer or Bool survives its column's cast, and equals its meaning exactly when it is not an unsigned value of 2^63 or more |
| `StreamSlicer.ScanConserves` | src/adapter/FrameCodec.cpp:145-227 | slicing accounts for every byte and stops with less than 64 KiB |
| `StreamSlicer.CountersAre` | src/adapter/FrameCodec.cpp:145-217 | resyncs, frames, badFrames, flagMiss and unknownType say how many decisions of the run had each outcome |
| `StreamSlicer.ScanAppend` | src/adapter/FrameCodec.cpp:145-227 | slicing a prefix first and the rest later is slicing everything at once |
| `StreamSlicer.FeedTwice` | src/adapter/FrameCodec.cpp:135-228 | two calls are one call with the concatenated data |
| `StreamSlicer.ChunkIndependence` | src/adapter/FrameCodec.cpp:135-228 | rows, counters and pending bytes depend on the stream, not on its cutting |
| `StreamSlicer.RunConserves` | src/adapter/FrameCodec.cpp:145-227 | in every run bytesIn = framed + resyncs + pending, and the 256 KiB cut is never taken |
| `FrameCodec.FieldsInsidePayload` | src/adapter/FrameCodec.cpp:195-215 | a record longer than the frame's payload still has every field inside the payload |
| `FrameCodec.RecordFits` | src/adapter/FrameCodec.cpp:195-215 | every record of a frame lies in its payload |
| `FrameCodec.CustomPrefix` | src/adapter/FrameCodec.cpp:145-217 | a decision about a custom_data frame does not change when more bytes arrive |
| `FrameCodec.CustomSound` | src/adapter/FrameCodec.cpp:145-217 | each decision advances within the bytes at hand, and waiting is only for a frame of at most 64 KiB |
| `FrameCodec.DecodePayload` | src/adapter/FrameCodec.cpp:93-125 | succeeds exactly when all fields fit, and then gives the row of decoded cells |
| `FrameCodec.DecodeField` | src/adapter/FrameCodec.cpp:104-122 | one cell by the field's kind |
| `FrameCodec.PushRecords` | src/adapter/FrameCodec.cpp:195-216 | a frame gives all its records or none |
| `FrameCodec.DeviceStream.Compact` | src/adapter/FrameCodec.cpp:221-226 | consumed bytes go, and all but the last 256 KiB |
| `FrameCodec.DeviceStream.CustomAt` | src/adapter/FrameCodec.cpp:145-217 | one decision of feed: counters, rows and advance as specified |
| `FrameCodec.DeviceStream.CustomFrameAt` | src/adapter/FrameCodec.cpp:159-217 | one frame of a known device |
| `FrameCodec.DeviceStream.Feed` | src/adapter/FrameCodec.cpp:135-228 | feed moves the stream as the slicer says, whose frames FramesExactly describes, and pushes exactly the new rows, stamped with the receive time |
| `FrameCodec.ModbusPrefix` | src/adapter/FrameCodec.cpp:278-332 | a decision about a modbus response does not change when more bytes arrive |
| `FrameCodec.ModbusSound` | src/adapter/FrameCodec.cpp:278-332 | the modbus slicer waits only for a bounded frame and always advances otherwise |
| `FrameCodec.DeviceStream.Synchronise` | src/adapter/FrameCodec.cpp:281-296 | the search for the protocol identifier drops exactly the bytes the slicer drops and keeps a split identifier |
| `FrameCodec.DeviceStream.ModbusAt` | src/adapter/FrameCodec.cpp:297-331 | one decision of feedModbus |
| `FrameCodec.DeviceStream.ResponseAt` | src/adapter/FrameCodec.cpp:309-316 | one complete response |
| `FrameCodec.DeviceStream.SliceModbus` | src/adapter/FrameCodec.cpp:272-341 | the slicing loop |
| `FrameCodec.DeviceStream.FeedModbus` | src/adapter/FrameCodec.cpp:242-342 | feedModbus for every configuration: dropped, rejected, collected or sliced |
| `StreamLaws.CustomStream` | src/adapter/FrameCodec.cpp:135-228 | any cutting of a custom_data stream gives the result of one call, with bytes balanced and less than 64 KiB pending |
| `StreamLaws.ModbusChunkIndependence` | src/adapter/FrameCodec.cpp:242-342 | the cutting of the stream does not matter if and only if the configuration is not rejected or there is one chunk |
| `StreamLaws.ModbusConserves` | src/adapter/FrameCodec.cpp:242-342 | bytes balance if and only if the configuration is sliced or collected, or no byte came |
| `StreamLaws.ModbusPendingBounded` | src/adapter/FrameCodec.cpp:317-341 | less than 64 KiB is pending if and only if the fixed frame is not oversize or less arrived; an oversize one keeps the whole stream |
| `RecordCodec.InsertReads` | src/adapter/FrameCodec.cpp:47-56 | rewriting some bits of a word reads back, and what lies above and below stays |
| `RecordCodec.WindowBit` | src/adapter/FrameCodec.cpp:30-38 | each bit of a loaded word is a bit of the record, in either byte order |
| `RecordCodec.SameOwned` | src/adapter/FrameCodec.cpp:100-123 | a field's cell depends only on the bits it owns |
| `RecordCodec.WriteElsewhere` | src/adapter/FrameCodec.cpp:100-123 | writing a cell changes no bit its field does not own |
| `RecordCodec.FieldRoundTrip` | src/adapter/FrameCodec.cpp:30-56 | any cell a field can hold, in either byte order and also as a bit field, decodes to itself whatever else its window holds |
| `RecordCodec.RecordRoundTrip` | src/adapter/FrameCodec.cpp:93-125 | a record decodes to the cells written into it, for every layout in which no two fields share a bit |
| `RecordCodec.BytesApart` | src/adapter/DeviceModel.h:76-84 | fields in different bytes share no bit |
| `RecordCodec.BitFieldsApart` | src/adapter/DeviceModel.h:76-84 | bit fields of one word share a bit exactly when their ranges overlap |
| `RoundTrip.DecodeRowPrefix` | src/adapter/FrameCodec.cpp:206-215 | decoding a record depends on its own bytes only |
| `RoundTrip.FrameStep` | src/adapter/FrameCodec.cpp:145-217 | at the start of an encoded frame, whatever follows, the decoder takes exactly that frame and gives one row per record, in the byte order of the configuration rows; a misfit record or delimiter is counted |
| `RoundTrip.PayloadMinIs` | src/adapter/ConfigDB.cpp:399-400 | payloadMin is within n exactly when every field ends within n, in 32-bit arithmetic |
| `RoundTrip.DecodeOkIs` | src/adapter/FrameCodec.cpp:93-125 | decodePayload succeeds exactly when there is a field and every field lies in the record |
| `RoundTrip.FrameOnly` | src/adapter/FrameCodec.cpp:145-217 | whatever the decoder takes as a frame is the encoding of a frame of the configuration |
| `RoundTrip.FramesExactly` | src/adapter/FrameCodec.cpp:145-217 | the decoder takes a frame if and only if the bytes at hand begin with the encoding of one |
| `RoundTrip.DropReasons` | src/adapter/FrameCodec.cpp:152-180 | a byte is dropped as of unknown type exactly when no device has it, and as a missed delimiter exactly when the first device of the type is an event device with fields and another start flag |
| `RoundTrip.WireScan` | src/adapter/FrameCodec.cpp:145-218 | a concatenation of frames decodes to all records in order, with no resync, bad frame or delimiter miss |
| `RoundTrip.StreamRoundTrip` | src/adapter/FrameCodec.cpp:145-218 | the same for every cutting into chunks, with nothing left pending |
| `RoundTrip.CellsRoundTrip` | src/adapter/FrameCodec.cpp:93-125 | a frame whose records were made from cells, big endian exactly if the device row or the header row has a nonzero endian, gives back those cells for its device |
| `RoundTrip.AllCellsRoundTrip` | src/adapter/FrameCodec.cpp:93-217 | the same for every sequence of such frames |
| `ModbusRoundTrip.AnswerStep` | src/adapter/FrameCodec.cpp:278-331 | at the start of an encoded response, with or without MBAP header, the decoder takes exactly that response and gives its row in the byte order of the configuration rows |
| `ModbusRoundTrip.ConfiguredIs` | src/adapter/FrameCodec.cpp:247-268 | the stream is sliced exactly if the header length is 0, 2, 7 or 9, some field has an extent, and a fixed-length frame is at most 64 KiB |
| `ModbusRoundTrip.AnswerOnly` | src/adapter/FrameCodec.cpp:278-331 | whatever the decoder takes as a response is the encoding of one |
| `ModbusRoundTrip.AnswersExactly` | src/adapter/FrameCodec.cpp:278-331 | the decoder takes a response if and only if the bytes at hand begin with the encoding of one |
| `ModbusRoundTrip.DropReasons` | src/adapter/FrameCodec.cpp:278-331 | a byte is dropped as bad exactly when a whole response lies there that covers every field in 32-bit arithmetic, and then some field's end overflows |
| `ModbusRoundTrip.WireScan` | src/adapter/FrameCodec.cpp:278-332 | a concatenation of responses decodes to one row each, in order, with no resync and no bad frame |
| `ModbusRoundTrip.StreamRoundTrip` | src/adapter/FrameCodec.cpp:242-342 | the same for every cutting into chunks, with nothing left pending |
| `ModbusRoundTrip.CellsRoundTrip` | src/adapter/FrameCodec.cpp:93-125 | responses whose registers were made from cells, little endian exactly if the device row says 1, or says nothing and the header row says 1, give back those cells |
| `Pipeline.PushRowAppends` | src/adapter/Pipeline.h:106-124 | pushRow keeps cells = rows * columns and appends exactly one row |
| `ParserWorker.GroupFitting` | src/adapter/ParserWorker.cpp:66-71 | every decoded row belongs to a member of the group and has one cell per field |
| `ParserWorker.AppendConserves` | src/adapter/ParserWorker.cpp:108-123 | appending a row keeps written ++ pending = decoded for every device |
| `ParserWorker.FlushConserves` | src/adapter/ParserWorker.cpp:125-136 | flushing a batch keeps it |
| `ParserWorker.DeliverMatches` | src/adapter/ParserWorker.cpp:62-71 | one chunk moves only its own endpoint's stream and adds only that endpoint's rows |
| `ParserWorker.ParserWorker.AppendRow` | src/adapter/ParserWorker.cpp:108-123 | the row joins its device's batch, no other batch changes, the device is noted |
| `ParserWorker.ParserWorker.FlushDevice` | src/adapter/ParserWorker.cpp:125-136 | the batch is handed over and replaced by an empty one |
| `ParserWorker.ParserWorker.FlushAll` | src/adapter/ParserWorker.cpp:138-142 | nothing stays pending |
| `ParserWorker.ParserWorker.FlushTouched` | src/adapter/ParserWorker.cpp:89-96 | no status row and no full batch stays pending, and only status rows and full batches leave |
| `ParserWorker.ParserWorker.Decode` | src/adapter/ParserWorker.cpp:66-71 | the codec is chosen by the primary device's protocol |
| `ParserWorker.ParserWorker.Advance` | src/adapter/ParserWorker.cpp:62-71 | the endpoint's stream, created on first data, is what its chunks make of a fresh one; the rows are those the chunk completes, stamped with its receive time |
| `ParserWorker.ParserWorker.Store` | src/adapter/ParserWorker.cpp:89-123 | the rows of a chunk reach their batches in order and what is due leaves |
| `ParserWorker.ParserWorker.ParseChunk` | src/adapter/ParserWorker.cpp:58-96 | one item of the ingest queue keeps conservation; after it no status row and no full batch is pending, and only those were handed over |
| `ParserWorker.ParserWorker.Idle` | src/adapter/ParserWorker.cpp:97-99 | an idle tick leaves nothing pending |
| `ParserWorker.ParserWorker.Run` | src/adapter/ParserWorker.cpp:50-103 | a whole run keeps all of it, decodes what each chunk completes with the chunk's receive time, and ends with nothing pending |
| `ParserWorker.RunRows` | src/adapter/ParserWorker.cpp:57-71 | the rows of an endpoint are those of its bytes, however they were cut |
| `ParserWorker.EndToEnd` | src/adapter/ParserWorker.cpp:57-142 | what the writer got for a device and what is pending is exactly what its endpoint's bytes say about it, whatever other endpoints sent in between |
| `ParserWorker.SentIsWritten` | src/adapter/ParserWorker.cpp:57-142 | a finished run that received the frames of some messages has handed over exactly the records of those messages, per device and in order |
| `ParserWorker.AllIsWritten` | src/adapter/ParserWorker.cpp:57-142 | a finished run has handed over, for every device of an endpoint, exactly the rows of the endpoint's bytes |
| `ParserWorker.SentCells` | src/adapter/ParserWorker.cpp:57-71 | the bytes of an endpoint that received frames made from cells hold exactly those cells |
| `ParserWorker.AnsweredRows` | src/adapter/ParserWorker.cpp:66-71 | the bytes of an endpoint whose primary device is modbus and that received responses hold exactly one row per response |
| `ParserWorker.AnsweredTable` | src/adapter/ParserWorker.cpp:66-71 | the same for responses made from cells |
| `ParserWorker.RunWorker` | src/adapter/ParserWorker.cpp:50-142 | a worker from start to end hands over no empty batch and, for every device, exactly the rows its endpoint's bytes complete, each stamped with the time of reception; for well-formed custom_data frames or modbus responses exactly the records sent, and for records made from cells exactly those cells, in the byte order of the configuration rows |
| `ColumnWriter.CellReadsBack` | src/adapter/EtherDBWriter.cpp:265-306 | a stored value reads back as its narrowed value |
| `ColumnWriter.DecodedFits` | src/adapter/EtherDBWriter.cpp:269-306 | every decoded value fits its column and is not changed by narrowing |
| `ColumnWriter.SlotsApart` | src/adapter/EtherDBWriter.cpp:163-171 | no two slots of the staging buffer overlap |
| `ColumnWriter.Layout` | src/adapter/EtherDBWriter.cpp:163-173 | the columns follow one another, each with room for the capacity |
| `ColumnWriter.StoreOne` | src/adapter/EtherDBWriter.cpp:265-306 | storing one value fills its slot and leaves every other slot alone |
| `ColumnWriter.BoundHolds` | src/adapter/EtherDBWriter.cpp:309-321 | the bound columns hold the rows of the chunk |
| `ColumnWriter.ChunkReadsBack` | src/adapter/EtherDBWriter.cpp:256-321 | a staged chunk reads back as its rows of the batch |
| `ColumnWriter.Sink.constructor` | src/adapter/EtherDBWriter.cpp:158-174 | the sink of a device |
| `ColumnWriter.Sink.Store` | src/adapter/EtherDBWriter.cpp:273-302 | memcpy into the staging buffer changes those bytes only |
| `ColumnWriter.Sink.StageColumn` | src/adapter/EtherDBWriter.cpp:265-306 | one column is filled and the columns before it stay |
| `ColumnWriter.Sink.Value` | src/adapter/EtherDBWriter.cpp:264-305 | the bytes of one value from the flattened batch |
| `ColumnWriter.Sink.StageChunk` | src/adapter/EtherDBWriter.cpp:257-321 | all columns of a chunk are staged and bound |
| `ColumnWriter.Sink.Bind` | src/adapter/EtherDBWriter.cpp:309-321 | each bind covers the first n values of its column |
| `ColumnWriter.Sink.WriteChunk` | src/adapter/EtherDBWriter.cpp:257-345 | one chunk holds the next rows, and its answer is counted |
| `ColumnWriter.Sink.WriteBatch` | src/adapter/EtherDBWriter.cpp:251-346 | for every batch size and capacity each row is staged once, in order, in chunks that are full but for the last and read back as the narrowed rows; the statistics count the answers |
| `ColumnWriter.CountersBalance` | src/adapter/EtherDBWriter.cpp:323-343 | executed and refused chunks make up the chunks, and the row counters are the sums over the executed ones |
| `ColumnWriter.DecodedRowKept` | src/adapter/EtherDBWriter.cpp:269-306 | a row decoded from the wire is stored exactly |
| `Routing.KeyInjective` | src/adapter/ConfigDB.cpp:524-524 | an endpoint key determines ip and port, for any ip |
| `Routing.JoinGroup` | src/adapter/ConfigDB.cpp:523-528 | a device of a known endpoint joins its group |
| `Routing.FoundGroup` | src/adapter/ConfigDB.cpp:528-541 | a device of a new endpoint, or without a port, founds a group |
| `Routing.SortMembers` | src/adapter/ConfigDB.cpp:546-551 | a permutation of the members in the order of data_proto_id and, among equals, of device id by the first differing character or the shorter prefix |
| `Routing.MarkGroup` | src/adapter/ConfigDB.cpp:553-562 | the first ranked member is the status device, the others are events; only the roles change |
| `Routing.IndexIps` | src/adapter/ConfigDB.cpp:575-586 | the fallback index holds exactly the ips that one group uses |
| `Routing.ExactFound` | src/adapter/ConfigDB.cpp:589-591 | the port index finds an endpoint exactly when a row has it, with exactly its rows |
| `Routing.FallbackFound` | src/adapter/ConfigDB.cpp:593-594 | the fallback finds a group exactly when the rows whose ip up to a colon is the peer's are one endpoint |
| `Routing.ConfigDB.GroupDevices` | src/adapter/ConfigDB.cpp:517-542 | the groups partition the devices by endpoint |
| `Routing.ConfigDB.RankGroup` | src/adapter/ConfigDB.cpp:545-562 | one group is ranked and marked, earlier ones stay marked |
| `Routing.ConfigDB.RankMembers` | src/adapter/ConfigDB.cpp:544-573 | all groups are ranked and marked |
| `Routing.ConfigDB.RebuildIndexes` | src/adapter/ConfigDB.cpp:517-587 | the whole index, with only the roles of the devices changed |
| `Routing.ConfigDB.MatchGroup` | src/adapter/ConfigDB.cpp:589-597 | matchGroup answers by the rows of the exact endpoint, else by the rows whose ip up to a colon is the peer's if they are one endpoint, else none |
| `Routing.OneStatusDevice` | src/adapter/ConfigDB.cpp:545-562 | each group has exactly one status device; members are in the order of data_proto_id and, among equals, of device id by the first differing character or the shorter prefix; the event type is the distance of data_proto_id from the status device's, never negative; the status device alone is flushed at once, if custom_data |
| `Routing.FallbackIps` | src/adapter/ConfigDB.cpp:576-586 | the rows the fallback considers are those of the ip exactly when no row with a colon has that ip, whole or up to its colon |
| `Routing.FallbackAnswer` | src/adapter/ConfigDB.cpp:589-597 | matchGroup answers as a scan by equality of ips does, if and only if the endpoint is exact, or no such row exists, or the rows that would decide are several endpoints |
| `Routing.ColonPeerOverlooked` | src/adapter/ConfigDB.cpp:576-597 | the peer "fe80::1" on another port is not found although its ip has exactly one endpoint |
| `Routing.ColonRowMistaken` | src/adapter/ConfigDB.cpp:576-597 | the peer "fe80" is given the group of "fe80::1" |
| `EventLoop.StepInv` | src/net/EventLoop.cpp:53-126 | every step of the loop thread and of every other thread keeps the wake-up invariant |
| `EventLoop.NoLostWakeup` | src/net/EventLoop.cpp:53-126 | in every interleaving where the loop thread queues only inside loop(), poll never blocks on a queued functor without a wakeup written or about to be; functors run at most once and in order |
| `EventLoop.LostMeansEarly` | src/net/EventLoop.cpp:116-126 | a lost wakeup means the loop thread queued outside loop() and has not swapped since |
| `EventLoop.LostExactly` | src/net/EventLoop.cpp:53-126 | in every run a wakeup is lost exactly where the loop polls with such a functor queued and no other wakeup is written or under way |
| `EventLoop.EarlyPostIsLost` | src/net/EventLoop.cpp:116-126 | such a functor is left waiting by the first poll exactly when no other wakeup is there |
| `EventLoop.QuitTakesEffect` | src/net/EventLoop.cpp:53-92 | a quit(), by another thread or the loop thread, is carried out at the next test in every run that follows, with poll never blocked without a wakeup until then, if and only if it is made inside loop() |
| `EventLoop.QuitIsNotMissed` | src/net/EventLoop.cpp:85-92 | in every run a set quit flag never leaves poll blocked without a wakeup written or about to be |
| `EventLoop.QuitBeforeLoopIsLost` | src/net/EventLoop.cpp:53-61 | a quit before loop(), by any thread, is overwritten and the loop polls |
| `EventLoop.StaysUntilQuit` | src/net/EventLoop.cpp:53-92 | a started loop stays in loop() as long as nobody calls quit() |
| `EventLoop.QuietAfterRead` | src/net/EventLoop.cpp:116-126 | once the wakeup is read, poll reports it again only after a new one is written |
| `EventLoop.IterationRunsAll` | src/net/EventLoop.cpp:226-241 | finishing an iteration runs everything queued before its swap, in order |
| `TimerModel.StepInv` | src/net/TimerQueue.cpp:106-254 | every operation, in or out of a batch, keeps both sets equal to the waiting timers |
| `TimerModel.RunInv` | src/net/TimerQueue.cpp:106-254 | in every run both sets agree and the timerfd is set no later than the earliest timer |
| `TimerModel.SameSize` | src/net/TimerQueue.cpp:134-254 | the sizes the source asserts are equal, entry by entry |
| `TimerModel.CancelTakesEffect` | src/net/TimerQueue.cpp:134-151 | after a cancel the timer can never be armed again, if and only if its own insertion is not still queued |
| `TimerModel.QueuedCancelIsLost` | src/net/TimerQueue.cpp:106-151 | a cancel that overtakes the insertion is lost |
| `TimerModel.CancelStopsCallback` | src/net/TimerQueue.cpp:134-217 | after a cancel some run calls the timer back, if and only if its callback is still to come in the running batch or its insertion is still queued |
| `TimerModel.CancelledRunsOut` | src/net/TimerQueue.cpp:147-217 | once the batch is over, a cancelled timer has run exactly once more if its callback was still to come, and otherwise not at all |
| `TimerModel.RunsConserved` | src/net/TimerQueue.cpp:155-217 | in every run the callbacks of a cancelled timer, run or still to come in its batch, stay the same in number |
| `TimerModel.StaleCancelsNothing` | src/net/TimerQueue.cpp:134-151 | an identifier whose address was reused or freed changes no timer |
| `TimerModel.NeverRearmed` | src/net/TimerQueue.cpp:200-217 | a cancelled timer is in neither set in every later state, and gone once the batch has ended |
| `TimerModel.ExpiresExactlyTheDue` | src/net/TimerQueue.cpp:173-198 | getExpired takes exactly the due timers, in order, out of both sets |
| `TimerModel.FiresOnceWhenDue` | src/net/TimerQueue.cpp:155-171 | a callback runs only for a live timer that was due, and a one-shot timer only once |
| `TimerModel.ResetAllKeeps` | src/net/TimerQueue.cpp:200-217 | reset leaves both sets agreeing and the batch empty, and no timer it re-arms is due before the batch's time |
| `TimerTimes.EndRearms` | src/net/TimerQueue.cpp:200-217 | at the end of a batch every repeating timer of it that is not marked as cancelled has its old record with the expiration one interval after the batch's time, and is in both sets; every other timer of the batch is gone; timers outside the batch are unchanged |
| `TimerTimes.EndSetsDeadline` | src/net/TimerQueue.cpp:219-227 | at the end of a batch the timerfd is set exactly to the earliest waiting timer |
| `TimerTimes.AddSetsDeadline` | src/net/TimerQueue.cpp:124-132 | adding a timer sets the timerfd exactly if it is earlier than all others |
| `TimerTimes.RunTimes` | src/net/Timer.cpp:16-26 | in every run the recorded callbacks of a timer are spaced by its interval, and a re-armed timer is due no earlier than that |
| `TimerTimes.CallbacksSpaced` | src/net/Timer.cpp:16-26 | in every run two callbacks of one timer are at least its interval apart |
| `TimerTimes.UncancelledStays` | src/net/TimerQueue.cpp:155-217 | a repeating timer that nobody cancels is, after every run, queued for insertion, in both sets, or in the running batch |
| `TimerTimes.NewAsAsked` | src/net/TimerQueue.cpp:106-114 | a new timer has the expiration, repetition and interval asked for and a sequence number never run |
| `TimerTimes.FirstRunNotEarly` | src/net/TimerQueue.cpp:106-171 | until its first callback a timer stays as asked for, and that callback comes no earlier than the time asked for |
| `TimerQueue.TimerQueue.constructor` | src/net/TimerQueue.cpp:81-91 | a new queue is empty |
| `TimerQueue.TimerQueue.AddTimer` | src/net/TimerQueue.cpp:106-114 | the timer is allocated at a free address with a new sequence number, its insertion queued |
| `TimerQueue.TimerQueue.Insert` | src/net/TimerQueue.cpp:230-254 | the timer joins both sets, and a new earliest expiration is reported |
| `TimerQueue.TimerQueue.AddTimerInLoop` | src/net/TimerQueue.cpp:124-132 | the insertion, and the timerfd if it is the earliest |
| `TimerQueue.TimerQueue.CancelInLoop` | src/net/TimerQueue.cpp:134-151 | a waiting timer is deleted, one of the running batch is marked |
| `TimerQueue.TimerQueue.GetExpired` | src/net/TimerQueue.cpp:173-198 | the due entries, in order, out of both sets |
| `TimerQueue.TimerQueue.TakeDue` | src/net/TimerQueue.cpp:177-186 | the entries below the sentry are exactly those due |
| `TimerQueue.TimerQueue.BeginHandle` | src/net/TimerQueue.cpp:155-162 | a batch begins |
| `TimerQueue.TimerQueue.RunCallback` | src/net/TimerQueue.cpp:163-167 | one callback runs on a live timer |
| `TimerQueue.TimerQueue.ResetBatch` | src/net/TimerQueue.cpp:203-217 | the loop of reset does, entry by entry, what EndRearms says of the whole batch |
| `TimerQueue.TimerQueue.EndHandle` | src/net/TimerQueue.cpp:168-228 | the batch ends, the sets agree and the timerfd is set |

## Left out

- Weak memory orderings, allocation failure, exceptions thrown by element constructors, the explicit
  producer, tokens, the producer hash and bulk enqueue of the queue; MAX_SUBQUEUE_SIZE, which the
  adapter leaves unlimited; queue indices are unbounded numbers, with the wrapping comparison apart.
- BlockQueue.ImplicitProducer.RequisitionBlock: the initial block pool is taken as empty, so a block
  comes from the free list or is allocated.
- BlockQueue.ImplicitProducer.Dequeue: run alone, the second check cannot fail; its failing branch is
  part of DequeueTickets only.
- ConcurrentIndex.LookupSucceeds: claims are taken as the ticket protocol of DequeueTickets allows them,
  the construction and destruction of elements inside a block is not modelled, and positions are
  remainders, which `Bitwise.AndMask` equates with the mask.
- Crc32.CrcZ: crc values are 32-bit words; the upper half of a 64-bit unsigned long is not modelled.
- Adler32.CombineIsConcat: the two checksums are ones adler32 computes; combining words whose halves
  are not below BASE is not described.
- Floating point beyond bit patterns: float and double cells are carried as their bits.
- ParserWorker.ParserWorker.Decode: the sink is modelled by the list of pushed rows, appended after
  the codec returns rather than from inside it, in the same order.
- FrameCodec.DeviceStream.Feed: unknownTypeLogged and the log output are not modelled.
- ColumnWriter.Sink.WriteBatch: the SQL path of http devices, devices without a prepared sink (whose
  batches the writer drops) and the client library are not modelled; the outcome of each chunk is
  an input.
- Routing.ConfigDB.RebuildIndexes: listen ports and the http port index are not modelled; std::sort
  is an insertion sort, which fixes the order of equal ranks.
- Routing.MarkGroup: event types are unbounded differences of protocol numbers; int overflow is not
  modelled.
- EventLoop: the poller is a counter of wakeups; channels, timers and the Windows variant are not
  modelled.
- TimerQueue.TimerQueue.BeginHandle: callbacks are the calls made between the start and the end of a
  batch; reading the clock and the timerfd is input.
- HTTP ingest, sockets, SQLite reading, the publish queue, logging, and the ingest queue's items left
  behind at shutdown.
