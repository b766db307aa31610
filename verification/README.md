# Audio buffers, protocols and codec framing

This project models the parts of the audio firmware in which a stream of bytes, samples or packets is cut up, moved and
rebuilt while two parties run at different speeds, and proves that the pieces, put together again, are the stream.

- **Queues.** `CQueues` is the byte ring. `RpcQueues` and `RpcFifo` put length-prefixed messages on it and show that it
  is a FIFO of messages. `RpcTxWorker` adds the senders, the worker and their semaphore.
- **A2DP decoding on the coprocessor.** `CpInCaches` holds the routines on the input cache, `CpRing` the lock-free ring
  between MCU and coprocessor as a step system, `A2dpFrames` the AAC and LHDC frames, `A2dpPipeline` all of these
  together. `LhdcAssembler` is the reassembly of fragments and `LhdcStore` their way into the queue. `CpSlots` is the
  protocol of the three-slot output ring, `CpSlotMemory` the bytes of the cache the slots share, and `CpSlotRing` the
  routines of both sides as whole calls.
- **SCO.** `ScoReframe` and `ScoReframeRuns` are the queues between a caller of 120 or 240 samples and a thread of 320.
  `ScoCpHandoff` is the hand-off of one frame at a time to the coprocessor.
- **mSBC.** `MsbcPackets` has the packets and their header check, `MsbcDecoder` and `MsbcStream` the search for packets
  in a byte stream, `MsbcRecovery` what it does when the packets move, `PacketLoss` and `PacketLossRuns` the verdicts, `MsbcLink` the way from encoder to verdict.
  `XxxxDecoder` is the custom codec's check, which counts on through losses.
- **Arithmetic.** `FirUpsampler` is the polyphase filter. `CrcRegisters` has the theory of CRC registers, `ImageCrcTable`
  and `ImageCrc` the CRC-32 of a firmware image; the CRC-8 of SBC headers in `MsbcPackets` uses the same theory.
- **Audio list.** `AudioList` and `AudioListRuns` are the list of opened streams and prompts.

Objects that the source updates in place are classes whose methods are proved against functions on values; the
properties are lemmas about these functions. Concurrent parts are step systems in which each access to a shared
variable, each lock section and each copied element is a step, so a lemma about all runs covers every interleaving.
`Bytes` and `Cyclic` hold what the others share.

## What the code does and does not do

- A push to the RPC queue stores the low 16 bits of the length but all bytes. For lengths from 65536 on whose low bits
  fit, the queue can no longer be read back; `PushWholeIff` gives the exact condition.
- `rpc_bth_dsp_send_cmd` accepts payloads of 512 bytes, and adds two bytes for the command code; the worker's buffer
  holds 512 bytes in all, and an assertion stops the worker on a longer message. It does not look at the command code
  either; the worker does, after the pop, and stops on one that is not registered. So a payload of 511 or 512 bytes or
  an unregistered code stops the worker (`OneSendHaltsIff`, `UnknownCodeHalts`): neither that message nor those behind
  it are handled, and all accepted before it are (`NoMessageStranded`).
- An AAC packet of 2048 bytes or more is stored but never comes back; the reader asks for a queue reset instead, as long
  as the low 16 bits of its length are 2048 or more (`AacSurvivesIff`, `AacRejectedIff`).
- `mcu_decode_a2dp_process` looks at the slot state twice. A good slot that finishes between the two looks is released
  without being played: `GoodSlotCanBeDropped` is such a run. `EachSlotOnceInOrder` says that a good slot is played if
  and only if it was finished before the first look, and `QuietLooksPlayEveryGoodSlot` what a scheduler has to ensure.
- `cp_a2dp_main` resumes a partly filled slot behind its bytes but asks the decoder for a whole loop again. Such a slot
  is never counted as good, so its samples are not played (`SealedIsGoodIff`), and its turn writes into the next slot,
  which may be waiting to be played, or past the cache (`OnlyResumedTurnsRunOver`, `PlayedCanDiffer`). `PlayedIff` says
  exactly which samples are played then.
- Packets of 4089 to 4095 bytes pass `assemble_lhdc_packet` and are copied behind an 8-byte header into a buffer of 4096
  bytes (`InOrderPacketStored`, `TwoFragmentsOverrun`). The coprocessor's loader copies as it is told by a header, too
  (`LhdcLoadIsParseIff`). The model says when a copy leaves its buffer and nothing about memory after that.
- In `assemble_lhdc_packet` an overflowing start fragment leaves the switch before the synchronisation is set.
- The 4-bit branch of the header CRC is never reached, because at the last subband the bit offset is 52.
- With the mute pattern 0 and an offset from 2 to 57 the loss detection takes a good packet for a muted one when the
  frame ends with enough zeros; `ContinuousStreamPassesIff` says that nothing else goes wrong.
- With offset 1 and a second packet that comes one byte late the mSBC decoder reads one byte past its buffer;
  `InsideIff` shows that this is the only such case, `LateSecondReadsPast` is an input, and `PacketsInOrder` shows that
  it never happens on a stream whose packets stay 60 bytes apart.
- The mSBC decoder gives its sync up in the first call in which an expected place is vacant, and finds packets that have
  moved in the next (`SyncIsDroppedIff`, `RecoversInTwoCalls`). Packets within one byte of the old places are followed
  without giving it up (`DriftIsFollowed`), and a muted header at the place keeps it.
- Closing a stream other than AI voice takes the front entry off the audio list, whatever id the request names
  (`CloseTakesNamedIff`). When a stream is opened over a running one, the running one is closed at the tail, which
  takes the youngest prompt if any is waiting (`CloseStreamKeepsPromptsIff`, `YoungestPromptCanGoFirst`). Without
  `AUDIO_PROMPT_USE_DAC2_ENABLED` a notice opened over music does so too and takes itself off (`NoticeTakesItself`).
- The list may hold 20 entries and the pool they come from has 20 blocks. So an open that needs a block on a full list
  finds none, and the branch that would keep the front stream in place of a prompt never gets that far (`NoBlockIff`,
  `FrontIsNeverKept`).
- A packet that comes three times with muted ones between is reported as a conflict twice; `SecondReportIff` says
  exactly when there is a second report, `ToneIsReportedTwice` is an instance.
- Where the accumulator of the upsampler would leave 32 bits, the model wraps around; C leaves that open. The bounds
  29835 and 30450 say exactly when it cannot happen.

## Model

| member | source | states |
|---|---|---|
| CQueues.CQueue.constructor | utils/cqueue/cqueue.c:30-40 | a new queue is empty and has the storage's size |
| CQueues.CQueue.LengthOfCQueue | utils/cqueue/cqueue.c:56-59 | the number of queued bytes |
| CQueues.CQueue.AvailableOfCQueue | utils/cqueue/cqueue.c:62-65 | capacity less the queued bytes |
| CQueues.CQueue.EnCQueue | utils/cqueue/cqueue.c:69-97 | all or nothing: the bytes join the end or nothing changes; queued bytes stay where they are in the storage |
| CQueues.CQueue.DeCQueue | utils/cqueue/cqueue.c:326-363 | drops exactly a prefix, or refuses and changes nothing; no live byte becomes unprotected |
| CQueues.CQueue.DeCQueueInto | utils/cqueue/cqueue.c:326-363 | the dropped prefix comes out in order, across the end of the ring |
| CQueues.CQueue.PeekCQueue | utils/cqueue/cqueue.c:366-395 | two segments that concatenate to the first `want` bytes, holding these and no other queued bytes, or an error |
| CQueues.CQueue.ResetCQueue | utils/cqueue/cqueue.c:528-532 | empty afterwards |
| RpcQueues.RpcQueue.Push | apps/app_rpc/rpc_queue.c:35-54 | answer and contents as `Pushed` says: refused pushes change nothing, accepted ones append one frame |
| RpcQueues.RpcQueue.GetNextEntryLength | apps/app_rpc/rpc_queue.c:56-75 | the length in front, read over the wrap, or 0 |
| RpcQueues.RpcQueue.ClearSegments | apps/app_rpc/rpc_queue.c:92-94 | zeroing two segments without queued bytes leaves the contents alone |
| RpcQueues.RpcQueue.Pop | apps/app_rpc/rpc_queue.c:77-99 | buffer and contents as `Popped` says; clearing the popped storage never touches live bytes |
| RpcFifo.PopOldest | apps/app_rpc/rpc_queue.c:56-99 | peeked length and pop give back the oldest message byte for byte and leave the rest |
| RpcFifo.StepRefines | apps/app_rpc/rpc_queue.c:35-99 | one push or receive is one step of a FIFO of messages, with the same answer |
| RpcFifo.RunRefinesFifo | apps/app_rpc/rpc_queue.c:35-99 | any run of pushes and receives answers like the FIFO and ends in its state |
| RpcFifo.PushWholeIff | apps/app_rpc/rpc_queue.c:41-46 | a push leaves a readable queue exactly when the length fits 16 bits or the push is refused |
| RpcTxWorker.StepKeepsInv | apps/app_rpc_old/rpc_bth_dsp.c:295-376 | every step of senders and worker keeps: tokens, releases still owed and a token in hand cover the queued messages, and only messages that pass both assertions are handled |
| RpcTxWorker.NoMessageStranded | apps/app_rpc_old/rpc_bth_dsp.c:295-376 | at rest the handled messages are the accepted ones in push order up to the first above 512 bytes or with an unregistered command code, and the worker has stopped on an assertion if and only if there is such a message |
| RpcTxWorker.GoodCallsNeverHalt | apps/app_rpc_old/rpc_bth_dsp.c:295-376 | in runs that send registered codes and payloads of at most 510 bytes the worker never stops, and at rest all is handled |
| RpcTxWorker.OneSendHaltsIff | apps/app_rpc_old/rpc_bth_dsp.c:295-376 | a single call that the sender lets through stops the worker in its turn if and only if the payload is above 510 bytes or the code is not registered, and else its message is handled |
| RpcTxWorker.UnknownCodeHalts | apps/app_rpc_old/rpc_bth_dsp.c:180-193 | an empty command with the unregistered code 0xffff is popped and stops the worker unhandled |
| RpcTxWorker.DrainIsBounded | apps/app_rpc_old/rpc_bth_dsp.c:307-329 | without new sends the system comes to rest: no schedule is longer than the work in the state |
| RpcTxWorker.CoreCtx.SendCmd | apps/app_rpc_old/rpc_bth_dsp.c:359-376 | the command code and payload are queued as one message, or the answer is a failure, and the semaphore is released either way; it is the two steps of the step system |
| RpcTxWorker.CoreCtx.GetTaskCmdEntry | apps/app_rpc_old/rpc_bth_dsp.c:180-193 | the first entry of the table with a code, or the end when the code is not registered |
| RpcTxWorker.CoreCtx.TxTurn | apps/app_rpc_old/rpc_bth_dsp.c:295-328 | one turn hands over the oldest message, whole; it stops the worker before the pop when the message is above 512 bytes, and behind the pop when its code is not registered |
| Cyclic.Offset | apps/audioplayers/a2dpplay.cpp:2314-2325 | the distance from read to write position, less than the ring, and going that far leads back to the write position |
| Cyclic.ModIsWrap | apps/audioplayers/a2dpplay.cpp:2344-2353 | one conditional subtraction is the position modulo the ring's size |
| CpInCaches.FreeLen | apps/audioplayers/a2dpplay.cpp:2607-2611 | free bytes are what the ring holds, less one, less the live bytes |
| CpInCaches.AacReadBytes | apps/audioplayers/a2dpplay.cpp:2222-2239 | a read size that exceeds the packet, at most double it above 64, within the buffer |
| CpInCaches.CpInCache.GetInCacheData | apps/audioplayers/a2dpplay.cpp:2328-2341 | the bytes of the window from the read position, across the wrap |
| CpInCaches.CpInCache.CopyPiece | apps/audioplayers/a2dpplay.cpp:2644-2656 | one segment lands in the ring in two pieces where needed |
| CpInCaches.CpInCache.CopyIn | apps/audioplayers/a2dpplay.cpp:2634-2676 | both segments land one behind the other; every other byte of the cache is unchanged |
| CpInCaches.CpInCache.CopyAndPublish | apps/audioplayers/a2dpplay.cpp:2634-2678 | the live bytes grow by exactly the two segments |
| CpInCaches.CpInCache.McuLoad | apps/audioplayers/a2dpplay.cpp:2595-2685 | the longest prefix of the queue that fits moves behind the live bytes |
| CpInCaches.CpInCache.LoadAacFrame | apps/audioplayers/a2dpplay.cpp:2200-2260 | on the bytes: waits for two, asks for the queue reset and answers 2 if and only if they announce 2048 or more, waits for the rest, or takes exactly the announced packet; nothing is consumed otherwise |
| CpInCaches.CpInCache.ReadHeader | apps/audioplayers/a2dpplay.cpp:2156-2161 | a header's worth of bytes, or none when fewer are there |
| CpInCaches.CpInCache.ScanForTag | apps/audioplayers/a2dpplay.cpp:2156-2172 | stops at the first tag of the live bytes, or finds that there is none |
| CpInCaches.CpInCache.TakeFrame | apps/audioplayers/a2dpplay.cpp:2172-2185 | takes what the header announces, or nothing, or says that the copy leaves the frame buffer |
| CpInCaches.CpInCache.LoadLhdcFrame | apps/audioplayers/a2dpplay.cpp:2128-2195 | readiness tests, result and consumed bytes of one load, the 32-bit sum of header and length included |
| CpInCaches.LhdcLoadIsParseIff | apps/audioplayers/a2dpplay.cpp:2156-2185 | on arbitrary live bytes a load is the parse of these bytes, unless the first header announces more than the buffer takes and the 32-bit test passes it, in which case the copy leaves the buffer |
| A2dpFrames.MoveOnFrame | apps/audioplayers/a2dpplay.cpp:2128-2260 | on any part of a stored frame a loader reads on, waits, or takes exactly the packet |
| A2dpFrames.ParseFrame | apps/audioplayers/a2dpplay.cpp:2128-2260 | loading after storing gives the packet back; an incomplete frame is left for later |
| A2dpFrames.AacSurvivesIff | apps/audioplayers/a2dpplay.cpp:2215-2239 | an AAC packet comes back exactly when it is shorter than 2048 bytes |
| A2dpFrames.AacOnBytes | apps/audioplayers/a2dpplay.cpp:2208-2245 | what a load makes of arbitrary bytes, byte by byte |
| A2dpFrames.AacRejectedIff | apps/audioplayers/a2dpplay.cpp:2222-2236 | a stored packet with anything behind it is rejected if and only if the low 16 bits of its length are 2048 or more |
| A2dpFrames.ScanStopsAtFirstTag | apps/audioplayers/a2dpplay.cpp:2156-2185 | on arbitrary bytes the scan ends, at the first tag, and takes just what that header announces |
| CpRing.StepKeepsInv | apps/audioplayers/a2dpplay.cpp:2595-2685 | every shared access, lock section and copied byte keeps the ring's invariant |
| CpRing.BytesConserved | apps/audioplayers/a2dpplay.cpp:2313-2353 | consumed, cached and queued bytes are all bytes ever enqueued, in order; equal positions mean empty |
| CpRing.CodeNeverBlocks | apps/audioplayers/a2dpplay.cpp:2617-2682 | no access the code makes without a check ever leaves its range, whatever the other side did |
| CpRing.CopyBytesIsSplice | apps/audioplayers/a2dpplay.cpp:2634-2676 | copying byte by byte writes what the memcpys write |
| CpRing.McuTurnMovesAllThatFits | apps/audioplayers/a2dpplay.cpp:2595-2685 | left alone, a turn of the MCU moves the longest prefix of the queue that leaves one place of the cache empty |
| A2dpPipeline.StoreAac | apps/audioplayers/a2dpplay.cpp:669-678 | length and packet are queued together or not at all |
| A2dpPipeline.StoreLhdc | apps/audioplayers/a2dpplay.cpp:645-666 | tag, length and packet are queued in one piece, or nothing; the frame leaves its 4096-byte buffer if and only if it is longer |
| A2dpPipeline.RestIsStream | apps/audioplayers/a2dpplay.cpp:649-678 | the bytes on their way are the frames of the packets still to come |
| A2dpPipeline.NextFollowsFrame | apps/audioplayers/a2dpplay.cpp:2128-2260 | the parser's next move, at any point of any interleaving, is right for the next packet |
| A2dpPipeline.StepKeepsInv | apps/audioplayers/a2dpplay.cpp:2128-2260 | every step of store side, MCU and coprocessor keeps the returned packets a prefix of the accepted ones |
| A2dpPipeline.PacketsInOrder | apps/audioplayers/a2dpplay.cpp:649-678 | packets come out byte for byte, in order, no header is rejected, and all are out once no byte is on its way |
| A2dpPipeline.StoresWholeIff | apps/audioplayers/a2dpplay.cpp:649-678 | a packet is accepted if and only if its frame fits the queue, and else nothing changes |
| A2dpPipeline.LoadStopsOnlyShort | apps/audioplayers/a2dpplay.cpp:2128-2260 | a load gives up only while the next frame is incomplete, and otherwise ends with that packet |
| A2dpPipeline.LoadReturnsNextIff | apps/audioplayers/a2dpplay.cpp:2128-2260 | a load left alone returns the next packet if and only if its whole frame is in the cache, and else nothing |
| CpSlots.StepKeepsInv | apps/audioplayers/a2dpplay.cpp:2454-2734 | every access to slot states, lengths, indices and bytes of the output cache keeps the three-slot invariant |
| CpSlots.FinishedSlotsFormRun | apps/audioplayers/a2dpplay.cpp:2355-2373 | finished slots are the cyclic run between the two indices, only the coprocessor's slot is being worked on, the rest are idle |
| CpSlots.HeldSlotIsNotCps | apps/audioplayers/a2dpplay.cpp:2688-2734 | a slot the MCU holds is finished and its index is not the coprocessor's |
| CpSlots.EachSlotOnceInOrder | apps/audioplayers/a2dpplay.cpp:2688-2734 | slots are released once, in production order; one is played if and only if it was good and finished before the first look of the call that releases it |
| CpSlots.QuietLooksPlayEveryGoodSlot | apps/audioplayers/a2dpplay.cpp:2700-2731 | when no slot is finished between the two looks of a call, every good slot that is released has been played |
| CpSlots.SealedIsGoodIff | apps/audioplayers/a2dpplay.cpp:2468-2482 | a slot is good if and only if one turn filled it from its first byte, so one that was resumed with bytes in it is never played |
| CpSlots.GoodSlotCanBeDropped | apps/audioplayers/a2dpplay.cpp:2700-2731 | a run in which a good slot finishes between the two looks and is released unplayed |
| CpSlotMemory.StepKeepsMem | apps/audioplayers/a2dpplay.cpp:2511-2734 | every step keeps: finished slots hold what their turns wrote, except for the bytes written over before they were copied |
| CpSlotMemory.PlayedIff | apps/audioplayers/a2dpplay.cpp:2541-2554 | what is played from a slot is what its turn wrote, byte by byte, unless a byte was written over before it was copied |
| CpSlotMemory.ContainedRunsPlayWhatWasMade | apps/audioplayers/a2dpplay.cpp:2541-2554 | when no write runs into a waiting slot, every played slot has exactly its turn's bytes |
| CpSlotMemory.OnlyResumedTurnsRunOver | apps/audioplayers/a2dpplay.cpp:2541-2554 | only a turn resumed behind bytes of its slot writes past it: into the waiting slot if and only if two are waiting and it is not the cache's last, past the cache if and only if it is the last |
| CpSlotMemory.PlayedCanDiffer | apps/audioplayers/a2dpplay.cpp:2541-2554 | a run in which a waiting slot is played with a byte of another slot's turn |
| CpSlotRing.SlotRing.constructor | apps/audioplayers/a2dpplay.cpp:2561-2592 | the slots before the first played one are idle, the others count as finished |
| CpSlotRing.SlotRing.OutPosition | apps/audioplayers/a2dpplay.cpp:2541-2552 | where a turn writes: behind the bytes of a resumed slot, else at its first byte |
| CpSlotRing.SlotRing.DecodeBegin | apps/audioplayers/a2dpplay.cpp:2356-2374 | an idle slot is taken and emptied, a finished one refused |
| CpSlotRing.SlotRing.StartTurn | apps/audioplayers/a2dpplay.cpp:2541-2554 | position and begin together are the begin steps of the protocol |
| CpSlotRing.SlotRing.WriteOutput | apps/audioplayers/a2dpplay.cpp:2511-2527 | a turn's output goes byte by byte where the protocol's writes go |
| CpSlotRing.WriteCallSplices | apps/audioplayers/a2dpplay.cpp:2511-2527 | and they stand there in the cache, with every other byte as before |
| CpSlotRing.SlotRing.DecodeEnd | apps/audioplayers/a2dpplay.cpp:2454-2482 | the end steps of the protocol on the arrays |
| CpSlotRing.SlotRing.CopyOut | apps/audioplayers/a2dpplay.cpp:2700-2715 | 0 with the slot's bytes if and only if it is done and full |
| CpSlotRing.SlotRing.Process | apps/audioplayers/a2dpplay.cpp:2688-2734 | the MCU's steps on the arrays; 0 is returned exactly with the bytes of a good slot |
| CpSlotRing.SlotRing.Release | apps/audioplayers/a2dpplay.cpp:2717-2731 | a finished slot is given back and the index moves on |
| LhdcAssembler.HistoryInv | apps/audioplayers/a2dpplay.cpp:1765-1879 | an open packet holds the payloads since a start fragment, with consecutive numbers |
| LhdcAssembler.EmittedPacketsAreWhole | apps/audioplayers/a2dpplay.cpp:1765-1879 | whatever arrives, an emitted packet is one single payload or one gapless packet from its start to its first last-fragment |
| LhdcAssembler.InOrderPacketEmittedIff | apps/audioplayers/a2dpplay.cpp:1765-1879 | a packet sent in order is emitted once and exact if and only if it stays below 4096 bytes |
| LhdcAssembler.SingleIsHandedOutIff | apps/audioplayers/a2dpplay.cpp:1801-1843 | in any state a packet in one fragment is emitted at once, with the number after it due next, if and only if no packet is open or it breaks the sequence of the open one |
| LhdcAssembler.SinglesComeOutInOrder | apps/audioplayers/a2dpplay.cpp:1801-1843 | packets in one fragment each come out as sent, none lost and none twice, whatever their numbers |
| LhdcAssembler.GapStartsOver | apps/audioplayers/a2dpplay.cpp:1782-1797 | after a gap a first fragment does what it does in a new reassembler, and any other leaves it without a packet |
| LhdcAssembler.LongStartKeepsSync | apps/audioplayers/a2dpplay.cpp:1819-1843 | a start that is too long for the buffer leaves the synchronisation as it was |
| LhdcAssembler.ErrorIff | apps/audioplayers/a2dpplay.cpp:1801-1872 | an error is answered exactly for a fragment that is no first one while none is open, and for one too long for its packet |
| LhdcAssembler.Assembler.constructor | apps/audioplayers/a2dpplay.cpp:1678-1684 | the initial state |
| LhdcAssembler.Assembler.ResetAssembly | apps/audioplayers/a2dpplay.cpp:1670-1676 | synchronisation and open packet are dropped, the number is kept |
| LhdcAssembler.Assembler.Start | apps/audioplayers/a2dpplay.cpp:1801-1845 | a fragment while no packet is open |
| LhdcAssembler.Assembler.Continue | apps/audioplayers/a2dpplay.cpp:1846-1872 | a fragment while a packet is open |
| LhdcAssembler.Assembler.Assemble | apps/audioplayers/a2dpplay.cpp:1765-1879 | return value, packet and new state of the reassembler, on its buffer, unless a single fragment is longer than that |
| LhdcStore.StaysInsideIff | apps/audioplayers/a2dpplay.cpp:645-666 | in any state, the packet a fragment completes leaves a buffer on its way if and only if it is longer than the 4088 bytes the loader has room for |
| LhdcStore.InOrderPacketStored | apps/audioplayers/a2dpplay.cpp:645-666 | a packet sent in order leaves the frame buffer if and only if it has 4089 to 4095 bytes; up to 4088 exactly its frame is queued, and from 4096 on nothing |
| LhdcStore.SinglesStored | apps/audioplayers/a2dpplay.cpp:645-666 | with room for all, the frames of packets in one fragment each join the queue in order, unless one is longer than 4088 bytes |
| LhdcStore.TwoFragmentsOverrun | apps/audioplayers/a2dpplay.cpp:645-666 | two fragments of 2000 and 2089 bytes are such a packet |
| LhdcStore.StoreFragment | apps/audioplayers/a2dpplay.cpp:645-666 | one fragment through reassembler and queue |
| ScoReframe.ShiftDown | apps/audioplayers/bt_sco_chain_reframe.c:227-231 | the overlapping ascending copy moves the rest of a queue to its front |
| ScoReframe.Queues.constructor | apps/audioplayers/bt_sco_chain_reframe.c:329-356 | empty input, the pre-cache as output |
| ScoReframe.Queues.WriteInput | apps/audioplayers/bt_sco_chain_reframe.c:147-168 | the samples join the input, or an overflow changes nothing |
| ScoReframe.Queues.ReadInput | apps/audioplayers/bt_sco_chain_reframe.c:170-192 | the oldest samples leave the input, or zeros come back |
| ScoReframe.Queues.WriteOutput | apps/audioplayers/bt_sco_chain_reframe.c:194-213 | the samples join the output, or an overflow drops them |
| ScoReframe.Queues.ReadOutput | apps/audioplayers/bt_sco_chain_reframe.c:215-236 | the oldest samples leave the output, or zeros come back |
| ScoReframe.Queues.RunThread | apps/audioplayers/bt_sco_chain_reframe.c:274-319 | a turn moves every whole 320-block for which there is room and loses one more if there is one; with room for all less than a block stays and the stream through both queues is what it was |
| ScoReframe.DrainDrains | apps/audioplayers/bt_sco_chain_reframe.c:274-314 | for any queues: all whole blocks move when there is room, else those for which there is, and one more is lost |
| ScoReframe.DrainedToKeepsStream | apps/audioplayers/bt_sco_chain_reframe.c:274-314 | with room for all, less than a block stays and the stream through both queues is what it was |
| ScoReframe.VpIsVoicePickUp | apps/audioplayers/bt_sco_chain_reframe.c:300-302 | what goes through is the voice pick-up channel, whatever the others carry |
| ScoReframe.Queues.TxProcess | apps/audioplayers/bt_sco_chain_reframe.c:412-437 | a frame goes in, or is lost without room, and a frame comes out, or zeros without samples |
| ScoReframeRuns.StepKeepsInv | apps/audioplayers/bt_sco_chain_reframe.c:147-327 | every step of caller and thread keeps the stream and the arithmetic bounds |
| ScoReframeRuns.OutputIsDelayedInput | apps/audioplayers/bt_sco_chain_reframe.c:412-429 | pre-cache and input come out unbroken, with one zero block per underflow; no write overflows and no block is dropped |
| ScoReframeRuns.UnlockedTestsAreSafe | apps/audioplayers/bt_sco_chain_reframe.c:147-236 | a length test made outside the lock still holds when the lock is taken |
| ScoReframeRuns.UnderflowIff | apps/audioplayers/bt_sco_chain_reframe.c:215-236 | after u underflows a read underflows exactly when more than 640 + u*IO samples are unprocessed at its test |
| ScoReframeRuns.NoBlockLeftBehind | apps/audioplayers/bt_sco_chain_reframe.c:274-319 | a thread that rests after its signal has left less than a block |
| ScoReframeRuns.DrainedNeverUnderflows | apps/audioplayers/bt_sco_chain_reframe.c:64 | if the thread drains between calls there is never an underflow |
| ScoReframeRuns.TurnIsDrain | apps/audioplayers/bt_sco_chain_reframe.c:263-325 | however many steps it takes, a thread left alone has made of both queues what one turn makes of them when it sleeps again, a block without room included |
| ScoReframeRuns.TurnEnds | apps/audioplayers/bt_sco_chain_reframe.c:263-325 | from any state there is such a turn |
| ScoReframeRuns.CallAlone | apps/audioplayers/bt_sco_chain_reframe.c:412-437 | the steps of one call left alone are one call on the queues, with the signal |
| ScoCpHandoff.ScoCp.constructor | apps/audioplayers/bt_sco_chain_cp.c:186-231 | the state after sco_cp_init: zeroed buffers, one frame of output, idle |
| ScoCpHandoff.ScoCp.Process | apps/audioplayers/bt_sco_chain_cp.c:110-130 | request in, previous reply out, length swapped, WORKING, on the shared buffers |
| ScoCpHandoff.ScoCp.CpMain | apps/audioplayers/bt_sco_chain_cp.c:152-185 | the algorithm in place on the input buffer, its result copied out, IDLE |
| ScoCpHandoff.StepKeepsInv | apps/audioplayers/bt_sco_chain_cp.c:89-185 | every step of both cores keeps exclusion and the match with the sequential reference |
| ScoCpHandoff.OneFrameDelay | apps/audioplayers/bt_sco_chain_cp.c:89-185 | call k returns the algorithm's result for call k-1, and the first call zeros |
| ScoCpHandoff.BuffersAreExclusive | apps/audioplayers/bt_sco_chain_cp.c:103-130 | the MCU touches the buffers only in IDLE, the coprocessor only in WORKING, never both |
| CrcRegisters.SerialIsRemainder | tools/generate_crc32_of_image.py:66-73 | the bit-serial register holds the remainder of schoolbook polynomial division |
| CrcRegisters.ShiftsByTable | tools/generate_crc32_of_image.py:72 | why a table works: n shifts depend on the first n bits alone, the others only move up |
| CrcRegisters.BurstChangesSerial | tools/generate_crc32_of_image.py:66-73 | messages that differ in one burst no longer than the register have different remainders |
| ImageCrcTable.EntryIsRound8 | tools/generate_crc32_of_image.py:7-61 | each of the 256 literals is its index after eight shifts |
| ImageCrc.PolyIsGenerator | tools/generate_crc32_of_image.py:7-61 | the constant behind the table has the powers of the generator of section 3.2.9 of IEEE 802.3 |
| ImageCrc.TableStep | tools/generate_crc32_of_image.py:72 | one turn of the loop feeds the eight bits of a byte to the bit-serial register |
| ImageCrc.Createcrc32 | tools/generate_crc32_of_image.py:66-73 | for every message the result is the bit-serial CRC-32 |
| ImageCrc.ChecksumIsRemainder | tools/generate_crc32_of_image.py:66-73 | the checksum is the complemented remainder of dividing the message by the generator |
| ImageCrc.BurstIsDetected | tools/generate_crc32_of_image.py:66-73 | any burst of up to 32 bits changes the checksum |
| ImageCrc.FourBytesAreDetected | tools/generate_crc32_of_image.py:66-73 | any change within four neighbouring bytes changes the checksum |
| MsbcPackets.HeaderAcceptsIff | apps/audioplayers/plc_utils.c:124-206 | the header check accepts exactly what an encoder makes, with that sequence number, up to the padding byte |
| MsbcPackets.ErrorCodeIs | apps/audioplayers/plc_utils.c:124-206 | -4 for a good start with a wrong CRC, and before that the first of the three tests that fails |
| MsbcPackets.HeaderBurstIsDetected | apps/audioplayers/plc_utils.c:157-194 | a burst of up to eight bits in the protected bytes of an accepted packet is always found |
| MsbcPackets.Crc8Is | apps/audioplayers/plc_utils.c:128-132 | the polynomial of the header CRC has the powers 8, 4, 3, 2 and 0, and the start value is 0x0f |
| MsbcPackets.TableFeedsByte | apps/audioplayers/plc_utils.c:157-179 | one table look-up is eight steps of the bit-serial CRC-8 |
| MsbcPackets.SumScaleFactors | apps/audioplayers/plc_utils.c:166-190 | the loop sums bytes 6 to 9, so the result is the bit-serial CRC over bytes 3, 4 and 6 to 9; its 4-bit branch is dead |
| MsbcPackets.ParseSynchronizationHeader | apps/audioplayers/plc_utils.c:124-206 | error code, or sequence number, of the header check |
| PacketLoss.MemcmpU8 | apps/audioplayers/plc_utils.c:209-217 | true exactly when the bytes differ |
| PacketLoss.CheckPattern | apps/audioplayers/plc_utils.c:241-249 | true exactly when all bytes are the mute pattern |
| PacketLoss.CheckTransmitterOffset | apps/audioplayers/plc_utils.c:259-288 | true exactly when the part before or behind the offset is muted |
| PacketLoss.PacketLossState.constructor | apps/audioplayers/plc_utils.c:311-319 | the detector's initial state |
| PacketLoss.PacketLossState.UpdateBleScoConflict | apps/audioplayers/plc_utils.c:221-230 | whether the packet before the last came again, and the memory of the last two packets |
| PacketLoss.PacketLossState.CheckBleScoConflict | apps/audioplayers/plc_utils.c:232-238 | the verdict enters the two flags |
| PacketLoss.PacketLossState.CheckHeader | apps/audioplayers/plc_utils.c:344-399 | the verdict on header, CRC and sequence, and the new last number |
| PacketLoss.PacketLossState.UpdateHistogram | apps/audioplayers/plc_utils.c:405-418 | one counter up, and PASS down for a decoder error, in 32 bits |
| PacketLoss.PacketLossState.Process | apps/audioplayers/plc_utils.c:321-403 | verdict and whole new state for one packet |
| PacketLossRuns.PassIff | apps/audioplayers/plc_utils.c:321-403 | a packet passes exactly when it is an encoder's with the due number, and neither muted, behind a muted part, nor repeated |
| PacketLossRuns.RefusalIs | apps/audioplayers/plc_utils.c:321-403 | header error, CRC error and sequence error are reported exactly for a bad start, a bad CRC and a number that is not due |
| PacketLossRuns.NotCountedIs | apps/audioplayers/plc_utils.c:321-403 | mute, offset and conflict are reported exactly for such packets, asked in this order |
| PacketLossRuns.OffsetMutedIff | apps/audioplayers/plc_utils.c:259-288 | a packet is muted at an offset exactly when its front part is, or, unless it starts with the pattern, the rest |
| PacketLossRuns.BurstIsCrcError | apps/audioplayers/plc_utils.c:344-352 | a good packet with a burst of up to eight bits in the protected bytes is judged a CRC error |
| PacketLossRuns.LastSeqIsOfPass | apps/audioplayers/plc_utils.c:321-403 | a last number is kept exactly after a PASS, and it is that packet's |
| PacketLossRuns.AdjacentPassesAreConsecutive | apps/audioplayers/plc_utils.c:321-403 | two PASS verdicts in a row carry consecutive numbers modulo 4 |
| PacketLossRuns.ConflictIsRepetition | apps/audioplayers/plc_utils.c:221-238 | a conflict verdict means that the packet before the last came again |
| PacketLossRuns.ConflictIsNotReportedTwice | apps/audioplayers/plc_utils.c:219-238 | a conflict is not reported a second time two packets later when the packet between is neither muted nor muted at the offset |
| PacketLossRuns.SecondReportIff | apps/audioplayers/plc_utils.c:219-238 | it is if and only if the same packet comes a third time and is neither, the one between is, and the last one asked before the first report was no conflict |
| PacketLossRuns.ReportedTwice | apps/audioplayers/plc_utils.c:219-238 | a packet that comes three times with a muted one between each two is reported twice |
| PacketLossRuns.StrayKeepsFresh | apps/audioplayers/plc_utils.c:134-146 | a packet that does not start with the header byte never passes and leaves no number |
| PacketLossRuns.ContinuousStreamPassesIff | apps/audioplayers/plc_utils.c:321-403 | a continuous encoder stream passes at every packet if and only if no packet looks muted behind its offset |
| PacketLossRuns.AlignedStreamPasses | apps/audioplayers/plc_utils.c:259-266 | so it always passes with a mute pattern other than zero, or with offsets 0, 1, 58 and 59 |
| PacketLossRuns.CountersCount | apps/audioplayers/plc_utils.c:405-418 | each counter is the number of its verdicts modulo 2^32, decoder errors taken back from PASS |
| PacketLossRuns.CountersAddUp | apps/audioplayers/plc_utils.c:405-418 | the counters add up to the packets processed, modulo 2^32 |
| MsbcDecoder.InsideIff | apps/audioplayers/bt_sco_codec_msbc.c:393-406 | the extraction reads inside the 181 bytes except for offset 1 with the second packet one byte late |
| MsbcDecoder.BeyondMattersIff | apps/audioplayers/bt_sco_codec_msbc.c:393-406 | a packet handed on depends on the byte behind the buffer if and only if its reads leave the buffer |
| MsbcDecoder.LateSecondReadsPast | apps/audioplayers/bt_sco_codec_msbc.c:266-406 | a first call of 120 bytes whose second packet ends with the byte behind the buffer |
| MsbcDecoder.SyncIsDroppedIff | apps/audioplayers/bt_sco_codec_msbc.c:299-391 | a locked decoder loses its sync in a call if and only if at one of the two places no packet stands within a byte and no muted header |
| MsbcDecoder.SyncIsFoundIff | apps/audioplayers/bt_sco_codec_msbc.c:266-391 | one without sync gets it if and only if a pattern is found and no place behind the first one is vacant |
| MsbcDecoder.DriftIsFollowed | apps/audioplayers/bt_sco_codec_msbc.c:318-379 | a packet one byte early, in place or one byte late is taken where it is |
| MsbcDecoder.OffsetComesBack | apps/audioplayers/bt_sco_codec_msbc.c:408-416 | the reported offset and the transport's bytes make up the decoder's offset modulo 60 |
| MsbcDecoder.NoSyncHandsOnBytes | apps/audioplayers/bt_sco_codec_msbc.c:393-406 | without a sync and without a pattern the first 120 bytes of the buffer go on as they are |
| MsbcDecoder.Decoder.constructor | apps/audioplayers/bt_sco_codec_msbc.c:98-131 | zeroed buffer, no sync |
| MsbcDecoder.Decoder.CopyIn | apps/audioplayers/bt_sco_codec_msbc.c:247-249 | the call's bytes stand behind the kept 60 |
| MsbcDecoder.Decoder.Search | apps/audioplayers/bt_sco_codec_msbc.c:266-269 | the first place of the window that shows the pattern |
| MsbcDecoder.Decoder.FindFirst | apps/audioplayers/bt_sco_codec_msbc.c:266-283 | sync, offset and place of the first packet |
| MsbcDecoder.Decoder.CheckAgain | apps/audioplayers/bt_sco_codec_msbc.c:318-379 | drift and abnormality of one expected place |
| MsbcDecoder.Decoder.CheckPlaces | apps/audioplayers/bt_sco_codec_msbc.c:285-391 | both places checked, sync dropped if one is abnormal |
| MsbcDecoder.Decoder.Take | apps/audioplayers/bt_sco_codec_msbc.c:266-416 | the two packets of a filled buffer, with the byte behind it where that is read, and the reported offset |
| MsbcDecoder.Decoder.Slide | apps/audioplayers/bt_sco_codec_msbc.c:505-507 | the last 60 bytes become the kept ones |
| MsbcDecoder.Decoder.Decode | apps/audioplayers/bt_sco_codec_msbc.c:222-511 | one call as a whole: packets, offset and new state |
| MsbcStream.FirstCallFinds | apps/audioplayers/bt_sco_codec_msbc.c:266-283 | on an aligned stream the first call locks on the first packet |
| MsbcStream.SlotIsGood | apps/audioplayers/bt_sco_codec_msbc.c:299-379 | both expected places of every call show the pattern without drift, or hold the bytes before the first packet |
| MsbcStream.RunStaysLocked | apps/audioplayers/bt_sco_codec_msbc.c:266-391 | the decoder is locked at the stream's offset from its first call on |
| MsbcStream.PacketsInOrder | apps/audioplayers/bt_sco_codec_msbc.c:393-406 | every packet is extracted once and in order for all 60 offsets; with offset 1 the last byte of a call's second packet reads 0 |
| MsbcRecovery.RecoversInTwoCalls | apps/audioplayers/bt_sco_codec_msbc.c:266-391 | a decoder locked anywhere, when the packets stand elsewhere from some call on, loses the sync in that call, finds the new offset in the next and keeps it |
| MsbcRecovery.ExtractsFromSecondCall | apps/audioplayers/bt_sco_codec_msbc.c:266-406 | and from that next call on it extracts every packet, as on a stream that had the offset from the start |
| MsbcLink.Encoder.WritePacket | apps/audioplayers/bt_sco_codec_msbc.c:201-213 | header, number, frame and padding at their place, nothing else written |
| MsbcLink.Encoder.Encode | apps/audioplayers/bt_sco_codec_msbc.c:187-220 | the buffer holds the packets of the frames with consecutive numbers |
| MsbcLink.SentPacket | apps/audioplayers/bt_sco_codec_msbc.c:187-220 | packet m of the encoder's bytes |
| MsbcLink.HeardIsAligned | apps/audioplayers/bt_sco_codec_msbc.c:187-220 | an encoder's stream shows the pattern at every packet |
| MsbcLink.DecoderHandsOn | apps/audioplayers/bt_sco_codec_msbc.c:393-418 | what the decoder hands to the loss detection, slot by slot, with its offset |
| MsbcLink.EveryPacketPassesIff | apps/audioplayers/bt_sco_codec_msbc.c:393-420 | for every offset all packets handed on pass if and only if none looks muted; a stray first slot never passes |
| MsbcLink.EncodedStreamPassesIff | apps/audioplayers/bt_sco_codec_msbc.c:222-420 | end to end: what the encoder made is extracted packet by packet and passes if and only if no packet looks muted |
| XxxxDecoder.ExpectedCountsOn | apps/audioplayers/bt_sco_codec_xxxx.c:215-283 | the expected number is the last one heard plus the slots since, whatever was lost between |
| XxxxDecoder.IntactRefusedIff | apps/audioplayers/bt_sco_codec_xxxx.c:228-252 | an intact packet is refused exactly when the last number heard was a wrong one |
| XxxxDecoder.LossesCostNothing | apps/audioplayers/bt_sco_codec_xxxx.c:215-283 | without wrong numbers every intact packet is accepted |
| XxxxDecoder.WrongCostsAtMostOne | apps/audioplayers/bt_sco_codec_xxxx.c:215-283 | refused intact packets never outnumber wrong numbers |
| XxxxDecoder.HeardIff | apps/audioplayers/bt_sco_codec_xxxx.c:57-76 | a packet shows a number exactly when it is what an encoder makes of some payload with it, and is not muted |
| XxxxDecoder.AcceptedIff | apps/audioplayers/bt_sco_codec_xxxx.c:222-252 | any packet is accepted if and only if it shows a number that carries on from the last one shown, if there was one |
| XxxxDecoder.RefusalIs | apps/audioplayers/bt_sco_codec_xxxx.c:222-252 | and else is counted as muted, as badly framed, or as out of sequence |
| XxxxDecoder.CountersArePackets | apps/audioplayers/bt_sco_codec_xxxx.c:215-283 | each loss counter is the number of such packets modulo 2^32 |
| XxxxDecoder.CountersAddUp | apps/audioplayers/bt_sco_codec_xxxx.c:35-41 | mute, parser and sequence counters and the accepted packets make up the total, modulo 2^32 |
| XxxxDecoder.Decoder.constructor | apps/audioplayers/bt_sco_codec_xxxx.c:98-108 | no number expected, counters zero |
| XxxxDecoder.Decoder.CheckMutePattern | apps/audioplayers/bt_sco_codec_xxxx.c:68-76 | true exactly for a muted packet |
| XxxxDecoder.Decoder.GetPacketIndex | apps/audioplayers/bt_sco_codec_xxxx.c:57-66 | the index of a code, or 0xff |
| XxxxDecoder.Decoder.CheckPacket | apps/audioplayers/bt_sco_codec_xxxx.c:222-252 | verdict, counter and expected index of one packet |
| XxxxDecoder.Decoder.DecodePacket | apps/audioplayers/bt_sco_codec_xxxx.c:215-283 | one turn of the loop keeps index and counters those of the whole stream |
| FirUpsampler.FilterOfConcat | apps/audioplayers/upsampling_to_48k.cpp:64-100 | two calls in a row are one: the history carries everything over |
| FirUpsampler.ChunksDoNotMatter | apps/audioplayers/upsampling_to_48k.cpp:64-100 | for any cut of the input into calls the outputs and the history are those of one call |
| FirUpsampler.OutputAt | apps/audioplayers/upsampling_to_48k.cpp:69-81 | output i*ratio+phase is that phase's filter over the 24 samples ending with input i |
| FirUpsampler.ImpulseResponse | apps/audioplayers/upsampling_to_48k.cpp:69-81 | one sample among zeros comes out of each phase times that phase's coefficients, the last one first, and then silence |
| FirUpsampler.TablesAreMirrored | apps/audioplayers/upsampling_to_48k.cpp:20-44 | each phase's row read backwards is the row of the opposite phase |
| FirUpsampler.Sums8k | apps/audioplayers/upsampling_to_48k.cpp:20-28 | the rows of the 8 kHz table add up to 31750, 31753 and 31760, the gain of a constant input |
| FirUpsampler.Sums16k | apps/audioplayers/upsampling_to_48k.cpp:39-44 | those of the 16 kHz table to 31753 and 31760 |
| FirUpsampler.NeverOverflowsIff | apps/audioplayers/upsampling_to_48k.cpp:71-75 | a row keeps all inputs up to m inside 32 bits exactly when m times its absolute sum fits |
| FirUpsampler.SixfoldNeverOverflowsIff | apps/audioplayers/upsampling_to_48k.cpp:20-28 | for the 8 kHz table exactly when m <= 29835 |
| FirUpsampler.ThreefoldNeverOverflowsIff | apps/audioplayers/upsampling_to_48k.cpp:39-44 | for the 16 kHz table exactly when m <= 30450 |
| FirUpsampler.OutputIsIdeal | apps/audioplayers/upsampling_to_48k.cpp:69-81 | for samples within 29835 every output is the convolution itself, shifted |
| FirUpsampler.Memcpy16 | apps/audioplayers/app_audio.cpp:309-317 | the ascending copy, also where source and target overlap with the target in front |
| FirUpsampler.Upsampler.constructor | apps/audioplayers/upsampling_to_48k.cpp:56-60 | zero history |
| FirUpsampler.Upsampler.Accumulate | apps/audioplayers/upsampling_to_48k.cpp:71-76 | the 32-bit accumulator after all 24 coefficients |
| FirUpsampler.Upsampler.RunPhases | apps/audioplayers/upsampling_to_48k.cpp:70-80 | all phases of one input, nothing else written |
| FirUpsampler.Upsampler.UpdateHistory | apps/audioplayers/upsampling_to_48k.cpp:83-97 | the history is the last 23 samples, for short calls as well |
| FirUpsampler.Upsampler.Run | apps/audioplayers/upsampling_to_48k.cpp:64-100 | outputs, count and history of one call |
| AudioList.List.StreamExist | apps/audioplayers/app_audio.cpp:586-611 | true exactly when a stream is listed |
| AudioList.List.FilterExist | apps/audioplayers/app_audio.cpp:613-648 | true exactly for a second ring, or another prompt behind three entries |
| AudioList.List.PlaybackExist | apps/audioplayers/app_audio.cpp:650-672 | true exactly when a prompt is listed |
| AudioList.List.FindNext | apps/audioplayers/app_audio.cpp:546-562 | the first entry with an id |
| AudioList.NoBlockIff | apps/audioplayers/app_audio.cpp:691-760 | an open finds the pool of 20 blocks empty if and only if the list has 20 entries, unless it is refused or is a prompt that clears a full list without a stream |
| AudioList.FrontIsNeverKept | apps/audioplayers/app_audio.cpp:711-728 | a prompt that finds the list full takes its place alone, or finds no block when a stream is listed; the front entry is never kept instead |
| AudioList.FrontIsKeptWithSpareBlock | apps/audioplayers/app_audio.cpp:711-728 | with a larger pool it would be, if a stream is listed |
| AudioList.RefusedIff | apps/audioplayers/app_audio.cpp:613-648 | an open is refused exactly for a second ring, or another prompt behind three entries |
| AudioList.StartedIff | apps/audioplayers/app_audio.cpp:691-760 | what is listed is started at once if and only if it is a stream or no other prompt is in front of it |
| AudioList.List.Remove | apps/audioplayers/app_audio.cpp:573-576 | the entry goes and its block is free again |
| AudioList.List.AppendEntry | apps/audioplayers/app_audio.cpp:691-760 | new list and answer of an open request for a pool of any size, overflow included, or that a block was missing |
| AudioList.List.LastAiVoice | apps/audioplayers/app_audio.cpp:843-856 | the last AI voice entry |
| AudioList.List.RmvPrompt | apps/audioplayers/app_audio.cpp:781-836 | the first prompt goes, and what is opened next |
| AudioList.List.RmvStream | apps/audioplayers/app_audio.cpp:838-873 | the entry a stream's close request takes off |
| AudioList.List.RmvCallback | apps/audioplayers/app_audio.cpp:762-877 | list and next entry of a close request |
| AudioList.List.RmvByInfo | apps/audioplayers/app_audio.cpp:879-911 | the first entry with an id is taken off |
| AudioList.List.Clear | apps/audioplayers/app_audio.cpp:913-916 | empty afterwards, with the blocks of all entries free |
| AudioListRuns.RequestRefines | apps/audioplayers/app_audio.cpp:691-877 | one request on the list, closes at either end included, is that request on a row of streams and a row of prompts; it breaks the list if and only if it needs a block on a full one |
| AudioListRuns.StepKeepsLimits | apps/audioplayers/app_audio.cpp:613-648 | at most one ring and at most three other prompts, after every request |
| AudioListRuns.CloseStreamKeepsPromptsIff | apps/audioplayers/app_audio.cpp:838-873 | closing a stream leaves the prompts alone if and only if it is not a close at the tail, of other than AI voice, with a stream listed and a prompt there |
| AudioListRuns.StepIsQueue | apps/audioplayers/app_audio.cpp:762-800 | but for such a close, prompts leave from the front and join at the back; a cleared list loses all of them |
| AudioListRuns.KeepsQueueIff | apps/audioplayers/app_audio.cpp:762-877 | a request keeps the prompts a queue if and only if it is not such a close over prompts that differ |
| AudioListRuns.StepConserves | apps/audioplayers/app_audio.cpp:691-877 | the prompts there and coming are those gone and staying, for every request |
| AudioListRuns.FullNeedsRing | apps/audioplayers/app_audio.cpp:711-728 | only the ring of an incoming call ever finds the list full |
| AudioListRuns.StepKeepsSize | apps/audioplayers/app_audio.cpp:691-760 | a request that finds its block keeps the list within the 20 blocks |
| AudioListRuns.RunIsStreamsThenPrompts | apps/audioplayers/app_audio.cpp:691-877 | in every run the list is streams, then prompts within their limits, all within the pool, until an open needs a block on a full list |
| AudioListRuns.PromptsAreConserved | apps/audioplayers/app_audio.cpp:691-877 | in every run each prompt that came has gone or is there, as often as it came; the list shows it as long as the pool lasts |
| AudioListRuns.PromptsLeaveInOrder | apps/audioplayers/app_audio.cpp:762-877 | in runs without a close that takes the youngest prompt, prompts have left in the order they came |
| AudioListRuns.StreamsBeforePrompts | apps/audioplayers/app_audio.cpp:691-760 | the order of streams and prompts said of any two places |
| AudioListRuns.CloseAtHeadKeepsPrompts | apps/audioplayers/app_audio.cpp:838-873 | in every reachable state closing a stream at the head takes no prompt off the list |
| AudioListRuns.CloseTakesNamedIff | apps/audioplayers/app_audio.cpp:858-868 | a close request at the head takes the front entry, which is the named one if and only if that is in front |
| AudioListRuns.NextPromptInLine | apps/audioplayers/app_audio.cpp:797-803 | after a prompt the next one in line is opened |
| AudioListRuns.MusicAfterLastPrompt | apps/audioplayers/app_audio.cpp:802-806 | after the last prompt the first A2DP SBC stream is opened, wherever it is listed |
| AudioListRuns.OtherAfterLastPrompt | apps/audioplayers/app_audio.cpp:808-835 | without one it is the front entry, and without any entry left unlisted music if that is active |
| AudioListRuns.OnlyPromptsGoOn | apps/audioplayers/app_audio.cpp:762-877 | closing anything but a prompt, or on an empty list, opens nothing |
| AudioListRuns.AiVoiceTakesLast | apps/audioplayers/app_audio.cpp:841-856 | closing AI voice takes its last entry off |
| AudioListRuns.YoungestPromptCanGoFirst | services/audio_bt/app_bt_stream.cpp:7460-7499 | where prompts play over music: a call opened over music closes it at the tail, which takes the ring while an older notice stays |
| AudioListRuns.NoticeTakesItself | services/audio_bt/app_bt_stream.cpp:7475-7499 | where they do not: a notice opened over music closes it at the tail, which takes the notice and leaves the music listed |
| AudioListRuns.RepeatedOpensBreakIff | apps/audioplayers/app_audio.cpp:738-751 | opening one stream again and again finds the pool empty exactly from the 21st time on |

## Left out

- The SBC, AAC and LHDC codecs, the loss concealment and the speech algorithms are not modelled: frames are what an
  encoder made, and the coprocessor's algorithm is an arbitrary function that fits the buffers.
- Drivers, RTOS calls, timers, traces, dumps, flash and frequency requests. Of mutexes, semaphores and events only their
  meaning in the step systems is kept; the time-out of the hand-off's waiting loop is left out.
- CQueues.CQueue: not modelled are insertion at the front, the variants for AI audio and for word copies, and the
  copying and pulling helpers; a null source of EnCQueue, which reserves space without writing, is not modelled either.
- Request and response waiting of the RPC code.
- RpcTxWorker.CoreCtx.TxTurn: the handler of a command is taken to return; those that transmit wait for the other core.
- RpcTxWorker.StepKeepsInv: a failed assertion stops the worker; whether it stops the senders too is left open, and the
  lemmas hold either way.
- CpRing.StepKeepsInv: the statistics counters of packets per slot are not part of the state.
- CpSlots.StepKeepsInv: memory behind the output cache is taken as room for a fourth slot, where writes past the cache
  go; what else may lie there is not modelled.
- CpSlotRing.SlotRing.CopyOut: the caller's output size is the loop size it was initialised with.
- CpSlotRing.SlotRing.Process: the caller's output size is the loop size it was initialised with.
- A2dpFrames.ScanStopsAtFirstTag: the sum of header size and announced length is not wrapped at 2^32 there; the loader's
  `CpInCaches.LhdcLoadIsParseIff` has the wrap.
- LhdcAssembler.Assembler.Assemble: fragments are asked to have their two header bytes; the latency setting carried in
  the first one is a parameter of the loader.
- LhdcStore.StoreFragment: one try to queue the frame; the source waits and tries again while the queue is full.
- ScoReframe.Queues: the four input channels are kept as one sequence of four-channel samples; their copies in memory
  are not told apart. The pre-cache, which the source reads from a shorter buffer, is arbitrary.
- ScoReframeRuns.OutputIsDelayedInput: stated within the budget 640 + (u + 1) * IO <= 1280 for u underflows; what may be
  lost after more underflows than that is not described.
- ScoCpHandoff.ScoCp.Process: the waiting loop is in the step system; the method is its idle branch.
- MsbcPackets.TableFeedsByte: the table of the CRC-8 is in ROM and not part of this model; it is taken as the register
  after eight shifts.
- PacketLoss.PacketLossState.Process: the optional checks of the padding and of trailing zeros, which the source switches
  off, and the restart monitor are left out.
- MsbcPackets.ParseSynchronizationHeader: the default build; one with `MSBC_SYNC_HACKER` also accepts a zero header byte.
- MsbcDecoder.Decoder.Decode: calls of 120 bytes only, the flag of the next frame, which is never set, is left out, and
  the calls of the loss detection are joined on in MsbcLink.
- MsbcStream.PacketsInOrder: no drift; the drift branches are in Decode but not in the statement about whole streams.
- XxxxDecoder.Decoder: its encoder, which packs like the mSBC encoder, and the repair counter, which is never written.
- FirUpsampler.Upsampler.Run: source, target and history are different buffers.
- ImageCrc.Createcrc32: the search for the place of the checksum in the image, which also reports a match when only the
  last character differs.
- AudioList.List.AppendEntry: what memory holds once a block was missing; the pool of nodes, which all lists of the
  firmware share, never runs out.
- AudioList.List: the clearing of all prompts, which walks the list while
  removing from it, and builds with line-in as a source or without prompts in the list are left out.
- The older copy of the mSBC logic for voice over PCM, the CVSD delay line, battery, BLE, walkie-talkie, USB, WAV and test
  players: easier, finite, or mostly calls of the environment.
