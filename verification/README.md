# Headset stream and concurrency engines, in Dafny

The repository is firmware for Bluetooth headsets and speakers. This project models the engines in it that
move audio and messages between threads, between the two processor cores and between two devices, and proves
what those engines are for: nothing is lost, reordered, overwritten or decided twice, over whole runs and
every interleaving, or else exactly when that fails.

Check it with `dafny verify dfyconfig.toml` (Dafny 4.11).

## How the project is laid out

| module | models |
|---|---|
| `Wrappers`, `LengthPrefix` | an optional value; the byte format of both length-prefixed streams |
| `Ring` | wrap-around buffers described by conditional subtraction; used by both ring engines |
| `CQueue` | the byte queue the firmware calls `CQueue`. Its implementation is not part of this model: the class is written to the contract visible at its call sites, a FIFO whose peek returns two segments |
| `RpcQueue` | length-prefixed messages over that queue (`apps/app_rpc/rpc_queue.c`) |
| `AacFraming`, `A2dpInCache` | AAC length framing and the encoded-data ring between MCU and co-processor, as methods (`apps/audioplayers/a2dpplay.cpp`) |
| `A2dpInterleaving`, `AacPipeline`, `AacDrain` | the same ring with both cores running at once, byte by byte, AAC packets through it, and which of them arrive in the end |
| `DecodeSlots` | the lock-free three-slot hand-off of decoded PCM, as methods and as an interleaved state machine |
| `LhdcAssembly` | LHDC fragment reassembly |
| `Reframe`, `ReframeInterleaving` | the 240-to-320-sample reframer, as methods and with the caller and the thread interleaved guard by guard |
| `Upsampler`, `UpsamplerResponse` | the polyphase FIR upsampler, its accumulator bound, and its response to a ramp and to a single sample |
| `Crc8`, `SpeakerRole`, `ScanCache` | check byte, master election and scan cache of the paired speakers |
| `ScoPackets`, `XxxxCodec`, `PacketLoss`, `PacketLink` | packet numbering, the two different loss-tracking state machines, and the second one behind a lossy link |
| `Realign`, `WindowStream` | the CVSD delay line, the mSBC packet windows, and what the windows make of an encoder's late stream |
| `ScoCp` | the one-deep SCO pipeline between the cores |
| `QosFreq` | the quality-of-service frequency arbiter |

Code that works in place is a class or a method over arrays, proved equal to a function on values; the main
results are lemmas about those functions. What a function says is pinned down by properties that do not mention
it: in bytes, in counts of a run, or as the behaviour of the other side. Where threads or cores run at once, a
second module takes the code apart into its accesses to shared memory and proves an invariant of every
interleaving.

Where a plausible claim is false of the code, the code is kept and the exact condition is proved: see
`RpcQueue.PushAppendsIff`, `AacFraming.LoadAllStoredIff`, `AacDrain.DrainsIff`,
`LhdcAssembly.PacketIsDeliveredIff`, `LhdcAssembly.SingleIsDeliveredIff`, `DecodeSlots.LosesExactly`,
`DecodeSlots.RejectsExactlyResumed`, `ReframeInterleaving.UndrainedCallsLoseIff`,
`SpeakerRole.ExactlyOneMasterIff`, `SpeakerRole.ExactlyOneMasterByViewsIff`, `Upsampler.NeverOverflowsIff`,
`Realign.OffsetOneTilesIff`, `PacketLink.GapCostsExactly`, `PacketLoss.ConflictRepeatsIff`,
`PacketLoss.LostPacketRefusesBoth`, `PacketLoss.StampIsRefusedIff` and
`QosFreq.LoneRequestIsHonouredIff`. Some of these are easy to miss in the source.

- `mcu_decode_a2dp_process` reads the slot state twice, so a decode that ends between the two reads is
  discarded unplayed.
- The queue reset that a bad AAC header asks for empties the queue of the storing thread and not the
  co-processor's cache, so the header stays where it was (`AacDrain.ResetDoesNotUnblock`).
- A silent mSBC stream repeats its data every four packets. When two of them vanish, the next two that arrive
  undamaged are taken for conflicts (`PacketLink.SilentGapOfTwoCostsTwo`).
- The frequency table has holes on the one chip in the repository
  (`platform/hal/best1307/hal_cmu_best1307.h:364-376` has levels `apps/common/app_utils.c:54-68` does not
  list), and a request for such a level counts as no load.

The level search of the frequency arbiter needs only that level 0 stands for no load
(`QosFreq.SearchIsLeastCoverIff`), which the table guarantees, so it always finds the least cover.

Machine widths are explicit where they matter: 16-bit lengths and counts, 8-bit sequence numbers, 32-bit
accumulator and histogram words, 5-bit fields in a 64-bit word.

## Model

| member | source | states |
|---|---|---|
| RpcQueue.Push | apps/app_rpc/rpc_queue.c:35-54 | two length bytes and the data are appended together, or nothing is |
| RpcQueue.NextEntryLength | apps/app_rpc/rpc_queue.c:56-75 | the length read is the first two bytes, also when they lie in different segments; 0 when fewer are there |
| RpcQueue.Pop | apps/app_rpc/rpc_queue.c:77-99 | the popped bytes come back across the wrap, what is still queued is untouched, and every byte of the popped message is 0 in the buffer afterwards, on both sides of the wrap |
| RpcQueue.EncodeInjective | apps/app_rpc/rpc_queue.c:35-54 | different message sequences never have the same bytes |
| LengthPrefix.LowByteFirst | apps/audioplayers/a2dpplay.cpp:671-674 | an item stands behind its length, low byte first |
| RpcQueue.PushAppendsIff | apps/app_rpc/rpc_queue.c:35-54 | whatever is pushed, the bytes stand for the messages with the new one behind them if and only if the push is accepted and at most 65535 bytes long, and for the old messages if and only if it is refused; a message of that length is accepted if and only if it is not empty and fits |
| RpcQueue.OversizedPushBreaksFraming | apps/app_rpc/rpc_queue.c:39-48 | for every longer message an empty queue of any capacity accepts: the peeked length is its length modulo 65536, and popping that gives a piece of it with the rest taken for further messages, or zeros |
| RpcQueue.PopTakesHead | apps/app_rpc/rpc_queue.c:56-99 | the peeked length is the head message's length, and popping that many bytes, and no other number, takes exactly the head |
| RpcQueue.QueueRefinesFifo | apps/app_rpc/rpc_queue.c:35-99 | every run of pushes, peeks and takes (pops of the peeked length) answers as a FIFO of messages does and leaves the bytes of that FIFO |
| AacFraming.LoadHead | apps/audioplayers/a2dpplay.cpp:2200-2260 | what has arrived of the head packet alone decides between no header, bad header, incomplete and the whole packet |
| AacFraming.MaxRead | apps/audioplayers/a2dpplay.cpp:2222-2239 | the read bound is the first of 64, 128, 256, 512, 1024 and 2048 above the length |
| AacFraming.LoadAllStoredIff | apps/audioplayers/a2dpplay.cpp:668-678 | loading until nothing more comes returns exactly the stored packets, in order, if and only if all are shorter than 2048 bytes |
| A2dpInCache.StoreAac | apps/audioplayers/a2dpplay.cpp:668-678 | length and packet enter the queue together, or neither does, by the room there is |
| A2dpInCache.StaleRoom | apps/audioplayers/a2dpplay.cpp:2604-2624 | the room computed from an old read position never exceeds the room there is |
| A2dpInCache.Cache.LoadEncoded | apps/audioplayers/a2dpplay.cpp:2595-2685 | for every split of the queue and every wrap of the ring exactly the first min(queue length, free) bytes move behind the unread ones, and unread bytes are not overwritten, even with a stale read position |
| A2dpInCache.Cache.GetData | apps/audioplayers/a2dpplay.cpp:2328-2342 | reads come out in ring order across the wrap |
| A2dpInCache.Cache.LoadAac | apps/audioplayers/a2dpplay.cpp:2200-2260 | the loader computes the framing function of the unread bytes it can see, consumes a whole packet or nothing, and leaves the read position alone on an incomplete one, also when the length bytes straddle the end |
| A2dpInterleaving.McuByteKeepsUnread | apps/audioplayers/a2dpplay.cpp:2634-2675 | a byte the MCU copies while the co-processor reads changes no unread byte |
| A2dpInterleaving.McuPublishExtendsUnread | apps/audioplayers/a2dpplay.cpp:2677-2682 | publishing the write position appends exactly the copied bytes |
| A2dpInterleaving.CpFinishTakes | apps/audioplayers/a2dpplay.cpp:2314-2353 | publishing the read position removes exactly what was read |
| A2dpInterleaving.StepKeepsInv | apps/audioplayers/a2dpplay.cpp:2595-2685 | every step of the storing thread, the MCU and the co-processor keeps the ring invariant |
| A2dpInterleaving.RunIsFifo | apps/audioplayers/a2dpplay.cpp:2595-2685 | over every interleaving the ring never exceeds its capacity, and stored = taken + unread + still queued, in order |
| AacPipeline.DoneIsLoadFrame | apps/audioplayers/a2dpplay.cpp:2200-2260 | a co-processor that reads byte by byte and stops when it has a whole frame, or sees that there is none, takes exactly what the loader function takes |
| AacPipeline.PacketsSurvive | apps/audioplayers/a2dpplay.cpp:2200-2260 | over every interleaving, chunking and wrap, the packets reaching the decoder are those stored, whole and in order, and all of them once drained |
| AacDrain.DrainsIff | apps/audioplayers/a2dpplay.cpp:2200-2260 | from every reachable state, wherever the cores are in their loads and transfers, some continuation of theirs hands every stored packet to the decoder if and only if each one still outstanding is shorter than 2048 bytes and fits the cache with its length |
| AacDrain.TooLongBlocksForGood | apps/audioplayers/a2dpplay.cpp:2232-2243 | from every reachable state and over every continuation, further packets included, a packet that is too long for either never reaches the decoder, nor does anything behind it |
| AacDrain.BadHeadComes | apps/audioplayers/a2dpplay.cpp:2233-2237 | from every such state whose next packet is too long for the decoder, the cores come to a cache that begins with its bad header |
| AacDrain.ResetDoesNotUnblock | apps/audioplayers/a2dpplay.cpp:2902-2908 | from then on no packet reaches the decoder over any run, also with any number of the queue resets the bad header asks for |
| DecodeSlots.Slots.constructor | apps/audioplayers/a2dpplay.cpp:2561-2592 | the prefilled slots count as decoded |
| DecodeSlots.Slots.Begin | apps/audioplayers/a2dpplay.cpp:2356-2374 | computes the machine's begin step, including where a resumed attempt continues (2534-2553) |
| DecodeSlots.Slots.End | apps/audioplayers/a2dpplay.cpp:2454-2481 | computes the machine's end step: done, failed or to be retried |
| DecodeSlots.Slots.Process | apps/audioplayers/a2dpplay.cpp:2688-2733 | the slot's PCM comes out whole exactly when the slot was done and full; the slot is given back as the machine says |
| DecodeSlots.StepKeepsOrder | apps/audioplayers/a2dpplay.cpp:2356-2374 | whatever the decoder does, the slots cyclically from `mcu_dec_idx` to `cp_dec_idx` are exactly the done or failed ones, and the cores never touch the same slot |
| DecodeSlots.RunKeepsOrder | apps/audioplayers/a2dpplay.cpp:2454-2481 | the same after every run |
| DecodeSlots.HandOverBalances | apps/audioplayers/a2dpplay.cpp:2454-2481 | over every run, counted from its steps: slots waiting + slots given back = prefilled slots + decodes that ended, failed ones included on both sides; each end takes the co-processor one slot on, each give-back the MCU |
| DecodeSlots.GoodIsProduced | apps/audioplayers/a2dpplay.cpp:2454-2481 | over every run the decoded frames are, sample for sample, what the decoder wrote in the attempts that ended with one frame |
| DecodeSlots.ReleasesDecodedFramesInOrder | apps/audioplayers/a2dpplay.cpp:2496-2592 | as long as the decoder's writes stay in their slots, also when attempts are retried part-way: the slots given back are the prefilled ones followed by the successfully decoded frames, in order, each once |
| DecodeSlots.PlaysAllUnlessOvertaken | apps/audioplayers/a2dpplay.cpp:2700-2730 | as long as the decoder's writes stay in their slots: the frames skipped number exactly the decodes that end between the MCU's two reads of a slot state, and without such a coincidence every frame is played once, in order; `DecodeSlots.LosesExactly` has the count for all runs |
| DecodeSlots.DecodesCanBeOvertaken | apps/audioplayers/a2dpplay.cpp:2700-2730 | such a coincidence happens: an eight-step run from power-on gives a decoded frame back unplayed |
| DecodeSlots.DoneIsPlayedIff | apps/audioplayers/a2dpplay.cpp:2534-2556 | in every reachable state a decode that ends in DONE leaves the length the MCU demands if and only if it did not resume a partly filled slot |
| DecodeSlots.RejectsExactlyResumed | apps/audioplayers/a2dpplay.cpp:2534-2556 | over every run, whatever the decoder does, the frames rejected for their length, or waiting to be, number exactly the full decodes into a slot an earlier attempt had begun |
| DecodeSlots.DecodesCanResume | apps/audioplayers/a2dpplay.cpp:2534-2556 | such a run exists: six steps from power-on end a full frame in a begun slot, and the waiting slot behind it has lost its first sample |
| DecodeSlots.LosesExactly | apps/audioplayers/a2dpplay.cpp:2688-2733 | over every run, whatever the decoder does: the decoded frames given back unplayed, or bound to be, number exactly the full decodes that resumed a begun slot or ended between the MCU's two reads |
| DecodeSlots.ResumedFrameSpills | apps/audioplayers/a2dpplay.cpp:2542-2554 | a full frame decoded into a resumed slot overwrites as much behind the slot as had been filled: the start of the next slot, or memory behind the last |
| LhdcAssembly.Assembler.AssemblePacket | apps/audioplayers/a2dpplay.cpp:1765-1879 | the in-place code computes the assembly function on its state, return value and delivered packet |
| LhdcAssembly.HeldIsOpenRun | apps/audioplayers/a2dpplay.cpp:1765-1879 | after every run, what is held is the payloads of the latest consecutive fragments from a start fragment on; waiting for the last implies synced |
| LhdcAssembly.DeliveriesAreWholePackets | apps/audioplayers/a2dpplay.cpp:1765-1879 | every multi-fragment delivery is the payloads of consecutive calls with consecutive numbers modulo 256, from a start to a last fragment, never across a gap |
| LhdcAssembly.OutcomeByFlags | apps/audioplayers/a2dpplay.cpp:1782-1878 | what every call returns and leaves behind in any consistent state, from the three flag bits, the number and the length alone |
| LhdcAssembly.PacketOutcome | apps/audioplayers/a2dpplay.cpp:1804-1878 | what an in-order packet leads to from any state: delivered, delivered behind an unfinished packet, or dropped for size |
| LhdcAssembly.PacketIsDeliveredIff | apps/audioplayers/a2dpplay.cpp:1804-1878 | an in-order packet is delivered whole if and only if it is shorter than 4096 bytes and does not run into an unfinished packet without a numbering gap |
| LhdcAssembly.UnfinishedPacketIsGlued | apps/audioplayers/a2dpplay.cpp:1804-1878 | from a reachable state a complete packet comes out behind the unfinished one before it |
| LhdcAssembly.SingleIsDeliveredIff | apps/audioplayers/a2dpplay.cpp:1804-1878 | an unfragmented packet comes out at once if and only if no packet is unfinished or there is a numbering gap; otherwise it becomes part of the unfinished one or, if too long, ends it |
| LhdcAssembly.SingleIsSwallowed | apps/audioplayers/a2dpplay.cpp:1804-1878 | from a reachable state an unfragmented packet comes out inside the unfinished one before it |
| Reframe.Reframer.WriteInput | apps/audioplayers/bt_sco_chain_reframe.c:147-168 | appends the whole frame or refuses it, by the room there is |
| Reframe.Reframer.ReadInput | apps/audioplayers/bt_sco_chain_reframe.c:170-192 | takes the head and shifts the rest in place, or hands out silence and takes nothing |
| Reframe.Reframer.WriteOutput | apps/audioplayers/bt_sco_chain_reframe.c:194-213 | appends the whole frame or refuses it |
| Reframe.Reframer.ReadOutput | apps/audioplayers/bt_sco_chain_reframe.c:215-236 | takes the head and shifts the rest in place, or hands out silence |
| Reframe.Reframer.TxProcess | apps/audioplayers/bt_sco_chain_reframe.c:412-437 | one call's effect on both queues and what it returns |
| Reframe.Reframer.Drain | apps/audioplayers/bt_sco_chain_reframe.c:260-327 | the thread's inner loop moves whole processing frames until input or room runs out |
| Reframe.DrainKeepsComingIff | apps/audioplayers/bt_sco_chain_reframe.c:273-319 | a drain loses nothing if and only if there is room for all the whole frames it finds |
| Reframe.DrainLosesOneFrame | apps/audioplayers/bt_sco_chain_reframe.c:273-319 | otherwise it loses exactly one frame, the first that finds no room among 1280 samples, and the rest stays queued |
| Reframe.SessionIsDelay | apps/audioplayers/bt_sco_chain_reframe.c:412-437 | drained after every call, callers of any session hear what was on its way and then exactly the VP channel |
| Reframe.OpenedSessionIsDelay | apps/audioplayers/bt_sco_chain_reframe.c:329-373 | from power-on: 640 zeros, then the VP channel |
| ReframeInterleaving.StepKeepsGuards | apps/audioplayers/bt_sco_chain_reframe.c:147-236 | every guard tested outside the lock still holds when the locked body it lets through runs; the second test of the output length never fails |
| ReframeInterleaving.RunIsSafe | apps/audioplayers/bt_sco_chain_reframe.c:260-327 | over every interleaving no body leaves its buffer, both lengths stay within 0..1280, and accepted input passes through in order less the dropped frames |
| ReframeInterleaving.LatencyIsConserved | apps/audioplayers/bt_sco_chain_reframe.c:412-437 | between calls, in + in flight + out = 640 + frame length x (underflows - overflows) - 320 x drops |
| ReframeInterleaving.DrainedRunIsDelay | apps/audioplayers/bt_sco_chain_reframe.c:273-319 | if the thread is back in its wait before each call, nothing overflows, underflows or is dropped, and what was heard is a prefix of 640 zeros and the voice put in |
| ReframeInterleaving.ThreadDrains | apps/audioplayers/bt_sco_chain_reframe.c:260-327 | left to itself from any state, the thread's steps come to its wait with the queues as the sequential drain leaves them |
| ReframeInterleaving.CallIsServed | apps/audioplayers/bt_sco_chain_reframe.c:412-437 | the steps of one call and then of the thread until it waits are one call of a sequential session, in both queues and in the reply |
| ReframeInterleaving.UndrainedCallsLoseIff | apps/audioplayers/bt_sco_chain_reframe.c:219-224 | from any state, a row of whole calls with no step of the thread underflows nothing if and only if the output queue holds all their frames, and overflows nothing if and only if all of them fit the 1280 samples of the input queue |
| ReframeInterleaving.ThreeUndrainedCallsUnderflow | apps/audioplayers/bt_sco_chain_reframe.c:219-224 | so from power-on two 240-sample calls are served without the thread, three are not |
| Upsampler.ConvolveSplit | apps/audioplayers/upsampling_to_48k.cpp:69-99 | filtering a concatenation is filtering its parts, the second with 23 samples of history |
| Upsampler.ConvolveNext | apps/audioplayers/upsampling_to_48k.cpp:69-80 | each output sample is the coefficient row's sum over its own window |
| Upsampler.Fir.Run | apps/audioplayers/upsampling_to_48k.cpp:64-100 | one block call writes exactly the convolution of history and block, for any block length, and leaves the new history |
| Upsampler.Fir.Shift | apps/audioplayers/upsampling_to_48k.cpp:82-99 | the history moves in place, also for blocks shorter than 23 |
| Upsampler.StreamingEqualsBatch | apps/audioplayers/upsampling_to_48k.cpp:56-100 | for every signal and every division into blocks the concatenated outputs equal the one-shot convolution |
| Upsampler.RowSums | apps/audioplayers/upsampling_to_48k.cpp:20-44 | the absolute coefficient sums per phase, the largest being 71978 and 70524 |
| Upsampler.ExactBound | apps/audioplayers/upsampling_to_48k.cpp:69-80 | a partial sum is at most the amplitude times the absolute row sum |
| Upsampler.NeverOverflowsIff | apps/audioplayers/upsampling_to_48k.cpp:69-80 | every partial sum of every input fits 32 bits if and only if the amplitude is at most 29835 (ratio 6) or 30450 (ratio 3) |
| Upsampler.OutputIsExact | apps/audioplayers/upsampling_to_48k.cpp:69-80 | below that amplitude the 16-bit output is the exact sum, scaled and rounded down |
| UpsamplerResponse.ImpulseIs8KTable | apps/audioplayers/upsampling_to_48k.cpp:48-99 | at ratio 6 a single sample in silence, anywhere in a signal, comes out as the 8 kHz table: row p at phase p, the taps from the last to the first, and nothing elsewhere |
| UpsamplerResponse.ImpulseIs16KTable | apps/audioplayers/upsampling_to_48k.cpp:48-99 | the same at ratio 3 with the 16 kHz table |
| UpsamplerResponse.RampOutput | apps/audioplayers/upsampling_to_48k.cpp:69-80 | the outputs of a ramp are its slope times the first moments of the rows, in their order |
| UpsamplerResponse.RampRises | apps/audioplayers/upsampling_to_48k.cpp:69-80 | so between two input samples of a ramp the output rises strictly from phase to phase, for every slope from 13 up to the safe amplitude |
| Crc8.Calculate | apps/btspeaker/btspeaker_main.cpp:124-140 | the bit loop computes the byte-wise register function |
| Crc8.StepXor | apps/btspeaker/btspeaker_main.cpp:128-137 | one byte's step is linear over exclusive or |
| Crc8.CrcXor | apps/btspeaker/btspeaker_main.cpp:124-140 | the check byte of a bitwise sum is the sum of the check bytes |
| Crc8.AcceptedIsResidueZero | apps/btspeaker/btspeaker_main.cpp:391-393 | a frame is accepted if and only if the register over frame and check byte is zero |
| Crc8.BurstIsDetected | apps/btspeaker/btspeaker_main.cpp:461-464 | no change confined to eight neighbouring bits of an accepted frame of any length, check byte included, is accepted |
| Crc8.PassesIff | apps/btspeaker/btspeaker_main.cpp:461-464 | a changed frame is accepted if and only if the change itself has residue zero |
| Crc8.NineBitsCanPass | apps/btspeaker/btspeaker_main.cpp:124-140 | nine bits are not always detected |
| SpeakerRole.BeatsIsStrictTotalOrder | apps/btspeaker/btspeaker_main.cpp:300-382 | active profile, mobile connection, earlier time, larger address is a strict total order up to complete ties |
| SpeakerRole.ConfirmDecidesByOrder | apps/btspeaker/btspeaker_main.cpp:457-488 | the nested decision with its address tie-break, through the frame that carries both statuses, decides by that order |
| SpeakerRole.MasterPrecedes | apps/btspeaker/btspeaker_main.cpp:300-382 | the role, told from the bytes exchanged: active profile in the high half of the flags, mobile connection in their low two bits, the earlier setup time, then the larger byte at the first difference of the addresses |
| SpeakerRole.FrameBytes | apps/btspeaker/btspeaker_main.cpp:651-693 | where every field stands in the confirm frame |
| SpeakerRole.ForeignConfirmIsIgnored | apps/btspeaker/btspeaker_main.cpp:288-298 | a frame that names another speaker decides nothing |
| SpeakerRole.ExactlyOneMasterIff | apps/btspeaker/btspeaker_main.cpp:300-382 | two speakers with consistent views choose exactly one master and one slave if and only if anything the decision looks at differs |
| SpeakerRole.ExactlyOneMasterByViewsIff | apps/btspeaker/btspeaker_main.cpp:651-693 | whatever each side believes about the other, exactly one master and one slave result if and only if the two beliefs order the speakers alike |
| SpeakerRole.OutdatedViewsCanSplit | apps/btspeaker/btspeaker_main.cpp:651-693 | beliefs that do not: outdated setup times make both become master |
| SpeakerRole.DamagedConfirmIsIgnored | apps/btspeaker/btspeaker_main.cpp:461-464 | a frame damaged within eight bits decides nothing |
| ScanCache.Table.HandleDiscovery | apps/btspeaker/btspeaker_main.cpp:384-455 | the in-place code records a received frame, its check byte and product type checked, as the recording function says, and asks for confirmation at five |
| ScanCache.Table.MaxCountIndex | apps/btspeaker/btspeaker_main.cpp:595-608 | the confirmed entry has a maximum count, the first such |
| ScanCache.EvictsOnlyWeakest | apps/btspeaker/btspeaker_main.cpp:427-450 | an entry is replaced only in a full table, only the weakest, only by a signal at least as strong, and no other entry changes |
| ScanCache.NewcomerIsRecordedIff | apps/btspeaker/btspeaker_main.cpp:427-450 | a speaker that is not in the table gets in if and only if its advert is valid and some entry is free or no stronger |
| ScanCache.KnownIsUpdated | apps/btspeaker/btspeaker_main.cpp:414-426 | one that is in the table stays there, and nobody is put out for it |
| ScanCache.ParseInvertsFrame | apps/btspeaker/btspeaker_main.cpp:384-396 | the fields of a sent discovery frame are read back, and the low half of the product byte decides |
| ScanCache.ReachableTables | apps/btspeaker/btspeaker_main.cpp:384-455 | in every reachable table used entries form a prefix with distinct addresses; each 16-bit count is the number of valid adverts from that address since it came in, and strength and status are those of the latest of them |
| ScanCache.ConfirmedWasHeard | apps/btspeaker/btspeaker_main.cpp:414-427 | a speaker is confirmed only after five valid adverts from it |
| ScanCache.DamagedAdvertIsIgnored | apps/btspeaker/btspeaker_main.cpp:391-395 | a frame damaged within eight bits leaves the table alone |
| ScoPackets.Encoder.Encode | apps/audioplayers/bt_sco_codec_xxxx.c:172-188 | the packet loop writes the numbered packets back to back and advances the number modulo 4 |
| ScoPackets.StreamAt | apps/audioplayers/bt_sco_codec_msbc.c:200-217 | packet i of any call carries number p + i, header, payload and padding |
| ScoPackets.MutedIff | apps/audioplayers/bt_sco_codec_xxxx.c:68-76 | a packet counts as mute if and only if its first 59 bytes are the pattern |
| XxxxCodec.Receiver.Decode | apps/audioplayers/bt_sco_codec_xxxx.c:215-282 | the decoder loop computes the judging function over the packets of a call |
| XxxxCodec.GetPacketIndex | apps/audioplayers/bt_sco_codec_xxxx.c:57-66 | the index is that of the byte in the table, or invalid if it is not in it |
| XxxxCodec.HistogramBalances | apps/audioplayers/bt_sco_codec_xxxx.c:222-276 | over every run total = accepted + mute + parser + seq |
| XxxxCodec.HistogramByCause | apps/audioplayers/bt_sco_codec_xxxx.c:222-258 | over every run each counter counts its own cause: muted packets, heard ones with a wrong first or last byte, and everything else concealed |
| XxxxCodec.ConcealsExactly | apps/audioplayers/bt_sco_codec_xxxx.c:229-278 | over every link behaviour, any packets put in included, and from any state: the decoder conceals exactly the packets that are muted, mis-framed or without a number, and those whose number is not as far from the stream's, modulo 4, as the decoder is after the deletions and numbers it has met |
| XxxxCodec.ReplacementsKeepLock | apps/audioplayers/bt_sco_codec_xxxx.c:222-228 | without deletions, and as long as replaced packets carry no other number, exactly the replaced packets are concealed |
| XxxxCodec.RenumberedCostsTwo | apps/audioplayers/bt_sco_codec_xxxx.c:242-249 | to a decoder in lock a packet with another packet's number costs two: itself and the next good one |
| XxxxCodec.DeletionsCostOne | apps/audioplayers/bt_sco_codec_xxxx.c:242-249 | k deletions cost one further packet if not a multiple of four, none otherwise, and lock is back |
| PacketLoss.ParseInvertsStamp | apps/audioplayers/plc_utils.c:150-233 | the header parser yields number i if and only if the byte is the i-th of the encoder's four and the rest of the header is right |
| PacketLoss.ParseAcceptsOnlyStamps | apps/audioplayers/plc_utils.c:176-183 | no other header byte parses |
| PacketLoss.Detector.UpdateBleScoConflict | apps/audioplayers/plc_utils.c:236-257 | the answer and the shifted packet history |
| PacketLoss.CheckTransmitterOffset | apps/audioplayers/plc_utils.c:286-315 | true exactly when the front or back part by the offset is muted |
| PacketLoss.LostPacketRefusesBoth | apps/audioplayers/plc_utils.c:278-315 | one packet lost on the link damages the two cut across it: the later is refused as off unless wholly mute, the earlier if and only if it does not begin with the pattern |
| PacketLoss.StampIsNotRefused | apps/audioplayers/plc_utils.c:286-315 | at pattern 0x55 no packet of an encoder is refused for an offset |
| PacketLoss.StampIsRefusedIff | apps/audioplayers/plc_utils.c:286-315 | at pattern 0 one is, if and only if its payload ends in zeros for the rest of the offset |
| PacketLoss.VerdictByBytes | apps/audioplayers/plc_utils.c:348-420 | the verdict on any packet, its checks in their order, told from its bytes |
| PacketLoss.Detector.Process | apps/audioplayers/plc_utils.c:348-430 | the chain of checks computes verdict and new state |
| PacketLoss.Detector.Handle | apps/audioplayers/bt_sco_codec_msbc.c:418-436 | a packet that passes but does not decode is recounted |
| PacketLoss.StreamPacketReachesIff | apps/audioplayers/plc_utils.c:348-372 | when a packet of an encoder's stream gets as far as the number check, and its number |
| PacketLoss.PassesIff | apps/audioplayers/plc_utils.c:394-420 | a packet that reaches the number check passes if and only if the one before it was lost or carried the number before its own |
| PacketLoss.DeletionPassesIff | apps/audioplayers/plc_utils.c:394-420 | with k packets silently deleted in between, the later one passes if and only if k is a multiple of four |
| PacketLink.PassesExactly | apps/audioplayers/plc_utils.c:348-430 | over every link behaviour and from any state: which arrivals pass, from what the link does alone. A packet with a number passes if and only if that is in step with the last one that passed and the packet does not repeat the data of the one two before it; a refused packet makes the next number count as in step |
| PacketLink.EveryArrivalIsAnEvent | apps/audioplayers/plc_utils.c:356-381 | every packet that can arrive is one of the link's: stopped before the number check, or numbered as one of the last four |
| PacketLink.NumbersDecide | apps/audioplayers/plc_utils.c:394-420 | where no arrival repeats the data of the one two before it, the numbers decide alone |
| PacketLink.UndeletedHasNoConflicts | apps/audioplayers/plc_utils.c:246-265 | without deletions no undamaged packet repeats the data of the arrival two before it, so none is taken for a conflict |
| PacketLink.UndeletedStreamPasses | apps/audioplayers/plc_utils.c:348-430 | from power-on, with foreign packets in the place of any others but none missing, exactly the stream's own packets pass |
| PacketLink.GapCostsExactly | apps/audioplayers/plc_utils.c:246-265 | in a stream of constant payload, when k packets vanish behind two that passed, exactly the next 0, 1, 2 or 1 undamaged packets are refused, by k modulo 4 |
| PacketLink.SilentGapOfTwoCostsTwo | apps/audioplayers/plc_utils.c:246-265 | from power-on: packets 0 and 1 pass, 2 and 3 vanish, 4 and 5 are refused although undamaged, the rest pass |
| PacketLoss.HistogramCounts | apps/audioplayers/plc_utils.c:432-445 | over every run each entry is the number of packets with that final verdict, modulo 2^32 |
| PacketLoss.RecountTallies | apps/audioplayers/plc_utils.c:439-444 | taking a pass back keeps the counts right modulo 2^32, and below 2^32 packets never takes the pass counter below zero |
| PacketLoss.HistogramSum | apps/audioplayers/plc_utils.c:432-445 | the entries add up to the packets processed, modulo 2^32 over every run and exactly below 2^32 packets |
| PacketLoss.ConflictRepeatsIff | apps/audioplayers/plc_utils.c:246-265 | after a conflict the same data two packets later is reported again if and only if the packet between was muted and the check before found none |
| PacketLoss.ConflictIsReportedTwice | apps/audioplayers/plc_utils.c:246-265 | it happens from power-on: packets A, B, A, a muted one, A again are reported as two conflicts |
| Realign.DelayLine.Shift | apps/audioplayers/bt_sco_codec_cvsd.c:132-205 | pending bytes and the call's bytes come out in order, the last of them staying behind; exactly the muted packets are concealed |
| Realign.MuteFlagsAt | apps/audioplayers/bt_sco_codec_cvsd.c:58-65 | packet k is concealed if and only if its 120 bytes are all 0x55 |
| Realign.CvsdIsDelay | apps/audioplayers/bt_sco_codec_cvsd.c:141-144 | over any calls the bytes to decode are the offset's worth of 0x55 followed by the input |
| Realign.WindowBuffer.Extract | apps/audioplayers/bt_sco_codec_msbc.c:247-249 | loading, cutting and carrying in place compute the window functions |
| Realign.WindowsTile | apps/audioplayers/bt_sco_codec_msbc.c:393-406 | for every offset but 1 the packets cut out over any calls tile the stream without gap or overlap |
| Realign.OffsetOneTilesIff | apps/audioplayers/bt_sco_codec_msbc.c:393-406 | for offset 1 and any number of calls of any sizes they do if and only if each call finds behind its own bytes, left by the latest call that was longer, the byte the stream goes on with |
| Realign.UniformCallsTileIff | apps/audioplayers/bt_sco_codec_msbc.c:106-109 | for calls of one size that is: every call after the first, and the byte behind the last, begins with the byte that lay behind the first call's bytes when they came in |
| Realign.OffsetOneCanFail | apps/audioplayers/bt_sco_codec_msbc.c:106-109 | from power-on a first call of ones, with a one to follow, does not tile |
| WindowStream.OffsetOneTilesEncoderStream | apps/audioplayers/bt_sco_codec_msbc.c:393-406 | from power-on those bytes are 0, the padding byte, so an encoder's stream arriving one byte late in calls of none, one or two packets, in any order, comes out packet by packet |
| WindowStream.EveryOffsetCutsPackets | apps/audioplayers/bt_sco_codec_msbc.c:291-296 | from power-on, for every offset and every division into such calls: a stream that arrives that many bytes late is cut into the encoder's own packets, from the first window on at offsets 0 and 1, otherwise behind one window of silence and the foreign bytes |
| ScoCp.Pipeline.constructor | apps/audioplayers/bt_sco_chain_cp.c:225-236 | the first offer is one frame of silence |
| ScoCp.Pipeline.Process | apps/audioplayers/bt_sco_chain_cp.c:90-152 | exchanges the caller's frame for the offer, keeps side inputs not given, swaps the length; does nothing without initialisation |
| ScoCp.Pipeline.Run | apps/audioplayers/bt_sco_chain_cp.c:157-190 | runs the algorithm in place and offers its output |
| ScoCp.StepKeepsOwnership | apps/audioplayers/bt_sco_chain_cp.c:102-132 | the state word gives the shared memory one owner at a time |
| ScoCp.StepKeepsInv | apps/audioplayers/bt_sco_chain_cp.c:90-190 | every access of either core keeps the pipeline's meaning and stays in bounds |
| ScoCp.PipelineDelaysByOne | apps/audioplayers/bt_sco_chain_cp.c:90-190 | over every interleaving call k returns the algorithm's output for call k - 1, the first call silence |
| ScoCp.AlgorithmHearsCalls | apps/audioplayers/bt_sco_chain_cp.c:114-121 | over every interleaving the algorithm's k-th frame is call k: its voice, length and status, the reference and feedback it brings or else what the algorithm left of the ones before, silence at first; and call k returns what the algorithm put out for the frame before |
| QosFreq.FieldOfWith | apps/common/app_utils.c:132-140 | writing one user's five bits changes that field and no other |
| QosFreq.StoreRepresents | apps/common/app_utils.c:132-140 | after a request or release both words stand for the updated map |
| QosFreq.Arbiter.QosRequest | apps/common/app_utils.c:107-180 | the map is updated, and the level issued is that of the search over the sum; bad levels and unknown users change nothing |
| QosFreq.SearchIsLeastCoverIff | apps/common/app_utils.c:142-172 | the search finds the lowest level covering every sum, or the top level, if and only if level 0 stands for no load (or is the only one) |
| QosFreq.IssuedReachesIff | apps/common/app_utils.c:142-172 | for any standing requests, the level issued is at least a given level if and only if no lower level covers the demand |
| QosFreq.LoneRequestIsHonouredIff | apps/common/app_utils.c:142-172 | a level one user asks for alone is issued at least that high if and only if every lower level is slower in the table |
| QosFreq.MissingLevelIsNotIssued | apps/common/app_utils.c:54-68 | with the table of the one chip in the repository, 144 MHz asked for alone is answered with the lowest level |
| QosFreq.StandingIsLast | apps/common/app_utils.c:107-180 | after any run each user's standing request is that user's own last one |
| QosFreq.PackedRepresents | apps/common/app_utils.c:132-140 | after any run the two packed words stand for exactly the standing requests |
| QosFreq.RunIssuesLeastCover | apps/common/app_utils.c:107-180 | after any run the level found from the packed words is the lowest covering the sum of every user's own last request, or the top level |
| QosFreq.DemandFollowsRequest | apps/common/app_utils.c:142-160 | every request changes the demand by what it asks for less what the same user asked for before: the users' demands add up |
| QosFreq.IsQosUser | apps/common/app_utils.c:182-194 | the mask routes exactly the six listed users |

## Left out

- Codecs and signal processing (SBC, AAC, LDAC, LHDC, packet-loss synthesis, echo and noise suppression, resampling): parameters or arbitrary results.
- RTOS services, interrupts, DMA, the Bluetooth stack, UART, timers and tracing: locks and signals appear only as step boundaries.
- CQueue.Queue: its implementation is not part of this model; the class follows the contract seen at its call sites. `rpc_get_queue_length`, which only returns a length, is left out.
- RpcQueue.QueueRefinesFifo: pops of a length other than the peeked one are not among the operations of a run; `RpcQueue.PopTakesHead` says that none of them takes the head message.
- Memory ordering: shared accesses take effect in program order.
- A2dpInCache.Cache.LoadEncoded: the SBC, LDAC and LHDC loaders on the co-processor side are not modelled; only the AAC loader is.
- DecodeSlots.PlaysAllUnlessOvertaken: what the frames contain assumes that the decoder's writes stay in their slots, which only an attempt that resumes a partly filled slot can break (`DecodeSlots.OnlyResumedLeavesSlot`); what happens then is stated by `DecodeSlots.ResumedFrameSpills`, and how many frames are lost in all runs by `DecodeSlots.LosesExactly`. The `cp_dec_mtu_cnt` bookkeeping is left out.
- AacDrain.DrainsIff: says that the cores can drain the stream, not that a scheduler lets them; the queue reset is a step in `AacDrain.ResetDoesNotUnblock` alone, and reopening the co-processor is left out.
- DecodeSlots.Slots.Process: stated with no co-processor step in between; the interleaved form is the state machine.
- LhdcAssembly: the fragment flag masks are defined outside the repository; they are taken from `apps/audioplayers/a2dp_decoder/a2dp_decoder_lhdcv5.cpp:48-51`.
- LhdcAssembly.Assembler.AssemblePacket: takes an unfragmented packet no longer than the buffer, which the code does not check.
- Reframe.Reframer.constructor: the prefill is 640 zeros; the code copies 640 samples out of a 320-sample zero buffer (`apps/audioplayers/bt_sco_chain_reframe.c:349-352`).
- Reframe: the per-channel buffers are one buffer of four-channel records, and the default processing (the VP channel unchanged) is the one modelled; 24-bit samples, dumps and load measurement are left out.
- Upsampler: the 8 kHz and 16 kHz tables only, as in the source; the resampler behind it is left out.
- Crc8.BurstIsDetected: bits are counted from the most significant bit of each byte.
- SpeakerRole: advertising, timers and the state machine around the election; `SpeakerRole.ExactlyOneMasterIff` is the case in which each side's view of the other is current.
- ScanCache: the walker over advert sections is left out; discovery frames arrive whole.
- PacketLoss.Detector.Process: takes the outcome of the codec header's check sum as an input.
- PacketLoss.ParseInvertsStamp: the table-driven check sum of the codec header is a parameter, since its table is not part of this model; the pad and trailing-zero checks and the sync variant are disabled in the source.
- PacketLoss.HistogramCounts: the monitor counters and the printed report are left out.
- XxxxCodec.HistogramBalances: the four 32-bit counters are unbounded here; the balance holds modulo 2^32 as well.
- Realign.WindowBuffer.Extract: sync is taken as held and the offset as not drifting; the sync search, drift correction and header re-check are left out.
- ScoCp.PipelineDelaysByOne: assumes the algorithm stays within its buffers and returns at most one channel; the three-second hang check and the heap are left out.
- ScoCp.Pipeline.Process: the wait for the co-processor is in the state machine, not in the method.
- QosFreq.IsQosUser: users from 32 on, for which the source shifts by too much, are not covered; `hal_sysfreq_req` is represented by what is passed to it and what it returns.
- QosFreq.Arbiter.QosRequest: the assertion on an unknown user is modelled as its return of 0.
- Audio channel expansion, buffer reads, UART cursors, command dispatch, battery, keys and prompts: outside the engines chosen.
