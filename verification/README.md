# What this library's middleware promises, proved

The library is heap-free embedded C: a CAN transport, a Modbus RTU stack, checksums, a line log
and software timers, built on a static pool, reference-counted messages, queues and rings. This
project is a Dafny 4.11 model of that code and of what it promises. `dafny verify dfyconfig.toml`
verifies all of it.

Code that updates fields and buffers is modelled as classes and methods that do the same, each
proved equal to a function of its inputs or its old state; what the library promises is then
proved about those functions as lemmas, over every input or every run.

**ISO-TP transport** (ISO 15765-2). `IsoTpMachine` is one instance as a pure machine: reception,
transmission, the calls of `process`, and runs of them. Time is an unbounded clock read modulo
2^32; whether the link takes a frame and whether the pool has a block are answers from outside,
so every theorem holds for all of them. `IsoTp.Instance` is the code itself: fields and arrays
updated in place, blocks and queues on the shared pool through `IsoTpPort.Port`. It equals the
machine on every run under every oracle that foretells what the pool and the queues answered, and,
whatever they answered, it keeps every count equal to the references there are: between calls it
holds a block exactly while receiving and a message exactly while sending, everybody else's
references and queues are what they themselves have made of them, and an idle instance with
drained queues leaves the pool fully free (`IsoTp.Instance.HoldsExactly`,
`IsoTp.Instance.Perform`, `IsoTp.Instance.IdleMeansFree`). Two instances on one pool, each with
its own queues, do not disturb each other from their initialisation on
(`IsoTpPair.MatesAtFirst`, `IsoTpPair.RunTogether`). On the machine:

- `IsoTpSender`: whatever refusals, flow controls, timeouts and clock readings happen, the data
  frames put on the link for a message are exactly its segmentation when it ends N_OK, and a strict
  prefix of it otherwise.
- `IsoTpReports`: what the upper layer is told of a transmission is how it ended, and a confirmed N_OK
  belongs to a message all of whose frames are on the link; every timeout fires exactly at its
  deadline, and every deadline is the reading that armed it plus its parameter.
- `IsoTpAnswers`: which answer a first frame draws and what it does to the sender, why a transmission
  ends or a reception fails, and that frames for others change nothing.
- `IsoTpNetwork`: two instances on a link that may lose consecutive and flow control frames: what
  is delivered is an ordered selection of what was given, byte for byte.
- `IsoTpPacing`: block size, separation time, wait limit and budget are kept over every run.
- `IsoTpDelivery`: on a lossless link with room, a queue of messages completes within as many turns
  as the messages have frames, when each call of the sender opens at least the separation time
  after the call before; within a call the clock may run as slowly as it likes.
- `IsoTpCodec`, `CanBus`: reassembling a segmentation gives the message back, for all eight frame
  sizes, padded or not, short and escape lengths.

**Pool, messages, queues.** `PoolLayout` computes how one buffer is carved; `PoolState` says what
table and bitmaps mean; `Pool.Pool` is the allocator over one shared byte array. `RefMsg.Messages`
puts reference-counted messages and queues on it. The invariant every method keeps is the
ownership promise: a message's count is the number of queue slots and client references that refer
to it, and its block is marked in use exactly while that number is positive.

**Modbus RTU.** `ModbusFrames` is a parser that sees the whole byte stream; `ModbusReceiver` is the
bounded buffer refilled in chunks, proved to slice the same frames. `ModbusMessages` has the
builders of both sides and proves that each side reads back what the other built, behind noise too,
and that the slave's value rules are the builders'; `ModbusLink` puts builders and bounded buffer
together.
`ModbusDispatch` and `ModbusMaster` route frames to subscribers over the pool; `FanOut` is the loop
they share; `ModbusStation` is a slave that receives and routes. `ModbusBus` is the transmit machine of
both sides; its silence is proved over what happened on the wire, not over what it took notice of.

**Checksums.** `Crc` is the bitwise core; `CrcTables`, `ModbusCrc` and `EncoderCrc` prove the table
forms equal to it, and what the Modbus CRC detects; `Crc32` proves its CRC-32 the usual downward form.
`Sha256` states SHA-256 as FIPS 180-4 defines it, `Sha256Constants` where its constants come from;
`Sha256Stream` is the streaming context.

**Log and timers.** `RingBuf` is the byte ring and `LineLog` the log on it, with an account of every
line. `TimerRing` is the intrusive ring and the timer manager; `TimerGrid` says what firing means
over a run on a wrapping clock.

Three promises hold only on a condition, which is stated exactly: a deadline is never early if and
only if it lies within half the counter (`Words.NeverEarlyIff`); a peer that only answers WAIT is
cut off if and only if it does so more often than the limit and the limit is not 255
(`IsoTpPacing.WaitLimitEnforcedIff`, and `IsoTpPacing.LimitOf255NeverEnds` for the failing input);
the log's messages are as many as its lines drained, held and dropped if and only if no message it
took has a newline inside (`LineLog.Log.AccountBalancesIff`, and
`LineLog.EmbeddedNewlineMiscounts` for a message that is taken as one and given up as two).

Where a comment and the code disagree the code is followed: the comment on rounding a length to a
data length code (src/middleware/nx_can_bus.h:133) gives length 10 another code than the
comparison at line 142, which gives code 9.

## Model

| member | source | states |
|---|---|---|
| CanBus.DlcAdjunction | src/middleware/nx_can_bus.h:120-149 | a code carries a length exactly when it is at least the code that length rounds up to |
| CanBus.DlcRoundTrip | src/middleware/nx_can_bus.h:120-149 | every code survives being turned into its length and back |
| CanBus.ExactFrameLengths | src/middleware/nx_can_isotp.c:851-862 | the lengths from 8 up that rounding leaves alone are exactly the eight CAN and CAN FD frame sizes |
| IsoTpCodec.BuildFrame | src/middleware/nx_can_isotp.c:107-158 | a frame never exceeds the configured size, starts with header and payload, and has exactly the length its code says |
| IsoTpCodec.FrameIsFilled | src/middleware/nx_can_isotp.c:113-150 | a frame has the least length a code expresses for what it carries, at least 8 bytes when short frames are to be filled up, and behind the payload the filler byte and nothing else |
| IsoTpCodec.SfReads | src/middleware/nx_can_isotp.c:403-437 | a single frame built for a message reads back as that message, in the short and the escape form |
| IsoTpCodec.FfReads | src/middleware/nx_can_isotp.c:200-225 | a first frame reads back as the announced length, 12-bit or 32-bit, and the first payload bytes |
| IsoTpCodec.CfReads | src/middleware/nx_can_isotp.c:188-193 | a consecutive frame reads back as its sequence number and the next payload bytes |
| IsoTpCodec.FcReads | src/middleware/nx_can_isotp.c:236-246 | a flow control frame reads back as its status, block size and separation time |
| IsoTpCodec.SfLenIff | src/middleware/nx_can_isotp.c:412-437 | a frame is read as a single one of n bytes if and only if it starts with the header a sender gives n bytes, has them, and is longer than 8 bytes exactly when the header is the escape |
| IsoTpCodec.FfLenIff | src/middleware/nx_can_isotp.c:461-480 | a first frame is read as announcing n bytes if and only if it starts with the 12-bit header of n or with the escape for n |
| IsoTpTypes.StminCodes | src/middleware/nx_can_isotp.c:83-92 | the times a separation code can stand for are 1 to 127 ms and 100 to 900 us, each with one code; any other code asks for none |
| IsoTpCodec.CollectInverts | src/middleware/nx_can_isotp.c:515-552 | collecting the remaining consecutive frames, with sequence numbers modulo 16, completes the message from any point |
| IsoTpCodec.RoundTrip | src/middleware/nx_can_isotp.c:107-225 | reassembling the segmentation of any message, on any accepted configuration, gives the message |
| IsoTpCodec.FramesFit | src/middleware/nx_can_isotp.c:107-158 | no frame of a segmentation is longer than the configured frame length |
| Words.NeverEarlyIff | src/middleware/nx_can_isotp.c:942-961 | a deadline tested by signed difference of 32-bit readings never fires early if and only if it is at most 2^31 ticks away |
| Words.Diff32NeverOverstates | src/middleware/nx_can_isotp.c:749-753 | whatever elapsed time the wrapped difference shows, at least that much true time has passed |
| IsoTpSender.ProcessKeeps | src/middleware/nx_can_isotp.c:931-970 | one call of process keeps the sender invariant, takes messages off the front of the queue only, and only extends the messages taken and the log |
| IsoTpSender.SenderRefinesSegment | src/middleware/nx_can_isotp.c:630-777 | over every run, each message's frames on the link are its segmentation when it ended N_OK and a strict prefix otherwise; the frames sent and still owed of the one in flight are its segmentation; messages leave in the order given |
| IsoTpReports.ConfirmationsAreTrue | src/middleware/nx_can_isotp.c:296-309 | over every run, the results confirmed are outcomes of transmissions in their order, none twice; all of them when nothing is refused, none when confirmation is off; what is confirmed as N_OK has all the frames of its message on the link, what is confirmed otherwise a strict prefix |
| IsoTpReports.TimeoutsFire | src/middleware/nx_can_isotp.c:938-961 | over every run, each deadline is the reading that armed it plus N_Bs, N_As, N_Cr or N_Ar; a call that finds no frame ends a wait for flow control with N_TIMEOUT_BS, a held frame with N_TIMEOUT_A, a reception with an indication of N_TIMEOUT_CR and a held permission with one of N_TIMEOUT_A, each if and only if the reading is at or past its deadline, for distances within half the counter |
| IsoTpReports.RequestTxDriven | src/middleware/nx_can_isotp.c:630-777 | driving the send side ends transmissions as N_OK or not at all, and N_As starts with the reading taken when a frame is first refused, not again while it is held |
| IsoTpReports.RxFrameAnswers | src/middleware/nx_can_isotp.c:442-555 | whatever a frame is, the reception answers with its own permission or a refusal and nothing else, and every frame that moves a reception on starts its deadline anew from the last reading |
| IsoTpAnswers.FirstFrameIsAnswered | src/middleware/nx_can_isotp.c:460-521 | a peer's first frame is refused if and only if the message is longer than accepted or there is no block, and permitted otherwise, with the bytes it brought kept; a refused refusal is lost, a refused permission held |
| IsoTpAnswers.AnswerIsHeeded | src/middleware/nx_can_isotp.c:587-620 | the peer's permission makes a waiting sender go on in the peer's block size and separation; the peer's refusal ends the message with N_BUFFER_OVFLW |
| IsoTpAnswers.StatusDecides | src/middleware/nx_can_isotp.c:587-620 | a flow control frame ends a waiting transmission if and only if it refuses, is one wait too many or has no meaning, each with its own result; a tolerated wait gives N_Bs anew |
| IsoTpAnswers.FailureIsIndicatedIff | src/middleware/nx_can_isotp.c:344-360 | a failed reception is indicated if and only if a frame broke it, reporting is on and there is room: N_UNEXP_PDU for a new message, N_WRONG_SN for a wrong number; all else indicated is messages |
| IsoTpAnswers.StrangersAreIgnored | src/middleware/nx_can_isotp.c:786-830 | a frame of another channel, identifier space or identifier, and a functional one that is not single, has no effect at all |
| IsoTpAnswers.OwnFramesAreIgnored | src/middleware/nx_can_isotp.c:887-901 | under the checks of init, the frames an instance sends are none it listens to |
| IsoTpAnswers.EverybodyHearsSingles | src/middleware/nx_can_isotp.c:813-827 | a functional single frame brings the message its sender put into it and disturbs neither conversation |
| IsoTpNetwork.HearsConsecutive | src/middleware/nx_can_isotp.c:515-552 | after any lost consecutive frames, a frame is taken only as the bytes it really carries, and a message that lost any never fills |
| IsoTpNetwork.DrainHears | src/middleware/nx_can_isotp.c:833-843 | draining whatever part of the peer's frames got through keeps what the receiver knows true |
| IsoTpNetwork.NetStepKeeps | src/middleware/nx_can_isotp.c:931-970 | every move of two linked instances - a call, a delivery, a loss, a new message - keeps both directions consistent |
| IsoTpNetwork.DeliveryIsFaithful | src/middleware/nx_can_isotp.c:442-555 | over every interleaving and every loss of consecutive or flow control frames, what is delivered complete is an ordered selection of what the peer was given: nothing invented, repeated, reordered or mixed |
| IsoTpPacing.ProcessPaced | src/middleware/nx_can_isotp.c:697-777 | one call of process keeps the pacing rules and sends at most its budget of data frames, each consecutive one stamped truly |
| IsoTpPacing.RunsArePaced | src/middleware/nx_can_isotp.c:587-777 | over every run: at most the granted block between two permissions, the granted separation in true time between consecutive frames, at most n_wft_max waits, at most the budget per call; the n-th stamp judged is the clock reading next to the moment the n-th consecutive frame on the link was offered |
| IsoTpPacing.WaitLimitEnforcedIff | src/middleware/nx_can_isotp.c:599-609 | any number of WAITs answered to a fresh transmission ends it, as N_WFT_OVRN, if and only if they are more than the limit and the limit is not 255; otherwise nothing of it has moved |
| IsoTpPacing.LimitOf255NeverEnds | src/middleware/nx_can_isotp.c:603 | with the limit at 255, a transmission answered 256 WAITs and more is still waiting: the 8-bit counter comes round first |
| IsoTpDelivery.TransferCompletes | src/middleware/nx_can_isotp.c:931-970 | from inside a block, between blocks, or with a frame or a permission held back, a transfer completes within as many turns as it owes frames, plus one for a held permission |
| IsoTpDelivery.MessageCompletes | src/middleware/nx_can_isotp.c:931-970 | a message waiting to be sent completes within as many turns as it has frames |
| IsoTpDelivery.QueueCompletes | src/middleware/nx_can_isotp.c:931-970 | a whole queue is delivered in order, each message once, within as many turns as there are frames |
| IsoTp.ConfigUsable | src/middleware/nx_can_isotp.c:864-909 | a configuration is refused exactly when the frame length is none the wire knows, or an identifier, channel or FD setting contradicts another |
| IsoTp.Instance.constructor | src/middleware/nx_can_isotp.c:910-929 | init resolves the default times and leaves an idle, empty instance |
| IsoTpTypes.DefaultsFillZeros | src/middleware/nx_can_isotp.c:910-927 | init keeps every time given, leaves none at zero and changes nothing else |
| IsoTp.Instance.MakeFrame | src/middleware/nx_can_isotp.c:107-158 | the block filled in place is the frame the codec describes, every write inside the allocated wire length |
| IsoTp.Instance.EmitSf | src/middleware/nx_can_isotp.c:167-178 | offers the single frame of the message, short or escape form |
| IsoTp.Instance.EmitFf | src/middleware/nx_can_isotp.c:200-225 | offers the first frame and returns the payload it carried, or 0 when refused |
| IsoTp.Instance.EmitClearToSend | src/middleware/nx_can_isotp.c:258-272 | permits the peer to go on, or holds the permission with its deadline running when the link is full |
| IsoTp.Instance.ResetReception | src/middleware/nx_can_isotp.c:323-335 | the reassembly block, if one is held, is released once, others' references stay, and reception is idle |
| IsoTp.Instance.AbortReception | src/middleware/nx_can_isotp.c:344-360 | the reassembly block is released once, and an active reception is reported when confirmation is on |
| IsoTp.Instance.FinishReception | src/middleware/nx_can_isotp.c:362-378 | the full block is detached before the reset, published whole, and the instance's reference is dropped whether or not the queue took it; reception is idle |
| IsoTp.Instance.ReceiveFrame | src/middleware/nx_can_isotp.c:442-555 | one frame for the reception does exactly what the machine says, in place |
| IsoTp.Instance.ApplyFlowControl | src/middleware/nx_can_isotp.c:587-620 | overflow, wait, unknown status and permission are handled as the machine says |
| IsoTp.Instance.EndTransmission | src/middleware/nx_can_isotp.c:567-582 | the message is released exactly once, and its outcome is what the machine confirms when configured |
| IsoTp.Instance.HeadDone | src/middleware/nx_can_isotp.c:642-649 | a first frame on the link stamps the time and arms the flow control wait |
| IsoTp.Instance.Hold | src/middleware/nx_can_isotp.c:630-637 | a refused frame is held, and a deadline already running keeps running |
| IsoTp.Instance.RequestTransmit | src/middleware/nx_can_isotp.c:655-777 | taking the next message, retrying a held frame and the send loop come to the machine's result |
| IsoTp.Instance.TakeFrame | src/middleware/nx_can_isotp.c:786-830 | a received frame is routed by channel, identifier and control nibble |
| IsoTp.Instance.Process | src/middleware/nx_can_isotp.c:931-970 | draining the link, checking the guards on one reading and driving the sender equal the machine's call; every frame taken off the queue is released, and no reference of others changes |
| IsoTp.Instance.Send | src/middleware/nx_can_isotp.c:972-1010 | a message is queued, or refused with exactly the reason that applies, the pool and the queue having no room included; no reference is left behind |
| IsoTp.Instance.DrainCanRx | src/middleware/nx_can_isotp.c:833-843 | every frame waiting is taken, routed and released, in order |
| IsoTp.Instance.Perform | src/middleware/nx_can_isotp.c:931-1010 | any run of arrivals, sends, calls and of driver and upper layer taking messages and keeping them as long as they like, with others getting and giving up blocks and using their own queues in between, leaves the instance in the machine's state, and everybody else's references and queues as their own acts made them |
| IsoTpPair.RunTogether | src/middleware/nx_can_isotp.c:931-1010 | two instances on one pool, with four queues each, called in any order: each is where its own machine is after its own events, and both keep their books |
| IsoTpPair.Undisturbed | src/middleware/nx_can_isotp.c:323-378 | what one instance's books say of its blocks, its message and its queues stays true whatever the other one does with the same pool |
| IsoTp.Instance.HoldsExactly | src/middleware/nx_can_isotp.c:323-378 | between calls a block is held exactly while receiving, a message exactly while sending, and with the others' these are all the references counted |
| IsoTp.Instance.IdleMeansFree | src/middleware/nx_can_isotp.c:567-582 | an idle instance with drained queues and no other holder leaves every block free |
| IsoTpPort.HandOver | src/middleware/nx_can_isotp.c:150-157 | a message is queued or not by whether there is room, and the producer's reference is gone either way; the last one frees the block |
| IsoTpPort.Deliver | src/middleware/nx_can_isotp.c:118-158 | a new message is in the queue with the queue's reference only, or nothing has changed; which, is told by the pool and the queue |
| IsoTpPort.Port.SendFrame | src/middleware/nx_can_isotp.c:118-158 | a frame is queued exactly when there is a block and a slot for it, and no reference is kept |
| IsoTpPort.Port.OpenBlock | src/middleware/nx_can_isotp.c:490-499 | a reassembly block is obtained exactly when the pool has one, and it becomes the instance's |
| IsoTpPort.Port.DropBlock | src/middleware/nx_can_isotp.c:323-335 | the block, if any, loses the instance's reference and nothing else changes |
| IsoTpPort.Port.HandUp | src/middleware/nx_can_isotp.c:374-377 | a detached block is the queue's alone, or freed when the queue is full |
| IsoTpPort.Port.TakeSdu | src/middleware/nx_can_isotp.c:662-663 | the oldest message asked for becomes the instance's, reference and all |
| IsoTpPort.Port.PopFrame | src/middleware/nx_can_isotp.c:836 | the oldest frame received is taken with its reference |
| PoolLayout.RoundUpCoversIff | src/core/nx_tiered_mem_pool.c:7-11 | rounding up covers the size asked for if and only if the addition does not wrap |
| PoolLayout.RoundUpCanVanish | src/core/nx_tiered_mem_pool.c:98 | a size whose rounding wraps to nothing |
| PoolLayout.LaidIsPlaced | src/core/nx_tiered_mem_pool.c:124-200 | a configuration that fits is laid out with table, bitmaps and blocks disjoint, blocks aligned, all inside the buffer |
| PoolLayout.InsertAllSorts | src/core/nx_tiered_mem_pool.c:194-200 | the tier table is a permutation of the configured tiers in ascending block size |
| PoolLayout.InsertAllPlaced | src/core/nx_tiered_mem_pool.c:183-201 | sorting the table leaves every tier in its place |
| Bitmap.BitsUpdate | src/core/nx_tiered_mem_pool.c:14-29 | setting or clearing a block's bit changes that bit and no other |
| PoolState.TroughIsMinimum | src/core/nx_tiered_mem_pool.c:249-251 | the low-water mark is the least free count there has been |
| PoolState.BlocksDisjoint | src/core/nx_tiered_mem_pool.c:252 | two different blocks share no byte |
| PoolState.BlockPlaced | src/core/nx_tiered_mem_pool.c:252 | every block is aligned and lies inside the buffer behind all bookkeeping |
| PoolState.StepKeeps | src/core/nx_tiered_mem_pool.c:206-311 | handing out or taking back one block keeps layout, counts and low-water marks, and moves exactly that block in or out of the live ones |
| PoolState.ClientWritesKeep | src/core/nx_tiered_mem_pool.c:107-204 | whatever clients write into blocks, counts and live blocks stay |
| Pool.TierBytes | src/core/nx_tiered_mem_pool.c:91-105 | a tier is refused exactly when it is empty or the bytes its rounded blocks take overflow |
| Pool.Totals | src/core/nx_tiered_mem_pool.c:129-141 | the first pass sums blocks and bitmaps, or finds the invalid or overflowing tier |
| Pool.VanishedTierServesNothing | src/core/nx_tiered_mem_pool.c:91-105 | a block size that wraps to nothing when rounded up is accepted, takes no bytes, and no request is ever served from it |
| Pool.Pool.Init | src/core/nx_tiered_mem_pool.c:107-204 | answers and required size as documented for every configuration whose block sizes do not wrap when rounded up; on success a valid pool, everything free, tiers a sorted permutation of the configuration |
| Pool.Pool.InsertTier | src/core/nx_tiered_mem_pool.c:194-200 | the shifting loop inserts behind every tier that is not larger |
| Pool.Pool.Scan | src/core/nx_tiered_mem_pool.c:236-246 | from any hint, going round once, the first clear bit is found |
| Pool.Pool.Alloc | src/core/nx_tiered_mem_pool.c:206-263 | nothing is returned exactly when every block of every eligible tier is live; otherwise a block that was not live, from the smallest eligible tier with room |
| Pool.ExhaustedIff | src/core/nx_tiered_mem_pool.c:226-234 | the free counts say no room exactly when every block of every eligible tier is live |
| Pool.Pool.Free | src/core/nx_tiered_mem_pool.c:265-311 | accepted exactly for live block starts; a block start that is not live is a double free, any other pointer invalid, and neither changes anything |
| Pool.Pool.TierStat | src/core/nx_tiered_mem_pool.c:318-336 | the free count counts clear bits and the peak is the most ever in use |
| Queue.Queue.Push | src/core/nx_queue.c:37-64 | the contents get the element at the end; a full queue refuses it or gives up its oldest, by policy |
| Queue.Queue.Pop | src/core/nx_queue.c:66-86 | the oldest element leaves |
| Queue.Queue.Peek | src/core/nx_queue.c:88-100 | the oldest element is read |
| Queue.Queue.Clear | src/core/nx_queue.c:102-109 | nothing is left |
| Queue.FullPolicies | src/core/nx_queue.c:42-52 | over any list of pushes, rejecting keeps the first capacity elements and overwriting the last |
| RefMsg.BlockSizeCoversIff | src/core/nx_ref_msg.c:24-27 | the block asked for holds header and data exactly when the sum does not wrap |
| RefMsg.PublishBalances | src/core/nx_ref_msg.c:39-62 | counting before enqueuing keeps every count equal to the references there are |
| RefMsg.PopBalances | src/core/nx_ref_msg.h:16-21 | popping moves a reference from the queue to the consumer, and what is popped is still there |
| RefMsg.ReleaseBalances | src/core/nx_ref_msg.c:64-80 | giving up a reference keeps counts equal to references, and the last one ends the message |
| RefMsg.Messages.Alloc | src/core/nx_ref_msg.c:18-37 | fails exactly when the pool has no block for it; otherwise a new message with the producer's reference, in a block that holds header and data unless their sum wraps |
| RefMsg.Messages.Publish | src/core/nx_ref_msg.c:39-62 | accepted exactly when the queue has room; a refusal changes nothing |
| RefMsg.Messages.Release | src/core/nx_ref_msg.c:64-80 | the last reference gives the block back, any other only counts |
| RefMsg.Messages.Pop | src/core/nx_queue.c:66-86 | the oldest message goes to the consumer with its reference |
| RefMsg.Messages.PublishMulti | src/core/nx_ref_msg.c:82-123 | every listed queue is offered the message; takers, result and first refusal are as documented |
| RefMsg.DistinctQueuesTakeIfRoom | src/core/nx_ref_msg.c:82-123 | among different queues exactly those with room take the message |
| RefMsg.OutcomeTellsRoom | src/core/nx_ref_msg.c:82-123 | the number of takers counts the queues with room, and the first failure is the first without: all take the message if and only if every one had room, none if and only if none had |
| RefMsg.Messages.DrainedMeansFree | src/core/nx_ref_msg.c:64-80 | with no client references and empty queues the pool is fully free again |
| Crc.CoreSplits | src/algo/nx_crc.c:70-96 | feeding a string in two parts is feeding it whole |
| Crc.Context.Update | src/algo/nx_crc.c:70-96 | the byte and bit loops compute the core's register |
| Crc.Context.UpdateAll | src/algo/nx_crc.c:54-108 | fed in any chunks, the result is that of the one-shot form |
| Crc32.Crc32IsTheDownwardForm | src/algo/nx_crc.c:208-211 | for every byte string CRC-32 by the core, which shifts up and mirrors, equals the register shifted down under the mirrored polynomial |
| CrcTables.ModbusTableIsSteps | src/middleware/nx_modbus_rtu.c:48-61 | every table entry is eight steps of its index |
| CrcTables.KthTableIsSteps | src/device/nx_kth7112.c:147-156 | every table entry is eight steps of its index |
| CrcTables.KtmLookupIsSteps | src/device/nx_ktm5220.c:17-26 | one nibble lookup is four steps of the register |
| ModbusCrc.TableCrc16 | src/middleware/nx_modbus_rtu.c:48-61 | the table loop computes the Modbus register |
| ModbusCrc.ModbusIsNamedVariant | src/algo/nx_crc.c:183-186 | for every byte string the reflected table form equals the non-reflected core with input and output reflected |
| ModbusCrc.SetCrc | src/middleware/nx_modbus_rtu.c:63-73 | the last two bytes become the CRC of the rest; a frame too short is left alone |
| ModbusCrc.CheckCrc | src/middleware/nx_modbus_rtu.c:75-85 | true exactly when the last two bytes are the CRC of the rest |
| ModbusCrc.StampedChecks | src/middleware/nx_modbus_rtu.c:63-85 | a stamped frame checks |
| ModbusCrc.ChecksIffWholeIsZero | src/middleware/nx_modbus_rtu.c:75-85 | a frame checks if and only if the CRC over all of it is zero |
| ModbusCrc.AdjacentDamageIsDetected | src/middleware/nx_modbus_rtu.c:75-85 | a valid frame with any change confined to two adjacent bytes, CRC included, is always rejected |
| EncoderCrc.EncoderRegisterIsCore | src/algo/nx_crc.c:148-156 | the byte-wise register computes the two plain 8-bit variants |
| EncoderCrc.KthCrc8 | src/device/nx_kth7112.c:147-156 | equals the ITU variant of the core for every byte string |
| EncoderCrc.KtmCrc8 | src/device/nx_ktm5220.c:17-26 | equals the plain 8-bit variant, complemented when inverted, for every byte string |
| Sha256.StoreLoads | src/algo/nx_sha256.c:166-173 | a word stored big-endian loads back |
| Sha256Constants.RoundConstant | src/algo/nx_sha256.c:23-42 | the t-th round constant is the first 32 fractional bits of the cube root of the t-th prime |
| Sha256Constants.InitialValue | src/algo/nx_sha256.c:91-98 | the initial words are the first 32 fractional bits of the square roots of the first eight primes |
| Sha256.Padded | src/algo/nx_sha256.c:146-163 | padding fills whole blocks |
| Sha256.Len64MeansLength | src/algo/nx_sha256.c:159-162 | the trailer's eight bytes are the length as a number, most significant first |
| Sha256.AbsorbInPieces | src/algo/nx_sha256.c:103-138 | absorbing a string and then more is absorbing what was left over and the more |
| Sha256Stream.Transform | src/algo/nx_sha256.c:45-82 | the in-place schedule and rounds are the compression function of FIPS 180-4 |
| Sha256Stream.Context.Update | src/algo/nx_sha256.c:103-138 | topping up, whole blocks and stashing absorb exactly the bytes given, fewer than a block staged |
| Sha256Stream.Context.TopUp | src/algo/nx_sha256.c:113-124 | the staged block is filled as far as the input goes and absorbed when full |
| Sha256Stream.Context.Final | src/algo/nx_sha256.c:140-174 | for every message under 2^64 bits the digest is that of the message |
| Sha256Stream.Context.PadZeros | src/algo/nx_sha256.c:152-156 | the zero loop ends after exactly the zeros the padding needs |
| Sha256Stream.HashChunks | src/algo/nx_sha256.c:84-182 | fed in any chunks, the digest is that of the whole message |
| ModbusFrames.DecisionIsFinal | src/middleware/nx_modbus_rtu_slave.c:264-299 | a decision about the bytes in front never changes when more arrive |
| ModbusFrames.SettleInPieces | src/middleware/nx_modbus_rtu_slave.c:249-316 | a stream settled in pieces gives the frames and the rest of the whole |
| ModbusFrames.RestIsSettled | src/middleware/nx_modbus_rtu_slave.c:249-316 | what is left undecided stays undecided until more arrives |
| ModbusReceiver.Receiver.Receive | src/middleware/nx_modbus_rtu_slave.c:249-316 | the slave's receive step, and with it the master's: frames so far are those of the whole stream, and the overflow guard fires only in a slave with under 11 bytes |
| ModbusReceiver.Receiver.Examine | src/middleware/nx_modbus_rtu_master.c:149-176 | one pass of the slicing loop moves as the whole-stream parser decides |
| ModbusReceiver.Receiver.Compact | src/middleware/nx_modbus_rtu_slave.c:301-307 | what is unconsumed moves to the front, unchanged |
| ModbusReceiver.Receiver.Pump | src/middleware/nx_modbus_rtu_slave.c:249-316 | however read() splits the stream, the frames sliced are the first of a parser that sees all of it and the others are still in the buffer; in a master, or a slave with 11 bytes or more, none is |
| ModbusReceiver.FullMeansHopeless | src/middleware/nx_modbus_rtu_slave.c:309-315 | a full buffer still waiting holds a read/write header whose frame cannot fit; in a master there is none |
| ModbusReceiver.GuardDropsNoFrameThatFits | src/middleware/nx_modbus_rtu_slave.c:309-315 | the header the guard drops announces more bytes than the buffer has |
| ModbusMessages.Build | src/middleware/nx_modbus_rtu_master.c:382-637 | the nine builders lay out and stamp the request, or refuse exactly what the protocol excludes |
| ModbusMessages.RequestReads | src/middleware/nx_modbus_rtu_slave.c:33-153 | a built request tells its own length, passes the value rules and reads back field for field |
| ModbusMessages.ValueRulesAreTheBuilders | src/middleware/nx_modbus_rtu_slave.c:102-153 | a sliced frame passes the slave's value rules if and only if a builder would have let its request through, whomever it is addressed to |
| ModbusMessages.LimitsFillTheAdu | src/middleware/nx_modbus_rtu_master.c:482-615 | the register limits are the greatest whose request and reply fit one ADU, one more does not; coils are limited to the bits of that many registers |
| ModbusMessages.RequestFits | src/middleware/nx_modbus_rtu_master.c:382-637 | every request a builder lets through is within one ADU |
| ModbusMessages.FramesAreSliced | src/middleware/nx_modbus_rtu_slave.c:264-299 | frames one behind the other are sliced exactly at their boundaries |
| ModbusMessages.FramesAreFound | src/middleware/nx_modbus_rtu_slave.c:264-299 | frames with bytes in front of each that the parser passes over are all sliced, and nothing else is |
| ModbusMessages.FoundIsWoven | src/middleware/nx_modbus_rtu_slave.c:264-299 | conversely, in any byte stream what is sliced stands in that order, with passed-over bytes between and no frame behind |
| ModbusMessages.FramesAmongNoise | src/middleware/nx_modbus_rtu_master.c:149-176 | noise no byte of which can start a frame for this side - another address, or no code it knows - hides no frame behind it |
| ModbusMessages.FramesBehindNoise | src/middleware/nx_modbus_rtu_slave.c:270-296 | a stretch of such noise and then frames one behind the other: exactly the frames are sliced |
| ModbusMessages.SlicesAreFrames | src/middleware/nx_modbus_rtu_slave.c:264-299 | from any byte stream, only checked frames for this side that fit the buffer are sliced |
| ModbusMessages.RequestsArrive | src/middleware/nx_modbus_rtu_master.c:382-637 | any list of requests for one slave, with noise in front of any of them, arrives frame for frame, with no value exception and the same fields |
| ModbusMessages.BuildReply | src/middleware/nx_modbus_rtu_slave.c:488-599 | the reply builders lay out and stamp the response, and never answer a broadcast |
| ModbusMessages.RepliesArrive | src/middleware/nx_modbus_rtu_master.c:643-683 | a stream of replies, with noise in front of any of them, is sliced exactly, and data and exception codes read back as they went in |
| ModbusLink.RequestsReceived | src/middleware/nx_modbus_rtu_slave.c:249-316 | whatever pieces a master's requests arrive in and whatever noise between them, the bounded buffer of the slave slices the first of them, frame for frame, and all of them once all have arrived |
| ModbusLink.RepliesReceived | src/middleware/nx_modbus_rtu_master.c:131-191 | and the same of slaves' replies and the master's buffer |
| ModbusDispatch.OwnsIffContains | src/middleware/nx_modbus_rtu_slave.c:73-88 | a subscription owns a well-formed request exactly when every address it touches, unwrapped, lies in its range; none owns one that runs past 0xFFFF |
| ModbusDispatch.OneOutcome | src/middleware/nx_modbus_rtu_slave.c:175-243 | a request reaches an owner and draws no exception, or draws one, its code fixed by the first failing check: 0x01, 0x03 exactly when no builder would have let it through, 0x02, 0x04, and 0x06 exactly when it was copied and every owner's queue was full beforehand |
| ModbusDispatch.Slave.Dispatch | src/middleware/nx_modbus_rtu_slave.c:175-243 | the outcome is the one the checks fix; the owners with room have the frame and nothing leaks; an exception is queued exactly when allowed and possible, never for a broadcast |
| ModbusDispatch.Slave.SendException | src/middleware/nx_modbus_rtu_slave.c:162-165 | one exception frame is queued, exactly when the request was unicast and memory and room allow |
| ModbusDispatch.Slave.ReplySend | src/middleware/nx_modbus_rtu_slave.c:505-514 | the reply is queued or its block is back in the pool |
| ModbusStation.Station.Serve | src/middleware/nx_modbus_rtu_slave.c:249-307 | one receive step of the slave: the requests sliced out of what came, each with the one outcome it deserves, in order, and no reference kept |
| ModbusStation.ResolvedAsDeserved | src/middleware/nx_modbus_rtu_slave.c:175-243 | whatever queues and pool are like, an outcome is taken or refused for the first reason the request itself gives, or refused for want of memory or room |
| FanOut.Deliver | src/middleware/nx_modbus_rtu_slave.c:205-231 | the frame is copied once and offered to every claiming entry; the producer's reference is gone at the end |
| FanOut.NobodyTookNothing | src/middleware/nx_modbus_rtu_slave.c:229-242 | when nobody took the frame the queues are as before |
| FanOut.NobodyTakesIff | src/middleware/nx_modbus_rtu_slave.c:229-242 | nobody takes the frame exactly when every queue it is offered to was full beforehand |
| ModbusMaster.RefusalGoesWhereAnswerWould | src/middleware/nx_modbus_rtu_master.c:82-91 | an exception response is claimed by exactly those who would claim the answer |
| ModbusMaster.RepliesReachAskers | src/middleware/nx_modbus_rtu_master.c:82-91 | a slave's reply is claimed by exactly the subscriptions for that slave and code, or for every code |
| ModbusMaster.Master.Dispatch | src/middleware/nx_modbus_rtu_master.c:100-125 | claiming queues with room share one copy; an unclaimed or uncopied response changes nothing |
| ModbusBus.GapIsThreeAndAHalfCharacters | src/middleware/nx_modbus_rtu_slave.c:431-438 | the gap is the least whole number of microseconds longer than 3.5 characters |
| ModbusBus.RunsAreDisciplined | src/middleware/nx_modbus_rtu_slave.c:322-392 | over every run frames leave in queue order, one at a time, each block given back once when its frame is over; the pin is asserted exactly while a frame is under way |
| ModbusBus.NeverWhileBusy | src/middleware/nx_modbus_rtu_slave.c:325-335 | a frame starts only on an idle interface with nothing under way |
| ModbusBus.RunsAreQuiet | src/middleware/nx_modbus_rtu_slave.c:332-335 | over every run no frame starts before the gap has truly passed since all activity seen, clock wrap included |
| ModbusBus.SilenceBeforeEveryFrame | src/middleware/nx_modbus_rtu_slave.c:332-383 | over every run, judged by the events alone, a frame starts at least the gap after the start, after all bytes heard and after the end of every frame of its own |
| ModbusBus.StartsIffSilent | src/middleware/nx_modbus_rtu_slave.c:324-340 | a poll starts the oldest frame if and only if none is under way, the interface is idle and the wire has been silent for the gap |
| ModbusBus.EndsIffIdle | src/middleware/nx_modbus_rtu_master.c:237-260 | a frame under way ends at the first poll that finds the interface idle, one written by a blocking write with that write |
| ModbusBus.LastUseIsKept | src/middleware/nx_modbus_rtu_slave.c:258-260 | the time the transmitter measures silence from is the last time the wire was in use |
| ModbusBus.Transmitter.Poll | src/middleware/nx_modbus_rtu_master.c:197-267 | the transmit step of both sides is the machine's, and no reference but its own frame's changes hands |
| ModbusBus.Transmitter.Hear | src/middleware/nx_modbus_rtu_master.c:133-145 | bytes received restart the silence |
| RingBuf.RingBuf.Write | src/core/nx_ringbuf.c:23-57 | appends what fits, wrapped or not |
| RingBuf.RingBuf.Peek | src/core/nx_ringbuf.c:60-87 | reads the oldest bytes without moving them |
| RingBuf.RingBuf.Discard | src/core/nx_ringbuf.c:89-104 | drops the oldest bytes |
| RingBuf.RingBuf.Read | src/core/nx_ringbuf.c:106-115 | takes the oldest bytes out |
| RingBuf.RingBuf.PeekLinear | src/core/nx_ringbuf.c:126-139 | the contiguous run is a prefix of the contents, empty only when they are |
| RingBuf.RingBuf.PokeLinear | src/core/nx_ringbuf.c:141-161 | the contiguous free run starts right behind the contents, empty only when the ring is full |
| RingBuf.RingBuf.WriteInPlace | src/core/nx_ringbuf.c:141-175 | filling free runs and committing them is writing |
| LineLog.MessageEvictsAs | src/core/nx_log.c:99-128 | emptying the ring of a message takes as many evictions as it has newlines, the closing one included: exactly one if and only if what is kept of it has none inside |
| LineLog.EvictsShortestPrefix | src/core/nx_log.c:120-128 | eviction gives up the shortest prefix of lines that makes room |
| LineLog.EvictedMakesRoomIff | src/core/nx_log.c:120-135 | after eviction the new line fits if and only if it would fit an empty ring |
| LineLog.FirstNewline | src/core/nx_log.c:22-39 | behind the first newline of a text of lines are its other lines |
| LineLog.Log.EvictOldest | src/core/nx_log.c:22-39 | the scan over wrapped segments discards exactly the oldest line |
| LineLog.Log.Write | src/core/nx_log.c:62-140 | for any text: filtered, nothing changes; otherwise enqueued whole or counted as dropped, by policy, after the evictions that takes |
| LineLog.Log.AccountBalancesIff | src/core/nx_log.c:117-135 | messages asked for are lines drained, held and dropped if and only if no message taken has a newline inside |
| LineLog.Log.Process | src/core/nx_log.c:142-171 | the sink gets all held lines in order and the ring is empty |
| LineLog.Log.Perform | src/core/nx_log.c:55-171 | over any writes, level changes and drains the account holds exactly what the level in force at the time let through, and the sink gets the lines drained in order |
| LineLog.EmbeddedNewlineMiscounts | src/core/nx_log.c:22-39 | a message with a newline inside that is taken as one and evicted as two |
| TimerGrid.FiresExactlyTheDue | src/core/nx_timer.c:16-51 | one call fires every timer due at entry exactly once and no other |
| TimerGrid.StaysUnlessOneShotFired | src/core/nx_timer.c:34-48 | a timer stays active unless it was a one-shot and fired |
| TimerGrid.EachTimerRunsAlone | src/core/nx_timer.c:16-93 | in a run of ticks, starts and stops of other timers, a timer fires at the ticks its own expiry and period give, and a periodic one has the expiry they give in the list |
| TimerGrid.WrappedClockIsTrueClock | src/core/nx_timer.c:33 | in a run, while its delays and lag stay within half the counter, a timer on the wrapping clock fires exactly when one on an unbounded clock would |
| TimerGrid.NeverEarly | src/core/nx_timer.c:16-51 | in a run, a timer's k-th firing is not before its first expiry plus k periods |
| TimerGrid.NeverIdle | src/core/nx_timer.c:16-51 | in a run, a tick at which a periodic timer does not fire comes before its next grid point |
| TimerGrid.StaysOnGrid | src/core/nx_timer.c:41-47 | in a run, the expiry a periodic timer has in the list is its first one plus one period per firing, modulo 2^32, however late it is processed |
| TimerGrid.FiresWhenStartedIff | src/core/nx_timer.c:76-78 | a timer fires at the very tick it was started at if and only if its delay is zero or longer than half the counter |
| TimerRing.Add | src/core/nx_list.h:65-74 | the ring of links holds the new node right behind the given one and is otherwise as before |
| TimerRing.Del | src/core/nx_list.h:111-118 | the ring closes behind the node taken out |
| TimerRing.Manager.Start | src/core/nx_timer.c:66-84 | the timer is last in the ring, once, due a delay after the last tick processed; others keep place and times; the list makes the step of a start |
| TimerRing.Manager.Stop | src/core/nx_timer.c:86-93 | the timer leaves the ring, the ring still holds exactly the active timers; the list makes the step of a stop |
| TimerRing.Manager.Process | src/core/nx_timer.c:16-51 | walking the links while unlinking fires and keeps exactly what the list functions say |

## Left out

- UDS server, client, services and binding: their sources are not part of this model.
- Locks, interrupts and preemption: every public call is atomic.
- NULL arguments and releasing a message already freed: calls that make no sense in typed Dafny.
- C object layout: the tier table is an array of records whose bytes are reserved but not written, message headers and what the blocks of frames and SDUs hold are records kept by block address, an embedded list hook is the timer itself; sizes are those of a 32-bit target.
- IsoTpDelivery.QueueCompletes: needs each call of the sender to open at least the separation time after the last reading of the call before, readings closer together than the receiver's N_Cr, and messages the receiver's limits accept; calls that come faster take more turns, which are not counted.
- IsoTpNetwork.DeliveryIsFaithful: says nothing of links that lose first or single frames, reorder or repeat; the sequence number cannot tell such a loss apart, and the code makes no promise there.
- PoolLayout.LaidIsPlaced: tiers whose size wraps when rounded up are excluded by `Roundable`, here and in the contract of `Pool.Pool.Init`; `PoolLayout.RoundUpCanVanish` is such a size and `Pool.VanishedTierServesNothing` says what becomes of its tier.
- Crc.Context.UpdateAll: widths 8, 16 and 32, which the one-shot forms use; other widths of the core are not modelled.
- ModbusStation.Station.Serve: resolves the frames of one receive step behind the slicing loop instead of inside it, which nothing can tell apart; init's argument checks and the master's receive and route in one step are left out.
- ModbusBus.Transmitter.Poll: a blocking write's duration is the difference of its two clock values; deinit is left out.
- LineLog.Log.Write: starts from the formatted text; level tag, tick prefix and vsnprintf are left out, and so is nx_log_read with a short length, which may cut a line and with it the account of lines.
- TimerRing.Manager.Process: callbacks leave the list alone; a callback that restarts timers can make the walk endless.
- nx_coro.h, nx_event_flags.h, nx_bytes.h, nx_ws2812.c and the register access of the encoder drivers: single-line operations or thin wrappers.
