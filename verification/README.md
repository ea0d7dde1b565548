# Verified models of the Silent Phone media path

Dafny models of the parts of Silent Phone that turn an unordered, lossy stream of packets
into sound and of the data structures around them, with proofs of what those parts are
for. `dafny verify dfyconfig.toml` checks everything.

Each component has a specification on values (functions over sequences, states and bytes)
about which the theorems are proved, and, where the C++ code updates objects in place, a
class whose methods keep the same fields and loops and are proved to take exactly the
specified steps.

- **The RTP queue** (`RingAllocator`, `Rollover`, `QueueModel`, `QueueInvariants`,
  `QueuePlayback`, `QueueResync`, `QueueArrival`, `QueueSound`, `QueueDecisions`,
  `QueueReorder`, `QueueReplay`, `QueueAlike`, `QueueAnyOrder`, `QueueJitter`,
  `RtpQueue`). A ring allocator without a free list, the
  unwrapping of 16-bit sequence numbers and a table of 1024 slots together make arrival
  order inaudible: in any two runs of the same calls of `getData` in which the same packets
  of a burst come before each call, in any orders and with any duplicates, the calls give
  the same samples, provided they are given the same recommended sample counts and none
  reads the clock when one arrival of a packet is more than 6 seconds old and the other is
  not. The proof composes disjointness of the allocations, the unwrapping over whole runs,
  a simulation between two queues that number their packets differently, and the
  termination measure of the decoding loop. What single steps do is stated from the
  table, the samples and the decoders: what one packet changes (`QueueArrival`), what
  one step plays (`QueueSound`) and what `getData` decides before (`QueueDecisions`).
  Codecs are arbitrary functions of everything they were fed before; `getTickCount` and
  the recommended number of buffered samples are inputs.
- **The intrusive list** (`ItemList`): root, tail, prev and next always describe one
  sequence, and every operation is the sequence operation.
- **NAT classification by STUN** (`StunModel`, `StunNat`, `StunExact`, `StunMessage`,
  `StunClient`): the client against a model of the network, in every interleaving of timer
  and responses, down to the bytes of the responses, with the exact bounds on the
  response times that the verdict needs.
- **Streams and buffers** (`Upsample`, `Resampler`, `PlaybackRing`, `Utf8`, `TextEdit`,
  `ImageMean`, `ImageScale`, `ImageAverage`, `ImageRoundTrip`, `ImageBits`, `ChatMem`):
  the 2x upsampler, the playback ring, the UTF-8 decoder and in-place text edits, image
  shrinking and packing, and the memory of recent messages.
- `Width`, `Wrappers`, `Buffers` and `Division` hold the fixed-width integers, `Option`,
  what it means to have written a stretch of a buffer, and division lemmas.

## Where the code does not do what it seems to promise

Each of these is stated as a lemma or in the contract of a method.

- Arrival order can be heard in two ways. A packet is dropped 6 seconds after its own
  arrival, so a call whose tick lies between the ends of those 6 seconds tells two arrival
  times apart (`AgesDiffer`, `AgeDecides`). And the recommended sample count decides when
  playing starts (`NeedDecides`), while the code computes it from the arrival jitter:
  `OrderHeardExactly` says for which bursts and orders that is heard, `OrderCanBeHeard`
  that it happens, with two packets that play at once in one order and not in the other.
- `reset()` of the queue visits slots 0 to 1022 of 1024 (`silentphone/audio/CTRtpQueue.h:268`),
  although the message below it says memory must be 0 afterwards. `ResetAccounting` and
  `ResetSane` say exactly when this matters, `ResetForgets` reaches such a state; runs are
  counted from construction.
- `moveToRoot` on a list that may not change makes the chain a cycle: `remove` returns at
  once and `addToRoot` links the item a second time. Whatever item is added a second time,
  at the root, at the tail or behind another, the pointers then describe no sequence; and
  removing an item that is linked nowhere loses the whole list.
- The upsampler writes three samples when it is asked for none while it remembers one
  (`NothingWhileRemembering`, with the exact condition in `KeepsExactly`), and one sample
  more than asked whenever the number left to produce is odd; the caller has to leave room
  for that.
- `decSize` without a shift puts row r of the small image at a place computed from the
  width of the frame. For a tile of single pixels this is wrong unless the tile lies in the
  corner of the frame (`SmallTiles`), and on a whole frame rows overlap when the rows of a
  block do not divide the columns (`ThumbnailOverlaps`).
- `insertText` of bytes stops at a zero byte but counts and moves for all of them. With a
  null pointer and a count it moves the tail and adds nothing, so that removing the count
  again takes away text that was there before (`RemoveAfterNull`).
- A resend round of the STUN client is 320 ms, not 300: the timer is looked at every 20 ms
  (`StunExact.Idle`). A full cone NAT whose second response takes 1110 ms can be taken for
  an address restricted one, and so on for the other kinds (`VerdictExactly`).
- A 16-bit output holds only the low half of the characters that take four bytes in UTF-8.
- The playback ring loses its alignment when the 32-bit byte position wraps, at every
  sample rate and exactly then (`WrapMovesSlots`, and the contract of `GetNext`).

## Model

| member | source | states |
|---|---|---|
| `QueueAnyOrder.ArrivalOrderIsInaudible` | silentphone/audio/CTRtpQueue.h:327-467 | From a fresh queue, for any burst of up to 159 data packets of 1..1024 bytes, any part of it that is not lost, and any calls of `getData`, before, between and after which that part arrives: two runs in which the same packets come before each call, in any orders and with any duplicates, deliver the same samples, concealment of what is lost included. Both runs have the same calls with the same recommended sample counts, and no clock reading of a call lies between the ends of the 6 seconds of the two arrivals of one packet |
| `QueueAnyOrder.ReceivedAlike` | silentphone/audio/CTRtpQueue.h:327-405 | Two queues that look alike still do after the same packets have reached them in different orders, whatever was played before |
| `QueueAnyOrder.GetDataGivesBack` | silentphone/audio/CTRtpQueue.h:407-467 | A call of `getData` keeps the queue invariant, and of what was received it only gives slots back |
| `QueueAlike.AgeDecides` | silentphone/audio/CTRtpQueue.h:765-775 | With one packet waiting ahead, playing goes on if and only if the packet came at most 6 seconds before the tick: arrival times can be heard through expiry |
| `QueueAlike.AgesDiffer` | silentphone/audio/CTRtpQueue.h:770-771 | A tick tells two arrival times of a packet apart if and only if it lies between the ends of their 6 seconds |
| `QueueJitter.OrderHeardExactly` | silentphone/audio/CTRtpQueue.h:281-548 | With the counts the code computes from arrival jitter, for any burst, rate, first estimate and any two arrival orders with duplicates: whether the first call plays differs between the orders if and only if one of the two counts lets the packets start and the other does not |
| `QueueJitter.TwoOrdersHeard` | silentphone/audio/CTRtpQueue.h:281-548 | ... for two packets less than 2000 timestamp units apart: if and only if their distance lies between the counts |
| `QueueJitter.OrderCanBeHeard` | silentphone/audio/CTRtpQueue.h:281-548 | It does happen: two packets of a fresh queue, sent and received 30 ms apart, play at once in order and stay silent in reverse order, for every first estimate from 0 (construction) to 0.01 (reset) |
| `QueueJitter.CountsDiffer` | silentphone/audio/CTRtpQueue.h:281-548 | ... because the recommended count is 380 samples in order and 1035 in reverse |
| `QueueJitter.JitterFollows` | silentphone/audio/CTRtpQueue.h:381-552 | The jitter estimate rises at once to a larger deviation, up to half a second, and otherwise goes a 256th of the way to it |
| `QueueJitter.CountBounds` | silentphone/audio/CTRtpQueue.h:281-307 | The count is at least 380, never above two seconds unless those are fewer samples than that, and between the bounds the samples of jitter and 75 more |
| `QueueReplay.AnyOrderPlaysInOrder` | silentphone/audio/CTRtpQueue.h:327-405 | The same burst in any order, drained by `decodeNextPacket` from its first number, leaves FIFO, concealment state and decoder history exactly as a player has them that calls the decoders with the packets of the sender directly |
| `QueueReplay.AnyOrderFeedsInOrder` | silentphone/audio/CTRtpQueue.h:643-760 | ... so n calls hand the decoders exactly the n original payloads in sequence order, if the codecs accept them and each frame finds room |
| `QueueReplay.AnyOrderSoundsInOrder` | silentphone/audio/CTRtpQueue.h:693-705 | ... and what is heard are the outputs of the decoders: the samples fetched, followed by those left, are the old FIFO followed by the concatenated outputs of `decode` on the original payloads in sequence order |
| `QueueReorder.ReceiveAllHolds` | silentphone/audio/CTRtpQueue.h:327-366 | Whenever a part of the burst arrives, in any order with duplicates, after any number of calls: the slots of exactly the packets that have come carry them under their own extended numbers with their own bytes, those new are queued, played ones are not queued again, and all other slots are as they were |
| `QueueReorder.InitialFresh` | silentphone/audio/CTRtpQueue.h:198-279 | The queue as constructed is fresh, so the theorems above start from it |
| `QueueAlike.GetDataAlike` | silentphone/audio/CTRtpQueue.h:407-467 | Two queues that agree up to a renumbering by a multiple of 2^16, payload locations, and arrival times that no tick of the calls tells apart, deliver the same samples and still agree afterwards |
| `QueueAlike.PrepareAlike` | silentphone/audio/CTRtpQueue.h:581-638 | ... and re-synchronise alike, even if their play positions disagreed while neither could play |
| `QueueArrival.ReceivesExactly` | silentphone/audio/CTRtpQueue.h:327-405 | What `addPack` does with any packet, comfort noise included: one whose slot has its number changes nothing; one of the wrong size is refused with -1 and empties its slot; any other lies in its slot under its extended number with its own bytes, nothing else about the table changes, and the newest number, the unwrapper and the flags follow |
| `QueueSound.LookExactly` | silentphone/audio/CTRtpQueue.h:645-665 | Which packet a step sees at the play position and which as the next, and exactly which slots it gives back before (expired ahead, other numbers here and one on) |
| `QueueSound.DecodesPacket` | silentphone/audio/CTRtpQueue.h:693-759 | A decodable packet at the play position is fed to its decoder and what `decode` returns is put behind the waiting samples; everything else the step changes |
| `QueueSound.DecodesOriginal` | silentphone/audio/CTRtpQueue.h:693-705 | ... from the bytes the packet came with, while at most 158 data packets were stored after it |
| `QueueSound.Conceals` | silentphone/audio/CTRtpQueue.h:712-748 | Without one: the last packet once more where its decoder conceals and another packet waits; silence exactly up to the timestamp of the next packet after comfort noise (within 16000 samples, as long as the last frame for a step back); else silence as long as the last frame, or up to what was asked for |
| `QueueSound.ConcealKeeps` | silentphone/audio/CTRtpQueue.h:684-760 | ... and the remembered state, position and flags; playing stops exactly if no packet waits |
| `QueueDecisions.PlaysOn` | silentphone/audio/CTRtpQueue.h:419-456 | While it can play and waits for nothing, from one second short up to four seconds (or three and the wanted count) queued, `getData` decides nothing: position, FIFO and flags stay |
| `QueueDecisions.CutsBack` | silentphone/audio/CTRtpQueue.h:454-456 | Above that bound it repositions to the nearest packet, or to the fallback if there is none, and plays |
| `QueueDecisions.RunsDry` | silentphone/audio/CTRtpQueue.h:433-437 | More than a second short it repositions and does not play |
| `QueueDecisions.WaitsForMore` | silentphone/audio/CTRtpQueue.h:439-452 | After a reset or a dry spell it stays as it is until the wanted count is queued, and then clears the flags and plays |
| `QueueDecisions.CutsBackAtOnce` | silentphone/audio/CTRtpQueue.h:439-456 | ... repositioning if there are too many by then |
| `QueueDecisions.StartsOrWaits` | silentphone/audio/CTRtpQueue.h:411-456 | While it cannot play it repositions; it starts if and only if a packet is found that leaves the wanted count ahead |
| `QueueDecisions.PlaysOnDelivers` | silentphone/audio/CTRtpQueue.h:419-464 | While it plays on, the samples that wait come out first and none is lost |
| `QueueDecisions.EnoughWaiting` | silentphone/audio/CTRtpQueue.h:458-464 | With enough samples waiting nothing is decoded: the first n come out, the rest moves up and the play position moves on by n |
| `QueueDecisions.WaitingDelivers` | silentphone/audio/CTRtpQueue.h:439-464 | While it waits they come out too, followed by silence only, and nothing else changes |
| `QueuePlayback.Progress` | silentphone/audio/CTRtpQueue.h:458-460 | Every turn of the loop in `getData`, by decoding, comfort noise, replay, loss or expiry, lowers the lexicographic measure (slots in use, right to replay, samples missing), so the loop ends in every state |
| `QueuePlayback.GetDataDelivers` | silentphone/audio/CTRtpQueue.h:407-467 | `getData` writes exactly n samples: together with what stays in the FIFO they are the FIFO after decoding, nothing lost, repeated or reordered; the FIFO stays within 16000 samples if n and one frame fit together |
| `QueuePlayback.PlayingDelivers` | silentphone/audio/CTRtpQueue.h:458-464 | When it plays, the samples that still wait after the decision to play come out first |
| `QueuePlayback.InOrder` | silentphone/audio/CTRtpQueue.h:643-760 | Whatever arrives in between, the extended numbers decoded between two re-synchronisations are strictly increasing offsets from the play position |
| `QueuePlayback.PumpIsWalk` | silentphone/audio/CTRtpQueue.h:458-460 | The decoding loop is a series of such steps, each with the next reading of the clock, and ends as soon as the samples suffice |
| `QueuePlayback.DecodedTwiceMeansTakenOver` | silentphone/audio/CTRtpQueue.h:329-342 | A number decoded twice was accepted twice, and between the two a different number with the same low 10 bits was accepted |
| `QueuePlayback.PayloadIsOriginal` | silentphone/audio/CTRtpQueue.h:349-353 | A waiting packet still has the bytes it came with while at most 158 data packets were stored after it |
| `QueuePlayback.DecodedIsOriginal` | silentphone/audio/CTRtpQueue.h:693-705 | ... and then reaches its decoder byte for byte, under the number of the play position |
| `QueuePlayback.RunAccounting` | silentphone/audio/CTRtpQueue.h:47-61 | In every run of `addPack` and `getData` since construction, `bytesUsed()` is the sum of the lengths of the slots in use, each of which sits at its number mod 1024 and keeps its number mod 65536 |
| `QueuePlayback.ResetAccounting` | silentphone/audio/CTRtpQueue.h:268-278 | `reset()` skips the last slot: the books balance afterwards if and only if that slot holds no bytes (the code's own message says memory must be 0) |
| `QueuePlayback.ResetSane` | silentphone/audio/CTRtpQueue.h:268-278 | ... and the queue invariant holds afterwards if and only if that slot is not in use |
| `QueuePlayback.ResetForgets` | silentphone/audio/CTRtpQueue.h:268-278 | One packet with number 1023 is enough to reach such a state from construction |
| `QueuePlayback.ResetIsConstruction` | silentphone/audio/CTRtpQueue.h:235-279 | After `reset()` the queue is as constructed, but for the rollover counter, the numbers left in the slots and the last slot |
| `QueueInvariants.AddPackSane` | silentphone/audio/CTRtpQueue.h:327-405 | `addPack` keeps the queue invariant (books, slot links, intact payloads, at most once) for new, repeated, late, expired and malformed packets |
| `QueueInvariants.DecodeNextSane` | silentphone/audio/CTRtpQueue.h:643-760 | `decodeNextPacket` keeps it |
| `QueueInvariants.PrepareSane` | silentphone/audio/CTRtpQueue.h:407-456 | ... and so do re-synchronising and trimming |
| `QueueInvariants.DecodeNextFrees` | silentphone/audio/CTRtpQueue.h:643-783 | A step only gives slots back, changes nothing else about them, and gives one back whenever there is a packet at the play position |
| `QueueResync.FindBestChoosesNearest` | silentphone/audio/CTRtpQueue.h:581-638 | `findBestDecodePack` succeeds with the packet in use whose lag is nearest the wanted one (first among equals), sets the play position to its timestamp, empties the FIFO and gives back exactly the 255 slots behind; it fails exactly when every queued packet of the window is too far off, and then falls back to five packets behind the newest; nothing else changes |
| `QueueResync.WindowReaches` | silentphone/audio/CTRtpQueue.h:583-588 | The window is twenty positions before anything was decoded, else exactly as many frames as make up the wanted count, rounded down, and ten more |
| `QueueResync.NeedDecides` | silentphone/audio/CTRtpQueue.h:407-452 | A queue that cannot play starts to if and only if the search finds a packet that leaves at least the recommended count of samples ahead, so that count can be heard |
| `QueueResync.TwoStart` | silentphone/audio/CTRtpQueue.h:581-638 | With two packets queued, less than 2000 apart: if and only if the count is at most the distance between them |
| `QueueResync.NearestNotFar` | silentphone/audio/CTRtpQueue.h:591-609 | The two outcomes exclude each other |
| `QueueResync.FindNextExact` | silentphone/audio/CTRtpQueue.h:763-775 | `findNext` stops at the first live packet ahead, gives back exactly the expired ones it passes and touches nothing else |
| `QueueResync.StopAtFirstLive` | silentphone/audio/CTRtpQueue.h:767-773 | Nothing live lies before the packet it stops at |
| `Rollover.RunUnwraps` | silentphone/audio/CTRtpQueue.h:82-108 | Over any run in which consecutive packets differ by less than 2^15-1 and none lies more than 2^15+1 behind the highest, the extended numbers are the true ones plus one constant multiple of 2^16, across any number of wraps |
| `Rollover.UnwrapNear` | silentphone/audio/CTRtpQueue.h:82-99 | One such packet is unwrapped to its true number, and the counter moves exactly when it lies two epochs on |
| `Rollover.JumpTooFar` | silentphone/audio/CTRtpQueue.h:95-96 | The step bound is sharp: a jump of 2^15-1 across the wrap is numbered one epoch too low |
| `Rollover.TooFarBehind` | silentphone/audio/CTRtpQueue.h:95-96 | The lateness bound is sharp too |
| `Rollover.UnwrapLowBits` | silentphone/audio/CTRtpQueue.h:82-99 | An extended number always ends in the 16 bits received |
| `Rollover.HalfWay` | silentphone/audio/CTRtpQueue.h:82-99 | A number exactly half way between two epochs stays in that of the counter |
| `Rollover.RestartBegins` | silentphone/audio/CTRtpQueue.h:73-80 | A restart begins at the start of the next epoch, after 80 at the first |
| `RingAllocator.ConsecutiveDisjoint` | silentphone/audio/CTRtpQueue.h:49-57 | Any 159 consecutive allocations of 1..1024 bytes are pairwise disjoint despite waste at the wrap |
| `RingAllocator.Sharp` | silentphone/audio/CTRtpQueue.h:42-57 | 159 is sharp: 160 consecutive allocations can overlap |
| `RingAllocator.IntactAfterStore` | silentphone/audio/CTRtpQueue.h:349-353 | Storing a payload keeps the last 158 payloads readable, and itself |
| `RingAllocator.MemBuf.GetBuf` | silentphone/audio/CTRtpQueue.h:49-57 | Every region handed out lies inside the buffer; impossible requests get none |
| `RtpQueue.RtpQueue.AddPacket` | silentphone/audio/CTRtpQueue.h:327-405 | The in-place `addPack` takes the state exactly where the specification of `addPack` says, with the same return value |
| `RtpQueue.RtpQueue.DecodeNextPacket` | silentphone/audio/CTRtpQueue.h:643-760 | ... `decodeNextPacket` likewise |
| `RtpQueue.RtpQueue.FindNextPacket` | silentphone/audio/CTRtpQueue.h:763-775 | ... `findNext` |
| `RtpQueue.RtpQueue.FindBestDecodePack` | silentphone/audio/CTRtpQueue.h:581-638 | ... `findBestDecodePack` |
| `RtpQueue.RtpQueue.CopySamples` | silentphone/audio/CTRtpQueue.h:478-499 | `copySamplesFromTmpBuf` takes the head of the FIFO, padded with zeros, and leaves the tail |
| `RtpQueue.RtpQueue.FetchSamples` | silentphone/audio/CTRtpQueue.h:407-467 | ... `getData`: its loop ends, and what it writes out and leaves is what the specification says |
| `RtpQueue.RtpQueue.ResetQueue` | silentphone/audio/CTRtpQueue.h:235-279 | ... `reset()`, with the last slot left out |
| `RtpQueue.RtpQueue.RelPack` | silentphone/audio/CTRtpQueue.h:777-783 | ... `relPack` |
| `RtpQueue.RtpQueue.BytesUsed` | silentphone/audio/CTRtpQueue.h:47-61 | `bytesUsed()` returns what the slots in use hold, while the books balance |
| `Rollover.Roc.RolSeq` | silentphone/audio/CTRtpQueue.h:82-99 | `rolSeq` computes the specified number and leaves the specified note |
| `ItemList.ItemList.VisitForward` | silentphone/baseclasses/CTListBase.h:392-401 | Calling `getNext` on a list until it gives nothing visits exactly the visible items in order |
| `ItemList.ItemList.VisitBackward` | silentphone/baseclasses/CTListBase.h:402-411 | Calling `getPrev` until it gives nothing visits them in reverse |
| `ItemList.ItemList.CountVisItems` | silentphone/baseclasses/CTListBase.h:232-242 | `countVisItems` is the number of items these calls visit |
| `ItemList.ItemList.GetNext` | silentphone/baseclasses/CTListBase.h:392-401 | `getNext` follows the pointers to the next shown position of the sequence |
| `ItemList.ItemList.GetPrev` | silentphone/baseclasses/CTListBase.h:402-411 | `getPrev` likewise, backwards |
| `ItemList.ItemList.AddToRoot` | silentphone/baseclasses/CTListBase.h:353-368 | root, tail, prev and next describe the sequence with the item in front; for an item already in the list they describe no sequence at all afterwards (a cycle) |
| `ItemList.ItemList.AddToTail` | silentphone/baseclasses/CTListBase.h:377-391 | ... with the item at the end; for one already in the list they describe no sequence at all |
| `ItemList.ItemList.AddAfter` | silentphone/baseclasses/CTListBase.h:328-352 | ... with the item behind another, or in front without one; for one already in the list they describe no sequence at all |
| `ItemList.ItemList.Remove` | silentphone/baseclasses/CTListBase.h:249-288 | ... without the item; nothing if the list may not change; and for an item that is linked nowhere the whole list is lost, root and tail becoming null |
| `ItemList.ItemList.MoveToRoot` | silentphone/baseclasses/CTListBase.h:244-248 | ... with the item moved to the front; if the list may not change, `remove` does nothing and the chain becomes a cycle; an item that is linked nowhere is afterwards alone in the list, or in front of it if the list may not change |
| `ItemList.ItemList.RemoveAll` | silentphone/baseclasses/CTListBase.h:181-201 | The list is empty and no item is linked any more |
| `StunExact.VerdictExactly` | silentphone/stun/CTStun.h:332-455 | Against a NAT that is open, full cone, address restricted, port restricted, symmetric or blocking, over all interleavings of the resend timer with responses, late and repeated ones included: every run has the right label when it ends and ends in time if and only if the responses come within bounds that depend on the kind of NAT |
| `StunNat.VerdictIsRight` | silentphone/stun/CTStun.h:332-455 | If they do, a detection that has ended carries the label of that NAT and a running one has not reached 5000 ms |
| `StunNat.VerdictIsReached` | silentphone/stun/CTStun.h:345-382 | ... and after 251 turns of the loop it has ended with that label |
| `StunExact.EnoughForAll` | silentphone/stun/CTStun.h:332-390 | The bounds hold for every kind if the two responses between and before unanswered stages take less than 1160 ms together and the other two less than 1110 and 960 ms |
| `StunExact.Idle` | silentphone/stun/CTStun.h:345-382 | Without an answer a request goes out again after exactly 16 turns, 320 ms, at the usual pace and after 8 turns at the quick one |
| `StunNat.NeverStuck` | silentphone/stun/CTStun.h:345-382 | While the detection runs something can always happen next |
| `StunNat.RunKeepsInv` | silentphone/stun/CTStun.h:332-455 | The invariant behind it, over whole runs: stage, latest start of each stage, resend schedule and learned addresses |
| `StunNat.StagesAdvance` | silentphone/stun/CTStun.h:397-455 | Whatever the network does, as long as mapped addresses are non-zero, the stage never goes back and the label is written at most once |
| `StunNat.ZeroMappingGoesBack` | silentphone/stun/CTStun.h:409-415 | ... and without that promise a stage can be entered twice |
| `StunNat.PausesUseUpTime` | silentphone/stun/CTStun.h:345-382 | Every run ends: 251 turns of the loop use up the deadline |
| `StunMessage.ReceiveMessage` | silentphone/stun/CTStun.h:189-222 | Reading a written response with any attributes in any order, unknown ones among them, checks number, id and source and applies the attributes in order |
| `StunMessage.ReceiveBytes` | silentphone/stun/CTStun.h:189-222 | What is made of any bytes whatever: nothing changes and the packet is not taken unless it comes from a server, has this client's 8 bytes, the number sent last, type 0x0101 and the length it says; then its attributes are applied in order, and it is taken unless an address attribute is malformed |
| `StunMessage.ParseBytes` | silentphone/stun/CTStun.h:523-598 | ... with the error codes -1, -2, -3, -5 and -6 of the parser |
| `StunModel.PingBounds` | silentphone/stun/CTStun.h:203-215 | The round-trip time noted is the shortest measured, from 1 to 10000 ms; one that is not positive counts as 3 |
| `StunMessage.Splits` | silentphone/stun/CTStun.h:540-593 | Any bytes are a list of attributes followed by a cut-off or malformed one |
| `StunMessage.WellFormedResponds` | silentphone/stun/CTStun.h:523-598 | A response with one MAPPED-ADDRESS and one CHANGED-ADDRESS anywhere acts as the state machine's response step |
| `StunMessage.ApplyAllSorts` | silentphone/stun/CTStun.h:554-593 | The order between different attributes does not matter |
| `StunClient.StunClient.OnPacket` | silentphone/stun/CTStun.h:189-222 | The in-place `isStunResponce` does what the specification of reading a packet says, for all bytes |
| `StunClient.StunClient.CheckNat` | silentphone/stun/CTStun.h:397-455 | The in-place `checkState` takes the specified step |
| `StunClient.StunClient.ResendTurn` | silentphone/stun/CTStun.h:345-382 | One turn of the resend loop takes the specified step |
| `Upsample.ChunkingIsInaudible` | silentphone/audio/CTUpsample2x.h:21-75 | For any series of servable requests, even or odd, the concatenated outputs are a prefix of the stream filtered in one pass, and twice the inputs used minus the outputs is the one sample remembered |
| `Upsample.JobIsNext` | silentphone/audio/CTUpsample2x.h:21-75 | A servable request gets the next part of that stream, and one sample more is written exactly when the number left to produce is odd |
| `Upsample.PushGivesTwice` | silentphone/audio/CTUpsample2x.h:21-75 | Given inputs and no count a call uses them all and gives twice as many outputs, the next of the stream |
| `Upsample.KeepsExactly` | silentphone/audio/CTUpsample2x.h:21-75 | A call keeps the stream (at most one sample more than asked, the samples asked for next in the stream, the state for the rest) if and only if its request is servable: something is left to ask for or no input is offered, and there is input enough |
| `Upsample.KeepsAllExactly` | silentphone/audio/CTUpsample2x.h:21-75 | A whole series keeps it at every call if and only if every request is servable when its turn comes |
| `Upsample.NothingWhileRemembering` | silentphone/audio/CTUpsample2x.h:27-47 | The failing family is reached: after one pull of a single sample from a reset, a pull of nothing writes three samples |
| `Upsample.LineReproduced` | silentphone/audio/CTUpsample2x.h:46-60 | Samples on a straight line stay on it at twice the rate: output j is its value at (2j - 9) / 4, rounded to the nearest (ties up), inside the range |
| `Upsample.ConstantReproduced` | silentphone/audio/CTUpsample2x.h:46-60 | A constant is reproduced exactly once the window is filled |
| `Upsample.StreamBounded` | silentphone/audio/CTUpsample2x.h:52-60 | Every output lies within +-32766 |
| `Upsample.CTUpSample2x.DoJob` | silentphone/audio/CTUpsample2x.h:21-75 | The in-place `doJob` writes and remembers what the specification says and leaves the rest of the buffer alone |
| `Resampler.PullingIsInaudible` | silentphone/audio/CTResampler.h:53-71 | Pulling at twice the rate in pieces of any positive sizes gives one stream and never runs out of input when there is one input for two outputs; it uses half the outputs, rounded up |
| `Resampler.PullServable` | silentphone/audio/CTResampler.h:55-58 | A pull is servable if and only if it asks for something or nothing is remembered |
| `Resampler.CountsAgree` | silentphone/audio/CTResampler.h:54-62 | The two sample counts agree at the same, twice and half the rate |
| `Resampler.CTResampler.DoJob` | silentphone/audio/CTResampler.h:53-83 | The in-place `doJob` for every rate pair, with what it reports as used |
| `PlaybackRing.OutputsAreTimeline` | silentphone/audio/CTAudioOutVOIP.h:526-587 | From a cleared buffer, for every run whose writes lie in the window, the samples played are, one for each stream position in order, what the whole run makes of that position |
| `PlaybackRing.PlayedOnce` | silentphone/audio/CTAudioOutVOIP.h:919-927 | With clearing, every sample written is played exactly once at its position, and a position nobody wrote is silent |
| `PlaybackRing.RingIsTimeline` | silentphone/audio/CTAudioOutVOIP.h:526-587 | After every run the ring holds the timeline of its window |
| `PlaybackRing.WrapMovesSlots` | silentphone/audio/CTAudioOutVOIP.h:909-920 | At any rate, from any position and for any number of frames, the slot of the 32-bit byte position is that of the stream position if and only if the position has not wrapped |
| `PlaybackRing.StoredSilence` | silentphone/audio/CTAudioOutVOIP.h:569-576 | A write without samples and length silences the whole buffer, wherever it starts |
| `PlaybackRing.CTAudioOutRing.PlayedWhatWasWritten` | silentphone/audio/CTAudioOutVOIP.h:526-587 | Over any history of writes and reads of the in-place ring from a silent buffer, with clearing, writes in the window and no wrap, everything played is what was written at those positions, once |
| `PlaybackRing.CTAudioOutRing.WriteIsPlayed` | silentphone/audio/CTAudioOutVOIP.h:526-928 | ... so the samples of one write are played one by one once the play position has passed it, if no later write went over them |
| `PlaybackRing.CTAudioOutRing.PlayedTheTimeline` | silentphone/audio/CTAudioOutVOIP.h:909-928 | ... and without clearing it is the timeline |
| `PlaybackRing.CTAudioOutRing.Update` | silentphone/audio/CTAudioOutVOIP.h:526-587 | A write of len bytes stores the first len / 2 samples given, or that much silence, at its position and over the end of the buffer; a full buffer for lengths above it, not positive, or without samples and position |
| `PlaybackRing.CTAudioOutRing.GetNext` | silentphone/audio/CTAudioOutVOIP.h:909-928 | The read loop plays, clears and advances frame by frame as specified, and the slot read next is that of the next stream position if and only if the position did not wrap |
| `Utf8.RoundTrip` | silentphone/baseclasses/CTEditBase.cpp:566-629 | Decoding the encoding (section 3 of RFC 3629) of a text gives the text back if and only if every character lies below 2^16 |
| `Utf8.DecodedAll` | silentphone/baseclasses/CTEditBase.cpp:566-629 | In general it gives the low 16 bits of every character |
| `Utf8.DecodedAppend` | silentphone/baseclasses/CTEditBase.cpp:575-583 | For arbitrary bytes b, and v not starting with a continuation byte, decode(b+v) = decode(b)+decode(v) |
| `Utf8.OnePerLead` | silentphone/baseclasses/CTEditBase.cpp:584-626 | At most one character for every byte that is not a continuation, so the output is no longer than the input |
| `Utf8.ToUcs2` | silentphone/baseclasses/CTEditBase.cpp:566-629 | The loop, which steps back on a byte that breaks a sequence, ends and writes the decoded characters |
| `TextEdit.RemoveUndoesInsert` | silentphone/baseclasses/CTEditBase.cpp:459-558 | Removing the count that an insertion returned, from behind it, restores the text, for growing and fixed buffers, if and only if: characters were given and not at a negative position; or, for a null pointer, nothing was asked for, there was no text, or nothing gets removed from a text that repeats itself |
| `TextEdit.FilledWhole` | silentphone/baseclasses/CTEditBase.cpp:540-554 | Everything counted is really inserted exactly when no zero byte comes before the count |
| `TextEdit.InsertInPieces` | silentphone/baseclasses/CTEditBase.cpp:506-558 | Inserting piece by piece is inserting the pieces at once |
| `TextEdit.RemoveInPieces` | silentphone/baseclasses/CTEditBase.cpp:459-505 | Removals add up |
| `TextEdit.CTEditBase.InsertText` | silentphone/baseclasses/CTEditBase.cpp:506-558 | The in-place insertion, growing or fixed, moves the tail back with its overlap and splices |
| `TextEdit.CTEditBase.RemCharsFrom` | silentphone/baseclasses/CTEditBase.cpp:459-505 | The in-place removal deletes the characters before the position, moving the tail forward with its overlap |
| `TextEdit.CTEditBase.AddText` | silentphone/baseclasses/CTEditBase.cpp:631-671 | An append adds the characters, or the decoded UTF-8, that fit |
| `TextEdit.CTEditBase.CheckSize` | silentphone/baseclasses/CTEditBase.cpp:674-705 | Growing keeps the text; a fixed buffer cuts the count down to what fits |
| `ImageRoundTrip.ShrinkUndoesEnlarge` | silentphone/codecs/CTVidCodec.h:93-206 | For any part of an image made of whole blocks, `decSize` undoes `incSize` for every small image, whatever was in the buffers, if and only if the block size keeps equal values and the rows are placed one behind the other |
| `ImageRoundTrip.WholeRows` | silentphone/codecs/CTVidCodec.h:176-182 | On a whole image the rows are right if and only if the mean is a shift, there is one row, or the rows of a block divide the columns |
| `ImageRoundTrip.WholeImages` | silentphone/codecs/CTVidCodec.h:78-137 | For the calls on whole images: the round trip holds for every image of whole blocks if and only if the block size keeps equal values and the rows are right |
| `ImageRoundTrip.UsualBlocks` | silentphone/codecs/CTVidCodec.h:138-206 | Both hold for blocks of a power of two from 2 to 256 pixels, and for other blocks of up to 64 pixels of a whole image whose rows divide the columns |
| `ImageMean.ExactOnEqual` | silentphone/codecs/CTVidCodec.h:178-198 | Multiply-and-shift keeps every byte value of a block of equal values if and only if dd - 16384 mod dd is at most 64 or the size is shifted |
| `ImageMean.MeanIsNear` | silentphone/codecs/CTVidCodec.h:178-198 | For those sizes the mean of any bytes is the floor of the true mean or one more, and a byte |
| `ImageRoundTrip.TileRoundTrip` | silentphone/codecs/CTVidCodec.h:499-516 | Unpacking a tile, enlarging it into any frame, shrinking it out again and packing gives back the bytes of the tile |
| `ImageRoundTrip.HalvesAndLargeTiles` | silentphone/codecs/CTVidCodec.h:448-497 | The half frames and the tiles of 80 by 40 that `encode` sends meet the condition anywhere in the frame |
| `ImageRoundTrip.SmallTiles` | silentphone/codecs/CTVidCodec.h:442-497 | Its tiles of 40 by 20 single pixels meet it only in the corner of the frame: elsewhere the rows of the small image are placed as if the tile were a whole frame |
| `ImageRoundTrip.ThumbnailOverlaps` | silentphone/codecs/CTVidCodec.h:417-426 | The rows of its 16 by 12 thumbnail overlap |
| `ImageAverage.ShrunkIsMean` | silentphone/codecs/CTVidCodec.h:138-206 | For any image each colour of a small pixel is the floor of the true mean over all pixels of its block, summed row by row, or one more; the floor itself for shifted sizes; for sizes that spoil equal values exactly what the multiplication gives |
| `ImageAverage.StoredInPlace` | silentphone/codecs/CTVidCodec.h:138-206 | ... and is found at its place in the small image where the rows are right |
| `ImageScale.IncSize` | silentphone/codecs/CTVidCodec.h:93-123 | The loops make every cell of the part the small pixel it is made from and leave every other cell alone |
| `ImageScale.DecSize` | silentphone/codecs/CTVidCodec.h:138-206 | The loops put the mean of every block where the specification says, in both ways of taking means |
| `ImageScale.IncWhole` | silentphone/codecs/CTVidCodec.h:78-92 | The call on a whole image enlarges all of it |
| `ImageScale.DecWhole` | silentphone/codecs/CTVidCodec.h:124-137 | ... and this one shrinks all of it |
| `ImageBits.PackUndoesUnpack` | silentphone/codecs/CTVidCodec.h:232-269 | `bits24to12` after `bits12to24` is the identity on every buffer |
| `ImageBits.UnpackNearPacked` | silentphone/codecs/CTVidCodec.h:232-269 | Packing keeps every colour within 15 |
| `ImageBits.LevelKeepsNibble` | silentphone/codecs/CTVidCodec.h:212-228 | The table the constructor's loop fills satisfies pal16[k] / 16 = k |
| `ImageBits.LevelsRise` | silentphone/codecs/CTVidCodec.h:212-228 | The levels rise strictly, from 0 to 255 |
| `ImageBits.CTConvImgBits.constructor` | silentphone/codecs/CTVidCodec.h:212-228 | The loops fill both tables as specified; pal256[c] is c / 16 |
| `ImageBits.CTConvImgBits.PackImage` | silentphone/codecs/CTVidCodec.h:297-307 | In place or not, packing an image gives the same bytes and leaves the rest of the buffer alone |
| `ImageBits.CTConvImgBits.UnpackImage` | silentphone/codecs/CTVidCodec.h:309-318 | Unpacking likewise into a buffer of its own |
| `ChatMem.HoldsTheLatest` | silentphone/tiviengine/CTChatMem.h:58-96 | The queue is always the last iCnt of: zero keys, then the keys found new |
| `ChatMem.StoredOnce` | silentphone/tiviengine/CTChatMem.h:94-131 | Among the keys stored none ever occurs twice |
| `ChatMem.ToldApart` | silentphone/tiviengine/CTChatMem.h:58-131 | Two messages count as the same exactly if number, lengths, the first 8 bytes of the tag and the first 16 of the call id agree |
| `ChatMem.KeptFor` | silentphone/tiviengine/CTChatMem.h:58-131 | Whatever is asked afterwards, a key found new is known exactly while fewer than iCnt keys were found new since it last was |
| `ChatMem.CMsgMem.HasItem` | silentphone/tiviengine/CTChatMem.h:58-96 | `hasItem` says 1 exactly if the shortened key is among the last iCnt stored, and stores it otherwise, whatever bytes earlier messages left in a slot |
| `ChatMem.CMsgMem.AddItem` | silentphone/tiviengine/CTChatMem.h:100-130 | The slot overwritten is the oldest |

## Left out

- QueueAnyOrder.ArrivalOrderIsInaudible: both runs are given the same recommended sample counts. The code computes them with `getRecomendedSampleCnt` from the arrival jitter in `dJit` and from burst counts, which another arrival order changes, so in the program itself the orders can differ in when playing starts (`QueueJitter.OrderHeardExactly`). And no call reads the clock between the ends of the 6 seconds of two arrivals of a packet: such a call finds the packet in one run and drops it in the other (`QueueAlike.AgeDecides`). Packets may come in parts between the calls, but the order of packets is changed only between two calls, since another packet in time for a call is another input.
- QueueJitter.OrderHeardExactly: says what the first call decides to do; the counts of later calls also depend on `iPrevDecodedSamples`, the burst counts and `iTooLate`.
- TextEdit.CTEditBase.RemCharsFrom: position and count are not negative. The code takes `int`; for a negative position it moves characters from in front of the buffer, and for a negative count it lengthens the text without making room.
- ImageScale.IncSize: the part is made of whole blocks, as in all calls of the tile codec; for others the loops of the code run over the edge of the part and past the end of the small image.
- ImageScale.DecSize: likewise; and there is room for every row where it goes.
- ImageScale.IncWhole: the sides of the image are multiples of those of the block, for the same reason.
- ImageScale.DecWhole: likewise.
- ItemList.ItemList.AddAfter: the item to insert behind is in the list; behind one of another list the code changes that list.
- ItemList.ItemList.Remove: an item that is not in the list is linked nowhere; removing one that is linked in another list is left out, also from `MoveToRoot`.
- The queue's logging, `dJit`, burst, lost and too-late counters, `burstingResetTest` and `getRecomendedSampleCnt`: statistics; the number of samples to buffer is an arbitrary input to `getData`. Only `QueueJitter` follows `dJit`, over the reals, while nothing was decoded and fewer than 250 packets came. `usPrevSeq` and `iRelPos` are written and never read.
- Codec internals: `canDecode`, `hasPLC` and `decode` are arbitrary functions, `decode` of everything fed so far, with frames of at most a constant number of samples. Like the code, the model tells `canDecode` the room computed from the size of the buffer in bytes, twice the real one, so a frame must fit by the condition on the request.
- Integer overflow of `b + iSamplesInTmpQueueLeft` in the comfort-noise branch, of `d - iNeedSamplesInBuf` in the search and of the byte counters: taken mathematically. Sequence numbers, timestamps and positions wrap at 16 and 32 bits as in the code.
- Members the queue's constructor leaves uninitialised (play position, previous codec) are parameters of the initial state.
- Threads, locks, sockets, clocks and timers other than as inputs; sound devices; log output.
- STUN: sending of bytes beyond schedule and target, `getExtAddr` and the listening modes; the round-trip times measured are arbitrary; the address the client is bound to is a given constant; fields are read on a little-endian host as the code does.
- The list's `setList`, `findItem` and the `onInsert`/`onRemove` hooks; deleting an item is unlinking it.
- The upsampler's and the resampler's buffers are one array and an offset instead of moving pointers.
- The playback ring's jitter control and re-alignment (`uiNextPP`, `findBestAlign`), faster and slower playback, stopping, and the 512 samples behind the buffer that no loop reaches. A new buffer is taken as silent.
- Text edits: the callback form of `addText`, `trim`, `onChange`, and lengths near 2^31; characters are unsigned 16-bit numbers. A byte count may not exceed the bytes given, and the byte read behind them before the count is looked at is not modelled.
- Images: a pixel is a triple, so byte offsets are three times the indices; blocks of 2^22 pixels and more in the round trip; 16-bit pixels; motion detection and the choice of tiles in `encode`.
- The in-place packing overlaps only as `encode` uses it, with both pointers at the same place.
- `CMsgMem` with room for no message, which the constructor allows and `hasItem` cannot serve.
- `CTJit`, `CTAudioIncDecFrq`, `parseSDP`, `parseRTP`, `ADDR`, user interface, configuration and call control: outside the modelled components.
