# A model of the AJA card driver's hard cores

The driver for AJA video cards keeps four small state machines inside its kernel
plumbing. This project models them and proves what they promise.

1. **The video stream engine.** Up to 64 card pages move between free, user-held,
   queued and on-the-wire. User calls and the vertical interrupt move them. The queue
   is a doubly linked list threaded through a fixed array. `PageList` and `PagePool`
   hold the list and the pool, `PageFlow` and `StreamSpec` say what each operation
   does to values, and `CardModel.Card` does the same in place, field by field, the way
   the driver does. Whole runs, with user calls and interrupts in any order, are the
   subject of `Ownership`, `WireRegisters`, `StreamControl`, `SkippedPages`, `CaptureOrder`,
   `CaptureContents`, `CaptureSlack`, `RateControl`, `PlaybackFlow`, `PlaybackRun` and
   `PlaybackContents`.
2. **The scatter-gather compiler.** `SgCompiler` turns mapped segments into a chained
   descriptor list; `DmaBuffer` cuts a user's byte range into page segments first, and
   `DmaMapping` is the mapping layer between the two.
3. **The Sony 9-pin slave.** `P2Packet` has packets, checksums and replies, `P2Replies`
   what the replies tell, `P2SlaveModel` the device that builds them in a buffer, `P2Ring`
   the ring that forwards packets to programs, `SlaveUart` and `SlavePortModel` the serial
   exchange.
4. **Two smaller cores.** `RegisterField` has the mask generator and the bit-field
   access; `LtcSnapshot` the double-read loops of the timecode boards.

Where the driver updates something in place there is a class or an array method. Each
is proved to do to the fields what a function does to values, and the properties are
then proved of that function, over all inputs and all runs.

## What the proofs found

The code is modelled as it is. Where a promise does not hold, the exact condition is
proved.

- Pushing a page that is queued already leaves links that are no list at all
  (`PageList.PushKeepsListIff`); so does handing out a queued page that a user freed,
  unless it is the only one queued (`PageList.AllocKeepsListIff`).
- Pages that playback pops without showing are never released. A frame loses pages
  exactly when it has to skip frames or meets a page of the wrong channel
  (`SkippedPages.PlaybackSkipsIff`), nothing else does (`SkippedPages.StepSkipsIff`), and
  a lost page stays lost until the stream is initialised again
  (`SkippedPages.SkippedStaysLost`). Users who behave can get there in one frame
  (`SkippedPages.FastRunLosesPage`).
- When the level admits what a frame skips and shows but the queue is shorter, playback
  pops an empty queue and the level falls one further below the true length. The
  condition is exact in every state, also after earlier underflows
  (`PlaybackFlow.UnderflowIff`).
- The capture engine's drop test keeps exactly one page of slack, which is what one
  reader holding one page needs; one page less would be wrong (`CaptureSlack.SlackIsExact`).
  When a frame fails half way for other users is exact too (`CaptureSlack.HalfFailsIff`).
- The speed limit only works while it fits a signed integer (`RateControl.ClampInRangeIff`),
  and the accumulator can only overflow above a limit of 2^31 - 1000000
  (`RateControl.AccumulatorFitsIff`). Negative speeds become the limit.
- A DMA request is sure to move every byte exactly when its size is a whole number of words
  and it starts on a word or lies in one page (`DmaBuffer.UserBytesMovedIff`). Other requests
  depend on how the mapping layer joins their pages (`DmaBuffer.JoiningCanHelp`); for one given
  list of segments `SgCompiler.AllBytesMovedIff` is exact. Descriptors are 32 bytes, not the 16
  that a comment in the source says.
- The checksum detects every change of one byte but the length nibble. A shorter announced
  length passes for some packet with every header (`P2Packet.HeaderChangeIff`); a longer one
  leaves the receiver waiting (`SlaveUart.LongerWaits`). A status reply is well defined exactly
  when the requested range ends within the 16 status bytes (`P2Packet.StatusReplyIff`).
- The ring delivers in order but is lossless exactly when at most 127 packets are
  outstanding at every read (`P2Ring.LosslessIff`).
- A register write leaves the other fields alone exactly when the value fits, because it is
  not masked (`RegisterField.OthersKeptIff`).
- The snapshot loops of the timecode boards ignore failed accesses, so two equal validation
  bytes do not always mean one update's values. `LtcSnapshot.TrustedIff` is the exact condition;
  a board that answers and makes fewer than 256 updates in an attempt meets it, one that never
  answers (`LtcSnapshot.SilentBoardPasses`) or makes 256 (`LtcSnapshot.CycleTears`) does not.

## Model

| member | source | states |
|---|---|---|
| `PageList.WalkIsQueue` | src/aja.c:1381-1439 | walking `next` from the first page visits exactly the queue, walking `prev` from the last visits it backwards, so the links determine the queue and it has at most 64 pages |
| `PageList.PopKeepsList` | src/aja.c:1412-1439 | a pop takes the head and leaves a well formed list of the rest |
| `PageList.PushAppends` | src/aja.c:1381-1400 | a push of a page that is not queued appends it |
| `PageList.RepushBreaksList` | src/aja.c:1381-1400 | after a push of a queued page the links stand for no sequence |
| `PageList.PushKeepsListIff` | src/aja.c:1381-1400 | the links remain a list if and only if the pushed page was not queued |
| `PageList.AllocKeepsListIff` | src/aja.c:1351-1369 | taking a page out of the pool leaves the links a list if and only if the page was not queued or was the only one queued, and then it is the same list |
| `PagePool.PageFifo.Clear` | src/aja.c:1322-1349 | every page is free, the queue empty and the level 0 |
| `PagePool.PageFifo.Alloc` | src/aja.c:1351-1369 | the lowest free page below the page count becomes used, exactly the assignments of an allocation are made, and the list stays valid if the page was not queued; without a free page the call fails and changes nothing |
| `PagePool.PageFifo.Free` | src/aja.c:1371-1379 | only the given page becomes free, and an invalid one is ignored |
| `PagePool.PageFifo.Push` | src/aja.c:1381-1410 | an invalid page is refused; otherwise exactly the pointer assignments of a push are made and the level goes up, and the list stays valid if the page was not queued |
| `PagePool.PageFifo.Pop` | src/aja.c:1412-1439 | the head is returned and removed; on an empty list the call fails and the level still goes down |
| `PagePool.FirstFree` | src/aja.c:1351-1369 | the search finds the lowest unused page, all pages before it being used |
| `CardModel.Card.StreamClear` | src/aja.c:1322-1349 | the stream is back to its initial state, pages, last pages and counters |
| `CardModel.Card.StreamInit` | src/aja.c:1468-1500 | clears, then stores flags, page count and channels cut to their limits |
| `CardModel.Card.StreamStart` | src/aja.c:1441-1448 | the stream runs, the trigger is spent and the generator counts |
| `CardModel.Card.StreamStop` | src/aja.c:1450-1466 | running, trigger and audio trigger are cleared and the generator stops |
| `CardModel.Card.IoctlSetSpeed` | src/aja.c:1602-1608 | the speed is stored, or the limit when the unsigned comparison says it is above it |
| `CardModel.Card.IoctlSetTrig` | src/aja.c:1614-1620 | a trigger is taken or refused with the source's conditions and result |
| `CardModel.Card.StreamSpeedCount` | src/aja.c:1864-1870 | takes the whole frames out of the accumulator and returns their number |
| `CardModel.Card.StreamDrop` | src/aja.c:1915-1923 | counts a drop with frame number and timecode, and nothing else changes |
| `CardModel.Card.FreeupChannel` | src/aja.c:1885-1896 | a shown page is freed, a captured one gets its late metadata and is queued, and the slot is emptied |
| `CardModel.Card.StreamFreeup` | src/aja.c:1873-1898 | both slots are released, channel 0 first |
| `CardModel.Card.StreamPlaybackFrame` | src/aja.c:1900-1913 | the next page goes to the channel's register, or the call fails on an empty queue or a page of the wrong channel, which is popped all the same |
| `CardModel.Card.SkipFrame` | src/aja.c:1947-1954 | pops one page for each channel, stopping at the first failure |
| `CardModel.Card.StreamBump` | src/aja.c:1942-1956 | skips whole frames, rechecking the level for each and recording a drop when it is short |
| `CardModel.Card.StreamLoad` | src/aja.c:1959-1968 | loads the channels in order and returns channel 0's page, or the first failure |
| `CardModel.Card.TakeMeta` | src/aja.c:1970-1980 | a valid timecode goes to the generator, the private word to the frame, and the page's metadata is zeroed |
| `CardModel.Card.StreamPlayFrames` | src/aja.c:1938-1968 | bump, then load unless the bump ended the frame |
| `CardModel.Card.StreamPlayback` | src/aja.c:1925-1981 | the whole playback of a frame, with every early return |
| `CardModel.Card.StreamCaptureFrame` | src/aja.c:1983-1990 | a free page goes to the channel's register, or the call fails |
| `CardModel.Card.StreamCaptureFrames` | src/aja.c:2012-2029 | captures the channels in order with fresh metadata, stopping at the first failure |
| `CardModel.Card.BumpTimecode` | src/aja.c:2005-2010 | the generator goes one back for no frame and forward for each frame beyond the first |
| `CardModel.Card.StreamCapture` | src/aja.c:1992-2032 | the whole capture of a frame: drop, or count, adjust and capture |
| `CardModel.Card.RunEngine` | src/aja.c:2066-2074 | audio trigger spent, then playback, then capture |
| `CardModel.Card.HandleFrame` | src/aja.c:2034-2113 | one vertical interrupt: count, trigger, release, and the engine only if it was running before the trigger; a second field leaves the stream alone |
| `PageFlow.FreeupKeepsQueuedInUse` | src/aja.c:1873-1898 | releasing the previous frame never leaves a free page in the queue |
| `StreamSpec.PlaybackPops` | src/aja.c:1925-1981 | whatever its outcome, playback only takes pages from the front of the queue and frees none |
| `WireRegisters.ChannelOutcome` | src/aja.c:1900-1990 | when a load or a capture of one channel fails and with which error, and that a failure puts nothing on the wire |
| `WireRegisters.FrameSetsRegisters` | src/aja.c:1900-2032 | after any frame, also a dropped or half failed one, each channel's output register holds the page shown on it and its input register the page captured on it, and every other register what it held |
| `WireRegisters.DroppedFrameIsIdle` | src/aja.c:1999-2002 | a capture frame that is dropped or does not run only releases old pages |
| `WireRegisters.IdleFrameKeepsRegisters` | src/aja.c:1900-2032 | a frame that puts nothing on the wire leaves every page register alone |
| `WireRegisters.RunKeepsWire` | src/aja.c:1322-2130 | in every reachable state the page registers hold the pages on the wire |
| `StreamControl.InitGivesWhatIsAsked` | src/aja.c:1468-1500 | a stream gets the channels and pages it asks for, cut to 1 or 2 channels and 64 pages; it does not run, has no trigger, no drops and normal speed |
| `StreamControl.PagesOfSetup` | src/aja.c:1351-1500 | after setup exactly the pages asked for can be allocated, each once and in order |
| `StreamControl.StartRefusedIff` | src/aja.c:1502-1525 | a start is refused exactly while the stream runs, and otherwise sets the speed back |
| `StreamControl.StopHalts` | src/aja.c:1450-1466 | after a stop, until a new start or trigger, no page goes onto the wire, nothing is dropped, the old trigger is forgotten and the generator stands, over any run |
| `StreamControl.GeneratorRunsAsSet` | src/aja.c:2047-2051 | the timecode generator goes on from what it is set to, one a frame, while it is switched on |
| `StreamControl.TriggerTakenIff` | src/aja.c:1614-1620 | a trigger is taken exactly when its frame is still to come, and changes nothing else |
| `StreamControl.NextFrameStarts` | src/aja.c:1614-2060 | so the very next frame can be asked for, and starts the stream |
| `StreamControl.AudioStartsOnce` | src/aja.c:2066-2071 | the audio trigger is spent in the first running frame and not before |
| `StreamControl.FrameDrops` | src/aja.c:1915-2002 | a frame drops at most once, and the drop records the number and the timecode of its frame |
| `Ownership.OwnedIsDisciplined` | src/aja.c:1873-1898 | where ownership is a partition the frame handler meets what it relies on |
| `Ownership.QueuedIsApart` | src/aja.c:1381-1439 | a queued page is in use and is nobody else's |
| `Ownership.FreeupKeeps` | src/aja.c:1873-1898 | releasing the previous frame keeps the partition and the level |
| `Ownership.PlaybackKeeps` | src/aja.c:1925-1981 | playback keeps the partition, whatever its outcome, counting the pages it skips |
| `Ownership.CaptureKeeps` | src/aja.c:1992-2032 | capture keeps the partition and the level, even when it fails half way |
| `Ownership.StepKeepsInv` | src/aja.c:1322-2130 | every user call and every interrupt keeps the ownership invariant |
| `Ownership.InitEstablishesInv` | src/aja.c:1468-1500 | initialising a stream establishes it from any state |
| `Ownership.RunKeepsInv` | src/aja.c:1322-2130 | in every reachable state each page in use has exactly one owner among users, queue, last pages and skipped pages, every other page is free, and the level is the queue length less the pops of an empty queue |
| `SkippedPages.PlaybackSkipsIff` | src/aja.c:1900-1969 | for any queue and level, a playback frame loses pages if and only if it passes the first level check, a frame is due, the queue is not empty, and it has to skip frames or meets a page of the wrong channel |
| `SkippedPages.LosesInTurnIff` | src/aja.c:1938-1956 | with channels in turn those are exactly the frames in which at least two frames are due |
| `SkippedPages.StepSkipsIff` | src/aja.c:1322-2130 | no other call or interrupt ever loses a page |
| `SkippedPages.RunSkipsIff` | src/aja.c:1322-2130 | over a run without a new initialisation pages are lost if and only if one of its frames loses some, and lost pages are only added to |
| `SkippedPages.LostIff` | src/aja.c:1322-2130 | in every reachable state the pages in use that are nobody's are exactly those popped without being shown |
| `SkippedPages.SkippedStaysLost` | src/aja.c:1942-1955 | a lost page stays lost for the rest of any run without a new initialisation |
| `SkippedPages.FastRunLosesPage` | src/aja.c:1942-1955 | from any state, if the limit admits twice the normal speed, a run of well behaved users that pushes two frames and plays at that speed loses a page in its first frame |
| `CaptureOrder.InitStartsOrder` | src/aja.c:1468-1500 | a fresh capture stream starts in order with nothing pending |
| `CaptureOrder.FrameAppends` | src/aja.c:2034-2073 | a frame adds its own channels' keys at the end and changes nothing before them |
| `CaptureOrder.StepKeepsOrder` | src/aja.c:1873-2073 | every step keeps queued and captured pages strictly increasing in (frame id, channel) |
| `CaptureOrder.StepLosesNothing` | src/aja.c:1412-1439 | what is queued before a step is handed out by it or still queued, unchanged and in order |
| `CaptureOrder.RunKeepsOrder` | src/aja.c:1873-2073 | so the queue is in order in every reachable state |
| `CaptureOrder.CaptureInOrder` | src/aja.c:1983-2073 | over any run the frames handed out and those still queued are strictly increasing in (frame id, channel), whatever is dropped or fails |
| `CaptureOrder.CaptureLosesNothing` | src/aja.c:1983-2073 | over any run every queued frame is handed out or still queued with its metadata unchanged |
| `CaptureContents.FrameQueues` | src/aja.c:1873-1898 | an interrupt queues exactly the frame captured before, completed with the timecodes and audio position it reads, and changes no other queued frame |
| `CaptureContents.FrameCaptures` | src/aja.c:1992-2113 | the slots of a captured frame hold its channels with the frame's number, times, private word, frame count and the generator's timecode, each page being in its channel's input register |
| `CaptureContents.CapturedFrameIsQueued` | src/aja.c:1873-2113 | a captured frame reaches the queue at the next interrupt, whatever users do meanwhile, one entry a channel, with the times and timecode of the interrupt that began it and the inputs of the one that ended it; each queued page is the one its input register held all the while |
| `CaptureSlack.UsedCount` | src/aja.c:1351-1369 | with nothing on the wire, the used pages number the held, queued and skipped ones |
| `CaptureSlack.AllocFailsIff` | src/aja.c:1351-1369 | allocation fails exactly when as many pages are in use as the stream has |
| `CaptureSlack.CaptureFramesSucceedIff` | src/aja.c:2012-2029 | the channels get their pages exactly when there is one free for each |
| `CaptureSlack.CaptureSucceedsIff` | src/aja.c:1992-2032 | a frame gets all its pages exactly when held, queued and skipped pages leave room |
| `CaptureSlack.HalfFailsIff` | src/aja.c:1999-2029 | in any reachable state, once the previous frame is released, and for any slack in the drop test: exactly when a frame that is not dropped runs out of pages |
| `CaptureSlack.SlackIsExact` | src/aja.c:1999-2002 | the `<=` of the drop test suffices when users hold at most one page; with `<` a frame would fail exactly when one is held at the boundary |
| `CaptureSlack.ReaderStarts` | src/aja.c:1468-1500 | a fresh capture stream is ready for the reader of the next theorem |
| `CaptureSlack.CaptureNeverHalfFails` | src/aja.c:1992-2032 | after any run with such a reader a running frame drops before touching a page or captures every channel |
| `RateControl.ClampInRangeIff` | src/aja.c:1602-1608 | every stored speed is within the limit if and only if the limit is a signed 32-bit value |
| `RateControl.ClampIs` | src/aja.c:1602-1608 | in range speeds are stored as they are, all others, negatives too, become the limit |
| `RateControl.AccumulatorFitsIff` | src/aja.c:1864-1870 | the accumulator never wraps if and only if the limit leaves room for a remainder |
| `RateControl.OneTick` | src/aja.c:1864-1870 | one count is exact division, its remainder stays below 1000000, and at most 3 frames at the default limit |
| `RateControl.AnyTick` | src/aja.c:1864-1870 | for any stored values, also negative or overflown, frames and remainder make up the sum, and the remainder has its sign and is less than a frame |
| `RateControl.SumWraps` | src/aja.c:1864-1870 | the accumulator is the sum as a signed 32-bit integer |
| `RateControl.NoDrift` | src/aja.c:1864-1870 | over any sequence of speeds the frames sum to the whole part of the total and the remainder is what is left |
| `RateControl.CaptureTick` | src/aja.c:1992-2051 | a running capture frame advances the generator by its frame count, or by one and a drop |
| `RateControl.TimecodeFollowsSpeed` | src/aja.c:1992-2051 | over any run the generator advances by the whole part of the accumulated speeds plus one per drop |
| `RateControl.TriggerFiresOnTime` | src/aja.c:1614-1620 | an accepted trigger starts the stream at exactly its frame, and once |
| `RateControl.TriggerFrameMovesNothing` | src/aja.c:2040-2066 | on the frame its trigger names the stream starts running, and the frame only releases old pages |
| `PlaybackFlow.BumpIs` | src/aja.c:1942-1956 | a bump never pops an empty queue, also after earlier underflows: it skips what was asked, or all full frames the level admits and drops |
| `PlaybackFlow.LoadIs` | src/aja.c:1959-1968 | with channels in turn a load puts the first pages on matching channels |
| `PlaybackFlow.LoadUnderflows` | src/aja.c:1959-1968 | with too few pages a load puts on the wire what there is, fails, and takes the level one too low |
| `PlaybackFlow.BumpAndLoadIs` | src/aja.c:1942-1968 | the level decides whether the skipping drops the frame, the true length whether the load underflows |
| `PlaybackFlow.PlaybackMoves` | src/aja.c:1925-1981 | the exact page movement, drop count and accumulator of a playback frame in each of its cases, whatever underflows happened before |
| `PlaybackFlow.UnderflowIff` | src/aja.c:1942-1968 | a frame pops an empty queue, and takes the level one further below the length, exactly when frames are due, the level admits them and what they skip, and the queue is shorter than what is due |
| `PlaybackRun.InitStartsTurns` | src/aja.c:1468-1500 | a fresh playback stream has its channels in turn |
| `PlaybackRun.FrameTurns` | src/aja.c:1925-2073 | any interrupt keeps the channels in turn: shown, dropped, skipped or underflown |
| `PlaybackRun.RunKeepsTurns` | src/aja.c:1900-2073 | over every run whose users push in turn the channels stay in turn, through drops, underflows, stops and new starts |
| `PlaybackRun.NoWrongChannel` | src/aja.c:1900-1913 | so no frame of such a run that loads ever meets a page of the wrong channel |
| `PlaybackRun.PlaybackStarts` | src/aja.c:1441-1525 | a stream initialised, filled in turn and started is ready for the run theorems |
| `PlaybackRun.PlaybackTick` | src/aja.c:1925-2073 | a frame that finds its pages takes exactly its demand, shows the last due frame on matching channels and keeps the alternation of channels |
| `PlaybackRun.TimecodeFollowsPage` | src/aja.c:1970-1980 | the generator and the frame time take over the shown page's timecode if it has one, the private word follows, and only that page's metadata is cleared |
| `PlaybackRun.RunKeepsPlayInv` | src/aja.c:1925-2073 | a run in which every frame finds its pages keeps them in turn and keeps running |
| `PlaybackRun.PlaybackConsumes` | src/aja.c:1864-1969 | over any such run the pages taken are chans times the whole part of the accumulated speeds, without drop |
| `PlaybackRun.ShownFrame` | src/aja.c:1864-1969 | after any such run the next frame shown is the one whose number in the pushed stream is the whole part of all speeds |
| `PlaybackContents.RunKeepsMetas` | src/aja.c:1900-1981 | over any run that finds its pages, the metadata queued is the rest of what was queued first and pushed since, untouched |
| `PlaybackContents.ShownAsPushed` | src/aja.c:1900-1981 | the frame shown after such a run gives the card the timecode and private word its page was pushed with, the page being the one whose number is the whole part of all speeds |
| `SgCompiler.CardSg` | src/aja.c:917-958 | the descriptor list in memory is the packed form of the compiled transfers, and nothing behind it is touched |
| `SgCompiler.AddToList` | src/aja.c:926-951 | one segment extends the last transfer or starts a new one |
| `SgCompiler.MergePreservesMoves` | src/aja.c:917-955 | with or without merging, the list moves exactly the segments' words, in order, onto consecutive card addresses |
| `SgCompiler.TransferCount` | src/aja.c:917-955 | there are at most as many descriptors as segments, and at least one |
| `SgCompiler.TransfersAreBounded` | src/aja.c:917-955 | a merged transfer exceeds the limit by less than one segment, so word counts never reach the flag bits |
| `SgCompiler.MergingIsMaximal` | src/aja.c:928-934 | merging leaves nothing to merge: where one transfer goes on where the other ends on the bus, the first is at least 0xF0000 bytes long |
| `SgCompiler.AllBytesMovedIff` | src/aja.c:917-955 | a list moves every byte of its segments exactly when each is a whole number of words |
| `SgCompiler.PackDecodes` | src/aja.c:288-303 | address halves, word count and both flags are recovered from a descriptor |
| `SgCompiler.FollowFrom` | src/aja.c:917-955 | following the next addresses visits every descriptor once, in order, and stops |
| `SgCompiler.ChainMovesSegments` | src/aja.c:917-955 | what the card does on following the chain is exactly the segments' word moves |
| `DmaMapping.MappedBytes` | src/aja.c:908-913 | joining adjacent segments keeps their bytes, and segments of whole words stay such |
| `DmaMapping.MappedKeepsWords` | src/aja.c:908-913 | it keeps the host words, their number, order and addresses |
| `DmaMapping.DirectIsOntoCard` | src/aja.c:908-955 | the moves depend on the segments' words only, not on how the mapping cut them |
| `DmaBuffer.MapSg` | src/aja.c:892-906 | the segment table is the tiling of the user's range and nothing of the size is left over |
| `DmaBuffer.TilesAreExact` | src/aja.c:892-906 | the segments are non-empty, each inside its page, contiguous in user address, and end where the range ends |
| `DmaBuffer.PageSegsBytes` | src/aja.c:892-906 | the segment lengths sum to the bytes covered, all of them at the end |
| `DmaBuffer.PageSegsMove` | src/aja.c:892-955 | the page segments move exactly the user's words, for every request of whole words |
| `DmaBuffer.PageSegsAlignedIff` | src/aja.c:892-906 | segments are whole words exactly when the size is, and the start too unless one page holds all |
| `DmaBuffer.UserBytesMovedIff` | src/aja.c:892-1005 | a request moves all its bytes however the mapping layer joins its pages if and only if its size is whole words and it starts on a word or lies in one page |
| `DmaBuffer.JoiningCanHelp` | src/aja.c:908-955 | joined into one, two neighbouring segments that are no whole words move all their bytes, though apart they do not |
| `DmaBuffer.ChainMovesBuffer` | src/aja.c:892-1005 | end to end, for every request of whole words, the card following the chain moves word j of the user's range to or from card address cardoff + 4j, for every j, however the mapping layer joined the pages |
| `DmaBuffer.DmaInit` | src/aja.c:960-1005 | each error condition in order with its code; otherwise the packed list of what the mapping layer makes of the request's pages |
| `P2Packet.OneByteChangeRejected` | src/p2slave_main.c:230-248 | a valid packet with any one byte changed, the length nibble kept, is refused |
| `P2Packet.HeaderChangeIff` | src/p2slave_main.c:190-248 | for every header, a change of it that announces no more bytes than were sent is detected in all valid packets if and only if it keeps the length nibble |
| `P2Packet.LengthChangeCanPass` | src/p2slave_main.c:190-248 | a packet that stays valid when its length nibble changes |
| `P2Packet.Bytes4RoundTrip` | src/p2slave_main.c:250-268 | four bytes, least significant first, give back the value |
| `P2Packet.ReplyIsValid` | src/p2slave_main.c:273-467 | every reply is 3 to 18 bytes, its length nibble matches its payload, and its checksum verifies |
| `P2Packet.QueryIsAnswered` | src/p2slave_main.c:301-377 | timecode and user-bit requests are answered with exactly the stored values |
| `P2Replies.ReplyCarries` | src/p2slave_main.c:293-450 | a request for a stored value, by its command and type byte, is answered with exactly that value |
| `P2Replies.ReplyTellsIff` | src/p2slave_main.c:273-450 | replacing one stored value by another changes the reply if and only if the packet is valid and asks for that value, and the reply then gives the new one |
| `P2Replies.ReplyIsNamed` | src/p2slave_main.c:293-450 | the code byte of every answer names the source and kind of what it carries |
| `P2Replies.OtherReplies` | src/p2slave_main.c:273-450 | the refusal, the timer mode and the acknowledgement, byte by byte, and when each is sent |
| `P2Replies.StatusIsSent` | src/p2slave_main.c:379-391 | a status request is answered with the bytes it names |
| `P2Replies.ForwardedIff` | src/p2slave_main.c:293-456 | programs get every packet as it is, except the commands the slave answers alone, and the edit commands, which carry the current timecode |
| `P2Packet.StatusInside` | src/p2slave_main.c:379-391 | a status request within the 16 bytes is answered with them |
| `P2Packet.StatusReplyIff` | src/p2slave_main.c:379-391 | a status reply is independent of other memory if and only if the range ends within the 16 bytes |
| `P2SlaveModel.Checksum` | src/p2slave_main.c:230-235 | the running sum is the low byte of the bytes' sum |
| `P2SlaveModel.ChecksumAdd` | src/p2slave_main.c:237-242 | the packet's last byte becomes its checksum, so that it verifies |
| `P2SlaveModel.ChecksumVerify` | src/p2slave_main.c:244-248 | says whether the packet's checksum is wrong |
| `P2SlaveModel.SetPktInt` | src/p2slave_main.c:250-256 | two bytes, then the value least significant byte first |
| `P2SlaveModel.SetPkt2Int` | src/p2slave_main.c:258-268 | two bytes, then both values |
| `P2SlaveModel.P2Slave.TcgenSense` | src/p2slave_main.c:301-316 | generator requests by type, the rest left to the default reply |
| `P2SlaveModel.P2Slave.TcSense` | src/p2slave_main.c:318-349 | current timecode requests by type |
| `P2SlaveModel.P2Slave.StatusSense` | src/p2slave_main.c:379-391 | the reply header and the requested bytes from the status on |
| `P2SlaveModel.P2Slave.Answer` | src/p2slave_main.c:290-456 | the reply body for every command, and whether the packet is forwarded |
| `P2SlaveModel.P2Slave.PushPkt` | src/p2slave_main.c:213-228 | a packet is queued only while the device is open |
| `P2SlaveModel.P2Slave.HandlePkt` | src/p2slave_main.c:273-467 | the output is the reply, and a bad checksum yields the fixed refusal with only the two counters changed, the ring and its slots untouched |
| `P2Ring.ReadsInOrder` | src/p2slave_main.c:213-555 | over all pushes and reads, delivery follows push order without repetition and an overrun loses a multiple of 128 |
| `P2Ring.LosslessIff` | src/p2slave_main.c:213-555 | everything is delivered if and only if at most 127 packets are outstanding at every read |
| `P2Ring.RunPushes` | src/p2slave_main.c:213-228 | over any run every pushed packet is added in order and none is taken out |
| `P2Ring.ReadDrains` | src/p2slave_main.c:532-555 | a read returns less than it has room for only when it empties the ring, so room for 127 packets always empties it |
| `P2Ring.PacketRing.Reset` | src/p2slave_main.c:507-511 | the ring is empty |
| `P2Ring.PacketRing.PushPkt` | src/p2slave_main.c:213-228 | the packet is the newest and nothing else of the log changes |
| `P2Ring.PacketRing.ReadPkts` | src/p2slave_main.c:532-555 | returns as many of the outstanding packets as fit, oldest first, with their bytes, or -EAGAIN |
| `SlaveUart.UartRxAfter` | src/aja.c:1768-1789 | a read continues with the rest of the FIFO after each data byte |
| `SlaveUart.StepKeepsInv` | src/aja.c:1768-1862 | after any interrupt the machine is idle, inside a packet of at most 18 bytes or inside a reply, and a receive has room for 14 bytes |
| `SlaveUart.ReceiveChunk` | src/aja.c:1830-1862 | a receive extends the packet, and the one that completes it has it answered once |
| `SlaveUart.TransmitRun` | src/aja.c:1813-1828 | a reply leaves completely and once, whatever the stalls |
| `SlaveUart.ExchangeOnce` | src/aja.c:1803-1862 | however a packet is cut into receives and the reply stalled, it is handled once with the same bytes and exactly the reply is written, ending in the reset state |
| `SlaveUart.StillAwaits` | src/aja.c:1830-1862 | however the beginning of a packet is cut up, the machine waits for the rest and answers and writes nothing |
| `SlaveUart.LongerWaits` | src/aja.c:1830-1862 | so a packet whose first byte is changed to announce more bytes is not answered as it stands |
| `SlaveUart.SurplusIgnored` | src/aja.c:1838-1854 | a receive takes up to 32 bytes, and what follows a complete packet in it is not looked at |
| `SlaveUart.LongReceive` | src/aja.c:1840-1841 | a longer fill of the FIFO is read up to the 32nd byte |
| `SlaveUart.TimeoutIff` | src/aja.c:2218-2230 | an exchange is given up at an audio wrap exactly when two have passed since its last bytes, and otherwise left alone |
| `SlaveUart.SilenceEnds` | src/aja.c:2218-2230 | over any run, three wraps since the last received byte end every exchange, and the machine is ready for a whole new packet |
| `SlaveUart.BadReceiveResets` | src/aja.c:1855-1860 | a receive with an error or without a byte gives the exchange up at once and has the receiver reset |
| `SlaveUart.ResponseIsReply` | src/p2slave_main.c:273-467 | the driver's replies are what the exchange needs |
| `SlavePortModel.SlavePort.SlavePktReset` | src/aja.c:1803-1807 | mode and counters are reset |
| `SlavePortModel.SlavePort.UartReceive` | src/aja.c:1768-1789 | the received bytes follow those already in the buffer, and errors end the read |
| `SlavePortModel.SlavePort.UartTransmit` | src/aja.c:1791-1801 | writes as many of the remaining bytes as there is room for |
| `SlavePortModel.SlavePort.SlavePktTx` | src/aja.c:1813-1828 | sends on, and resets when the reply is out |
| `SlavePortModel.SlavePort.StoreBytes` | src/aja.c:1838-1860 | bytes are stored and the first gives the size, or an error resets the exchange |
| `SlavePortModel.SlavePort.SlavePktRx` | src/aja.c:1830-1862 | the whole receive interrupt, keeping buffers, device and invariant; programs are told of the packet it handled, and of nothing else |
| `SlavePortModel.SlavePort.TxInterrupt` | src/aja.c:2242-2249 | the transmit interrupt keeps the invariant |
| `SlavePortModel.SlavePort.AudioWrapInterrupt` | src/aja.c:2218-2240 | an exchange without progress for more than two counts is given up and the receiver restarted |
| `RegisterField.FieldMask` | extras/registers.pl:141-144 | the mask is (2^(end-start+1) - 1) * 2^start |
| `RegisterField.FullMaskIff` | src/aja.c:474-477 | only the field of all 32 bits is written without a read |
| `RegisterField.FastPathAgrees` | src/aja.c:474-483 | for it the write without a read gives what the read-modify-write would |
| `RegisterField.GetAfterSet` | src/aja.c:480-495 | a field reads as the value written, cut to its width |
| `RegisterField.OthersKeptIff` | src/aja.c:480-482 | every other field keeps its value if and only if the value fits the field or its excess falls off the top |
| `RegisterField.SmallFits` | src/aja.c:480-482 | every value below 2 to the width fits |
| `RegisterField.CardRegisters.Set` | src/aja.c:462-485 | the write with its two range checks and the fast path |
| `RegisterField.CardRegisters.Get` | src/aja.c:487-496 | the field's value, 0 for registers that are not there |
| `RegisterField.OutOfReach` | src/aja.c:465-496 | which accesses are refused, which silently ignored, and that both change nothing |
| `RegisterField.WithinReach` | src/aja.c:465-496 | all other accesses reach the register |
| `RegisterField.ReadsLastWritten` | src/aja.c:462-496 | after any sequence of writes that spare it a field reads as last written |
| `LtcSnapshot.AcceptedIffCycles` | src/pcitc_main.c:481-488 | if its reads of the byte are answered, an attempt is accepted exactly when the updates made during it are a whole number of byte cycles |
| `LtcSnapshot.AcceptedIsOneSample` | src/pcitc_main.c:481-488 | with fewer than 256 updates it is accepted exactly when there was none, and then all it read is one update's |
| `LtcSnapshot.TrustedIff` | src/pcitc_main.c:481-488 | whatever the board holds, an accepted attempt has timecode and user bits of one update, if and only if the byte is read and shows that updates were made, or both values are answered between the same two updates |
| `LtcSnapshot.FairIsTrusted` | src/pcitc_main.c:481-488 | an answered attempt with fewer than 256 updates meets that condition |
| `LtcSnapshot.LoopIsTrusted` | src/pcitc_main.c:469-557 | a loop whose accepted attempt meets it returns one update's values, whatever else fails |
| `LtcSnapshot.LoopIsSnapshot` | src/pcitc_main.c:469-557 | if the attempts it makes are fair, a loop succeeds exactly when one of them saw no update, with timecode and user bits of one update made while it ran; otherwise it returns -EAGAIN |
| `LtcSnapshot.SilentBoardPasses` | src/pcitc_main.c:196-223 | a concrete input: a board that fails every access yields success with values that are no update's |
| `LtcSnapshot.CycleTears` | src/pcitc_main.c:481-488 | a concrete input: with 256 updates inside one attempt, values of different updates are returned as one |
| `LtcSnapshot.FpsIff` | src/pcitc_main.c:496-503 | the frame rate is 25, 24 or 30 by two bits of the rate register |
| `LtcSnapshot.Card.ReadTcGen` | src/pcitc_main.c:469-511 | the result of the first accepted attempt with the frame rate, or -EAGAIN, and exactly the accesses made |
| `LtcSnapshot.Card.Read` | src/pcitc_main.c:513-557 | the same for the input, -ENOTCONN without a signal |

## Left out

- Timecode values: `timecode.c` is not part of this model. A timecode is invalid or a frame count with increment and decrement; field-two flags, wire formats and the RP188 packing are not captured, and zeroed metadata counts as having no valid timecode.
- Interleaving inside the frame handler: each interrupt and each user call is one step. The driver's own locks cover single operations only, so a user call between the handler's operations is not captured.
- Streams that both play and capture, and users who push or free pages they do not hold, are outside the run theorems; a repeated push is covered by `PageList.PushKeepsListIff`.
- CardModel.Card.HandleFrame: requires that a page given to the interrupt handler is not touched by users meanwhile; `Ownership.OwnedIsDisciplined` shows that every run of well behaved users meets it.
- CardModel.Card.StreamCaptureFrame: requires, as its callers do, that queued pages are in use, which `Ownership.QueuedIsApart` shows of every run of well behaved users. For others `PageList.AllocKeepsListIff` says when the list survives.
- CardModel.Card.StreamCaptureFrames: the same.
- CardModel.Card.StreamCapture: the same.
- CardModel.Card.RunEngine: the same.
- CardModel.Card.FreeupChannel: requires that a page on the wire was not queued or freed by a user meanwhile, which `Ownership.OwnedIsDisciplined` shows of every run of well behaved users.
- CardModel.Card.StreamFreeup: the same.
- CardModel.Card.constructor: the card starts with a cleared stream; probing and removal are plumbing.
- Wrap-around of the 32-bit level and drop counters and of the 64-bit frame number is not modelled; the counters are unbounded integers.
- Audio start and stop registers, the `aplay` frame count, output timecode registers and waking of sleepers: straight-line device writes.
- SgCompiler.CardSg: requires segments of at most the largest length for which word counts stay below the flag bits, which the page and mapping sizes give; there the driver's bitwise or of flags is addition. The padding words of a descriptor are omitted.
- DmaBuffer.ChainMovesBuffer: the mapping layer is taken to give each page a bus address and to join adjacent segments at will, within the longest segment; pinning pages, unmapping, waiting for the transfer and the error paths that abandon pinned pages are not modelled.
- P2 setter calls and blocking reads, device registration and statistics output: plumbing. A card without a slave device, which only skips the call, is not modelled.
- P2SlaveModel.P2Slave.StatusSense: the memory after the 16 status bytes is a parameter, since the source does not bound the request.
- UART status bits are abstracted to what the FIFO holds: data, a parity error or an overrun.
- Registers are plain: write-one-to-clear, busy and interrupt registers are not modelled, nor a register past the mapped end when its address equals the length. Parsing of `registers.info` and the strings output are text processing.
- LtcSnapshot.Card.Read: the frame rate is read after the accepted attempt and may belong to a later update; a mailbox handshake, writing the timecode and the commands of the serial bridge are not modelled.
- Firmware upload, lookup tables, capability tables, benchmarks, `tcio.c`, file operations and interrupts of other sources: easy members or plumbing.
