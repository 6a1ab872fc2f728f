# TinyXVC: a verified model of the JTAG path

TinyXVC receives TMS and TDI bit vectors from a client and clocks them into a JTAG TAP. Between
the client and the TAP pins there are a stream parser, a splitter that follows the TAP state, a
driver that compiles the splitter's events to MPSSE commands of an FTDI chip, a command buffer
that flushes when its limits are reached, and deferred observers, kept in arena memory, that
scatter reply bits into the TDO vector. This project models these parts in Dafny and proves that
the byte stream means the same as clocking the original bits one by one, wherever the buffer
happens to flush and wherever the client cuts its vectors.

## What is modelled

- `Tap`: the controller of section 6.1 of IEEE Std 1149.1-2001 and a target behind it. The target
  is any deterministic device whose registers look at TDI in the shift states only; it is given by
  the TDO level it answers for each history of observations (`RegistersFollowHistory` says why
  this covers every register file). The standard's scans, told in TMS words, fix all 32 transitions
  (`OneController`).
- `Mpsse`: the chip as an interpreter of its byte stream, one byte at a time (FTDI
  application note AN_108). It decodes opcodes by their flag bits and literal values, MSB-first
  octets included, and does not know the names that the driver has for them (`Opcodes`). Three
  things are left open and the proofs hold for all of them: the device, the unused bits of a reply,
  and whether a TMS command leaves the TMS pin at the last clocked bit or at the bit after it. The
  chip keeps the levels of TMS and TDI at every clock, and its settings: the clock, and the levels
  and directions of all eight pins.
- `Octets`, `Encoding`: bit vectors, and what single commands mean for a shift under way.
- `Pending`, `FlushPoints`: the command buffer as a value. `Outcome` is what chip and TDO vector
  will be once everything pending has been carried out; queueing a command changes it as performing
  the command at once would, and flushing does not change it.
- `Mempool`, `FtBuffer`: the arena and the command buffer as objects. List nodes and observer
  extras are looked up by address in the arenas, and reclaiming an arena makes its objects
  unreachable, so that an observer that outlived its memory could not be run.
- `Splitting`, `JtagSplitter`: what a splitting is (the one tiling of the bits by maximal stretches
  inside and outside the shift states), and the splitter's loop with a callback that follows any
  script: it may refuse any event and leave the TAP in any state.
- `Meaning`, `PoolSpace`, `Driver`: the driver. `Driver.Driver.ShiftBits` says what one call does to
  the target, its TDO vector and the pins, and `Driver.ShiftFromActivation` what any run of calls does.
- `XvcProtocol`, `XvcServer`, `XvcBackend`, `EndToEnd`: the XVC server's dispatcher, over any driver
  or over the FTDI driver. `EndToEnd.ServeTarget` leads from the bytes of a client to the clocks of
  the target, to the clock setting of the chip and to the bytes sent back.
- `TckPeriod`, `Profile`, `LogTags`: the TCK divider, the in-place profile parser, and the log tags'
  cache.

Seven results say that the code does not do what one would expect, and when exactly:

- The driver offers vectors of `8 * chipBufferBytes` bits (8192 or 32768), but its arena of 64 KiB
  holds the bit copier extras of every call only up to 6240 bits. Over a reliable link
  `Driver.Driver.ShiftBits` gives up if and only if the extras of the call do not fit
  (`Driver.EventsFitIffShort` says for which lengths this can happen), and `Driver.GivesUp` is a run
  from activation that ends so, for every length above 6240.
- The splitter's loop computes `bitIdx + 8` as an `int`. The sum is in range for every octet if and
  only if the length is at most 2147483640 (`JtagSplitter.OctetEndsFit`); the lengths 2147483641 to
  2147483647, which the server passes on, overflow. `Process` and what builds on it require at most
  2147483640 bits.
- A log tag's remembered answer goes stale after a positive multiple of 2^32 configurations since
  the tag was resolved, and only then (`LogTags.WrappedIsStale`). `LogTags.GivenIsExpected` has the
  condition on a whole run, and `LogTags.StaleRun` is a run that ends with a wrong answer.
- After a recovery reset that was refused, the saved state is the TAP's, in whatever state the refusal
  has left the TAP, if and only if the calls since then lead all sixteen states to the saved one
  (`JtagSplitter.AgreementExact`). One successful call is enough if and only if its own TMS bits do so
  (`JtagSplitter.OneCallSettles`), as five TMS-high bits in a row do (`JtagSplitter.FiveHighsSettle`).
  `JtagSplitter.LostRun` is a run from init whose latest call succeeds and leaves the state wrong.
- A flush that fails keeps its observers queued, but the driver reclaims its own arena all the same.
  The queued observers still find what they need if and only if no bit copier is among them
  (`FtBuffer.ExtrasGone`, `Driver.Driver.JtagSplitterCallback`), and after every shift event there is
  one. `Driver.LosesObservers` is a run from activation that loses them.
- The server hands on a TCK period of 0, and the driver stops the program on it, and on no other
  period that is not negative and whose product fits an `int` (`Driver.Driver.SetTckPeriod`).
- The server also hands on periods whose product with the frequency overflows an `int`: exactly those
  above 71582788 ns, or above 357913941 ns without high speed (`TckPeriod.LongPeriodsOverflow`).

Steps of the driver end in `Done`, `Refused` (a transfer has failed; never with a reliable link) or
`GaveUp` (the program stops). What they achieve is stated for `Done`, and when they give up exactly.
Vectors that the code only reads are sequences; vectors it writes are arrays. `numBits` is a natural
number: the code treats negative lengths like zero.

## Model

| member | source | states |
|---|---|---|
| Tap.ClockConcat | libtxvc/jtag_splitter.c:115-174 | clocking two trains of pulses one after the other is clocking them at once |
| Tap.ClockCounts | libtxvc/jtag_splitter.c:119-167 | every pulse is exactly one clock for the device |
| Tap.TdiMattersOnlyInShift | libtxvc/jtag_splitter.c:125-131 | no device can tell apart trains that agree on TMS, and on TDI in the shift states |
| Tap.HighsReset | libtxvc/jtag_splitter.c:66-76 | how far clocks with TMS high lead towards Test-Logic-Reset; five reach it from every state |
| Tap.RegistersFollowHistory | libtxvc/jtag_splitter.c:44-64 | a register file clocked directly agrees in state, registers and TDO with the device that replays its history |
| Tap.OneController | libtxvc/jtag_splitter.c:44-64 | a step function scans both columns as the standard has it, in TMS words with any number of clocks in the shift and pause states, if and only if it agrees with this one on all 32 transitions |
| Tap.NextStateIsController | libtxvc/jtag_splitter.c:44-64 | the code's step function does |
| Octets.BitOfSetBit | libdrivers/ftdi_generic.c:215-223 | setting a bit changes that bit and no other |
| Octets.WriteBit | libdrivers/ftdi_generic.c:219-223 | set_bit() in place |
| Octets.CopiedBitsEffect | libdrivers/ftdi_generic.c:225-233 | copying bits writes the destination range, bit for bit, and nothing else |
| Octets.CopyBits | libdrivers/ftdi_generic.c:225-233 | copy_bits() in place, with the last bit duplicated on request |
| Octets.CopiedOctetsEffect | libdrivers/ftdi_generic.c:363-366 | copying octets is copying their bits |
| Octets.CopyOctets | libdrivers/ftdi_generic.c:363-366 | the octet copy in place |
| Mpsse.RunConcat | libdrivers/ftdi_generic.c:487-494 | the command stream may be cut anywhere, even between a header and its payload |
| Mpsse.RunBitCommand | libdrivers/ftdi_generic.c:457-462 | a three-byte bit command runs as one command of its opcode, length and data, and only opcodes with the right flag bits do |
| Mpsse.RunBits | libdrivers/ftdi_generic.c:456-462 | the opcode for TDI bits clocks them out lowest first with TMS as it is, leaves TDI at the last one, and is answered |
| Mpsse.RunTms | libdrivers/ftdi_generic.c:404-422 | the opcodes for TMS bits clock them out lowest first with TDI at the level of bit 7, one of them answered and the other not |
| Opcodes.OpcodeFlags | libdrivers/ftdi_generic.c:166-180 | which flag bits each opcode of the driver has: falling edge, bits or octets, LSB first, TDI, TDO, TMS |
| Mpsse.RunOctetHeader | libdrivers/ftdi_generic.c:481-486 | an octet header announces its length, low byte first, and clocks nothing |
| Mpsse.RunSetPins | libdrivers/ftdi_generic.c:661-683 | the pin command sets the levels of TMS and TDI and the settings of all eight pins, clocks nothing and answers nothing |
| Mpsse.RunSetDivisor | libdrivers/ftdi_generic.c:747-753 | the divisor command, low byte first, and full speed change the TCK setting and nothing else |
| Mpsse.RunBadOpcode | libdrivers/ftdi_generic.c:388-396 | a bad opcode is answered by a complaint that names it, and nothing else happens |
| Mpsse.RunPayload | libdrivers/ftdi_generic.c:487-494 | payload octets clock their bits in order, lowest first, with these levels at the pins, and answer octet by octet with the TDO levels |
| Encoding.ReplyReceived | libdrivers/ftdi_generic.c:463-468 | copying the top n bits of a reply puts the n TDO levels, and nothing else, where they belong |
| Encoding.BitsShift | libdrivers/ftdi_generic.c:456-474 | a data command of up to seven bits clocks them with TMS low, at the pins and at the TAP, and captures their TDO levels |
| Encoding.OctetsShift | libdrivers/ftdi_generic.c:475-496 | header and payload, sent apart, clock whole octets and capture their TDO levels |
| Encoding.ShiftExtends | libdrivers/ftdi_generic.c:455-516 | stretches of a shift add up |
| Encoding.LastBitShift | libdrivers/ftdi_generic.c:518-540 | the last bit's TMS command completes the event: its clocks, its TDO bits, and both pins at their last levels |
| Encoding.TmsDataBit | libdrivers/ftdi_generic.c:411-417 | the data byte of a TMS command: the bits, the last one once more, and the level of TDI |
| Encoding.TmsShift | libdrivers/ftdi_generic.c:404-422 | a TMS command clocks its bits, keeps TDI at every clock, leaves TMS at the last level on either kind of chip, and answers nothing |
| Pending.ObserveAllStable | libdrivers/ftdi_generic.c:281-283 | later replies do not disturb the observers of earlier ones |
| Pending.FlushInvisible | libdrivers/ftdi_generic.c:255-290 | a flush changes neither the outcome nor the match between expected and produced reply bytes |
| Pending.AppendPerforms | libdrivers/ftdi_generic.c:297-327 | queueing a command is for the outcome the same as performing it at once |
| FlushPoints.RunIsImmediate | libdrivers/ftdi_generic.c:255-344 | after any run of commands and flushes the outcome is that of sending each command at once and copying its reply immediately |
| FlushPoints.FlushPointsInvisible | libdrivers/ftdi_generic.c:329-337 | runs of the same commands with different flush points end with the same chip and TDO vector |
| Mempool.MaskTest | libtxvc/mempool.c:57-58 | the allocator's test accepts exactly the powers of two |
| Mempool.MaskIsRemainder | libtxvc/mempool.c:57-59 | masking with a power of two less one is the remainder |
| Mempool.AlignUpLeast | libtxvc/mempool.c:59-60 | the adjusted head is the least aligned address not below the head |
| Mempool.Mempool.constructor | libtxvc/mempool.c:19-29 | an empty arena |
| Mempool.Mempool.AllocUnaligned | libtxvc/mempool.c:38-51 | a block at the head if it fits, null otherwise; live blocks stay in range and disjoint |
| Mempool.Mempool.AllocAligned | libtxvc/mempool.c:53-70 | a block at the least aligned address if it fits, null otherwise; live blocks stay in range and disjoint |
| Mempool.Mempool.AllocObject | libtxvc/include/txvc/mempool.h:28-29 | a new object at an aligned address that holds no live object, or null if and only if it does not fit |
| Mempool.Mempool.ReclaimAll | libtxvc/mempool.c:72-74 | all blocks and objects are gone and the head is back at the start |
| FtBuffer.FtChip.Write | libdrivers/ftdi_generic.c:257-266 | a full write runs the bytes on the chip; other writes promise nothing |
| FtBuffer.FtChip.Read | libdrivers/ftdi_generic.c:271-280 | a read takes reply bytes from the front |
| FtBuffer.ListOutlivesRecord | libdrivers/ftdi_generic.c:375-385 | queued observers survive allocations in the buffer's arena |
| FtBuffer.ListOutlivesBits | libdrivers/ftdi_generic.c:463-468 | queued observers survive allocations in the driver's arena |
| FtBuffer.ExtrasGone | libdrivers/ftdi_generic.c:563-567 | without the driver's arena the queued observers find what they need if and only if none of them is a bit copier |
| FtBuffer.ListGrows | libdrivers/ftdi_generic.c:310-323 | linking a node behind the last one appends its observer to the list |
| FtBuffer.FtBuffer.ValidForAny | libdrivers/ftdi_generic.c:388-396 | without observers the buffer may be given another destination for replies |
| FtBuffer.FtBuffer.constructor | libdrivers/ftdi_generic.c:235-253 | an empty buffer whose limits are one chip buffer of replies and three times as many command bytes |
| FtBuffer.FtBuffer.RunObserver | libdrivers/ftdi_generic.c:353-366 | an observer function does what its extra says on its slice of the replies |
| FtBuffer.FtBuffer.RunObservers | libdrivers/ftdi_generic.c:281-283 | walking the list runs all observers in the order queued, each on live memory |
| FtBuffer.FtBuffer.WriteCommands | libdrivers/ftdi_generic.c:256-269 | pending bytes are run on the chip |
| FtBuffer.FtBuffer.ReadReplies | libdrivers/ftdi_generic.c:270-287 | the expected replies are read, observed, and forgotten |
| FtBuffer.FtBuffer.Flush | libdrivers/ftdi_generic.c:255-290 | everything pending is carried out, the arena is empty, and the outcome is what it was |
| FtBuffer.FtBuffer.EnsureCanAppend | libdrivers/ftdi_generic.c:329-337 | afterwards there is room within both limits, the outcome is what it was, and there is a flush if and only if there was no room |
| FtBuffer.FtBuffer.StoreCommand | libdrivers/ftdi_generic.c:299-305 | bytes are appended to the transmit buffer, which is allocated when needed and fits |
| FtBuffer.FtBuffer.StoreObserver | libdrivers/ftdi_generic.c:306-325 | an observer is queued for the next reply bytes |
| FtBuffer.FtBuffer.LinkNode | libdrivers/ftdi_generic.c:310-323 | a node is allocated, fits, and is linked last |
| FtBuffer.FtBuffer.Append | libdrivers/ftdi_generic.c:297-327 | the outcome changes as performing the command at once would change it, and what is pending grows by exactly the command |
| FtBuffer.FtBuffer.AddWithReadback | libdrivers/ftdi_generic.c:339-344 | the same, behind a flush if and only if there was no room |
| FtBuffer.FtBuffer.Add | libdrivers/ftdi_generic.c:368-371 | the same for a command without reply |
| FtBuffer.FtBuffer.AddWithReadbackSimple | libdrivers/ftdi_generic.c:373-386 | the same for octets, whose extra is allocated after the flush so that it lives as long as its node |
| FtBuffer.FtBuffer.PoolSuffices | libdrivers/ftdi_generic.c:235-253 | in every valid state the command arena's use is bounded by both buffers and nine bytes per queued byte, and the next allocations fit |
| Splitting.TilesUnique | libtxvc/jtag_splitter.c:119-167 | vectors have one tiling by maximal stretches |
| Splitting.TilesMeet | libtxvc/jtag_splitter.c:127-132 | neighbouring events are of different kinds and meet without gap |
| Splitting.ShiftLevels | libtxvc/include/txvc/jtag_splitter.h:52-59 | TMS is low on all bits of a TDI event but the last, which is the opposite of `incomplete` |
| Splitting.EventMeansBits | libtxvc/jtag_splitter.c:133-160 | no device can tell an event's pulses from those of the vectors |
| Splitting.StateAtWalks | libtxvc/jtag_splitter.c:44-64 | the state at a bit is where the TMS levels lead, read as a word |
| Splitting.ScanIsSplit | libtxvc/jtag_splitter.c:119-167 | for both columns, a scan of k bits from Run-Test/Idle, written as its TMS word, splits into the way there, a shift of exactly the k bits, and the way back |
| JtagSplitter.ResetResets | libtxvc/jtag_splitter.c:66-76 | the reset event leads from every state to Test-Logic-Reset |
| JtagSplitter.TilesMove | libtxvc/jtag_splitter.c:119-167 | a tiling's events lead the TAP where the TMS bits do, from every state and not only from the one it was made for |
| JtagSplitter.OctetEndsFit | libtxvc/jtag_splitter.c:121 | the loop's sums stay within the range of an int if and only if there are at most 2147483640 bits |
| JtagSplitter.JtagSplitter.TapReset | libtxvc/jtag_splitter.c:66-76 | the reset event is handed over, and the flush if and only if it is accepted; when both are, the TAP is in Test-Logic-Reset |
| JtagSplitter.JtagSplitter.Init | libtxvc/jtag_splitter.c:92-102 | after success the callback is stored and the saved state is the TAP's, from any state of the TAP; after failure nothing is stored |
| JtagSplitter.JtagSplitter.Deinit | libtxvc/jtag_splitter.c:104-113 | after success the TAP is reset and the callback is gone; after failure nothing has changed |
| JtagSplitter.JtagSplitter.Split | libtxvc/jtag_splitter.c:115-174 | the loop hands over the tiling of the vectors and one flush, and saves the state reached, or stops at the first event refused |
| JtagSplitter.JtagSplitter.Process | libtxvc/jtag_splitter.c:115-181 | the same; after success the states agree if and only if the TMS bits lead both old states to one; after a refused event a reset is handed over and nothing else, and its answer decides where the TAP is |
| JtagSplitter.PlayCall | libtxvc/jtag_splitter.c:115-181 | where a call leaves the TAP: where its TMS bits lead, reset, or where the refusal of the reset has left it |
| JtagSplitter.Session | libtxvc/jtag_splitter.c:92-181 | over any run of calls the log shows how each has ended, and saved state and TAP follow from the vectors, the endings and the latest refusal |
| JtagSplitter.RunReaches | libtxvc/jtag_splitter.c:92-181 | replaying the answers of a run leads the TAP where vectors and endings say |
| JtagSplitter.AgreementExact | libtxvc/jtag_splitter.c:173-180 | the saved state is the TAP's for all ways the callback may leave the TAP if and only if the calls since the latest refused reset bring all states in step |
| JtagSplitter.OneCallSettles | libtxvc/jtag_splitter.c:173-180 | after a refused reset one successful call is enough if and only if its TMS bits lead all states to one |
| JtagSplitter.FiveHighsSettle | libtxvc/jtag_splitter.c:66-76 | five TMS-high bits in a row, anywhere in a call, are enough |
| JtagSplitter.StepsStay | libtxvc/jtag_splitter.c:173-180 | a run in step stays so over successful calls, and is so after a recovered failure |
| JtagSplitter.LostRun | libtxvc/jtag_splitter.c:145-180 | a run from init in which a success after a refused reset ends with a wrong saved state |
| JtagSplitter.EventEmitted | libtxvc/jtag_splitter.c:129-160 | an event emitted at a bit is a maximal stretch and extends the tiling |
| JtagSplitter.NextBit | libtxvc/jtag_splitter.c:120-123 | shifting the TMS octet right yields the vector's bits in order |
| JtagSplitter.TilesExist | libtxvc/jtag_splitter.c:119-167 | all vectors have a tiling |
| Meaning.EventClocksBits | libdrivers/ftdi_generic.c:545-559 | carrying out the next event of a tiling extends the bits clocked and captured, and keeps TMS low in the shift states |
| Meaning.EventWires | libdrivers/ftdi_generic.c:404-422 | the pins' levels over a stretch are the event's pulses with TDI held at the last shifted bit |
| Meaning.EventWired | libdrivers/ftdi_generic.c:545-559 | carrying out the next event extends the levels at the pins, clock by clock |
| Meaning.WiresJoin | libtxvc/jtag_splitter.c:115-174 | cutting vectors in two calls cannot be seen at the pins |
| Meaning.ChunksJoin | libtxvc/jtag_splitter.c:115-174 | two calls on the parts of vectors clock and capture what one call on the whole would |
| Meaning.RangesPartition | libdrivers/ftdi_generic.c:432-453 | leading, inner, trailing and last bits partition a shift, and the inner range consists of whole octets |
| PoolSpace.ExtrasBound | libdrivers/ftdi_generic.c:446-453 | a shift of k bits takes between one and min(k, 3) bit copier extras |
| PoolSpace.ExtrasOfTiles | libdrivers/ftdi_generic.c:463-464 | a call takes at most about 7/16 of an extra per bit, with exact allowances by octet position |
| PoolSpace.ShortVectorsFit | libdrivers/ftdi_generic.c:657 | at most (n + 3) / 2 extras, and up to 6240 bits they fit in the arena |
| PoolSpace.LongVectorsMayNotFit | libdrivers/ftdi_generic.c:657 | for every greater length the extras of a certain vector exceed the arena |
| Driver.Driver.BuildTmsData | libdrivers/ftdi_generic.c:411-417 | the data byte of a TMS command is put together in place |
| Driver.Driver.AppendTmsShift | libdrivers/ftdi_generic.c:398-424 | a TMS event's bits are clocked with TDI kept at the last shifted level |
| Driver.Driver.NewBitExtra | libdrivers/ftdi_generic.c:463-468 | an extra is allocated without disturbing what is pending, or null if and only if the arena is full |
| Driver.Driver.SendBitCommand | libdrivers/ftdi_generic.c:463-472 | a bit command and the copying of its reply bits are queued; without room for the extra the program gives up |
| Driver.Driver.SendBits | libdrivers/ftdi_generic.c:456-474 | leading or trailing bits are shifted |
| Driver.Driver.SendOctets | libdrivers/ftdi_generic.c:480-495 | whole octets are shifted, header and payload queued apart |
| Driver.Driver.SendInnerAndTrailing | libdrivers/ftdi_generic.c:475-516 | a chunk of inner octets, and the trailing bits after the last chunk |
| Driver.Driver.SendLastBit | libdrivers/ftdi_generic.c:518-540 | the last bit is clocked, captured, and remembered as the level of TDI |
| Driver.Driver.AppendTdiShift | libdrivers/ftdi_generic.c:426-543 | a TDI event is carried out: its clocks, its TDO bits and no others, its pins, its use of both arenas; it gives up only if its extras do not fit |
| Driver.Driver.JtagSplitterCallback | libdrivers/ftdi_generic.c:545-569 | each kind of event is carried out; a shift leaves a bit copier queued; a flush leaves nothing pending, and after a failed one the queued observers are live if and only if no bit copier is among them |
| Driver.Driver.HandleEvents | libdrivers/ftdi_generic.c:545-569 | the events of a tiling and the flush clock the vectors' bits, capture the TDO bits of the shift states, keep TDI at the last shifted bit elsewhere and the chip's settings as they are, or the program gives up because the extras of the tiling do not fit |
| Driver.Driver.CheckDeviceInSync | libdrivers/ftdi_generic.c:388-396 | everything pending is carried out, and a chip that awaits a command is found in sync |
| Driver.Driver.ConfigureChip | libdrivers/ftdi_generic.c:683-687 | a command without reply takes effect on the chip before this is found in sync, whatever the TDO vector |
| Driver.PinSetup | libdrivers/ftdi_generic.c:661-682 | levels and directions of the JTAG pins are fixed, and the other four pins are as chosen |
| Driver.IsComplaint | libdrivers/ftdi_generic.c:388-396 | only the chip's complaint about the very opcode counts as being in sync |
| Driver.Driver.SetUpChip | libdrivers/ftdi_generic.c:660-687 | afterwards TMS is high and TDI low, as the driver remembers, all eight pins are set at the chip as chosen, and nothing has been clocked |
| Driver.Driver.SetTckPeriod | libdrivers/ftdi_generic.c:722-759 | the chip's TCK gets the period that is reported, or -1 is; the program stops on the period 0 and on no other; the TAP and all vectors stay as they are |
| Driver.Driver.Init | libdrivers/ftdi_generic.c:688-691 | the driver is idle and the TAP has been reset by exactly five clocks |
| Driver.Driver.ShiftBits | libdrivers/ftdi_generic.c:761-765 | a call clocks the target as the vectors say, captures TDO for exactly the bits clocked in shift states, changes no other TDO bit, and leaves the driver idle; at every clock TMS is as the vector says and TDI is the bit shifted last; over a reliable link it gives up if and only if its extras do not fit |
| Driver.EventsFitIffShort | libdrivers/ftdi_generic.c:657 | all calls of a length fit in the arena if and only if the length is at most 6240 |
| Driver.OfferedVectorsMayNotFit | libdrivers/ftdi_generic.c:717-720 | for both chips some vectors of the length offered do not fit |
| Driver.GivesUp | libdrivers/ftdi_generic.c:463-464 | for every length above 6240 a run from activation on a reliable link ends in giving up |
| Driver.ShiftInTwoCalls | libdrivers/ftdi_generic.c:761-765 | cutting vectors anywhere into two calls gives the clocks, the pin levels, the TAP and the TDO bits of one call, with one TDO vector or two |
| Driver.FlushUnplugged | libdrivers/ftdi_generic.c:561-566 | after any shift event a failing flush leaves observers without their extras |
| Driver.LosesObservers | libdrivers/ftdi_generic.c:561-566 | a run from activation that loses observers: one bit shifted, and the cable pulled out before the flush |
| Driver.CallOfRun | libdrivers/ftdi_generic.c:761-765 | what one call does, told in terms of all calls before it |
| Driver.ShiftMany | libdrivers/ftdi_generic.c:761-765 | any run of calls clocks the bits of all calls one after the other, with the pin levels carried from call to call, every call stores its TDO levels, and over a reliable link the run gives up if and only if a call does not fit |
| Driver.Activate | libdrivers/ftdi_generic.c:657-691 | from any chip that awaits a command, activation reaches an idle driver by five clocks, with the chip's pins as chosen and its clock as before |
| Driver.ShiftFromActivation | libdrivers/ftdi_generic.c:657-691 | activation and any run of calls clock five times with TMS high and then the bits of all calls, and these are the levels at the pins |
| Driver.LeadingData | libdrivers/ftdi_generic.c:457-462 | the shifted first octet starts with the leading bits |
| Driver.OctetsFit | libdrivers/ftdi_generic.c:476-480 | the chunk size keeps octet alignment, makes progress, and is the whole chip buffer unless it is the last |
| TckPeriod.DividerIsLeast | libdrivers/ftdi_generic.c:730-739 | the divider is the least one that is slow enough, or the largest if none is |
| TckPeriod.ReportedNotShorter | libdrivers/ftdi_generic.c:740 | the reported period is not shorter than the one asked for if and only if some divider is slow enough |
| TckPeriod.ReportedMonotone | libdrivers/ftdi_generic.c:730-740 | the reported period is monotone in the one asked for |
| TckPeriod.DividerFromPeriod | libdrivers/ftdi_generic.c:733-740 | a divider is chosen again for the period it is reported with |
| TckPeriod.EveryDividerIsUsed | libdrivers/ftdi_generic.c:733-739 | the dividers chosen are exactly the numbers of two bytes |
| TckPeriod.ReportedIsFixedPoint | txvc/driver_wrapper.c:49-53 | asking for a reported period reports it again; the periods reported as asked are exactly those of the dividers |
| TckPeriod.PeriodIsReported | libdrivers/ftdi_generic.c:740-752 | a chip with the chosen divider has the period that is reported |
| TckPeriod.ChipPeriodIsOfClock | libdrivers/ftdi_generic.c:726-740 | the period of a setting is, rounded down, that of 60 MHz or 12 MHz divided by twice the divider plus one |
| TckPeriod.LongPeriodsOverflow | libdrivers/ftdi_generic.c:733 | the product stays within the range of an int if and only if the period is at most 71582788 ns, or 357913941 ns without high speed |
| TckPeriod.DivisorCommand | libdrivers/ftdi_generic.c:722-752 | the command bytes carry the chosen divider, nothing overflows a C int, and there is no command exactly for the period 0 |
| XvcProtocol.Le32RoundTrip | libtxvc/server.c:98-104 | little-endian integers are read back |
| XvcProtocol.Le32Unique | libtxvc/server.c:98-104 | a non-negative integer has one encoding |
| XvcProtocol.IntsAreLittleEndian | libtxvc/server.c:98-104 | the integers read are little-endian in two's complement, and those written little-endian |
| XvcProtocol.Words | libtxvc/server.c:195-205 | the words of the protocol, spelled out |
| XvcProtocol.DecimalIsRead | libtxvc/server.c:112-113 | the digits of a number, read from the left, denote it, and do not start with a zero |
| XvcProtocol.InfoIsRead | libtxvc/server.c:106-116 | a client that reads the first line of the answer to `getinfo:` gets the number the driver has given, whatever comes next |
| XvcProtocol.PeriodIsRead | libtxvc/server.c:118-136 | a client reads the period the driver has given from the four bytes of the answer |
| XvcProtocol.NextIsEncoded | libtxvc/server.c:106-161 | what parsing takes off a stream is one well-formed encoded command, no more and no less |
| XvcProtocol.EncodedIsNext | libtxvc/server.c:106-161 | an encoded command is parsed back whatever follows it |
| XvcProtocol.ShiftIsRead | libtxvc/server.c:138-152 | a shift is parsed from its word, its length, the TMS bits and the TDI bits, in this order |
| XvcProtocol.PeriodIsAskedFor | libtxvc/server.c:106-123 | a period is parsed from its word and four bytes, and `getinfo:` from its word alone |
| XvcProtocol.TakenAreFirst | libtxvc/server.c:176-213 | commands taken off a stream are the first ones sent, and the rest encodes the others |
| XvcServer.Connection.AllocateVectors | libtxvc/server.c:44-55 | three separate vectors of the size asked for |
| XvcServer.Connection.ReceiveInto | libtxvc/server.c:87-96 | octets are taken off the input into the front of a vector, all or none claimed |
| XvcServer.Connection.ReceiveInt | libtxvc/server.c:98-104 | an integer is taken off the input, -1 if it is incomplete |
| XvcServer.Connection.CmdGetInfo | libtxvc/server.c:106-116 | the greatest vector length is asked for and sent as a line that a client reads back (`XvcProtocol.InfoIsRead`) |
| XvcServer.Connection.CmdSetTck | libtxvc/server.c:118-136 | the period is taken off, handed on and answered; negative or missing ones are refused |
| XvcServer.Connection.ReceiveVectors | libtxvc/server.c:145-151 | both vectors are taken off in order, into vectors made longer if they are too short, and the vectors stay separate |
| XvcServer.Connection.CmdShift | libtxvc/server.c:138-161 | length and both vectors are taken off and handed on, the TDO vector is sent; bad or missing ones are refused |
| XvcServer.Connection.Handle | libtxvc/server.c:195-205 | the handler behind a prefix deals with the first command of the stream and takes no byte more |
| XvcProtocol.LooksServe | libtxvc/server.c:176-213 | on a stream of encoded commands every look serves the next command or changes nothing, and it serves one if it finds eight bytes |
| XvcServer.Connection.Round | libtxvc/server.c:176-213 | there is one look at the socket, and what it finds decides: the first command is handled, or the round ends without effect, as closed, failed, not recognized, or to wait for more |
| XvcServer.Connection.RunConnection | libtxvc/server.c:163-214 | however the stream arrives, the driver is called for exactly the commands that the looks show, in order, all are answered, and nothing beyond them is taken |
| XvcProtocol.NextAfterPrefix | libtxvc/server.c:190-207 | no prefix is mistaken for another |
| XvcProtocol.GivenUpExactly | libtxvc/server.c:190-213 | a stream is given up as not recognized if and only if at least eight bytes are there that cannot become the start of any command |
| XvcServer.ServeWellFormed | libtxvc/server.c:163-214 | a well-formed stream is never refused, the commands handled are the first of those sent, and at least one is handled for every look that finds eight bytes |
| XvcBackend.OneCommandMore | libtxvc/server.c:138-161 | one more command clocks the target with its bits if it is a shift, and not at all otherwise |
| XvcBackend.OneAnswerOfTarget | libtxvc/server.c:153-160 | the answers stay right when one more is: eight bits for every byte of the chip's buffer, the period of the divider chosen, or the target's own TDO levels |
| XvcBackend.ClockOneMore | libdrivers/ftdi_generic.c:722-759 | the chip's clock has the period answered last, and only a command for the period changes it |
| XvcBackend.XvcDriver.Attach | libdrivers/ftdi_generic.c:792-796 | an idle driver can be called by the server |
| XvcBackend.XvcDriver.MaxVectorBits | libdrivers/ftdi_generic.c:717-720 | the call is recorded with its answer, eight times the chip's buffer, and leaves target and settings alone |
| XvcBackend.XvcDriver.SetTckPeriod | libdrivers/ftdi_generic.c:722-759 | the call is recorded with its answer, the reported period, which the chip's clock then has; the target is left alone, and it fails only on a bad link or for a period the driver cannot take |
| XvcBackend.XvcDriver.ShiftAtTarget | libdrivers/ftdi_generic.c:761-765 | a shift clocks the target with its bits and leaves the target's TDO levels at the front of the vector |
| XvcBackend.XvcDriver.ShiftBits | libdrivers/ftdi_generic.c:761-765 | the call is recorded with its answer, the target has then been clocked with all shifts recorded, the chip's settings are as they were, and it fails only on a bad link or if the driver cannot take it |
| EndToEnd.ServeAttached | libtxvc/server.c:163-214 | over a well-formed stream the target is clocked with the shifts served, the chip's clock has the period answered last, and the bytes sent back are the responses with its own TDO levels |
| EndToEnd.ServeTarget | libtxvc/server.c:163-214 | the same from activation: however the stream is cut, the target is clocked five times with TMS high and then with exactly the bits of the first commands sent, each command is answered with the target's TDO levels, the period its clock then has, or eight times its buffer, its other pins are as chosen, and nothing fails unless a link does or the driver cannot take a command |
| Profile.PrintableRoundTrip | libtxvc/profile.c:11-48 | a printed profile is parsed back, or refused if it is too long or has too many arguments |
| Profile.ParsedIsPrintable | libtxvc/profile.c:23-46 | parsing yields printable profiles only |
| Profile.RoundTrip | libtxvc/profile.c:11-48 | exactly the printable, short enough profiles survive printing and parsing |
| Profile.DriverAlone | libtxvc/profile.c:23-24 | a string without a colon is accepted if it has at most 1023 characters, as a driver without arguments |
| Profile.ArgsAreWritten | libtxvc/profile.c:26-45 | arguments are cut from their segments, empty ones included: without an equals sign the value is empty, and a trailing comma adds no argument |
| Profile.DriverWithArgs | libtxvc/profile.c:11-48 | a driver, a colon and segments are accepted if and only if there are at most 1023 characters and 32 arguments, with these arguments |
| Profile.EveryString | libtxvc/profile.c:23-45 | every string with a colon is of this kind, so that the laws decide all strings |
| Profile.BackendProfile.StrChr | libtxvc/profile.c:23-37 | the first occurrence within a C string, or null |
| Profile.BackendProfile.CutAt | libtxvc/profile.c:31-40 | a terminator written over a separator makes two strings of one |
| Profile.BackendProfile.CutOut | libtxvc/profile.c:31-40 | an argument is cut off at the comma and into key and value at the first equals sign, within its own characters |
| Profile.BackendProfile.TakeArg | libtxvc/profile.c:31-44 | one argument is stored behind the others without disturbing their strings |
| Profile.BackendProfile.ParseArgs | libtxvc/profile.c:26-45 | all arguments are cut off, and refused if there are more than 32 |
| Profile.BackendProfile.ParseInPlace | libtxvc/profile.c:11-48 | the pointers lead to the parts of the split string, exactly when the pure specification accepts it |
| LogTags.LastMatchWins | libtxvc/log.c:89-99 | the last entry that applies to a tag decides |
| LogTags.NoMatchNoAnswer | libtxvc/log.c:105-109 | there is no answer exactly when no entry applies |
| LogTags.AppliesTo | libtxvc/log.c:95-98 | an entry applies if its name is not empty and is, character by character, the start of the tag or of `all` |
| LogTags.WrittenIsRead | libtxvc/log.c:89-104 | entries written as names with signs are read back, with what follows the last sign |
| LogTags.EverySpec | libtxvc/log.c:89-104 | every specification is written entries with something, or nothing, behind them |
| LogTags.WrittenIsAnswered | libtxvc/log.c:84-109 | written entries are answered by the last that applies, and not at all if anything follows the last sign |
| LogTags.FindSignFrom | libtxvc/log.c:91-92 | the next sign, or null |
| LogTags.Scan | libtxvc/log.c:84-109 | the scan answers by the last match, and not at all for a malformed or silent specification |
| LogTags.Logger.Configure | libtxvc/log.c:70-77 | the latest specification is in force and the counter has moved, modulo 2^32 |
| LogTags.Logger.TagEnabled | libtxvc/log.c:79-119 | the answer is that of a scan of the latest specification, or of the tag's old one if the tag is stale |
| LogTags.WrappedIsStale | libtxvc/log.c:80-83 | a tag is stale exactly after a positive multiple of 2^32 configurations since it was resolved |
| LogTags.RunRequests | libtxvc/log.c:70-119 | over any interleaving of configurations and queries on any tags, a query after a wrap is answered by the configuration its tag was resolved with, and all others by fresh scans |
| LogTags.GivenIsExpected | libtxvc/log.c:79-119 | all answers of a run are fresh scans if no query comes a positive multiple of 2^32 configurations after its tag was resolved |
| LogTags.FewNoWrap | libtxvc/log.c:75 | below 2^32 configurations in all, no query comes after a wrap |
| LogTags.StaleRun | libtxvc/log.c:70-83 | a run that ends with a wrong answer: a tag resolved as enabled is still reported so after 2^32 configurations that disable it |

## Left out

- Driver.Driver.ShiftBits: says little about calls in which a transfer fails, because queued observers may then have lost their extras; the recovery reset of such a call is covered at splitter level only.
- Driver.Driver.ShiftBits: the splitter's callback is a recorder here, and the events it has accepted are handed to the driver's callback afterwards in the same order, because methods with effects cannot be passed as arguments; the events do not depend on what the driver does with them.
- JtagSplitter.JtagSplitter.Process: at most 2147483640 bits, because the code's sums overflow for the seven greater lengths; the same holds for `Driver.Driver.ShiftBits`.
- Driver.Activate: starts from a chip that awaits a command; finding, opening and configuring the device through D2XX is not part of the model, and neither is a chip that is out of sync.
- Driver.Driver.SetTckPeriod: the period times 30 (or 6 without high speed) must be within the range of a C int, so at most 71582788 ns, because the code's product overflows for greater ones (`TckPeriod.LongPeriodsOverflow`).
- Driver.ShiftMany: the calls fill one TDO vector, as the server's do; `Driver.ShiftInTwoCalls` also covers two.
- Octets: bytes are numbers below 256, and their bits are taken by division rather than by C operators.
- Splitting.Event: carries the vectors it refers to as values; the TDO vector is the same throughout a call and is passed separately.
- XvcServer.Connection.RunConnection: progress depends on the peer, so the number of looks at the socket is a parameter; a look may fail, but a receive call that waits for all its bytes falls short only if the peer closes.
- XvcBackend.XvcDriver.ShiftBits: lengths above 2147483640, and periods whose product overflows, are treated as failures, because the code's result is undefined for them; the layer in `txvc/driver_wrapper.c` that supplies a default period lies between server and driver and is not part of this model.
- LogTags.Logger.TagEnabled: the message written before the program gives up is left out.
- Socket setup, the accept loop, address parsing and signal handling.
- The optional bit vector formatting, log output, timestamps and levels.
- Device discovery, the string-to-enum configuration, the alias table, the echo driver and the command line: lookups and plumbing with easy properties.
