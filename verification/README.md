# jk16legacy: models and proofs

A Dafny 4.11 project beside the jk16legacy repository. It models five parts of the repository and
proves what each of them is for:

* **1-Wire** (`OneWire*.dfy`, `Crc8.dfy`, `CrcErrors.dfy`, `Bytes.dfy`): the resumable ROM search over a bus of
  wired-AND slaves, and the two forms of the 8-bit CRC with the errors it detects.
* **Infrared** (`Ir*.dfy`): four senders, the sampling interrupt, four tolerant decoders tried in a fixed order,
  and the channel of the library's own test sketch between them.
* **433 MHz** (`Rf*.dfy`, `PanicButton.dfy`): two interrupt-driven transmitters of the same pulse code, their
  acknowledgements, and the panic button's debouncer.
* **powersensordaemon** (`CommandQueue.dfy`, `ClientList.dfy`, `LineReader.dfy`, `Commands.dfy`, `MainLoop.dfy`,
  `DaemonLoop.dfy`, `Loop*.dfy`, `Autosample.dfy`, `AutosamplePipe.dfy`): the event loop with its linked lists, line
  assembly, the command protocol word for word (`LoopWords.dfy`), what becomes of every command (`LoopLedger.dfy`,
  `LoopWaiting.dfy`, `LoopDrains.dfy`), every answer (`LoopAnswers.dfy`, `LoopConnections.dfy`) and every byte that comes in
  (`LoopReads.dfy`, `LoopPieces.dfy`), the order of things in a pass (`LoopOrder.dfy`), and the sampling process with the
  two pipes between it and the daemon.
* **track-presence** (`ConfigGuard.dfy`, `GuardRuns.dfy`): the readers/writer guard of the configuration, for any
  number of threads.

Code that changes state step by step is a class or a method with loops, and its contract equates the new state
with a function of the old one (`Tick`, `Step`, `Decode...Spec`, ...); what the code promises is then proved of
that function over all inputs and whole runs. `dafny verify dfyconfig.toml` checks everything.

Inputs from outside are parameters: the slaves on a bus, samples of a line, what `select` and `read` report, the
time, whether a write to the firmware succeeds, and the order in which threads get the lock.

## Where a promise is broader than the code

Each of these is stated exactly, for all inputs, as an if-and-only-if on what can be read off the input, with an
input that shows the difference.

* Search: a slave whose first ROM byte is zero makes every search after a reset report nothing; the search
  lists all slaves if and only if there is none (`EnumeratesIffNoZeroFamily`, `ZeroFamilyBlindsSearch`). The
  comment above `search` says the address is copied when a device is found; the code copies it in every case
  but an early failure of the bus reset, and so does the model.
* Infrared: RC5 frames come back if and only if they merge to 13 entries or more; ten bits always do, nine may not
  (`Rc5RoundTrip`, `Rc5NineBitsMayFail`). Sony frames come back if and only if they have 12 bits or more. Each
  decoder accepts exactly the buffers whose widths are those of a frame (`NecAccepts`, `SonyAccepts`, `Rc5Accepts`,
  `Rc6Accepts`), and Sony, tried first, hides an RC6 frame exactly on buffers whose widths are those of both
  (`SonyHidesRc6`); such a buffer exists (`SonyShadowsRc6`), but only with a first space of 11 to 13 ticks
  (`HiddenOnlyIn`), so no frame sent as RC6 is one. The NEC decoder's window for the header space reaches beyond what
  the recorder can record (`NecHeaderSpaceCut`).
* Daemon, answers: a line of the firmware takes the oldest command off the queue whatever the line is, so "movement",
  "PanicButton" or a late answer can take the place of an answer; and a client can hang up while its command is queued,
  its descriptor then going to the next one. Descriptors being given out only while they are free, in every run and for
  every firmware each answer takes its own command off the queue and goes to the very connection that sent it if and
  only if no timeout and no unsolicited line takes a written command off while its answer is outstanding, and no
  connection is closed between sending a command and the answer to it (`AnswersReachSenders`). When every write is
  answered at some time, the first condition is that none takes a written command off at all
  (`AnsweredRunIffNoIntruder`). In `AnAnswerIsMisrouted` the second client gets what the first one asked for; in
  `AnAnswerGoesToTheNextClient` a client gets the answer to a question asked before it connected.
* Daemon, commands: a turn that takes a firmware line and then finds the sampling process gone is cut short before it
  writes the next command (`PromptIffNotCutShort`). Every command with a code is written before it is dequeued if and
  only if no turn drops a waiting command (`EveryCommandIsWritten`); when writes succeed, if and only if there is no cut
  turn, or the first later turn that gets past the early exits neither takes a firmware line nor lets the oldest command
  time out (`ServedIffNothingLost`). `ACommandIsLost` shows both ways of losing one.
* Daemon, sampling: the sampling process outlives a run of the loop, and the new loop takes it to be off. Once it has
  read everything in the pipe it agrees with the daemon if and only if it has been told something in this run or what
  was left behind, unread bytes included, leaves it off (`DrainedProcessAgrees`).
* Daemon, names: a reading comes back under the name the client used if and only if the device found under the first
  character of its code is that one (`ReadingBearsNameIff`).
* CRC: two flipped bits go unnoticed if and only if they are a multiple of 127 positions apart
  (`DoubleErrorUnnoticedIff`).
* Self test: a frame too short to be decoded leaves the results of the frame before, which the sketch then compares
  (`Verify`, `TestNEC`, `TestSony`, `TestRC5`).
* Guard: writers do not wait for each other, and when two overlap a reader can meet a writer. Readers and writers
  stay apart, whatever the threads do short of a new writer, if and only if there is at most one writer and
  its announcement stands (`SafeForeverIffApart`); a new writer keeps that if and only if no announcement stands (`NewWriterSafeIffAlone`).

## Model

| member | source | states |
|---|---|---|
| OneWireBus.Bus.Reset | rf433ctl/OneWire/OneWire.cpp:114-142 | presence is reported exactly when the wire is not shorted and some slave answers; the bus then awaits a command |
| OneWireBus.Bus.ReadBit | rf433ctl/OneWire/OneWire.cpp:176-192 | during a search a slot reads the wired AND of the selected slaves' bits, then of their complements |
| OneWireBus.Bus.WriteBit | rf433ctl/OneWire/OneWire.cpp:148-170 | the direction bit deselects every slave that disagrees; eight command bits in bit order start a search |
| OneWireBus.Bus.WriteByte | rf433ctl/OneWire/OneWire.cpp:201-213 | a byte goes out as its eight bits, least significant first, whatever the slaves wait for; after a reset exactly the search command starts a search |
| OneWireBus.RomBitsUpdate | rf433ctl/OneWire/OneWire.cpp:357-377 | setting one bit of the eight ROM bytes in place changes that bit of the 64 and no other |
| OneWireBus.FirstByteZero | rf433ctl/OneWire/OneWire.cpp:396-403 | the first byte is zero exactly when the first eight bits are |
| OneWireSearch.OneWire.ResetSearch | rf433ctl/OneWire/OneWire.cpp:261-272 | the state a first search starts from |
| OneWireSearch.OneWire.PickDirection | rf433ctl/OneWire/OneWire.cpp:333-355 | at a discrepancy the earlier path is retaken before the last one, 1 is taken at it, 0 after it |
| OneWireSearch.OneWire.WalkBit | rf433ctl/OneWire/OneWire.cpp:321-380 | one bit of the walk: the slaves still selected are those that share the ROM bits chosen so far |
| OneWireSearch.OneWire.WalkTrie | rf433ctl/OneWire/OneWire.cpp:321-380 | the walk over 64 bits never fails while the bus holds a slave, and last_zero is the last 0 taken at a branch |
| OneWireSearch.OneWire.Search | rf433ctl/OneWire/OneWire.cpp:290-406 | a whole call on a bus meets SearchCall: what is found, the new state, and what is copied out |
| OneWireSearch.WalkStep | rf433ctl/OneWire/OneWire.cpp:321-380 | the walk's invariant survives one more bit in the direction the code picks |
| OneWireSearch.BothSidesIsBranch | rf433ctl/OneWire/OneWire.cpp:324-336 | both slots read 0 exactly when selected slaves lie on both sides |
| OneWireTrie.WalkEndsOnDevice | rf433ctl/OneWire/OneWire.cpp:318-393 | a completed walk ends on a slave of the bus, from any earlier ROM and discrepancy |
| OneWireTrie.FreshWalkFindsLeast | rf433ctl/OneWire/OneWire.cpp:261-272 | a walk after a reset finds the least slave, comparing from the least significant bit |
| OneWireTrie.WalkFindsSuccessor | rf433ctl/OneWire/OneWire.cpp:336-355 | LastDiscrepancy names the branch to the successor: the next walk finds the least slave above ROM_NO |
| OneWireTrie.NoZeroLeftIsGreatest | rf433ctl/OneWire/OneWire.cpp:382-393 | no zero was taken at a branch if and only if the slave found is the greatest, so LastDeviceFlag is right |
| OneWireTrie.LastZeroIsLast | rf433ctl/OneWire/OneWire.cpp:346-354 | last_zero is the last position at which 0 was taken at a branch |
| OneWireRuns.OneCall | rf433ctl/OneWire/OneWire.cpp:290-406 | each call moves from one slave in order to the next, and from the last to the end |
| OneWireRuns.SearchEnumerates | rf433ctl/OneWire/OneWire.cpp:261-406 | call k after a reset returns slave k modulo n+1 in order, nothing at n, and then the same cycle again |
| OneWireRuns.ZeroFamilyBlindsSearch | rf433ctl/OneWire/OneWire.cpp:396-403 | with a zero first byte on the bus every call after a reset fails |
| OneWireRuns.EnumeratesIffNoZeroFamily | rf433ctl/OneWire/OneWire.cpp:261-406 | the first n calls list the n slaves in order if and only if no first byte is zero |
| OneWireRuns.RestartsAfterFailure | rf433ctl/OneWire/OneWire.cpp:290-406 | after any call that fails, from any earlier state and whatever the reason, the calls on a good bus list its slaves from the first one on |
| OneWireRuns.DeadWireRestarts | rf433ctl/OneWire/OneWire.cpp:308-316 | after a call that got no presence pulse, the wire being shorted or empty, the first call on a good bus finds the first slave |
| OneWireRuns.FamilyIsLastInFirstByte | rf433ctl/OneWire/OneWire.cpp:346-354 | LastFamilyDiscrepancy is the last position in the first byte at which 0 was taken at a branch, and stays as it was if there is none |
| Crc8.Crc8Bitwise | rf433ctl/OneWire/OneWire.cpp:456-470 | the bitwise loop computes Crc of the first len bytes |
| Crc8.Crc8Table | rf433ctl/OneWire/OneWire.cpp:418-451 | the table loop computes the same Crc |
| Crc8.MixByte | rf433ctl/OneWire/OneWire.cpp:462-467 | the inner loop is eight shifts of CRC and byte |
| Crc8.TableIsCrcByte | rf433ctl/OneWire/OneWire.cpp:418-434 | every table entry is the CRC of its index |
| CrcErrors.CrcFeedsMessageBits | rf433ctl/OneWire/OneWire.cpp:456-470 | the CRC is a shift register fed with the message bits, least significant first |
| CrcErrors.AppendedCrcIsZero | rf433ctl/OneWire/OneWire.cpp:456-470 | a message with one more byte has CRC 0 if and only if that byte is its CRC |
| CrcErrors.CrcLinear | rf433ctl/OneWire/OneWire.cpp:456-470 | the CRCs of equally long messages differ by the CRC of their difference |
| CrcErrors.UndetectedIffZeroSyndrome | rf433ctl/OneWire/OneWire.cpp:456-470 | two messages share a CRC if and only if their difference feeds to 0 |
| CrcErrors.CrcKeepsParity | rf433ctl/OneWire/OneWire.cpp:456-470 | the CRC's parity is that of all message bits |
| CrcErrors.DetectsOddErrors | rf433ctl/OneWire/OneWire.cpp:456-470 | every odd number of bit errors changes the CRC |
| CrcErrors.DetectsBursts | rf433ctl/OneWire/OneWire.cpp:456-470 | every error confined to eight consecutive bits changes the CRC |
| CrcErrors.DoubleErrorUnnoticedIff | rf433ctl/OneWire/OneWire.cpp:456-470 | two bit errors leave the CRC unchanged if and only if they are a multiple of 127 bits apart |
| CrcErrors.DetectsDoubleErrors | rf433ctl/OneWire/OneWire.cpp:456-470 | so two bit errors fewer than 127 bits apart change the CRC |
| CrcErrors.DetectsUpToThreeErrors | rf433ctl/OneWire/OneWire.cpp:456-470 | one to three bit errors in up to 15 bytes change the CRC |
| IrReceive.IrParams.Interrupt | rf433ctl/IRremote/IRremote.cpp:264-329 | the interrupt on one sample is Tick of the receiver state, within the buffer |
| IrReceive.IrParams.Resume | rf433ctl/IRremote/IRremote.cpp:331-334 | the receiver is idle again with nothing recorded |
| IrReceive.ReachableConsistent | rf433ctl/IRremote/IRremote.cpp:264-329 | in every reachable state rawlen is within RAWBUF, odd in a mark and even in a space |
| IrReceive.RunLengthEncoded | rf433ctl/IRremote/IRremote.cpp:264-329 | after a long enough gap, runs closed by a long space are recorded as their lengths modulo the timer, and the receiver stops |
| IrReceive.StopKeepsRaw | rf433ctl/IRremote/IRremote.cpp:314-318 | a stopped receiver stays stopped and keeps what it recorded, whatever the line does |
| IrReceive.StaysIdleIffShortGaps | rf433ctl/IRremote/IRremote.cpp:275-290 | an idle receiver stays idle, keeping what it recorded and timing the gap since the last mark, if and only if every mark comes before the timer has counted 100 |
| IrReceive.ResumedInsideFrame | rf433ctl/IRremote/IRremote.cpp:264-334 | resumed in the middle of a frame, it records nothing until the first gap of 100 samples, and then exactly the next frame |
| IrReceive.StopTimesGap | rf433ctl/IRremote/IRremote.cpp:314-318 | a stopped receiver times the gap since the last mark |
| IrReceive.LongFrameCut | rf433ctl/IRremote/IRremote.cpp:269-273 | a frame of more runs than the buffer holds is recorded up to its 76th entry, and stops the receiver |
| IrSend.IRsendDummy.SendMark | rf433ctl/IRremote/examples/IRtest/IRtest.pde:76-79 | a mark is appended to the log |
| IrSend.IRsendDummy.SendSpace | rf433ctl/IRremote/examples/IRtest/IRtest.pde:80-83 | a space is appended to the log as its negative |
| IrSend.IRsendDummy.SendNEC | rf433ctl/IRremote/IRremote.cpp:63-81 | header, the top nbits of the word, stop mark |
| IrSend.IRsendDummy.SendSony | rf433ctl/IRremote/IRremote.cpp:83-99 | header and the low nbits of the word, most significant first |
| IrSend.IRsendDummy.SendRC5 | rf433ctl/IRremote/IRremote.cpp:116-135 | start bits and the low nbits in biphase |
| IrSend.IRsendDummy.SendRC6 | rf433ctl/IRremote/IRremote.cpp:138-167 | header, start bit and the low nbits in biphase with bit 3 twice as wide |
| IrSend.IRsendDummy.MergeEntry | rf433ctl/IRremote/examples/IRtest/IRtest.pde:89-112 | one log entry opens a new run or lengthens the last one |
| IrSend.IRsendDummy.UseDummyBuf | rf433ctl/IRremote/examples/IRtest/IRtest.pde:85-116 | the receive buffer becomes the log with equal neighbours merged and a trailing space dropped |
| IrSend.SentPulses | rf433ctl/IRremote/IRremoteInt.h:40-59 | the frames and bits of the four protocols in microseconds |
| IrSend.MarksMerge | rf433ctl/IRremote/examples/IRtest/IRtest.pde:101-111 | a run of marks is received as one entry, 100 microseconds too long, modulo 16 bits |
| IrSend.SpacesMerge | rf433ctl/IRremote/examples/IRtest/IRtest.pde:90-100 | a run of spaces is received as one entry, 100 microseconds too short |
| IrTiming.TopBitsAre | rf433ctl/IRremote/IRremote.cpp:63-81 | the i-th bit sent of a word is its bit 31 - i |
| IrTiming.LowBitsAre | rf433ctl/IRremote/IRremote.cpp:83-99 | after the shift by 32 - n, the i-th bit sent is bit n - 1 - i |
| IrDecode.DecodeNEC | rf433ctl/IRremote/IRremote.cpp:383-428 | the loop accepts what DecodeNecSpec accepts, with its value |
| IrDecode.DecodeSony | rf433ctl/IRremote/IRremote.cpp:431-469 | the same for Sony, and what a failed attempt leaves in the results |
| IrDecode.GetRClevel | rf433ctl/IRremote/IRremote.cpp:478-515 | the two cursors yield the next level of the half-bit stream the buffer stands for, or none |
| IrDecode.DecodeRC5 | rf433ctl/IRremote/IRremote.cpp:517-550 | reads the half-bit stream in pairs, whatever the merging |
| IrDecode.DecodeRC6 | rf433ctl/IRremote/IRremote.cpp:552-601 | the same with header, start bit and double-width bit 3 |
| IrDecode.Decode | rf433ctl/IRremote/IRremote.cpp:341-381 | nothing before STOP; then the first of the four decoders that accepts; otherwise the receiver resumes; a call that decodes nothing leaves the results as they were |
| IrRuns.FrameSeen | rf433ctl/IRremote/IRremote.cpp:478-515 | for any code whose single and merged widths stay apart, a start and the bits after it, merged into runs and trimmed of a trailing space, are read back as the half-bits sent |
| IrBiphase.RcSeparates | rf433ctl/IRremote/IRremote.cpp:478-515 | the widths RC5 and RC6 merge to fall into disjoint windows of one, two and three half-bits |
| IrBiphase.MergeBits | rf433ctl/IRremote/examples/IRtest/IRtest.pde:85-116 | the channel on a biphase frame is pushing its half-bits one by one |
| IrRoundTrip.Rc6RoundTrip | rf433ctl/IRremote/IRremote.cpp:138-167 | every RC6 frame of one bit or more, sent and merged, decodes to RC6, its value and its length |
| IrRoundTrip.Rc5RoundTrip | rf433ctl/IRremote/IRremote.cpp:116-135 | an RC5 frame decodes to itself if and only if it merges to 13 entries or more; otherwise nothing accepts it as RC5 |
| IrRoundTrip.Rc5EntriesCounted | rf433ctl/IRremote/examples/IRtest/IRtest.pde:85-116 | the entries of an RC5 frame counted on its bits: two a bit, less one per change and for a final 0 |
| IrRoundTrip.Rc5TenBitsSuffice | rf433ctl/IRremote/IRremote.cpp:517-523 | ten bits always reach the minimum |
| IrRoundTrip.Rc5NineBitsMayFail | rf433ctl/IRremote/IRremote.cpp:517-523 | an alternating nine-bit frame merges to twelve entries |
| IrRoundTrip.DecodersExclusive | rf433ctl/IRremote/IRremote.cpp:341-381 | on no buffer do two of NEC, Sony and RC5 accept, nor RC6 together with NEC or RC5 |
| IrRoundTrip.SonyShadowsRc6 | rf433ctl/IRremote/IRremote.cpp:341-381 | there is a buffer that both Sony and RC6 accept, taken for Sony |
| IrRoundTrip.OthersRejectRc6 | rf433ctl/IRremote/IRremote.cpp:341-381 | a frame that starts as sendRC6 starts it is rejected by the three decoders tried before RC6 |
| IrPulseDistance.NecAccepts | rf433ctl/IRremote/IRremote.cpp:383-428 | a buffer decodes to these 32 bits if and only if every width lies in the window of its pulse |
| IrPulseDistance.NecAcceptsOnly | rf433ctl/IRremote/IRremote.cpp:383-428 | the decoder accepts nothing but such frames and the four-entry repeat code |
| IrPulseDistance.SonyAccepts | rf433ctl/IRremote/IRremote.cpp:431-469 | the decoder reads exactly these bits if and only if every consumed width lies in its window |
| IrPulseDistance.NecRoundTrip | rf433ctl/IRremote/IRremote.cpp:63-81 | every 32-bit NEC frame comes back |
| IrPulseDistance.SonyRoundTrip | rf433ctl/IRremote/IRremote.cpp:83-99 | a Sony frame comes back if and only if it has 12 bits or more |
| IrAcceptance.Rc6Accepts | rf433ctl/IRremote/IRremote.cpp:552-601 | value and count are reported as RC6 if and only if the header widths lie in their windows and the rest stands for a start bit and bits of that value and count, less trailing spaces; up to 32 bits these are the bits |
| IrAcceptance.Rc5Accepts | rf433ctl/IRremote/IRremote.cpp:517-550 | the same for RC5 with its two start bits and its minimum of 13 entries; no other decoder takes such a frame |
| IrAcceptance.Rc5Windows | rf433ctl/IRremote/IRremote.cpp:478-515 | which widths count as one, two and three half-bits of RC5, in ticks |
| IrAcceptance.Rc6Windows | rf433ctl/IRremote/IRremote.cpp:478-515 | the same for RC6 |
| IrAcceptance.UnknownIff | rf433ctl/IRremote/IRremote.cpp:341-381 | a buffer is reported as unknown if and only if its widths are those of no frame of any protocol and it has six entries or more |
| IrAcceptance.SonyHidesRc6 | rf433ctl/IRremote/IRremote.cpp:341-381 | an RC6 frame is not reported as one if and only if the buffer's widths are also those of a Sony frame |
| IrAcceptance.HiddenOnlyIn | rf433ctl/IRremote/IRremote.cpp:341-381 | such a buffer is reported as Sony, with a header mark of 41 to 63 ticks and a first space of 11 to 13 |
| IrAcceptance.OverTheAir | rf433ctl/IRremote/IRremote.cpp:264-601 | whatever runs the recorder can hold, sampled by the interrupt after any gap, decode as their lengths call for: NEC, Sony, RC5, and RC6 where Sony does not accept |
| IrPulseDistance.NecHeaderSpaceCut | rf433ctl/IRremote/IRremote.cpp:304-312 | a header space of 102 ticks or more ends the recording although the decoder would accept it |
| IrSelfTest.Verify | rf433ctl/IRremote/examples/IRtest/IRtest.pde:121-133 | "OK" exactly when the results say kind, value and length, being those of this frame if it is decoded and of the one before if not |
| IrSelfTest.TestNEC | rf433ctl/IRremote/examples/IRtest/IRtest.pde:135-139 | for every value and every count of bits whose frame fits the buffer, "OK" if and only if the count is 32, or nothing is decoded and the results happened to say so before |
| IrSelfTest.TestSony | rf433ctl/IRremote/examples/IRtest/IRtest.pde:140-144 | for every value of n bits, "OK" if and only if n is at least 12, or nothing is decoded and the results happened to say so before |
| IrSelfTest.TestRC5 | rf433ctl/IRremote/examples/IRtest/IRtest.pde:145-149 | "OK" if and only if the frame merges to 13 entries, which ten bits ensure, or nothing is decoded and the results happened to say so before |
| IrSelfTest.TestRC6 | rf433ctl/IRremote/examples/IRtest/IRtest.pde:150-154 | "OK" for every value of 1 to 32 bits |
| RfCounter.Transmitter.ReadBit | rf433ctl/rf433ctl.pde:134-135 | CURRENT_BIT is bit 23 - bit of the three bytes, least significant first |
| RfCounter.Transmitter.Interrupt | rf433ctl/rf433ctl.pde:134-186 | one interrupt is Tick; CURRENT_BIT is read only with an index below 24 |
| RfCounter.Transmitter.Send | rf433ctl/rf433ctl.pde:203-213 | three bytes loaded, eight repeats, timer running |
| RfCounter.Transmitter.CheckFrameDone | rf433ctl/rf433ctl.pde:215-222 | one "Ok" for each pending acknowledgement |
| RfCounter.Transmission | rf433ctl/rf433ctl.pde:134-186 | a send drives exactly eight copies of sync and 24 bits onto the pin, then stops and owes one acknowledgement |
| RfCounter.FrameReadBack | rf433ctl/rf433ctl.pde:115-186 | comparing on-time with off-time on the whole line finds eight copies of 25 pulses and recovers the three bytes from each |
| RfCounter.BitsInOrder | rf433ctl/rf433ctl.pde:134-186 | the 24 bits go out byte by byte, each from its least significant bit up, a 1 on for 19 intervals of 26 and a 0 for 7, after a sync of 7 on and 187 off |
| RfCounter.RemainingDrops | rf433ctl/rf433ctl.pde:134-186 | a count read off the state alone drops by one with every interrupt, whatever the data |
| RfCounter.TransmissionTime | rf433ctl/rf433ctl.pde:203-213 | that count starts at 8*818 + 1 for every three bytes |
| RfCounter.EndsOnTime | rf433ctl/rf433ctl.pde:134-186 | the timer runs until the count is used up and acknowledges once, at the end |
| RfCounter.EverySendAccounted | rf433ctl/rf433ctl.pde:203-222 | in every run the sends equal the "Ok"s printed, those pending and the one under way |
| RfTable.Transmitter.Init | rf433ctl/rf433ctl_timer_consolidation_experiment.pde:205-218 | the word's first chunk is on the pin and the timer runs |
| RfTable.Transmitter.Interrupt | rf433ctl/rf433ctl_timer_consolidation_experiment.pde:220-253 | one interrupt is Tick on the tables, always inside them |
| RfTable.Transmitter.SendFrame | rf433ctl/rf433ctl_timer_consolidation_experiment.pde:258-270 | a frame starts with its first word |
| RfTable.Transmission | rf433ctl/rf433ctl_timer_consolidation_experiment.pde:205-253 | a frame drives exactly FRAME_LEN copies of the word's waves and finishes with the pin off |
| RfAgreement.WordClasses | rf433ctl/rf433ctl_timer_consolidation_experiment.pde:92-119 | the table's pulses of a word spell the bits ZERO=00, FLOAT=01, ONE=11 |
| RfAgreement.TransmittersAgree | rf433ctl/rf433ctl_timer_consolidation_experiment.pde:205-253 | packing a word into three bytes makes the lines of both transmitters read as the same 24 classes in each of the eight copies, sync first in one and last in the other |
| RfAgreement.PulsesCorrespond | rf433ctl/rf433ctl.pde:134-186 | corresponding pulses have the same shape and differ only in time scale |
| PanicButton.Loop.Iterate | rf433ctl/rf433ctl.pde:429-461 | one pass over the button's globals is Step |
| PanicButton.RunMeans | rf433ctl/rf433ctl.pde:429-461 | after any samples pb_postth_state is the level last held for 1001 samples |
| PanicButton.ReportsRisingEdges | rf433ctl/rf433ctl.pde:445-456 | "PanicButton" is printed exactly when that level rises |
| PanicButton.ReportsFarApart | rf433ctl/rf433ctl.pde:429-461 | between two reports lie 1001 released and then 1001 pressed samples, so at least 2002 iterations |
| PanicButton.HeldPressIsReported | rf433ctl/rf433ctl.pde:445-456 | 1001 pressed samples while the level is low are reported |
| ConfigGuard.UWSConfig.GuardReading | track-presence.py:70-74 | one locked section of guardReading, from its start or from its wait, is Step |
| ConfigGuard.UWSConfig.UnguardReading | track-presence.py:76-79 | the reader leaves and every waiting writer is woken |
| ConfigGuard.UWSConfig.GuardWriting | track-presence.py:81-85 | the announcement and the first test of the loop are one step |
| ConfigGuard.UWSConfig.ResumeWriting | track-presence.py:84-85 | a woken writer tests again without announcing again |
| ConfigGuard.UWSConfig.UnguardWriting | track-presence.py:87-90 | the announcement is withdrawn and every waiting reader is woken |
| ConfigGuard.UWSConfig.NotifyAll | track-presence.py:79-79 | notifyAll moves exactly the waiters of one condition |
| ConfigGuard.StepSound | track-presence.py:70-90 | every step keeps: the count is the readers inside, a sleeping reader has a standing announcement, a sleeping writer a reader inside, an announcement a writer |
| ConfigGuard.GetsInIff | track-presence.py:70-90 | a reader, arriving or woken, gets in if and only if no announcement stands, a writer if and only if no reader is inside, whoever else is writing |
| ConfigGuard.NoDeadlock | track-presence.py:70-90 | not everyone who has called and not returned is asleep |
| GuardRuns.RunSound | track-presence.py:70-90 | no wake-up is lost in any run of any number of threads |
| GuardRuns.EveryCallReturns | track-presence.py:70-90 | once calls stop coming in every schedule is shorter than a bound read off the state, and one that can go no further has let everybody out |
| GuardRuns.AnnouncedReadersOnlyLeave | track-presence.py:70-74 | while an announcement stands no step adds a reader |
| GuardRuns.SafeForeverIffApart | track-presence.py:70-90 | readers and writers stay apart in every continuation without a new writer if and only if there is at most one writer, announced, and no clash yet |
| GuardRuns.NewWriterSafeIffAlone | track-presence.py:81-85 | a new writer keeps this if and only if no announcement stands |
| GuardRuns.TwoWritersClash | track-presence.py:81-90 | from every state with two writers a schedule leads a reader to a writer |
| GuardRuns.ExclusionHolds | track-presence.py:70-90 | with writers one at a time no run from a state that keeps readers and writers apart brings them together |
| GuardRuns.ExclusionFromStart | track-presence.py:70-90 | with writers one at a time no run of any number of threads from the start brings a reader and a writer together |
| GuardRuns.ReadersOnlyLeave | track-presence.py:81-90 | from a writer's announcement to its exit the count of readers never grows |
| CommandQueue.Queue.GetLast | powersensordaemon/command_queue.c:28-38 | the last node, or none |
| CommandQueue.Queue.Push | powersensordaemon/command_queue.c:40-73 | an unsent command is appended to the linked list |
| CommandQueue.Queue.Pop | powersensordaemon/command_queue.c:94-104 | the head is unlinked |
| CommandQueue.Queue.Sent | powersensordaemon/command_queue.c:75-82 | the head is marked and dated, nothing else changes |
| CommandQueue.Queue.Clear | powersensordaemon/command_queue.c:106-118 | the list is emptied |
| CommandQueue.Cmd.HasExpired | powersensordaemon/command_queue.c:84-92 | the timercmp comparison of start plus two seconds with now |
| CommandQueue.ExpiredAfterTwoSeconds | powersensordaemon/command_queue.c:84-92 | expired means more than 2000000 microseconds since it was sent |
| ClientList.List.Add | powersensordaemon/client_list.c:39-65 | a connection that wants nothing is appended |
| ClientList.List.Remove | powersensordaemon/client_list.c:67-92 | the first node on the descriptor is unlinked, wherever it stands |
| ClientList.List.Find | powersensordaemon/client_list.c:94-106 | the first node on the descriptor, or none |
| LineReader.ReadBuffer.NonblockReadline | powersensordaemon/powersensordaemon.c:305-333 | one call on the 100-byte buffer is ReadLine; the offset stays below 100 |
| LineReader.CallTakesBytes | powersensordaemon/powersensordaemon.c:305-333 | a call takes bytes off the input and hands on exactly the line they complete |
| LineReader.JoinOfPieces | powersensordaemon/powersensordaemon.c:321-326 | joining the pieces of a stream with newlines gives the stream |
| LineReader.PiecesOfJoin | powersensordaemon/powersensordaemon.c:321-326 | splitting joined newline-free pieces gives them back |
| LineReader.BytesCutStream | powersensordaemon/powersensordaemon.c:305-333 | byte by byte or at once, the lines are the finished pieces without their full buffers |
| LineReader.ChunkingDoesNotMatter | powersensordaemon/powersensordaemon.c:305-333 | for every stream, every arrival in chunks and every schedule of calls, the lines are those of the stream |
| LineReader.WhatACallComesTo | powersensordaemon/powersensordaemon.c:305-333 | a call comes to "closed" ("failed") if and only if its bytes neither complete a line nor fill the buffer and the input then ends (fails); otherwise a newline completes exactly the line before it, or 100 bytes are discarded, or what there is is kept |
| LineReader.InTwoPieces | powersensordaemon/powersensordaemon.c:305-333 | bytes that come to nothing yet and the rest in a later call come to the same as all of them in one call |
| Commands.PowerOnUnderstood | powersensordaemon/powersensordaemon.c:191-212 | "power on NAME" is understood with its name, for every name |
| Commands.PowerOffUnderstood | powersensordaemon/powersensordaemon.c:195-212 | the same for "power off NAME" |
| Commands.SampleUnderstood | powersensordaemon/powersensordaemon.c:199-212 | the same for "sample NAME" |
| Commands.OnAndOffDiffer | powersensordaemon/powersensordaemon.c:106-127 | what is written for on and for off differs if and only if there is a letter in the first 60 characters of the code |
| Commands.FindStored | powersensordaemon/key_value_storage.c:61-96 | with distinct names (codes) every stored pair is found by its name (code) |
| Commands.FindsFirst | powersensordaemon/key_value_storage.c:61-77 | a name is found as the first pair stored under it, and not found if and only if there is none |
| Commands.FindsFirstKey | powersensordaemon/key_value_storage.c:80-96 | the same for a code |
| Commands.ReadingBearsNameIff | powersensordaemon/powersensordaemon.c:369-389 | a reading comes back under the name the client used if and only if the first device under the first character of the code, with the rest of the code, spells that name; for a code of one character, if and only if that first device is the one asked for |
| Commands.ReadingBearsName | powersensordaemon/powersensordaemon.c:369-389 | so it does when codes are distinct single characters |
| DaemonLoop.Loop.Recipients | powersensordaemon/powersensordaemon.c:172-180 | the walk over the list sends to exactly Broadcast of its contents, in order |
| DaemonLoop.Loop.SetListener | powersensordaemon/powersensordaemon.c:262-299 | the listen command sets the flags of the connection it came from and of no other |
| DaemonLoop.Loop.ProcessCmd | powersensordaemon/powersensordaemon.c:183-303 | a client's line on the heap lists is ProcessCmd of the state |
| DaemonLoop.Loop.ProcessTty | powersensordaemon/powersensordaemon.c:335-431 | the same for what the tty has to read |
| DaemonLoop.Loop.SendCommand | powersensordaemon/powersensordaemon.c:98-139 | the head, if unsent, is written and marked when the write succeeds |
| DaemonLoop.Loop.Visit | powersensordaemon/powersensordaemon.c:529-547 | one client of the loop: its successor is still the next node after it has been removed |
| DaemonLoop.Loop.ReadClients | powersensordaemon/powersensordaemon.c:528-547 | the whole loop over the clients, with removals under way, is ReadClients of the state |
| DaemonLoop.Loop.UpdateSampling | powersensordaemon/powersensordaemon.c:552-569 | the flag flips, and the process is told, exactly when it differs from whether somebody listens |
| DaemonLoop.Loop.Turn | powersensordaemon/powersensordaemon.c:467-570 | one pass through the loop is Step of the state |
| LoopLedger.StepKeeps | powersensordaemon/powersensordaemon.c:467-570 | a pass does nothing to output and queue but responses, queueing, dequeueing the head as answered or expired, and writing the unsent head: whatever these keep, it keeps |
| LoopLedger.RunOrderly | powersensordaemon/powersensordaemon.c:433-576 | in every run: queued is dequeued followed by the queue, only the head can be sent, writes are in queue order and each command's at most once, and the mark records the write |
| LoopLedger.NothingLost | powersensordaemon/powersensordaemon.c:433-576 | in every run the commands queued are those dequeued followed by those in the queue, in order |
| LoopLedger.OneCommandAtATime | powersensordaemon/powersensordaemon.c:98-139 | between two writes the command written first has left the queue, by a line of the firmware or a timeout |
| LoopLedger.TimesOutAfterWrite | powersensordaemon/command_queue.c:84-92 | in every run a written command times out only more than two seconds after its own write |
| LoopDrains.QueueDrains | powersensordaemon/powersensordaemon.c:467-493 | once nobody asks for more, the queue is empty after select has timed out twice a command, each time over two seconds after the time before, whatever the firmware does and whether or not writes succeed |
| LoopWaiting.PromptIffNotCutShort | powersensordaemon/powersensordaemon.c:467-570 | a pass with a successful write leaves the oldest command written if and only if it was not cut short |
| LoopWaiting.StepServes | powersensordaemon/powersensordaemon.c:467-570 | a pass keeps every dequeued command written if and only if it does not drop a waiting one |
| LoopWaiting.EveryCommandIsWritten | powersensordaemon/powersensordaemon.c:433-576 | in a run each command with a code is written before it is dequeued if and only if no pass drops a waiting one |
| LoopWaiting.ServedIffNothingLost | powersensordaemon/powersensordaemon.c:433-576 | when writes succeed that holds if and only if no pass is cut, or the first later pass beyond the early exits neither takes a firmware line nor times the head out |
| LoopWaiting.CutShortLosesCommand | powersensordaemon/powersensordaemon.c:467-523 | after a cut pass a firmware line or a timeout in the next one dequeues a command that was never written |
| LoopExample.ACommandIsLost | powersensordaemon/powersensordaemon.c:467-523 | two runs of five turns from the start in which that happens, by a line and by a timeout |
| LoopAnswers.BroadcastReaches | powersensordaemon/powersensordaemon.c:172-180 | a broadcast reaches a descriptor if and only if a connection on it follows the topic and it is not the exception |
| LoopAnswers.LinesGoToHead | powersensordaemon/powersensordaemon.c:391-419 | in every run the line that dequeues a command has just gone to the descriptor the command came from, whether or not it is the answer to it |
| LoopAnswers.AllOwnIffNotDiverted | powersensordaemon/powersensordaemon.c:391-419 | every answer dequeues the command it answers if and only if no timeout and no unsolicited line dequeues a written command whose answer is outstanding |
| LoopAnswers.AnswersGoToDescriptors | powersensordaemon/powersensordaemon.c:335-431 | in every run, under that condition each answer goes to the descriptor its command came from |
| LoopConnections.RunConnected | powersensordaemon/powersensordaemon.c:502-547 | in every run the list of clients is exactly the connections accepted and not yet dropped, one for each descriptor |
| LoopConnections.AnswersReachSenders | powersensordaemon/powersensordaemon.c:335-547 | in every run each answer dequeues its own command and goes to the very connection that sent it if and only if no intruder dequeues a written command whose answer is outstanding and no connection is closed between a command and its answer |
| LoopAnswers.AnsweredRunIffNoIntruder | powersensordaemon/powersensordaemon.c:335-431 | when every write is answered at some time, each answer dequeues its own command if and only if no timeout and no unsolicited line dequeues a written command |
| LoopExample.AnAnswerIsMisrouted | powersensordaemon/powersensordaemon.c:391-419 | six turns from the start, with a "movement" line, after which the second client has the first one's answer |
| LoopExample.AnAnswerGoesToTheNextClient | powersensordaemon/client_list.c:67-92 | five turns from the start in which a client hangs up and the next one on its descriptor gets the answer |
| LoopService.SamplingFollowsListeners | powersensordaemon/powersensordaemon.c:552-569 | at every loop head the flag holds exactly when a client listens for sensors, and the process has been told on, off, on, ... |
| LoopReads.LoopEndsIff | powersensordaemon/powersensordaemon.c:467-570 | exactly when the loop ends and with what: 1 on a signal, 2 when the firmware's line goes down, -1 when select, accept or a read fails; never because a read finds nothing yet |
| LoopReads.DroppedIffHangsUp | powersensordaemon/powersensordaemon.c:528-547 | in a pass after which the loop goes on with the pipe still open, the connections dropped are exactly those whose input ends in the middle of a line; in any other pass, none but such |
| LoopReads.DroppedOnlyAtEndOfFile | powersensordaemon/powersensordaemon.c:528-547 | in every run a connection is dropped only in a pass whose input for it ends with the end of file |
| LoopPieces.InTwoPieces | powersensordaemon/powersensordaemon.c:305-333 | a client's line in two pieces over two passes does to the daemon exactly what it does at once, whatever else the two passes read |
| LoopPieces.TtyInTwoPieces | powersensordaemon/powersensordaemon.c:335-431 | the same for the firmware |
| LoopPieces.AutoInTwoPieces | powersensordaemon/powersensordaemon.c:516-526 | the same for the sampling process |
| LoopOrder.TurnInOrder | powersensordaemon/powersensordaemon.c:467-570 | all a pass does comes in its place: a firmware line or a timeout, the new connection, the sampling process, the clients in the order of the list, the write, the word to the process; so no line dequeues a command of its own pass |
| LoopOrder.TurnKeepsTime | powersensordaemon/powersensordaemon.c:98-139 | a pass whose write fails notes none, and what is written or times out bears the time of the pass |
| LoopWords.WritesSpellCodes | powersensordaemon/powersensordaemon.c:98-139 | in every run a write is the first 60 characters of the command's code: for "on" the same but for the case and without small letters, for "off" without capitals, for a sample these very characters |
| LoopWords.PowerOnQueues | powersensordaemon/powersensordaemon.c:183-260 | "power on NAME" queues one command with the code of NAME among the power ids, or without a code after sending exactly "Error: invalid power id"; the request is copied once to each other client that listens for requests |
| LoopWords.PowerOffQueues | powersensordaemon/powersensordaemon.c:183-260 | the same for "power off NAME" |
| LoopWords.SampleQueues | powersensordaemon/powersensordaemon.c:183-260 | the same for "sample NAME" among the sample devices, with "Error: invalid sample device" |
| LoopWords.NamelessOnQueues | powersensordaemon/powersensordaemon.c:183-260 | without a name the error is sent and a command without a code is queued all the same |
| LoopWords.NamelessOffQueues | powersensordaemon/powersensordaemon.c:183-260 | the same |
| LoopWords.NamelessSampleQueues | powersensordaemon/powersensordaemon.c:183-260 | the same |
| LoopWords.ListenMeans | powersensordaemon/powersensordaemon.c:262-299 | "listen TOPIC" sets, for the connection it comes from and for no other, exactly the flags of the topic; an unknown topic changes nothing |
| LoopWords.ListenAlone | powersensordaemon/powersensordaemon.c:262-277 | "listen" alone asks for everything |
| LoopWords.NothingDone | powersensordaemon/powersensordaemon.c:191-210 | "log", an unknown word, and "listen" from nobody on the list leave the daemon as it is |
| LoopWords.ClientLine | powersensordaemon/powersensordaemon.c:319-326 | a line of up to 99 characters reaches process_cmd as it was sent |
| LoopWords.AnswerIs | powersensordaemon/powersensordaemon.c:369-389 | only a reading is reworded: its one-character code gives way to the device's name, if there is one |
| LoopWords.FirmwareLineAnswers | powersensordaemon/powersensordaemon.c:359-420 | a firmware line with its carriage return goes without it to whoever sent the oldest command, once to every other client that listens for lines starting "Error:", "movement", "PanicButton" or "Sensor ", and takes the command off the queue |
| LoopWords.ReadingAnswers | powersensordaemon/powersensordaemon.c:359-420 | a reading does so under the name of its device |
| Autosample.Process.Second | powersensordaemon/autosample.c:177-189 | one second over the devices: all counters and, when enabled, the commands due, in order |
| Autosample.Process.Pass | powersensordaemon/autosample.c:164-197 | one pass of the process's loop on a second, a byte or a signal is Woken of its state |
| Autosample.SamplesWhenDueAndOn | powersensordaemon/autosample.c:164-197 | however daemon and process interleave and whatever earlier runs of the loop have left behind, a device's command is sent in a second if and only if the device is due, counted from the start of the process, and the last byte taken was on |
| Autosample.DueEveryPeriod | powersensordaemon/autosample.c:177-189 | a device is due in the last second of every period of its delay, whether or not sampling is on |
| Autosample.DrainedProcessAgrees | powersensordaemon/powersensordaemon.c:552-569 | however daemon and process interleave, a process that has drained the pipe agrees with the daemon if and only if it has been told something in this run or was left to be off, unread bytes included |
| Autosample.DueInOrder | powersensordaemon/autosample.c:177-189 | the commands due in a second go out in the order the devices are listed |
| AutosamplePipe.SamplesAreQueued | powersensordaemon/autosample.c:37-67 | however daemon and process interleave and in whatever pieces the lines arrive, the commands queued for the process are, in order, the samples of the devices it has sent commands for, each with the code of its name; what is missing is still in the pipe |
| AutosamplePipe.FirstSample | powersensordaemon/powersensordaemon.c:516-526 | the daemon listens to the process from the start |

## Left out

- Registers, prescalers, PWM, microsecond delays and interrupt masking of the AVR: one step per interrupt or bus slot.
- The blinking LED of the infrared receiver, `sendRaw`, and the lengths of carrier bursts.
- `crc16` (compiled out), parasitic power, `select`, `skip` and DallasTemperature; no slave joins or leaves during a call of search, and a listing is complete only while the bus stays the same.
- IrSend.IRsendDummy.SendMark: requires room in the 128-entry log (the source keeps writing one past its end).
- IrSend.IRsendDummy.SendSpace: the same.
- IrSelfTest.TestNEC: requires a frame that fits the 76-entry receive buffer (the source writes past its end).
- IrDecode.Decode: the pointer and length of the raw buffer that it copies into the results are not modelled.
- RfCounter.Transmitter.CheckFrameDone: runs without an interrupt in between; the race on the 16-bit counter is not modelled.
- The light sensor, LED patterns, movement counters and the serial menu of the 433 MHz firmware.
- ConfigGuard.UWSConfig.GuardReading: the lock itself and spurious wake-ups are left to the threading library; the array of thread positions stands for the interpreter's threads.
- The rest of track-presence.py: the tracker, sockets and configuration values.
- DaemonLoop.Loop.Turn: read buffers appear as the bytes they hold; that the 100-byte array holds them is LineReader.ReadBuffer.NonblockReadline. Allocation always succeeds, so commands are never refused for memory.
- DaemonLoop.Loop.SendCommand: a write either succeeds or fails; the endless retry on a code of length zero is not modelled.
- Sockets, `select`, signals other than their stop decision, logging, daemonizing, tty setup and the five-second reopening; partial writes of responses are one output.
- Log and listen commands' log lines; the error a write to a closed descriptor returns, which the daemon ignores.
- The other programs of the repository (switch-power.py, play-sound-status.py, shell, Perl and CGI scripts, serial_console).
