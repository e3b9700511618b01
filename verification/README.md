# The OpenPort J2534 driver's receive and command engine, in Dafny

The driver talks to a cable over one byte pipe. Coming in, text replies, `ary` replies with raw bytes
behind their line and length-prefixed binary frames are interleaved; a reader thread collects reads of
up to 1024 bytes, cuts the stream into records, reassembles chunked messages per channel into a byte
ring, and hands replies to the one command that waits. Going out, printed command lines carry a
sequence number and an optional binary payload. This project models that engine and the simulated cable
at the other end of the pipe, and proves what holds over every stream, every division into reads, every
interleaving and every call sequence.

Each part that changes state in place is a class with loops over arrays and fields. Its methods are
proved equal to functions on values, and the theorems are lemmas about those functions and about step
relations over them.

| file | what it holds |
|---|---|
| `bytes.dfy`, `decimal.dfy` | bytes, 32-bit words, decimal numbers with saturation |
| `proto.dfy`, `reply_text.dfy` | the reply parser, and the printer it inverts |
| `stream.dfy` | the accumulator: consumption, its bound, independence of read boundaries |
| `channels.dfy`, `reassembly.dfy` | frames to messages; reassembly inverts chunking; channels do not interfere |
| `sender.dfy`, `kline.dfy` | the cable as a sender, CAN-type and K line, end to end |
| `ring.dfy`, `queue.dfy` | the message ring in place refines a queue of messages |
| `slot.dfy`, `matching.dfy` | the reply slot; sequence numbers; no command gets another's reply |
| `device.dfy`, `pipeline.dfy` | the reader thread over accumulator, channels and slot; everything sent arrives |
| `teardown.dfy` | closing while commands, receivers, the reader and other closers run |
| `commands.dfy`, `splitter.dfy`, `decoder.dfy` | the command printers, the cable's line and payload splitter, and what the lines mean |
| `session.dfy`, `cable.dfy` | J2534 channel, line, pin and periodic state; the cable's, from text to text; their agreement |
| `accounting.dfy` | PassThruReadMsgs accounts for every message |
| `usb.dfy` | the posted-read USB receive engine |
| `tp20.dfy` | VW TP2.0 channels: tester and module, and both together |

## What turned out not to hold

- A waiting K-line init can lose the reply it already has, because `d->reply = *r` runs before the checks
  that discard a late init reply and because an unnumbered init reply passes all of them.
  `Slots.InitReplyIsOverwritten` states exactly when. What the caller then gets depends on the reply that came
  in between: after a late numbered `arw` the init fails with an empty result (`Slots.LateInitReplyWins`);
  after an unnumbered reply it returns that reply's bytes (`Slots.UnnumberedInitReplyWins`, and
  `Matching.InitReturnsForeignReply` for a whole run in which an init returns another init's key bytes); and
  after an `ary` whose raw bytes stand behind another token than its number the slot points into the
  accumulator (`Slots.LateRawReplyIsBorrowed`), whose bytes the next read overwrites before they are copied out
  (`Device.Session.NextReadOverwrites`). `Matching.NoForeignReplies` is therefore stated for the other verbs.
  For all of them, where init replies come in order, `Matching.OrderedInitsAreGenuine` says that a result is
  genuine unless its bytes are borrowed, and when they are; `Matching.NumberedInitsAreGenuine` has the condition
  on the cable under which none are.
- An unnumbered command, `ati`, takes any reply but an init reply for its answer, a late acknowledgement
  included: `Slots.UnnumberedTakesAny`, `Slots.LateReplyAnswersVersion`.
- Host and cable come to disagree on a periodic message whose id is above 32 bits, and on no other:
  `Cables.StartKeepsAgreementIff`, `Cables.LateIdIsMisread`.
- PassThruReadMsgs on a device that is already closed returns before it clears the caller's count, so the
  count stays what was asked for though nothing was read. `Accounting.Receiver.ReadMsgs` states that the
  count is that of the messages if and only if the device was open or none were asked for, and
  `Accounting.ClosedReadKeepsCount` is the case in which it is not.
- A START gives up the message in progress, but a message without one does not: where the END of a message is
  lost and a single frame follows, the two come out glued. `Reassembly.UnannouncedIff` has the condition.
- After junk on the pipe, read boundaries matter: `Stream.NoiseMakesBoundariesMatter`. A record whose
  line is longer than 256 bytes is given up as junk when a read ends in it: `Stream.PrefixesWait` has
  the exact bound.
- An `arw` answer with eight key bytes leaves no room for its number, so one ending in another command's
  number is then accepted: `Slots.ForeignKeyBytes`.
- A TP2.0 answer of 32768 bytes or more is never returned by the tester, which masks the length's top
  bit: `Tp20.AnswerSizeLimit`.

## Model

| member | source | states |
|---|---|---|
| Decimal.ParseU32 | src/op_proto.c:21-33 | the loop that saturates digit by digit stores min(decimal value, 2^32-1) for every digit string, without wrapping its 64-bit accumulator |
| Decimal.DecDenotes | src/op_proto.c:360-369 | a printed number is a non-empty digit string that denotes the number |
| Decimal.PrintedNumber | src/op_proto.c:21-33 | what was printed is read back, saturated, whatever non-digit follows |
| Proto.ParseTail | src/op_proto.c:43-58 | all numeric tokens are read, the first eight kept |
| Proto.JunkLines | src/op_proto.c:60-202 | a line is junk exactly when its verb is unknown, it has too few numbers, lacks the channel at the verb, or is an `ary` of more than 255 bytes |
| Proto.LineFields | src/op_proto.c:60-202 | any other line says its numbers in their order, the first to the fields of its reply and the next eight to the tail |
| Proto.OpParse | src/op_proto.c:226-303 | the parser with its scan loop is the function the stream theorems are about |
| Proto.ConsumesIffDecided | src/op_proto.c:226-303 | no byte is consumed exactly when INCOMPLETE is reported |
| Proto.ParseStable | src/op_proto.c:226-303 | a result other than INCOMPLETE and JUNK stays the same however many bytes arrive behind it |
| Proto.OpResyncOffset | src/op_proto.c:305-318 | the first offset past the start at which a reply can begin, or the whole buffer |
| Proto.ResyncKeepsReplies | src/op_proto.c:305-318 | no reply is stepped over once three bytes of it have come |
| ReplyText.TextRoundTrip | src/op_proto.c:60-202 | printing any `aro`, `are`, `ari`, `arr`, `arf`, `arg`, `arm` or `ary` with up to eight trailing tokens and parsing it, anything behind it, returns the same fields |
| ReplyText.KeyBytesRoundTrip | src/op_proto.c:188-197 | an `arw` line yields its tokens, the first eight of them |
| Stream.AccumulatorBound | src/op_device.c:421-476 | over every byte stream, junk included, in reads of 1 to 1024 bytes, at most 1534 bytes stay behind, and neither the reader's byte drop nor the full-accumulator discard is ever reached |
| Pipeline.BoundIsReached | src/op_device.c:395-428 | that bound is attained |
| Stream.PrefixesWait | src/op_proto.c:275-302 | every beginning of a record waits for the rest of it if and only if the record is a frame or its line with the CR is at most 256 bytes |
| Stream.ConsumeSplit | src/op_device.c:395-428 | bytes consumed without meeting junk need not be looked at again when more arrive |
| Stream.ReadBoundaryIndependence | src/op_device.c:395-476 | after every read of a well-formed stream, however it is divided, exactly the complete records have been emitted and the accumulator holds the beginning of the next |
| Stream.WholeStream | src/op_device.c:395-476 | read to its end, a well-formed stream yields every record once, in order, and nothing else |
| Stream.NoiseMakesBoundariesMatter | src/op_proto.c:305-318 | a stream with one byte of noise and two divisions of it that emit different replies |
| Channels.NonInterference | src/op_device.c:168-198 | a channel ends up the same when all frames that do not concern it are left out and all other channels are in any other state |
| Channels.OwnMeansOwnNumber | src/op_device.c:178-192 | the frames that concern an open channel are those of its number and, for channel 6 only and only while channel 5 is closed, the loopback frames of channel 5; none concerns a closed channel |
| Channels.WordBits | include/j2534/j2534.h:139-151 | RxStatus has exactly the bits 0x01, 0x02, 0x08, 0x80 and 0x100 for the marks a message has |
| Channels.AbsorbMakes | src/op_device.c:133-282 | for a channel's queue and loss count, absorbing a frame is the arrival of the messages the frame makes |
| Channels.AbsorbKeepsMarks | src/op_device.c:133-282 | one frame keeps partial and queued messages within 4128 bytes, the queue within its capacity, and ExtraDataIndex 0 in indications and DataSize elsewhere |
| Channels.DispatchAllKeepsMarks | src/op_device.c:133-282 | the same for all ten channels over every sequence of frames |
| Reassembly.ReassemblyInvertsChunking | src/op_device.c:168-282 | on any channel, a message in progress given up, an announcement and any division of a body into chunks that each repeat a 4- or 5-byte header queue the indication and one message, header once and body whole |
| Reassembly.ReassemblyQueues | src/op_device.c:168-282 | with room for both, exactly the indication and the message are added to the queue whatever was in progress, nothing is lost, and the channel is idle again |
| Reassembly.UnannouncedReassembles | src/op_device.c:168-282 | the same reassembly without an announcement, on an idle channel |
| Reassembly.UnannouncedIff | src/op_device.c:239-281 | without one, on any channel: what is delivered is the message sent exactly when none was in progress, or one that held no more than the header |
| Reassembly.ShortContinuation | src/op_device.c:248-257 | a continuation frame too short for the header is appended as it is |
| Sender.FrameDecodes | tests/sim/openport_sim.py:353-367 | a frame the cable writes is one record and decodes to its own channel, status and bytes; on channels 5 and 6 the first four bytes are the timestamp wherever there are four, on every other channel only where a START or an END has exactly four |
| Sender.AnyChunkingRoundTrip | src/op_device.c:168-282 | wire encoding, any reads, parser and reassembly together return header once plus body for every header and every division into chunks that fit a frame, whatever was in progress on the channel |
| Sender.CanMessageRoundTrip | tests/sim/openport_sim.py:210-265 | the 69/70-byte division of `can_frames` is an instance, and so is a message that fits one frame |
| Sender.RawCanRoundTrip | src/op_device.c:205-215 | any raw CAN frames, over the wire and in any reads, are queued one by one with their loopback, 29-bit and TX_DONE marks, timestamps and bytes |
| Sender.TransmitIndicated | src/op_device.c:202-210 | an ISO 15765 transmit indication is a message of its own and leaves the one in progress alone |
| Sender.LoopbackReachesIso | src/op_device.c:178-192 | a loopback frame of closed channel 5 reaches channel 6, as raw CAN, and no frame without that mark does |
| KLine.KlineDecodes | src/op_proto.c:216-224 | on channels 3, 4, 7, 8 and 9 only START and END bodies lose four bytes to a timestamp; a data frame of four bytes stays data |
| KLine.KlineRoundTrip | tests/sim/openport_sim.py:400-406 | on each of those channels, a message in progress given up, data comes out as one empty START_OF_MESSAGE indication and one message, marked TX_MSG_TYPE iff an echo, with exactly the data sent iff that is at most 4128 bytes |
| Ring.SpanGrows | src/op_device.c:84-91 | copying in behind the used bytes extends them by exactly what was copied, across the end of the buffer and from empty to full |
| Queue.Channel.RingPut | src/op_device.c:84-91 | exactly the bytes at and behind the tail, going round, become the source's |
| Queue.Channel.RingGet | src/op_device.c:93-100 | the bytes from the head, going round, and the head past them |
| Queue.Channel.QueuePush | src/op_device.c:102-131 | the ring's used bytes from the head stay the serialisation of the queue; a message that fits is its new last element, one that does not is dropped and counted |
| Queue.OldestFirst | src/op_device.c:726-738 | a ring that serialises a queue begins with the oldest message's header and data, and serialises the rest behind them |
| Queue.HeaderFields | src/op_device.c:81-82 | each of the six stored header fields reads back as it was stored |
| Queue.Channel.TakeOldest | src/op_device.c:726-739 | a pop returns the oldest message with all six fields and its data intact and zeros behind, and leaves the others |
| Queue.Channel.AbsorbFrame | src/op_device.c:168-282 | the channel in place, ring included, does with a frame what the function of the reassembly theorems says |
| Queue.Channel.Flush | src/op_device.c:759-766 | a flush empties queue, partial message and loss count, and head and tail agree again |
| Queue.Channel.Open | src/op_device.c:776-793 | opening starts from an empty channel and keeps an existing ring; without memory the channel stays closed |
| Queue.Channel.Close | src/op_device.c:795-805 | closing empties the queue and forgets a partial message |
| Slots.ReplySlot.StashReply | src/op_device.c:286-393 | the slot's whole new state for every reply: the writes that precede the late discards included, and whether the reply's bytes are its own or still the accumulator's |
| Slots.ReplySlot.Claim | src/op_device.c:648-655 | claiming clears a leftover reply and sets number and verb, and touches nothing else |
| Slots.ReplySlot.Collect | src/op_device.c:673-684 | a stored reply is handed out and the slot is free, reply or none |
| Slots.AcceptsItsNumberOnly | src/op_device.c:298-324 | a waiting numbered command other than an init accepts a reply iff its last token is the command's number, and is otherwise unchanged |
| Slots.AcceptedIsHandedOn | src/op_device.c:326-388 | whatever is accepted is handed on as it came, but that a numbered `are` has its detail found in front of the number, an `ari` is cut to 191 bytes, and an init gets its raw bytes or its tokens as key bytes |
| Slots.PrintedReplyIsHandedOn | src/op_device.c:326 | in text: a numbered `aro`, `arr`, `arf`, `arg` or `arm` is in the slot of its command with every field as it was printed |
| Slots.NeverWithdrawn | src/op_device.c:298-392 | a stored reply is never withdrawn, and is replaced only by one that carries the command's own number |
| Slots.InitReplyIsOverwritten | src/op_device.c:308-386 | a waiting init that has a reply ends up with another iff the new one is not stale and, as it would be left in the slot (raw if given up late, interpreted otherwise), differs from it; its bytes are borrowed from the accumulator iff that reply was given up late with raw bytes; no init reply is stale for it |
| Slots.LateInitReplyWins | src/op_device.c:326-374 | an instance: key bytes 8 and 8 of command 300 give way to the late `arw` of command 299, and the init fails with an empty result |
| Slots.UnnumberedInitReplyWins | src/op_device.c:345-357 | another: they are replaced by the bytes of an unnumbered `ary` made for another init, which passes every check |
| Slots.LateRawReplyIsBorrowed | src/op_device.c:326-353 | a third: after an `ary` whose raw bytes stand behind another token than its number, what the init returns is whatever two bytes the accumulator holds by then |
| Slots.UnnumberedTakesAny | src/op_device.c:308-324 | an unnumbered command accepts a reply iff it is not an init reply |
| Slots.LateReplyAnswersVersion | src/op_device.c:313-326 | an instance: `ati` takes the late acknowledgement of command 299 |
| Slots.ErrorDetailRecovered | src/op_device.c:327-332 | once the command is numbered, an `are` detail is recovered iff one was printed |
| Slots.KeyBytesDecode | src/op_device.c:358-386 | the key bytes of the pending init come back whole iff there are at most eight, whether or not the number is echoed |
| Slots.ForeignKeyBytes | src/op_device.c:367-375 | key bytes that end in another command's number are refused iff fewer than eight precede it |
| Matching.NthInClosedForm | src/op_device.c:640-642 | the k-th number of a session in closed form: numbers run from 256 to 2^32-1 and round again |
| Matching.NumbersRepeat | src/op_device.c:640-642 | two numbers of a session are equal iff a multiple of 2^32-256 lies between them |
| Matching.NumbersDistinct | src/op_device.c:640-642 | every number differs from the 2^32-257 before it |
| Matching.NoForeignReplies | src/op_device.c:609-689 | over every run with replies lost, repeated and delayed past their timeouts, what a numbered command other than an init returns was made by the device for that command, and is returned as it came |
| Matching.OrderedInitsAreGenuine | src/op_device.c:286-393 | as long as no init reply of another command comes while an init waits, what any numbered command returns is the reply made for it, as it came; its bytes are borrowed iff that reply was given up late with raw bytes |
| Matching.NumberedInitsAreGenuine | src/op_device.c:345-357 | and none are borrowed where an init answer with raw bytes carries no token or its own number last |
| Matching.InitReturnsForeignReply | src/op_device.c:326-374 | a run, from a fresh session, in which the second of two inits is answered with its key bytes 8 and 8 and returns 1 and 2, the late unnumbered answer to the first |
| Matching.MatchedIsReturned | src/op_device.c:648-684 | a reply that a numbered command, init or not, accepts between claiming the slot and giving up is never lost: the command ends by returning the last reply let in, as it came, unless its own write was still out and failed |
| Matching.OutOfWindowIsAccepted | src/op_device.c:313-324 | an older reply that ends in its command's number is accepted by the command waiting now iff their numbers lie a multiple of 2^32-256 apart |
| Device.ChannelsSeeFrames | src/op_device.c:405-416 | replies between frames do not disturb the channels |
| Device.Session.AbsorbFrame | src/op_device.c:168-282 | one frame changes the channel it is for and leaves the other nine and their rings alone |
| Device.Session.ConsumeAccum | src/op_device.c:395-428 | the loop hands on exactly the records of the accumulated bytes, in order, and moves the rest to the front |
| Device.Session.ReaderMain | src/op_device.c:430-476 | whatever the reads come to, everything read before the device was given up has been handled as the whole stream decodes; the device is given up iff it is gone or fifty reads in a row fail |
| Device.ReaderGivesUpIff | src/op_device.c:430-460 | that is, iff a read finds it gone or fifty reads fail with neither a timeout nor any bytes between them, and what is handled is all that came before the first such moment |
| Device.Session.NextReadOverwrites | src/op_device.c:420-469 | once the record they came in has been consumed, the next read's bytes stand where bytes borrowed from the accumulator lay, whatever the slot holds |
| Device.Session.FlushChannel | src/op_device.c:759-774 | of the whole session a flush changes the one channel's queue, partial message and loss count |
| Device.Session.OpenChannel | src/op_device.c:776-793 | opening changes the one channel, gets it a ring if it has none, and fails iff there is neither ring nor memory |
| Device.Session.CloseChannel | src/op_device.c:795-805 | closing changes the one channel |
| Device.Session.Pop | src/op_device.c:704-746 | the timed wait, with reads, losses and a close of the device, other receivers, flushes, channels opening and closing and commands in any order between two looks at the queue: it sleeps only while there is nothing, times out only at the end, and then a closed or lost device wins over queued messages, else the oldest message comes out whole |
| Pipeline.TextIsRecord | src/op_proto.c:275-302 | a printed reply is one record, and all its beginnings wait for the rest iff its line body is at most 253 bytes |
| Pipeline.NumericRepliesAreShort | src/op_proto.c:275-302 | every printed reply made of numbers is short enough, so only the text of an `ari` has to be bounded below |
| Pipeline.EverythingArrives | src/op_device.c:395-476 | text replies, raw bytes and frames in any mixture and any reads: the reader emits exactly their meanings, in order |
| Pipeline.ReadEverything | src/op_device.c:430-476 | and the session in place ends up as if each frame had been given to its channel and each reply to the slot |
| Pipeline.PrintedAnswerIsMatched | src/op_device.c:313-324 | of the replies the cable can print, a numbered command takes exactly those that end in its number |
| Teardown.SafeTeardown | src/op_device.c:580-605 | in every interleaving of any number of commands, receivers and closers with the reader, the transport is never used after its close and is closed at most once |
| Teardown.KeepsLock | src/op_device.c:626-688 | `cmd_lock` is held by exactly the thread between taking and releasing it |
| Teardown.KeepsWake | src/op_device.c:668-672 | no wake-up is lost, with one condition variable for replies and another for messages: a thread sleeps unsignaled only while it has something to wait for |
| Teardown.StepsDescend | src/op_device.c:580-605 | while a close is pending every step of a thread, and of the reader once told to stop, brings it nearer its end |
| Teardown.HelpIsPossible | src/op_device.c:580-605 | in every reachable state with a close pending some step is possible and brings it nearer its end |
| Teardown.CloseCompletes | src/op_device.c:580-605 | so every pending close can be completed, and has then closed the transport exactly once |
| Commands.LinesFit | src/op_proto.c:323-334 | no command line is ever truncated, with its number or without |
| Commands.OpCmdNumber | src/op_proto.c:344-354 | the number goes in front of CR LF iff the line is well-formed and there is room, and otherwise nothing is written |
| Commands.NumberedEncoding | src/op_device.c:633-646 | numbering an encoded line in the driver's buffer always succeeds and gives the line as sent |
| Splitter.Server.TakeRead | tests/sim/openport_sim.py:867-882 | the byte loop in place is the function the round trip is about, read by read |
| Splitter.DeclaresItsPayload | tests/sim/openport_sim.py:895-912 | for every command the cable expects exactly as many payload bytes as the host appends |
| Splitter.NumberComesBack | tests/sim/openport_sim.py:476-485 | for every numbered command the cable recovers the number the host appended, and so echoes that |
| Splitter.CommandStreamRoundTrip | tests/sim/openport_sim.py:856-912 | any commands, numbered, each with a payload of arbitrary bytes, reach the handler as exactly those lines and payloads (what the lines mean is Decoder.CommandsArrive) |
| Decoder.LineIsUnderstood | docs/PROTOCOL.md:229-246 | every line the driver sends, read from the cable's side by verb, channel and argument positions, means the command it was printed for, every argument in its place |
| Decoder.LinesAreDistinct | src/op_proto.c:356-454 | no two commands or numbers print the same line |
| Decoder.CommandsArrive | tests/sim/openport_sim.py:856-912 | any numbered commands with their payloads reach the handler as lines that mean exactly those commands, with those numbers and payloads, and nothing else |
| Sessions.SessionInvariants | src/op_j2534.c:314-408 | over every call sequence and every device answer: channels 3/4 and 7/8 never both open, each open channel's protocol maps to it, at most one tracked pin powered, a tracked pin grounded iff the last setting accepted for it grounds it and powered iff that put a voltage on it, no open channel's line grounded |
| Sessions.CallMasks | src/op_j2534.c:908-917 | one call leaves every pin as it was, except that an accepted setting of a tracked pin grounds it, powers it or does neither |
| Sessions.PinRefusedIff | src/op_j2534.c:877-895 | over every run, a voltage on a tracked pin is refused for the pins alone iff the last setting accepted for another put a voltage there; switching the one powered pin off frees all others |
| Sessions.GroundRefusedIff | src/op_j2534.c:877-905 | grounding a pin is refused iff an open channel runs on its line |
| Sessions.ConnectIsSentIff | src/op_j2534.c:314-360 | over every run, a Connect is sent iff the device has the protocol, the rate is not 0, no channel is open on its line, and the last setting accepted for the line's pin does not ground it |
| Sessions.MessageIsSentIff | src/op_j2534.c:519-543 | a message is sent iff it is of the channel's protocol and its data fit 8 bytes of CAN, the 12-bit length of ISO 15765-2, or a message |
| Sessions.ReplayAppends | src/op_j2534.c:911-917 | replaying accepted settings in two parts is replaying them all |
| Sessions.Session.PassThruConnect | src/op_j2534.c:314-384 | every check in order with its code, and the state afterwards for every answer and a failed allocation |
| Sessions.Session.PassThruDisconnect | src/op_j2534.c:388-408 | refused on a closed device or channel; otherwise the host forgets the channel whatever the device answers |
| Sessions.Session.PassThruSetProgrammingVoltage | src/op_j2534.c:864-919 | the device, one-pin and in-use checks, and which pins are grounded and powered afterwards for every answer |
| Sessions.Session.PassThruStartPeriodicMsg | src/op_j2534.c:666-716 | pointer, channel, interval, message and limit checks in order; the id kept is the one the device gave |
| Sessions.Session.PassThruStopPeriodicMsg | src/op_j2534.c:187-197 | an unknown id is refused unsent; a stopped or no longer existing one is forgotten, and only that one |
| Sessions.Session.ClearPeriodicMsgs | src/op_j2534.c:1189-1199 | the ids are forgotten only when the device agreed |
| Cables.ForgetRemoves | src/op_j2534.c:194-195 | moving the last id into the gap takes exactly one id away |
| Cables.OpenPortSim.CmdOpen | tests/sim/openport_sim.py:505-521 | from the text behind the verb to the text of the answer: every check of the cable in order, arguments included, and the channel with the flags and the rate it was opened with |
| Cables.OpenPortSim.CmdPeriodicVendor | tests/sim/openport_sim.py:792-815 | argument and payload checks, ten per channel, ids never reused, the interval and the flags kept under the id in the answer |
| Cables.OpenPortSim.CmdPeriodicStop | tests/sim/openport_sim.py:844-853 | argument checks; stops the id or answers that there is none |
| Cables.OpenPortSim.CmdClose | tests/sim/openport_sim.py:523-527 | closes the channel and its periodic messages, open or not |
| Cables.OpenPortSim.CmdClearPeriodic | tests/sim/openport_sim.py:834-842 | stops every periodic message of the channel; acknowledged in any case |
| Cables.CableInvariants | tests/sim/openport_sim.py:428-474 | over any lines and payloads whatever, the cable keeps to channels 3 to 9, one for each shared line, ten periodic messages each, and no id live twice |
| Cables.LineExecutes | tests/sim/openport_sim.py:428-474 | for every command of the session, the line the driver sends is executed by the cable's text handlers as the command it was printed from, flags, rate, interval and pin value included, and answered with its number |
| Cables.AnswerArrives | src/op_j2534.c:115-153 | the line the cable answers with is parsed, taken by the waiting command's slot, and read by the host as what the cable meant, an id saturated at 32 bits |
| Cables.ChecksSuffice | tests/sim/openport_sim.py:505-521 | while host and cable agree, every `ato`, `atm` and `atn` that passes the host's checks is accepted by the cable |
| Cables.HostAndCableAgree | src/op_j2534.c:666-736 | in every session whose commands are answered and whose periodic ids fit 32 bits the open channels and each channel's periodic ids are equal on both ends, at most ten each, and the next checked command will be accepted |
| Cables.StartKeepsAgreementIff | src/op_j2534.c:698-716 | the bound is exact: a checked start of a periodic message keeps the ends in agreement iff its id fits 32 bits |
| Cables.LateIdIsMisread | src/op_proto.c:21-33 | an instance: id 2^32 is kept by the host as 2^32-1 |
| Cables.WireRunIsRun | src/op_device.c:633-684 | a session whose commands and answers all go over as text comes to the same as one whose commands are executed directly |
| Cables.CallReachesCable | src/op_j2534.c:314-384 | over text, a Connect opens its channel with its flags and rate, and a periodic message runs at its interval in microseconds with its flags |
| Cables.TextKeepsAgreement | src/op_j2534.c:666-736 | so the two ends agree over the text wire as well |
| Cables.LossyRunStaysWithin | src/op_j2534.c:314-408 | with any commands and replies lost, the channels the host believes open are open on the cable |
| Cables.NothingLiveIsForgotten | src/op_j2534.c:187-197 | whatever is lost, an id the host forgets on a channel it believes open is not live on the cable |
| Cables.StoppedIsForgotten | src/op_j2534.c:187-197 | a stop that is answered takes exactly its id away on both ends, the answer that there is none included |
| Accounting.DroppedIffNoRoom | src/op_device.c:102-131 | an arriving message is dropped iff its header and data do not fit |
| Accounting.EventsArrive | src/op_device.c:168-198 | for a channel's queue and losses, anything the reader and other threads do short of taking from that channel is the arrival of exactly the messages its frames make |
| Accounting.Receiver.ReadMsgs | src/op_j2534.c:412-510 | over the session in place, with reads, losses, closes and other channels' business at every sleep: arrivals equal deliveries plus queued plus losses reported plus losses to be reported; the messages handed out are, in order and whole, the oldest of what was queued and what came and fitted; the count is theirs on every return path, close and loss included, except on a device closed from the start; a short read took all there was and waited its time out |
| Accounting.SurvivorsArrived | src/op_device.c:102-131 | what came over a whole read and fitted when it came is a subsequence of what came |
| Accounting.ClosedReadKeepsCount | src/op_j2534.c:421-425 | on a device already closed the caller's count keeps its value though nothing was read |
| Accounting.DriverQueueHolds | src/op_device.h:24-29 | the 1 MiB queue keeps 29127 unread raw CAN frames or 252 of the largest messages |
| Accounting.Receiver.TakeDropped | src/op_device.c:748-757 | losses are reported once, and not while the device is closed |
| UsbReceive.Engine.RingPut | src/op_usb.c:277-290 | a completed read goes behind the waiting bytes or is dropped whole and counted |
| UsbReceive.Engine.RingGet | src/op_usb.c:292-302 | the oldest waiting bytes, in order, across the end of the ring |
| UsbReceive.Engine.RxDone | src/op_usb.c:324-353 | `rx_flying` equals the number of flying slots after every callback, and what the callback does to the engine |
| UsbReceive.Engine.RxStart | src/op_usb.c:391-395 | posts slot after slot until one fails, and reports the error |
| UsbReceive.Engine.BeginStop | src/op_usb.c:408-409 | the flag is set and nothing else changes |
| UsbReceive.StoppedPostsNothing | src/op_usb.c:324-353 | from then on a callback leaves its slot down, whatever it reports |
| UsbReceive.StoppedEngineEmpties | src/op_usb.c:408-417 | so over any callbacks exactly the slots that have not called back still fly, and none once all have |
| UsbReceive.Engine.UsbRead | src/op_usb.c:429-466 | a read of no bytes is refused; any other sleeps only while there is neither data nor error, over any callbacks in between, then takes bytes first, else the error, and reposts every slot not flying when it can be recovered from |
| UsbReceive.ErrorIsReportedOnce | src/op_usb.c:446-456 | bytes first; then an error is reported by one read, NO_DEVICE for good, any other cleared by the report, with every slot posted again until one fails, whose failure is the next error |
| UsbReceive.LossIsReported | src/op_usb.c:324-353 | after a callback found the device gone, over any run, a read that finds no bytes reports NO_DEVICE |
| UsbReceive.Engine.FreeTransfers | src/op_usb.c:418-426 | no slot is freed in flight, and all are freed when none is |
| UsbReceive.PostingReachesAll | src/op_usb.c:391-395 | a posting loop that ends without an error has every slot flying |
| UsbReceive.StepKeepsInv | src/op_usb.c:324-466 | every callback, read and stop keeps the invariant, and NO_DEVICE is sticky |
| UsbReceive.PostedReads | src/op_usb.c:372-466 | over every run from a successful start: while not stopping and without error, the slots that do not fly are exactly those cancelled before a stop and not posted since, so all fly when none was; the bytes read and waiting are, in order, the run's completed transfers that fitted when they came; once NO_DEVICE, always |
| UsbReceive.DriverRingHolds | src/op_usb.c:71-73 | the 1 MiB ring takes 4096 completed reads, the posted ones sixteen times over, before it loses one |
| Tp20.ModuleState.HandleFrame | tests/sim/openport_sim.py:705-750 | setup, parameters, disconnect, data, acknowledgements, the reply and the request that raises, in place, as the function of the round trip has them |
| Tp20.SetupOpens | tests/sim/openport_sim.py:713-725 | a setup opens a fresh channel and its reply parses to the ids the module uses |
| Tp20.Tester.Request | tools/car/car_capture.py:1094-1150 | refused unsent by the service guard; otherwise the channel test when idle, the frames sent, the outcome of exactly the frames that came before the deadline, the acknowledgements and channel-test answers given meanwhile, the frame counter and the closed channel |
| Tp20.Tester.Receive | tools/car/car_capture.py:1108-1150 | the receive loop: it looks again exactly while there is no answer and the timeout has not passed since the request or the last responsePending |
| Tp20.RequestRoundTrip | tests/sim/openport_sim.py:690-750 | every non-empty request is dispatched by the module exactly once, whole, acknowledged with the number due next, and answered in the same form |
| Tp20.MessageAcked | tools/car/car_capture.py:1137-1139 | the tester acknowledges a message once, after its last frame, with the number due next |
| Tp20.RequestIsAnswered | tools/car/car_capture.py:1101-1150 | both ends together: the tester's frames, the module, and what it puts on the bus make the request return exactly the module's response of 1 to 32767 bytes |
| Tp20.AnswerRoundTrip | tools/car/car_capture.py:1101-1150 | any number of responsePending messages, then an answer of 1 to 32767 bytes, with other frames in between: exactly the answer is returned |
| Tp20.NoiseIsIgnored | tools/car/car_capture.py:1112-1126 | other ids' frames, acknowledgements and channel tests change nothing |
| Tp20.AnswerSizeLimit | tools/car/car_capture.py:1128-1148 | a message comes back whole iff it is at most 32767 bytes and no negative answer of code 0x78; one of any other code is returned |

## Left out

- Matching.NoForeignReplies: holds for verbs other than `y` and `w` (above), for replies not held back while 2^32-256 further commands are numbered (Matching.OutOfWindowIsAccepted), and for a cable whose text replies end in their command's number or in a token below 256.
- Stream.ReadBoundaryIndependence: well-formed streams only; after junk the claim is false (Stream.NoiseMakesBoundariesMatter).
- Sender.CanMessageRoundTrip: a message in one frame needs an idle channel (Reassembly.UnannouncedIff); the measured framing with the id in every chunk; the simulator's other framings and chunkings are not modelled.
- KLine.KlineRoundTrip: the asymmetric layout, as the simulator has it for channels 3 and 4; its "uniform" layout is one the driver does not read back.
- Channels.Absorb: RxStatus is the five bits this driver sets; TxFlags is always 0, as in the source.
- Queue.HeaderFields: the ring stores the six fields in the host's byte order; the model fixes one order, and nothing depends on which.
- Queue.Channel.QueuePush: loss and message counters are unbounded where the C ones are `unsigned`.
- Queue.Channel.AbsorbFrame: the message in progress is a value field rather than a buffer written byte by byte.
- Accounting.Receiver.ReadMsgs: one receiver on the channel, and no flush, opening or closing of it, during the read (Device.Session.Pop allows them); the device is not closed between the last pop and the loss counter.
- Slots.ReplySlot.Collect: the bytes of a collected init reply are a value; the source copies them out after it has released the lock, and another thread's command at that moment is not modelled.
- Teardown.SafeTeardown: a critical section under `lock` is one step, the device is synchronised, nobody reopens it meanwhile, and thread creation is not modelled.
- Teardown.CloseCompletes: wakes and timeouts are steps that may or may not be taken; nothing is said about how long they take.
- Sessions.SessionInvariants: calls are sequential, as the driver requires.
- Sessions.Session.PassThruConnect: SNIFF_MODE is only logged, and the flags otherwise only sent.
- Cables.HostAndCableAgree: ids that fit 32 bits (Cables.StartKeepsAgreementIff); `ata` and `atz` are not calls of a session.
- Cables.OpenPortSim.CmdOpen: configuration and filters of a channel are not kept.
- Cables.OpenPortSim.CmdPeriodicVendor: the bytes of the message and the thread that repeats it are not modelled.
- Splitter.ParseInt: an optional sign and ASCII digits; Python also takes underscores and surrounding space, which the driver never prints.
- UsbReceive.PostedReads: libusb is the results of its calls and the callbacks it makes; allocation failures in `rx_start` come before the states modelled.
- Tp20.Tester.Request: the channel test's answer is taken off the bus before the frames that are the input, and what else comes in that half second is dropped with it; which services the guard allows is a parameter; the tester's side of channel setup is not modelled.
- Tp20.ModuleState.HandleFrame: only channel 5 is modelled.
- op_serial.c, interface discovery and opening of the USB device, termios and IOKit: foreign calls.
- Logging, last-error text, call recording and version text.
- Deadlines in wall-clock time.
- GET_CONFIG and SET_CONFIG lists, pin reads, message filters, and null parameters of the other entry points: each is settled by one branch.
- PassThruOpen, PassThruClose and PassThruWriteMsgs, and the synchronisation that follows an open.
- The simulator's fault injection, timers, ECU models and pty handling.
- The comparison, Wine and USB-tap tools, the examples and the fuzz driver.
