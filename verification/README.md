# A verified model of the workspace's protocol engines

The workspace drives a Passport Prime from a desk: a FIDO and a PIV client, a log follower, a backend that
bridges QL2 records over a framed TCP link through a relay, and an MCP server that puts a language model behind
the chat. Between the I/O sit a handful of hand-written protocol engines. This project models those engines in
Dafny and proves what they keep over every input and every run.

- **CTAPHID** (`CtapHid`, `CtapHidProofs`): cutting a message into 64-byte reports and putting a reply together,
  as loops against a device that answers, fails or falls silent in any way. A message comes back exactly when it
  is at most 7609 bytes and its command is neither KEEPALIVE nor ERROR; conversely whatever full reports the
  reader makes a reply of are, up to channel bytes and padding, the reports `fragment` makes of that reply.
- **The U2F chain** (`U2f`): request and response formats, each read back exactly, the poll for user presence,
  and that the key handle of any accepted registration travels whole in the authenticate request.
- **The log follower** (`Logs`): three nested loops with timeouts, reconnects, a filter and a limit, proved equal
  to splitting the concatenated Log payloads at each terminator; the way frames are cut into reads does not matter.
- **BER-TLV, PIV commands and GET RESPONSE chaining** (`Tlv`, `Piv`): what the reader accepts on arbitrary bytes,
  list round trips, the builders read back, and that `transmit` succeeds on exactly the well-formed chains.
- **Bytes on the wire** (`WireFormats`): every request, prefix, length, counter and status word, byte by byte.
- **Length-prefixed frames** (`Framing`, `Relay`, `StateFile`): both writers and both readers, and the byte stream
  through the relay as a state machine in which TCP may cut the bytes anywhere. Over any codec that puts a record
  together from its chunks, the records read are always the first of those sent. The saved state uses the same prefix.
- **The MCP server** (`McpState`, `McpProtocol`, `McpCorrelation`, `McpProgress`, `McpCleanup`, `McpRecords`, `McpSessions`,
  `McpAutoReply`, `McpTasks`):
  the shared tables as a class, and the server as a state machine whose steps are what one task does between two
  awaits or two locks. Over every run: ids are fresh, waiters are neither leaked nor revived, replies are neither
  lost nor crossed, streams are in order, and the auto-reply loop answers every chat once and never feeds on itself. A call can always go on, except
  where it waits for room on the stream of a client that does not read.

## How the model reads the code

- Code that loops is a method with the same loop, proved against a function of its inputs; the lemmas are about that
  function. Objects that change in place (`McpState`, the transport, the devices at the far end) are classes.
  The device, card, socket and bulk endpoint are arbitrary lists of what they will answer.
- Casts to `u8`, `u16` and `u32` are written out as remainders. Arithmetic that can overflow is modelled as in a
  checked build, where it panics; panics are outcomes. `CtapHid.Fragments` also describes the reports an unchecked
  build writes past the overflow.
- UTF-8 decoding, DER, curve points and the BTP chunk codec are parameters: any function will do.
- `sample` is interrupted by other tasks at every await and lock, so it is not one method but the steps of the machine.
  The methods of the class `McpState` are those steps on the shared fields: their contracts name the same functions
  (`WithMinted`, `WithWaiter`, `AfterPost`, ...) that the machine's steps apply.
- A step of the MCP machine is enabled only where its tokio task could take it. A client reads its stream, or closes it,
  only once the handler has returned the stream, which is after it has subscribed to the broadcast.
- A POST is one step, although the handler takes the lock on the sessions and then the one on the waiters. Sessions are never
  removed (`McpCleanup.SessionsOnlyGrow`), so what the first lock showed still holds at the second.

## Where the code and its description differ

Each of these has a run or an input that shows it, and the exact condition under which the description holds.

- `backend/src/mcp.rs:556-565` says that a session's entry is removed when its stream ends. The closure is mapped over an
  empty iterator and never runs. `McpCleanup.ClosedSessionStays` is a run that leaves an entry behind;
  `McpCleanup.SessionsOnlyGrow` shows that the table always holds every session opened, so that the entries of ended streams
  are gone exactly if no stream has ended. A POST to a closed session is accepted, and its reply still wakes a call
  (`McpCleanup.UnknownExactly`, `McpCleanup.WakesFromAnySession`).
- `backend/src/mcp.rs:284-285` speaks of a 60 s timeout. It covers the wait for the reply at line 348, not the send at
  lines 333-340. `McpProgress.SomeCallIsBlocked` is a run that blocks a call there, `McpProgress.BlockedExactly` says which calls
  can go on, and `McpProgress.StaysBlocked` that nothing but the client's reading or going frees one.
- `backend/src/mcp.rs:358` takes any `error` member for a failure, `null` included, even beside a result:
  `McpCorrelation.NullErrorFails` and `McpCorrelation.AnsweredOkExactly`.
- `fl/src/logs.rs:31-33` promises to stop after `--limit` records, and lines 107-110 check after printing, so `--limit 0`
  prints one line: `Logs.LimitZeroPrintsOne` and `Logs.LimitKept`.
- `fl/src/piv.rs:166` says that `unwrap_tlv` takes one TLV spanning the whole buffer. The code ignores what follows the TLV:
  `Tlv.TrailingByteIgnored`, `Tlv.UnwrapExactly` and `Tlv.SpansExactly`.
- `fl/src/piv.rs:88-92` writes a tag's length as one byte, so lengths 0x81 and 0x82 would be taken for long forms:
  `Piv.GetDataReadBack`. The tags in use are three bytes long.
- `fl/src/fido.rs:187-193` checks a report for five bytes and then reads bytes five and six: `CtapHidProofs.PanicsExactly`.
- `fl/src/fido.rs:181-216` compares no channel id, and reads a continuation numbered 0 with no init report before it as an
  empty reply to command 0: `CtapHidProofs.ChannelIgnored`, `CtapHidProofs.AnotherChannelAnswers`,
  `CtapHidProofs.LoneContinuation` and `CtapHidProofs.ReplyIsCanonical`.

## Model

| member | source | states |
|---|---|---|
| CtapHid.Fragment | fl/src/fido.rs:219-243 | the loop over report buffers produces exactly the reports of the specification, and its sequence number overflows just when the payload exceeds 57 + 255*59 bytes |
| CtapHid.Continue | fl/src/fido.rs:229-240 | the continuation loop emits one report for each further 59 bytes, numbered in order |
| CtapHid.WriteReport | fl/src/fido.rs:221-226 | filling a zeroed buffer piece by piece leaves header, data and zero padding |
| CtapHid.Exchange | fl/src/fido.rs:168-217 | outcome, packets left unread, reports written and writes left of one transaction, including a write that fails part-way |
| CtapHid.ReadReply | fl/src/fido.rs:176-217 | the reading loop returns what the reader specification says of the packets and leaves the rest unread |
| CtapHidProofs.FragmentArithmetic | fl/src/fido.rs:219-243 | report count 1 + ceil(max(0, n-57)/59), numbers 0, 1, 2, ..., and the data areas end to end are the payload |
| CtapHidProofs.FragmentBytes | fl/src/fido.rs:219-243 | every byte of every report: the channel most significant byte first, command or number, length, payload, and zeros |
| CtapHidProofs.OnlyTheFirstIsInit | fl/src/fido.rs:229-240 | the first report is an init report, and no continuation has bit 7 set if and only if the payload has at most 7609 bytes |
| CtapHidProofs.MessageRead | fl/src/fido.rs:181-216 | from any reader state a complete message is read to exactly its payload |
| CtapHidProofs.KeepAlivesSkipped | fl/src/fido.rs:209-213 | any number of complete KEEPALIVE messages leaves nothing but the finished state of the last of them |
| CtapHidProofs.RoundTrip | fl/src/fido.rs:168-243 | KEEPALIVE messages and then a reply are read to exactly that command and payload, and no further packet is consumed |
| CtapHidProofs.RoundTripExactly | fl/src/fido.rs:181-243 | a message comes back unchanged if and only if its command is below 0x80, neither KEEPALIVE nor ERROR, and it has at most 7609 bytes |
| CtapHidProofs.ErrorReported | fl/src/fido.rs:212 | an ERROR message ends the transaction with the device's own bytes |
| CtapHidProofs.ReaderSafety | fl/src/fido.rs:177-207 | after any packets whatever: collected plus remaining is the announced total, the expected number counts the continuations and is at most 128 |
| CtapHidProofs.ReceiveContinues | fl/src/fido.rs:181-216 | the loop's state after a run decides everything it does afterwards |
| CtapHidProofs.ReceiveEnds | fl/src/fido.rs:181-216 | the loop either outlives its packets and times out or stops at one of them, leaving those behind it |
| CtapHidProofs.StopIsFinal | fl/src/fido.rs:181-216 | where the loop can stop is unique and decides its outcome |
| CtapHidProofs.ReplyIsBounded | fl/src/fido.rs:181-216 | no reply is longer than 7609 bytes, and none is a KEEPALIVE or ERROR |
| CtapHidProofs.PanicsExactly | fl/src/fido.rs:187-207 | the loop panics if and only if it comes to an init report of five or six bytes, and never by overflow |
| CtapHidProofs.FailuresExactly | fl/src/fido.rs:182-207 | a transaction fails to read if and only if it comes to an error, to nothing, to fewer than five bytes or to a continuation out of order, with that failure |
| CtapHidProofs.WriteFailsExactly | fl/src/fido.rs:169-174 | a transaction fails to write if and only if the device takes too few reports; then it has read nothing, and it wrote the first reports behind report id 0 |
| CtapHidProofs.OverflowsExactly | fl/src/fido.rs:229-240 | a transaction overflows the sequence number if and only if its request has more than 15102 bytes, and then writes and reads nothing |
| CtapHidProofs.RunCarries | fl/src/fido.rs:191-207 | while a message is unfinished, the full reports since the last init carry the collected bytes between them |
| CtapHidProofs.ReplyIsCanonical | fl/src/fido.rs:181-243 | the converse: the reports a reply was read from agree with `fragment` of it up to channel bytes and padding, or it is the empty reply to a lone continuation 0 |
| CtapHidProofs.LoneContinuation | fl/src/fido.rs:198-213 | a continuation numbered 0 read first is taken for the empty reply to command 0 |
| CtapHidProofs.ChannelIgnored | fl/src/fido.rs:181-216 | from any state, packets that differ in their first four bytes only give the same outcome and leave as much unread |
| CtapHidProofs.AnotherChannelAnswers | fl/src/fido.rs:168-217 | a request on one channel takes a message on any other for its reply |
| U2f.BuildApdu | fl/src/fido.rs:91-97 | the vector built is the extended-length command |
| U2f.ApduReadBack | fl/src/fido.rs:90-97 | a reader that trusts the length field gets the command back if and only if its data is shorter than 65536 bytes |
| U2f.BuildAuthenticate | fl/src/fido.rs:67-72 | the request as `run` puts it together |
| U2f.AuthenticateDataReadBack | fl/src/fido.rs:68-71 | challenge, application and key handle are read back if and only if the handle has at most 255 bytes |
| U2f.RegistrationReadBack | fl/src/fido.rs:136-145 | exactly the responses a device can write for a valid key are accepted, and read as written |
| U2f.AuthenticationReadBack | fl/src/fido.rs:147-156 | exactly the responses with a non-empty valid signature are accepted, and read as written |
| U2f.ChainFits | fl/src/fido.rs:63-72 | for any accepted registration both length fields of the authenticate request are exact and the request survives being cut and put together |
| U2f.Once | fl/src/fido.rs:100-110 | one command: response and status word or the error, reports written, packets left |
| U2f.AwaitPresence | fl/src/fido.rs:123-134 | the polling loop: result, everything written and everything left unread |
| U2f.AnswerRead | fl/src/fido.rs:100-110 | a poll answered by KEEPALIVEs and a response reads that response and nothing behind it |
| U2f.PresenceDecides | fl/src/fido.rs:121-134 | 6985 answers before the deadline are waited out, one request each; the first other answer, or the first 6985 past the deadline, decides the result, provided the device takes the requests; nothing behind it is read |
| U2f.PresenceFails | fl/src/fido.rs:123-134 | after any number of waits a poll that fails ends the polling with that poll's error |
| U2f.ReplyTaken | fl/src/fido.rs:100-110 | a reply to another command is an error, one shorter than two bytes is too short, any other is split into response and big-endian status |
| U2f.NoReplyPassedOn | fl/src/fido.rs:101 | a transaction fails with its own outcome if and only if it had no reply |
| Logs.Position | fl/src/logs.rs:93 | the first terminator, or none |
| Logs.TrimEnd | fl/src/logs.rs:94-96 | the longest prefix that does not end in a line end |
| Logs.SplitIsComplete | fl/src/logs.rs:91-97 | splitting loses nothing: the stream is its terminated records and a terminator-free remainder |
| Logs.SplitIsUnique | fl/src/logs.rs:91-97 | and is the only such reading of the stream |
| Logs.SplitInParts | fl/src/logs.rs:92-97 | a stream may be split in two parts if the remainder of the first is kept for the second |
| Logs.FirstRecord | fl/src/logs.rs:93-97 | cutting the first record off the front leaves the records behind it |
| Logs.PrintLine | fl/src/logs.rs:98-112 | empty and filtered lines are dropped, others printed and counted against the limit |
| Logs.PrintRecords | fl/src/logs.rs:93-113 | the draining loop prints the lines of the buffered records up to the limit and keeps the terminator-free tail |
| Logs.EndFrame | fl/src/logs.rs:90-114 | a Log frame adds its payload to the stream, any other nothing |
| Logs.Follow | fl/src/logs.rs:68-116 | one connection prints the lines of its stream, and between frames `records` is exactly the stream's tail |
| Logs.Run | fl/src/logs.rs:39-118 | all connections: their outputs in order, each from an empty buffer, up to one shared limit |
| Logs.RecordsGrow | fl/src/logs.rs:72-115 | further reads only add records behind those completed before |
| Logs.CutIsFinal | fl/src/logs.rs:110-112 | once the limit is reached nothing later changes the output |
| Logs.LimitKept | fl/src/logs.rs:109-112 | no more lines are printed than the limit says if and only if it is at least 1 or there is nothing to print |
| Logs.LimitZeroPrintsOne | fl/src/logs.rs:109-112 | with limit 0 any record whose line is shown is printed |
| Logs.AssembledReads | fl/src/logs.rs:72-89 | every sequence of reads is the reads of its assembled frames and of the frame still open, with timeouts in between |
| Logs.SegmentationIndependence | fl/src/logs.rs:72-89 | reads deliver given frames, timeouts aside, if and only if those frames are assembled; the records then depend on the frames alone |
| Logs.OneConnection | fl/src/logs.rs:66-116 | the one-line specification: the Log payloads end to end, split, trimmed, filtered and cut |
| Logs.AllRecordsAppend | fl/src/logs.rs:46-117 | the records of attempts in a row are those of the first and then those of the others |
| Logs.Reconnects | fl/src/logs.rs:46-117 | over any reconnects, with failed attempts between and frames broken off, the records are those of each connection's whole frames, in order, and none spans two connections |
| Logs.AllConnections | fl/src/logs.rs:39-118 | so the output is the lines of those records under the one limit |
| Logs.StreamOfFrames | fl/src/logs.rs:90-92 | the stream is the payloads of the frames of type 1, in order |
| Logs.LinesOfOne | fl/src/logs.rs:94-107 | a record prints its text without trailing line ends if that is not empty and contains the filter, and nothing otherwise |
| Logs.CutExactly | fl/src/logs.rs:109-112 | what is printed is the first lines, as many as the limit, all of them without one, one if it is 0 |
| Tlv.ReadTlv | fl/src/piv.rs:188-197 | on arbitrary bytes value and remainder are together at least two shorter than the input |
| Tlv.ReadExactly | fl/src/piv.rs:187-197 | the reader takes bytes apart into tag, value and remainder if and only if one of the length forms puts them together |
| Tlv.FindTlv | fl/src/piv.rs:176-185 | on arbitrary bytes: a value found stands behind TLVs with other tags only, and nothing is found only if such TLVs go on to the end or to where the data breaks off |
| Tlv.FoundExactly | fl/src/piv.rs:175-185 | the search yields a value if and only if the data are TLVs with other tags, in any length forms, then one with this tag and value, then anything |
| Tlv.MissedExactly | fl/src/piv.rs:175-185 | it yields nothing if and only if TLVs with other tags go on to the end of the data or to bytes that are no TLV |
| Tlv.UnwrapExactly | fl/src/piv.rs:166-173 | the unwrapping succeeds if and only if the data begin with a TLV of that tag |
| Tlv.SpansExactly | fl/src/piv.rs:166-173 | what was unwrapped spans the buffer if and only if the reader left no remainder |
| Tlv.TrailingByteIgnored | fl/src/piv.rs:166-173 | a buffer with a byte behind the TLV is unwrapped all the same |
| Tlv.ReadPeels | fl/src/piv.rs:188-197 | `read_tlv` peels the head off any canonically encoded list and leaves the encoding of the tail |
| Tlv.FirstOfEncoded | fl/src/piv.rs:176-185 | the search of an encoded list gives the first value with the tag, or else what is found behind the list |
| Tlv.FindsNested | fl/src/piv.rs:167-185 | an item in a wrapper is found through it, whatever follows the wrapper |
| Piv.BuildApdu | fl/src/piv.rs:81-86 | the vector built is the short command |
| Piv.ApduReadBack | fl/src/piv.rs:80-86 | a card that trusts Lc gets the command back if and only if its data has at most 255 bytes |
| Piv.GetData | fl/src/piv.rs:88-92 | the vector built is GET DATA with the tag list |
| Piv.GetDataReadBack | fl/src/piv.rs:88-92 | the tag list is read back if and only if its length is below 256 and neither 0x81 nor 0x82, the command if and only if at most 253 |
| Piv.GeneralAuthenticate | fl/src/piv.rs:94-102 | the nested vector built is GENERAL AUTHENTICATE with the template |
| Piv.AuthIsEncoded | fl/src/piv.rs:94-101 | the hand-written template is the canonical encoding of a placeholder and the challenge |
| Piv.GeneralAuthenticateReadBack | fl/src/piv.rs:94-102 | challenge and placeholder are found again by this file's own reader |
| Piv.Transmit | fl/src/piv.rs:113-127 | result, commands sent and replies left of the chaining loop, for every card |
| Piv.ChainFollowed | fl/src/piv.rs:113-135 | a chain of 61xx words yields all bodies in order and the final word, after one GET RESPONSE each with the preceding word's low byte |
| Piv.OnlyChainsSucceed | fl/src/piv.rs:113-135 | any successful result is the end of such a chain |
| Piv.ChainBroken | fl/src/piv.rs:117-131 | a chain that breaks off fails with the card's error or for a short reply, whatever came before, and sends no more |
| Framing.FirstFrameExactly | backend/src/lib.rs:731-742 | a frame is taken off a byte stream if and only if it was put there with a length below 2^32 |
| Framing.FramesOfWire | backend/src/lib.rs:731-742 | frames come back as the chunks written, whatever follows them |
| Framing.FramesOfCut | backend/src/lib.rs:711-716 | a stream cut at any byte still holds exactly the chunks whose frames are whole, in order |
| Framing.SendChunks | v1-client/src/transport.rs:25-29 | the write loop puts the frames on the wire in order, up to where the link breaks |
| Framing.BridgeTx | backend/src/lib.rs:706-726 | all records' frames in order, up to where the link breaks |
| Framing.BridgeRx | backend/src/lib.rs:728-772 | the records of all whole frames, in order, up to where the runtime stops taking them, and what is left of the stream then |
| Framing.Transport.SendEnvelope | v1-client/src/transport.rs:24-31 | one envelope's frames, and whether all were written |
| Framing.Transport.RecvEnvelope | v1-client/src/transport.rs:34-53 | the next envelope, the dechunker after it and the bytes left, or the end of the connection |
| Framing.ReadersAgree | v1-client/src/transport.rs:34-53 | repeated calls of the synchronous reader yield exactly what the asynchronous one does |
| Framing.BadFramesAreDropped | backend/src/lib.rs:744-751 | a payload that fails to decode costs only its own frame |
| Framing.UnreadIsRest | backend/src/lib.rs:761-769 | when the runtime stops taking records the asynchronous reader leaves what the synchronous one leaves after as many calls and one more |
| Framing.RoomForAll | backend/src/lib.rs:728-772 | with room for every record it leaves nothing |
| Framing.RecordsBack | backend/src/lib.rs:711-761 | over a codec that puts each record together from its chunks, the chunks of any records yield those records |
| Framing.CutRecords | backend/src/lib.rs:711-761 | a link that breaks after any byte yields the first of the records sent, whole and in order |
| Relay.RunConserves | relay/src/lib.rs:61-66 | in every reachable state the bytes written are the frames delivered and the bytes in flight, in order |
| Relay.DeliveredInOrder | backend/src/lib.rs:706-742 | the chunks written are those delivered followed by the whole frames in flight, if and only if each is shorter than 2^32 |
| Relay.DrainedIsDelivered | backend/src/lib.rs:706-742 | once drained everything written has been delivered and no frame is half read |
| Relay.CanDeliver | relay/src/lib.rs:61-66 | from every reachable state the run can go on until every chunk begun is delivered |
| Relay.RecordsDelivered | backend/src/lib.rs:706-768 | over such a codec, in every reachable state the records read are the first of those sent, and once drained all of them |
| StateFile.SaveState | backend/src/lib.rs:562-570 | the buffer written is the length-prefixed identity and the bundle |
| StateFile.LoadsWhatWasSaved | backend/src/lib.rs:559-587 | a file loads as a pair if and only if it was saved from that pair and the identity's length fits the prefix |
| WireFormats.U2fRequest | fl/src/fido.rs:91-97 | the bytes of an extended-length command |
| WireFormats.AuthenticateRequest | fl/src/fido.rs:67-72 | the bytes of the authenticate command for any key handle of at most 255 bytes |
| WireFormats.RegistrationRead | fl/src/fido.rs:136-145 | which registrations are accepted, and where key and key handle stand |
| WireFormats.AuthenticationRead | fl/src/fido.rs:147-156 | where presence, counter and signature stand, the counter most significant byte first |
| WireFormats.GetDataRequest | fl/src/piv.rs:88-92 | the bytes of GET DATA |
| WireFormats.GeneralAuthenticateRequest | fl/src/piv.rs:94-102 | the bytes of GENERAL AUTHENTICATE |
| WireFormats.CommandsSent | fl/src/piv.rs:113-127 | on any card the first command is the one given, and each further one is `00 C0 00 00 xx` with xx the last byte of a reply ending in 61 xx; it stops at the first reply that does not |
| WireFormats.StatusRead | fl/src/piv.rs:129-135 | body and status word of a reply, most significant byte first |
| WireFormats.LengthForms | fl/src/piv.rs:190-194 | how the three length forms are read |
| WireFormats.FrameOnTheWire | backend/src/lib.rs:712 | the four bytes of a frame's prefix, most significant first |
| WireFormats.PrefixRead | v1-client/src/transport.rs:38 | and how a reader takes them |
| WireFormats.SavedOnDisk | backend/src/lib.rs:566-568 | the bytes of the saved state |
| McpState.SnapshotIsCoherent | backend/src/lib.rs:951-962 | after any status events the snapshot says connected if and only if its status is Connected or Initiator |
| McpState.McpState.constructor | backend/src/mcp.rs:253-264 | empty tables, first id 1, nothing recorded |
| McpState.McpState.RecordChat | backend/src/mcp.rs:267-276 | the history becomes the last 512 of itself and the new entry |
| McpState.McpState.Record | backend/src/mcp.rs:442-471 | one event more leaves history and snapshot agreeing with the whole event log |
| McpState.McpState.RunRecorder | backend/src/mcp.rs:439-473 | after any events the history is the last min(512, k) chat entries in order and direction, the snapshot the last status |
| McpState.McpState.ChatHistory | backend/src/mcp.rs:834-847 | the last min(limit, 512, k) entries of the whole conversation, the limit defaulting to 50 |
| McpState.LastOfMore | backend/src/mcp.rs:267-276 | trimming after each entry is trimming the whole |
| McpState.LastOfLast | backend/src/mcp.rs:834-844 | the tail of the kept tail is a tail of the whole |
| McpState.LastExactly | backend/src/mcp.rs:842-844 | the last n entries are the end of the sequence, n of them or all |
| McpState.ChatsAppend | backend/src/mcp.rs:442-453 | the history is recorded event by event, in order |
| McpState.ChatsOfOne | backend/src/mcp.rs:443-453 | a received chat is recorded as from the device, a pushed one as to the device, with its text, anything else not |
| McpState.StatusStays | backend/src/mcp.rs:456-465 | the snapshot is the last status event, all three fields |
| McpState.NoStatusYet | backend/src/mcp.rs:232-237 | and the default until there is one |
| McpState.McpState.MintId | backend/src/mcp.rs:306 | a fresh id, and the counter past it |
| McpState.McpState.InsertWaiter | backend/src/mcp.rs:307-308 | the waiter under its id, the rest of the tables as before |
| McpState.McpState.RemoveWaiter | backend/src/mcp.rs:342 | the waiter taken out, the rest as before |
| McpState.McpState.InsertSession | backend/src/mcp.rs:521-525 | the session is routable, the rest as before |
| McpState.McpState.SetPrimary | backend/src/mcp.rs:529 | the session is primary, the rest as before |
| McpState.McpState.HandlePost | backend/src/mcp.rs:604-661 | how a body is routed, which waiter it wakes, and the tables after it |
| McpProtocol.StepTables | backend/src/mcp.rs:290-661 | performing any enabled step with these methods on the shared fields leaves exactly the tables of the machine after that step |
| McpCorrelation.StepKeeps | backend/src/mcp.rs:290-369 | every step of every task keeps the invariant on ids, waiters, replies and results |
| McpCorrelation.RunKeeps | backend/src/mcp.rs:290-369 | so every run does |
| McpCorrelation.NeverDropped | backend/src/mcp.rs:354 | a waiting call's sender is in the table, so "response channel closed" cannot happen |
| McpCorrelation.NoLeak | backend/src/mcp.rs:304-354 | in every reachable state the keys of `pending` are exactly the ids of calls that inserted a waiter and still wait; once all calls are done it is empty |
| McpCorrelation.IdsAndRepliesAreDistinct | backend/src/mcp.rs:306-308 | ids are below the counter and not shared, and no reply body is in two oneshots |
| McpCorrelation.RunIsLater | backend/src/mcp.rs:304-354 | however a run goes on, prompts, ids, replies and results stay, and no call holds a waiter again |
| McpCorrelation.NeverReenters | backend/src/mcp.rs:306-354 | an id that has left `pending` never comes back |
| McpCorrelation.AnswersAreFinal | backend/src/mcp.rs:648-651 | no call gets a second body, and a result never changes |
| McpCorrelation.OkMeansAnswered | backend/src/mcp.rs:358-369 | `Ok(t)` only if a body POSTed with that very id carried `t` at `result.content.text` and no `error` |
| McpCorrelation.RunBacks | backend/src/mcp.rs:306-340 | a request on any stream is that of a call that has inserted its waiter under the request's id |
| McpCorrelation.PostAnswers | backend/src/mcp.rs:648-651 | a reply POSTed while its call waits goes to that call and takes the waiter out, touching no other |
| McpCorrelation.ReplyFindsItsWaiter | backend/src/mcp.rs:304-354 | a reply to a request the client could see reaches its call, unless that call was answered or timed out before |
| McpCorrelation.AnsweredCallReturnsReply | backend/src/mcp.rs:348-369 | however the run goes on, a call that has its reply waits or has returned what the reply says |
| McpCorrelation.AnsweredOkExactly | backend/src/mcp.rs:356-369 | once done, it has returned `Ok(t)` if and only if its reply has no `error` member and carries `t` |
| McpCorrelation.OkExactly | backend/src/mcp.rs:356-369 | which replies are `Ok`, which are the client's error and which are of unexpected shape |
| McpCorrelation.NullErrorFails | backend/src/mcp.rs:356-360 | a reply that carries its text beside a null `error` is a failure |
| McpProgress.RunKeepsRange | backend/src/mcp.rs:511-529 | in every run tables, calls and requests name existing sessions, those of calls have been primary, and no channel holds more than 64 events unread |
| McpProgress.BlockedExactly | backend/src/mcp.rs:330-345 | an unfinished call has a step of its own to take if and only if it is not waiting for room on an open, full stream |
| McpProgress.UnblocksExactly | backend/src/mcp.rs:330-345 | a step leaves a blocked call blocked if and only if it is not its client's reading or going |
| McpProgress.StaysBlocked | backend/src/mcp.rs:330-354 | over any continuation in which the client neither reads nor goes the call stays blocked, its waiter in the table unless it is answered unasked |
| McpProgress.SomeCallIsBlocked | backend/src/mcp.rs:330-345 | a client that reads nothing while 63 requests are answered blocks a call |
| McpProgress.CanFinish | backend/src/mcp.rs:290-369 | from every reachable state any call can finish within seven steps, without another call beginning |
| McpProgress.TableCanEmpty | backend/src/mcp.rs:304-354 | from every reachable state the run can go on until no waiter is left |
| McpProgress.SomeCallIsAnswered | backend/src/mcp.rs:290-369 | the run in which a client connects, is asked and replies is one of the machine's and ends in `Ok` |
| McpCleanup.SessionsOnlyGrow | backend/src/mcp.rs:556-565 | in every reachable state the table holds every session opened and a session is closed exactly if its client went; so ended streams have no entries if and only if no stream has ended |
| McpCleanup.ClosedSessionStays | backend/src/mcp.rs:556-565 | the run in which a client connects and goes leaves its entry in the table |
| McpCleanup.UnknownExactly | backend/src/mcp.rs:611-620 | a POST is turned away if and only if its session was never opened |
| McpCleanup.WakesFromAnySession | backend/src/mcp.rs:648-651 | a reply wakes the call whose id it names if and only if it is POSTed to any session ever opened, closed ones included |
| McpSessions.RunKeepsChannels | backend/src/mcp.rs:507-554 | every run keeps the stream invariant of every session |
| McpSessions.StreamsInOrder | backend/src/mcp.rs:510-554 | each stream begins with its own `endpoint` event and has no other, and its notifications are the broadcast from its subscription on, in order and without gaps |
| McpRecords.PostsRecorded | backend/src/mcp.rs:609-654 | the server's requests are exactly the bodies with a string `method` POSTed to open sessions, in order, with session and id as POSTed; its replies the bodies without `method` and with an integer id |
| McpRecords.OneResponseEach | backend/src/mcp.rs:636-647 | each request gets at most one response on all streams together, on the session it was POSTed to and with the id of the POSTed body |
| McpRecords.RequestsShow | backend/src/mcp.rs:636-647 | a request that is done with has its response on its session's stream, unless that was closed |
| McpRecords.AsksLatest | backend/src/mcp.rs:297-302 | a call asks the session that was registered as primary last, for good, and fails at once if there was none |
| McpRecords.IdsCount | backend/src/mcp.rs:306 | the counter is one past the number of ids minted |
| McpRecords.MintsNext | backend/src/mcp.rs:306 | a call's id is its number among the calls that minted, and stays |
| McpRecords.CallsShow | backend/src/mcp.rs:330-345 | a call that waits or waited for a reply has its request on its session's stream; one that ended as closed found it closed |
| McpRecords.RequestsSentOnce | backend/src/mcp.rs:330-340 | no call's request is on a stream twice or on another session's |
| McpRecords.LogCounts | backend/src/mcp.rs:422-424 | the broadcast is as long as what was published and pushed |
| McpRecords.PublishedStays | backend/src/mcp.rs:422-424 | an event published stands where the log ended then |
| McpRecords.SubscribedAt | backend/src/mcp.rs:533-554 | a session's notifications begin where the log ended at its subscription, and its forwarder runs until it stops |
| McpAutoReply.RunKeepsLoop | backend/src/mcp.rs:386-433 | every run keeps the loop's invariant |
| McpAutoReply.PushesAnswerChats | backend/src/mcp.rs:395-433 | the loop's pushes go in order to distinct chats from the device, one at most each, and push what the model answered to that chat's text |
| McpAutoReply.EveryChatIsDealtWith | backend/src/mcp.rs:395-433 | while the loop runs, the model was asked about every chat from the device since the subscription, in its own words, each call is done, and its answer was pushed unless the push failed |
| McpAutoReply.SomeChatIsAnswered | backend/src/mcp.rs:386-433 | the run in which a chat is received, asked about, answered and pushed is one of the machine's |
| McpTasks.RequestGoesOn | backend/src/mcp.rs:636-647 | an unfinished request can be answered or given up if and only if its stream is not full, and given up if and only if it is closed |
| McpTasks.ForwarderGoesOn | backend/src/mcp.rs:535-554 | a running forwarder can go on if and only if it has something to forward and, once it holds an event, room |
| McpTasks.ForwarderStops | backend/src/mcp.rs:536-552 | it stops only on a closed stream or more than 256 events behind |
| McpTasks.LoopGoesOn | backend/src/mcp.rs:386-433 | the auto-reply loop can go on if and only if it has an event to take or a call that is done |
| McpTasks.LoopStops | backend/src/mcp.rs:395 | and stops only more than 256 events behind |
| McpTasks.LoopCallFinishes | backend/src/mcp.rs:403 | the call it waits for can always finish |

## Left out

- HID, PC/SC, USB, TCP, HTTP and SSE transport, clocks, sleeps and printing: replaced by arbitrary lists of reads, replies and steps.
- Cryptography, X.509, DER, curve points and SHA-256, and so the signature checks of both chains: only whether a key or signature parses enters, as a parameter.
- `run`, `run_sequence`, `ctaphid_init`, `u2f` and `expect_ok`: straight-line use of what is modelled.
- The QL2 handshake and session, the `ql-*` crates and BTP chunking: not part of this model; records, chunks and the codec are arbitrary.
- JSON text, UTF-8 and `to_json`: bodies are a datatype, `decode` is any function, a notification holds its event.
- `dispatch` and the tools other than `chat_history`: a request is answered or abandoned at some later step, with no content.
- The auto-reply loop is modelled with the `chat` feature on; without it the loop pushes nothing.
- Cancellation: no step drops a `sample` call half-way, as an aborted handler would.
- Session ids are the numbers of the sessions, so two are never equal, as version 4 UUIDs are taken to be.
- McpState.McpState.MintId: the counter is unbounded, so the wrap of an `i64` after 2^63 calls is not modelled.
- CtapHid.ReadReply: bytes of the read buffer beyond those a read filled are never looked at by the code and are not modelled.
- `fl/src/ccid_inspect.rs`, argument parsing, the echo, exchange-rate and benchmark handlers, `parse_invite` and the relay's accept loop: printing, parsing of one line, and plumbing.
