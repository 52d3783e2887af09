/** What CTAPHID fragmentation and reassembly promise together, over every payload and every run. */
module CtapHidProofs {
  import opened Bytes
  import opened Wrappers
  import opened CtapHid

  // ---------------------------------------------------------------- fragment

  lemma PackedBytes(cid: u32, kind: byte, body: seq<byte>)
    requires |body| <= CONT_DATA
    ensures Packed(cid, kind, body)[4] == kind
    ensures Packed(cid, kind, body)[CONT_HEADER..CONT_HEADER + |body|] == body
  {
    var content := Be32(cid) + [kind] + body;
    assert content[5..] == body;
  }

  lemma InitReportBytes(cid: u32, cmd: byte, payload: seq<byte>)
    ensures var r := InitReport(cid, cmd, payload); var n := Min(|payload|, INIT_DATA);
            r[4] == SetTopBit(cmd) && r[5..7] == Be16(|payload|) && r[INIT_HEADER..INIT_HEADER + n] == payload[..n]
  {
    var n := Min(|payload|, INIT_DATA);
    var body := Be16(|payload|) + payload[..n];
    PackedBytes(cid, SetTopBit(cmd), body);
    var r := InitReport(cid, cmd, payload);
    assert r[5..7] == r[5..5 + |body|][..2];
    assert r[7..7 + n] == r[5..5 + |body|][2..];
  }

  /** Where the data of report `i` of an `n`-byte message ends inside the report. */
  function DataEnd(n: nat, i: nat): (end: nat)
    requires i <= ContCount(n)
    ensures CONT_HEADER <= end <= REPORT_SIZE
  {
    if i == 0 then INIT_HEADER + Min(n, INIT_DATA)
    else CONT_HEADER + Min(n, Capacity(i)) - Capacity(i - 1)
  }

  /** The data area of report `i` of an `n`-byte message. */
  function Area(report: FullReport, n: nat, i: nat): seq<byte>
    requires i <= ContCount(n)
  {
    report[if i == 0 then INIT_HEADER else CONT_HEADER..DataEnd(n, i)]
  }

  /** The data areas of the first `count` reports of an `n`-byte message, end to end. */
  function Data(reports: seq<FullReport>, n: nat, count: nat): seq<byte>
    requires count <= |reports| == 1 + ContCount(n)
  {
    if count == 0 then [] else Data(reports, n, count - 1) + Area(reports[count - 1], n, count - 1)
  }

  /** How much of an `n`-byte payload the first `count` reports carry. */
  function Carried(n: nat, count: nat): (carried: nat)
    ensures carried <= n
  {
    if count == 0 then 0 else Min(n, Capacity(count - 1))
  }

  lemma {:induction false} DataIsPayload(reports: seq<FullReport>, payload: seq<byte>, count: nat)
    requires count <= |reports| == 1 + ContCount(|payload|)
    requires forall i :: 0 <= i < count ==>
               Area(reports[i], |payload|, i) == payload[Carried(|payload|, i)..Carried(|payload|, i + 1)]
    ensures Data(reports, |payload|, count) == payload[..Carried(|payload|, count)]
  {
    if count > 0 {
      DataIsPayload(reports, payload, count - 1);
      assert 0 <= count - 1 < count;
    }
  }

  lemma InitArea(cid: u32, cmd: byte, payload: seq<byte>)
    ensures Area(InitReport(cid, cmd, payload), |payload|, 0) == payload[..Carried(|payload|, 1)]
  {
    InitReportBytes(cid, cmd, payload);
  }

  lemma ContArea(cid: u32, payload: seq<byte>, i: nat)
    requires i < ContCount(|payload|)
    ensures ContReports(cid, payload)[i][4] == i % 256
    ensures Area(ContReports(cid, payload)[i], |payload|, i + 1) == payload[Capacity(i)..Carried(|payload|, i + 2)]
  {
    PackedBytes(cid, i % 256, Chunk(payload, i));
  }

  /** Report `i` carries its share of the payload, and continuations are numbered in order. */
  lemma ReportBytes(cid: u32, cmd: byte, payload: seq<byte>, i: nat)
    requires i <= ContCount(|payload|)
    ensures i > 0 ==> Fragments(cid, cmd, payload)[i][4] == (i - 1) % 256
    ensures Area(Fragments(cid, cmd, payload)[i], |payload|, i)
         == payload[Carried(|payload|, i)..Carried(|payload|, i + 1)]
  {
    if i == 0 {
      InitArea(cid, cmd, payload);
    } else {
      ContArea(cid, payload, i - 1);
    }
  }

  /**
   The arithmetic of `fragment`: how many reports there are, that they are numbered in order, and
   that their data areas together are the payload.
   */
  lemma FragmentArithmetic(cid: u32, cmd: byte, payload: seq<byte>)
    ensures var reports, n := Fragments(cid, cmd, payload), |payload|;
            && |reports| == 1 + (if n <= 57 then 0 else (n - 57 + 58) / 59)
            && reports[0][5..7] == Be16(n)
            && (forall i :: 1 <= i < |reports| ==> reports[i][4] == (i - 1) % 256)
            && Data(reports, n, |reports|) == payload
  {
    var reports := Fragments(cid, cmd, payload);
    InitReportBytes(cid, cmd, payload);
    forall i | 0 <= i < |reports|
      ensures i > 0 ==> reports[i][4] == (i - 1) % 256
      ensures Area(reports[i], |payload|, i) == payload[Carried(|payload|, i)..Carried(|payload|, i + 1)]
    {
      ReportBytes(cid, cmd, payload, i);
    }
    DataIsPayload(reports, payload, |reports|);
    assert Carried(|payload|, |reports|) == |payload|;
  }

  lemma PackedContent(cid: u32, kind: byte, body: seq<byte>, k: nat)
    requires |body| <= CONT_DATA && k < REPORT_SIZE
    ensures Packed(cid, kind, body)[k] ==
            if k < 4 then [cid / 0x100_0000 % 256, cid / 0x1_0000 % 256, cid / 256 % 256, cid % 256][k]
            else if k == 4 then kind
            else if k < 5 + |body| then body[k - 5]
            else 0
  {
    Be32Bytes(cid);
  }

  /** Byte `k` of report `i`, as the CTAPHID message and packet structure lays it out. */
  function ReportByte(cid: u32, cmd: byte, payload: seq<byte>, i: nat, k: nat): byte
    requires k < 64
  {
    var n := |payload|;
    if k < 4 then [cid / 0x100_0000 % 256, cid / 0x1_0000 % 256, cid / 256 % 256, cid % 256][k]
    else if i == 0 then
      if k == 4 then 0x80 + cmd % 0x80
      else if k == 5 then n / 256 % 256
      else if k == 6 then n % 256
      else if k - 7 < n then payload[k - 7]
      else 0
    else if k == 4 then (i - 1) % 256
    else
      var at := 57 + 59 * (i - 1) + k - 5;
      if at < n then payload[at] else 0
  }

  lemma InitReportByte(cid: u32, cmd: byte, payload: seq<byte>, k: nat)
    requires k < 64
    ensures InitReport(cid, cmd, payload)[k] == ReportByte(cid, cmd, payload, 0, k)
  {
    PackedContent(cid, SetTopBit(cmd), Be16(|payload|) + payload[..Min(|payload|, INIT_DATA)], k);
  }

  lemma ContReportByte(cid: u32, cmd: byte, payload: seq<byte>, i: nat, k: nat)
    requires i < ContCount(|payload|) && k < 64
    ensures ContReports(cid, payload)[i][k] == ReportByte(cid, cmd, payload, i + 1, k)
  {
    PackedContent(cid, i % 256, Chunk(payload, i), k);
  }

  /** Every byte of every report: the channel first, then command or number, length, data and zeros. */
  lemma FragmentBytes(cid: u32, cmd: byte, payload: seq<byte>)
    ensures forall r <- Fragments(cid, cmd, payload) ::
              r[..4] == [cid / 0x100_0000 % 256, cid / 0x1_0000 % 256, cid / 256 % 256, cid % 256]
    ensures forall i, k :: 0 <= i < |Fragments(cid, cmd, payload)| && 0 <= k < 64 ==>
              Fragments(cid, cmd, payload)[i][k] == ReportByte(cid, cmd, payload, i, k)
  {
    var reports := Fragments(cid, cmd, payload);
    forall i, k | 0 <= i < |reports| && 0 <= k < 64
      ensures reports[i][k] == ReportByte(cid, cmd, payload, i, k)
    {
      if i == 0 {
        InitReportByte(cid, cmd, payload, k);
      } else {
        ContReportByte(cid, cmd, payload, i - 1, k);
      }
    }
    forall r | r in reports
      ensures r[..4] == [cid / 0x100_0000 % 256, cid / 0x1_0000 % 256, cid / 256 % 256, cid % 256]
    {
      var i :| 0 <= i < |reports| && reports[i] == r;
      assert forall k :: 0 <= k < 4 ==> reports[i][k] == ReportByte(cid, cmd, payload, i, k);
    }
  }

  /** The init report stands apart from every continuation just when the payload is not too long. */
  lemma OnlyTheFirstIsInit(cid: u32, cmd: byte, payload: seq<byte>)
    ensures var reports := Fragments(cid, cmd, payload);
            IsInit(reports[0]) &&
            ((forall i :: 1 <= i < |reports| ==> !IsInit(reports[i])) <==> |payload| <= MAX_MESSAGE)
  {
    var reports := Fragments(cid, cmd, payload);
    InitReportBytes(cid, cmd, payload);
    forall i | 1 <= i < |reports|
      ensures reports[i][4] == (i - 1) % 256
    {
      ReportBytes(cid, cmd, payload, i);
    }
    if |payload| > MAX_MESSAGE {
      assert IsInit(reports[129]);
    }
  }

  // ---------------------------------------------------------------- round trip

  function AsPackets(reports: seq<FullReport>): seq<Read>
  {
    seq(|reports|, i requires 0 <= i < |reports| => Report(reports[i]))
  }

  /** The packets in which a device sends one message. */
  function Message(cid: u32, cmd: byte, payload: seq<byte>): seq<Read> {
    AsPackets(Fragments(cid, cmd, payload))
  }

  /** The reader's next steps once a message is complete in `st`. */
  function Finish(st: Reader, tail: seq<Read>): Received {
    match Settle(st)
    case Go(next) => Receive(next, tail)
    case Stop(outcome) => Received(outcome, tail)
  }

  /** The reader after the init report and `i` continuations of a message. */
  function Midway(cmd: byte, payload: seq<byte>, i: nat): Reader
    requires i <= ContCount(|payload|) && i < 256
  {
    var read := Min(|payload|, Capacity(i));
    Reader(payload[..read], |payload| - read, i, cmd)
  }

  lemma ContAccepted(st: Reader, cid: u32, number: nat, data: seq<byte>)
    requires number < 128 && st.expectedSeq == number && |data| == Min(CONT_DATA, st.remaining)
    ensures Accept(st, Report(ContReport(cid, number, data)))
         == Settle(Reader(st.acc + data, st.remaining - |data|, number + 1, st.responseCmd))
  {
    PackedBytes(cid, number % 256, data);
  }

  lemma InitAccepted(st: Reader, cid: u32, cmd: byte, payload: seq<byte>)
    requires |payload| < 0x1_0000
    ensures Accept(st, Report(InitReport(cid, cmd, payload))) == Settle(Midway(cmd % 0x80, payload, 0))
  {
    InitReportBytes(cid, cmd, payload);
    Be16RoundTrip(|payload|);
  }

  lemma MidwayStep(cid: u32, cmd: byte, payload: seq<byte>, i: nat)
    requires cmd < 0x80 && |payload| <= MAX_MESSAGE && i < ContCount(|payload|)
    ensures Accept(Midway(cmd, payload, i), Report(ContReports(cid, payload)[i]))
         == Settle(Midway(cmd, payload, i + 1))
  {
    var chunk := Chunk(payload, i);
    ContAccepted(Midway(cmd, payload, i), cid, i, chunk);
    assert payload[..Capacity(i)] + chunk == payload[..Min(|payload|, Capacity(i + 1))];
  }

  lemma Turn(st: Reader, read: Read, next: Reader, tail: seq<Read>)
    requires Accept(st, read) == Settle(next)
    ensures Receive(st, [read] + tail) == Finish(next, tail)
  {
    assert ([read] + tail)[1..] == tail;
  }

  lemma {:induction false} ContinuationsRead(conts: seq<Read>, cmd: byte, payload: seq<byte>, i: nat, tail: seq<Read>)
    requires |payload| <= MAX_MESSAGE && i <= |conts| == ContCount(|payload|)
    requires forall k :: 0 <= k < |conts| ==>
               Accept(Midway(cmd, payload, k), conts[k]) == Settle(Midway(cmd, payload, k + 1))
    ensures Finish(Midway(cmd, payload, i), conts[i..] + tail)
         == Finish(Midway(cmd, payload, |conts|), tail)
    decreases |conts| - i
  {
    if i < |conts| {
      var others := conts[i + 1..] + tail;
      assert conts[i..] + tail == [conts[i]] + others;
      Turn(Midway(cmd, payload, i), conts[i], Midway(cmd, payload, i + 1), others);
      ContinuationsRead(conts, cmd, payload, i + 1, tail);
    } else {
      assert conts[i..] + tail == tail;
    }
  }

  lemma FragmentPackets(cid: u32, cmd: byte, payload: seq<byte>)
    ensures Message(cid, cmd, payload)
         == [Report(InitReport(cid, cmd, payload))] + AsPackets(ContReports(cid, payload))
  {
  }

  /** Whatever the reader was doing, a complete message is read exactly. */
  lemma MessageRead(st: Reader, cid: u32, cmd: byte, payload: seq<byte>, tail: seq<Read>)
    requires |payload| <= MAX_MESSAGE
    ensures Receive(st, Message(cid, cmd, payload) + tail)
         == Finish(Reader(payload, 0, ContCount(|payload|), cmd % 0x80), tail)
  {
    var first, conts := Report(InitReport(cid, cmd, payload)), AsPackets(ContReports(cid, payload));
    FragmentPackets(cid, cmd, payload);
    assert [first] + conts + tail == [first] + (conts[0..] + tail);
    InitAccepted(st, cid, cmd, payload);
    Turn(st, first, Midway(cmd % 0x80, payload, 0), conts[0..] + tail);
    forall k | 0 <= k < |conts|
      ensures Accept(Midway(cmd % 0x80, payload, k), conts[k]) == Settle(Midway(cmd % 0x80, payload, k + 1))
    {
      MidwayStep(cid, cmd % 0x80, payload, k);
    }
    ContinuationsRead(conts, cmd % 0x80, payload, 0, tail);
    assert payload[..|payload|] == payload;
  }

  lemma FinishedReply(payload: seq<byte>, number: byte, cmd: byte, tail: seq<Read>)
    requires cmd < 0x80 && cmd != CTAPHID_KEEPALIVE && cmd != CTAPHID_ERROR
    ensures cmd % 0x80 == cmd
    ensures Finish(Reader(payload, 0, number, cmd), tail) == Received(Replied(cmd, payload), tail)
  {
  }

  lemma ReplyRead(st: Reader, cid: u32, cmd: byte, payload: seq<byte>, tail: seq<Read>)
    requires cmd < 0x80 && cmd != CTAPHID_KEEPALIVE && cmd != CTAPHID_ERROR
    requires |payload| <= MAX_MESSAGE
    ensures Receive(st, Message(cid, cmd, payload) + tail) == Received(Replied(cmd, payload), tail)
  {
    MessageRead(st, cid, cmd, payload, tail);
    FinishedReply(payload, ContCount(|payload|), cmd, tail);
  }

  datatype Wait = Wait(cid: u32, status: seq<byte>)

  /** A KEEPALIVE message that a device can send. */
  type KeepAlive = w: Wait | |w.status| <= MAX_MESSAGE witness Wait(0, [])

  /** The reports of some KEEPALIVE messages, and then `others`. */
  function AfterKeepAlives(waits: seq<KeepAlive>, others: seq<Read>): seq<Read> {
    if waits == [] then others
    else
      Message(waits[0].cid, CTAPHID_KEEPALIVE, waits[0].status) + AfterKeepAlives(waits[1..], others)
  }

  /** The reader once a KEEPALIVE message is complete. */
  function BetweenMessages(w: KeepAlive): Reader {
    Reader(w.status, 0, ContCount(|w.status|), CTAPHID_KEEPALIVE)
  }

  lemma OneKeepAliveSkipped(st: Reader, w: KeepAlive, others: seq<Read>)
    ensures Receive(st, Message(w.cid, CTAPHID_KEEPALIVE, w.status) + others) == Receive(BetweenMessages(w), others)
  {
    MessageRead(st, w.cid, CTAPHID_KEEPALIVE, w.status, others);
  }

  /** `read` goes past a KEEPALIVE message. */
  ghost predicate SkipsOne(read: (Reader, seq<Read>) -> Received) {
    forall st, w: KeepAlive, others {:trigger read(st, Message(w.cid, CTAPHID_KEEPALIVE, w.status) + others)} ::
      read(st, Message(w.cid, CTAPHID_KEEPALIVE, w.status) + others) == read(BetweenMessages(w), others)
  }

  lemma {:induction false} SkipsAll(read: (Reader, seq<Read>) -> Received, st: Reader, waits: seq<KeepAlive>,
                                    others: seq<Read>)
    requires SkipsOne(read)
    ensures read(st, AfterKeepAlives(waits, others))
         == read(if waits == [] then st else BetweenMessages(waits[|waits| - 1]), others)
    decreases |waits|
  {
    if waits != [] {
      SkipsAll(read, BetweenMessages(waits[0]), waits[1..], others);
    }
  }

  /** KEEPALIVE messages leave nothing behind but the finished state of the last of them. */
  lemma KeepAlivesSkipped(st: Reader, waits: seq<KeepAlive>, others: seq<Read>) returns (after: Reader)
    ensures Receive(st, AfterKeepAlives(waits, others)) == Receive(after, others)
    ensures after == if waits == [] then st else BetweenMessages(waits[|waits| - 1])
  {
    after := if waits == [] then st else BetweenMessages(waits[|waits| - 1]);
    var read := (st: Reader, packets: seq<Read>) => Receive(st, packets);
    forall st, w: KeepAlive, others
      ensures read(st, Message(w.cid, CTAPHID_KEEPALIVE, w.status) + others) == read(BetweenMessages(w), others)
    {
      OneKeepAliveSkipped(st, w, others);
    }
    SkipsAll(read, st, waits, others);
  }

  /** The round trip: any number of KEEPALIVE messages, then the reply, and nothing past it is read. */
  lemma RoundTrip(st: Reader, waits: seq<KeepAlive>, cid: u32, cmd: byte, payload: seq<byte>, tail: seq<Read>)
    requires cmd < 0x80 && cmd != CTAPHID_KEEPALIVE && cmd != CTAPHID_ERROR
    requires |payload| <= MAX_MESSAGE
    ensures Receive(st, AfterKeepAlives(waits, Message(cid, cmd, payload) + tail))
         == Received(Replied(cmd, payload), tail)
  {
    var after := KeepAlivesSkipped(st, waits, Message(cid, cmd, payload) + tail);
    ReplyRead(after, cid, cmd, payload, tail);
  }

  /** An ERROR message ends the transaction with the device's own bytes. */
  lemma ErrorReported(st: Reader, cid: u32, data: seq<byte>, tail: seq<Read>)
    requires |data| <= MAX_MESSAGE
    ensures Receive(st, Message(cid, CTAPHID_ERROR, data) + tail)
         == Received(Failed(DeviceError(data)), tail)
  {
    MessageRead(st, cid, CTAPHID_ERROR, data, tail);
  }

  // ---------------------------------------------------------------- every run of the reader

  /** The reader after `packets`, if it has asked for all of them and still wants more. */
  function Run(packets: seq<Read>): Option<Reader> {
    if packets == [] then Some(IDLE)
    else
      match Run(packets[..|packets| - 1])
      case None => None
      case Some(st) =>
        match Accept(st, packets[|packets| - 1])
        case Go(next) => Some(next)
        case Stop(_) => None
  }

  /** The position of the last init report, or -1. */
  function LastInit(packets: seq<Read>): (j: int)
    ensures -1 <= j < |packets|
    ensures j >= 0 ==> packets[j].Report? && IsInit(packets[j].bytes)
    ensures forall i :: j < i < |packets| ==> packets[i].ReadError? || !IsInit(packets[i].bytes)
  {
    if packets == [] then -1
    else
      var last := packets[|packets| - 1];
      if last.Report? && IsInit(last.bytes) then |packets| - 1 else LastInit(packets[..|packets| - 1])
  }

  /** What holds of the loop's variables after any packets whatever. */
  predicate Tracks(packets: seq<Read>, st: Reader) {
    var j := LastInit(packets);
    if j < 0 then packets == [] && st == IDLE
    else
      var init := packets[j].bytes;
      && |init| >= INIT_HEADER
      && |st.acc| + st.remaining == Announced(init)
      && st.expectedSeq == |packets| - 1 - j <= 128
      && |st.acc| <= Capacity(st.expectedSeq)
      && st.responseCmd == init[4] - 0x80
      && (st.remaining == 0 ==> st.responseCmd == CTAPHID_KEEPALIVE)
  }

  /**
   Reader safety: whatever the packets, the loop's variables keep their invariant, so no addition
   overflows and no subtraction underflows.
   */
  lemma {:induction false} ReaderSafety(packets: seq<Read>, st: Reader)
    requires Run(packets) == Some(st)
    ensures Tracks(packets, st)
  {
    if packets != [] {
      var before := packets[..|packets| - 1];
      ReaderSafety(before, Run(before).value);
      assert LastInit(packets) < |packets| - 1 ==> packets[LastInit(packets)] == before[LastInit(before)];
    }
  }

  /** Running the loop from the start and from any point of the run come to the same. */
  lemma {:induction false} ReceiveContinues(packets: seq<Read>, st: Reader, others: seq<Read>)
    requires Run(packets) == Some(st)
    ensures Receive(IDLE, packets + others) == Receive(st, others)
    decreases |packets|
  {
    if packets == [] {
      assert packets + others == others;
    } else {
      var before, last := packets[..|packets| - 1], packets[|packets| - 1];
      assert packets + others == before + ([last] + others);
      ReceiveContinues(before, Run(before).value, [last] + others);
      assert ([last] + others)[1..] == others;
    }
  }

  /** Where the loop stops: it ran on all the packets before, and one more turn ended it. */
  predicate StopsAt(packets: seq<Read>, n: nat, outcome: Outcome) {
    && n < |packets|
    && var st := Run(packets[..n]);
       st.Some? && Accept(st.value, packets[n]) == Stop(outcome)
  }

  /** The loop either outlives its packets, and times out, or stops at one of them. */
  lemma {:induction false} ReceiveStops(packets: seq<Read>, start: nat) returns (n: nat)
    requires start <= |packets| && Run(packets[..start]).Some?
    ensures var r := Receive(Run(packets[..start]).value, packets[start..]);
            if n == |packets| then Run(packets).Some? && r == Received(Failed(ReadTimeout), [])
            else StopsAt(packets, n, r.outcome) && r.rest == packets[n + 1..]
    decreases |packets| - start
  {
    assert packets[..|packets|] == packets;
    if start == |packets| {
      n := start;
    } else {
      var st := Run(packets[..start]).value;
      assert packets[..start + 1][..start] == packets[..start];
      assert packets[start..][1..] == packets[start + 1..];
      match Accept(st, packets[start])
      case Go(next) => n := ReceiveStops(packets, start + 1);
      case Stop(_) => n := start;
    }
  }

  /** `Receive` as a statement about positions. */
  lemma ReceiveEnds(packets: seq<Read>) returns (n: nat)
    ensures if n == |packets| then Run(packets).Some? && Receive(IDLE, packets) == Received(Failed(ReadTimeout), [])
            else StopsAt(packets, n, Receive(IDLE, packets).outcome) && Receive(IDLE, packets).rest == packets[n + 1..]
  {
    assert packets[0..] == packets;
    n := ReceiveStops(packets, 0);
  }

  /** The loop stops at most once, so where it stops decides what it returns. */
  lemma StopIsFinal(packets: seq<Read>, n: nat, outcome: Outcome)
    requires StopsAt(packets, n, outcome)
    ensures Receive(IDLE, packets) == Received(outcome, packets[n + 1..])
  {
    ReceiveContinues(packets[..n], Run(packets[..n]).value, packets[n..]);
    assert packets[..n] + packets[n..] == packets;
    assert packets[n..][1..] == packets[n + 1..];
  }

  /** No reply is longer than a message can be, whatever the device sends. */
  lemma ReplyIsBounded(packets: seq<Read>)
    requires Receive(IDLE, packets).outcome.Replied?
    ensures |Receive(IDLE, packets).outcome.payload| <= MAX_MESSAGE
    ensures Receive(IDLE, packets).outcome.cmd < 0x80
    ensures Receive(IDLE, packets).outcome.cmd !in {CTAPHID_KEEPALIVE, CTAPHID_ERROR}
  {
    var n := ReceiveEnds(packets);
    ReaderSafety(packets[..n], Run(packets[..n]).value);
  }

  /** A request comes back unchanged exactly under these conditions, each a check on the arguments. */
  lemma RoundTripExactly(cid: u32, cmd: byte, payload: seq<byte>)
    ensures Receive(IDLE, Message(cid, cmd, payload)) == Received(Replied(cmd, payload), [])
       <==> cmd < 0x80 && cmd != 0x3b && cmd != 0x3f && |payload| <= 7609
  {
    var packets := Message(cid, cmd, payload);
    assert packets + [] == packets;
    if Receive(IDLE, packets) == Received(Replied(cmd, payload), []) {
      ReplyIsBounded(packets);
    } else if cmd < 0x80 && cmd != CTAPHID_KEEPALIVE && cmd != CTAPHID_ERROR && |payload| <= MAX_MESSAGE {
      ReplyRead(IDLE, cid, cmd, payload, []);
    }
  }

  predicate CutsInitHeader(read: Read) {
    read.Report? && CONT_HEADER <= |read.bytes| < INIT_HEADER && IsInit(read.bytes)
  }

  lemma AcceptPanics(before: seq<Read>, read: Read)
    requires Run(before).Some?
    ensures var step := Accept(Run(before).value, read);
            && (step.Stop? && step.outcome.Panicked? <==> CutsInitHeader(read))
            && step != Stop(Panicked(SequenceOverflow))
  {
    ReaderSafety(before, Run(before).value);
  }

  /**
   The loop checks for five bytes before it reads bytes five and six. It panics just when it comes
   to an init report of five or six bytes, and never by overflow.
   */
  lemma PanicsExactly(packets: seq<Read>)
    ensures Receive(IDLE, packets).outcome.Panicked?
       <==> exists n :: 0 <= n < |packets| && Run(packets[..n]).Some? && CutsInitHeader(packets[n])
    ensures Receive(IDLE, packets).outcome != Panicked(SequenceOverflow)
  {
    var n := ReceiveEnds(packets);
    if n < |packets| {
      AcceptPanics(packets[..n], packets[n]);
    }
    forall k | 0 <= k < |packets| && Run(packets[..k]).Some? && CutsInitHeader(packets[k])
      ensures Receive(IDLE, packets).outcome == Panicked(SliceOutOfRange)
    {
      StopIsFinal(packets, k, Panicked(SliceOutOfRange));
    }
  }

  /** How many continuations have come since the last init report. */
  function ContsSinceInit(packets: seq<Read>): nat {
    |packets| - 1 - LastInit(packets)
  }

  /** Why a turn after `before` fails. */
  function Cause(before: seq<Read>, read: Read): Option<Failure> {
    if read.ReadError? then Some(ReadFailed)
    else if |read.bytes| == 0 then Some(ReadTimeout)
    else if |read.bytes| < 5 then Some(ReportTooShort)
    else if read.bytes[4] < 0x80 && read.bytes[4] as int != ContsSinceInit(before) then Some(SequenceMismatch)
    else None
  }

  lemma TurnFails(before: seq<Read>, read: Read, failure: Failure)
    requires Run(before).Some? && !failure.DeviceError?
    ensures Accept(Run(before).value, read) == Stop(Failed(failure)) <==> Cause(before, read) == Some(failure)
  {
    ReaderSafety(before, Run(before).value);
  }

  /** Some turn of the loop fails for this reason. */
  predicate FailsAt(packets: seq<Read>, n: nat, failure: Failure) {
    n < |packets| && Run(packets[..n]).Some? && Cause(packets[..n], packets[n]) == Some(failure)
  }

  lemma FailureFound(packets: seq<Read>, failure: Failure) returns (n: nat)
    requires !failure.DeviceError? && Receive(IDLE, packets).outcome == Failed(failure)
    ensures FailsAt(packets, n, failure) || (failure == ReadTimeout && Run(packets).Some?)
  {
    n := ReceiveEnds(packets);
    if n < |packets| {
      TurnFails(packets[..n], packets[n], failure);
    }
  }

  lemma FailureReported(packets: seq<Read>, n: nat, failure: Failure)
    requires !failure.DeviceError? && FailsAt(packets, n, failure)
    ensures Receive(IDLE, packets).outcome == Failed(failure)
  {
    TurnFails(packets[..n], packets[n], failure);
    StopIsFinal(packets, n, Failed(failure));
  }

  lemma EndTimesOut(packets: seq<Read>)
    requires Run(packets).Some?
    ensures Receive(IDLE, packets).outcome == Failed(ReadTimeout)
  {
    ReceiveContinues(packets, Run(packets).value, []);
    assert packets + [] == packets;
  }

  /**
   The transaction fails for a reason of its own exactly if it comes to a read that gives this reason: an
   error, nothing, fewer than five bytes, a continuation out of order; or, a timeout, if it comes to the end.
   */
  lemma FailuresExactly(packets: seq<Read>, failure: Failure)
    requires !failure.DeviceError?
    ensures Receive(IDLE, packets).outcome == Failed(failure)
       <==> (exists n: nat :: FailsAt(packets, n, failure)) || (failure == ReadTimeout && Run(packets).Some?)
  {
    if Receive(IDLE, packets).outcome == Failed(failure) {
      var n := FailureFound(packets, failure);
    } else if n: nat :| FailsAt(packets, n, failure) {
      FailureReported(packets, n, failure);
    } else if failure == ReadTimeout && Run(packets).Some? {
      EndTimesOut(packets);
    }
  }

  /** The reader itself never reports a failed write. */
  lemma {:induction false} ReceiveWritesNothing(st: Reader, packets: seq<Read>)
    ensures Receive(st, packets).outcome != Failed(WriteFailed)
    decreases |packets|
  {
    if packets != [] {
      match Accept(st, packets[0])
      case Go(next) => ReceiveWritesNothing(next, packets[1..]);
      case Stop(_) =>
    }
  }

  /**
   A transaction fails to write exactly if the device takes fewer reports than the request has, and then it
   has read nothing; what was written is the first of the reports, each behind the report id 0.
   */
  lemma WriteFailsExactly(cid: u32, cmd: byte, payload: seq<byte>, writes: nat, packets: seq<Read>)
    requires |payload| <= MAX_FRAGMENT
    ensures var reports := Fragments(cid, cmd, payload);
            var written := Written(reports)[..Sent(cid, cmd, payload, writes)];
            && (Transact(cid, cmd, payload, writes, packets).outcome == Failed(WriteFailed) <==> writes < |reports|)
            && (writes < |reports| ==> Transact(cid, cmd, payload, writes, packets).rest == packets)
            && |written| == Min(writes, |reports|)
            && (forall i :: 0 <= i < |written| ==>
                  |written[i]| == 65 && written[i][0] == 0 && written[i][1..] == reports[i])
  {
    ReceiveWritesNothing(IDLE, packets);
  }

  /** A transaction overflows the sequence number exactly if its request is too long, and then does nothing. */
  lemma OverflowsExactly(cid: u32, cmd: byte, payload: seq<byte>, writes: nat, packets: seq<Read>)
    ensures Transact(cid, cmd, payload, writes, packets).outcome == Panicked(SequenceOverflow) <==> |payload| > 15102
    ensures |payload| > 15102 ==>
              Transact(cid, cmd, payload, writes, packets).rest == packets && Sent(cid, cmd, payload, writes) == 0
  {
    PanicsExactly(packets);
  }

  // ---------------------------------------------------------------- the converse

  /** Report `i` of a message carries its share of `acc`, as far as `acc` goes. */
  predicate CarriesShare(packet: Read, i: nat, acc: seq<byte>) {
    && packet.Report? && |packet.bytes| == REPORT_SIZE
    && var r, end := packet.bytes, Min(|acc|, Capacity(i));
       if i == 0 then IsInit(r) && r[INIT_HEADER..INIT_HEADER + end] == acc[..end]
       else r[4] == i - 1 && Capacity(i - 1) <= end
            && r[CONT_HEADER..CONT_HEADER + end - Capacity(i - 1)] == acc[Capacity(i - 1)..end]
  }

  /** From position `j` on, the packets carry `acc` between them. */
  predicate CarriesFrom(packets: seq<Read>, j: nat, acc: seq<byte>) {
    j < |packets| && forall k :: j <= k < |packets| ==> CarriesShare(packets[k], k - j, acc)
  }

  /** From the last init report on, the packets carry `acc` between them. */
  predicate Carries(packets: seq<Read>, acc: seq<byte>) {
    var j := LastInit(packets);
    j >= 0 && CarriesFrom(packets, j, acc)
  }

  predicate AllFull(packets: seq<Read>) {
    forall p <- packets :: p.Report? ==> |p.bytes| == REPORT_SIZE
  }

  /** What one turn leaves in `acc`. */
  function AccAfter(st: Reader, r: seq<byte>): seq<byte>
    requires |r| == REPORT_SIZE
  {
    if IsInit(r) then r[INIT_HEADER..INIT_HEADER + Min(INIT_DATA, Announced(r))]
    else st.acc + r[CONT_HEADER..CONT_HEADER + Min(CONT_DATA, st.remaining)]
  }

  lemma LastInitSnoc(before: seq<Read>, r: FullReport)
    ensures LastInit(before + [Report(r)]) == if IsInit(r) then |before| else LastInit(before)
  {
    var packets := before + [Report(r)];
    assert packets[..|packets| - 1] == before;
  }

  lemma ShareGrows(packet: Read, i: nat, acc: seq<byte>, more: seq<byte>)
    requires CarriesShare(packet, i, acc) && Capacity(i) <= |acc|
    ensures CarriesShare(packet, i, acc + more)
  {
    assert (acc + more)[..|acc|] == acc;
  }

  lemma CarriesInit(before: seq<Read>, r: FullReport, st: Reader)
    requires IsInit(r)
    ensures Carries(before + [Report(r)], AccAfter(st, r))
  {
    LastInitSnoc(before, r);
    var acc := AccAfter(st, r);
    assert acc[..Min(|acc|, INIT_DATA)] == acc;
    assert CarriesShare(Report(r), 0, acc);
  }

  lemma LastShare(r: FullReport, st: Reader)
    requires !IsInit(r) && r[4] == st.expectedSeq && |st.acc| == Capacity(st.expectedSeq)
    ensures CarriesShare(Report(r), st.expectedSeq + 1, AccAfter(st, r))
  {
    var acc, take := AccAfter(st, r), Min(CONT_DATA, st.remaining);
    assert acc[|st.acc|..] == r[CONT_HEADER..CONT_HEADER + take];
    assert acc[Capacity(st.expectedSeq)..|acc|] == acc[|st.acc|..];
  }

  lemma CarriesOneMore(before: seq<Read>, j: nat, acc: seq<byte>, last: Read, more: seq<byte>)
    requires CarriesFrom(before, j, acc) && |acc| == Capacity(|before| - 1 - j)
    requires CarriesShare(last, |before| - j, acc + more)
    ensures CarriesFrom(before + [last], j, acc + more)
  {
    forall k | j <= k < |before|
      ensures CarriesShare(before[k], k - j, acc + more)
    {
      ShareGrows(before[k], k - j, acc, more);
    }
  }

  lemma GrowsByOne(before: seq<Read>, j: nat, r: FullReport, st: Reader)
    requires CarriesFrom(before, j, st.acc) && !IsInit(r) && r[4] == st.expectedSeq == |before| - 1 - j
    requires |st.acc| == Capacity(st.expectedSeq)
    ensures CarriesFrom(before + [Report(r)], j, AccAfter(st, r))
  {
    LastShare(r, st);
    var more := r[CONT_HEADER..CONT_HEADER + Min(CONT_DATA, st.remaining)];
    assert AccAfter(st, r) == st.acc + more;
    CarriesOneMore(before, j, st.acc, Report(r), more);
  }

  lemma CarriesCont(before: seq<Read>, r: FullReport, st: Reader)
    requires Carries(before, st.acc) && !IsInit(r) && r[4] == st.expectedSeq == |before| - 1 - LastInit(before)
    requires |st.acc| == Capacity(st.expectedSeq)
    ensures Carries(before + [Report(r)], AccAfter(st, r))
  {
    LastInitSnoc(before, r);
    GrowsByOne(before, LastInit(before), r, st);
  }

  /** A turn that leaves a message unfinished took all the data of its report. */
  lemma UnfinishedTurn(st: Reader, r: FullReport, next: Reader)
    requires Accept(st, Report(r)) == Go(next) && next.responseCmd != CTAPHID_KEEPALIVE
    ensures next.acc == AccAfter(st, r) && next.remaining > 0
    ensures IsInit(r) ==> |next.acc| == INIT_DATA && next.expectedSeq == 0
    ensures !IsInit(r) ==> r[4] == st.expectedSeq && st.responseCmd == next.responseCmd &&
                           |next.acc| == |st.acc| + CONT_DATA && next.expectedSeq == st.expectedSeq + 1
  {
  }

  /** While a message other than KEEPALIVE is being read, the full packets read so far carry `acc`. */
  lemma {:induction false} RunCarries(packets: seq<Read>)
    requires AllFull(packets) && packets != []
    requires Run(packets).Some? && Run(packets).value.responseCmd != CTAPHID_KEEPALIVE
    ensures var st := Run(packets).value;
            Carries(packets, st.acc) && |st.acc| == Capacity(st.expectedSeq) && st.remaining > 0
  {
    var before, last := packets[..|packets| - 1], packets[|packets| - 1];
    var st := Run(before).value;
    assert last in packets && packets == before + [last];
    ReaderSafety(before, st);
    UnfinishedTurn(st, last.bytes, Run(packets).value);
    if IsInit(last.bytes) {
      CarriesInit(before, last.bytes, st);
    } else {
      RunCarries(before);
      CarriesCont(before, last.bytes, st);
    }
  }

  /** `reports` are the reports of `(cmd, payload)` up to channel bytes and padding. */
  predicate AreReportsOf(reports: seq<Read>, cid: u32, cmd: byte, payload: seq<byte>) {
    && |reports| == 1 + ContCount(|payload|)
    && forall i :: 0 <= i < |reports| ==>
         && reports[i].Report? && |reports[i].bytes| == REPORT_SIZE
         && reports[i].bytes[4..DataEnd(|payload|, i)] == Fragments(cid, cmd, payload)[i][4..DataEnd(|payload|, i)]
  }

  lemma InitAgrees(r: FullReport, cid: u32, payload: seq<byte>)
    requires IsInit(r) && Announced(r) == |payload| && CarriesShare(Report(r), 0, payload)
    ensures var end := DataEnd(|payload|, 0);
            r[4..end] == InitReport(cid, r[4] - 0x80, payload)[4..end]
  {
    var f, n := InitReport(cid, r[4] - 0x80, payload), Min(|payload|, INIT_DATA);
    InitReportBytes(cid, r[4] - 0x80, payload);
    FromBe16RoundTrip(r[5..7]);
    assert r[4..7 + n] == [r[4]] + r[5..7] + r[7..7 + n];
    assert f[4..7 + n] == [f[4]] + f[5..7] + f[7..7 + n];
  }

  lemma ContAgrees(r: FullReport, cid: u32, payload: seq<byte>, i: nat)
    requires i < ContCount(|payload|) && CarriesShare(Report(r), i + 1, payload)
    ensures var end := DataEnd(|payload|, i + 1);
            r[4..end] == ContReports(cid, payload)[i][4..end]
  {
    var f, chunk := ContReports(cid, payload)[i], Chunk(payload, i);
    PackedBytes(cid, i % 256, chunk);
    assert r[4..5 + |chunk|] == [r[4]] + r[5..5 + |chunk|];
    assert f[4..5 + |chunk|] == [f[4]] + f[5..5 + |chunk|];
  }

  lemma CarriedIsReported(packets: seq<Read>, j: nat, cid: u32, cmd: byte, payload: seq<byte>)
    requires CarriesFrom(packets, j, payload) && |packets| - j == 1 + ContCount(|payload|)
    requires CarriesShare(packets[j], 0, payload)
    requires cmd == packets[j].bytes[4] - 0x80 && Announced(packets[j].bytes) == |payload|
    ensures AreReportsOf(packets[j..], cid, cmd, payload)
  {
    var reports := packets[j..];
    forall i | 0 <= i < |reports|
      ensures reports[i].Report? && |reports[i].bytes| == REPORT_SIZE
      ensures reports[i].bytes[4..DataEnd(|payload|, i)] == Fragments(cid, cmd, payload)[i][4..DataEnd(|payload|, i)]
    {
      assert CarriesShare(packets[j + i], i, payload);
      if i == 0 {
        InitAgrees(reports[0].bytes, cid, payload);
      } else {
        ContAgrees(reports[i].bytes, cid, payload, i - 1);
      }
    }
  }

  /** The turn that completes a reply completes its reports. */
  lemma LastTurnCarries(before: seq<Read>, r: FullReport, cmd: byte, payload: seq<byte>)
    requires AllFull(before) && Run(before).Some? && (before != [] || IsInit(r))
    requires Accept(Run(before).value, Report(r)) == Stop(Replied(cmd, payload))
    ensures var read := before + [Report(r)]; var j := LastInit(read);
            && Carries(read, payload) && j >= 0 && |read| - j == 1 + ContCount(|payload|)
            && cmd == read[j].bytes[4] - 0x80 && Announced(read[j].bytes) == |payload|
  {
    var st := Run(before).value;
    ReaderSafety(before, st);
    LastInitSnoc(before, r);
    assert payload == AccAfter(st, r);
    if IsInit(r) {
      CarriesInit(before, r, st);
    } else {
      RunCarries(before);
      CarriesCont(before, r, st);
    }
  }

  /** A continuation numbered 0. */
  predicate IsFirstCont(read: Read) {
    read.Report? && |read.bytes| >= CONT_HEADER && read.bytes[4] == 0
  }

  lemma CanonicalUpTo(before: seq<Read>, last: Read, cid: u32, cmd: byte, payload: seq<byte>)
    requires AllFull(before) && AllFull([last]) && Run(before).Some?
    requires Accept(Run(before).value, last) == Stop(Replied(cmd, payload))
    ensures var read := before + [last]; var j := LastInit(read);
            if j < 0 then |read| == 1 && IsFirstCont(last) && (cmd, payload) == (0, [])
            else AreReportsOf(read[j..], cid, cmd, payload)
  {
    assert last in [last];
    LastInitSnoc(before, last.bytes);
    if before != [] || IsInit(last.bytes) {
      LastTurnCarries(before, last.bytes, cmd, payload);
      var read := before + [last];
      CarriedIsReported(read, LastInit(read), cid, cmd, payload);
    }
  }

  /**
   The converse of the round trip. A reply read from full reports was read from the first `n`, and is
   either the empty one that a leading continuation numbered 0 yields, or the reports from the last
   init report on are, up to channel bytes and padding, those `fragment` makes of it.
   */
  lemma ReplyIsCanonical(packets: seq<Read>, cid: u32, cmd: byte, payload: seq<byte>) returns (n: nat)
    requires AllFull(packets) && Receive(IDLE, packets).outcome == Replied(cmd, payload)
    ensures 0 < n <= |packets| && Receive(IDLE, packets).rest == packets[n..]
    ensures var j := LastInit(packets[..n]);
            if j < 0 then n == 1 && IsFirstCont(packets[0]) && (cmd, payload) == (0, [])
            else AreReportsOf(packets[j..n], cid, cmd, payload)
  {
    var last := ReceiveEnds(packets);
    n := last + 1;
    assert packets[..n] == packets[..last] + [packets[last]];
    CanonicalUpTo(packets[..last], packets[last], cid, cmd, payload);
    var j := LastInit(packets[..n]);
    if j >= 0 {
      assert packets[..n][j..] == packets[j..n];
    }
  }

  /** That empty reply does come: a continuation numbered 0 is all it takes. */
  lemma LoneContinuation(packets: seq<Read>)
    requires packets != [] && IsFirstCont(packets[0])
    ensures Receive(IDLE, packets) == Received(Replied(0, []), packets[1..])
  {
    var r := packets[0].bytes;
    assert IDLE.acc + r[CONT_HEADER..CONT_HEADER] == [];
  }

  // ---------------------------------------------------------------- channels

  /** The same read, whatever channel its report names. */
  predicate SameButChannel(a: Read, b: Read) {
    || a == b
    || (a.Report? && b.Report? && |a.bytes| == |b.bytes| && (|a.bytes| >= 4 ==> a.bytes[4..] == b.bytes[4..]))
  }

  lemma AcceptIgnoresChannel(st: Reader, a: Read, b: Read)
    requires SameButChannel(a, b)
    ensures Accept(st, a) == Accept(st, b)
  {
    if a != b && |a.bytes| >= CONT_HEADER {
      var r, q := a.bytes, b.bytes;
      assert forall i :: 4 <= i < |r| ==> r[i] == r[4..][i - 4] == q[4..][i - 4] == q[i];
      assert forall i, j :: 4 <= i <= j <= |r| ==> r[i..j] == q[i..j];
    }
  }

  /** The reader compares no channel: packets that differ in their first four bytes only are read alike. */
  lemma {:induction false} ChannelIgnored(st: Reader, a: seq<Read>, b: seq<Read>)
    requires |a| == |b| && forall i :: 0 <= i < |a| ==> SameButChannel(a[i], b[i])
    ensures Receive(st, a).outcome == Receive(st, b).outcome
    ensures |Receive(st, a).rest| == |Receive(st, b).rest|
    decreases |a|
  {
    if a != [] {
      AcceptIgnoresChannel(st, a[0], b[0]);
      match Accept(st, a[0])
      case Go(next) => ChannelIgnored(next, a[1..], b[1..]);
      case Stop(_) =>
    }
  }

  /** So the reply to a request may come from any channel whatever. */
  lemma AnotherChannelAnswers(asked: u32, answering: u32, cmd: byte, request: seq<byte>, payload: seq<byte>,
                              writes: nat)
    requires |request| <= MAX_FRAGMENT && |Fragments(asked, cmd, request)| <= writes
    requires cmd < 0x80 && cmd != CTAPHID_KEEPALIVE && cmd != CTAPHID_ERROR && |payload| <= MAX_MESSAGE
    ensures Transact(asked, cmd, request, writes, Message(answering, cmd, payload))
         == Received(Replied(cmd, payload), [])
  {
    RoundTripExactly(answering, cmd, payload);
  }
}
