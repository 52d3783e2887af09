/**
 CTAPHID transactions: a message is cut into 64-byte reports on the way out and put together from
 reports on the way in. The writer and the reader are given once as functions of their inputs and
 once as the loops that run against the device; CtapHidProofs relates the two directions.
 */
module CtapHid {
  import opened Bytes

  const REPORT_SIZE: nat := 64
  const INIT_HEADER: nat := 7
  const CONT_HEADER: nat := 5
  const INIT_DATA: nat := REPORT_SIZE - INIT_HEADER
  const CONT_DATA: nat := REPORT_SIZE - CONT_HEADER

  const CTAPHID_MSG: byte := 0x03
  const CTAPHID_KEEPALIVE: byte := 0x3b
  const CTAPHID_ERROR: byte := 0x3f

  /** What an init report and `conts` continuation reports carry together. */
  function Capacity(conts: nat): nat {
    57 + 59 * conts
  }

  /** The most a message can carry: one init report and continuations 0 to 127. */
  const MAX_MESSAGE: nat := Capacity(128)

  /** The most `fragment` can cut before its `u8` sequence number overflows. */
  const MAX_FRAGMENT: nat := Capacity(255)

  type FullReport = r: seq<byte> | |r| == REPORT_SIZE witness Zeros(REPORT_SIZE)
  type u32 = n: int | 0 <= n < 0x1_0000_0000

  // ---------------------------------------------------------------- writing

  function Zeros(n: nat): (z: seq<byte>)
    ensures |z| == n
  {
    seq(n, _ => 0)
  }

  /** `cmd | 0x80`. */
  function SetTopBit(b: byte): byte {
    if b < 0x80 then b + 0x80 else b
  }

  /** A zeroed report with `content` copied to its front. */
  function Padded(content: seq<byte>): FullReport
    requires |content| <= REPORT_SIZE
  {
    content + Zeros(REPORT_SIZE - |content|)
  }

  /** A report: the channel, the command or sequence byte, the rest. */
  function Packed(cid: u32, kind: byte, body: seq<byte>): FullReport
    requires |body| <= CONT_DATA
  {
    Padded(Be32(cid) + [kind] + body)
  }

  function InitReport(cid: u32, cmd: byte, payload: seq<byte>): FullReport {
    Packed(cid, SetTopBit(cmd), Be16(|payload|) + payload[..Min(|payload|, INIT_DATA)])
  }

  function ContReport(cid: u32, number: nat, data: seq<byte>): FullReport
    requires |data| <= CONT_DATA
  {
    Packed(cid, number % 256, data)
  }

  /** How many continuations `n` bytes need: one for every `i` whose share starts inside them. */
  function ContCount(n: nat): (count: nat)
    ensures forall i: nat :: i < count <==> Capacity(i) < n
  {
    if n <= 57 then 0 else (n - 57 + 58) / 59
  }

  /** The bytes continuation `i` carries. */
  function Chunk(payload: seq<byte>, i: nat): (data: seq<byte>)
    requires Capacity(i) < |payload|
    ensures |data| <= CONT_DATA
  {
    payload[Capacity(i)..Min(|payload|, Capacity(i + 1))]
  }

  function ContReports(cid: u32, payload: seq<byte>): seq<FullReport> {
    seq(ContCount(|payload|), i requires 0 <= i < ContCount(|payload|) => ContReport(cid, i, Chunk(payload, i)))
  }

  function Fragments(cid: u32, cmd: byte, payload: seq<byte>): seq<FullReport> {
    [InitReport(cid, cmd, payload)] + ContReports(cid, payload)
  }

  /** `report[at..at + |source|].copy_from_slice(source)`, where zeros still stand from `at` on. */
  method CopyInto(report: array<byte>, at: nat, source: seq<byte>, ghost content: seq<byte>)
    requires report.Length == REPORT_SIZE && at == |content| && at + |source| <= REPORT_SIZE
    requires report[..] == Padded(content)
    modifies report
    ensures report[..] == Padded(content + source)
  {
    assert content + source[..0] == content;
    for i := 0 to |source|
      invariant report[..] == Padded(content + source[..i])
    {
      report[at + i] := source[i];
      assert source[..i + 1] == source[..i] + [source[i]];
    }
    assert source[..|source|] == source;
  }

  /** Fill a zeroed report buffer: channel, command or sequence byte, length if any, data. */
  method WriteReport(cid: u32, kind: byte, length: seq<byte>, data: seq<byte>) returns (report: FullReport)
    requires |length| + |data| <= CONT_DATA
    ensures report == Packed(cid, kind, length + data)
  {
    var buffer := new byte[REPORT_SIZE](_ => 0);
    assert buffer[..] == Padded([]);
    var header := Be32(cid);
    CopyInto(buffer, 0, header, []);
    CopyInto(buffer, 4, [kind], [] + header);
    CopyInto(buffer, CONT_HEADER, length, [] + header + [kind]);
    CopyInto(buffer, CONT_HEADER + |length|, data, [] + header + [kind] + length);
    assert [] + header == header;
    assert header + [kind] + length + data == header + [kind] + (length + data);
    report := buffer[..];
  }

  method WriteContReport(cid: u32, number: byte, data: seq<byte>, ghost k: nat) returns (report: FullReport)
    requires |data| <= CONT_DATA && number == k % 256
    ensures report == ContReport(cid, k, data)
  {
    assert [] + data == data;
    report := WriteReport(cid, number, [], data);
  }

  /**
   `overflow` says that the `u8` sequence number was incremented past 255: a checked build panics
   there, an unchecked one wraps and goes on as this loop does.
   */
  method Fragment(cid: u32, cmd: byte, payload: seq<byte>)
    returns (reports: seq<FullReport>, overflow: bool)
    ensures reports == Fragments(cid, cmd, payload)
    ensures overflow <==> |payload| > MAX_FRAGMENT
  {
    var first := Min(|payload|, REPORT_SIZE - INIT_HEADER);
    var report := WriteReport(cid, SetTopBit(cmd), Be16(|payload|), payload[..first]);
    reports := [report];
    var conts;
    conts, overflow := Continue(cid, payload, first);
    reports := reports + conts;
  }

  /** The loop's next share is chunk `i`, and ends where the share after it begins. */
  lemma NextChunk(payload: seq<byte>, i: nat)
    requires Capacity(i) < |payload|
    ensures i < ContCount(|payload|)
    ensures var chunk := Min(|payload| - Capacity(i), CONT_DATA);
            && payload[Capacity(i)..Capacity(i) + chunk] == Chunk(payload, i)
            && Capacity(i) + chunk == Min(|payload|, Capacity(i + 1))
  {
  }

  lemma OneMoreReport(cid: u32, payload: seq<byte>, i: nat)
    requires i < ContCount(|payload|)
    ensures ContReports(cid, payload)[..i + 1]
         == ContReports(cid, payload)[..i] + [ContReport(cid, i, Chunk(payload, i))]
  {
  }

  /** The loop of `fragment`, from the end of the init report's share. */
  method Continue(cid: u32, payload: seq<byte>, first: nat) returns (reports: seq<FullReport>, overflow: bool)
    requires first == Min(|payload|, INIT_DATA)
    ensures reports == ContReports(cid, payload)
    ensures overflow <==> |payload| > MAX_FRAGMENT
  {
    reports := [];
    var offset := first;
    var number: byte := 0;
    overflow := false;
    while offset < |payload|
      invariant |reports| <= ContCount(|payload|)
      invariant offset == Min(|payload|, Capacity(|reports|))
      invariant number == |reports| % 256
      invariant overflow <==> |reports| >= 256
      invariant reports == ContReports(cid, payload)[..|reports|]
    {
      ghost var i := |reports|;
      NextChunk(payload, i);
      var chunk := Min(|payload| - offset, REPORT_SIZE - CONT_HEADER);
      var report := WriteContReport(cid, number, payload[offset..offset + chunk], i);
      OneMoreReport(cid, payload, i);
      reports := reports + [report];
      offset := offset + chunk;
      overflow := overflow || number == 255;
      number := (number + 1) % 256;
    }
  }

  // ---------------------------------------------------------------- reading

  /** What one `read_timeout` into the 64-byte buffer yields; no bytes at all is a timeout. */
  type Packet = r: seq<byte> | |r| <= REPORT_SIZE
  datatype Read = Report(bytes: Packet) | ReadError

  datatype Failure =
    | WriteFailed
    | ReadFailed
    | ReadTimeout
    | ReportTooShort
    | SequenceMismatch
    | DeviceError(data: seq<byte>)

  datatype Panic = SliceOutOfRange | SequenceOverflow

  datatype Outcome =
    | Replied(cmd: byte, payload: seq<byte>)
    | Failed(failure: Failure)
    | Panicked(panic: Panic)

  /** The variables of the read loop. */
  datatype Reader = Reader(acc: seq<byte>, remaining: nat, expectedSeq: byte, responseCmd: byte)

  const IDLE: Reader := Reader([], 0, 0, 0)

  datatype Step = Go(next: Reader) | Stop(outcome: Outcome)

  predicate IsInit(r: seq<byte>) {
    |r| > 4 && r[4] >= 0x80
  }

  /** The length an init report announces. */
  function Announced(r: seq<byte>): (n: nat)
    requires |r| >= INIT_HEADER
    ensures n < 0x1_0000
  {
    FromBe16(r[5..7])
  }

  /** The end of one turn of the loop: go on, or leave with the message or the device's error. */
  function Settle(st: Reader): Step {
    if st.remaining != 0 || st.responseCmd == CTAPHID_KEEPALIVE then Go(st)
    else if st.responseCmd == CTAPHID_ERROR then Stop(Failed(DeviceError(st.acc)))
    else Stop(Replied(st.responseCmd, st.acc))
  }

  /** One turn of the loop. */
  function Accept(st: Reader, read: Read): Step {
    if read.ReadError? then Stop(Failed(ReadFailed))
    else
      var r := read.bytes;
      if r == [] then Stop(Failed(ReadTimeout))
      else if |r| < CONT_HEADER then Stop(Failed(ReportTooShort))
      else if IsInit(r) then
        if |r| < INIT_HEADER then Stop(Panicked(SliceOutOfRange))
        else
          var take := Min(|r| - INIT_HEADER, Announced(r));
          Settle(Reader(r[INIT_HEADER..INIT_HEADER + take], Announced(r) - take, 0, r[4] - 0x80))
      else if r[4] != st.expectedSeq then Stop(Failed(SequenceMismatch))
      else if st.expectedSeq == 255 then Stop(Panicked(SequenceOverflow))
      else
        var take := Min(|r| - CONT_HEADER, st.remaining);
        Settle(Reader(st.acc + r[CONT_HEADER..CONT_HEADER + take], st.remaining - take,
                      st.expectedSeq + 1, st.responseCmd))
  }

  /** The outcome of the loop and the packets it has not asked for. */
  datatype Received = Received(outcome: Outcome, rest: seq<Read>)

  /** The loop from `st` on; a device with nothing left to say times out. */
  function Receive(st: Reader, packets: seq<Read>): (r: Received)
    ensures |r.rest| <= |packets|
    ensures r.outcome.Replied? ==> |r.rest| < |packets|
    decreases |packets|
  {
    if packets == [] then Received(Failed(ReadTimeout), [])
    else
      match Accept(st, packets[0])
      case Go(next) => Receive(next, packets[1..])
      case Stop(outcome) => Received(outcome, packets[1..])
  }

  // ---------------------------------------------------------------- the device

  /** A report as it is written: the HID report id, then the report. */
  function Written(reports: seq<seq<byte>>): seq<seq<byte>> {
    seq(|reports|, i requires 0 <= i < |reports| => [0] + reports[i])
  }

  /** The HID device: what it will answer, what it was sent, and how many writes it still takes. */
  class Device {
    var inbox: seq<Read>
    var outbox: seq<seq<byte>>
    var writesLeft: nat

    constructor (inbox: seq<Read>, writesLeft: nat)
      ensures this.inbox == inbox && outbox == [] && this.writesLeft == writesLeft
    {
      this.inbox, this.outbox, this.writesLeft := inbox, [], writesLeft;
    }

    method Write(buf: seq<byte>) returns (ok: bool)
      modifies this
      ensures ok == (old(writesLeft) > 0) && inbox == old(inbox)
      ensures writesLeft == if ok then old(writesLeft) - 1 else 0
      ensures outbox == if ok then old(outbox) + [buf] else old(outbox)
    {
      ok := writesLeft > 0;
      if ok {
        outbox, writesLeft := outbox + [buf], writesLeft - 1;
      }
    }

    method ReadTimeout() returns (read: Read)
      modifies this
      ensures outbox == old(outbox) && writesLeft == old(writesLeft)
      ensures old(inbox) == [] ==> read == Report([]) && inbox == []
      ensures old(inbox) != [] ==> read == old(inbox)[0] && inbox == old(inbox)[1..]
    {
      if inbox == [] {
        read := Report([]);
      } else {
        read, inbox := inbox[0], inbox[1..];
      }
    }
  }

  /** How many reports of a request are written before the device stops taking them. */
  function Sent(cid: u32, cmd: byte, payload: seq<byte>, writesLeft: nat): (sent: nat)
    ensures sent <= writesLeft && sent <= |Fragments(cid, cmd, payload)|
  {
    if |payload| > MAX_FRAGMENT then 0 else Min(writesLeft, |Fragments(cid, cmd, payload)|)
  }

  /** The outcome of one transaction and the packets it leaves unread. */
  function Transact(cid: u32, cmd: byte, payload: seq<byte>, writesLeft: nat, packets: seq<Read>): Received {
    if |payload| > MAX_FRAGMENT then Received(Panicked(SequenceOverflow), packets)
    else if writesLeft < |Fragments(cid, cmd, payload)| then Received(Failed(WriteFailed), packets)
    else Receive(IDLE, packets)
  }

  /** One transaction: write the request's reports, then read until a message is complete. */
  method Exchange(device: Device, cid: u32, cmd: byte, payload: seq<byte>) returns (outcome: Outcome)
    modifies device
    ensures Received(outcome, device.inbox)
         == Transact(cid, cmd, payload, old(device.writesLeft), old(device.inbox))
    ensures device.writesLeft == old(device.writesLeft) - Sent(cid, cmd, payload, old(device.writesLeft))
    ensures device.outbox == old(device.outbox)
            + Written(Fragments(cid, cmd, payload))[..Sent(cid, cmd, payload, old(device.writesLeft))]
  {
    var reports, overflow := Fragment(cid, cmd, payload);
    if overflow {
      return Panicked(SequenceOverflow);
    }
    for i := 0 to |reports|
      invariant device.inbox == old(device.inbox)
      invariant device.writesLeft == old(device.writesLeft) - i
      invariant device.outbox == old(device.outbox) + Written(reports)[..i]
    {
      var ok := device.Write([0] + reports[i]);
      if !ok {
        return Failed(WriteFailed);
      }
    }
    outcome := ReadReply(device);
  }

  /** The read loop of `exchange`. */
  method ReadReply(device: Device) returns (outcome: Outcome)
    modifies device
    ensures device.outbox == old(device.outbox) && device.writesLeft == old(device.writesLeft)
    ensures Received(outcome, device.inbox) == Receive(IDLE, old(device.inbox))
  {
    var acc: seq<byte> := [];
    var remaining: nat := 0;
    var expectedSeq: byte := 0;
    var responseCmd: byte := 0;
    while true
      invariant device.outbox == old(device.outbox) && device.writesLeft == old(device.writesLeft)
      invariant Receive(Reader(acc, remaining, expectedSeq, responseCmd), device.inbox)
             == Receive(IDLE, old(device.inbox))
      decreases |device.inbox|
    {
      var read := device.ReadTimeout();
      if read.ReadError? {
        return Failed(ReadFailed);
      }
      var r := read.bytes;
      if |r| == 0 {
        return Failed(ReadTimeout);
      }
      if |r| < CONT_HEADER {
        return Failed(ReportTooShort);
      }
      if r[4] >= 0x80 {
        responseCmd := r[4] - 0x80;
        if |r| < INIT_HEADER {
          return Panicked(SliceOutOfRange);
        }
        var total := FromBe16(r[5..7]);
        var take := Min(|r| - INIT_HEADER, total);
        acc := r[INIT_HEADER..INIT_HEADER + take];
        remaining := total - take;
        expectedSeq := 0;
      } else {
        if r[4] != expectedSeq {
          return Failed(SequenceMismatch);
        }
        var take := Min(|r| - CONT_HEADER, remaining);
        acc := acc + r[CONT_HEADER..CONT_HEADER + take];
        remaining := remaining - take;
        if expectedSeq == 255 {
          return Panicked(SequenceOverflow);
        }
        expectedSeq := expectedSeq + 1;
      }
      if remaining == 0 {
        if responseCmd == CTAPHID_ERROR {
          return Failed(DeviceError(acc));
        } else if responseCmd != CTAPHID_KEEPALIVE {
          return Replied(responseCmd, acc);
        }
      }
    }
  }
}
