/**
 Following a device's log: bulk reads become frames, Log frames feed a record buffer, and the buffer
 is cut into lines at each terminator, across timeouts and reconnects, through a filter, up to a limit.
 */
module Logs {
  import opened Bytes
  import opened Wrappers

  const FRAME_LOG: byte := 0x01
  const RECORD_TERMINATOR: byte := 0x1e
  const READ_CHUNK: nat := 0x1_0000

  type BulkData = d: seq<byte> | |d| <= READ_CHUNK

  datatype BulkRead = Data(bytes: BulkData) | Timeout

  /** One turn of the reconnect loop: no device, or a connection that lasted for these reads. */
  datatype Attempt = NoDevice | Connection(bulk: seq<BulkRead>)

  /** `decode` is the lossy UTF-8 decoding. */
  datatype Options = Options(decode: seq<byte> -> string, filter: Option<string>, limit: Option<nat>)

  // ---------------------------------------------------------------- records

  /** The first position of `b`, or the length. */
  function Position(s: seq<byte>, b: byte): (p: nat)
    ensures p <= |s| && (p < |s| ==> s[p] == b)
    ensures forall i :: 0 <= i < p ==> s[i] != b
  {
    if s == [] || s[0] == b then 0 else 1 + Position(s[1..], b)
  }

  /** A byte stream read as terminated records, without their terminators, and what is left over. */
  datatype Split = Split(records: seq<seq<byte>>, tail: seq<byte>)

  function SplitStream(stream: seq<byte>): Split {
    if stream == [] then Split([], [])
    else
      var before, last := SplitStream(stream[..|stream| - 1]), stream[|stream| - 1];
      if last == RECORD_TERMINATOR then Split(before.records + [before.tail], [])
      else Split(before.records, before.tail + [last])
  }

  lemma SplitOneMore(stream: seq<byte>, last: byte)
    ensures var before := SplitStream(stream);
            SplitStream(stream + [last]) == if last == RECORD_TERMINATOR then Split(before.records + [before.tail], [])
                                            else Split(before.records, before.tail + [last])
  {
    assert (stream + [last])[..|stream|] == stream;
  }

  lemma {:induction false} NoTerminatorNoRecord(s: seq<byte>)
    requires RECORD_TERMINATOR !in s
    ensures SplitStream(s) == Split([], s)
  {
    if s != [] {
      var before, last := s[..|s| - 1], s[|s| - 1];
      assert s == before + [last];
      NoTerminatorNoRecord(before);
    }
  }

  /** Records as a device writes them. */
  function Terminated(records: seq<seq<byte>>): seq<byte> {
    if records == [] then []
    else Terminated(records[..|records| - 1]) + records[|records| - 1] + [RECORD_TERMINATOR]
  }

  /** Splitting loses nothing: the stream is its records, terminated, and the remainder. */
  lemma {:induction false} SplitIsComplete(stream: seq<byte>)
    ensures var s := SplitStream(stream);
            && stream == Terminated(s.records) + s.tail
            && RECORD_TERMINATOR !in s.tail && forall r <- s.records :: RECORD_TERMINATOR !in r
  {
    if stream != [] {
      var before, last := stream[..|stream| - 1], stream[|stream| - 1];
      assert stream == before + [last];
      SplitIsComplete(before);
      var s := SplitStream(before);
      assert (s.records + [s.tail])[..|s.records|] == s.records;
    }
  }

  /** A stream may be read in two parts if the remainder of the first is kept for the second. */
  lemma {:induction false} SplitInParts(a: seq<byte>, b: seq<byte>)
    ensures var first := SplitStream(a); var second := SplitStream(first.tail + b);
            SplitStream(a + b) == Split(first.records + second.records, second.tail)
  {
    var first := SplitStream(a);
    if b == [] {
      assert a + b == a && first.tail + b == first.tail;
      SplitIsComplete(a);
      NoTerminatorNoRecord(first.tail);
    } else {
      var b', last := b[..|b| - 1], b[|b| - 1];
      assert a + b == (a + b') + [last] && first.tail + b == (first.tail + b') + [last];
      SplitOneMore(a + b', last);
      SplitOneMore(first.tail + b', last);
      SplitInParts(a, b');
    }
  }

  /** Splitting is the only way to read a stream as terminated records and a remainder. */
  lemma {:induction false} SplitIsUnique(records: seq<seq<byte>>, tail: seq<byte>)
    requires RECORD_TERMINATOR !in tail && forall r <- records :: RECORD_TERMINATOR !in r
    ensures SplitStream(Terminated(records) + tail) == Split(records, tail)
  {
    NoTerminatorNoRecord(tail);
    if records == [] {
      assert Terminated(records) + tail == tail;
    } else {
      var before, last := records[..|records| - 1], records[|records| - 1];
      SplitIsUnique(before, last);
      SplitOneMore(Terminated(before) + last, RECORD_TERMINATOR);
      assert before + [last] == records;
      SplitInParts(Terminated(records), tail);
      assert [] + tail == tail;
    }
  }

  /** Cutting the first record off the front, as the loop does. */
  lemma FirstRecord(record: seq<byte>, others: seq<byte>)
    requires RECORD_TERMINATOR !in record
    ensures var s := SplitStream(others);
            SplitStream(record + [RECORD_TERMINATOR] + others) == Split([record] + s.records, s.tail)
  {
    NoTerminatorNoRecord(record);
    SplitOneMore(record, RECORD_TERMINATOR);
    SplitInParts(record + [RECORD_TERMINATOR], others);
    assert [] + others == others && [] + [record] == [record];
  }

  // ---------------------------------------------------------------- lines

  predicate IsLineEnd(c: char) {
    c == '\r' || c == '\n'
  }

  function TrimEnd(line: string): (t: string)
    ensures t <= line && (t == [] || !IsLineEnd(t[|t| - 1]))
    ensures forall i :: |t| <= i < |line| ==> IsLineEnd(line[i])
  {
    if line != [] && IsLineEnd(line[|line| - 1]) then TrimEnd(line[..|line| - 1]) else line
  }

  predicate Contains(line: string, want: string) {
    exists i :: 0 <= i <= |line| && want <= line[i..]
  }

  predicate Shown(options: Options, line: string) {
    line != [] && (options.filter.Some? ==> Contains(line, options.filter.value))
  }

  /** The lines that some records print, were there no limit. */
  function Lines(options: Options, records: seq<seq<byte>>): seq<string> {
    if records == [] then []
    else
      var line := TrimEnd(options.decode(records[0]));
      (if Shown(options, line) then [line] else []) + Lines(options, records[1..])
  }

  lemma {:induction false} LinesAppend(options: Options, a: seq<seq<byte>>, b: seq<seq<byte>>)
    ensures Lines(options, a + b) == Lines(options, a) + Lines(options, b)
  {
    if a == [] {
      assert a + b == b;
    } else {
      assert (a + b)[1..] == a[1..] + b;
      LinesAppend(options, a[1..], b);
    }
  }

  lemma LinesAfter(options: Options, start: seq<string>, a: seq<seq<byte>>, b: seq<seq<byte>>)
    ensures start + Lines(options, a + b) == start + Lines(options, a) + Lines(options, b)
  {
    LinesAppend(options, a, b);
  }

  /** The limit is checked after a line is printed, so a limit of 0 still lets one line through. */
  function Allowed(options: Options, lines: nat): nat {
    match options.limit
    case None => lines
    case Some(limit) => Min(lines, if limit == 0 then 1 else limit)
  }

  function Cut(options: Options, lines: seq<string>): seq<string> {
    lines[..Allowed(options, |lines|)]
  }

  predicate Full(options: Options, lines: nat) {
    options.limit.Some? && lines > 0 && lines >= options.limit.value
  }

  // ---------------------------------------------------------------- frames

  /** The frames that bulk reads make up, and the frame still open after them. */
  datatype Assembled = Assembled(frames: seq<seq<byte>>, open: seq<byte>)

  function Assemble(bulk: seq<BulkRead>): Assembled {
    if bulk == [] then Assembled([], []) else WithRead(Assemble(bulk[..|bulk| - 1]), bulk[|bulk| - 1])
  }

  /** A full read leaves the frame open, a short or empty one closes it, a timeout is nothing. */
  function WithRead(before: Assembled, read: BulkRead): Assembled {
    match read
    case Timeout => before
    case Data(bytes) =>
      if |bytes| == READ_CHUNK then Assembled(before.frames, before.open + bytes)
      else Assembled(before.frames + [before.open + bytes], [])
  }

  /** What a frame adds to the record buffer: the payload, if it is a Log frame. */
  function Payload(frame: seq<byte>): seq<byte> {
    if frame != [] && frame[0] == FRAME_LOG then frame[1..] else []
  }

  function LogStream(frames: seq<seq<byte>>): seq<byte> {
    if frames == [] then [] else LogStream(frames[..|frames| - 1]) + Payload(frames[|frames| - 1])
  }

  /** What the reads of one connection leave: the records they complete, and the record buffer. */
  function Followed(bulk: seq<BulkRead>): Split {
    SplitStream(LogStream(Assemble(bulk).frames))
  }

  /** The records of every connection, each connection starting from an empty buffer. */
  function AllRecords(attempts: seq<Attempt>): seq<seq<byte>> {
    if attempts == [] then []
    else (if attempts[0].NoDevice? then [] else Followed(attempts[0].bulk).records) + AllRecords(attempts[1..])
  }

  /** One more whole frame. */
  lemma OneFrame(frames: seq<seq<byte>>, frame: seq<byte>)
    ensures var first := SplitStream(LogStream(frames)); var second := SplitStream(first.tail + Payload(frame));
            SplitStream(LogStream(frames + [frame])) == Split(first.records + second.records, second.tail)
  {
    assert (frames + [frame])[..|frames|] == frames;
    SplitInParts(LogStream(frames), Payload(frame));
  }

  lemma UnloggedFrame(frames: seq<seq<byte>>, frame: seq<byte>)
    requires Payload(frame) == []
    ensures SplitStream(LogStream(frames + [frame])) == SplitStream(LogStream(frames))
  {
    assert (frames + [frame])[..|frames|] == frames;
    assert LogStream(frames) + [] == LogStream(frames);
  }

  lemma AssembleOneMore(bulk: seq<BulkRead>, read: BulkRead)
    ensures Assemble(bulk + [read]) == WithRead(Assemble(bulk), read)
  {
    assert (bulk + [read])[..|bulk|] == bulk;
  }

  /** Later reads only add records. */
  lemma {:induction false} RecordsGrow(bulk: seq<BulkRead>, i: nat) returns (more: seq<seq<byte>>)
    requires i <= |bulk|
    ensures Followed(bulk).records == Followed(bulk[..i]).records + more
  {
    if i == |bulk| {
      assert bulk[..i] == bulk;
      more := [];
    } else {
      var before := bulk[..|bulk| - 1];
      assert before[..i] == bulk[..i];
      var earlier := RecordsGrow(before, i);
      var added := OneReadRecords(Assemble(before), bulk[|bulk| - 1]);
      more := earlier + added;
      Regroup(Followed(bulk[..i]).records, earlier, added);
    }
  }

  lemma OneReadRecords(before: Assembled, read: BulkRead) returns (added: seq<seq<byte>>)
    ensures SplitStream(LogStream(WithRead(before, read).frames)).records
         == SplitStream(LogStream(before.frames)).records + added
  {
    added := [];
    if read.Data? && |read.bytes| < READ_CHUNK {
      var frame := before.open + read.bytes;
      OneFrame(before.frames, frame);
      added := SplitStream(SplitStream(LogStream(before.frames)).tail + Payload(frame)).records;
    }
  }

  /** No more is printed than the limit says, exactly if it is at least 1 or there is nothing to print. */
  lemma LimitKept(options: Options, lines: seq<string>)
    requires options.limit.Some?
    ensures |Cut(options, lines)| <= options.limit.value <==> options.limit.value > 0 || lines == []
  {
  }

  /** Once the limit is reached, nothing later changes what is printed. */
  lemma CutIsFinal(options: Options, lines: seq<string>, more: seq<string>)
    requires Full(options, |Cut(options, lines)|)
    ensures Cut(options, lines + more) == Cut(options, lines)
  {
  }

  lemma CutShort(options: Options, before: seq<string>, bulk: seq<BulkRead>, i: nat, out: seq<string>)
    requires i <= |bulk| && Full(options, |out|)
    requires out == Cut(options, before + Lines(options, Followed(bulk[..i]).records))
    ensures out == Cut(options, before + Lines(options, Followed(bulk).records))
  {
    var first := Followed(bulk[..i]).records;
    var more := RecordsGrow(bulk, i);
    LinesAfter(options, before, first, more);
    CutIsFinal(options, before + Lines(options, first), Lines(options, more));
  }

  // ---------------------------------------------------------------- the loops

  method PrintLine(options: Options, line: string, before: seq<string>) returns (out: seq<string>, done: bool)
    requires !Full(options, |before|)
    ensures out == if Shown(options, line) then before + [line] else before
    ensures done <==> Full(options, |out|)
  {
    out, done := before, false;
    if line == [] {
      return;
    }
    if options.filter.Some? {
      if !Contains(line, options.filter.value) {
        return;
      }
    }
    out := out + [line];
    done := options.limit.Some? && |out| >= options.limit.value;
  }

  /** The loop that cuts records off the front of the buffer. */
  method PrintRecords(options: Options, buffer: seq<byte>, before: seq<string>)
    returns (rest: seq<byte>, out: seq<string>, done: bool)
    requires !Full(options, |before|)
    ensures out == Cut(options, before + Lines(options, SplitStream(buffer).records))
    ensures done <==> Full(options, |out|)
    ensures !done ==> rest == SplitStream(buffer).tail
    ensures !done ==> out == before + Lines(options, SplitStream(buffer).records)
  {
    rest, out, done := buffer, before, false;
    while true
      invariant !Full(options, |out|) && !done
      invariant out + Lines(options, SplitStream(rest).records) == before + Lines(options, SplitStream(buffer).records)
      invariant SplitStream(rest).tail == SplitStream(buffer).tail
      decreases |rest|
    {
      var pos := Position(rest, RECORD_TERMINATOR);
      if pos == |rest| {
        NoTerminatorNoRecord(rest);
        assert out + [] == out;
        return;
      }
      var record := rest[..pos];
      var line := TrimEnd(options.decode(record));
      assert rest == record + [RECORD_TERMINATOR] + rest[pos + 1..];
      FirstRecord(record, rest[pos + 1..]);
      rest := rest[pos + 1..];
      OneLine(options, out, record, SplitStream(rest).records);
      out, done := PrintLine(options, line, out);
      if done {
        assert (out + Lines(options, SplitStream(rest).records))[..|out|] == out;
        return;
      }
    }
  }

  lemma OneLine(options: Options, out: seq<string>, record: seq<byte>, others: seq<seq<byte>>)
    ensures out + Lines(options, [record] + others)
         == (if Shown(options, TrimEnd(options.decode(record))) then out + [TrimEnd(options.decode(record))] else out)
            + Lines(options, others)
  {
    assert ([record] + others)[1..] == others;
  }

  /** The end of a frame: only Log frames carry records. */
  method EndFrame(options: Options, frame: seq<byte>, buffer: seq<byte>, before: seq<string>,
                  ghost frames: seq<seq<byte>>, ghost start: seq<string>)
    returns (records: seq<byte>, out: seq<string>, done: bool)
    requires frame != [] && !Full(options, |before|)
    requires buffer == SplitStream(LogStream(frames)).tail
    requires before == start + Lines(options, SplitStream(LogStream(frames)).records)
    ensures out == Cut(options, start + Lines(options, SplitStream(LogStream(frames + [frame])).records))
    ensures done <==> Full(options, |out|)
    ensures !done ==> records == SplitStream(LogStream(frames + [frame])).tail
    ensures !done ==> out == start + Lines(options, SplitStream(LogStream(frames + [frame])).records)
  {
    if frame[0] == FRAME_LOG {
      OneFrame(frames, frame);
      LinesAfter(options, start, SplitStream(LogStream(frames)).records, SplitStream(buffer + frame[1..]).records);
      records, out, done := PrintRecords(options, buffer + frame[1..], before);
    } else {
      UnloggedFrame(frames, frame);
      records, out, done := buffer, before, false;
    }
  }

  /** The loop over one connection's reads; `records` is what it keeps between frames. */
  method Follow(options: Options, bulk: seq<BulkRead>, before: seq<string>)
    returns (records: seq<byte>, out: seq<string>, done: bool)
    requires !Full(options, |before|)
    ensures out == Cut(options, before + Lines(options, Followed(bulk).records))
    ensures done <==> Full(options, |out|)
    ensures !done ==> records == Followed(bulk).tail && out == before + Lines(options, Followed(bulk).records)
  {
    records, out, done := [], before, false;
    var frame: seq<byte> := [];
    ghost var frames: seq<seq<byte>> := [];
    for i := 0 to |bulk|
      invariant !Full(options, |out|) && !done
      invariant Assemble(bulk[..i]) == Assembled(frames, frame)
      invariant records == SplitStream(LogStream(frames)).tail
      invariant out == before + Lines(options, SplitStream(LogStream(frames)).records)
    {
      assert bulk[..i + 1] == bulk[..i] + [bulk[i]];
      AssembleOneMore(bulk[..i], bulk[i]);
      if bulk[i].Timeout? {
        continue;
      }
      var n := |bulk[i].bytes|;
      frame := frame + bulk[i].bytes;
      var endOfFrame := n < READ_CHUNK;
      if !endOfFrame {
        continue;
      }
      if frame == [] {
        UnloggedFrame(frames, frame);
        frames := frames + [frame];
        continue;
      }
      records, out, done := EndFrame(options, frame, records, out, frames, before);
      frames := frames + [frame];
      if done {
        CutShort(options, before, bulk, i + 1, out);
        return;
      }
      frame := [];
    }
    assert bulk[..|bulk|] == bulk;
  }

  /**
   `run`: what is printed is what the connections print one after the other, each from an empty
   buffer, up to the one limit they share. The deadline may end the attempts, and the last connection,
   anywhere; `attempts` is what came before it.
   */
  method Run(options: Options, attempts: seq<Attempt>) returns (out: seq<string>)
    ensures out == Cut(options, Lines(options, AllRecords(attempts)))
  {
    out := [];
    for i := 0 to |attempts|
      invariant !Full(options, |out|)
      invariant out + Lines(options, AllRecords(attempts[i..])) == Lines(options, AllRecords(attempts))
    {
      assert attempts[i..][1..] == attempts[i + 1..];
      if attempts[i].NoDevice? {
        assert [] + AllRecords(attempts[i + 1..]) == AllRecords(attempts[i + 1..]);
        continue;
      }
      ghost var later := AllRecords(attempts[i + 1..]);
      LinesAfter(options, out, Followed(attempts[i].bulk).records, later);
      ghost var before := out;
      var records, done;
      records, out, done := Follow(options, attempts[i].bulk, out);
      if done {
        CutIsFinal(options, before + Lines(options, Followed(attempts[i].bulk).records), Lines(options, later));
        return;
      }
    }
    assert out + [] == out;
  }

  // ---------------------------------------------------------------- segmentation

  /** How a frame travels: full reads, and at the end a short one, empty if the frame fills its reads. */
  function Reads(frame: seq<byte>): seq<BulkRead> {
    if |frame| < READ_CHUNK then [Data(frame)]
    else [Data(frame[..READ_CHUNK])] + Reads(frame[READ_CHUNK..])
  }

  function AllReads(frames: seq<seq<byte>>): seq<BulkRead> {
    if frames == [] then [] else AllReads(frames[..|frames| - 1]) + Reads(frames[|frames| - 1])
  }

  function WithoutTimeouts(bulk: seq<BulkRead>): seq<BulkRead> {
    if bulk == [] then []
    else
      var before := WithoutTimeouts(bulk[..|bulk| - 1]);
      if bulk[|bulk| - 1].Timeout? then before else before + [bulk[|bulk| - 1]]
  }

  /** Some full reads' worth of bytes. */
  predicate IsFullReads(open: seq<byte>) {
    open == [] || (|open| >= READ_CHUNK && IsFullReads(open[..|open| - READ_CHUNK]))
  }

  /** The full reads of a frame that is still open. */
  function OpenReads(open: seq<byte>): seq<BulkRead>
    requires IsFullReads(open)
  {
    if open == [] then [] else OpenReads(open[..|open| - READ_CHUNK]) + [Data(open[|open| - READ_CHUNK..])]
  }

  lemma OneMoreRead(open: seq<byte>, last: BulkData)
    requires IsFullReads(open) && |last| == READ_CHUNK
    ensures IsFullReads(open + last) && OpenReads(open + last) == OpenReads(open) + [Data(last)]
  {
    var more := open + last;
    assert more[..|more| - READ_CHUNK] == open && more[|more| - READ_CHUNK..] == last;
  }

  lemma ReadsFront(front: BulkData, others: seq<byte>)
    requires |front| == READ_CHUNK
    ensures Reads(front + others) == [Data(front)] + Reads(others)
  {
    var frame := front + others;
    assert frame[..READ_CHUNK] == front && frame[READ_CHUNK..] == others;
  }

  /** The full reads of an open frame and then the reads of the rest are the reads of the whole. */
  lemma {:induction false} OpenReadsClose(open: seq<byte>, last: seq<byte>)
    requires IsFullReads(open)
    ensures OpenReads(open) + Reads(last) == Reads(open + last)
    decreases |open|
  {
    if open == [] {
      assert open + last == last;
    } else {
      var n := |open| - READ_CHUNK;
      var before, chunk := open[..n], open[n..];
      OpenReadsClose(before, chunk + last);
      ReadsFront(chunk, last);
      Regroup(OpenReads(before), [Data(chunk)], Reads(last));
      Regroup(before, chunk, last);
      assert open == before + chunk;
    }
  }

  /**
   Every sequence of reads is the reads of the frames assembled from it and of the frame still open,
   with timeouts put in between.
   */
  lemma {:induction false} AssembledReads(bulk: seq<BulkRead>)
    ensures var a := Assemble(bulk);
            IsFullReads(a.open) && WithoutTimeouts(bulk) == AllReads(a.frames) + OpenReads(a.open)
  {
    if bulk != [] {
      var before, last := bulk[..|bulk| - 1], bulk[|bulk| - 1];
      AssembledReads(before);
      var a := Assemble(before);
      if last.Data? && |last.bytes| < READ_CHUNK {
        OpenReadsClose(a.open, last.bytes);
        Regroup(AllReads(a.frames), OpenReads(a.open), [last]);
        assert (a.frames + [a.open + last.bytes])[..|a.frames|] == a.frames;
      } else if last.Data? {
        OneMoreRead(a.open, last.bytes);
        Regroup(AllReads(a.frames), OpenReads(a.open), [last]);
      }
    }
  }

  lemma {:induction false} TimeoutsIgnored(bulk: seq<BulkRead>)
    ensures Assemble(WithoutTimeouts(bulk)) == Assemble(bulk)
  {
    if bulk != [] {
      var before, last := bulk[..|bulk| - 1], bulk[|bulk| - 1];
      TimeoutsIgnored(before);
      if last.Data? {
        var kept := WithoutTimeouts(before);
        assert (kept + [last])[..|kept|] == kept;
      }
    }
  }

  lemma {:induction false} FrameAssembled(bulk: seq<BulkRead>, frame: seq<byte>)
    ensures var a := Assemble(bulk);
            Assemble(bulk + Reads(frame)) == Assembled(a.frames + [a.open + frame], [])
    decreases |frame|
  {
    if |frame| < READ_CHUNK {
      AssembleOneMore(bulk, Data(frame));
    } else {
      var front, others := frame[..READ_CHUNK], frame[READ_CHUNK..];
      AssembleOneMore(bulk, Data(front));
      FrameAssembled(bulk + [Data(front)], others);
      Regroup(bulk, [Data(front)], Reads(others));
      Regroup(Assemble(bulk).open, front, others);
      assert frame == front + others;
    }
  }

  lemma {:induction false} FramesAssembled(frames: seq<seq<byte>>)
    ensures Assemble(AllReads(frames)) == Assembled(frames, [])
  {
    if frames != [] {
      var before, last := frames[..|frames| - 1], frames[|frames| - 1];
      FramesAssembled(before);
      var open: seq<byte> := [];
      assert open + last == last && before + [last] == frames;
      FrameAssembled(AllReads(before), last);
    }
  }

  /**
   Segmentation independence: reads deliver exactly some frames, timeouts aside, just when those
   frames are assembled from them; so the records kept and completed depend on the frames alone.
   */
  lemma SegmentationIndependence(bulk: seq<BulkRead>, frames: seq<seq<byte>>)
    ensures WithoutTimeouts(bulk) == AllReads(frames) <==> Assemble(bulk) == Assembled(frames, [])
    ensures WithoutTimeouts(bulk) == AllReads(frames) ==> Followed(bulk) == SplitStream(LogStream(frames))
  {
    TimeoutsIgnored(bulk);
    FramesAssembled(frames);
    AssembledReads(bulk);
    assert AllReads(frames) + [] == AllReads(frames);
  }

  /** The one-line specification: the Log payloads end to end, split, trimmed, filtered and cut. */
  lemma OneConnection(options: Options, bulk: seq<BulkRead>, frames: seq<seq<byte>>,
                      records: seq<seq<byte>>, tail: seq<byte>)
    requires WithoutTimeouts(bulk) == AllReads(frames)
    requires LogStream(frames) == Terminated(records) + tail
    requires RECORD_TERMINATOR !in tail && forall r <- records :: RECORD_TERMINATOR !in r
    ensures Cut(options, Lines(options, AllRecords([Connection(bulk)]))) == Cut(options, Lines(options, records))
    ensures Followed(bulk).tail == tail
  {
    SegmentationIndependence(bulk, frames);
    SplitIsUnique(records, tail);
    var attempts := [Connection(bulk)];
    assert attempts[1..] == [];
    assert AllRecords(attempts) == records + [] == records;
  }

  /** The shortest way to send a record: one connection, one read, one Log frame. */
  function Sending(record: seq<byte>): seq<Attempt>
    requires |record| + 2 < READ_CHUNK
  {
    [Connection([Data([FRAME_LOG] + record + [RECORD_TERMINATOR])])]
  }

  lemma OneFrameStream(frame: BulkData)
    requires |frame| < READ_CHUNK
    ensures LogStream(Assemble([Data(frame)]).frames) == Payload(frame)
  {
    var open: seq<byte> := [];
    AssembleOneMore([], Data(frame));
    assert [] + [Data(frame)] == [Data(frame)] && open + frame == frame;
    assert Assemble([Data(frame)]).frames == [frame] && [frame][..0] == [];
    assert open + Payload(frame) == Payload(frame);
  }

  lemma RecordSent(record: seq<byte>)
    requires |record| + 2 < READ_CHUNK && RECORD_TERMINATOR !in record
    ensures AllRecords(Sending(record)) == [record]
  {
    var frame: seq<byte> := [FRAME_LOG] + record + [RECORD_TERMINATOR];
    OneFrameStream(frame);
    assert Payload(frame) == record + [RECORD_TERMINATOR];
    NoTerminatorNoRecord(record);
    SplitOneMore(record, RECORD_TERMINATOR);
    assert Sending(record)[1..] == [];
  }

  /** With limit 0 a record whose line is not empty is printed. */
  lemma LimitZeroPrintsOne(options: Options, record: seq<byte>)
    requires |record| + 2 < READ_CHUNK && RECORD_TERMINATOR !in record
    requires options.limit == Some(0) && Shown(options, TrimEnd(options.decode(record)))
    ensures Cut(options, Lines(options, AllRecords(Sending(record)))) == [TrimEnd(options.decode(record))]
  {
    RecordSent(record);
    assert [record][1..] == [];
  }

  // ---------------------------------------------------------------- the whole run

  lemma {:induction false} AllRecordsAppend(a: seq<Attempt>, b: seq<Attempt>)
    ensures AllRecords(a + b) == AllRecords(a) + AllRecords(b)
  {
    if a == [] {
      assert a + b == b && [] + AllRecords(b) == AllRecords(b);
    } else {
      assert a + b == [a[0]] + (a[1..] + b) && (a + b)[1..] == a[1..] + b;
      AllRecordsAppend(a[1..], b);
      var first := if a[0].NoDevice? then [] else Followed(a[0].bulk).records;
      Regroup(first, AllRecords(a[1..]), AllRecords(b));
    }
  }

  lemma OneAttempt(attempt: Attempt)
    ensures AllRecords([attempt]) == if attempt.NoDevice? then [] else Followed(attempt.bulk).records
  {
    var records := if attempt.NoDevice? then [] else Followed(attempt.bulk).records;
    assert [attempt][1..] == [] && records + [] == records;
  }

  /** A frame as the device sends it: a type byte and a payload. */
  datatype Sent = Sent(kind: byte, payload: seq<byte>)

  function FrameOf(sent: Sent): seq<byte> {
    [sent.kind] + sent.payload
  }

  function FramesOf(sent: seq<Sent>): seq<seq<byte>> {
    seq(|sent|, i requires 0 <= i < |sent| => FrameOf(sent[i]))
  }

  /** The payloads of the Log frames, which are those of type 1, end to end. */
  function LogBytes(sent: seq<Sent>): seq<byte> {
    if sent == [] then []
    else
      var before, last := LogBytes(sent[..|sent| - 1]), sent[|sent| - 1];
      if last.kind == 1 then before + last.payload else before
  }

  lemma {:induction false} StreamOfFrames(sent: seq<Sent>)
    ensures LogStream(FramesOf(sent)) == LogBytes(sent)
  {
    if sent != [] {
      var before, last := sent[..|sent| - 1], sent[|sent| - 1];
      var frames := FramesOf(sent);
      StreamOfFrames(before);
      assert frames[..|frames| - 1] == FramesOf(before) && frames[|frames| - 1] == FrameOf(last);
      assert FrameOf(last)[1..] == last.payload && LogBytes(before) + [] == LogBytes(before);
    }
  }

  /**
   One connection: its reads, the whole frames sent and the full reads of one it broke off in, the records
   that the whole frames hold, and what is left without a terminator.
   */
  datatype Link = Link(bulk: seq<BulkRead>, sent: seq<Sent>, open: seq<byte>, records: seq<seq<byte>>, tail: seq<byte>)

  /** Records each closed by the byte 0x1e. */
  function Closed(records: seq<seq<byte>>): seq<byte> {
    if records == [] then [] else records[0] + [0x1e] + Closed(records[1..])
  }

  /** The reads deliver the frames, timeouts aside, and the Log frames among them hold the records. */
  predicate ValidLink(link: Link) {
    && IsFullReads(link.open)
    && WithoutTimeouts(link.bulk) == AllReads(FramesOf(link.sent)) + OpenReads(link.open)
    && LogBytes(link.sent) == Closed(link.records) + link.tail
    && 0x1e !in link.tail && forall r <- link.records :: 0x1e !in r
  }

  lemma {:induction false} ClosedAppend(a: seq<seq<byte>>, b: seq<seq<byte>>)
    ensures Closed(a + b) == Closed(a) + Closed(b)
  {
    if a == [] {
      assert a + b == b && [] + Closed(b) == Closed(b);
    } else {
      assert (a + b)[1..] == a[1..] + b;
      ClosedAppend(a[1..], b);
      Regroup(a[0] + [0x1e], Closed(a[1..]), Closed(b));
    }
  }

  lemma {:induction false} ClosedIsTerminated(records: seq<seq<byte>>)
    ensures Closed(records) == Terminated(records)
  {
    if records != [] {
      var before, last := records[..|records| - 1], records[|records| - 1];
      ClosedIsTerminated(before);
      ClosedAppend(before, [last]);
      var one := [last];
      assert before + one == records && one[1..] == [];
      assert Closed(one) == last + [0x1e] + Closed([]) == last + [0x1e];
      Regroup(Closed(before), last, [0x1e]);
    }
  }

  lemma {:induction false} OpenAssembled(frames: seq<seq<byte>>, open: seq<byte>)
    requires IsFullReads(open)
    ensures Assemble(AllReads(frames) + OpenReads(open)) == Assembled(frames, open)
    decreases |open|
  {
    if open == [] {
      FramesAssembled(frames);
      assert AllReads(frames) + [] == AllReads(frames);
    } else {
      var n := |open| - READ_CHUNK;
      var before, last := open[..n], open[n..];
      OpenAssembled(frames, before);
      Regroup(AllReads(frames), OpenReads(before), [Data(last)]);
      AssembleOneMore(AllReads(frames) + OpenReads(before), Data(last));
      assert before + last == open;
    }
  }

  lemma LinkFollowed(link: Link)
    requires ValidLink(link)
    ensures Followed(link.bulk) == Split(link.records, link.tail)
  {
    TimeoutsIgnored(link.bulk);
    OpenAssembled(FramesOf(link.sent), link.open);
    StreamOfFrames(link.sent);
    ClosedIsTerminated(link.records);
    SplitIsUnique(link.records, link.tail);
  }

  /** The reconnect loop meets these links, with failed attempts in between. */
  predicate Meets(attempts: seq<Attempt>, links: seq<Link>) {
    if attempts == [] then links == []
    else if attempts[0].NoDevice? then Meets(attempts[1..], links)
    else links != [] && attempts[0].bulk == links[0].bulk && Meets(attempts[1..], links[1..])
  }

  /** The records of the links, one link after the other. */
  function LinkRecords(links: seq<Link>): seq<seq<byte>> {
    if links == [] then [] else links[0].records + LinkRecords(links[1..])
  }

  /** Reconnecting: the records are those of each connection in turn, and no record spans two of them. */
  lemma {:induction false} Reconnects(attempts: seq<Attempt>, links: seq<Link>)
    requires Meets(attempts, links) && forall l <- links :: ValidLink(l)
    ensures AllRecords(attempts) == LinkRecords(links)
    decreases |attempts|
  {
    if attempts != [] {
      var later := attempts[1..];
      AllRecordsAppend([attempts[0]], later);
      assert attempts == [attempts[0]] + later;
      OneAttempt(attempts[0]);
      if attempts[0].NoDevice? {
        Reconnects(later, links);
        assert [] + AllRecords(later) == AllRecords(later);
      } else {
        assert links[0] in links;
        LinkFollowed(links[0]);
        Reconnects(later, links[1..]);
      }
    }
  }

  /** What is printed of a record: its text without line ends, if it is not empty and holds what is asked for. */
  ghost predicate IsLineOf(options: Options, record: seq<byte>, line: string) {
    && (exists ends: string :: options.decode(record) == line + ends && forall c <- ends :: c == '\r' || c == '\n')
    && line != [] && line[|line| - 1] != '\r' && line[|line| - 1] != '\n'
    && match options.filter
       case None => true
       case Some(want) => exists before, after :: line == before + want + after
  }

  lemma ContainsExactly(line: string, want: string)
    ensures Contains(line, want) <==> exists before, after :: line == before + want + after
  {
    if i :| 0 <= i <= |line| && want <= line[i..] {
      assert line == line[..i] + want + line[i..][|want|..];
    }
    forall before, after | line == before + want + after
      ensures Contains(line, want)
    {
      assert want <= line[|before|..];
    }
  }

  lemma {:induction false} TrimmedOnce(line: string, ends: string)
    requires forall c <- ends :: c == '\r' || c == '\n'
    requires line == [] || (line[|line| - 1] != '\r' && line[|line| - 1] != '\n')
    ensures TrimEnd(line + ends) == line
    decreases |ends|
  {
    if ends == [] {
      assert line + ends == line;
    } else {
      var before, last := ends[..|ends| - 1], ends[|ends| - 1];
      assert last in ends && (line + ends)[..|line + ends| - 1] == line + before;
      assert forall c <- before :: c in ends;
      TrimmedOnce(line, before);
    }
  }

  lemma TrimmedLine(options: Options, record: seq<byte>)
    ensures var line := TrimEnd(options.decode(record)); Shown(options, line) <==> IsLineOf(options, record, line)
  {
    var text := options.decode(record);
    var line := TrimEnd(text);
    var ends := text[|line|..];
    assert text == line + ends;
    forall c | c in ends
      ensures c == '\r' || c == '\n'
    {
      var i :| 0 <= i < |ends| && ends[i] == c;
      assert text[|line| + i] == c;
    }
    if options.filter.Some? {
      ContainsExactly(line, options.filter.value);
    }
  }

  lemma LineOfRecord(options: Options, record: seq<byte>, line: string)
    requires IsLineOf(options, record, line)
    ensures line == TrimEnd(options.decode(record))
  {
    var ends: string :| options.decode(record) == line + ends && forall c <- ends :: c == '\r' || c == '\n';
    TrimmedOnce(line, ends);
  }

  /** One record prints its line, or nothing if it has none. */
  lemma LinesOfOne(options: Options, record: seq<byte>)
    ensures forall line :: IsLineOf(options, record, line) <==> Lines(options, [record]) == [line]
    ensures (forall line :: !IsLineOf(options, record, line)) <==> Lines(options, [record]) == []
  {
    var shown := TrimEnd(options.decode(record));
    TrimmedLine(options, record);
    assert [record][1..] == [] && [shown] + [] == [shown];
    forall line | IsLineOf(options, record, line)
      ensures line == shown
    {
      LineOfRecord(options, record, line);
    }
  }

  /** As many lines as the limit lets through, from the front; a limit of 0 lets one through. */
  lemma CutExactly(options: Options, lines: seq<string>)
    ensures Cut(options, lines) <= lines
    ensures |Cut(options, lines)| == match options.limit
                                     case None => |lines|
                                     case Some(limit) => if limit >= |lines| then |lines|
                                                         else if limit == 0 then 1
                                                         else limit
  {
  }

  /** The run as a whole: the lines of every connection's records, in order, cut once at the front. */
  lemma AllConnections(options: Options, attempts: seq<Attempt>, links: seq<Link>)
    requires Meets(attempts, links) && forall l <- links :: ValidLink(l)
    ensures Cut(options, Lines(options, AllRecords(attempts))) == Cut(options, Lines(options, LinkRecords(links)))
  {
    Reconnects(attempts, links);
  }
}
