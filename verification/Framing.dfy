/**
 Length-prefixed frames: what the bridge and the client write, how the two readers cut the byte stream
 back into frames, and the saved state, which uses the same prefix. The chunk codec is abstract.
 */
module Framing {
  import opened Bytes
  import opened Wrappers

  // ---------------------------------------------------------------- frames on the wire

  function Frame(chunk: seq<byte>): seq<byte> {
    Be32(|chunk|) + chunk
  }

  function Wire(chunks: seq<seq<byte>>): seq<byte> {
    if chunks == [] then [] else Frame(chunks[0]) + Wire(chunks[1..])
  }

  predicate Fits(chunk: seq<byte>) {
    |chunk| < 0x1_0000_0000
  }

  /** The first whole frame of a byte stream and what follows it. */
  function FirstFrame(bytes: seq<byte>): (f: Option<(seq<byte>, seq<byte>)>)
    ensures f.Some? ==> |f.value.1| < |bytes|
  {
    if |bytes| < 4 then None
    else
      var length := FromBe32(bytes[..4]);
      if |bytes| < 4 + length then None else Some((bytes[4..4 + length], bytes[4 + length..]))
  }

  /** Every whole frame of a byte stream. */
  function Frames(bytes: seq<byte>): seq<seq<byte>>
    decreases |bytes|
  {
    match FirstFrame(bytes)
    case None => []
    case Some((payload, rest)) => [payload] + Frames(rest)
  }

  lemma TakenOff(prefix: seq<byte>, payload: seq<byte>, rest: seq<byte>)
    requires |prefix| == 4 && FromBe32(prefix) == |payload|
    ensures FirstFrame(prefix + payload + rest) == Some((payload, rest))
  {
    var bytes := prefix + payload + rest;
    assert bytes[..4] == prefix;
    assert bytes[4..4 + |payload|] == payload && bytes[4 + |payload|..] == rest;
  }

  lemma FrameTakenOff(payload: seq<byte>, rest: seq<byte>)
    requires Fits(payload)
    ensures FirstFrame(Frame(payload) + rest) == Some((payload, rest))
  {
    Be32RoundTrip(|payload|);
    TakenOff(Be32(|payload|), payload, rest);
  }

  lemma FrameWasPut(bytes: seq<byte>)
    requires FirstFrame(bytes).Some?
    ensures var (payload, rest) := FirstFrame(bytes).value; Fits(payload) && bytes == Frame(payload) + rest
  {
    var prefix := bytes[..4];
    FromBe32RoundTrip(prefix);
    var n := FromBe32(prefix);
    assert bytes == prefix + bytes[4..4 + n] + bytes[4 + n..];
  }

  /** A frame is taken off the stream exactly when it was put there with a length that fits the prefix. */
  lemma FirstFrameExactly(bytes: seq<byte>, payload: seq<byte>, rest: seq<byte>)
    ensures FirstFrame(bytes) == Some((payload, rest)) <==> Fits(payload) && bytes == Frame(payload) + rest
  {
    if FirstFrame(bytes).Some? {
      FrameWasPut(bytes);
    }
    if Fits(payload) {
      FrameTakenOff(payload, rest);
    }
  }

  /** Chunks come back as written, whatever follows them. */
  lemma {:induction false} FramesOfWire(chunks: seq<seq<byte>>, rest: seq<byte>)
    requires forall c <- chunks :: Fits(c)
    ensures Frames(Wire(chunks) + rest) == chunks + Frames(rest)
  {
    if chunks == [] {
      assert Wire(chunks) + rest == rest;
    } else {
      var others := Wire(chunks[1..]) + rest;
      Regroup(Frame(chunks[0]), Wire(chunks[1..]), rest);
      FrameTakenOff(chunks[0], others);
      FramesOfWire(chunks[1..], rest);
    }
  }

  lemma {:induction false} WireAppend(a: seq<seq<byte>>, b: seq<seq<byte>>)
    ensures Wire(a + b) == Wire(a) + Wire(b)
  {
    if a == [] {
      assert a + b == b;
    } else {
      assert (a + b)[1..] == a[1..] + b;
      WireAppend(a[1..], b);
    }
  }

  /** Cut anywhere, the stream still holds the chunks whose frames are whole, and no others. */
  lemma {:induction false} FramesOfCut(chunks: seq<seq<byte>>, k: nat)
    requires (forall c <- chunks :: Fits(c)) && k <= |Wire(chunks)|
    ensures Frames(Wire(chunks)[..k]) <= chunks
  {
    if chunks != [] {
      var frame, others := Frame(chunks[0]), Wire(chunks[1..]);
      var n := |frame|;
      if k < n {
        HalfFrame(chunks[0], k);
        assert Wire(chunks)[..k] == frame[..k];
      } else {
        assert Wire(chunks)[..k] == frame + others[..k - n];
        FrameTakenOff(chunks[0], others[..k - n]);
        FramesOfCut(chunks[1..], k - n);
      }
    }
  }

  lemma HalfFrame(chunk: seq<byte>, k: nat)
    requires Fits(chunk) && k < |Frame(chunk)|
    ensures Frames(Frame(chunk)[..k]) == []
  {
    var part := Frame(chunk)[..k];
    if k >= 4 {
      assert part[..4] == Be32(|chunk|);
      Be32RoundTrip(|chunk|);
    }
  }

  // ---------------------------------------------------------------- writing

  /** The BTP library, abstractly: cut a record into chunks, decode one, put decoded ones together. */
  datatype Codec<!C, !D> = Codec(
    chunk: seq<byte> -> seq<seq<byte>>,
    decode: seq<byte> -> Option<C>,
    insert: (D, C) -> (D, Option<seq<byte>>))

  /** The writing end of a connection, which breaks once `room` more bytes are written. */
  class Sink {
    var bytes: seq<byte>
    var room: nat

    constructor (room: nat)
      ensures bytes == [] && this.room == room
    {
      this.bytes, this.room := [], room;
    }

    method WriteAll(data: seq<byte>) returns (ok: bool)
      modifies this
      ensures ok == (|data| <= old(room))
      ensures bytes == old(bytes) + data[..Min(old(room), |data|)]
      ensures room == old(room) - Min(old(room), |data|)
    {
      ok := |data| <= room;
      var n := Min(room, |data|);
      bytes, room := bytes + data[..n], room - n;
    }
  }

  /** Where chunk `i` stands on the wire. */
  lemma WireAt(chunks: seq<seq<byte>>, i: nat)
    requires i < |chunks|
    ensures var pos, n := |Wire(chunks[..i])|, |chunks[i]|;
            && |Wire(chunks[..i + 1])| == pos + 4 + n <= |Wire(chunks)|
            && Wire(chunks)[pos..pos + 4] == Be32(n)
            && Wire(chunks)[pos + 4..pos + 4 + n] == chunks[i]
  {
    var one, before, after := [chunks[i]], chunks[..i], chunks[i + 1..];
    assert chunks[..i + 1] == before + one && chunks == before + one + after;
    WireAppend(before, one);
    WireAppend(before + one, after);
    assert Wire(one) == Frame(chunks[i]) + [];
    FrameAt(Wire(before), chunks[i], Wire(after));
  }

  lemma FrameAt(before: seq<byte>, chunk: seq<byte>, after: seq<byte>)
    ensures var wire, pos := before + Frame(chunk) + after, |before|;
            wire[pos..pos + 4] == Be32(|chunk|) && wire[pos + 4..pos + 4 + |chunk|] == chunk
  {
    var prefix := Be32(|chunk|);
    var wire := before + (prefix + chunk) + after;
    assert wire == before + prefix + chunk + after;
  }

  /** `write_all` of the next part of what is to go on the wire. */
  method WriteNext(sink: Sink, data: seq<byte>, ghost start: seq<byte>, ghost wire: seq<byte>, ghost pos: nat)
    returns (ok: bool)
    requires pos + |data| <= |wire| && wire[pos..pos + |data|] == data && sink.bytes == start + wire[..pos]
    modifies sink
    ensures ok == (|data| <= old(sink.room))
    ensures sink.bytes == start + wire[..pos + Min(old(sink.room), |data|)]
    ensures sink.room == old(sink.room) - Min(old(sink.room), |data|)
  {
    ghost var n := Min(sink.room, |data|);
    assert wire[..pos] + wire[pos..pos + |data|][..n] == wire[..pos + n];
    Regroup(start, wire[..pos], data[..n]);
    ok := sink.WriteAll(data);
  }

  /** One turn of that loop: the prefix and the chunk, in two writes. */
  method SendChunk(sink: Sink, chunk: seq<byte>, ghost start: seq<byte>, ghost wire: seq<byte>, ghost pos: nat)
    returns (ok: bool)
    requires pos + 4 + |chunk| <= |wire| && sink.bytes == start + wire[..pos]
    requires wire[pos..pos + 4] == Be32(|chunk|) && wire[pos + 4..pos + 4 + |chunk|] == chunk
    modifies sink
    ensures ok == (4 + |chunk| <= old(sink.room))
    ensures sink.bytes == start + wire[..pos + Min(old(sink.room), 4 + |chunk|)]
    ensures sink.room == old(sink.room) - Min(old(sink.room), 4 + |chunk|)
  {
    var length := Be32(|chunk|);
    ok := WriteNext(sink, length, start, wire, pos);
    if !ok {
      return;
    }
    ok := WriteNext(sink, chunk, start, wire, pos + 4);
  }

  /** The loop over one record's chunks, the same in `spawn_tcp_btp_bridge` and `send_envelope`. */
  method SendChunks(sink: Sink, chunks: seq<seq<byte>>) returns (ok: bool)
    modifies sink
    ensures ok == (|Wire(chunks)| <= old(sink.room))
    ensures sink.bytes == old(sink.bytes) + Wire(chunks)[..Min(old(sink.room), |Wire(chunks)|)]
    ensures sink.room == old(sink.room) - Min(old(sink.room), |Wire(chunks)|)
  {
    ghost var start, wire, pos := sink.bytes, Wire(chunks), 0;
    for i := 0 to |chunks|
      invariant pos == |Wire(chunks[..i])| <= |wire|
      invariant pos <= old(sink.room) && sink.room == old(sink.room) - pos
      invariant sink.bytes == start + wire[..pos]
    {
      WireAt(chunks, i);
      ok := SendChunk(sink, chunks[i], start, wire, pos);
      if !ok {
        return;
      }
      pos := pos + 4 + |chunks[i]|;
    }
    assert chunks[..|chunks|] == chunks;
    ok := true;
  }

  function AllChunks<C, D>(codec: Codec<C, D>, records: seq<seq<byte>>): seq<seq<byte>> {
    if records == [] then [] else codec.chunk(records[0]) + AllChunks(codec, records[1..])
  }

  /** The bytes of `done + next + later` that are on the wire when `room` was left for `next`. */
  predicate OnWire(sink: Sink, start: seq<byte>, wire: seq<byte>, room: nat)
    reads sink
  {
    && sink.bytes == start + wire[..Min(room, |wire|)]
    && sink.room == room - Min(room, |wire|)
  }

  /** One turn of the tx task: `done` is on the wire, the chunks of this record are next, then `later`. */
  method TxRecord(chunks: seq<seq<byte>>, sink: Sink, ghost start: seq<byte>, ghost done: seq<byte>,
                  ghost later: seq<byte>, ghost room: nat)
    returns (ok: bool)
    requires |done| <= room && OnWire(sink, start, done, room)
    modifies sink
    ensures ok ==> |done + Wire(chunks)| <= room && OnWire(sink, start, done + Wire(chunks), room)
    ensures !ok ==> OnWire(sink, start, done + (Wire(chunks) + later), room)
  {
    ghost var part := Wire(chunks);
    SentSoFar(start, done, part, later, Min(sink.room, |part|));
    ok := SendChunks(sink, chunks);
  }

  /** The tx task: the bytes written are those of all chunks in order, as far as the link lasts. */
  method BridgeTx<C, D>(codec: Codec<C, D>, records: seq<seq<byte>>, sink: Sink)
    modifies sink
    ensures var wire := Wire(AllChunks(codec, records));
            && sink.bytes == old(sink.bytes) + wire[..Min(old(sink.room), |wire|)]
            && sink.room == old(sink.room) - Min(old(sink.room), |wire|)
  {
    ghost var start, room, wire := sink.bytes, sink.room, Wire(AllChunks(codec, records));
    ghost var done: seq<byte> := [];
    assert records[0..] == records && done + wire == wire;
    for i := 0 to |records|
      invariant done + Wire(AllChunks(codec, records[i..])) == wire
      invariant |done| <= room && OnWire(sink, start, done, room)
    {
      var chunks := codec.chunk(records[i]);
      ghost var next, later := Wire(chunks), Wire(AllChunks(codec, records[i + 1..]));
      TxStep(codec, records, i, done);
      assert done + (next + later) == wire;
      var ok := TxRecord(chunks, sink, start, done, later, room);
      if !ok {
        return;
      }
      done := done + next;
    }
    assert done + [] == done;
  }

  lemma TxStep<C, D>(codec: Codec<C, D>, records: seq<seq<byte>>, i: nat, done: seq<byte>)
    requires i < |records|
    ensures var next, later := Wire(codec.chunk(records[i])), Wire(AllChunks(codec, records[i + 1..]));
            && Wire(AllChunks(codec, records[i..])) == next + later
            && done + next + later == done + (next + later)
  {
    var next, later := Wire(codec.chunk(records[i])), Wire(AllChunks(codec, records[i + 1..]));
    assert records[i..][1..] == records[i + 1..];
    WireAppend(codec.chunk(records[i]), AllChunks(codec, records[i + 1..]));
    Regroup(done, next, later);
  }

  lemma SentSoFar(start: seq<byte>, done: seq<byte>, part: seq<byte>, later: seq<byte>, n: nat)
    requires n <= |part|
    ensures done[..|done|] == done
    ensures start + done + part[..n] == start + (done + (part + later))[..|done| + n]
    ensures part[..|part|] == part && start + done + part == start + (done + part)[..|done + part|]
  {
    assert (done + (part + later))[..|done| + n] == done + part[..n];
    assert (done + part)[..|done + part|] == done + part;
  }

  // ---------------------------------------------------------------- reading

  /** The reading end of a connection that closes after `bytes`. */
  class Source {
    var bytes: seq<byte>

    constructor (bytes: seq<byte>)
      ensures this.bytes == bytes
    {
      this.bytes := bytes;
    }

    method ReadExact(n: nat) returns (data: Option<seq<byte>>)
      modifies this
      ensures if n <= |old(bytes)| then data == Some(old(bytes)[..n]) && bytes == old(bytes)[n..]
              else data == None && bytes == []
    {
      if n <= |bytes| {
        data, bytes := Some(bytes[..n]), bytes[n..];
      } else {
        data, bytes := None, [];
      }
    }
  }

  /** What the payloads of some frames yield: the dechunker after them and the envelopes completed. */
  function Envelopes<C, D>(codec: Codec<C, D>, d: D, frames: seq<seq<byte>>): (D, seq<seq<byte>>) {
    if frames == [] then (d, [])
    else
      match codec.decode(frames[0])
      case None => Envelopes(codec, d, frames[1..])
      case Some(c) =>
        var (d', done) := codec.insert(d, c);
        var later := Envelopes(codec, d', frames[1..]);
        (later.0, if done.Some? then [done.value] + later.1 else later.1)
  }

  /** The runtime's end of the bridge, which takes `room` more records before it is closed. */
  class Inbound {
    var records: seq<seq<byte>>
    var room: nat

    constructor (room: nat)
      ensures records == [] && this.room == room
    {
      this.records, this.room := [], room;
    }

    method Send(record: seq<byte>) returns (ok: bool)
      modifies this
      ensures ok == (old(room) > 0)
      ensures records == (if ok then old(records) + [record] else old(records))
      ensures room == if ok then old(room) - 1 else 0
    {
      ok := room > 0;
      if ok {
        records, room := records + [record], room - 1;
      }
    }
  }

  /** What the rx task leaves of the stream: nothing, or what follows the record it could not deliver. */
  function Unread<C, D>(codec: Codec<C, D>, d: D, bytes: seq<byte>, room: nat): seq<byte>
    decreases |bytes|
  {
    match FirstFrame(bytes)
    case None => []
    case Some((payload, rest)) =>
      match codec.decode(payload)
      case None => Unread(codec, d, rest, room)
      case Some(c) =>
        var (d', done) := codec.insert(d, c);
        if done.None? then Unread(codec, d', rest, room)
        else if room == 0 then rest
        else Unread(codec, d', rest, room - 1)
  }

  /** The rx task of the bridge, until the connection or the runtime's end closes. */
  method BridgeRx<C, D>(codec: Codec<C, D>, start: D, source: Source, inbound: Inbound)
    modifies source, inbound
    ensures var records := Envelopes(codec, start, Frames(old(source.bytes))).1;
            && inbound.records == old(inbound.records) + records[..Min(old(inbound.room), |records|)]
            && inbound.room == old(inbound.room) - Min(old(inbound.room), |records|)
    ensures source.bytes == Unread(codec, start, old(source.bytes), old(inbound.room))
  {
    ghost var all := Envelopes(codec, start, Frames(source.bytes)).1;
    ghost var taken := 0;
    var dechunker := start;
    while true
      invariant taken <= |all| && Envelopes(codec, dechunker, Frames(source.bytes)).1 == all[taken..]
      invariant taken + inbound.room == old(inbound.room)
      invariant inbound.records == old(inbound.records) + all[..taken]
      invariant Unread(codec, dechunker, source.bytes, inbound.room)
             == Unread(codec, start, old(source.bytes), old(inbound.room))
      decreases |source.bytes|
    {
      ghost var bytes := source.bytes;
      var length := source.ReadExact(4);
      if length.None? {
        return;
      }
      var payload := source.ReadExact(FromBe32(length.value));
      if payload.None? {
        return;
      }
      SameFrame(bytes, payload.value, source.bytes);
      RxYields(codec, dechunker, bytes, payload.value, source.bytes);
      match codec.decode(payload.value) {
        case None =>
        case Some(chunk) =>
          var (d', done) := codec.insert(dechunker, chunk);
          dechunker := d';
          if done.Some? {
            OneMore(old(inbound.records), all, taken, done.value, Envelopes(codec, d', Frames(source.bytes)).1);
            var ok := inbound.Send(done.value);
            if !ok {
              return;
            }
            taken := taken + 1;
          }
      }
    }
  }

  /** One frame of the rx task: what it yields. */
  lemma RxYields<C, D>(codec: Codec<C, D>, d: D, bytes: seq<byte>, payload: seq<byte>, rest: seq<byte>)
    requires FirstFrame(bytes) == Some((payload, rest))
    ensures Envelopes(codec, d, Frames(bytes)).1
         == match codec.decode(payload)
            case None => Envelopes(codec, d, Frames(rest)).1
            case Some(c) =>
              var (d', done) := codec.insert(d, c);
              var later := Envelopes(codec, d', Frames(rest)).1;
              if done.Some? then [done.value] + later else later
  {
    EnvelopesOf(codec, d, payload, Frames(rest));
  }

  lemma OneMore<T>(start: seq<T>, all: seq<T>, taken: nat, next: T, later: seq<T>)
    requires taken <= |all| && all[taken..] == [next] + later
    ensures taken < |all| && later == all[taken + 1..]
    ensures start + all[..taken] + [next] == start + all[..taken + 1]
  {
    assert all[taken..][1..] == later;
  }

  lemma EnvelopesOf<C, D>(codec: Codec<C, D>, d: D, payload: seq<byte>, frames: seq<seq<byte>>)
    ensures Envelopes(codec, d, [payload] + frames)
         == match codec.decode(payload)
            case None => Envelopes(codec, d, frames)
            case Some(c) =>
              var (d', done) := codec.insert(d, c);
              var later := Envelopes(codec, d', frames);
              (later.0, if done.Some? then [done.value] + later.1 else later.1)
  {
    assert ([payload] + frames)[1..] == frames;
  }

  lemma SameFrame(bytes: seq<byte>, payload: seq<byte>, rest: seq<byte>)
    requires |bytes| >= 4 && |bytes| >= 4 + FromBe32(bytes[..4])
    requires payload == bytes[4..][..FromBe32(bytes[..4])] && rest == bytes[4..][FromBe32(bytes[..4])..]
    ensures FirstFrame(bytes) == Some((payload, rest))
    ensures Frames(bytes) == [payload] + Frames(rest)
  {
    var n := FromBe32(bytes[..4]);
    assert bytes[4..][..n] == bytes[4..4 + n] && bytes[4..][n..] == bytes[4 + n..];
  }

  /** One call of `recv_envelope`: an envelope, or the end of the connection. */
  datatype Received<D> = Envelope(envelope: seq<byte>, dechunker: D, rest: seq<byte>) | Closed(dechunker: D)

  function Recv<C, D>(codec: Codec<C, D>, d: D, bytes: seq<byte>): (r: Received<D>)
    ensures r.Envelope? ==> |r.rest| < |bytes|
    decreases |bytes|
  {
    match FirstFrame(bytes)
    case None => Closed(d)
    case Some((payload, rest)) =>
      match codec.decode(payload)
      case None => Recv(codec, d, rest)
      case Some(c) =>
        var (d', done) := codec.insert(d, c);
        match done
        case None => Recv(codec, d', rest)
        case Some(e) => Envelope(e, d', rest)
  }

  /** The client's transport; its two halves are the two ends of one TCP stream. */
  class Transport<C, D> {
    const codec: Codec<C, D>
    const source: Source
    const sink: Sink
    var dechunker: D

    constructor (codec: Codec<C, D>, source: Source, sink: Sink, start: D)
      ensures this.codec == codec && this.source == source && this.sink == sink && dechunker == start
    {
      this.codec, this.source, this.sink, this.dechunker := codec, source, sink, start;
    }

    method SendEnvelope(cbor: seq<byte>) returns (ok: bool)
      modifies sink
      ensures var wire := Wire(codec.chunk(cbor));
              && ok == (|wire| <= old(sink.room))
              && sink.bytes == old(sink.bytes) + wire[..Min(old(sink.room), |wire|)]
              && sink.room == old(sink.room) - Min(old(sink.room), |wire|)
    {
      ok := SendChunks(sink, codec.chunk(cbor));
    }

    method RecvEnvelope() returns (result: Option<seq<byte>>)
      modifies this, source
      ensures match Recv(codec, old(dechunker), old(source.bytes))
              case Envelope(e, d, rest) => result == Some(e) && dechunker == d && source.bytes == rest
              case Closed(d) => result == None && dechunker == d && source.bytes == []
    {
      while true
        invariant Recv(codec, dechunker, source.bytes) == Recv(codec, old(dechunker), old(source.bytes))
        decreases |source.bytes|
      {
        ghost var bytes := source.bytes;
        var length := source.ReadExact(4);
        if length.None? {
          return None;
        }
        var payload := source.ReadExact(FromBe32(length.value));
        if payload.None? {
          return None;
        }
        SameFrame(bytes, payload.value, source.bytes);
        match codec.decode(payload.value) {
          case None =>
          case Some(chunk) =>
            var (d', done) := codec.insert(dechunker, chunk);
            dechunker := d';
            if done.Some? {
              return Some(done.value);
            }
        }
      }
    }
  }

  /** All envelopes that repeated calls of `recv_envelope` return. */
  function RecvAll<C, D>(codec: Codec<C, D>, d: D, bytes: seq<byte>): seq<seq<byte>>
    decreases |bytes|
  {
    match Recv(codec, d, bytes)
    case Closed(_) => []
    case Envelope(e, d', rest) => [e] + RecvAll(codec, d', rest)
  }

  /** The synchronous and the asynchronous reader extract the same frames: they yield the same envelopes. */
  lemma {:induction false} ReadersAgree<C, D>(codec: Codec<C, D>, d: D, bytes: seq<byte>)
    ensures RecvAll(codec, d, bytes) == Envelopes(codec, d, Frames(bytes)).1
    decreases |bytes|
  {
    match FirstFrame(bytes)
    case None =>
    case Some((payload, rest)) =>
      assert Frames(bytes) == [payload] + Frames(rest) && Frames(bytes)[1..] == Frames(rest);
      match codec.decode(payload) {
        case None => ReadersAgree(codec, d, rest);
        case Some(c) =>
          var (d', done) := codec.insert(d, c);
          ReadersAgree(codec, d', rest);
      }
  }

  function Decodable<C, D>(codec: Codec<C, D>, frames: seq<seq<byte>>): seq<seq<byte>> {
    if frames == [] then []
    else (if codec.decode(frames[0]).Some? then [frames[0]] else []) + Decodable(codec, frames[1..])
  }

  /** A payload that fails to decode costs only its own frame. */
  lemma {:induction false} BadFramesAreDropped<C, D>(codec: Codec<C, D>, d: D, frames: seq<seq<byte>>)
    ensures Envelopes(codec, d, frames) == Envelopes(codec, d, Decodable(codec, frames))
  {
    if frames != [] {
      var others := Decodable(codec, frames[1..]);
      match codec.decode(frames[0]) {
        case None =>
          assert Decodable(codec, frames) == others;
          BadFramesAreDropped(codec, d, frames[1..]);
        case Some(c) =>
          assert Decodable(codec, frames)[1..] == others;
          BadFramesAreDropped(codec, codec.insert(d, c).0, frames[1..]);
      }
    }
  }

  /**
   What the asynchronous reader leaves when it can deliver `room` records only is what the synchronous one
   leaves after that many calls and one more; with room for all it leaves nothing.
   */
  lemma {:induction false} UnreadIsRest<C, D>(codec: Codec<C, D>, d: D, bytes: seq<byte>, room: nat)
    ensures Unread(codec, d, bytes, room)
         == match Recv(codec, d, bytes)
            case Closed(_) => []
            case Envelope(_, d', rest) => if room == 0 then rest else Unread(codec, d', rest, room - 1)
    decreases |bytes|
  {
    match FirstFrame(bytes)
    case None =>
    case Some((payload, rest)) =>
      match codec.decode(payload) {
        case None => UnreadIsRest(codec, d, rest, room);
        case Some(c) =>
          var (d', done) := codec.insert(d, c);
          if done.None? {
            UnreadIsRest(codec, d', rest, room);
          }
      }
  }

  lemma {:induction false} RoomForAll<C, D>(codec: Codec<C, D>, d: D, bytes: seq<byte>, room: nat)
    requires |Envelopes(codec, d, Frames(bytes)).1| <= room
    ensures Unread(codec, d, bytes, room) == []
    decreases |bytes|
  {
    match FirstFrame(bytes)
    case None =>
    case Some((payload, rest)) =>
      EnvelopesOf(codec, d, payload, Frames(rest));
      match codec.decode(payload) {
        case None => RoomForAll(codec, d, rest, room);
        case Some(c) =>
          var (d', done) := codec.insert(d, c);
          RoomForAll(codec, d', rest, if done.Some? then room - 1 else room);
      }
  }

  // ---------------------------------------------------------------- records

  lemma {:induction false} EnvelopesAppend<C, D>(codec: Codec<C, D>, d: D, a: seq<seq<byte>>, b: seq<seq<byte>>)
    ensures var first := Envelopes(codec, d, a); var second := Envelopes(codec, first.0, b);
            Envelopes(codec, d, a + b) == (second.0, first.1 + second.1)
    decreases |a|
  {
    if a == [] {
      assert a + b == b && [] + Envelopes(codec, d, b).1 == Envelopes(codec, d, b).1;
    } else {
      var head, later := a[0], a[1..];
      assert a + b == [head] + (later + b) && a == [head] + later;
      EnvelopesOf(codec, d, head, later + b);
      EnvelopesOf(codec, d, head, later);
      match codec.decode(head) {
        case None => EnvelopesAppend(codec, d, later, b);
        case Some(c) =>
          var (d', done) := codec.insert(d, c);
          EnvelopesAppend(codec, d', later, b);
          if done.Some? {
            var first := Envelopes(codec, d', later);
            Regroup([done.value], first.1, Envelopes(codec, first.0, b).1);
          }
      }
    }
  }

  /** The first frames of a stream yield the first of its records. */
  lemma EnvelopesPrefix<C, D>(codec: Codec<C, D>, d: D, some: seq<seq<byte>>, all: seq<seq<byte>>)
    requires some <= all
    ensures Envelopes(codec, d, some).1 <= Envelopes(codec, d, all).1
  {
    assert all == some + all[|some|..];
    EnvelopesAppend(codec, d, some, all[|some|..]);
  }

  /** What is asked of the chunk codec: a ready dechunker makes a record of its chunks, and is ready again. */
  ghost predicate PutsTogether<C, D(!new)>(codec: Codec<C, D>, ready: D -> bool) {
    forall d, record {:trigger Envelopes(codec, d, codec.chunk(record))} :: ready(d) ==>
      ready(Envelopes(codec, d, codec.chunk(record)).0) && Envelopes(codec, d, codec.chunk(record)).1 == [record]
  }

  /** Then the chunks of any records, one after the other, yield those records. */
  lemma {:induction false} RecordsBack<C, D(!new)>(codec: Codec<C, D>, ready: D -> bool, d: D, records: seq<seq<byte>>)
    requires PutsTogether(codec, ready) && ready(d)
    ensures Envelopes(codec, d, AllChunks(codec, records)).1 == records
    decreases |records|
  {
    if records != [] {
      var first := codec.chunk(records[0]);
      EnvelopesAppend(codec, d, first, AllChunks(codec, records[1..]));
      RecordsBack(codec, ready, Envelopes(codec, d, first).0, records[1..]);
    }
  }

  /** A link that breaks after `k` bytes loses the end of the conversation, and nothing before it. */
  lemma CutRecords<C, D(!new)>(codec: Codec<C, D>, ready: D -> bool, d: D, records: seq<seq<byte>>, k: nat)
    requires PutsTogether(codec, ready) && ready(d)
    requires (forall c <- AllChunks(codec, records) :: Fits(c)) && k <= |Wire(AllChunks(codec, records))|
    ensures Envelopes(codec, d, Frames(Wire(AllChunks(codec, records))[..k])).1 <= records
  {
    FramesOfCut(AllChunks(codec, records), k);
    EnvelopesPrefix(codec, d, Frames(Wire(AllChunks(codec, records))[..k]), AllChunks(codec, records));
    RecordsBack(codec, ready, d, records);
  }

  /** A codec that can be asked this: one byte in a chunk, behind a mark that more are to come. */
  function ByteChunks(record: seq<byte>): seq<seq<byte>> {
    if |record| <= 1 then [[0] + record] else [[1, record[0]]] + ByteChunks(record[1..])
  }

  const BYTE_CODEC: Codec<seq<byte>, seq<byte>> := Codec(
    ByteChunks,
    (payload: seq<byte>) => if payload == [] then None else Some(payload),
    (held: seq<byte>, chunk: seq<byte>) =>
      if chunk == [] then (held, None)
      else if chunk[0] == 0 then ([], Some(held + chunk[1..]))
      else (held + chunk[1..], None))

  lemma {:induction false} ByteChunksBack(held: seq<byte>, record: seq<byte>)
    ensures Envelopes(BYTE_CODEC, held, ByteChunks(record)) == ([], [held + record])
    decreases |record|
  {
    if |record| <= 1 {
      var chunk := [0] + record;
      assert chunk[1..] == record && [chunk] + [] == ByteChunks(record);
      EnvelopesOf(BYTE_CODEC, held, chunk, []);
      assert [held + record] + [] == [held + record];
    } else {
      var chunk: seq<byte> := [1, record[0]];
      assert chunk[1..] == [record[0]] && held + [record[0]] + record[1..] == held + record;
      EnvelopesOf(BYTE_CODEC, held, chunk, ByteChunks(record[1..]));
      ByteChunksBack(held + [record[0]], record[1..]);
    }
  }

  lemma SomeCodecPutsTogether()
    ensures PutsTogether(BYTE_CODEC, (held: seq<byte>) => held == [])
  {
    forall held: seq<byte>, record: seq<byte> | held == []
      ensures Envelopes(BYTE_CODEC, held, BYTE_CODEC.chunk(record)) == ([], [record])
    {
      ByteChunksBack(held, record);
      assert held + record == record;
    }
  }
}
