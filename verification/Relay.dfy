/**
 The framed stream through the relay, as a state machine over bytes in flight: the sender writes into
 one TCP pipe, the relay copies it to another, the reader fills its exact reads from that one, and TCP
 may cut the bytes anywhere.
 */
module Relay {
  import opened Bytes
  import opened Wrappers
  import opened Framing

  /** What the reader's current `read_exact` is for. */
  datatype Phase = Prefix | Body(length: nat)

  datatype Net = Net(
    written: seq<seq<byte>>,    // chunks whose frames the sender has begun
    sending: seq<byte>,         // the rest of the frame being written
    uplink: seq<byte>,          // sender to relay
    held: seq<byte>,            // the relay's copy buffer
    downlink: seq<byte>,        // relay to reader
    phase: Phase,
    got: seq<byte>,             // what the current read_exact has so far
    delivered: seq<seq<byte>>)  // payloads handed to the chunk decoder

  const INITIAL: Net := Net([], [], [], [], [], Prefix, [], [])

  datatype Event =
    | Begin(chunk: seq<byte>)
    | Write(n: nat)
    | RelayRead(n: nat)
    | RelayWrite(n: nat)
    | Receive(n: nat)
    | PrefixDone
    | BodyDone

  function Wanted(phase: Phase): nat {
    if phase.Prefix? then 4 else phase.length
  }

  predicate Enabled(s: Net, e: Event) {
    match e
    case Begin(_) => s.sending == []
    case Write(n) => n <= |s.sending|
    case RelayRead(n) => n <= |s.uplink|
    case RelayWrite(n) => n <= |s.held|
    case Receive(n) => n <= |s.downlink| && |s.got| + n <= Wanted(s.phase)
    case PrefixDone => s.phase.Prefix? && |s.got| == 4
    case BodyDone => s.phase.Body? && |s.got| == s.phase.length
  }

  function Apply(s: Net, e: Event): Net
    requires Enabled(s, e)
  {
    match e
    case Begin(chunk) => s.(written := s.written + [chunk], sending := Frame(chunk))
    case Write(n) => s.(uplink := s.uplink + s.sending[..n], sending := s.sending[n..])
    case RelayRead(n) => s.(held := s.held + s.uplink[..n], uplink := s.uplink[n..])
    case RelayWrite(n) => s.(downlink := s.downlink + s.held[..n], held := s.held[n..])
    case Receive(n) => s.(got := s.got + s.downlink[..n], downlink := s.downlink[n..])
    case PrefixDone => s.(phase := Body(FromBe32(s.got)), got := [])
    case BodyDone => s.(phase := Prefix, got := [], delivered := s.delivered + [s.got])
  }

  /** The state after a run, if every event of it was enabled in turn. */
  function After(events: seq<Event>): Option<Net> {
    if events == [] then Some(INITIAL)
    else
      match After(events[..|events| - 1])
      case None => None
      case Some(s) =>
        var e := events[|events| - 1];
        if Enabled(s, e) then Some(Apply(s, e)) else None
  }

  /** The frame bytes the reader holds. */
  function Partial(s: Net): seq<byte> {
    if s.phase.Prefix? then s.got else Be32(s.phase.length) + s.got
  }

  /** Every byte written and not yet delivered, in order. */
  function InFlight(s: Net): seq<byte> {
    Partial(s) + (s.downlink + (s.held + (s.uplink + s.sending)))
  }

  /** Bytes are neither lost nor made up nor reordered. */
  predicate Conserved(s: Net) {
    && Wire(s.written) == Wire(s.delivered) + InFlight(s)
    && (forall d <- s.delivered :: Fits(d))
    && |s.got| <= Wanted(s.phase) < 0x1_0000_0000
  }

  lemma Move(a: seq<byte>, b: seq<byte>, n: nat)
    requires n <= |b|
    ensures a + b[..n] + b[n..] == a + b
    ensures forall c: seq<byte> :: (a + b[..n]) + (b[n..] + c) == a + (b + c)
  {
  }

  lemma AtTheEnd(a: seq<byte>, b: seq<byte>, c: seq<byte>, d: seq<byte>, more: seq<byte>)
    ensures a + (b + (c + (d + more))) == a + (b + (c + (d + []))) + more
  {
    assert d + [] == d;
  }

  lemma BeginConserves(s: Net, chunk: seq<byte>)
    requires Conserved(s) && Enabled(s, Begin(chunk))
    ensures Conserved(Apply(s, Begin(chunk)))
  {
    var frame := Frame(chunk);
    WireAppend(s.written, [chunk]);
    assert Wire([chunk]) == frame + [] == frame;
    AtTheEnd(Partial(s), s.downlink, s.held, s.uplink, frame);
    Regroup(Wire(s.delivered), InFlight(s), frame);
  }

  lemma PrefixConserves(s: Net)
    requires Conserved(s) && Enabled(s, PrefixDone)
    ensures Conserved(Apply(s, PrefixDone))
  {
    FromBe32RoundTrip(s.got);
    assert Be32(FromBe32(s.got)) + [] == s.got;
    assert Partial(Apply(s, PrefixDone)) == Partial(s);
  }

  lemma BodyConserves(s: Net)
    requires Conserved(s) && Enabled(s, BodyDone)
    ensures Conserved(Apply(s, BodyDone))
  {
    var later := s.downlink + (s.held + (s.uplink + s.sending));
    var frame := Frame(s.got);
    WireAppend(s.delivered, [s.got]);
    assert Wire([s.got]) == frame + [] == frame;
    Regroup(Wire(s.delivered), frame, later);
    assert InFlight(Apply(s, BodyDone)) == [] + later == later;
  }

  lemma StepConserves(s: Net, e: Event)
    requires Conserved(s) && Enabled(s, e)
    ensures Conserved(Apply(s, e))
  {
    match e
    case Begin(chunk) => BeginConserves(s, chunk);
    case Write(n) => Move(s.uplink, s.sending, n);
    case RelayRead(n) => Move(s.held, s.uplink, n);
    case RelayWrite(n) => Move(s.downlink, s.held, n);
    case Receive(n) =>
      Move(s.got, s.downlink, n);
      if s.phase.Body? {
        Regroup(Be32(s.phase.length), s.got, s.downlink[..n]);
        Move(Partial(s), s.downlink, n);
      }
    case PrefixDone => PrefixConserves(s);
    case BodyDone => BodyConserves(s);
  }

  lemma {:induction false} RunConserves(events: seq<Event>)
    requires After(events).Some?
    ensures Conserved(After(events).value)
  {
    if events != [] {
      var before := events[..|events| - 1];
      RunConserves(before);
      StepConserves(After(before).value, events[|events| - 1]);
    }
  }

  lemma {:induction false} FramesFit(bytes: seq<byte>)
    ensures forall f <- Frames(bytes) :: Fits(f)
    decreases |bytes|
  {
    if FirstFrame(bytes).Some? {
      FramesFit(FirstFrame(bytes).value.1);
    }
  }

  /**
   In every reachable state the payloads delivered are a prefix of the chunks written, and the rest are
   the whole frames still in flight: exactly when every chunk written fits its length prefix.
   */
  lemma DeliveredInOrder(events: seq<Event>, s: Net)
    requires After(events) == Some(s)
    ensures s.written == s.delivered + Frames(InFlight(s)) <==> forall c <- s.written :: Fits(c)
  {
    RunConserves(events);
    FramesOfWire(s.delivered, InFlight(s));
    FramesFit(InFlight(s));
    if forall c <- s.written :: Fits(c) {
      FramesOfWire(s.written, []);
      assert Wire(s.written) + [] == Wire(s.written) && s.written + Frames([]) == s.written;
    }
  }

  /** Nothing is left to move, and the reader waits for bytes. */
  predicate Drained(s: Net) {
    s.sending == [] && s.uplink == [] && s.held == [] && s.downlink == [] && |s.got| < Wanted(s.phase)
  }

  /** Once drained, all that was written has been delivered, and no frame is left half read. */
  lemma DrainedIsDelivered(events: seq<Event>, s: Net)
    requires After(events) == Some(s) && Drained(s) && forall c <- s.written :: Fits(c)
    ensures s.delivered == s.written && s.phase == Prefix && s.got == []
  {
    DeliveredInOrder(events, s);
    RunConserves(events);
    DrainedHoldsNoFrame(s);
    assert |Wire(s.written)| == |Wire(s.delivered)| + |InFlight(s)|;
  }

  lemma DrainedHoldsNoFrame(s: Net)
    requires Drained(s) && Wanted(s.phase) < 0x1_0000_0000
    ensures Frames(InFlight(s)) == [] && InFlight(s) == Partial(s)
  {
    var partial := Partial(s);
    assert InFlight(s) == partial;
    if s.phase.Body? {
      assert partial[..4] == Be32(s.phase.length);
      Be32RoundTrip(s.phase.length);
    }
  }

  // ---------------------------------------------------------------- progress

  /** A step that brings a byte, or a finished read, further along. */
  function NextMove(s: Net): Event {
    if s.sending != [] then Write(|s.sending|)
    else if s.uplink != [] then RelayRead(|s.uplink|)
    else if s.held != [] then RelayWrite(|s.held|)
    else if |s.got| >= Wanted(s.phase) then if s.phase.Prefix? then PrefixDone else BodyDone
    else Receive(Min(|s.downlink|, Wanted(s.phase) - |s.got|))
  }

  /** How far the bytes are from delivery. */
  function Distance(s: Net): nat {
    5 * |s.sending| + 4 * |s.uplink| + 3 * |s.held| + 2 * |s.downlink| + |s.got| + if s.phase.Body? then 1 else 0
  }

  /** Unless all is drained some byte can move on; nothing new need be begun for it. */
  lemma MoveAdvances(s: Net)
    requires Conserved(s) && !Drained(s)
    ensures var e := NextMove(s);
            && Enabled(s, e) && Distance(Apply(s, e)) < Distance(s) && Apply(s, e).written == s.written
  {
  }

  lemma OneMoreMove(events: seq<Event>, e: Event)
    requires After(events).Some? && Enabled(After(events).value, e)
    ensures After(events + [e]) == Some(Apply(After(events).value, e))
  {
    assert (events + [e])[..|events|] == events;
  }

  /** From every reachable state the link can drain, without another chunk being begun. */
  lemma {:induction false} CanDrain(events: seq<Event>, s: Net) returns (longer: seq<Event>, s': Net)
    requires After(events) == Some(s)
    ensures events <= longer && After(longer) == Some(s') && s'.written == s.written && Drained(s')
    decreases Distance(s)
  {
    if Drained(s) {
      longer, s' := events, s;
    } else {
      RunConserves(events);
      MoveAdvances(s);
      OneMoreMove(events, NextMove(s));
      longer, s' := CanDrain(events + [NextMove(s)], Apply(s, NextMove(s)));
    }
  }

  /** So every chunk begun can be delivered. */
  lemma CanDeliver(events: seq<Event>, s: Net) returns (longer: seq<Event>, s': Net)
    requires After(events) == Some(s) && forall c <- s.written :: Fits(c)
    ensures events <= longer && After(longer) == Some(s') && s'.delivered == s.written
  {
    longer, s' := CanDrain(events, s);
    DrainedIsDelivered(longer, s');
  }

  // ---------------------------------------------------------------- records

  /**
   So do records, over a codec that puts them together: at every moment those read are the first of those
   sent, and once everything is written and drained they are all of them.
   */
  lemma RecordsDelivered<C, D(!new)>(codec: Codec<C, D>, ready: D -> bool, d: D, records: seq<seq<byte>>,
                                     events: seq<Event>, s: Net)
    requires PutsTogether(codec, ready) && ready(d)
    requires After(events) == Some(s) && s.written <= AllChunks(codec, records)
    requires forall c <- s.written :: Fits(c)
    ensures Envelopes(codec, d, s.delivered).1 <= records
    ensures Drained(s) && s.written == AllChunks(codec, records) ==> Envelopes(codec, d, s.delivered).1 == records
  {
    RecordsBack(codec, ready, d, records);
    DeliveredInOrder(events, s);
    EnvelopesPrefix(codec, d, s.delivered, AllChunks(codec, records));
    if Drained(s) {
      DrainedIsDelivered(events, s);
    }
  }
}
