/**
 When the server's other tasks can go on, over every run: the handlers of requests, the forwarders of the
 broadcast and the auto-reply loop stop only where they must wait, for room, for an event or for a call.
 */
module McpTasks {
  import opened Wrappers
  import opened McpState
  import opened McpProtocol
  import opened McpSessions
  import opened McpCorrelation
  import opened McpAutoReply
  import opened McpProgress

  /** A stream on which nothing can be enqueued, and which is not closed either. */
  predicate IsFull(ch: Channel) {
    ch.open && !HasRoom(ch)
  }

  lemma RequestInRange(run: seq<Event>, h: Hub, r: nat)
    requires After(run) == Some(h) && r < |h.requests|
    ensures h.requests[r].session < |h.channels|
  {
    RunKeepsRange(run);
    assert h.requests[r] in h.requests;
  }

  lemma RequestMayEnd(h: Hub, r: nat)
    requires r < |h.requests| && !h.requests[r].finished && h.requests[r].session < |h.channels|
    ensures Enabled(h, Respond(r)) || Enabled(h, Abandon(r)) <==> !IsFull(h.channels[h.requests[r].session])
    ensures Enabled(h, Abandon(r)) <==> !h.channels[h.requests[r].session].open
  {
  }

  /** A request is answered, or given up, exactly unless its stream is full; it is given up only if that is closed. */
  lemma RequestGoesOn(run: seq<Event>, h: Hub, r: nat)
    requires After(run) == Some(h) && r < |h.requests| && !h.requests[r].finished
    ensures h.requests[r].session < |h.channels|
    ensures Enabled(h, Respond(r)) || Enabled(h, Abandon(r)) <==> !IsFull(h.channels[h.requests[r].session])
    ensures Enabled(h, Abandon(r)) <==> !h.channels[h.requests[r].session].open
  {
    RequestInRange(run, h, r);
    RequestMayEnd(h, r);
  }

  predicate IsForwarderStep(e: Event, s: SessionId) {
    e == ForwardTake(s) || e == ForwardSend(s) || e == ForwardStop(s)
  }

  /** The forwarder of a session has nothing to do but wait for an event. */
  predicate IsCaughtUp(h: Hub, ch: Channel) {
    !ch.holding && ch.next >= |h.log|
  }

  function ForwarderStep(h: Hub, s: SessionId): Event
    requires s < |h.channels|
  {
    var ch := h.channels[s];
    if ch.holding then if ch.open then ForwardSend(s) else ForwardStop(s)
    else if |h.log| > ch.next + BROADCAST_CAPACITY then ForwardStop(s)
    else ForwardTake(s)
  }

  lemma ForwarderMayStep(h: Hub, s: SessionId)
    requires s < |h.channels| && h.channels[s].running && (h.channels[s].holding ==> h.channels[s].next < |h.log|)
    requires !IsCaughtUp(h, h.channels[s]) && !(h.channels[s].holding && IsFull(h.channels[s]))
    ensures IsForwarderStep(ForwarderStep(h, s), s) && Enabled(h, ForwarderStep(h, s))
  {
  }

  lemma ForwarderMustWait(h: Hub, s: SessionId, e: Event)
    requires s < |h.channels| && IsForwarderStep(e, s) && Enabled(h, e)
    ensures !IsCaughtUp(h, h.channels[s]) && !(h.channels[s].holding && IsFull(h.channels[s]))
  {
  }

  lemma HoldsAnEvent(run: seq<Event>, h: Hub, s: SessionId)
    requires After(run) == Some(h) && s < |h.channels|
    ensures h.channels[s].holding ==> h.channels[s].next < |h.log|
  {
    RunKeepsChannels(run);
    assert ChannelGood(h, s);
  }

  /** A forwarder goes on exactly unless it has forwarded everything, or holds an event and the stream is full. */
  lemma ForwarderGoesOn(run: seq<Event>, h: Hub, s: SessionId)
    requires After(run) == Some(h) && s < |h.channels| && h.channels[s].running
    ensures (exists e :: IsForwarderStep(e, s) && Enabled(h, e))
       <==> !IsCaughtUp(h, h.channels[s]) && !(h.channels[s].holding && IsFull(h.channels[s]))
  {
    HoldsAnEvent(run, h, s);
    if !IsCaughtUp(h, h.channels[s]) && !(h.channels[s].holding && IsFull(h.channels[s])) {
      ForwarderMayStep(h, s);
    }
    if e :| IsForwarderStep(e, s) && Enabled(h, e) {
      ForwarderMustWait(h, s, e);
    }
  }

  /** It stops only where it has fallen more than 256 events behind, or its stream has closed. */
  lemma ForwarderStops(h: Hub, s: SessionId)
    requires Enabled(h, ForwardStop(s))
    ensures if h.channels[s].holding then !h.channels[s].open else |h.log| > h.channels[s].next + 256
  {
  }

  /** The auto-reply loop has something to do. */
  predicate LoopHasWork(h: Hub) {
    match h.auto
    case Off => true
    case Idle(next) => next < |h.log|
    case Starting(_) => true
    case Calling(_, c) => c < |h.calls| && h.calls[c].phase.Done?
    case Pushing(_, _, _) => true
    case Stopped => false
  }

  function LoopStep(h: Hub): Event {
    match h.auto
    case Off => AutoSubscribe
    case Idle(next) => if |h.log| <= next + BROADCAST_CAPACITY then AutoTake else AutoStop
    case Starting(_) => AutoStart
    case Calling(_, _) => AutoFinish
    case Pushing(_, _, _) => AutoPush(true)
    case Stopped => AutoStop
  }

  lemma LoopMayStep(h: Hub)
    requires LoopGood(h) && LoopHasWork(h)
    ensures IsAutoStep(LoopStep(h)) && Enabled(h, LoopStep(h))
  {
  }

  lemma LoopMustWait(h: Hub, e: Event)
    requires IsAutoStep(e) && Enabled(h, e)
    ensures LoopHasWork(h)
  {
  }

  /** The auto-reply loop goes on exactly unless it has stopped, has seen every event, or waits for its call. */
  lemma LoopGoesOn(run: seq<Event>, h: Hub)
    requires After(run) == Some(h)
    ensures (exists e :: IsAutoStep(e) && Enabled(h, e)) <==> LoopHasWork(h)
  {
    if LoopHasWork(h) {
      RunKeepsLoop(run);
      LoopMayStep(h);
    }
    if e :| IsAutoStep(e) && Enabled(h, e) {
      LoopMustWait(h, e);
    }
  }

  /** It stops only where it has fallen more than 256 events behind. */
  lemma LoopStops(h: Hub)
    requires Enabled(h, AutoStop)
    ensures h.auto.Idle? && |h.log| > h.auto.next + 256
  {
  }

  /** And a call of the loop can always finish, so the loop as a whole can. */
  lemma LoopCallFinishes(run: seq<Event>, h: Hub) returns (longer: seq<Event>, h': Hub)
    requires After(run) == Some(h) && h.auto.Calling?
    ensures run <= longer && After(longer) == Some(h')
    ensures h.auto.call < |h'.calls| && h'.calls[h.auto.call].phase.Done?
  {
    RunKeepsLoop(run);
    longer, h' := CanFinish(run, h, h.auto.call);
  }
}
