/**
 The SSE streams, over every run of the server: what a session's stream begins with, which responses
 it carries, and that its notifications follow the broadcast.
 */
module McpSessions {
  import opened Wrappers
  import opened McpState
  import opened McpProtocol

  /** The broadcast events among what was enqueued. */
  function Notes(events: seq<SseEvent>): seq<BackendEvent> {
    if events == [] then []
    else
      var before, last := Notes(events[..|events| - 1]), events[|events| - 1];
      if last.Notification? then before + [last.event] else before
  }

  lemma NotesOneMore(events: seq<SseEvent>, e: SseEvent)
    ensures Notes(events + [e]) == if e.Notification? then Notes(events) + [e.event] else Notes(events)
  {
    assert (events + [e])[..|events|] == events;
  }

  predicate StartsWithEndpoint(s: SessionId, ch: Channel) {
    && ch.events != [] && ch.events[0] == Endpoint(s)
    && forall i :: 1 <= i < |ch.events| ==> !ch.events[i].Endpoint?
  }

  /** A response belongs to a request POSTed to this session, carries its id, and is the only one to it. */
  predicate ResponsesRouted(requests: seq<Request>, s: SessionId, ch: Channel) {
    && (forall e <- ch.events :: e.Response? ==>
          e.request < |requests| && requests[e.request] == Request(s, e.id, true))
    && (forall i, j :: 0 <= i < j < |ch.events| && ch.events[i].Response? && ch.events[j].Response? ==>
          ch.events[i].request != ch.events[j].request)
  }

  /** The notifications are the broadcast from the subscription up to where the forwarder is. */
  predicate NotesFollow(log: seq<BackendEvent>, ch: Channel) {
    && ch.from <= ch.next <= |log|
    && Notes(ch.events) == log[ch.from..ch.next]
    && (ch.stage != Subscribed ==> ch.from == ch.next && !ch.running && !ch.holding)
    && (ch.holding ==> ch.next < |log|)
  }

  predicate ChannelGood(h: Hub, s: SessionId)
    requires s < |h.channels|
  {
    && StartsWithEndpoint(s, h.channels[s])
    && ResponsesRouted(h.requests, s, h.channels[s])
    && NotesFollow(h.log, h.channels[s])
  }

  predicate ChannelsGood(h: Hub) {
    forall s: SessionId :: s < |h.channels| ==> ChannelGood(h, s)
  }

  /** Requests may be added or finished, and events published, without touching a channel. */
  lemma Unaffected(h: Hub, h': Hub, s: SessionId)
    requires s < |h.channels| && s < |h'.channels| && h'.channels[s] == h.channels[s] && ChannelGood(h, s)
    requires |h.requests| <= |h'.requests|
    requires forall r :: 0 <= r < |h.requests| && h.requests[r].finished ==> h'.requests[r] == h.requests[r]
    requires h.log <= h'.log
    ensures ChannelGood(h', s)
  {
  }

  lemma AppendKeeps(requests: seq<Request>, s: SessionId, ch: Channel, ch': Channel, e: SseEvent)
    requires StartsWithEndpoint(s, ch) && ResponsesRouted(requests, s, ch) && !e.Endpoint? && !e.Response?
    requires ch'.events == ch.events + [e]
    ensures StartsWithEndpoint(s, ch') && ResponsesRouted(requests, s, ch')
  {
  }

  lemma EnqueueKeeps(h: Hub, s: SessionId, e: SseEvent)
    requires s < |h.channels| && ChannelGood(h, s) && e.Sampling?
    ensures ChannelGood(Enqueued(h, s, e), s)
  {
    NotesOneMore(h.channels[s].events, e);
    AppendKeeps(h.requests, s, h.channels[s], Enqueued(h, s, e).channels[s], e);
  }

  lemma RespondKeeps(h: Hub, r: nat)
    requires Enabled(h, Respond(r)) && ChannelGood(h, h.requests[r].session)
    ensures ChannelGood(Apply(h, Respond(r)), h.requests[r].session)
  {
    var q := h.requests[r];
    var events, e := h.channels[q.session].events, Response(q.id, r);
    NotesOneMore(events, e);
    assert forall i :: 0 <= i < |events| && events[i].Response? ==> events[i] in events && events[i].request != r;
  }

  lemma ForwardKeeps(h: Hub, s: SessionId)
    requires Enabled(h, ForwardSend(s)) && ChannelGood(h, s)
    ensures ChannelGood(Apply(h, ForwardSend(s)), s)
  {
    var ch, log := h.channels[s], h.log;
    var note := Notification(log[ch.next]);
    NotesOneMore(ch.events, note);
    AppendKeeps(h.requests, s, ch, Apply(h, ForwardSend(s)).channels[s], note);
    OneFurther(log, ch.from, ch.next);
  }

  lemma OneFurther(log: seq<BackendEvent>, from: nat, next: nat)
    requires from <= next < |log|
    ensures log[from..next + 1] == log[from..next] + [log[next]]
  {
  }

  lemma OpenKeeps(h: Hub)
    ensures ChannelGood(Apply(h, Open), |h.channels|)
  {
    NotesOneMore([], Endpoint(|h.channels|));
    assert [] + [Endpoint(|h.channels|)] == [Endpoint(|h.channels|)];
  }

  /** The session a step enqueues to or changes. */
  function Touched(h: Hub, e: Event): Option<SessionId>
    requires Enabled(h, e)
  {
    match e
    case SendOk(c) => Some(h.calls[c].session)
    case Respond(r) => Some(h.requests[r].session)
    case Open => Some(|h.channels|)
    case MakePrimary(s) => Some(s)
    case Subscribe(s) => Some(s)
    case ClientTake(s) => Some(s)
    case Disconnect(s) => Some(s)
    case ForwardTake(s) => Some(s)
    case ForwardSend(s) => Some(s)
    case ForwardStop(s) => Some(s)
    case _ => None
  }

  /** Steps that change a session without enqueueing anything. */
  lemma QuietStepKeeps(h: Hub, e: Event, s: SessionId)
    requires Enabled(h, e) && Touched(h, e) == Some(s) && !e.SendOk? && !e.Respond? && !e.Open? && !e.ForwardSend?
    requires s < |h.channels| && ChannelGood(h, s)
    ensures ChannelGood(Apply(h, e), s)
  {
  }

  lemma TouchedKeeps(h: Hub, e: Event)
    requires ChannelsGood(h) && Enabled(h, e) && Touched(h, e).Some?
    ensures Touched(h, e).value < |Apply(h, e).channels| && ChannelGood(Apply(h, e), Touched(h, e).value)
  {
    var s := Touched(h, e).value;
    if e.Open? {
      OpenKeeps(h);
    } else {
      assert ChannelGood(h, s);
      if e.SendOk? {
        EnqueueKeeps(WithPhase(h, e.c, Waiting), s, Sampling(h.calls[e.c].id.value, e.c));
      } else if e.Respond? {
        RespondKeeps(h, e.r);
      } else if e.ForwardSend? {
        ForwardKeeps(h, s);
      } else {
        QuietStepKeeps(h, e, s);
      }
    }
  }

  /** Sessions other than the touched one are as before; nothing logged, requested or finished is undone. */
  predicate Elsewhere(h: Hub, h': Hub, touched: Option<SessionId>) {
    && |h.channels| <= |h'.channels|
    && (forall s: SessionId :: s < |h.channels| && touched != Some(s) ==> h'.channels[s] == h.channels[s])
    && (forall s: SessionId :: |h.channels| <= s < |h'.channels| ==> touched == Some(s))
    && |h.requests| <= |h'.requests| && h.log <= h'.log
    && (forall r :: 0 <= r < |h.requests| && h.requests[r].finished ==> h'.requests[r] == h.requests[r])
  }

  lemma SessionStepElsewhere(h: Hub, e: Event)
    requires Enabled(h, e) && !IsSampleStep(e) && !IsAutoStep(e) && !e.Post? && !e.Publish?
    ensures Elsewhere(h, Apply(h, e), Touched(h, e))
  {
  }

  lemma StepElsewhere(h: Hub, e: Event)
    requires Enabled(h, e)
    ensures Elsewhere(h, Apply(h, e), Touched(h, e))
  {
    if !IsSampleStep(e) && !IsAutoStep(e) && !e.Post? && !e.Publish? {
      SessionStepElsewhere(h, e);
    }
  }

  lemma StepKeepsChannels(h: Hub, e: Event)
    requires ChannelsGood(h) && Enabled(h, e)
    ensures ChannelsGood(Apply(h, e))
  {
    StepElsewhere(h, e);
    forall s: SessionId | s < |Apply(h, e).channels|
      ensures ChannelGood(Apply(h, e), s)
    {
      if Touched(h, e) == Some(s) {
        TouchedKeeps(h, e);
      } else {
        Unaffected(h, Apply(h, e), s);
      }
    }
  }

  lemma {:induction false} RunKeepsChannels(events: seq<Event>)
    requires After(events).Some?
    ensures ChannelsGood(After(events).value)
  {
    if events != [] {
      var before := events[..|events| - 1];
      RunKeepsChannels(before);
      StepKeepsChannels(After(before).value, events[|events| - 1]);
    }
  }

  /** In every run each stream begins with its own endpoint, and its notifications are the broadcast in order. */
  lemma StreamsInOrder(run: seq<Event>, h: Hub, s: SessionId)
    requires After(run) == Some(h) && s < |h.channels|
    ensures var ch := h.channels[s];
            && ch.events != [] && ch.events[0] == Endpoint(s)
            && (forall i :: 1 <= i < |ch.events| ==> !ch.events[i].Endpoint?)
            && ch.from <= ch.next <= |h.log| && Notes(ch.events) == h.log[ch.from..ch.next]
  {
    RunKeepsChannels(run);
    assert ChannelGood(h, s);
  }
}
