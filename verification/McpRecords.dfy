/**
 What the server makes of what it was given: its requests, replies, log and primary session read off the
 run itself, and what it sent in turn. A run fixes each of them.
 */
module McpRecords {
  import opened Wrappers
  import opened McpState
  import opened McpProtocol
  import opened McpCorrelation
  import opened McpCleanup
  import opened McpSessions

  // ---------------------------------------------------------------- what was POSTed

  /** How many sessions have been opened. */
  function Opened(run: seq<Event>): nat {
    if run == [] then 0
    else Opened(run[..|run| - 1]) + if run[|run| - 1].Open? then 1 else 0
  }

  /** A body that asks for something: its `method` is a string. */
  predicate IsRequest(body: Json) {
    body.Obj? && "method" in body.fields && body.fields["method"].Str?
  }

  /** Its id, null if it has none. */
  function RequestId(body: Json): Json
    requires IsRequest(body)
  {
    if "id" in body.fields then body.fields["id"] else Null
  }

  /** A body that answers something: no `method`, and an integer id that fits 64 bits. */
  predicate IsReply(body: Json) {
    && body.Obj? && "method" !in body.fields && "id" in body.fields && body.fields["id"].Int?
    && -0x8000_0000_0000_0000 <= body.fields["id"].i < 0x8000_0000_0000_0000
  }

  /** The requests POSTed to open sessions: session and id of each, in order. */
  function RequestsOf(run: seq<Event>): seq<(SessionId, Json)> {
    if run == [] then []
    else
      var before, e := run[..|run| - 1], run[|run| - 1];
      if e.Post? && e.s < Opened(before) && IsRequest(e.body) then RequestsOf(before) + [(e.s, RequestId(e.body))]
      else RequestsOf(before)
  }

  /** The replies POSTed to open sessions, in order. */
  function RepliesOf(run: seq<Event>): seq<Json> {
    if run == [] then []
    else
      var before, e := run[..|run| - 1], run[|run| - 1];
      if e.Post? && e.s < Opened(before) && IsReply(e.body) then RepliesOf(before) + [e.body]
      else RepliesOf(before)
  }

  /** The server's requests are those of the run. */
  predicate SameRequests(requests: seq<Request>, asked: seq<(SessionId, Json)>) {
    && |requests| == |asked|
    && forall r :: 0 <= r < |requests| ==> requests[r].session == asked[r].0 && requests[r].id == asked[r].1
  }

  lemma RouteByShape(t: Tables, s: SessionId, body: Json)
    requires s in t.sessions
    ensures IsRequest(body) ==> Route(t, s, body) == ClientRequest(RequestId(body))
    ensures IsReply(body) ==> Route(t, s, body) == ClientReply(body.fields["id"].i)
    ensures !IsRequest(body) && !IsReply(body) ==> Route(t, s, body) in {Malformed, Neither}
  {
  }

  lemma PostRecorded(h: Hub, s: SessionId, body: Json, known: bool)
    requires known <==> s in h.tables.sessions
    ensures var h' := ApplyPost(h, s, body);
            && h'.requests == (if known && IsRequest(body) then h.requests + [Request(s, RequestId(body), false)]
                               else h.requests)
            && h'.posts == (if known && IsReply(body) then h.posts + [body] else h.posts)
  {
    if known {
      RouteByShape(h.tables, s, body);
    }
  }

  lemma RequestsBegin(h: Hub, e: Event)
    requires Enabled(h, e) && !e.Post?
    ensures |Apply(h, e).requests| == |h.requests| && Apply(h, e).posts == h.posts
  {
  }

  lemma RequestKept(h: Hub, e: Event, r: nat)
    requires Enabled(h, e) && !e.Post? && r < |h.requests| == |Apply(h, e).requests|
    ensures Apply(h, e).requests[r].session == h.requests[r].session
    ensures Apply(h, e).requests[r].id == h.requests[r].id
  {
  }

  lemma OthersRecordNothing(h: Hub, e: Event, asked: seq<(SessionId, Json)>)
    requires Enabled(h, e) && !e.Post? && SameRequests(h.requests, asked)
    ensures SameRequests(Apply(h, e).requests, asked) && Apply(h, e).posts == h.posts
  {
    RequestsBegin(h, e);
    forall r | 0 <= r < |asked|
      ensures Apply(h, e).requests[r].session == asked[r].0 && Apply(h, e).requests[r].id == asked[r].1
    {
      RequestKept(h, e, r);
    }
  }

  /** Requests and replies are recorded as POSTed, each once and in order, and nothing else is. */
  lemma {:induction false} PostsRecorded(run: seq<Event>, h: Hub)
    requires After(run) == Some(h)
    ensures |h.channels| == Opened(run)
    ensures SameRequests(h.requests, RequestsOf(run)) && h.posts == RepliesOf(run)
  {
    if run != [] {
      var before, e := run[..|run| - 1], run[|run| - 1];
      var h0 := After(before).value;
      PostsRecorded(before, h0);
      StepOfChannels(h0, e);
      if e.Post? {
        SessionsOnlyGrow(before, h0);
        PostRecorded(h0, e.s, e.body, e.s < Opened(before));
      } else {
        OthersRecordNothing(h0, e, RequestsOf(before));
      }
    }
  }

  lemma {:induction false} RequestWasPosted(run: seq<Event>, r: nat) returns (i: nat)
    requires r < |RequestsOf(run)|
    ensures i < |run| && run[i].Post? && run[i].s == RequestsOf(run)[r].0
    ensures IsRequest(run[i].body) && RequestsOf(run)[r].1 == RequestId(run[i].body)
  {
    var before := run[..|run| - 1];
    if r < |RequestsOf(before)| {
      i := RequestWasPosted(before, r);
    } else {
      i := |run| - 1;
    }
  }

  /**
   A response is enqueued once in all, on the session its request was POSTed to, and carries the id that
   the request had in the POST.
   */
  lemma OneResponseEach(run: seq<Event>, h: Hub, s: SessionId, i: nat, s': SessionId, i': nat) returns (post: nat)
    requires After(run) == Some(h) && s < |h.channels| && s' < |h.channels|
    requires i < |h.channels[s].events| && h.channels[s].events[i].Response?
    requires i' < |h.channels[s'].events| && h.channels[s'].events[i'].Response?
    ensures post < |run| && run[post].Post? && run[post].s == s && IsRequest(run[post].body)
    ensures h.channels[s].events[i].id == RequestId(run[post].body)
    ensures h.channels[s].events[i].request == h.channels[s'].events[i'].request ==> (s, i) == (s', i')
  {
    RunKeepsChannels(run);
    PostsRecorded(run, h);
    assert ChannelGood(h, s) && ChannelGood(h, s');
    var e, e' := h.channels[s].events[i], h.channels[s'].events[i'];
    assert e in h.channels[s].events && e' in h.channels[s'].events;
    post := RequestWasPosted(run, e.request);
  }

  // ---------------------------------------------------------------- the primary session

  /** The session that last became primary. */
  function LastPrimary(run: seq<Event>): Option<SessionId> {
    if run == [] then None
    else if run[|run| - 1].MakePrimary? then Some(run[|run| - 1].s)
    else LastPrimary(run[..|run| - 1])
  }

  lemma {:induction false} PrimaryIsLatest(run: seq<Event>, h: Hub)
    requires After(run) == Some(h)
    ensures h.tables.primary == LastPrimary(run)
  {
    if run != [] {
      PrimaryIsLatest(run[..|run| - 1], After(run[..|run| - 1]).value);
    }
  }

  lemma CallStays(run: seq<Event>, h: Hub, longer: seq<Event>, h': Hub, c: CallId)
    requires run <= longer && After(run) == Some(h) && After(longer) == Some(h') && c < |h.calls|
    ensures c < |h'.calls| && Later(h.calls[c], h'.calls[c])
  {
    assert run + longer[|run|..] == longer;
    RunIsLater(run, longer[|run|..]);
  }

  lemma ChooseAsks(h: Hub, prompt: string)
    ensures Apply(h, Choose(prompt)).calls == h.calls + [NewCall(h.tables, prompt)]
  {
  }

  /** A call asks the session that became primary last, for good; with none it fails at once. */
  lemma AsksLatest(run: seq<Event>, h: Hub, prompt: string, longer: seq<Event>, h': Hub)
    requires After(run) == Some(h) && run + [Choose(prompt)] <= longer && After(longer) == Some(h')
    ensures |h.calls| < |h'.calls| && h'.calls[|h.calls|].prompt == prompt
    ensures match LastPrimary(run)
            case None => h'.calls[|h.calls|].phase == Done(Err(NoClient))
            case Some(s) => h'.calls[|h.calls|].session == s
  {
    PrimaryIsLatest(run, h);
    OneMoreStep(run, Choose(prompt));
    ChooseAsks(h, prompt);
    CallStays(run + [Choose(prompt)], Apply(h, Choose(prompt)), longer, h', |h.calls|);
  }

  // ---------------------------------------------------------------- the broadcast

  lemma StepOfLog(h: Hub, e: Event)
    requires Enabled(h, e)
    ensures |h.pushes| <= |Apply(h, e).pushes| && h.log <= Apply(h, e).log
    ensures e.Publish? ==> Apply(h, e).log == h.log + [e.event] && Apply(h, e).pushes == h.pushes
    ensures !e.Publish? ==> |Apply(h, e).log| - |h.log| == |Apply(h, e).pushes| - |h.pushes|
  {
  }

  function PublishCount(run: seq<Event>): nat {
    if run == [] then 0
    else PublishCount(run[..|run| - 1]) + if run[|run| - 1].Publish? then 1 else 0
  }

  /** The log is as long as the publishing and the pushing make it. */
  lemma {:induction false} LogCounts(run: seq<Event>, h: Hub)
    requires After(run) == Some(h)
    ensures |h.log| == PublishCount(run) + |h.pushes|
  {
    if run != [] {
      var before := run[..|run| - 1];
      LogCounts(before, After(before).value);
      StepOfLog(After(before).value, run[|run| - 1]);
    }
  }

  /** And an event published stands where the log ended then. */
  lemma {:induction false} PublishedStays(run: seq<Event>, h: Hub, i: nat)
    requires After(run) == Some(h) && i < |run| && run[i].Publish?
    ensures After(run[..i]).Some?
    ensures var at := |After(run[..i]).value.log|; at < |h.log| && h.log[at] == run[i].event
  {
    var before := run[..|run| - 1];
    StepOfLog(After(before).value, run[|run| - 1]);
    if i < |run| - 1 {
      PublishedStays(before, After(before).value, i);
      assert before[..i] == run[..i];
    }
  }

  lemma SubscribesHere(h: Hub, s: SessionId)
    requires Enabled(h, Subscribe(s))
    ensures var ch := Apply(h, Subscribe(s)).channels[s]; ch.stage == Subscribed && ch.from == |h.log| && ch.running
  {
  }

  /** The forwarder that subscribed when the log had `at` events, and has since seen `seen`. */
  predicate IsForwarding(h: Hub, s: SessionId, at: nat, seen: seq<Event>) {
    && s < |h.channels| && h.channels[s].stage == Subscribed && h.channels[s].from == at
    && (h.channels[s].running <==> ForwardStop(s) !in seen)
  }

  lemma KeepsForwarding(h: Hub, e: Event, s: SessionId, at: nat, seen: seq<Event>)
    requires Enabled(h, e) && IsForwarding(h, s, at, seen)
    ensures IsForwarding(Apply(h, e), s, at, seen + [e])
  {
    StepOnChannel(h, e, s);
  }

  lemma {:induction false} ForwarderRuns(run: seq<Event>, more: seq<Event>, s: SessionId, at: nat)
    requires After(run).Some? && After(run + more).Some? && IsForwarding(After(run).value, s, at, [])
    ensures IsForwarding(After(run + more).value, s, at, more)
    decreases |more|
  {
    if more == [] {
      assert run + more == run;
    } else {
      var before, last := more[..|more| - 1], more[|more| - 1];
      assert (run + more)[..|run + more| - 1] == run + before && more == before + [last];
      ForwarderRuns(run, before, s, at);
      KeepsForwarding(After(run + before).value, last, s, at, before);
    }
  }

  /** A session's notifications begin where the log ended when it subscribed, and its forwarder runs until it stops. */
  lemma SubscribedAt(run: seq<Event>, h: Hub, s: SessionId, more: seq<Event>, h': Hub)
    requires After(run) == Some(h) && Enabled(h, Subscribe(s)) && After(run + [Subscribe(s)] + more) == Some(h')
    ensures s < |h'.channels| && h'.channels[s].stage == Subscribed && h'.channels[s].from == |h.log|
    ensures h'.channels[s].running <==> ForwardStop(s) !in more
  {
    OneMoreStep(run, Subscribe(s));
    SubscribesHere(h, s);
    ForwarderRuns(run + [Subscribe(s)], more, s, |h.log|);
  }

  function MintCount(run: seq<Event>): nat {
    if run == [] then 0
    else MintCount(run[..|run| - 1]) + if run[|run| - 1].Mint? then 1 else 0
  }

  lemma StepOfCounter(h: Hub, e: Event)
    requires Enabled(h, e)
    ensures Apply(h, e).tables.nextId == if e.Mint? then h.tables.nextId + 1 else h.tables.nextId
  {
  }

  /** Ids are minted from 1 on, one after the other. */
  lemma {:induction false} IdsCount(run: seq<Event>, h: Hub)
    requires After(run) == Some(h)
    ensures h.tables.nextId == 1 + MintCount(run)
  {
    if run != [] {
      var before := run[..|run| - 1];
      IdsCount(before, After(before).value);
      StepOfCounter(After(before).value, run[|run| - 1]);
    }
  }

  lemma MintTakes(h: Hub, c: CallId)
    requires Enabled(h, Mint(c))
    ensures c < |Apply(h, Mint(c)).calls| && Apply(h, Mint(c)).calls[c].id == Some(h.tables.nextId)
  {
  }

  /** The call that mints takes the number it is at, for good. */
  lemma MintsNext(run: seq<Event>, h: Hub, c: CallId, longer: seq<Event>, h': Hub)
    requires After(run) == Some(h) && Enabled(h, Mint(c)) && run + [Mint(c)] <= longer && After(longer) == Some(h')
    ensures c < |h'.calls| && h'.calls[c].id == Some(1 + MintCount(run))
  {
    IdsCount(run, h);
    MintTakes(h, c);
    OneMoreStep(run, Mint(c));
    CallStays(run + [Mint(c)], Apply(h, Mint(c)), longer, h', c);
  }

  // ---------------------------------------------------------------- what was sent

  /** The request of call `c` is on its session's stream. */
  predicate IsOnStream(h: Hub, c: CallId)
    requires c < |h.calls|
  {
    && h.calls[c].id.Some? && h.calls[c].session < |h.channels|
    && Sampling(h.calls[c].id.value, c) in h.channels[h.calls[c].session].events
  }

  /** Calls that wait or have waited for a reply. */
  predicate WasSent(call: Call) {
    || call.phase.Waiting? || call.phase.TimedOut?
    || (call.phase.Done? && call.phase.result != Err(NoClient) && call.phase.result != Err(SessionClosed))
  }

  /** Calls that found their stream closed. */
  predicate FoundClosed(call: Call) {
    call.phase.SendFailed? || call.phase == Done(Err(SessionClosed))
  }

  /** What has become of a call shows on its session's stream. */
  predicate CallShows(h: Hub, c: CallId)
    requires c < |h.calls|
  {
    && (WasSent(h.calls[c]) ==> IsOnStream(h, c))
    && (FoundClosed(h.calls[c]) ==> h.calls[c].session < |h.channels| && !h.channels[h.calls[c].session].open)
  }

  lemma CallUnmoved(h: Hub, e: Event, c: CallId)
    requires Enabled(h, e) && c < |h.calls| && CallShows(h, c)
    requires c < |Apply(h, e).calls| && Apply(h, e).calls[c].phase == h.calls[c].phase
    requires Apply(h, e).calls[c].id == h.calls[c].id && Apply(h, e).calls[c].session == h.calls[c].session
    ensures CallShows(Apply(h, e), c)
  {
    var s := h.calls[c].session;
    if s < |h.channels| {
      StepOnChannel(h, e, s);
    }
  }

  /** The steps of a call itself. */
  lemma CallMoved(h: Hub, e: Event)
    requires HubCorrelated(h) && Enabled(h, e) && IsSampleStep(e) && !e.Choose? && CallShows(h, e.c)
    ensures e.c < |Apply(h, e).calls| && CallShows(Apply(h, e), e.c)
  {
    NeverDropped(h, e.c);
    if e.SendOk? {
      var ch := Apply(h, e).channels[h.calls[e.c].session];
      assert ch.events[|ch.events| - 1] == Sampling(h.calls[e.c].id.value, e.c);
    } else if e.Receive? {
      assert h.calls[e.c] in h.calls;
    }
  }

  lemma OtherCallsUnmoved(h: Hub, e: Event, c: CallId)
    requires Enabled(h, e) && c < |h.calls| && !(IsSampleStep(e) && !e.Choose? && e.c == c)
    ensures c < |Apply(h, e).calls| && Apply(h, e).calls[c].phase == h.calls[c].phase
    ensures Apply(h, e).calls[c].id == h.calls[c].id && Apply(h, e).calls[c].session == h.calls[c].session
  {
  }

  lemma CallsBegin(h: Hub, e: Event)
    requires Enabled(h, e) && !e.Choose? && !e.AutoStart?
    ensures |Apply(h, e).calls| == |h.calls|
  {
  }

  lemma NewCallsShow(h: Hub, e: Event, c: CallId)
    requires Enabled(h, e) && |h.calls| <= c < |Apply(h, e).calls|
    ensures CallShows(Apply(h, e), c)
  {
    if !e.Choose? && !e.AutoStart? {
      CallsBegin(h, e);
    }
  }

  /** A call that waits for a reply has its request on its session's stream; one that found it closed was right. */
  lemma {:induction false} CallsShow(run: seq<Event>, h: Hub, c: CallId)
    requires After(run) == Some(h) && c < |h.calls|
    ensures CallShows(h, c)
  {
    if run != [] {
      var before, e := run[..|run| - 1], run[|run| - 1];
      var h0 := After(before).value;
      if c >= |h0.calls| {
        NewCallsShow(h0, e, c);
      } else {
        CallsShow(before, h0, c);
        if IsSampleStep(e) && !e.Choose? && e.c == c {
          RunKeeps(before);
          CallMoved(h0, e);
        } else {
          OtherCallsUnmoved(h0, e, c);
          CallUnmoved(h0, e, c);
        }
      }
    }
  }

  /** A request the server is done with was answered on its session's stream, or its client had gone. */
  predicate RequestShows(h: Hub, r: nat)
    requires r < |h.requests|
  {
    var q := h.requests[r];
    && q.session < |h.channels|
    && (q.finished ==> !h.channels[q.session].open || Response(q.id, r) in h.channels[q.session].events)
  }

  lemma RequestMoved(h: Hub, e: Event, r: nat)
    requires Enabled(h, e) && (e == Respond(r) || e == Abandon(r)) && RequestShows(h, r)
    ensures r < |Apply(h, e).requests| && RequestShows(Apply(h, e), r)
  {
    if e.Respond? {
      var ch := Apply(h, e).channels[h.requests[r].session];
      assert ch.events[|ch.events| - 1] == Response(h.requests[r].id, r);
    }
  }

  lemma OtherRequestsUnmoved(h: Hub, e: Event, r: nat)
    requires Enabled(h, e) && r < |h.requests| && e != Respond(r) && e != Abandon(r)
    ensures r < |Apply(h, e).requests| && Apply(h, e).requests[r] == h.requests[r]
  {
  }

  lemma NewRequestsShow(h: Hub, e: Event, r: nat)
    requires Enabled(h, e) && |h.requests| <= r < |Apply(h, e).requests|
    requires forall s :: s in h.tables.sessions ==> s < |h.channels|
    ensures RequestShows(Apply(h, e), r)
  {
  }

  lemma {:induction false} RequestsShow(run: seq<Event>, h: Hub, r: nat)
    requires After(run) == Some(h) && r < |h.requests|
    ensures RequestShows(h, r)
  {
    if run != [] {
      var before, e := run[..|run| - 1], run[|run| - 1];
      var h0 := After(before).value;
      if r >= |h0.requests| {
        SessionsOnlyGrow(before, h0);
        NewRequestsShow(h0, e, r);
      } else {
        RequestsShow(before, h0, r);
        if e == Respond(r) || e == Abandon(r) {
          RequestMoved(h0, e, r);
        } else {
          OtherRequestsUnmoved(h0, e, r);
          StepOnChannel(h0, e, h0.requests[r].session);
        }
      }
    }
  }

  /** A stream carries requests of calls on this session only, and of each one at most. */
  predicate SampledOnce(events: seq<SseEvent>, calls: seq<Call>, s: SessionId) {
    && (forall i :: 0 <= i < |events| && events[i].Sampling? ==>
          events[i].call < |calls| && calls[events[i].call].session == s && PastSend(calls[events[i].call]))
    && (forall i, j :: 0 <= i < j < |events| && events[i].Sampling? && events[j].Sampling? ==>
          events[i].call != events[j].call)
  }

  lemma SampledLater(events: seq<SseEvent>, calls: seq<Call>, calls': seq<Call>, s: SessionId)
    requires SampledOnce(events, calls, s) && AllLater(calls, calls')
    ensures SampledOnce(events, calls', s)
  {
    forall i | 0 <= i < |events| && events[i].Sampling?
      ensures Later(calls[events[i].call], calls'[events[i].call])
    {
    }
  }

  lemma OneMoreEvent(events: seq<SseEvent>, x: SseEvent, calls: seq<Call>, calls': seq<Call>, s: SessionId)
    requires SampledOnce(events, calls, s) && AllLater(calls, calls')
    requires x.Sampling? ==> x.call < |calls| && calls[x.call].session == s
    requires x.Sampling? ==> !PastSend(calls[x.call]) && PastSend(calls'[x.call])
    ensures SampledOnce(events + [x], calls', s)
  {
    SampledLater(events, calls, calls', s);
    if x.Sampling? {
      assert Later(calls[x.call], calls'[x.call]);
    }
  }

  lemma LastIsSample(h: Hub, e: Event, s: SessionId)
    requires Enabled(h, e) && s < |h.channels| && |h.channels[s].events| < |Apply(h, e).channels[s].events|
    requires var events := Apply(h, e).channels[s].events; events[|events| - 1].Sampling?
    ensures e.SendOk? && h.calls[e.c].session == s
    ensures var events := Apply(h, e).channels[s].events; events[|events| - 1].call == e.c
  {
  }

  lemma StepSamplesOnce(h: Hub, e: Event, s: SessionId)
    requires HubCorrelated(h) && Enabled(h, e) && s < |h.channels|
    requires SampledOnce(h.channels[s].events, h.calls, s)
    ensures s < |Apply(h, e).channels| && SampledOnce(Apply(h, e).channels[s].events, Apply(h, e).calls, s)
  {
    StepOnChannel(h, e, s);
    StepIsLater(h, e);
    var events, events' := h.channels[s].events, Apply(h, e).channels[s].events;
    if |events| == |events'| {
      SampledLater(events, h.calls, Apply(h, e).calls, s);
    } else {
      var x := events'[|events|];
      assert events' == events + [x];
      if x.Sampling? {
        LastIsSample(h, e, s);
        SendOkBacks(h, e.c);
      }
      OneMoreEvent(events, x, h.calls, Apply(h, e).calls, s);
    }
  }

  lemma NewStreamIsEmpty(h: Hub, e: Event, s: SessionId)
    requires Enabled(h, e) && |h.channels| <= s < |Apply(h, e).channels|
    ensures SampledOnce(Apply(h, e).channels[s].events, Apply(h, e).calls, s)
  {
    StepOfChannels(h, e);
    assert e.Open?;
  }

  /** In every run each call's request is on one stream at most, that of the session it asks, and once. */
  lemma {:induction false} RequestsSentOnce(run: seq<Event>, h: Hub, s: SessionId)
    requires After(run) == Some(h) && s < |h.channels|
    ensures SampledOnce(h.channels[s].events, h.calls, s)
  {
    if run != [] {
      var before, e := run[..|run| - 1], run[|run| - 1];
      var h0 := After(before).value;
      if s >= |h0.channels| {
        NewStreamIsEmpty(h0, e, s);
      } else {
        RequestsSentOnce(before, h0, s);
        RunKeeps(before);
        StepSamplesOnce(h0, e, s);
      }
    }
  }
}
