/**
 Request correlation, over every run of the server: ids are fresh, waiters are neither leaked nor
 revived, and each reply reaches the one call whose id it carries.
 */
module McpCorrelation {
  import opened Wrappers
  import opened McpState
  import opened McpProtocol

  // ---------------------------------------------------------------- the invariant

  /** Ids are minted once: below the counter, and no two calls share one. */
  predicate IdsFresh(t: Tables, calls: seq<Call>) {
    && (forall c <- calls :: c.id.Some? ==> 1 <= c.id.value < t.nextId)
    && (forall i, j :: 0 <= i < |calls| && 0 <= j < |calls| && i != j && calls[i].id.Some? ==>
          calls[i].id != calls[j].id)
  }

  /** `pending` holds the waiters of exactly the calls that have inserted theirs and still wait. */
  predicate PendingExact(t: Tables, calls: seq<Call>) {
    && (forall id <- t.pending ::
          t.pending[id] < |calls| && calls[t.pending[id]].id == Some(id) && Holding(calls[t.pending[id]]))
    && (forall i :: 0 <= i < |calls| && Holding(calls[i]) ==>
          calls[i].id.value in t.pending && t.pending[calls[i].id.value] == i)
  }

  /** The id a reply body names. */
  function ReplyId(body: Json): Option<int> {
    match Get(body, "id") case None => None case Some(id) => AsI64(id)
  }

  /** A call's phase, id and oneshot fit together. */
  predicate CallCoherent(c: Call, posts: seq<Json>) {
    && (c.phase.Chosen? ==> c.id.None?)
    && (c.phase.Chosen? || c.phase.Minted? ==> c.slot.None?)
    && (c.slot.Some? ==> c.id.Some? && c.slot.value.post < |posts| && posts[c.slot.value.post] == c.slot.value.body &&
                         ReplyId(c.slot.value.body) == Some(c.id.value as int))
    && (c.phase.Done? && c.phase.result.Ok? ==> c.slot.Some? && SampleResult(c.slot.value.body) == c.phase.result)
    && (c.phase.Done? ==> c.phase.result != Err(ChannelClosed))
  }

  predicate SlotsDistinct(calls: seq<Call>) {
    forall i, j :: 0 <= i < |calls| && 0 <= j < |calls| && i != j && calls[i].slot.Some? && calls[j].slot.Some? ==>
      calls[i].slot.value.post != calls[j].slot.value.post
  }

  predicate Correlated(t: Tables, calls: seq<Call>, posts: seq<Json>) {
    && t.nextId >= 1
    && IdsFresh(t, calls)
    && PendingExact(t, calls)
    && (forall c <- calls :: CallCoherent(c, posts))
    && SlotsDistinct(calls)
  }

  // ---------------------------------------------------------------- kept by every step

  lemma NewCallKeeps(t: Tables, calls: seq<Call>, posts: seq<Json>, prompt: string)
    requires Correlated(t, calls, posts)
    ensures Correlated(t, calls + [NewCall(t, prompt)], posts)
  {
  }

  lemma MintKeeps(t: Tables, calls: seq<Call>, posts: seq<Json>, c: CallId)
    requires Correlated(t, calls, posts) && c < |calls| && calls[c].phase == Chosen
    ensures Correlated(WithMinted(t), calls[c := calls[c].(phase := Minted, id := Some(t.nextId))], posts)
  {
    assert calls[c] in calls;
  }

  lemma InsertKeeps(t: Tables, calls: seq<Call>, posts: seq<Json>, c: CallId)
    requires Correlated(t, calls, posts) && c < |calls| && calls[c].phase == Minted && calls[c].id.Some?
    ensures Correlated(WithWaiter(t, calls[c].id.value, c), calls[c := calls[c].(phase := Inserted)], posts)
  {
    assert calls[c] in calls;
  }

  /** A step that changes a call's phase but not whether it holds a waiter. */
  lemma PhaseKeeps(t: Tables, calls: seq<Call>, posts: seq<Json>, c: CallId, phase: Phase)
    requires Correlated(t, calls, posts) && c < |calls|
    requires calls[c].phase.Inserted? || calls[c].phase.Waiting?
    requires phase.SendFailed? || phase.Waiting? || phase.TimedOut?
    ensures Correlated(t, calls[c := calls[c].(phase := phase)], posts)
  {
    assert calls[c] in calls;
  }

  lemma RemoveKeeps(t: Tables, calls: seq<Call>, posts: seq<Json>, c: CallId, e: SampleError)
    requires Correlated(t, calls, posts) && c < |calls| && calls[c].id.Some? && e != ChannelClosed
    requires calls[c].phase.SendFailed? || calls[c].phase.TimedOut?
    ensures Correlated(WithoutWaiter(t, calls[c].id.value), calls[c := calls[c].(phase := Done(Err(e)))], posts)
  {
    assert calls[c] in calls;
  }

  lemma ReceiveKeeps(t: Tables, calls: seq<Call>, posts: seq<Json>, c: CallId)
    requires Correlated(t, calls, posts) && c < |calls| && calls[c].phase.Waiting? && calls[c].slot.Some?
    ensures Correlated(t, calls[c := calls[c].(phase := Done(SampleResult(calls[c].slot.value.body)))], posts)
  {
    assert calls[c] in calls;
  }

  lemma AnswerKeeps(t: Tables, calls: seq<Call>, posts: seq<Json>, id: int, body: Json)
    requires Correlated(t, calls, posts) && id in t.pending && ReplyId(body) == Some(id)
    ensures var c, reply := t.pending[id], Reply(|posts|, body);
            && c < |calls|
            && Correlated(WithoutWaiter(t, id), calls[c := calls[c].(slot := Some(reply))], posts + [body])
  {
    var c := t.pending[id];
    var calls' := calls[c := calls[c].(slot := Some(Reply(|posts|, body)))];
    forall i | 0 <= i < |calls|
      ensures CallCoherent(calls[i], posts) && CallCoherent(calls'[i], posts + [body])
    {
      assert calls[i] in calls;
    }
  }

  lemma MissKeeps(t: Tables, calls: seq<Call>, posts: seq<Json>, id: int, body: Json)
    requires Correlated(t, calls, posts) && id !in t.pending
    ensures Correlated(WithoutWaiter(t, id), calls, posts + [body])
  {
    assert WithoutWaiter(t, id) == t;
  }

  predicate HubCorrelated(h: Hub) {
    Correlated(h.tables, h.calls, h.posts)
  }

  /** A waiting call's sender is alive until it answers, so no call is ever cut off. */
  lemma NeverDropped(h: Hub, c: CallId)
    requires HubCorrelated(h)
    ensures !Enabled(h, Dropped(c))
  {
  }

  lemma SampleKeeps(h: Hub, e: Event)
    requires HubCorrelated(h) && Enabled(h, e) && IsSampleStep(e)
    ensures HubCorrelated(Apply(h, e))
  {
    match e
    case Choose(prompt) => NewCallKeeps(h.tables, h.calls, h.posts, prompt);
    case Mint(c) => MintKeeps(h.tables, h.calls, h.posts, c);
    case Insert(c) => InsertKeeps(h.tables, h.calls, h.posts, c);
    case SendOk(c) => PhaseKeeps(h.tables, h.calls, h.posts, c, Waiting);
    case SendErr(c) => PhaseKeeps(h.tables, h.calls, h.posts, c, SendFailed);
    case Cleanup(c) => RemoveKeeps(h.tables, h.calls, h.posts, c, SessionClosed);
    case Receive(c) => ReceiveKeeps(h.tables, h.calls, h.posts, c);
    case Timeout(c) => PhaseKeeps(h.tables, h.calls, h.posts, c, TimedOut);
    case Expire(c) => RemoveKeeps(h.tables, h.calls, h.posts, c, SamplingTimeout);
    case Dropped(c) => NeverDropped(h, c);
  }

  lemma PostKeeps(h: Hub, s: SessionId, body: Json)
    requires HubCorrelated(h)
    ensures HubCorrelated(ApplyPost(h, s, body))
  {
    match Route(h.tables, s, body)
    case ClientReply(id) =>
      if id in h.tables.pending {
        AnswerKeeps(h.tables, h.calls, h.posts, id, body);
      } else {
        MissKeeps(h.tables, h.calls, h.posts, id, body);
      }
    case _ =>
  }

  lemma StepKeeps(h: Hub, e: Event)
    requires HubCorrelated(h) && Enabled(h, e)
    ensures HubCorrelated(Apply(h, e))
  {
    if IsSampleStep(e) {
      SampleKeeps(h, e);
    } else if e.Post? {
      PostKeeps(h, e.s, e.body);
    } else if e.AutoStart? {
      NewCallKeeps(h.tables, h.calls, h.posts, h.log[h.auto.source].text);
    }
  }

  lemma {:induction false} RunKeeps(events: seq<Event>)
    requires After(events).Some?
    ensures HubCorrelated(After(events).value)
  {
    if events != [] {
      var before := events[..|events| - 1];
      RunKeeps(before);
      StepKeeps(After(before).value, events[|events| - 1]);
    }
  }

  // ---------------------------------------------------------------- no leak

  /** The ids of calls that have inserted their waiter and neither been answered nor given up. */
  function HeldIds(calls: seq<Call>): set<int> {
    set i | 0 <= i < |calls| && Holding(calls[i]) :: calls[i].id.value
  }

  lemma HeldAreKeys(t: Tables, calls: seq<Call>)
    requires PendingExact(t, calls)
    ensures t.pending.Keys == HeldIds(calls)
  {
    forall id | id in t.pending
      ensures id in HeldIds(calls)
    {
      var i := t.pending[id];
      assert Holding(calls[i]) && calls[i].id.value == id;
    }
    forall id | id in HeldIds(calls)
      ensures id in t.pending
    {
    }
  }

  /** In every reachable state the keys of `pending` are exactly those ids. */
  lemma NoLeak(events: seq<Event>, h: Hub)
    requires After(events) == Some(h)
    ensures h.tables.pending.Keys == HeldIds(h.calls)
    ensures (forall c <- h.calls :: c.phase.Done?) ==> h.tables.pending == map[]
  {
    RunKeeps(events);
    HeldAreKeys(h.tables, h.calls);
    forall id | id in h.tables.pending
      ensures !h.calls[h.tables.pending[id]].phase.Done?
    {
    }
  }

  /** Every id was minted below the counter for one call only, and each reply body is in one oneshot at most. */
  lemma IdsAndRepliesAreDistinct(events: seq<Event>, h: Hub, i: CallId, j: CallId)
    requires After(events) == Some(h) && i < |h.calls| && j < |h.calls| && i != j
    ensures h.calls[i].id.Some? ==> 1 <= h.calls[i].id.value < h.tables.nextId && h.calls[i].id != h.calls[j].id
    ensures h.calls[i].slot.Some? && h.calls[j].slot.Some? ==> h.calls[i].slot.value.post != h.calls[j].slot.value.post
  {
    RunKeeps(events);
    assert h.calls[i] in h.calls;
  }

  // ---------------------------------------------------------------- once only

  /** The call has inserted its waiter, at this state or before. */
  predicate Began(call: Call) {
    call.id.Some? && !call.phase.Chosen? && !call.phase.Minted?
  }

  /** What a call can still become: its prompt, session, id and reply stay, and it never holds a waiter again. */
  predicate Later(c: Call, c': Call) {
    && c'.prompt == c.prompt && c'.session == c.session
    && (c.id.Some? ==> c'.id == c.id)
    && (c.slot.Some? ==> c'.slot == c.slot)
    && (c.phase.Done? ==> c'.phase == c.phase)
    && (Began(c) ==> Began(c'))
    && (Began(c) && !Holding(c) ==> !Holding(c'))
    && (PastSend(c) ==> PastSend(c'))
  }

  /** The send of the request is over, one way or the other. */
  predicate PastSend(call: Call) {
    Began(call) && !call.phase.Inserted? && !call.phase.SendFailed?
  }

  predicate AllLater(calls: seq<Call>, calls': seq<Call>) {
    |calls| <= |calls'| && forall i :: 0 <= i < |calls| ==> Later(calls[i], calls'[i])
  }

  lemma StepIsLater(h: Hub, e: Event)
    requires HubCorrelated(h) && Enabled(h, e)
    ensures AllLater(h.calls, Apply(h, e).calls)
  {
    if IsSampleStep(e) {
      SampleIsLater(h, e);
    } else if e.Post? {
      PostIsLater(h, e.s, e.body);
    } else {
      OtherIsLater(h, e);
    }
  }

  lemma OtherIsLater(h: Hub, e: Event)
    requires Enabled(h, e) && !IsSampleStep(e) && !e.Post?
    ensures AllLater(h.calls, Apply(h, e).calls)
  {
  }

  lemma UpdateIsLater(calls: seq<Call>, c: CallId, call: Call)
    requires c < |calls| && Later(calls[c], call)
    ensures AllLater(calls, calls[c := call])
  {
  }

  lemma SampleIsLater(h: Hub, e: Event)
    requires HubCorrelated(h) && Enabled(h, e) && IsSampleStep(e)
    ensures AllLater(h.calls, Apply(h, e).calls)
  {
    if !e.Choose? {
      assert CallCoherent(h.calls[e.c], h.posts) by { assert h.calls[e.c] in h.calls; }
    }
    match e
    case Choose(_) =>
    case Mint(c) => UpdateIsLater(h.calls, c, h.calls[c].(phase := Minted, id := Some(h.tables.nextId)));
    case Insert(c) => UpdateIsLater(h.calls, c, h.calls[c].(phase := Inserted));
    case SendOk(c) => UpdateIsLater(h.calls, c, h.calls[c].(phase := Waiting));
    case SendErr(c) => UpdateIsLater(h.calls, c, h.calls[c].(phase := SendFailed));
    case Cleanup(c) => UpdateIsLater(h.calls, c, h.calls[c].(phase := Done(Err(SessionClosed))));
    case Receive(c) => UpdateIsLater(h.calls, c, h.calls[c].(phase := Done(SampleResult(h.calls[c].slot.value.body))));
    case Timeout(c) => UpdateIsLater(h.calls, c, h.calls[c].(phase := TimedOut));
    case Expire(c) => UpdateIsLater(h.calls, c, h.calls[c].(phase := Done(Err(SamplingTimeout))));
    case Dropped(c) => NeverDropped(h, c);
  }

  lemma PostIsLater(h: Hub, s: SessionId, body: Json)
    requires HubCorrelated(h)
    ensures AllLater(h.calls, ApplyPost(h, s, body).calls)
  {
  }

  /** The run goes on from `events` with `more`. */
  lemma {:induction false} RunIsLater(events: seq<Event>, more: seq<Event>)
    requires After(events + more).Some?
    ensures After(events).Some? && AllLater(After(events).value.calls, After(events + more).value.calls)
    decreases |more|
  {
    if more == [] {
      assert events + more == events;
    } else {
      var before, last := more[..|more| - 1], more[|more| - 1];
      assert (events + more)[..|events + more| - 1] == events + before;
      RunIsLater(events, before);
      RunKeeps(events + before);
      StepIsLater(After(events + before).value, last);
    }
  }

  /** An id that has left `pending` never comes back, whatever happens after. */
  lemma NeverReenters(a: seq<Event>, b: seq<Event>, c: seq<Event>, id: int)
    requires After(a + b + c).Some? && After(a).Some? && After(a + b).Some?
    requires id in After(a).value.tables.pending && id !in After(a + b).value.tables.pending
    ensures id !in After(a + b + c).value.tables.pending
  {
    var h, h', h'' := After(a).value, After(a + b).value, After(a + b + c).value;
    RunKeeps(a);
    RunKeeps(a + b);
    RunKeeps(a + b + c);
    RunIsLater(a, b);
    RunIsLater(a + b, c);
    var call := h.tables.pending[id];
    assert Later(h.calls[call], h'.calls[call]) && Later(h'.calls[call], h''.calls[call]);
  }

  /** A body, once in a call's oneshot, is never replaced, and a call that is done stays as it is. */
  lemma AnswersAreFinal(events: seq<Event>, more: seq<Event>, c: CallId)
    requires After(events + more).Some? && After(events).Some? && c < |After(events).value.calls|
    ensures var before, after := After(events).value.calls, After(events + more).value.calls;
            && c < |after|
            && (before[c].slot.Some? ==> after[c].slot == before[c].slot)
            && (before[c].phase.Done? ==> after[c].phase == before[c].phase)
  {
    RunIsLater(events, more);
    assert Later(After(events).value.calls[c], After(events + more).value.calls[c]);
  }

  // ---------------------------------------------------------------- no lost and no crossed reply

  /** `sample` returns `Ok(t)` only if a body POSTed with this call's id carried `t` at the expected path. */
  lemma OkMeansAnswered(events: seq<Event>, h: Hub, c: CallId, text: string)
    requires After(events) == Some(h) && c < |h.calls| && h.calls[c].phase == Done(Ok(text))
    ensures exists post :: 0 <= post < |h.posts| && h.calls[c].slot == Some(Reply(post, h.posts[post]))
    ensures var body := h.calls[c].slot.value.body;
            && h.calls[c].id.Some? && ReplyId(body) == Some(h.calls[c].id.value as int)
            && Get(body, "error") == None && ReplyText(body) == Some(text)
  {
    RunKeeps(events);
    assert h.calls[c] in h.calls;
    assert CallCoherent(h.calls[c], h.posts);
    assert h.calls[c].slot == Some(Reply(h.calls[c].slot.value.post, h.posts[h.calls[c].slot.value.post]));
  }

  /** A request on a channel is that of a call that has inserted its waiter under the request's id. */
  predicate RequestBacked(calls: seq<Call>, e: SseEvent) {
    e.Sampling? ==> e.call < |calls| && calls[e.call].id == Some(e.number) && PastSend(calls[e.call])
  }

  predicate RequestsBacked(h: Hub) {
    forall ch <- h.channels :: forall e <- ch.events :: RequestBacked(h.calls, e)
  }

  lemma BackedLater(calls: seq<Call>, calls': seq<Call>, e: SseEvent)
    requires RequestBacked(calls, e) && AllLater(calls, calls')
    ensures RequestBacked(calls', e)
  {
    if e.Sampling? {
      assert Later(calls[e.call], calls'[e.call]);
    }
  }

  /** The only requests a step adds to a channel are those of `SendOk`. */
  lemma OnlySendOkRequests(h: Hub, e: Event, s: SessionId, event: SseEvent)
    requires Enabled(h, e) && s < |Apply(h, e).channels| && event in Apply(h, e).channels[s].events && event.Sampling?
    requires !(s < |h.channels| && event in h.channels[s].events)
    ensures e.SendOk? && event == Sampling(h.calls[e.c].id.value, e.c)
  {
  }

  lemma SendOkBacks(h: Hub, c: CallId)
    requires Enabled(h, SendOk(c))
    ensures RequestBacked(Apply(h, SendOk(c)).calls, Sampling(h.calls[c].id.value, c))
  {
  }

  lemma NewEventsBacked(h: Hub, e: Event, ch: Channel, event: SseEvent)
    requires HubCorrelated(h) && RequestsBacked(h) && Enabled(h, e)
    requires ch in Apply(h, e).channels && event in ch.events
    ensures RequestBacked(Apply(h, e).calls, event)
  {
    var s :| 0 <= s < |Apply(h, e).channels| && Apply(h, e).channels[s] == ch;
    if event.Sampling? {
      if s < |h.channels| && event in h.channels[s].events {
        StepIsLater(h, e);
        BackedLater(h.calls, Apply(h, e).calls, event);
      } else {
        OnlySendOkRequests(h, e, s, event);
        SendOkBacks(h, e.c);
      }
    }
  }

  lemma {:induction false} RunBacks(events: seq<Event>)
    requires After(events).Some?
    ensures RequestsBacked(After(events).value)
  {
    if events != [] {
      var before, e := events[..|events| - 1], events[|events| - 1];
      RunBacks(before);
      RunKeeps(before);
      var h := After(before).value;
      forall ch, event | ch in Apply(h, e).channels && event in ch.events
        ensures RequestBacked(Apply(h, e).calls, event)
      {
        NewEventsBacked(h, e, ch, event);
      }
    }
  }

  /** A reply POSTed while its call waits goes into the call's oneshot, and takes the waiter out. */
  lemma PostAnswers(h: Hub, s: SessionId, body: Json, c: CallId)
    requires HubCorrelated(h) && c < |h.calls| && Holding(h.calls[c])
    requires Route(h.tables, s, body) == ClientReply(h.calls[c].id.value)
    ensures var h' := ApplyPost(h, s, body);
            && h'.calls == h.calls[c := h.calls[c].(slot := Some(Reply(|h.posts|, body)))]
            && h'.posts == h.posts + [body]
            && h.calls[c].id.value !in h'.tables.pending
  {
  }

  /**
   No reply is lost: once the client can see a request, a reply with its id on any registered session
   reaches the waiting call, unless that call was answered or timed out before; and then the call
   can only go on to return what the reply says.
   */
  lemma ReplyFindsItsWaiter(events: seq<Event>, h: Hub, ch: Channel, e: SseEvent, s: SessionId, body: Json)
    requires After(events) == Some(h)
    requires ch in h.channels && e in ch.events && e.Sampling?
    requires Route(h.tables, s, body) == ClientReply(e.number)
    ensures e.call < |h.calls|
    ensures var c, h' := h.calls[e.call], ApplyPost(h, s, body);
            || c.slot.Some? || c.phase.TimedOut? || c.phase.Done?
            || (&& h'.calls == h.calls[e.call := c.(slot := Some(Reply(|h.posts|, body)))]
                && e.number !in h'.tables.pending)
  {
    RunBacks(events);
    RunKeeps(events);
    assert RequestBacked(h.calls, e);
    if Holding(h.calls[e.call]) {
      PostAnswers(h, s, body, e.call);
    }
  }

  lemma AnsweredSampleStep(h: Hub, e: Event, c: CallId)
    requires c < |h.calls| && h.calls[c].phase == Waiting && h.calls[c].slot.Some?
    requires IsSampleStep(e) && Enabled(h, e)
    ensures c < |Apply(h, e).calls| && Apply(h, e).calls[c].phase ==
              if e == Receive(c) then Done(SampleResult(h.calls[c].slot.value.body)) else Waiting
  {
  }

  /** No other task moves a call on. */
  lemma OtherTasksStep(h: Hub, e: Event, c: CallId)
    requires c < |h.calls| && !IsSampleStep(e) && Enabled(h, e)
    ensures c < |Apply(h, e).calls| && Apply(h, e).calls[c].phase == h.calls[c].phase
  {
  }

  /** The call has its reply, and has returned what the reply says or waits to. */
  predicate HasReply(h: Hub, c: CallId, body: Json) {
    && c < |h.calls| && h.calls[c].slot.Some? && h.calls[c].slot.value.body == body
    && (h.calls[c].phase == Waiting || h.calls[c].phase == Done(SampleResult(body)))
  }

  /** The one step a call that has its reply can take. */
  lemma AnsweredCallStep(h: Hub, e: Event, c: CallId, body: Json)
    requires HubCorrelated(h) && Enabled(h, e) && HasReply(h, c, body)
    ensures c < |Apply(h, e).calls| && Apply(h, e).calls[c].phase ==
              if e == Receive(c) then Done(SampleResult(body)) else h.calls[c].phase
  {
    if !IsSampleStep(e) {
      OtherTasksStep(h, e, c);
    } else if h.calls[c].phase == Waiting {
      AnsweredSampleStep(h, e, c);
    } else {
      StepIsLater(h, e);
      assert Later(h.calls[c], Apply(h, e).calls[c]);
    }
  }

  /** However the run goes on, a call that has its reply can only return what the reply says. */
  lemma {:induction false} AnsweredCallReturnsReply(run: seq<Event>, h: Hub, longer: seq<Event>, h': Hub, c: CallId)
    requires After(run) == Some(h) && run <= longer && After(longer) == Some(h')
    requires c < |h.calls| && h.calls[c].phase == Waiting && h.calls[c].slot.Some?
    ensures HasReply(h', c, h.calls[c].slot.value.body)
    decreases |longer|
  {
    if |longer| > |run| {
      var before, e := longer[..|longer| - 1], longer[|longer| - 1];
      var middle := After(before).value;
      AnsweredCallReturnsReply(run, h, before, middle, c);
      RunKeeps(before);
      AnsweredCallStep(middle, e, c, h.calls[c].slot.value.body);
      StepIsLater(middle, e);
      assert Later(middle.calls[c], h'.calls[c]);
    } else {
      assert longer == run;
    }
  }

  /**
   A reply is returned as `Ok` exactly if it carries the text and has no `error` member at all; an `error`
   member is the client's error, and anything else has an unexpected shape.
   */
  lemma OkExactly(body: Json, text: string, error: Json)
    ensures SampleResult(body) == Ok(text) <==> Get(body, "error") == None && ReplyText(body) == Some(text)
    ensures SampleResult(body) == Err(ClientError(error)) <==> Get(body, "error") == Some(error)
    ensures SampleResult(body) == Err(UnexpectedShape(body)) <==> Get(body, "error") == None && ReplyText(body) == None
  {
  }

  /** So, of a call that had its reply while it waited, once it is done. */
  lemma AnsweredOkExactly(run: seq<Event>, h: Hub, longer: seq<Event>, h': Hub, c: CallId, text: string)
    requires After(run) == Some(h) && run <= longer && After(longer) == Some(h')
    requires c < |h.calls| && h.calls[c].phase == Waiting && h.calls[c].slot.Some?
    requires c < |h'.calls| && h'.calls[c].phase.Done?
    ensures var body := h.calls[c].slot.value.body;
            h'.calls[c].phase == Done(Ok(text)) <==> Get(body, "error") == None && ReplyText(body) == Some(text)
  {
    AnsweredCallReturnsReply(run, h, longer, h', c);
    OkExactly(h.calls[c].slot.value.body, text, Null);
  }

  /** A body that carries its text beside a null `error`, and is taken for a failure all the same. */
  lemma NullErrorFails(text: string)
    ensures var content := Obj(map["content" := Obj(map["text" := Str(text)])]);
            var body := Obj(map["id" := Int(1), "result" := content, "error" := Null]);
            ReplyText(body) == Some(text) && SampleResult(body) == Err(ClientError(Null))
  {
    var inner := Obj(map["text" := Str(text)]);
    var content := Obj(map["content" := inner]);
    var body := Obj(map["id" := Int(1), "result" := content, "error" := Null]);
    assert Get(body, "result") == Some(content) && Get(content, "content") == Some(inner);
  }
}
