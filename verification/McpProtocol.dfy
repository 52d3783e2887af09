/**
 The MCP server as a state machine: concurrent `sample` calls, POSTs, SSE sessions with their
 forwarders, the event broadcast and the auto-reply loop. One event is one step between two awaits
 (or between two locks) of one task; a run is any enabled sequence of events.
 */
module McpProtocol {
  import opened Wrappers
  import opened McpState

  // ---------------------------------------------------------------- sample calls

  datatype SampleError =
    | NoClient
    | SessionClosed
    | SamplingTimeout
    | ChannelClosed
    | ClientError(error: Json)
    | UnexpectedShape(response: Json)

  /** What `sample` makes of the reply body. */
  function SampleResult(body: Json): Result<string, SampleError> {
    match Get(body, "error")
    case Some(e) => Err(ClientError(e))
    case None =>
      match ReplyText(body)
      case Some(text) => Ok(text)
      case None => Err(UnexpectedShape(body))
  }

  /** The string at `result.content.text`. */
  function ReplyText(body: Json): Option<string> {
    match Get(body, "result")
    case None => None
    case Some(result) =>
      match Get(result, "content")
      case None => None
      case Some(content) =>
        match Get(content, "text")
        case None => None
        case Some(text) => if text.Str? then Some(text.s) else None
  }

  datatype Phase =
    | Chosen      // the session's sender has been cloned
    | Minted      // the id is taken
    | Inserted    // the waiter is in `pending`, the send is under way
    | SendFailed  // the channel is gone, the waiter still to be removed
    | Waiting     // the request is on the channel
    | TimedOut    // the timeout fired, the waiter still to be removed
    | Done(result: Result<string, SampleError>)

  /** A body in a call's oneshot, and the POST it came with. */
  datatype Reply = Reply(post: nat, body: Json)

  datatype Call = Call(prompt: string, session: SessionId, phase: Phase, id: Option<nat>, slot: Option<Reply>)

  function NewCall(t: Tables, prompt: string): Call {
    match t.primary
    case None => Call(prompt, 0, Done(Err(NoClient)), None, None)
    case Some(session) => Call(prompt, session, Chosen, None, None)
  }

  /** The call's waiter has been inserted, and neither answered nor removed. */
  predicate Holding(call: Call) {
    && call.id.Some? && call.slot.None?
    && (call.phase.Inserted? || call.phase.SendFailed? || call.phase.Waiting? || call.phase.TimedOut?)
  }

  // ---------------------------------------------------------------- sessions

  datatype SseEvent =
    | Endpoint(session: SessionId)
    | Response(id: Json, request: nat)
    | Sampling(number: nat, call: CallId)
    | Notification(event: BackendEvent)

  const CHANNEL_CAPACITY: nat := 64
  const BROADCAST_CAPACITY: nat := 256

  /** How far `sse_handler` has come with a session. */
  datatype Stage = Registered | Primary | Subscribed

  /**
   A session: all events ever enqueued and how many the client has taken; and its forwarder, which
   reads the broadcast from `from`, has forwarded it up to `next`, and may hold one event to send.
   */
  datatype Channel = Channel(events: seq<SseEvent>, taken: nat, open: bool, stage: Stage,
                             from: nat, next: nat, holding: bool, running: bool)

  predicate HasRoom(ch: Channel) {
    ch.open && |ch.events| < ch.taken + CHANNEL_CAPACITY
  }

  datatype Request = Request(session: SessionId, id: Json, finished: bool)

  // ---------------------------------------------------------------- the auto-reply loop

  datatype Auto =
    | Off
    | Idle(next: nat)
    | Starting(source: nat)
    | Calling(source: nat, call: CallId)
    | Pushing(source: nat, call: CallId, reply: string)
    | Stopped

  /** A push of the loop: the event it answers, the call that made the answer, where it was published. */
  datatype Push = Push(source: nat, call: CallId, at: nat)

  // ---------------------------------------------------------------- the machine

  datatype Hub = Hub(
    tables: Tables,
    calls: seq<Call>,
    channels: seq<Channel>,
    requests: seq<Request>,
    posts: seq<Json>,
    log: seq<BackendEvent>,
    auto: Auto,
    pushes: seq<Push>)

  const INITIAL: Hub := Hub(NO_TABLES, [], [], [], [], [], Off, [])

  datatype Event =
    // sample
    | Choose(prompt: string)
    | Mint(c: CallId)
    | Insert(c: CallId)
    | SendOk(c: CallId)
    | SendErr(c: CallId)
    | Cleanup(c: CallId)
    | Receive(c: CallId)
    | Timeout(c: CallId)
    | Expire(c: CallId)
    | Dropped(c: CallId)
    // POST /messages
    | Post(s: SessionId, body: Json)
    | Respond(r: nat)
    | Abandon(r: nat)
    // GET /sse
    | Open
    | MakePrimary(s: SessionId)
    | Subscribe(s: SessionId)
    | ClientTake(s: SessionId)
    | Disconnect(s: SessionId)
    | ForwardTake(s: SessionId)
    | ForwardSend(s: SessionId)
    | ForwardStop(s: SessionId)
    // the broadcast
    | Publish(event: BackendEvent)
    // auto-reply
    | AutoSubscribe
    | AutoTake
    | AutoStart
    | AutoFinish
    | AutoPush(delivered: bool)
    | AutoStop

  predicate InPhase(h: Hub, c: CallId, phase: Phase) {
    c < |h.calls| && h.calls[c].phase == phase && h.calls[c].session < |h.channels| &&
    (phase == Chosen || h.calls[c].id.Some?)
  }

  /** The oneshot sender of call `c` is alive: it sits in `pending`. */
  predicate SenderAlive(h: Hub, c: CallId)
    requires c < |h.calls| && h.calls[c].id.Some?
  {
    var id := h.calls[c].id.value;
    id in h.tables.pending && h.tables.pending[id] == c
  }

  /** The handler has returned the session's stream, and the client has not closed it. */
  predicate Streaming(h: Hub, s: SessionId) {
    s < |h.channels| && h.channels[s].stage == Subscribed && h.channels[s].open
  }

  predicate Enabled(h: Hub, e: Event) {
    match e
    case Choose(_) => true
    case Mint(c) => InPhase(h, c, Chosen)
    case Insert(c) => InPhase(h, c, Minted)
    case SendOk(c) => InPhase(h, c, Inserted) && HasRoom(h.channels[h.calls[c].session])
    case SendErr(c) => InPhase(h, c, Inserted) && !h.channels[h.calls[c].session].open
    case Cleanup(c) => InPhase(h, c, SendFailed)
    case Receive(c) => InPhase(h, c, Waiting) && h.calls[c].slot.Some?
    case Timeout(c) => InPhase(h, c, Waiting) && h.calls[c].slot.None?
    case Expire(c) => InPhase(h, c, TimedOut)
    case Dropped(c) => InPhase(h, c, Waiting) && h.calls[c].slot.None? && !SenderAlive(h, c)
    case Post(_, _) => true
    case Respond(r) =>
      && r < |h.requests| && !h.requests[r].finished
      && h.requests[r].session < |h.channels| && HasRoom(h.channels[h.requests[r].session])
    case Abandon(r) =>
      && r < |h.requests| && !h.requests[r].finished
      && h.requests[r].session < |h.channels| && !h.channels[h.requests[r].session].open
    case Open => true
    case MakePrimary(s) => s < |h.channels| && h.channels[s].stage == Registered
    case Subscribe(s) => s < |h.channels| && h.channels[s].stage == Primary
    case ClientTake(s) => Streaming(h, s) && h.channels[s].taken < |h.channels[s].events|
    case Disconnect(s) => Streaming(h, s)
    case ForwardTake(s) =>
      && s < |h.channels| && h.channels[s].running && !h.channels[s].holding
      && h.channels[s].next < |h.log| <= h.channels[s].next + BROADCAST_CAPACITY
    case ForwardSend(s) =>
      && s < |h.channels| && h.channels[s].running && h.channels[s].holding
      && h.channels[s].next < |h.log| && HasRoom(h.channels[s])
    case ForwardStop(s) =>
      && s < |h.channels| && h.channels[s].running
      && (if h.channels[s].holding then !h.channels[s].open
          else |h.log| > h.channels[s].next + BROADCAST_CAPACITY)
    case Publish(_) => true
    case AutoSubscribe => h.auto.Off?
    case AutoTake => h.auto.Idle? && h.auto.next < |h.log| <= h.auto.next + BROADCAST_CAPACITY
    case AutoStart => h.auto.Starting? && h.auto.source < |h.log| && h.log[h.auto.source].ChatReceived?
    case AutoFinish => h.auto.Calling? && h.auto.call < |h.calls| && h.calls[h.auto.call].phase.Done?
    case AutoPush(_) => h.auto.Pushing?
    case AutoStop => h.auto.Idle? && |h.log| > h.auto.next + BROADCAST_CAPACITY
  }

  function WithCall(h: Hub, c: CallId, call: Call): Hub
    requires c < |h.calls|
  {
    h.(calls := h.calls[c := call])
  }

  function WithPhase(h: Hub, c: CallId, phase: Phase): Hub
    requires c < |h.calls|
  {
    WithCall(h, c, h.calls[c].(phase := phase))
  }

  function WithChannel(h: Hub, s: SessionId, ch: Channel): Hub
    requires s < |h.channels|
  {
    h.(channels := h.channels[s := ch])
  }

  function Enqueued(h: Hub, s: SessionId, event: SseEvent): Hub
    requires s < |h.channels|
  {
    WithChannel(h, s, h.channels[s].(events := h.channels[s].events + [event]))
  }

  /** The steps of `sample`. */
  function ApplySample(h: Hub, e: Event): Hub
    requires Enabled(h, e)
  {
    match e
    case Choose(prompt) => h.(calls := h.calls + [NewCall(h.tables, prompt)])
    case Mint(c) =>
      WithCall(h.(tables := WithMinted(h.tables)), c, h.calls[c].(phase := Minted, id := Some(h.tables.nextId)))
    case Insert(c) =>
      WithPhase(h.(tables := WithWaiter(h.tables, h.calls[c].id.value, c)), c, Inserted)
    case SendOk(c) =>
      Enqueued(WithPhase(h, c, Waiting), h.calls[c].session, Sampling(h.calls[c].id.value, c))
    case SendErr(c) => WithPhase(h, c, SendFailed)
    case Cleanup(c) =>
      WithPhase(h.(tables := WithoutWaiter(h.tables, h.calls[c].id.value)), c, Done(Err(SessionClosed)))
    case Receive(c) => WithPhase(h, c, Done(SampleResult(h.calls[c].slot.value.body)))
    case Timeout(c) => WithPhase(h, c, TimedOut)
    case Expire(c) =>
      WithPhase(h.(tables := WithoutWaiter(h.tables, h.calls[c].id.value)), c, Done(Err(SamplingTimeout)))
    case Dropped(c) => WithPhase(h, c, Done(Err(ChannelClosed)))
    case _ => h
  }

  function ApplyPost(h: Hub, s: SessionId, body: Json): Hub {
    match Route(h.tables, s, body)
    case ClientRequest(id) => h.(requests := h.requests + [Request(s, id, false)])
    case ClientReply(id) =>
      var woken := Woken(h.tables, s, body);
      var h' := h.(tables := AfterPost(h.tables, s, body), posts := h.posts + [body]);
      if woken.Some? && woken.value < |h.calls| then
        WithCall(h', woken.value, h.calls[woken.value].(slot := Some(Reply(|h.posts|, body))))
      else h'
    case _ => h
  }

  /** The steps of sessions and their channels. */
  function ApplySession(h: Hub, e: Event): Hub
    requires Enabled(h, e)
  {
    match e
    case Respond(r) =>
      var q := h.requests[r];
      Enqueued(h.(requests := h.requests[r := q.(finished := true)]), q.session, Response(q.id, r))
    case Abandon(r) => h.(requests := h.requests[r := h.requests[r].(finished := true)])
    case Open =>
      var s := |h.channels|;
      h.(tables := WithSession(h.tables, s),
         channels := h.channels + [Channel([Endpoint(s)], 0, true, Registered, 0, 0, false, false)])
    case MakePrimary(s) =>
      WithChannel(h.(tables := WithPrimary(h.tables, s)), s, h.channels[s].(stage := Primary))
    case Subscribe(s) =>
      WithChannel(h, s, h.channels[s].(stage := Subscribed, from := |h.log|, next := |h.log|, running := true))
    case ClientTake(s) => WithChannel(h, s, h.channels[s].(taken := h.channels[s].taken + 1))
    case Disconnect(s) => WithChannel(h, s, h.channels[s].(open := false))
    case ForwardTake(s) => WithChannel(h, s, h.channels[s].(holding := true))
    case ForwardSend(s) =>
      var ch := h.channels[s];
      var note := Notification(h.log[ch.next]);
      WithChannel(h, s, ch.(events := ch.events + [note], next := ch.next + 1, holding := false))
    case ForwardStop(s) => WithChannel(h, s, h.channels[s].(running := false))
    case _ => h
  }

  /** The steps of the auto-reply loop. */
  function ApplyAuto(h: Hub, e: Event): Hub
    requires Enabled(h, e)
  {
    match e
    case AutoSubscribe => h.(auto := Idle(|h.log|))
    case AutoTake =>
      h.(auto := if h.log[h.auto.next].ChatReceived? then Starting(h.auto.next) else Idle(h.auto.next + 1))
    case AutoStart =>
      h.(calls := h.calls + [NewCall(h.tables, h.log[h.auto.source].text)],
         auto := Calling(h.auto.source, |h.calls|))
    case AutoFinish =>
      var a := h.auto;
      (match h.calls[a.call].phase.result
       case Ok(reply) => h.(auto := Pushing(a.source, a.call, reply))
       case Err(_) => h.(auto := Idle(a.source + 1)))
    case AutoPush(delivered) =>
      var a := h.auto;
      if delivered then
        h.(auto := Idle(a.source + 1), log := h.log + [ChatPushed(a.reply)],
           pushes := h.pushes + [Push(a.source, a.call, |h.log|)])
      else h.(auto := Idle(a.source + 1))
    case AutoStop => h.(auto := Stopped)
    case _ => h
  }

  predicate IsSampleStep(e: Event) {
    e.Choose? || e.Mint? || e.Insert? || e.SendOk? || e.SendErr? || e.Cleanup? || e.Receive? || e.Timeout? ||
    e.Expire? || e.Dropped?
  }

  predicate IsAutoStep(e: Event) {
    e.AutoSubscribe? || e.AutoTake? || e.AutoStart? || e.AutoFinish? || e.AutoPush? || e.AutoStop?
  }

  function Apply(h: Hub, e: Event): Hub
    requires Enabled(h, e)
  {
    if IsSampleStep(e) then ApplySample(h, e)
    else if e.Post? then ApplyPost(h, e.s, e.body)
    else if e.Publish? then h.(log := h.log + [e.event])
    else if IsAutoStep(e) then ApplyAuto(h, e)
    else ApplySession(h, e)
  }

  /**
   A step on the shared fields themselves: the methods of `McpState` take the tables where the machine's
   step does, and a step that none of them performs leaves the tables alone.
   */
  method StepTables(state: McpState, h: Hub, e: Event)
    requires Enabled(h, e) && state.View() == h.tables
    modifies state
    ensures state.View() == Apply(h, e).tables
    ensures state.history == old(state.history) && state.status == old(state.status)
  {
    match e
    case Mint(_) => var _ := state.MintId();
    case Insert(c) => state.InsertWaiter(h.calls[c].id.value, c);
    case Cleanup(c) => var _ := state.RemoveWaiter(h.calls[c].id.value);
    case Expire(c) => var _ := state.RemoveWaiter(h.calls[c].id.value);
    case Post(s, body) => var _, _ := state.HandlePost(s, body);
    case Open => state.InsertSession(|h.channels|);
    case MakePrimary(s) => state.SetPrimary(s);
    case _ =>
  }

  /** The state after a run, if every event of it was enabled in turn. */
  function After(events: seq<Event>): Option<Hub> {
    if events == [] then Some(INITIAL)
    else
      match After(events[..|events| - 1])
      case None => None
      case Some(h) =>
        var e := events[|events| - 1];
        if Enabled(h, e) then Some(Apply(h, e)) else None
  }

  /** What a step does to a session already open: its stream is read, or ends, or gets longer. */
  predicate Onwards(ch: Channel, ch': Channel, e: Event, s: SessionId) {
    && (ch'.open <==> ch.open && e != Disconnect(s))
    && ch'.taken == (if e == ClientTake(s) then ch.taken + 1 else ch.taken)
    && ch.events <= ch'.events && |ch'.events| <= |ch.events| + 1
    && (ch.stage == Subscribed ==>
          ch'.stage == Subscribed && ch'.from == ch.from && (ch'.running <==> ch.running && e != ForwardStop(s)))
  }

  lemma SessionStepOnChannel(h: Hub, e: Event, s: SessionId)
    requires Enabled(h, e) && s < |h.channels|
    requires !IsSampleStep(e) && !IsAutoStep(e) && !e.Post? && !e.Publish?
    ensures |h.channels| <= |Apply(h, e).channels| && Onwards(h.channels[s], Apply(h, e).channels[s], e, s)
  {
  }

  lemma StepOnChannel(h: Hub, e: Event, s: SessionId)
    requires Enabled(h, e) && s < |h.channels|
    ensures |h.channels| <= |Apply(h, e).channels| && Onwards(h.channels[s], Apply(h, e).channels[s], e, s)
  {
    if !IsSampleStep(e) && !IsAutoStep(e) && !e.Post? && !e.Publish? {
      SessionStepOnChannel(h, e, s);
    }
  }

  lemma OneMoreStep(run: seq<Event>, e: Event)
    requires After(run).Some? && Enabled(After(run).value, e)
    ensures After(run + [e]) == Some(Apply(After(run).value, e))
  {
    assert (run + [e])[..|run|] == run;
  }

  lemma TwoMoreSteps(run: seq<Event>, a: Event, b: Event)
    requires After(run).Some? && Enabled(After(run).value, a) && Enabled(Apply(After(run).value, a), b)
    ensures After(run + [a, b]) == Some(Apply(Apply(After(run).value, a), b))
  {
    OneMoreStep(run, a);
    OneMoreStep(run + [a], b);
    assert run + [a] + [b] == run + [a, b];
  }

  lemma ThreeMoreSteps(run: seq<Event>, a: Event, b: Event, c: Event)
    requires After(run).Some? && Enabled(After(run).value, a) && Enabled(Apply(After(run).value, a), b)
    requires Enabled(Apply(Apply(After(run).value, a), b), c)
    ensures After(run + [a, b, c]) == Some(Apply(Apply(Apply(After(run).value, a), b), c))
  {
    TwoMoreSteps(run, a, b);
    OneMoreStep(run + [a, b], c);
    assert run + [a, b] + [c] == run + [a, b, c];
  }

  /** A session just opened, its channel holding the endpoint event only. */
  function FirstChannel(stage: Stage, running: bool): Channel {
    Channel([Endpoint(0)], 0, true, stage, 0, 0, false, running)
  }

  /** The server once its first client has connected. */
  function ConnectedHub(): Hub {
    INITIAL.(tables := Tables(1, map[], {0}, Some(0)), channels := [FirstChannel(Subscribed, true)])
  }

  const CONNECT: seq<Event> := [Open, MakePrimary(0), Subscribe(0)]

  lemma Connects()
    ensures After(CONNECT) == Some(ConnectedHub())
  {
    var registered := INITIAL.(tables := Tables(1, map[], {0}, None), channels := [FirstChannel(Registered, false)]);
    var primary := registered.(tables := Tables(1, map[], {0}, Some(0)), channels := [FirstChannel(Primary, false)]);
    assert Apply(INITIAL, Open) == registered;
    assert Apply(registered, MakePrimary(0)) == primary;
    assert Apply(primary, Subscribe(0)) == ConnectedHub();
    ThreeMoreSteps([], Open, MakePrimary(0), Subscribe(0));
    assert [] + CONNECT == CONNECT;
  }
}
