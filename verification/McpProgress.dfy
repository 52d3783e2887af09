/**
 When a call can go on, over every run of the server: always, unless it waits for room on a full stream,
 and then exactly when its client reads or goes. So from every reachable state the calls can finish and the
 table can empty, but a client that holds its stream open without reading blocks a call for good.
 */
module McpProgress {
  import opened Wrappers
  import opened McpState
  import opened McpProtocol
  import opened McpCorrelation

  /** The session has been the primary one. */
  predicate Announced(h: Hub, s: SessionId) {
    s < |h.channels| && h.channels[s].stage != Registered
  }

  /** Every table names sessions that exist, and no channel holds more than it has room for. */
  predicate InRange(h: Hub) {
    && (forall s <- h.tables.sessions :: s < |h.channels|)
    && (h.tables.primary.Some? ==> Announced(h, h.tables.primary.value))
    && (forall c <- h.calls :: !c.phase.Done? ==> Announced(h, c.session) && (c.phase.Chosen? || c.id.Some?))
    && (forall r <- h.requests :: r.session < |h.channels|)
    && (forall ch <- h.channels :: ch.taken <= |ch.events| <= ch.taken + 64)
  }

  lemma EnqueuedInRange(h: Hub, s: SessionId, e: SseEvent)
    requires InRange(h) && s < |h.channels| && HasRoom(h.channels[s])
    ensures InRange(Enqueued(h, s, e))
  {
    assert h.channels[s] in h.channels;
  }

  /** A call in range replaced by another in range. */
  lemma CallInRange(h: Hub, t: Tables, c: CallId, call: Call)
    requires InRange(h) && c < |h.calls| && t.sessions == h.tables.sessions && t.primary == h.tables.primary
    requires !call.phase.Done? ==> Announced(h, call.session) && (call.phase.Chosen? || call.id.Some?)
    ensures InRange(h.(tables := t, calls := h.calls[c := call]))
  {
  }

  lemma SampleKeepsRange(h: Hub, e: Event)
    requires InRange(h) && Enabled(h, e) && IsSampleStep(e)
    ensures InRange(Apply(h, e))
  {
    var h' := Apply(h, e);
    if !e.Choose? {
      CallInRange(h, h'.tables, e.c, h'.calls[e.c]);
      if e.SendOk? {
        EnqueuedInRange(WithPhase(h, e.c, Waiting), h.calls[e.c].session, Sampling(h.calls[e.c].id.value, e.c));
      }
    }
  }

  lemma PostKeepsRange(h: Hub, s: SessionId, body: Json)
    requires InRange(h)
    ensures InRange(ApplyPost(h, s, body))
  {
    var woken := Woken(h.tables, s, body);
    if woken.Some? && woken.value < |h.calls| {
      assert h.calls[woken.value] in h.calls;
    }
  }

  /** A channel further on. */
  lemma ChannelInRange(h: Hub, s: SessionId, ch: Channel)
    requires InRange(h) && s < |h.channels| && ch.taken <= |ch.events| <= ch.taken + CHANNEL_CAPACITY
    requires h.channels[s].stage != Registered ==> ch.stage != Registered
    ensures InRange(WithChannel(h, s, ch))
  {
  }

  lemma RequestInRange(h: Hub, r: nat, q: Request)
    requires InRange(h) && r < |h.requests| && q.session == h.requests[r].session
    ensures InRange(h.(requests := h.requests[r := q])) && q.session < |h.channels|
  {
    assert h.requests[r] in h.requests;
  }

  lemma OpenInRange(h: Hub)
    requires InRange(h)
    ensures InRange(Apply(h, Open))
  {
  }

  lemma SessionKeepsRange(h: Hub, e: Event)
    requires InRange(h) && Enabled(h, e) && !IsSampleStep(e) && !IsAutoStep(e) && !e.Post? && !e.Publish?
    ensures InRange(Apply(h, e))
  {
    if e.Open? {
      OpenInRange(h);
    } else if e.Respond? || e.Abandon? {
      var q := h.requests[e.r].(finished := true);
      RequestInRange(h, e.r, q);
      if e.Respond? {
        EnqueuedInRange(h.(requests := h.requests[e.r := q]), q.session, Response(q.id, e.r));
      }
    } else {
      assert h.channels[e.s] in h.channels;
      ChannelInRange(h, e.s, Apply(h, e).channels[e.s]);
    }
  }

  lemma {:induction false} RunKeepsRange(run: seq<Event>)
    requires After(run).Some?
    ensures InRange(After(run).value)
  {
    if run != [] {
      var before, e := run[..|run| - 1], run[|run| - 1];
      RunKeepsRange(before);
      var h := After(before).value;
      if IsSampleStep(e) {
        SampleKeepsRange(h, e);
      } else if e.Post? {
        PostKeepsRange(h, e.s, e.body);
      } else if !IsAutoStep(e) && !e.Publish? {
        SessionKeepsRange(h, e);
      }
    }
  }

  /** How many steps of its own a call is from its end, at most. */
  function StepsLeft(phase: Phase): nat {
    match phase
    case Chosen => 5
    case Minted => 4
    case Inserted => 3
    case Waiting => 2
    case SendFailed => 1
    case TimedOut => 1
    case Done(_) => 0
  }

  /** The send of call `c` is waiting for room. */
  predicate Blocked(h: Hub, c: CallId) {
    && c < |h.calls| && h.calls[c].phase.Inserted? && h.calls[c].session < |h.channels|
    && h.channels[h.calls[c].session].open && !HasRoom(h.channels[h.calls[c].session])
  }

  predicate IsStepOf(e: Event, c: CallId) {
    IsSampleStep(e) && !e.Choose? && e.c == c
  }

  /** The next step of call `c` itself. */
  function OwnStep(h: Hub, c: CallId): Event
    requires c < |h.calls| && !h.calls[c].phase.Done? && h.calls[c].session < |h.channels|
  {
    match h.calls[c].phase
    case Chosen => Mint(c)
    case Minted => Insert(c)
    case Inserted => if h.channels[h.calls[c].session].open then SendOk(c) else SendErr(c)
    case SendFailed => Cleanup(c)
    case Waiting => if h.calls[c].slot.Some? then Receive(c) else Timeout(c)
    case TimedOut => Expire(c)
  }

  /** A step towards the end of call `c`: one of its own, or what makes room for it. */
  function NextStep(h: Hub, c: CallId): Event
    requires c < |h.calls| && !h.calls[c].phase.Done? && h.calls[c].session < |h.channels|
  {
    var s := h.calls[c].session;
    if !Blocked(h, c) then OwnStep(h, c)
    else if h.channels[s].stage == Subscribed then ClientTake(s) else Subscribe(s)
  }

  /** The steps it may take to make room for call `c`. */
  function RoomSteps(h: Hub, c: CallId): nat
    requires c < |h.calls|
  {
    var call := h.calls[c];
    if !Blocked(h, c) && !call.phase.Chosen? && !call.phase.Minted? then 0
    else if call.session < |h.channels| && h.channels[call.session].stage == Subscribed then 1
    else 2
  }

  /** The distance of call `c` from its end. */
  function Distance(h: Hub, c: CallId): (d: nat)
    requires c < |h.calls|
    ensures d <= 7
  {
    StepsLeft(h.calls[c].phase) + RoomSteps(h, c)
  }

  lemma OwnStepAdvances(h: Hub, c: CallId)
    requires InRange(h) && c < |h.calls| && !h.calls[c].phase.Done? && !Blocked(h, c)
    ensures h.calls[c].session < |h.channels|
    ensures var e := OwnStep(h, c);
            && Enabled(h, e) && |Apply(h, e).calls| == |h.calls|
            && StepsLeft(Apply(h, e).calls[c].phase) < StepsLeft(h.calls[c].phase)
            && RoomSteps(Apply(h, e), c) <= RoomSteps(h, c)
  {
    assert h.calls[c] in h.calls;
  }

  lemma RoomStepAdvances(h: Hub, c: CallId)
    requires InRange(h) && Blocked(h, c)
    ensures var e := NextStep(h, c);
            && Enabled(h, e) && Apply(h, e).calls == h.calls
            && RoomSteps(Apply(h, e), c) < RoomSteps(h, c)
  {
    assert h.calls[c] in h.calls;
    assert h.channels[h.calls[c].session] in h.channels;
  }

  lemma NextStepAdvances(h: Hub, c: CallId)
    requires InRange(h) && c < |h.calls| && !h.calls[c].phase.Done?
    ensures h.calls[c].session < |h.channels|
    ensures var e := NextStep(h, c);
            && Enabled(h, e) && |Apply(h, e).calls| == |h.calls|
            && Distance(Apply(h, e), c) < Distance(h, c)
  {
    if Blocked(h, c) {
      RoomStepAdvances(h, c);
    } else {
      OwnStepAdvances(h, c);
    }
  }

  // ---------------------------------------------------------------- blocked calls

  /** An unfinished call has a step of its own to take exactly if it is not blocked. */
  lemma BlockedExactly(run: seq<Event>, h: Hub, c: CallId)
    requires After(run) == Some(h) && c < |h.calls| && !h.calls[c].phase.Done?
    ensures (exists e :: IsStepOf(e, c) && Enabled(h, e)) <==> !Blocked(h, c)
  {
    if !Blocked(h, c) {
      RunKeepsRange(run);
      OwnStepAdvances(h, c);
      assert IsStepOf(OwnStep(h, c), c);
    }
  }

  /** What unblocks it: its client reads, or goes. */
  predicate MakesRoom(e: Event, s: SessionId) {
    e == ClientTake(s) || e == Disconnect(s)
  }

  lemma BlockedCallStays(h: Hub, e: Event, c: CallId)
    requires Blocked(h, c) && Enabled(h, e)
    ensures c < |Apply(h, e).calls|
    ensures Apply(h, e).calls[c].phase == Inserted && Apply(h, e).calls[c].session == h.calls[c].session
  {
    if IsSampleStep(e) {
      OthersStep(h, e, c);
    }
  }

  lemma OthersStep(h: Hub, e: Event, c: CallId)
    requires Blocked(h, c) && Enabled(h, e) && IsSampleStep(e)
    ensures c < |Apply(h, e).calls| && Apply(h, e).calls[c] == h.calls[c]
  {
  }

  lemma RoomUnblocks(h: Hub, e: Event, c: CallId)
    requires InRange(h) && Blocked(h, c) && Enabled(h, e) && MakesRoom(e, h.calls[c].session)
    ensures !Blocked(Apply(h, e), c)
  {
    assert h.channels[h.calls[c].session] in h.channels;
  }

  lemma UnblocksExactly(h: Hub, e: Event, c: CallId)
    requires InRange(h) && Blocked(h, c) && Enabled(h, e)
    ensures Blocked(Apply(h, e), c) <==> !MakesRoom(e, h.calls[c].session)
    ensures c < |Apply(h, e).calls| && Apply(h, e).calls[c].session == h.calls[c].session
  {
    BlockedCallStays(h, e, c);
    if MakesRoom(e, h.calls[c].session) {
      RoomUnblocks(h, e, c);
    } else {
      StepOnChannel(h, e, h.calls[c].session);
    }
  }

  /**
   A call stays blocked for as long as its client neither reads nor goes: no timeout bounds the send. Its
   waiter stays in the table, unless a reply is POSTed to the request that was never sent.
   */
  lemma {:induction false} StaysBlocked(run: seq<Event>, h: Hub, longer: seq<Event>, h': Hub, c: CallId)
    requires After(run) == Some(h) && Blocked(h, c) && run <= longer && After(longer) == Some(h')
    requires forall i :: |run| <= i < |longer| ==> !MakesRoom(longer[i], h.calls[c].session)
    ensures Blocked(h', c) && h'.calls[c].session == h.calls[c].session
    ensures h'.calls[c].slot.None? ==> h'.calls[c].id.Some? && h'.calls[c].id.value in h'.tables.pending
    decreases |longer|
  {
    if |longer| > |run| {
      var before := longer[..|longer| - 1];
      StaysBlocked(run, h, before, After(before).value, c);
      RunKeepsRange(before);
      UnblocksExactly(After(before).value, longer[|longer| - 1], c);
    } else {
      assert longer == run;
    }
    if h'.calls[c].slot.None? {
      BlockedIsHeld(longer, h', c);
    }
  }

  lemma BlockedIsHeld(run: seq<Event>, h: Hub, c: CallId)
    requires After(run) == Some(h) && Blocked(h, c) && h.calls[c].slot.None?
    ensures h.calls[c].id.Some? && h.calls[c].id.value in h.tables.pending
  {
    RunKeeps(run);
    RunKeepsRange(run);
    assert h.calls[c] in h.calls;
    assert Holding(h.calls[c]);
  }

  // ---------------------------------------------------------------- every call can finish

  lemma OneStepCloser(run: seq<Event>, h: Hub, c: CallId) returns (e: Event, h': Hub)
    requires After(run) == Some(h) && c < |h.calls| && !h.calls[c].phase.Done?
    ensures After(run + [e]) == Some(h') && |h'.calls| == |h.calls| && Distance(h', c) < Distance(h, c)
  {
    RunKeepsRange(run);
    NextStepAdvances(h, c);
    e := NextStep(h, c);
    h' := Apply(h, e);
    OneMoreStep(run, e);
  }

  /** From every reachable state every call can finish, within seven steps and without another call beginning. */
  lemma {:induction false} CanFinish(run: seq<Event>, h: Hub, c: CallId) returns (longer: seq<Event>, h': Hub)
    requires After(run) == Some(h) && c < |h.calls|
    ensures run <= longer && After(longer) == Some(h')
    ensures |h'.calls| == |h.calls| && h'.calls[c].phase.Done?
    ensures |longer| <= |run| + Distance(h, c) <= |run| + 7
    decreases Distance(h, c)
  {
    if h.calls[c].phase.Done? {
      longer, h' := run, h;
    } else {
      var e, next := OneStepCloser(run, h, c);
      longer, h' := CanFinish(run + [e], next, c);
    }
  }

  predicate FirstDone(h: Hub, n: nat) {
    n <= |h.calls| && forall i :: 0 <= i < n ==> h.calls[i].phase.Done?
  }

  lemma StayDone(run: seq<Event>, longer: seq<Event>, h: Hub, h': Hub, n: nat)
    requires run <= longer && After(run) == Some(h) && After(longer) == Some(h') && FirstDone(h, n)
    ensures FirstDone(h', n)
  {
    var more := longer[|run|..];
    assert run + more == longer;
    RunIsLater(run, more);
    assert forall i :: 0 <= i < n ==> Later(h.calls[i], h'.calls[i]);
  }

  lemma OneMoreDone(run: seq<Event>, h: Hub, n: nat) returns (longer: seq<Event>, h': Hub)
    requires After(run) == Some(h) && FirstDone(h, n) && n < |h.calls|
    ensures run <= longer && After(longer) == Some(h') && |h'.calls| == |h.calls| && FirstDone(h', n + 1)
  {
    longer, h' := CanFinish(run, h, n);
    StayDone(run, longer, h, h', n);
  }

  /** One call after the other, all can finish. */
  lemma {:induction false} AllCanFinish(run: seq<Event>, h: Hub, n: nat) returns (longer: seq<Event>, h': Hub)
    requires After(run) == Some(h) && FirstDone(h, n)
    ensures run <= longer && After(longer) == Some(h') && |h'.calls| == |h.calls| && FirstDone(h', |h.calls|)
    decreases |h.calls| - n
  {
    if n == |h.calls| {
      longer, h' := run, h;
    } else {
      var middle, next := OneMoreDone(run, h, n);
      longer, h' := AllCanFinish(middle, next, n + 1);
    }
  }

  /** From every reachable state the run can go on to one in which no waiter is left. */
  lemma TableCanEmpty(run: seq<Event>, h: Hub) returns (longer: seq<Event>, h': Hub)
    requires After(run) == Some(h)
    ensures run <= longer && After(longer) == Some(h') && |h'.calls| == |h.calls| && h'.tables.pending == map[]
  {
    longer, h' := AllCanFinish(run, h, 0);
    NoLeak(longer, h');
  }

  // ---------------------------------------------------------------- a whole exchange

  /** A client connects, is asked for a sample, and replies to request 1 with `body`. */
  function Conversation(prompt: string, body: Json): seq<Event> {
    CONNECT + [Choose(prompt), Mint(0), Insert(0)] + [SendOk(0), Post(0, body), Receive(0)]
  }

  /** And is asked. */
  lemma IsAsked(run: seq<Event>, h: Hub, prompt: string) returns (h': Hub)
    requires After(run) == Some(h) && h.tables == Tables(1, map[], {0}, Some(0)) && h.calls == []
    requires |h.channels| == 1
    ensures After(run + [Choose(prompt), Mint(0), Insert(0)]) == Some(h')
    ensures h'.tables == Tables(2, map[1 := 0], {0}, Some(0)) && h'.channels == h.channels && h'.posts == h.posts
    ensures h'.calls == [Call(prompt, 0, Inserted, Some(1), None)]
  {
    ThreeMoreSteps(run, Choose(prompt), Mint(0), Insert(0));
    h' := Apply(Apply(Apply(h, Choose(prompt)), Mint(0)), Insert(0));
  }

  /** And replies. */
  lemma GetsReply(h: Hub, prompt: string, body: Json, text: string)
    requires h.tables == Tables(2, map[1 := 0], {0}, Some(0)) && h.calls == [Call(prompt, 0, Inserted, Some(1), None)]
    requires |h.channels| == 1 && HasRoom(h.channels[0]) && h.posts == []
    requires Get(body, "method") == None && Get(body, "id") == Some(Int(1)) && SampleResult(body) == Ok(text)
    ensures Enabled(h, SendOk(0))
    ensures var sent := Apply(h, SendOk(0)); var posted := Apply(sent, Post(0, body));
            && Enabled(sent, Post(0, body)) && Enabled(posted, Receive(0))
            && var done := Apply(posted, Receive(0));
               && done.calls == [Call(prompt, 0, Done(Ok(text)), Some(1), Some(Reply(0, body)))]
               && done.tables.pending == map[]
  {
    var sent := Apply(h, SendOk(0));
    assert sent.calls == [Call(prompt, 0, Waiting, Some(1), None)];
    assert Woken(h.tables, 0, body) == Some(0);
    var posted := Apply(sent, Post(0, body));
    assert posted.calls == [Call(prompt, 0, Waiting, Some(1), Some(Reply(0, body)))];
    assert posted.tables.pending == map[];
  }

  /** A call does return its reply: this run is one of the machine's, and ends in `Ok`. */
  lemma SomeCallIsAnswered(prompt: string, body: Json, text: string)
    requires Get(body, "method") == None && Get(body, "id") == Some(Int(1))
    requires SampleResult(body) == Ok(text)
    ensures After(Conversation(prompt, body)).Some?
    ensures var h := After(Conversation(prompt, body)).value;
            h.calls == [Call(prompt, 0, Done(Ok(text)), Some(1), Some(Reply(0, body)))] && h.tables.pending == map[]
  {
    Connects();
    var asked := IsAsked(CONNECT, ConnectedHub(), prompt);
    GetsReply(asked, prompt, body, text);
    ThreeMoreSteps(CONNECT + [Choose(prompt), Mint(0), Insert(0)], SendOk(0), Post(0, body), Receive(0));
  }

  // ---------------------------------------------------------------- a blocked call

  /** A request that is answered with another event on the stream. */
  const PING: Json := Obj(map["method" := Str("ping")])

  /** Its only client has `n` events on its stream and has read none of them; nothing has been sampled. */
  predicate Unread(h: Hub, n: nat) {
    && h.tables == ConnectedHub().tables && h.calls == []
    && |h.channels| == 1 && |h.requests| == n - 1
    && h.channels[0].open && h.channels[0].taken == 0 && |h.channels[0].events| == n
  }

  lemma PingAnswered(h: Hub, n: nat)
    requires Unread(h, n) && 1 <= n < CHANNEL_CAPACITY
    ensures Enabled(h, Post(0, PING)) && Enabled(Apply(h, Post(0, PING)), Respond(n - 1))
    ensures Unread(Apply(Apply(h, Post(0, PING)), Respond(n - 1)), n + 1)
  {
    assert Route(h.tables, 0, PING) == ClientRequest(Null);
  }

  lemma {:induction false} Fills(n: nat) returns (run: seq<Event>, h: Hub)
    requires 1 <= n <= CHANNEL_CAPACITY
    ensures After(run) == Some(h) && Unread(h, n)
  {
    if n == 1 {
      Connects();
      run, h := CONNECT, ConnectedHub();
    } else {
      var before, full := Fills(n - 1);
      PingAnswered(full, n - 1);
      TwoMoreSteps(before, Post(0, PING), Respond(n - 2));
      run, h := before + [Post(0, PING), Respond(n - 2)], Apply(Apply(full, Post(0, PING)), Respond(n - 2));
    }
  }

  /** A client that reads nothing while its requests are answered does block a call. */
  lemma SomeCallIsBlocked(prompt: string) returns (run: seq<Event>, h: Hub)
    ensures After(run) == Some(h) && Blocked(h, 0) && h.calls[0].prompt == prompt && 1 in h.tables.pending
  {
    var before, full := Fills(CHANNEL_CAPACITY);
    h := IsAsked(before, full, prompt);
    run := before + [Choose(prompt), Mint(0), Insert(0)];
  }
}
