/**
 The state shared by the MCP server's tasks, and what each task does to it between two awaits: the
 event recorder, the history tool, and the tables that route sessions and replies.
 */
module McpState {
  import opened Bytes
  import opened Wrappers

  // ---------------------------------------------------------------- JSON bodies

  datatype Json =
    | Null
    | Bool(b: bool)
    | Int(i: int)
    | Real(r: real)
    | Str(s: string)
    | Arr(items: seq<Json>)
    | Obj(fields: map<string, Json>)

  /** `value.get(key)`. */
  function Get(j: Json, key: string): Option<Json> {
    if j.Obj? && key in j.fields then Some(j.fields[key]) else None
  }

  /** `value.as_i64()`. */
  function AsI64(j: Json): Option<int> {
    if j.Int? && -0x8000_0000_0000_0000 <= j.i < 0x8000_0000_0000_0000 then Some(j.i) else None
  }

  /** `value.as_u64()`. */
  function AsU64(j: Json): Option<nat> {
    if j.Int? && 0 <= j.i < 0x1_0000_0000_0000_0000 then Some(j.i) else None
  }

  // ---------------------------------------------------------------- events

  datatype PeerStatus = Disconnected | Initiator | Responder | Connected | Other(code: nat)

  datatype BackendEvent =
    | ChatReceived(text: string)
    | ChatPushed(text: string)
    | EchoHandled(request: string, response: string, ms: nat)
    | StatusChanged(state: PeerStatus, btConnected: bool, peerKnown: bool)
    | BenchmarkCompleted(bytes: nat)
    | DownloadCompleted(bytes: nat)

  datatype ChatDirection = DeviceToBackend | BackendToDevice
  datatype ChatEntry = ChatEntry(direction: ChatDirection, text: string)

  datatype StatusSnapshot = StatusSnapshot(peerStatus: Option<PeerStatus>, btConnected: bool, peerKnown: bool)

  const NO_STATUS: StatusSnapshot := StatusSnapshot(None, false, false)

  const CHAT_HISTORY_LIMIT: nat := 512

  /** The chat events among `events`, as history entries. */
  function Chats(events: seq<BackendEvent>): seq<ChatEntry> {
    if events == [] then []
    else
      var before := Chats(events[..|events| - 1]);
      match events[|events| - 1]
      case ChatReceived(text) => before + [ChatEntry(DeviceToBackend, text)]
      case ChatPushed(text) => before + [ChatEntry(BackendToDevice, text)]
      case _ => before
  }

  function LastStatus(events: seq<BackendEvent>): StatusSnapshot {
    if events == [] then NO_STATUS
    else
      match events[|events| - 1]
      case StatusChanged(state, bt, known) => StatusSnapshot(Some(state), bt, known)
      case _ => LastStatus(events[..|events| - 1])
  }

  /** The last `n` elements, or all of them. */
  function Last<T>(n: nat, s: seq<T>): seq<T> {
    if |s| > n then s[|s| - n..] else s
  }

  /** The event `handle_peer_status` publishes. */
  function PeerStatusEvent(peerKnown: bool, status: PeerStatus): BackendEvent {
    StatusChanged(status, status == Connected || status == Initiator, peerKnown)
  }

  /** Snapshots never call a link connected whose status is neither Connected nor Initiator. */
  lemma {:induction false} SnapshotIsCoherent(events: seq<BackendEvent>)
    requires forall e <- events :: e.StatusChanged? ==> exists known, status :: e == PeerStatusEvent(known, status)
    ensures var s := LastStatus(events);
            s.btConnected <==> s.peerStatus == Some(Connected) || s.peerStatus == Some(Initiator)
  {
    if events != [] {
      var last := events[|events| - 1];
      if last.StatusChanged? {
        assert last in events;
      } else {
        SnapshotIsCoherent(events[..|events| - 1]);
      }
    }
  }

  lemma {:induction false} ChatsAppend(a: seq<BackendEvent>, b: seq<BackendEvent>)
    ensures Chats(a + b) == Chats(a) + Chats(b)
    decreases |b|
  {
    if b == [] {
      assert a + b == a && Chats(a) + [] == Chats(a);
    } else {
      var before, last := b[..|b| - 1], b[|b| - 1];
      assert (a + b)[..|a + b| - 1] == a + before && (a + b)[|a + b| - 1] == last;
      ChatsAppend(a, before);
    }
  }

  /** What the history records of one event: its text and which way it went, or nothing. */
  lemma ChatsOfOne(e: BackendEvent)
    ensures e.ChatReceived? ==> Chats([e]) == [ChatEntry(DeviceToBackend, e.text)]
    ensures e.ChatPushed? ==> Chats([e]) == [ChatEntry(BackendToDevice, e.text)]
    ensures !e.ChatReceived? && !e.ChatPushed? ==> Chats([e]) == []
  {
    assert [e][..0] == [];
  }

  /** The snapshot is the last status event, whole. */
  lemma {:induction false} StatusStays(before: seq<BackendEvent>, e: BackendEvent, after: seq<BackendEvent>)
    requires e.StatusChanged? && forall x <- after :: !x.StatusChanged?
    ensures LastStatus(before + [e] + after) == StatusSnapshot(Some(e.state), e.btConnected, e.peerKnown)
    decreases |after|
  {
    var events := before + [e] + after;
    if after == [] {
      assert events == before + [e];
    } else {
      assert after[|after| - 1] in after && events[..|events| - 1] == before + [e] + after[..|after| - 1];
      assert forall x <- after[..|after| - 1] :: x in after;
      StatusStays(before, e, after[..|after| - 1]);
    }
  }

  /** Until there is one it says so. */
  lemma {:induction false} NoStatusYet(events: seq<BackendEvent>)
    requires forall x <- events :: !x.StatusChanged?
    ensures LastStatus(events) == StatusSnapshot(None, false, false)
  {
    if events != [] {
      var before := events[..|events| - 1];
      assert events[|events| - 1] in events && forall x <- before :: x in events;
      NoStatusYet(before);
    }
  }

  /** The last `n` elements are the end of the sequence, and as many as there are up to `n`. */
  lemma LastExactly<T>(n: nat, s: seq<T>)
    ensures exists front :: s == front + Last(n, s)
    ensures |Last(n, s)| == if |s| < n then |s| else n
  {
    assert s == s[..|s| - |Last(n, s)|] + Last(n, s);
  }

  lemma LastOfMore<T>(n: nat, s: seq<T>, x: T)
    requires n > 0
    ensures Last(n, Last(n, s) + [x]) == Last(n, s + [x])
  {
  }

  lemma LastOfLast<T>(m: nat, n: nat, s: seq<T>)
    ensures Last(m, Last(n, s)) == Last(Min(m, n), s)
  {
  }

  // ---------------------------------------------------------------- the shared tables

  /** A `sample` call, an SSE session. */
  type CallId = nat
  type SessionId = nat

  datatype Tables = Tables(
    nextId: nat,
    pending: map<int, CallId>,
    sessions: set<SessionId>,
    primary: Option<SessionId>)

  const NO_TABLES: Tables := Tables(1, map[], {}, None)

  function WithMinted(t: Tables): Tables {
    t.(nextId := t.nextId + 1)
  }

  function WithWaiter(t: Tables, id: int, call: CallId): Tables {
    t.(pending := t.pending[id := call])
  }

  function WithoutWaiter(t: Tables, id: int): Tables {
    t.(pending := t.pending - {id})
  }

  function WithSession(t: Tables, session: SessionId): Tables {
    t.(sessions := t.sessions + {session})
  }

  function WithPrimary(t: Tables, session: SessionId): Tables {
    t.(primary := Some(session))
  }

  /** What `messages_handler` makes of a POST. */
  datatype Routed =
    | UnknownSession
    | Malformed
    | ClientRequest(id: Json)
    | ClientReply(number: int)
    | Neither

  /** A body with a `method` is a request, and must name it by a string; any other with an id is a reply. */
  function Route(t: Tables, session: SessionId, body: Json): Routed {
    if session !in t.sessions then UnknownSession
    else
      match Get(body, "method")
      case Some(m) =>
        if !m.Str? then Malformed
        else ClientRequest(match Get(body, "id") case None => Null case Some(id) => id)
      case None =>
        match Get(body, "id")
        case None => Neither
        case Some(id) => match AsI64(id) case None => Neither case Some(i) => ClientReply(i)
  }

  /** The waiter a POST wakes. */
  function Woken(t: Tables, session: SessionId, body: Json): Option<CallId> {
    match Route(t, session, body)
    case ClientReply(id) => if id in t.pending then Some(t.pending[id]) else None
    case _ => None
  }

  function AfterPost(t: Tables, session: SessionId, body: Json): Tables {
    match Route(t, session, body)
    case ClientReply(id) => WithoutWaiter(t, id)
    case _ => t
  }

  class McpState {
    var history: seq<ChatEntry>
    var status: StatusSnapshot
    var sessions: set<SessionId>
    var primarySession: Option<SessionId>
    var nextRequestId: nat
    var pending: map<int, CallId>

    /** The tables as one value. */
    function View(): Tables
      reads this
    {
      Tables(nextRequestId, pending, sessions, primarySession)
    }

    /** The state agrees with the events the recorder has consumed. */
    predicate Recorded(events: seq<BackendEvent>)
      reads this
    {
      history == Last(512, Chats(events)) && status == LastStatus(events)
    }

    constructor ()
      ensures View() == NO_TABLES && Recorded([])
    {
      history, status := [], NO_STATUS;
      sessions, primarySession, nextRequestId, pending := {}, None, 1, map[];
    }

    method RecordChat(entry: ChatEntry)
      modifies this`history
      ensures |old(history)| <= CHAT_HISTORY_LIMIT ==> history == Last(CHAT_HISTORY_LIMIT, old(history) + [entry])
      ensures |history| <= CHAT_HISTORY_LIMIT
    {
      history := history + [entry];
      var len := |history|;
      if len > CHAT_HISTORY_LIMIT {
        history := history[len - CHAT_HISTORY_LIMIT..];
      }
    }

    /** One turn of the recorder. */
    method Record(event: BackendEvent, ghost seen: seq<BackendEvent>)
      requires Recorded(seen)
      modifies this`history, this`status
      ensures Recorded(seen + [event])
    {
      assert (seen + [event])[..|seen|] == seen;
      match event
      case ChatReceived(text) =>
        LastOfMore(CHAT_HISTORY_LIMIT, Chats(seen), ChatEntry(DeviceToBackend, text));
        RecordChat(ChatEntry(DeviceToBackend, text));
      case ChatPushed(text) =>
        LastOfMore(CHAT_HISTORY_LIMIT, Chats(seen), ChatEntry(BackendToDevice, text));
        RecordChat(ChatEntry(BackendToDevice, text));
      case StatusChanged(state, bt, known) =>
        status := StatusSnapshot(Some(state), bt, known);
      case _ =>
    }

    /** The recorder's loop: afterwards the state agrees with everything consumed, before and now. */
    method RunRecorder(events: seq<BackendEvent>, ghost before: seq<BackendEvent>)
      requires Recorded(before)
      modifies this`history, this`status
      ensures Recorded(before + events)
    {
      assert before + [] == before;
      for i := 0 to |events|
        invariant Recorded(before + events[..i])
      {
        assert before + events[..i + 1] == before + events[..i] + [events[i]];
        Record(events[i], before + events[..i]);
      }
      assert events[..|events|] == events;
    }

    /** `chat_history(limit)`: the last entries of the whole conversation, not just of what is kept. */
    method ChatHistory(args: Json, ghost events: seq<BackendEvent>) returns (entries: seq<ChatEntry>)
      requires Recorded(events)
      ensures var limit := match Get(args, "limit") case None => None case Some(v) => AsU64(v);
              entries == Last(Min(if limit.Some? then limit.value else 50, CHAT_HISTORY_LIMIT), Chats(events))
    {
      var requested := match Get(args, "limit") case None => None case Some(v) => AsU64(v);
      var limit := Min(if requested.Some? then requested.value else 50, 512);
      LastOfLast(limit, CHAT_HISTORY_LIMIT, Chats(events));
      var n := |history|;
      entries := if n > limit then history[n - limit..] else history;
    }

    /** `next_request_id.fetch_add(1)`. */
    method MintId() returns (id: nat)
      modifies this`nextRequestId
      ensures id == old(nextRequestId) && View() == WithMinted(old(View()))
    {
      id := nextRequestId;
      nextRequestId := nextRequestId + 1;
    }

    method InsertWaiter(id: int, call: CallId)
      modifies this`pending
      ensures View() == WithWaiter(old(View()), id, call)
    {
      pending := pending[id := call];
    }

    method RemoveWaiter(id: int) returns (waiter: Option<CallId>)
      modifies this`pending
      ensures waiter == if id in old(pending) then Some(old(pending)[id]) else None
      ensures View() == WithoutWaiter(old(View()), id)
    {
      waiter := if id in pending then Some(pending[id]) else None;
      pending := pending - {id};
    }

    /** The registration half of `sse_handler` takes two locks: first the session table, then the primary. */
    method InsertSession(session: SessionId)
      modifies this`sessions
      ensures View() == WithSession(old(View()), session)
    {
      sessions := sessions + {session};
    }

    method SetPrimary(session: SessionId)
      modifies this`primarySession
      ensures View() == WithPrimary(old(View()), session)
    {
      primarySession := Some(session);
    }

    /** `messages_handler`, up to the dispatch of a request. */
    method HandlePost(session: SessionId, body: Json) returns (routed: Routed, woken: Option<CallId>)
      modifies this`pending
      ensures routed == Route(old(View()), session, body) && woken == Woken(old(View()), session, body)
      ensures View() == AfterPost(old(View()), session, body)
    {
      woken := None;
      if session !in sessions {
        return UnknownSession, None;
      }
      var m := Get(body, "method");
      var id := Get(body, "id");
      if m.Some? {
        if !m.value.Str? {
          return Malformed, None;
        }
        return ClientRequest(if id.Some? then id.value else Null), None;
      }
      if id.Some? && AsI64(id.value).Some? {
        routed := ClientReply(AsI64(id.value).value);
        woken := RemoveWaiter(AsI64(id.value).value);
      } else {
        routed := Neither;
      }
    }
  }
}
