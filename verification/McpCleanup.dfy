/**
 What becomes of a session whose client has gone. The handler means to remove its entry when the stream
 ends, but the code that would never runs: the entry stays, and replies POSTed to it still count.
 */
module McpCleanup {
  import opened Wrappers
  import opened McpState
  import opened McpProtocol
  import opened McpCorrelation

  /** Every session ever opened is in the table, and is closed if its client has gone. */
  ghost predicate SessionsKept(h: Hub, run: seq<Event>) {
    && (forall s: SessionId :: s in h.tables.sessions <==> s < |h.channels|)
    && (forall s: SessionId :: s < |h.channels| ==> (h.channels[s].open <==> Disconnect(s) !in run))
    && (forall s: SessionId :: Disconnect(s) in run ==> s < |h.channels|)
  }

  /** A step adds to the table the session it opens. */
  lemma StepOfTable(h: Hub, e: Event)
    requires Enabled(h, e)
    ensures Apply(h, e).tables.sessions == if e.Open? then h.tables.sessions + {|h.channels|} else h.tables.sessions
  {
  }

  lemma StepOfChannels(h: Hub, e: Event)
    requires Enabled(h, e)
    ensures |Apply(h, e).channels| == if e.Open? then |h.channels| + 1 else |h.channels|
  {
  }

  lemma StepKeepsSessions(h: Hub, before: seq<Event>, e: Event)
    requires SessionsKept(h, before) && Enabled(h, e)
    ensures SessionsKept(Apply(h, e), before + [e])
  {
    StepOfTable(h, e);
    StepOfChannels(h, e);
    forall s: SessionId
      ensures Disconnect(s) in before + [e] <==> Disconnect(s) in before || e == Disconnect(s)
      ensures s < |h.channels| ==> Onwards(h.channels[s], Apply(h, e).channels[s], e, s)
    {
      if s < |h.channels| {
        StepOnChannel(h, e, s);
      }
    }
  }

  lemma {:induction false} RunKeepsSessions(run: seq<Event>)
    requires After(run).Some?
    ensures SessionsKept(After(run).value, run)
  {
    if run != [] {
      var before, e := run[..|run| - 1], run[|run| - 1];
      RunKeepsSessions(before);
      StepKeepsSessions(After(before).value, before, e);
      assert run == before + [e];
    }
  }

  /**
   The table of sessions only grows: it holds every session opened. So the entries of ended streams are
   gone exactly if no stream has ended.
   */
  lemma SessionsOnlyGrow(run: seq<Event>, h: Hub)
    requires After(run) == Some(h)
    ensures forall s: SessionId :: s in h.tables.sessions <==> s < |h.channels|
    ensures forall s: SessionId :: s < |h.channels| ==> (h.channels[s].open <==> Disconnect(s) !in run)
    ensures (forall s: SessionId :: s < |h.channels| && !h.channels[s].open ==> s !in h.tables.sessions)
       <==> (forall e <- run :: !e.Disconnect?)
  {
    RunKeepsSessions(run);
    if e :| e in run && e.Disconnect? {
      assert !h.channels[e.s].open && e.s in h.tables.sessions;
    }
  }

  /** A run in which it is not: the client connects and goes, and its entry stays. */
  lemma ClosedSessionStays()
    ensures After(CONNECT + [Disconnect(0)]).Some?
    ensures var h := After(CONNECT + [Disconnect(0)]).value;
            |h.channels| == 1 && !h.channels[0].open && 0 in h.tables.sessions && h.tables.primary == Some(0)
  {
    Connects();
    OneMoreStep(CONNECT, Disconnect(0));
  }

  /** A POST is turned away only if its session was never opened, whether or not the client has gone since. */
  lemma UnknownExactly(run: seq<Event>, h: Hub, s: SessionId, body: Json)
    requires After(run) == Some(h)
    ensures Route(h.tables, s, body) == UnknownSession <==> s >= |h.channels|
  {
    SessionsOnlyGrow(run, h);
  }

  /** So a reply wakes the call it names from any session ever opened, its own or another, open or closed. */
  lemma WakesFromAnySession(run: seq<Event>, h: Hub, s: SessionId, body: Json, c: CallId)
    requires After(run) == Some(h) && c < |h.calls| && Holding(h.calls[c])
    requires Get(body, "method") == None && ReplyId(body) == Some(h.calls[c].id.value as int)
    ensures Woken(h.tables, s, body) == Some(c) <==> s < |h.channels|
  {
    RunKeeps(run);
    SessionsOnlyGrow(run, h);
  }
}
