/**
 The auto-reply loop, over every run of the server: what it pushes answers what the device sent, once
 each and in order, and never its own pushes.
 */
module McpAutoReply {
  import opened Wrappers
  import opened McpState
  import opened McpProtocol
  import opened McpCorrelation

  /** Event `source` is chat from the device, and call `c` asked the model about its text. */
  predicate Asks(h: Hub, source: nat, c: CallId) {
    && source < |h.log| && h.log[source].ChatReceived?
    && c < |h.calls| && h.calls[c].prompt == h.log[source].text
  }

  /** The push published the model's answer, after the event it answers. */
  predicate Answers(h: Hub, p: Push) {
    && Asks(h, p.source, p.call)
    && p.source < p.at < |h.log| && h.log[p.at].ChatPushed?
    && h.calls[p.call].phase == Done(Ok(h.log[p.at].text))
  }

  predicate InOrder(pushes: seq<Push>) {
    forall i, j :: 0 <= i < j < |pushes| ==> pushes[i].source < pushes[j].source && pushes[i].at < pushes[j].at
  }

  /** Everything before this event has been dealt with. */
  function Cursor(h: Hub): nat {
    match h.auto
    case Off => 0
    case Idle(next) => next
    case Starting(source) => source
    case Calling(source, _) => source
    case Pushing(source, _, _) => source
    case Stopped => |h.log|
  }

  predicate LoopGood(h: Hub) {
    && InOrder(h.pushes)
    && (forall p <- h.pushes :: Answers(h, p) && p.source < Cursor(h))
    && match h.auto
       case Off => h.pushes == []
       case Idle(next) => next <= |h.log|
       case Starting(source) => source < |h.log| && h.log[source].ChatReceived?
       case Calling(source, c) => Asks(h, source, c)
       case Pushing(source, c, reply) => Asks(h, source, c) && h.calls[c].phase == Done(Ok(reply))
       case Stopped => true
  }

  /** The rest of the server only publishes events and moves calls on. */
  predicate Onward(h: Hub, h': Hub) {
    h.log <= h'.log && AllLater(h.calls, h'.calls)
  }

  lemma AsksOnward(h: Hub, h': Hub, source: nat, c: CallId)
    requires Asks(h, source, c) && Onward(h, h')
    ensures Asks(h', source, c)
    ensures h.calls[c].phase.Done? ==> h'.calls[c].phase == h.calls[c].phase
  {
    assert Later(h.calls[c], h'.calls[c]);
  }

  lemma OtherStepKeeps(h: Hub, h': Hub)
    requires LoopGood(h) && Onward(h, h') && h'.auto == h.auto && h'.pushes == h.pushes
    ensures LoopGood(h')
  {
    forall p | p in h.pushes
      ensures Answers(h', p)
    {
      AsksOnward(h, h', p.source, p.call);
    }
    if h.auto.Calling? || h.auto.Pushing? {
      AsksOnward(h, h', h.auto.source, h.auto.call);
    }
  }

  lemma NotAutoStep(h: Hub, e: Event)
    requires HubCorrelated(h) && Enabled(h, e) && !IsAutoStep(e)
    ensures Onward(h, Apply(h, e)) && Apply(h, e).auto == h.auto && Apply(h, e).pushes == h.pushes
  {
    StepIsLater(h, e);
  }

  lemma PushKeeps(h: Hub)
    requires LoopGood(h) && h.auto.Pushing?
    ensures LoopGood(Apply(h, AutoPush(true)))
  {
    var h' := Apply(h, AutoPush(true));
    forall p | p in h.pushes
      ensures Answers(h', p)
    {
    }
    assert forall i :: 0 <= i < |h.pushes| ==> h.pushes[i] in h.pushes;
    assert Answers(h', h'.pushes[|h.pushes|]);
  }

  lemma AutoStepKeeps(h: Hub, e: Event)
    requires LoopGood(h) && Enabled(h, e) && IsAutoStep(e)
    ensures LoopGood(Apply(h, e))
  {
    if e == AutoPush(true) {
      PushKeeps(h);
    } else {
      var h' := Apply(h, e);
      forall p | p in h'.pushes
        ensures Answers(h', p)
      {
        assert Answers(h, p);
      }
    }
  }

  lemma {:induction false} RunKeepsLoop(run: seq<Event>)
    requires After(run).Some?
    ensures LoopGood(After(run).value)
  {
    if run != [] {
      var before, e := run[..|run| - 1], run[|run| - 1];
      RunKeepsLoop(before);
      RunKeeps(before);
      var h := After(before).value;
      if IsAutoStep(e) {
        AutoStepKeeps(h, e);
      } else {
        NotAutoStep(h, e);
        OtherStepKeeps(h, Apply(h, e));
      }
    }
  }

  /**
   No feedback. In every run the loop's pushes go in order to distinct chat events from the device,
   one at most each, and push what the model answered to that event's text.
   */
  lemma PushesAnswerChats(run: seq<Event>, h: Hub)
    requires After(run) == Some(h)
    ensures forall i, j :: 0 <= i < j < |h.pushes| ==>
              h.pushes[i].source < h.pushes[j].source && h.pushes[i].at < h.pushes[j].at
    ensures forall p <- h.pushes ::
              && p.source < p.at < |h.log| && p.call < |h.calls|
              && h.log[p.source] == ChatReceived(h.calls[p.call].prompt)
              && h.log[p.at].ChatPushed? && h.calls[p.call].phase == Done(Ok(h.log[p.at].text))
  {
    RunKeepsLoop(run);
  }

  // ---------------------------------------------------------------- no chat is passed over

  /** The length of the log when the loop subscribed. */
  function SubscribedFrom(run: seq<Event>): nat {
    if run == [] then 0
    else
      var before := run[..|run| - 1];
      if run[|run| - 1].AutoSubscribe? && After(before).Some? then |After(before).value.log| else SubscribedFrom(before)
  }

  /** The push for event `source` failed on the way to the device. */
  predicate Undelivered(run: seq<Event>, source: nat) {
    run != [] &&
    var before := run[..|run| - 1];
    || Undelivered(before, source)
    || (run[|run| - 1] == AutoPush(false) && After(before).Some? && After(before).value.auto.Pushing?
        && After(before).value.auto.source == source)
  }

  /** What the model said to the call was pushed, or the push failed. */
  predicate PassedOn(h: Hub, run: seq<Event>, source: nat, c: CallId)
    requires c < |h.calls|
  {
    h.calls[c].phase.Done? && h.calls[c].phase.result.Ok? ==>
      Undelivered(run, source) || exists p <- h.pushes :: p.source == source && p.call == c
  }

  /** Event `source` has been dealt with: the model was asked, has answered or failed, and its answer passed on. */
  predicate DealtWith(h: Hub, run: seq<Event>, source: nat) {
    exists c: CallId ::
      c < |h.calls| && Asks(h, source, c) && h.calls[c].phase.Done? && PassedOn(h, run, source, c)
  }

  /** Every chat between two places in the log has been dealt with. */
  predicate AllDealtWith(h: Hub, run: seq<Event>, from: nat, upTo: nat) {
    forall i: nat :: from <= i < upTo && i < |h.log| && h.log[i].ChatReceived? ==> DealtWith(h, run, i)
  }

  predicate IsRunning(auto: Auto) {
    !auto.Off? && !auto.Stopped?
  }

  /** Nothing that happens undoes it. */
  lemma StaysDealtWith(h: Hub, h': Hub, run: seq<Event>, e: Event, source: nat)
    requires DealtWith(h, run, source) && Onward(h, h') && h.pushes <= h'.pushes
    ensures DealtWith(h', run + [e], source)
  {
    var c: CallId :| c < |h.calls| && Asks(h, source, c) && h.calls[c].phase.Done? && PassedOn(h, run, source, c);
    AsksOnward(h, h', source, c);
    assert (run + [e])[..|run|] == run;
    if h.calls[c].phase.result.Ok? && !Undelivered(run, source) {
      var p :| p in h.pushes && p.source == source && p.call == c;
      assert p in h'.pushes;
    }
    assert PassedOn(h', run + [e], source, c);
  }

  lemma StepIsOnward(h: Hub, e: Event)
    requires HubCorrelated(h) && Enabled(h, e)
    ensures Onward(h, Apply(h, e)) && h.pushes <= Apply(h, e).pushes
  {
    StepIsLater(h, e);
  }

  /** How the loop leaves an event behind: it was not chat, or the model failed, or the answer was pushed or lost. */
  lemma LeavesBehind(h: Hub, e: Event, run: seq<Event>)
    requires LoopGood(h) && HubCorrelated(h) && Enabled(h, e) && IsRunning(h.auto) && After(run) == Some(h)
    requires IsAutoStep(e) && IsRunning(Apply(h, e).auto) && Cursor(Apply(h, e)) != Cursor(h)
    ensures Cursor(Apply(h, e)) == Cursor(h) + 1 && Cursor(h) < |h.log|
    ensures h.log[Cursor(h)].ChatReceived? ==> DealtWith(Apply(h, e), run + [e], Cursor(h))
  {
    var h', source := Apply(h, e), Cursor(h);
    assert (run + [e])[..|run|] == run;
    StepIsOnward(h, e);
    if e.AutoFinish? || e.AutoPush? {
      var c := h.auto.call;
      AsksOnward(h, h', source, c);
      if e == AutoPush(true) {
        var p := h'.pushes[|h.pushes|];
        assert p in h'.pushes && p.source == source && p.call == c;
      }
      assert PassedOn(h', run + [e], source, c);
    }
  }

  lemma OtherStepsKeepCursor(h: Hub, e: Event)
    requires HubCorrelated(h) && Enabled(h, e) && IsRunning(h.auto) && !IsAutoStep(e)
    ensures Cursor(Apply(h, e)) == Cursor(h) && Apply(h, e).auto == h.auto
  {
    NotAutoStep(h, e);
  }

  lemma CursorInLog(h: Hub)
    requires LoopGood(h) && IsRunning(h.auto)
    ensures Cursor(h) <= |h.log|
  {
  }

  lemma SubscribesNow(run: seq<Event>, e: Event)
    requires After(run).Some?
    ensures SubscribedFrom(run + [e]) == if e.AutoSubscribe? then |After(run).value.log| else SubscribedFrom(run)
  {
    assert (run + [e])[..|run|] == run;
  }

  lemma StillRunning(h: Hub, e: Event)
    requires HubCorrelated(h) && Enabled(h, e) && IsRunning(Apply(h, e).auto)
    ensures e.AutoSubscribe? || IsRunning(h.auto)
    ensures e.AutoSubscribe? ==> h.auto.Off? && Cursor(Apply(h, e)) == |h.log|
  {
    if !IsAutoStep(e) {
      NotAutoStep(h, e);
    }
  }

  lemma OneStays(h: Hub, e: Event, run: seq<Event>, from: nat, i: nat)
    requires HubCorrelated(h) && Enabled(h, e) && AllDealtWith(h, run, from, Cursor(h))
    requires from <= i < Cursor(h) && i < |h.log| && h.log[i].ChatReceived?
    ensures DealtWith(Apply(h, e), run + [e], i)
  {
    StepIsOnward(h, e);
    assert DealtWith(h, run, i);
    StaysDealtWith(h, Apply(h, e), run, e, i);
  }

  lemma CursorMoves(h: Hub, e: Event, run: seq<Event>)
    requires After(run) == Some(h) && LoopGood(h) && HubCorrelated(h) && Enabled(h, e)
    requires IsRunning(h.auto) && IsRunning(Apply(h, e).auto)
    ensures Cursor(Apply(h, e)) == Cursor(h) ||
            (&& Cursor(Apply(h, e)) == Cursor(h) + 1 && Cursor(h) < |h.log|
             && (h.log[Cursor(h)].ChatReceived? ==> DealtWith(Apply(h, e), run + [e], Cursor(h))))
  {
    if !IsAutoStep(e) {
      OtherStepsKeepCursor(h, e);
    } else if Cursor(Apply(h, e)) != Cursor(h) {
      LeavesBehind(h, e, run);
    }
  }

  /** The chats before the old place stay dealt with, and the one at it, if it was left behind, is. */
  lemma OneFurther(h: Hub, h': Hub, run': seq<Event>, from: nat, before: nat, after: nat)
    requires h.log <= h'.log && before <= |h.log|
    requires forall i: nat :: from <= i < before && h.log[i].ChatReceived? ==> DealtWith(h', run', i)
    requires after == before || (after == before + 1 && before < |h.log| &&
                                 (h.log[before].ChatReceived? ==> DealtWith(h', run', before)))
    ensures AllDealtWith(h', run', from, after)
  {
  }

  lemma AllStay(h: Hub, e: Event, run: seq<Event>, from: nat)
    requires After(run) == Some(h) && LoopGood(h) && HubCorrelated(h) && Enabled(h, e)
    requires IsRunning(h.auto) && IsRunning(Apply(h, e).auto) && AllDealtWith(h, run, from, Cursor(h))
    ensures AllDealtWith(Apply(h, e), run + [e], from, Cursor(Apply(h, e)))
  {
    CursorInLog(h);
    forall i: nat | from <= i < Cursor(h) && h.log[i].ChatReceived?
      ensures DealtWith(Apply(h, e), run + [e], i)
    {
      OneStays(h, e, run, from, i);
    }
    CursorMoves(h, e, run);
    StepIsOnward(h, e);
    OneFurther(h, Apply(h, e), run + [e], from, Cursor(h), Cursor(Apply(h, e)));
  }

  /**
   No chat is passed over. In every run, while the loop runs, the model has been asked about every chat from
   the device between the loop's subscription and where it is now, in that chat's own words; each such call
   is done, and what the model said was pushed, unless the push itself failed.
   */
  lemma {:induction false} EveryChatIsDealtWith(run: seq<Event>, h: Hub)
    requires After(run) == Some(h) && IsRunning(h.auto)
    ensures AllDealtWith(h, run, SubscribedFrom(run), Cursor(h))
  {
    var before, e := run[..|run| - 1], run[|run| - 1];
    var h0 := After(before).value;
    RunKeepsLoop(before);
    RunKeeps(before);
    SubscribesNow(before, e);
    StillRunning(h0, e);
    assert run == before + [e];
    if !e.AutoSubscribe? {
      EveryChatIsDealtWith(before, h0);
      AllStay(h0, e, before, SubscribedFrom(before));
    }
  }

  // ---------------------------------------------------------------- a run with a push

  /** The device says something, the model is asked, the client replies, and the reply is pushed. */
  function Exchange(text: string, body: Json): seq<Event> {
    CONNECT + [AutoSubscribe, Publish(ChatReceived(text)), AutoTake] + [AutoStart, Mint(0), Insert(0)]
            + [SendOk(0), Post(0, body), Receive(0)] + [AutoFinish, AutoPush(true)]
  }

  /** The loop has taken the device's words. */
  function Heard(text: string): Hub {
    ConnectedHub().(log := [ChatReceived(text)], auto := Starting(0))
  }

  /** The model is being asked. */
  function Asking(text: string): Hub {
    Heard(text).(tables := Tables(2, map[1 := 0], {0}, Some(0)),
                 calls := [Call(text, 0, Inserted, Some(1), None)], auto := Calling(0, 0))
  }

  /** It has answered. */
  function Answering(text: string, body: Json, reply: string): Hub {
    var ch := FirstChannel(Subscribed, true);
    Asking(text).(tables := Tables(2, map[], {0}, Some(0)),
                  calls := [Call(text, 0, Done(Ok(reply)), Some(1), Some(Reply(0, body)))],
                  channels := [ch.(events := ch.events + [Sampling(1, 0)])], posts := [body])
  }

  lemma Hears(text: string)
    ensures After(CONNECT + [AutoSubscribe, Publish(ChatReceived(text)), AutoTake]) == Some(Heard(text))
  {
    Connects();
    var idle := ConnectedHub().(auto := Idle(0));
    var published := idle.(log := [ChatReceived(text)]);
    assert Apply(ConnectedHub(), AutoSubscribe) == idle;
    assert Apply(idle, Publish(ChatReceived(text))) == published;
    assert Apply(published, AutoTake) == Heard(text);
    ThreeMoreSteps(CONNECT, AutoSubscribe, Publish(ChatReceived(text)), AutoTake);
  }

  lemma AsksModel(run: seq<Event>, text: string)
    requires After(run) == Some(Heard(text))
    ensures After(run + [AutoStart, Mint(0), Insert(0)]) == Some(Asking(text))
  {
    var call := Call(text, 0, Chosen, None, None);
    var chosen := Heard(text).(calls := [call], auto := Calling(0, 0));
    var minted := chosen.(tables := Tables(2, map[], {0}, Some(0)), calls := [call.(phase := Minted, id := Some(1))]);
    assert Apply(Heard(text), AutoStart) == chosen;
    assert Apply(chosen, Mint(0)) == minted;
    assert Apply(minted, Insert(0)) == Asking(text);
    ThreeMoreSteps(run, AutoStart, Mint(0), Insert(0));
  }

  lemma GetsAnswer(run: seq<Event>, text: string, body: Json, reply: string)
    requires After(run) == Some(Asking(text))
    requires Get(body, "method") == None && Get(body, "id") == Some(Int(1)) && SampleResult(body) == Ok(reply)
    ensures After(run + [SendOk(0), Post(0, body), Receive(0)]) == Some(Answering(text, body, reply))
  {
    var done := Answering(text, body, reply);
    var call := Call(text, 0, Waiting, Some(1), None);
    var sent := done.(tables := Asking(text).tables, calls := [call], posts := []);
    var posted := done.(calls := [call.(slot := Some(Reply(0, body)))]);
    assert Apply(Asking(text), SendOk(0)) == sent;
    assert Woken(sent.tables, 0, body) == Some(0) && map[1 := 0] - {1} == map[];
    assert Apply(sent, Post(0, body)) == posted;
    assert Apply(posted, Receive(0)) == done;
    ThreeMoreSteps(run, SendOk(0), Post(0, body), Receive(0));
  }

  /** And its answer has been pushed. */
  function Pushed(text: string, body: Json, reply: string): Hub {
    Answering(text, body, reply).(auto := Idle(1), log := [ChatReceived(text), ChatPushed(reply)],
                                  pushes := [Push(0, 0, 1)])
  }

  lemma PushSteps(text: string, body: Json, reply: string)
    ensures Enabled(Answering(text, body, reply), AutoFinish)
    ensures var pushing := Apply(Answering(text, body, reply), AutoFinish);
            pushing == Answering(text, body, reply).(auto := Pushing(0, 0, reply)) && Enabled(pushing, AutoPush(true))
  {
  }

  lemma LastPush(pushing: Hub, text: string, reply: string)
    requires pushing.auto == Pushing(0, 0, reply) && pushing.log == [ChatReceived(text)] && pushing.pushes == []
    ensures Apply(pushing, AutoPush(true)) == pushing.(
              auto := Idle(1), log := [ChatReceived(text), ChatPushed(reply)], pushes := [Push(0, 0, 1)])
  {
    assert [ChatReceived(text)] + [ChatPushed(reply)] == [ChatReceived(text), ChatPushed(reply)];
  }

  lemma PushesAnswer(run: seq<Event>, text: string, body: Json, reply: string)
    requires After(run) == Some(Answering(text, body, reply))
    ensures After(run + [AutoFinish, AutoPush(true)]) == Some(Pushed(text, body, reply))
  {
    PushSteps(text, body, reply);
    LastPush(Apply(Answering(text, body, reply), AutoFinish), text, reply);
    TwoMoreSteps(run, AutoFinish, AutoPush(true));
  }

  /** A chat does get its push, and the push is published behind it. */
  lemma SomeChatIsAnswered(text: string, body: Json, reply: string)
    requires Get(body, "method") == None && Get(body, "id") == Some(Int(1)) && SampleResult(body) == Ok(reply)
    ensures After(Exchange(text, body)).Some?
    ensures var h := After(Exchange(text, body)).value;
            h.log == [ChatReceived(text), ChatPushed(reply)] && h.pushes == [Push(0, 0, 1)] && h.auto == Idle(1)
  {
    var run := CONNECT + [AutoSubscribe, Publish(ChatReceived(text)), AutoTake];
    Hears(text);
    AsksModel(run, text);
    run := run + [AutoStart, Mint(0), Insert(0)];
    GetsAnswer(run, text, body, reply);
    PushesAnswer(run + [SendOk(0), Post(0, body), Receive(0)], text, body, reply);
  }
}
