/** The U2F chain over CTAPHID: register, wait for the user, authenticate with the new key handle. */
module U2f {
  import opened Bytes
  import opened Wrappers
  import opened CtapHid
  import opened CtapHidProofs

  const SW_OK := 0x9000
  const SW_CONDITIONS_NOT_SATISFIED := 0x6985

  type Hash = h: seq<byte> | |h| == 32 witness Zeros(32)

  datatype Error =
    | Transport(outcome: Outcome)
    | UnexpectedCmd(cmd: byte)
    | ResponseTooShort
    | Status(sw: nat)
    | PresenceTimeout
    | MalformedRegistration
    | NotP256
    | KeyHandleTruncated
    | MalformedAuthentication
    | NotDer

  // ---------------------------------------------------------------- requests

  /** Extended-length command: header, two-byte length, data, two-byte Le. */
  function Apdu(ins: byte, p1: byte, data: seq<byte>): seq<byte> {
    [0, ins, p1, 0, 0] + Be16(|data|) + data + [0, 0]
  }

  method BuildApdu(ins: byte, p1: byte, data: seq<byte>) returns (a: seq<byte>)
    ensures a == Apdu(ins, p1, data)
  {
    a := [0x00, ins, p1, 0x00, 0x00];
    a := a + Be16(|data|);
    a := a + data;
    a := a + [0x00, 0x00];
  }

  datatype Command = Command(ins: byte, p1: byte, data: seq<byte>)

  /** How a device reads an extended-length command: it trusts the length field. */
  function ReadApdu(a: seq<byte>): Option<Command> {
    if |a| < 9 || a[0] != 0 || a[3] != 0 || a[4] != 0 then None
    else
      var length := FromBe16(a[5..7]);
      if |a| != 7 + length + 2 || a[|a| - 2..] != [0, 0] then None
      else Some(Command(a[1], a[2], a[7..7 + length]))
  }

  /** The command is read back unchanged exactly when its length fits the two-byte field. */
  lemma ApduReadBack(ins: byte, p1: byte, data: seq<byte>)
    ensures ReadApdu(Apdu(ins, p1, data)) == Some(Command(ins, p1, data)) <==> |data| < 0x1_0000
  {
    var a := Apdu(ins, p1, data);
    assert a[5..7] == Be16(|data|);
    Be16RoundTrip(|data|);
    assert a[7..7 + |data|] == data;
    assert a[|a| - 2..] == [0, 0];
  }

  function AuthenticateData(challenge: Hash, appid: Hash, keyHandle: seq<byte>): seq<byte> {
    challenge + appid + [|keyHandle| % 256] + keyHandle
  }

  /** The authenticate request as `run` puts it together. */
  method BuildAuthenticate(challenge: Hash, appid: Hash, keyHandle: seq<byte>) returns (a: seq<byte>)
    ensures a == Apdu(0x02, 0x03, AuthenticateData(challenge, appid, keyHandle))
  {
    var data: seq<byte> := challenge;
    data := data + appid;
    data := data + [|keyHandle| % 256];
    data := data + keyHandle;
    a := BuildApdu(0x02, 0x03, data);
  }

  datatype AuthenticateRequest = AuthenticateRequest(challenge: Hash, appid: Hash, keyHandle: seq<byte>)

  /** How a device reads the authenticate data: the key handle is as long as its length byte says. */
  function ReadAuthenticateData(data: seq<byte>): Option<AuthenticateRequest> {
    if |data| < 65 || |data| != 65 + data[64] as int then None
    else Some(AuthenticateRequest(data[..32], data[32..64], data[65..]))
  }

  lemma AuthenticateDataReadBack(challenge: Hash, appid: Hash, keyHandle: seq<byte>)
    ensures var read := ReadAuthenticateData(AuthenticateData(challenge, appid, keyHandle));
            read == Some(AuthenticateRequest(challenge, appid, keyHandle)) <==> |keyHandle| <= 255
  {
    var data := AuthenticateData(challenge, appid, keyHandle);
    assert data[..32] == challenge && data[32..64] == appid && data[65..] == keyHandle;
  }

  // ---------------------------------------------------------------- replies

  /** A completed transaction as `u2f_once` reads it: the response and its status word. */
  function Response(outcome: Outcome): Result<(seq<byte>, nat), Error> {
    match outcome
    case Replied(cmd, data) =>
      if cmd != CTAPHID_MSG then Err(UnexpectedCmd(cmd))
      else if |data| < 2 then Err(ResponseTooShort)
      else Ok((data[..|data| - 2], FromBe16(data[|data| - 2..])))
    case _ => Err(Transport(outcome))
  }

  function ParseRegistration(isKey: seq<byte> -> bool, resp: seq<byte>): Result<(seq<byte>, seq<byte>), Error> {
    if |resp| < 67 || resp[0] != 0x05 then Err(MalformedRegistration)
    else if !isKey(resp[1..66]) then Err(NotP256)
    else
      var length := resp[66] as int;
      if |resp| < 67 + length then Err(KeyHandleTruncated)
      else Ok((resp[1..66], resp[67..67 + length]))
  }

  /** A registration response as a device writes it. */
  function Registration(key: seq<byte>, keyHandle: seq<byte>, attestation: seq<byte>): seq<byte> {
    [0x05] + key + [|keyHandle| % 256] + keyHandle + attestation
  }

  /** Exactly the responses a device can write for a valid key are accepted, and read as written. */
  lemma RegistrationReadBack(isKey: seq<byte> -> bool, resp: seq<byte>, key: seq<byte>, keyHandle: seq<byte>)
    ensures ParseRegistration(isKey, resp) == Ok((key, keyHandle))
       <==> && |key| == 65 && isKey(key) && |keyHandle| <= 255
            && exists attestation :: resp == Registration(key, keyHandle, attestation)
  {
    if ParseRegistration(isKey, resp) == Ok((key, keyHandle)) {
      assert resp == Registration(key, keyHandle, resp[67 + |keyHandle|..]);
    }
    if |key| == 65 && isKey(key) && |keyHandle| <= 255 {
      forall attestation | resp == Registration(key, keyHandle, attestation)
        ensures ParseRegistration(isKey, resp) == Ok((key, keyHandle))
      {
        assert resp[1..66] == key && resp[66] == |keyHandle| && resp[67..67 + |keyHandle|] == keyHandle;
      }
    }
  }

  datatype Authentication = Authentication(presence: byte, counter: nat, signature: seq<byte>)

  function ParseAuthentication(isDer: seq<byte> -> bool, resp: seq<byte>): Result<Authentication, Error> {
    if |resp| < 6 then Err(MalformedAuthentication)
    else if !isDer(resp[5..]) then Err(NotDer)
    else Ok(Authentication(resp[0], FromBe32(resp[1..5]), resp[5..]))
  }

  /** An authentication response as a device writes it. */
  function AuthenticationBytes(a: Authentication): seq<byte> {
    [a.presence] + Be32(a.counter) + a.signature
  }

  lemma AuthenticationRewritten(isDer: seq<byte> -> bool, resp: seq<byte>)
    requires |resp| >= 6 && isDer(resp[5..])
    ensures resp == AuthenticationBytes(ParseAuthentication(isDer, resp).value)
  {
    var counter := resp[1..5];
    FromBe32RoundTrip(counter);
    assert resp == [resp[0]] + counter + resp[5..];
  }

  /** Exactly the responses a device can write are accepted, and read as written. */
  lemma AuthenticationReadBack(isDer: seq<byte> -> bool, resp: seq<byte>, a: Authentication)
    ensures ParseAuthentication(isDer, resp) == Ok(a)
       <==> && a.counter < 0x1_0000_0000 && a.signature != [] && isDer(a.signature)
            && resp == AuthenticationBytes(a)
  {
    if ParseAuthentication(isDer, resp) == Ok(a) {
      AuthenticationRewritten(isDer, resp);
    } else if a.counter < 0x1_0000_0000 {
      var counter := Be32(a.counter);
      var written := [a.presence] + counter + a.signature;
      assert written[1..5] == counter && written[5..] == a.signature;
      Be32RoundTrip(a.counter);
    }
  }

  /**
   The chain fits. Whatever registration the device gets accepted, the authenticate request that
   follows carries the key handle whole: both length fields are exact, and the request survives
   being cut into reports and put together again.
   */
  lemma ChainFits(isKey: seq<byte> -> bool, resp: seq<byte>, key: seq<byte>, keyHandle: seq<byte>,
                  challenge: Hash, appid: Hash, cid: u32)
    requires ParseRegistration(isKey, resp) == Ok((key, keyHandle))
    ensures var data := AuthenticateData(challenge, appid, keyHandle); var apdu := Apdu(0x02, 0x03, data);
            && |apdu| == 74 + |keyHandle| <= 329
            && ReadApdu(apdu) == Some(Command(0x02, 0x03, data))
            && ReadAuthenticateData(data) == Some(AuthenticateRequest(challenge, appid, keyHandle))
            && Receive(IDLE, Message(cid, CTAPHID_MSG, apdu)) == Received(Replied(CTAPHID_MSG, apdu), [])
  {
    var data := AuthenticateData(challenge, appid, keyHandle);
    ApduReadBack(0x02, 0x03, data);
    AuthenticateDataReadBack(challenge, appid, keyHandle);
    RoundTripExactly(cid, CTAPHID_MSG, Apdu(0x02, 0x03, data));
  }

  // ---------------------------------------------------------------- waiting for the user

  /** One command and its response: reports written, writes and packets left after it. */
  datatype Poll = Poll(response: Result<(seq<byte>, nat), Error>, written: seq<seq<byte>>,
                       writesLeft: nat, rest: seq<Read>)

  function Ask(cid: u32, apdu: seq<byte>, writesLeft: nat, packets: seq<Read>): (p: Poll)
    ensures p.response.Ok? ==> |p.rest| < |packets|
  {
    var r := Transact(cid, CTAPHID_MSG, apdu, writesLeft, packets);
    var sent := Sent(cid, CTAPHID_MSG, apdu, writesLeft);
    Poll(Response(r.outcome), Written(Fragments(cid, CTAPHID_MSG, apdu))[..sent], writesLeft - sent, r.rest)
  }

  method Once(device: Device, cid: u32, apdu: seq<byte>) returns (response: Result<(seq<byte>, nat), Error>)
    modifies device
    ensures var p := Ask(cid, apdu, old(device.writesLeft), old(device.inbox));
            && response == p.response && device.inbox == p.rest && device.writesLeft == p.writesLeft
            && device.outbox == old(device.outbox) + p.written
  {
    var outcome := Exchange(device, cid, CTAPHID_MSG, apdu);
    match outcome
    case Replied(cmd, data) =>
      if cmd != CTAPHID_MSG {
        return Err(UnexpectedCmd(cmd));
      }
      if |data| < 2 {
        return Err(ResponseTooShort);
      }
      response := Ok((data[..|data| - 2], FromBe16([data[|data| - 2], data[|data| - 1]])));
      assert data[|data| - 2..] == [data[|data| - 2], data[|data| - 1]];
    case _ =>
      response := Err(Transport(outcome));
  }

  /** What one poll decides; nothing, if the user has still to confirm and the deadline is ahead. */
  function Verdict(response: Result<(seq<byte>, nat), Error>, early: bool): Option<Result<seq<byte>, Error>> {
    match response
    case Err(e) => Some(Err(e))
    case Ok((data, sw)) =>
      if sw == SW_OK then Some(Ok(data))
      else if sw != SW_CONDITIONS_NOT_SATISFIED then Some(Err(Status(sw)))
      else if !early then Some(Err(PresenceTimeout))
      else None
  }

  /** A way of asking: from the writes and packets left, one poll. */
  type Asking = (nat, seq<Read>) -> Poll

  /** Every response takes packets. */
  ghost predicate Consumes(ask: Asking) {
    forall writesLeft, packets ::
      ask(writesLeft, packets).response.Ok? ==> |ask(writesLeft, packets).rest| < |packets|
  }

  function AskFor(cid: u32, apdu: seq<byte>): (ask: Asking)
    ensures Consumes(ask)
  {
    (writesLeft: nat, packets: seq<Read>) => Ask(cid, apdu, writesLeft, packets)
  }

  /** The result of polling, and what it leaves: reports written, writes and packets left. */
  datatype Awaited = Awaited(result: Result<seq<byte>, Error>, written: seq<seq<byte>>,
                             writesLeft: nat, rest: seq<Read>)

  /** `u2f_await_presence` from its `k`-th poll; `early(k)` says the deadline is still ahead there. */
  ghost function Await(ask: Asking, writesLeft: nat, packets: seq<Read>, early: nat -> bool, k: nat): Awaited
    requires Consumes(ask)
    decreases |packets|
  {
    var p := ask(writesLeft, packets);
    match Verdict(p.response, early(k))
    case Some(result) => Awaited(result, p.written, p.writesLeft, p.rest)
    case None =>
      var later := Await(ask, p.writesLeft, p.rest, early, k + 1);
      later.(written := p.written + later.written)
  }

  method AwaitPresence(device: Device, cid: u32, apdu: seq<byte>, early: nat -> bool)
    returns (result: Result<seq<byte>, Error>)
    modifies device
    ensures var a := Await(AskFor(cid, apdu), old(device.writesLeft), old(device.inbox), early, 0);
            && result == a.result && device.inbox == a.rest && device.writesLeft == a.writesLeft
            && device.outbox == old(device.outbox) + a.written
  {
    ghost var ask := AskFor(cid, apdu);
    ghost var whole := Await(ask, device.writesLeft, device.inbox, early, 0);
    ghost var written: seq<seq<byte>> := [];
    var polls := 0;
    while true
      invariant device.outbox == old(device.outbox) + written
      invariant var a := Await(ask, device.writesLeft, device.inbox, early, polls);
                a.(written := written + a.written) == whole
      decreases |device.inbox|
    {
      ghost var p := ask(device.writesLeft, device.inbox);
      var response := Once(device, cid, apdu);
      Regroup(old(device.outbox), written, p.written);
      Regroup(written, p.written, Await(ask, device.writesLeft, device.inbox, early, polls + 1).written);
      written := written + p.written;
      match response
      case Err(e) =>
        return Err(e);
      case Ok((data, sw)) =>
        if sw == SW_OK {
          return Ok(data);
        }
        if sw != SW_CONDITIONS_NOT_SATISFIED {
          return Err(Status(sw));
        }
        if !early(polls) {
          return Err(PresenceTimeout);
        }
        polls := polls + 1;
    }
  }

  /** What a device sends for one poll: KEEPALIVE messages, then the response. */
  datatype Answer = Answer(waits: seq<KeepAlive>, cid: u32, data: seq<byte>, sw: nat)

  predicate ValidAnswer(a: Answer) {
    a.sw < 0x1_0000 && |a.data| + 2 <= MAX_MESSAGE
  }

  function AnswerPackets(a: Answer, tail: seq<Read>): seq<Read> {
    AfterKeepAlives(a.waits, Message(a.cid, CTAPHID_MSG, a.data + Be16(a.sw)) + tail)
  }

  /** The packets of one answer after the other. */
  function Conversation(answers: seq<Answer>, tail: seq<Read>): seq<Read> {
    if answers == [] then tail else AnswerPackets(answers[0], Conversation(answers[1..], tail))
  }

  lemma ResponseOf(data: seq<byte>, sw: nat)
    requires sw < 0x1_0000
    ensures Response(Replied(CTAPHID_MSG, data + Be16(sw))) == Ok((data, sw))
  {
    var payload := data + Be16(sw);
    Be16RoundTrip(sw);
    assert payload[..|payload| - 2] == data && payload[|payload| - 2..] == Be16(sw);
  }

  /** A poll that is answered: the answer's data and status, and nothing of what follows it. */
  lemma AnswerRead(a: Answer, tail: seq<Read>, cid: u32, apdu: seq<byte>, writesLeft: nat)
    requires ValidAnswer(a)
    requires |apdu| <= MAX_FRAGMENT && |Fragments(cid, CTAPHID_MSG, apdu)| <= writesLeft
    ensures var reports := Written(Fragments(cid, CTAPHID_MSG, apdu));
            Ask(cid, apdu, writesLeft, AnswerPackets(a, tail)) ==
            Poll(Ok((a.data, a.sw)), reports, writesLeft - |reports|, tail)
  {
    RoundTrip(IDLE, a.waits, a.cid, CTAPHID_MSG, a.data + Be16(a.sw), tail);
    ResponseOf(a.data, a.sw);
  }

  /** `ask` writes `reports` and reads one answer. */
  ghost predicate ReadsAnswers(ask: Asking, reports: seq<seq<byte>>) {
    forall a: Answer, tail, writesLeft: nat | ValidAnswer(a) && |reports| <= writesLeft ::
      ask(writesLeft, AnswerPackets(a, tail)) == Poll(Ok((a.data, a.sw)), reports, writesLeft - |reports|, tail)
  }

  lemma AskReadsAnswers(cid: u32, apdu: seq<byte>)
    requires |apdu| <= MAX_FRAGMENT
    ensures ReadsAnswers(AskFor(cid, apdu), Written(Fragments(cid, CTAPHID_MSG, apdu)))
  {
    var reports := Written(Fragments(cid, CTAPHID_MSG, apdu));
    forall a: Answer, tail, writesLeft: nat | ValidAnswer(a) && |reports| <= writesLeft
      ensures AskFor(cid, apdu)(writesLeft, AnswerPackets(a, tail))
           == Poll(Ok((a.data, a.sw)), reports, writesLeft - |reports|, tail)
    {
      AnswerRead(a, tail, cid, apdu, writesLeft);
    }
  }

  /** From poll `k` on, only the last answer is other than a 6985 ahead of the deadline. */
  predicate LastDecides(answers: seq<Answer>, early: nat -> bool, k: nat) {
    && answers != []
    && var waits := answers[0].sw == 0x6985 && early(k);
       if |answers| == 1 then !waits else waits && LastDecides(answers[1..], early, k + 1)
  }

  /** The same reports, `times` times over. */
  function Repeated(reports: seq<seq<byte>>, times: nat): seq<seq<byte>> {
    if times == 0 then [] else reports + Repeated(reports, times - 1)
  }

  /** The result the last answer gives. */
  function Decision(a: Answer): Result<seq<byte>, Error> {
    if a.sw == 0x9000 then Ok(a.data)
    else if a.sw == 0x6985 then Err(PresenceTimeout)
    else Err(Status(a.sw))
  }

  /** One turn of the loop that is answered: it decides, or the next poll goes on from what it leaves. */
  lemma AnsweredTurn(ask: Asking, writesLeft: nat, packets: seq<Read>, a: Answer, reports: seq<seq<byte>>, left: nat,
                     rest: seq<Read>, early: nat -> bool, k: nat)
    requires Consumes(ask) && ask(writesLeft, packets) == Poll(Ok((a.data, a.sw)), reports, left, rest)
    ensures Await(ask, writesLeft, packets, early, k) ==
            if a.sw == SW_CONDITIONS_NOT_SATISFIED && early(k) then
              var later := Await(ask, left, rest, early, k + 1);
              later.(written := reports + later.written)
            else
              Awaited(Decision(a), reports, left, rest)
  {
  }

  lemma {:induction false} DecidedBy(ask: Asking, reports: seq<seq<byte>>, answers: seq<Answer>, tail: seq<Read>,
                                     writesLeft: nat, early: nat -> bool, k: nat)
    requires Consumes(ask) && ReadsAnswers(ask, reports)
    requires (forall a <- answers :: ValidAnswer(a)) && LastDecides(answers, early, k)
    requires |Repeated(reports, |answers|)| <= writesLeft
    ensures var all := Repeated(reports, |answers|);
            Await(ask, writesLeft, Conversation(answers, tail), early, k) ==
            Awaited(Decision(answers[|answers| - 1]), all, writesLeft - |all|, tail)
    decreases |answers|
  {
    var first, later := answers[0], answers[1..];
    var packets := Conversation(later, tail);
    var left := writesLeft - |reports|;
    assert ask(writesLeft, AnswerPackets(first, packets)) == Poll(Ok((first.data, first.sw)), reports, left, packets);
    AnsweredTurn(ask, writesLeft, AnswerPackets(first, packets), first, reports, left, packets, early, k);
    if |answers| == 1 {
      assert Repeated(reports, 1) == reports + Repeated(reports, 0) == reports;
      assert later == [];
    } else {
      assert later[|later| - 1] == answers[|answers| - 1];
      DecidedBy(ask, reports, later, tail, left, early, k + 1);
    }
  }

  /**
   Polling for presence: 6985 answers ahead of the deadline are waited out, each at the cost of one
   more request, and the first other answer decides the result; what follows it is left unread.
   */
  lemma PresenceDecides(answers: seq<Answer>, tail: seq<Read>, cid: u32, apdu: seq<byte>, writesLeft: nat,
                        early: nat -> bool)
    requires (forall a <- answers :: ValidAnswer(a)) && LastDecides(answers, early, 0)
    requires |apdu| <= MAX_FRAGMENT
    requires |Repeated(Written(Fragments(cid, CTAPHID_MSG, apdu)), |answers|)| <= writesLeft
    ensures var all := Repeated(Written(Fragments(cid, CTAPHID_MSG, apdu)), |answers|);
            Await(AskFor(cid, apdu), writesLeft, Conversation(answers, tail), early, 0) ==
            Awaited(Decision(answers[|answers| - 1]), all, writesLeft - |all|, tail)
  {
    AskReadsAnswers(cid, apdu);
    DecidedBy(AskFor(cid, apdu), Written(Fragments(cid, CTAPHID_MSG, apdu)), answers, tail, writesLeft, early, 0);
  }

  /**
   What becomes of a reply: another command is an error, and so is a message too short for a status word;
   any other is taken apart, the last two bytes being the status.
   */
  lemma ReplyTaken(cid: u32, apdu: seq<byte>, writes: nat, other: u32, cmd: byte, payload: seq<byte>, tail: seq<Read>)
    requires |apdu| <= MAX_FRAGMENT && |Fragments(cid, CTAPHID_MSG, apdu)| <= writes
    requires cmd < 0x80 && cmd != 0x3b && cmd != 0x3f && |payload| <= 7609
    ensures Ask(cid, apdu, writes, Message(other, cmd, payload) + tail).response ==
            if cmd != 0x03 then Err(UnexpectedCmd(cmd))
            else if |payload| < 2 then Err(ResponseTooShort)
            else Ok((payload[..|payload| - 2],
                     256 * (payload[|payload| - 2] as int) + payload[|payload| - 1] as int))
  {
    ReplyRead(IDLE, other, cmd, payload, tail);
  }

  /** A transaction without a reply is an error of its own, the same one. */
  lemma NoReplyPassedOn(cid: u32, apdu: seq<byte>, writes: nat, packets: seq<Read>)
    ensures var outcome := Transact(cid, CTAPHID_MSG, apdu, writes, packets).outcome;
            !outcome.Replied? <==> Ask(cid, apdu, writes, packets).response == Err(Transport(outcome))
  {
  }

  /** After any number of waits, a poll that fails ends the polling with its error. */
  lemma {:induction false} FailureEnds(ask: Asking, reports: seq<seq<byte>>, waits: seq<Answer>, packets: seq<Read>,
                                       writesLeft: nat, early: nat -> bool, k: nat)
    requires Consumes(ask) && ReadsAnswers(ask, reports)
    requires forall a <- waits :: ValidAnswer(a) && a.sw == 0x6985
    requires forall i: nat :: k <= i < k + |waits| ==> early(i)
    requires |Repeated(reports, |waits|)| <= writesLeft
    requires ask(writesLeft - |Repeated(reports, |waits|)|, packets).response.Err?
    ensures var all := Repeated(reports, |waits|); var last := ask(writesLeft - |all|, packets);
            Await(ask, writesLeft, Conversation(waits, packets), early, k) ==
            Awaited(Err(last.response.error), all + last.written, last.writesLeft, last.rest)
    decreases |waits|
  {
    if waits == [] {
      var last := ask(writesLeft, packets);
      assert [] + last.written == last.written;
    } else {
      var first, later := waits[0], waits[1..];
      var rest, left := Conversation(later, packets), writesLeft - |reports|;
      assert first in waits;
      assert ask(writesLeft, AnswerPackets(first, rest)) == Poll(Ok((first.data, first.sw)), reports, left, rest);
      AnsweredTurn(ask, writesLeft, AnswerPackets(first, rest), first, reports, left, rest, early, k);
      FailureEnds(ask, reports, later, packets, left, early, k + 1);
      Regroup(reports, Repeated(reports, |later|), ask(left - |Repeated(reports, |later|)|, packets).written);
    }
  }

  /** So for the polling of `u2f_await_presence`. */
  lemma PresenceFails(waits: seq<Answer>, packets: seq<Read>, cid: u32, apdu: seq<byte>, writesLeft: nat,
                      early: nat -> bool)
    requires (forall a <- waits :: ValidAnswer(a) && a.sw == 0x6985) && forall i: nat :: i < |waits| ==> early(i)
    requires |apdu| <= MAX_FRAGMENT
    requires |Repeated(Written(Fragments(cid, CTAPHID_MSG, apdu)), |waits|)| <= writesLeft
    requires var all := Repeated(Written(Fragments(cid, CTAPHID_MSG, apdu)), |waits|);
             Ask(cid, apdu, writesLeft - |all|, packets).response.Err?
    ensures var all := Repeated(Written(Fragments(cid, CTAPHID_MSG, apdu)), |waits|);
            var last := Ask(cid, apdu, writesLeft - |all|, packets);
            Await(AskFor(cid, apdu), writesLeft, Conversation(waits, packets), early, 0) ==
            Awaited(Err(last.response.error), all + last.written, last.writesLeft, last.rest)
  {
    var reports := Written(Fragments(cid, CTAPHID_MSG, apdu));
    AskReadsAnswers(cid, apdu);
    FailureEnds(AskFor(cid, apdu), reports, waits, packets, writesLeft, early, 0);
  }
}
