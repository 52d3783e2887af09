/** The PIV command builders and the GET RESPONSE chaining loop. */
module Piv {
  import opened Bytes
  import opened Wrappers
  import opened Tlv

  // ---------------------------------------------------------------- commands

  datatype Command = Command(cla: byte, ins: byte, p1: byte, p2: byte, data: seq<byte>)

  /** Short command: header, one-byte Lc, data, Le = 0. */
  function Apdu(c: Command): seq<byte> {
    [c.cla, c.ins, c.p1, c.p2, |c.data| % 256] + c.data + [0]
  }

  method BuildApdu(cla: byte, ins: byte, p1: byte, p2: byte, data: seq<byte>) returns (a: seq<byte>)
    ensures a == Apdu(Command(cla, ins, p1, p2, data))
  {
    a := [cla, ins, p1, p2, |data| % 256];
    a := a + data;
    a := a + [0x00];
  }

  /** How a card reads a short command: it trusts Lc. */
  function ReadApdu(a: seq<byte>): Option<Command> {
    if |a| < 6 || |a| != 6 + a[4] as int || a[|a| - 1] != 0 then None
    else Some(Command(a[0], a[1], a[2], a[3], a[5..|a| - 1]))
  }

  lemma ApduReadBack(c: Command)
    ensures ReadApdu(Apdu(c)) == Some(c) <==> |c.data| <= 255
  {
    assert Apdu(c)[5..|Apdu(c)| - 1] == c.data;
  }

  function TagList(tag: seq<byte>): seq<byte> {
    [0x5c, |tag| % 256] + tag
  }

  method GetData(tag: seq<byte>) returns (a: seq<byte>)
    ensures a == Apdu(Command(0x00, 0xcb, 0x3f, 0xff, TagList(tag)))
  {
    var tagList := [0x5c, |tag| % 256];
    tagList := tagList + tag;
    a := BuildApdu(0x00, 0xcb, 0x3f, 0xff, tagList);
  }

  /**
   The tag list carries its length as one plain byte. It is read back as written exactly when that
   byte is neither truncated nor one of the two long-form markers, and the command carries it
   exactly when the list fits Lc.
   */
  lemma GetDataReadBack(tag: seq<byte>)
    ensures ReadTlv(TagList(tag)) == Some(Parts(0x5c, tag, [])) <==> |tag| < 256 && |tag| != 0x81 && |tag| != 0x82
    ensures var c := Command(0x00, 0xcb, 0x3f, 0xff, TagList(tag));
            ReadApdu(Apdu(c)) == Some(c) <==> |tag| <= 253
  {
    ApduReadBack(Command(0x00, 0xcb, 0x3f, 0xff, TagList(tag)));
    if |tag| < 256 && |tag| != 0x81 && |tag| != 0x82 {
      assert TagList(tag) == [0x5c] + [|tag| % 256] + tag + [];
      ReadForm(0x5c, [|tag| % 256], tag, []);
    }
  }

  function AuthTemplate(challenge: seq<byte>): seq<byte> {
    [0x82, 0x00, 0x81, |challenge| % 256] + challenge
  }

  function AuthData(challenge: seq<byte>): seq<byte> {
    [0x7c, |AuthTemplate(challenge)| % 256] + AuthTemplate(challenge)
  }

  method GeneralAuthenticate(challenge: seq<byte>) returns (a: seq<byte>)
    requires |challenge| == 32
    ensures a == Apdu(Command(0x00, 0x87, 0x11, 0x9a, AuthData(challenge)))
  {
    var template := [0x82, 0x00, 0x81, |challenge| % 256];
    template := template + challenge;
    var data := [0x7c, |template| % 256];
    data := data + template;
    a := BuildApdu(0x00, 0x87, 0x11, 0x9a, data);
  }

  function AuthItems(challenge: seq<byte>): seq<Item>
    requires |challenge| == 32
  {
    [Item(0x82, []), Item(0x81, challenge)]
  }

  /** The nested builder is canonical. */
  lemma AuthIsEncoded(challenge: seq<byte>)
    requires |challenge| == 32
    ensures AuthTemplate(challenge) == EncodeAll(AuthItems(challenge))
    ensures AuthData(challenge) == Encode(Item(0x7c, AuthTemplate(challenge)))
  {
    var items := AuthItems(challenge);
    assert items[1..] == [items[1]] && items[1..][1..] == [];
    assert EncodeAll(items[1..]) == Encode(items[1]) + [];
  }

  /** So the card reads the challenge, and the placeholder for the response, out of the command. */
  lemma GeneralAuthenticateReadBack(challenge: seq<byte>)
    requires |challenge| == 32
    ensures var c := Command(0x00, 0x87, 0x11, 0x9a, AuthData(challenge)); ReadApdu(Apdu(c)) == Some(c)
    ensures UnwrapTlv(AuthData(challenge), 0x7c) == Ok(AuthTemplate(challenge))
    ensures FirstTlv(AuthTemplate(challenge), 0x81) == Some(challenge)
    ensures FirstTlv(AuthTemplate(challenge), 0x82) == Some([])
  {
    ApduReadBack(Command(0x00, 0x87, 0x11, 0x9a, AuthData(challenge)));
    AuthIsEncoded(challenge);
    var items, data := AuthItems(challenge), AuthData(challenge);
    assert data + [] == data;
    FindsNested(0x7c, items, 0x81, []);
    FindsNested(0x7c, items, 0x82, []);
    assert FirstValue(items, 0x81) == FirstValue(items[1..], 0x81);
  }

  // ---------------------------------------------------------------- GET RESPONSE chaining

  datatype Reply = Response(bytes: seq<byte>) | TransmitError

  datatype Error = CardError | TooShort

  function SplitSw(resp: seq<byte>): Result<(seq<byte>, nat), Error> {
    if |resp| < 2 then Err(TooShort)
    else Ok((resp[..|resp| - 2], FromBe16(resp[|resp| - 2..])))
  }

  function GetResponse(xx: byte): seq<byte> {
    [0x00, 0xc0, 0x00, 0x00, xx]
  }

  /** A card: what it will reply, and the commands it was sent. A card with no reply left is gone. */
  class Card {
    var replies: seq<Reply>
    var sent: seq<seq<byte>>

    constructor (replies: seq<Reply>)
      ensures this.replies == replies && sent == []
    {
      this.replies, this.sent := replies, [];
    }

    method Transmit(command: seq<byte>) returns (reply: Reply)
      modifies this
      ensures sent == old(sent) + [command]
      ensures old(replies) == [] ==> reply == TransmitError && replies == []
      ensures old(replies) != [] ==> reply == old(replies)[0] && replies == old(replies)[1..]
    {
      sent := sent + [command];
      if replies == [] {
        reply := TransmitError;
      } else {
        reply, replies := replies[0], replies[1..];
      }
    }
  }

  /** What a chained exchange returns, the commands it sends, the replies it leaves. */
  datatype Exchange = Exchange(result: Result<(seq<byte>, nat), Error>, sent: seq<seq<byte>>, rest: seq<Reply>)

  function Transmitted(out: seq<byte>, command: seq<byte>, replies: seq<Reply>): Exchange
    decreases |replies|
  {
    if replies == [] || replies[0].TransmitError? then
      Exchange(Err(CardError), [command], if replies == [] then [] else replies[1..])
    else
      match SplitSw(replies[0].bytes)
      case Err(e) => Exchange(Err(e), [command], replies[1..])
      case Ok((data, sw)) =>
        if sw / 256 == 0x61 then
          var later := Transmitted(out + data, GetResponse(sw % 256), replies[1..]);
          Exchange(later.result, [command] + later.sent, later.rest)
        else Exchange(Ok((out + data, sw)), [command], replies[1..])
  }

  method Transmit(card: Card, send: seq<byte>) returns (result: Result<(seq<byte>, nat), Error>)
    modifies card
    ensures var e := Transmitted([], send, old(card.replies));
            result == e.result && card.replies == e.rest && card.sent == old(card.sent) + e.sent
  {
    var out: seq<byte> := [];
    var command: seq<byte> := send;
    ghost var whole := Transmitted([], send, card.replies);
    while true
      invariant var e := Transmitted(out, command, card.replies);
                e.result == whole.result && e.rest == whole.rest && card.sent + e.sent == old(card.sent) + whole.sent
      decreases |card.replies|
    {
      ghost var before, later := card.sent, Transmitted(out, command, card.replies);
      var reply := card.Transmit(command);
      assert before + later.sent == before + [command] + later.sent[1..];
      if reply.TransmitError? {
        return Err(CardError);
      }
      var split := SplitSw(reply.bytes);
      if split.Err? {
        return Err(split.error);
      }
      var (data, sw) := split.value;
      out := out + data;
      if sw / 256 == 0x61 {
        command := [0x00, 0xc0, 0x00, 0x00, sw % 256];
      } else {
        return Ok((out, sw));
      }
    }
  }

  /** A reply with more to come: its body, and the low byte of its 61xx word. */
  datatype Part = Part(body: seq<byte>, more: byte)

  function PartReply(part: Part): Reply {
    Response(part.body + [0x61, part.more])
  }

  function Chain(parts: seq<Part>, body: seq<byte>, sw: nat, tail: seq<Reply>): seq<Reply> {
    if parts == [] then [Response(body + Be16(sw))] + tail
    else [PartReply(parts[0])] + Chain(parts[1..], body, sw, tail)
  }

  function Bodies(parts: seq<Part>): seq<byte> {
    if parts == [] then [] else parts[0].body + Bodies(parts[1..])
  }

  function FollowUps(parts: seq<Part>): seq<seq<byte>> {
    if parts == [] then [] else [GetResponse(parts[0].more)] + FollowUps(parts[1..])
  }

  lemma SplitBack(body: seq<byte>, sw: nat)
    requires sw < 0x1_0000
    ensures SplitSw(body + Be16(sw)) == Ok((body, sw))
  {
    var resp := body + Be16(sw);
    assert resp[..|resp| - 2] == body && resp[|resp| - 2..] == Be16(sw);
    Be16RoundTrip(sw);
  }

  /** The chain is followed: all bodies in order, the final word, one GET RESPONSE per 61xx. */
  lemma {:induction false} ChainFollowed(out: seq<byte>, command: seq<byte>, parts: seq<Part>, body: seq<byte>, sw: nat,
                                         tail: seq<Reply>)
    requires sw < 0x1_0000 && sw / 256 != 0x61
    ensures Transmitted(out, command, Chain(parts, body, sw, tail))
         == Exchange(Ok((out + Bodies(parts) + body, sw)), [command] + FollowUps(parts), tail)
    decreases |parts|
  {
    var replies := Chain(parts, body, sw, tail);
    if parts == [] {
      SplitBack(body, sw);
      assert replies[1..] == tail && out + [] == out;
    } else {
      var part, others := parts[0], Chain(parts[1..], body, sw, tail);
      assert replies[1..] == others;
      assert Be16(0x6100 + part.more) == [0x61, part.more];
      SplitBack(part.body, 0x6100 + part.more);
      ChainFollowed(out + part.body, GetResponse(part.more), parts[1..], body, sw, tail);
      Regroup(out, part.body, Bodies(parts[1..]));
    }
  }

  /** And nothing else succeeds: a result is always the end of such a chain. */
  lemma {:induction false} OnlyChainsSucceed(out: seq<byte>, command: seq<byte>, replies: seq<Reply>)
    returns (parts: seq<Part>, body: seq<byte>, sw: nat)
    requires Transmitted(out, command, replies).result.Ok?
    ensures sw < 0x1_0000 && sw / 256 != 0x61
    ensures replies == Chain(parts, body, sw, Transmitted(out, command, replies).rest)
    ensures Transmitted(out, command, replies).result == Ok((out + Bodies(parts) + body, sw))
    decreases |replies|
  {
    var resp := replies[0].bytes;
    var (data, word) := SplitSw(resp).value;
    FromBe16RoundTrip(resp[|resp| - 2..]);
    assert resp == data + Be16(word);
    if word / 256 == 0x61 {
      var part := Part(data, word % 256);
      var parts', body', sw' := OnlyChainsSucceed(out + data, GetResponse(part.more), replies[1..]);
      parts, body, sw := [part] + parts', body', sw';
      assert Be16(word) == [0x61, part.more] && parts[1..] == parts';
      assert replies == [replies[0]] + replies[1..];
      Regroup(out, data, Bodies(parts'));
    } else {
      parts, body, sw := [], data, word;
      assert replies == [replies[0]] + replies[1..] && out + [] == out;
    }
  }

  /** Why a chain breaks off: the card fails, or a reply has no room for a status word. */
  function Breaks(reply: Reply): Option<Error> {
    match reply
    case TransmitError => Some(CardError)
    case Response(bytes) => if |bytes| < 2 then Some(TooShort) else None
  }

  function Unfinished(parts: seq<Part>, last: Reply, tail: seq<Reply>): seq<Reply> {
    if parts == [] then [last] + tail else [PartReply(parts[0])] + Unfinished(parts[1..], last, tail)
  }

  /** A chain that breaks off fails, whatever came before, and no more is sent. */
  lemma {:induction false} ChainBroken(out: seq<byte>, command: seq<byte>, parts: seq<Part>, last: Reply,
                                       tail: seq<Reply>)
    requires Breaks(last).Some?
    ensures Transmitted(out, command, Unfinished(parts, last, tail))
         == Exchange(Err(Breaks(last).value), [command] + FollowUps(parts), tail)
    decreases |parts|
  {
    var replies := Unfinished(parts, last, tail);
    if parts == [] {
      assert replies[1..] == tail && [command] + FollowUps(parts) == [command];
    } else {
      var part, others := parts[0], Unfinished(parts[1..], last, tail);
      assert replies[1..] == others;
      assert Be16(0x6100 + part.more) == [0x61, part.more];
      SplitBack(part.body, 0x6100 + part.more);
      ChainBroken(out + part.body, GetResponse(part.more), parts[1..], last, tail);
    }
  }
}
