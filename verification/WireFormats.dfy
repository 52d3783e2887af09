/**
 The formats as they stand on the wire, byte by byte: every request built, every prefix written, and how
 lengths, counters and status words are read. Nothing here goes through the builders' own helpers.
 */
module WireFormats {
  import opened Bytes
  import opened Wrappers
  import opened CtapHid
  import Framing
  import Piv
  import StateFile
  import Tlv
  import U2f

  // ---------------------------------------------------------------- U2F

  lemma U2fRequest(ins: byte, p1: byte, data: seq<byte>)
    ensures U2f.Apdu(ins, p1, data) == [0, ins, p1, 0, 0, |data| / 256 % 256, |data| % 256] + data + [0, 0]
  {
  }

  /** The authenticate request for a key handle whose length fits its byte. */
  lemma AuthenticateRequest(challenge: U2f.Hash, appid: U2f.Hash, keyHandle: seq<byte>)
    requires |keyHandle| <= 255
    ensures var n := 65 + |keyHandle|;
            U2f.Apdu(0x02, 0x03, U2f.AuthenticateData(challenge, appid, keyHandle)) ==
            [0, 2, 3, 0, 0, n / 256, n % 256] + challenge + appid + [|keyHandle|] + keyHandle + [0, 0]
  {
    var data := U2f.AuthenticateData(challenge, appid, keyHandle);
    U2fRequest(0x02, 0x03, data);
    var front: seq<byte> := [0, 2, 3, 0, 0, |data| / 256, |data| % 256];
    assert front + data == front + challenge + appid + [|keyHandle|] + keyHandle;
  }

  /** A registration is accepted by its first byte, its key and its lengths, and taken apart by position. */
  lemma RegistrationRead(isKey: seq<byte> -> bool, resp: seq<byte>)
    ensures var r := U2f.ParseRegistration(isKey, resp);
            && (r.Ok? <==> |resp| >= 67 && resp[0] == 5 && isKey(resp[1..66]) && |resp| >= 67 + resp[66] as int)
            && (r.Ok? ==> r.value == (resp[1..66], resp[67..67 + resp[66] as int]))
  {
  }

  /** Presence and counter of an authentication, most significant byte first. */
  lemma AuthenticationRead(isDer: seq<byte> -> bool, resp: seq<byte>)
    requires |resp| >= 6 && isDer(resp[5..])
    ensures U2f.ParseAuthentication(isDer, resp) == Ok(U2f.Authentication(
              resp[0],
              0x100_0000 * (resp[1] as int) + 0x1_0000 * (resp[2] as int) + 256 * (resp[3] as int) + resp[4] as int,
              resp[5..]))
  {
    FromBe32Bytes(resp[1..5]);
  }

  // ---------------------------------------------------------------- PIV

  lemma PivRequest(c: Piv.Command)
    ensures Piv.Apdu(c) == [c.cla, c.ins, c.p1, c.p2, |c.data| % 256] + c.data + [0]
  {
  }

  lemma GetDataRequest(tag: seq<byte>)
    requires |tag| <= 253
    ensures Piv.Apdu(Piv.Command(0x00, 0xcb, 0x3f, 0xff, Piv.TagList(tag))) ==
            [0x00, 0xcb, 0x3f, 0xff, |tag| + 2, 0x5c, |tag|] + tag + [0]
  {
    var list := Piv.TagList(tag);
    assert [0x00, 0xcb, 0x3f, 0xff, |tag| + 2] + list == [0x00, 0xcb, 0x3f, 0xff, |tag| + 2, 0x5c, |tag|] + tag;
  }

  lemma GeneralAuthenticateRequest(challenge: seq<byte>)
    requires |challenge| == 32
    ensures Piv.Apdu(Piv.Command(0x00, 0x87, 0x11, 0x9a, Piv.AuthData(challenge))) ==
            [0x00, 0x87, 0x11, 0x9a, 38, 0x7c, 36, 0x82, 0, 0x81, 32] + challenge + [0]
  {
    var data := Piv.AuthData(challenge);
    assert data == [0x7c, 36, 0x82, 0, 0x81, 32] + challenge;
    var header: seq<byte> := [0x00, 0x87, 0x11, 0x9a, 38];
    assert header + data == [0x00, 0x87, 0x11, 0x9a, 38, 0x7c, 36, 0x82, 0, 0x81, 32] + challenge;
  }

  /** A card's reply to which the chaining loop answers. */
  predicate AsksForMore(reply: Piv.Reply) {
    reply.Response? && |reply.bytes| >= 2 && reply.bytes[|reply.bytes| - 2] == 0x61
  }

  /** GET RESPONSE for what the last byte of such a reply names. */
  function FollowUp(reply: Piv.Reply): seq<byte>
    requires AsksForMore(reply)
  {
    [0x00, 0xc0, 0x00, 0x00, reply.bytes[|reply.bytes| - 1]]
  }

  /** `command` first, then one follow-up for each reply that asks for more, up to the first that does not. */
  predicate Follows(sent: seq<seq<byte>>, command: seq<byte>, replies: seq<Piv.Reply>) {
    && 1 <= |sent| <= |replies| + 1 && sent[0] == command
    && (forall i :: 0 <= i < |sent| - 1 ==> AsksForMore(replies[i]) && sent[i + 1] == FollowUp(replies[i]))
    && (|sent| <= |replies| ==> !AsksForMore(replies[|sent| - 1]))
  }

  lemma FollowsOneMore(later: seq<seq<byte>>, command: seq<byte>, first: Piv.Reply, others: seq<Piv.Reply>)
    requires AsksForMore(first) && Follows(later, FollowUp(first), others)
    ensures Follows([command] + later, command, [first] + others)
  {
    var sent, replies := [command] + later, [first] + others;
    forall i | 0 <= i < |sent| - 1
      ensures AsksForMore(replies[i]) && sent[i + 1] == FollowUp(replies[i])
    {
      if i > 0 {
        assert sent[i + 1] == later[(i - 1) + 1];
      }
    }
  }

  lemma LastTurn(out: seq<byte>, command: seq<byte>, replies: seq<Piv.Reply>)
    requires replies == [] || !AsksForMore(replies[0])
    ensures Piv.Transmitted(out, command, replies).sent == [command]
  {
    if replies != [] && replies[0].Response? && |replies[0].bytes| >= 2 {
      StatusRead(replies[0].bytes);
    }
  }

  lemma FurtherTurn(out: seq<byte>, command: seq<byte>, first: Piv.Reply, others: seq<Piv.Reply>)
    returns (out': seq<byte>)
    requires AsksForMore(first)
    ensures Piv.Transmitted(out, command, [first] + others).sent
         == [command] + Piv.Transmitted(out', FollowUp(first), others).sent
  {
    StatusRead(first.bytes);
    out' := out + first.bytes[..|first.bytes| - 2];
    assert ([first] + others)[1..] == others;
  }

  /** Whatever the card replies, these are the commands it is sent. */
  lemma {:induction false} CommandsSent(out: seq<byte>, command: seq<byte>, replies: seq<Piv.Reply>)
    ensures Follows(Piv.Transmitted(out, command, replies).sent, command, replies)
    decreases |replies|
  {
    if replies == [] || !AsksForMore(replies[0]) {
      LastTurn(out, command, replies);
    } else {
      var first, others := replies[0], replies[1..];
      assert replies == [first] + others;
      var out' := FurtherTurn(out, command, first, others);
      CommandsSent(out', FollowUp(first), others);
      FollowsOneMore(Piv.Transmitted(out', FollowUp(first), others).sent, command, first, others);
    }
  }

  lemma StatusRead(bytes: seq<byte>)
    requires |bytes| >= 2
    ensures Piv.SplitSw(bytes) == Ok((bytes[..|bytes| - 2],
                                      256 * (bytes[|bytes| - 2] as int) + bytes[|bytes| - 1] as int))
  {
  }

  // ---------------------------------------------------------------- BER-TLV

  /** The three forms of a length, by their first byte. */
  lemma LengthForms(tag: byte, n: byte, high: byte, low: byte, value: seq<byte>, rest: seq<byte>)
    ensures |value| == n as int && n != 0x81 && n != 0x82 ==>
              Tlv.ReadTlv([tag, n] + value + rest) == Some(Tlv.Parts(tag, value, rest))
    ensures |value| == n as int ==>
              Tlv.ReadTlv([tag, 0x81, n] + value + rest) == Some(Tlv.Parts(tag, value, rest))
    ensures |value| == 256 * (high as int) + low as int ==>
              Tlv.ReadTlv([tag, 0x82, high, low] + value + rest) == Some(Tlv.Parts(tag, value, rest))
  {
    if |value| == n as int && n != 0x81 && n != 0x82 {
      assert [tag] + [n] == [tag, n];
      Tlv.ReadForm(tag, [n], value, rest);
    }
    if |value| == n as int {
      assert [tag] + [0x81, n] == [tag, 0x81, n];
      Tlv.ReadForm(tag, [0x81, n], value, rest);
    }
    if |value| == 256 * (high as int) + low as int {
      assert [0x82] + Be16(|value|) == [0x82, high, low];
      assert [tag] + [0x82, high, low] == [tag, 0x82, high, low];
      Tlv.ReadForm(tag, [0x82, high, low], value, rest);
    }
  }

  // ---------------------------------------------------------------- length prefixes

  lemma FrameOnTheWire(chunk: seq<byte>)
    ensures var n := |chunk|;
            Framing.Frame(chunk) == [n / 0x100_0000 % 256, n / 0x1_0000 % 256, n / 256 % 256, n % 256] + chunk
  {
    Be32Bytes(|chunk|);
  }

  /** And how both readers take its length. */
  lemma PrefixRead(a: byte, b: byte, c: byte, d: byte, payload: seq<byte>, rest: seq<byte>)
    requires |payload| == 0x100_0000 * (a as int) + 0x1_0000 * (b as int) + 256 * (c as int) + d as int
    ensures Framing.FirstFrame([a, b, c, d] + payload + rest) == Some((payload, rest))
  {
    FromBe32Bytes([a, b, c, d]);
    Framing.TakenOff([a, b, c, d], payload, rest);
  }

  lemma SavedOnDisk(identity: seq<byte>, bundle: seq<byte>)
    ensures var n := |identity|;
            StateFile.Saved(identity, bundle) ==
            [n / 0x100_0000 % 256, n / 0x1_0000 % 256, n / 256 % 256, n % 256] + identity + bundle
  {
    Be32Bytes(|identity|);
  }
}
