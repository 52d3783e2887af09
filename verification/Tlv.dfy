/** BER-TLV with one-byte tags and short, 0x81 or 0x82 lengths: the reader, the search, an encoder. */
module Tlv {
  import opened Bytes
  import opened Wrappers

  datatype Parts = Parts(tag: byte, value: seq<byte>, rest: seq<byte>)

  /** How far `read_tlv` gets with the length: its value and where the value starts. */
  function ReadLength(data: seq<byte>): Option<(nat, nat)> {
    if |data| < 2 then None
    else if data[1] == 0x81 then
      if |data| < 3 then None else Some((data[2], 3))
    else if data[1] == 0x82 then
      if |data| < 4 then None else Some((256 * (data[2] as int) + data[3] as int, 4))
    else Some((data[1], 2))
  }

  function ReadTlv(data: seq<byte>): (parts: Option<Parts>)
    ensures parts.Some? ==> |parts.value.rest| + |parts.value.value| + 2 <= |data|
  {
    match ReadLength(data)
    case None => None
    case Some((length, header)) =>
      if header + length > |data| then None
      else Some(Parts(data[0], data[header..header + length], data[header + length..]))
  }

  /** The first value tagged `tag`; nothing, if there is none or the data breaks off before it. */
  function FirstTlv(data: seq<byte>, tag: byte): Option<seq<byte>>
    decreases |data|
  {
    if data == [] then None
    else
      match ReadTlv(data)
      case None => None
      case Some(parts) => if parts.tag == tag then Some(parts.value) else FirstTlv(parts.rest, tag)
  }

  datatype UnwrapError = Truncated | WrongTag(found: byte)

  function UnwrapTlv(data: seq<byte>, tag: byte): Result<seq<byte>, UnwrapError> {
    match ReadTlv(data)
    case None => Err(Truncated)
    case Some(parts) => if parts.tag != tag then Err(WrongTag(parts.tag)) else Ok(parts.value)
  }

  // ---------------------------------------------------------------- what the reader accepts

  /** `form` is read as the length `n`. */
  predicate IsLength(form: seq<byte>, n: nat) {
    || (form == [n % 256] && n < 256 && n != 0x81 && n != 0x82)
    || (form == [0x81, n % 256] && n < 256)
    || (form == [0x82] + Be16(n) && n < 0x1_0000)
  }

  lemma LengthRead(tag: byte, form: seq<byte>, n: nat, others: seq<byte>)
    requires IsLength(form, n)
    ensures ReadLength([tag] + form + others) == Some((n, 1 + |form|))
  {
    var data := [tag] + form + others;
    assert data[1] == form[0];
    if form == [0x82] + Be16(n) && n < 0x1_0000 {
      Be16RoundTrip(n);
      assert data[2] == Be16(n)[0] && data[3] == Be16(n)[1];
    } else if |form| == 2 {
      assert data[2] == form[1];
    }
  }

  lemma LengthWritten(data: seq<byte>)
    requires ReadLength(data).Some?
    ensures var (n, header) := ReadLength(data).value; 2 <= header <= |data| && IsLength(data[1..header], n)
  {
    if data[1] == 0x82 {
      var digits := data[2..4];
      FromBe16RoundTrip(digits);
      assert data[1..4] == [0x82] + digits;
    } else if data[1] == 0x81 {
      assert data[1..3] == [0x81, data[2]];
    } else {
      assert data[1..2] == [data[1]];
    }
  }

  lemma ReadForm(tag: byte, form: seq<byte>, value: seq<byte>, rest: seq<byte>)
    requires IsLength(form, |value|)
    ensures ReadTlv([tag] + form + value + rest) == Some(Parts(tag, value, rest))
  {
    var front := [tag] + form;
    var data := front + value + rest;
    Regroup(front, value, rest);
    LengthRead(tag, form, |value|, value + rest);
    assert data[|front|..|front| + |value|] == value && data[|front| + |value|..] == rest;
  }

  /** On arbitrary bytes: the reader takes apart exactly what some length form puts together. */
  lemma ReadExactly(data: seq<byte>, tag: byte, value: seq<byte>, rest: seq<byte>)
    ensures ReadTlv(data) == Some(Parts(tag, value, rest))
       <==> exists form :: IsLength(form, |value|) && data == [tag] + form + value + rest
  {
    if ReadTlv(data) == Some(Parts(tag, value, rest)) {
      LengthWritten(data);
      var form := data[1..ReadLength(data).value.1];
      assert data == [tag] + form + value + rest;
    }
    forall form | IsLength(form, |value|) && data == [tag] + form + value + rest
      ensures ReadTlv(data) == Some(Parts(tag, value, rest))
    {
      ReadForm(tag, form, value, rest);
    }
  }

  /**
   `unwrap_tlv` succeeds exactly if the data begin with a TLV of that tag, whatever follows it.
   */
  lemma UnwrapExactly(data: seq<byte>, tag: byte, value: seq<byte>)
    ensures UnwrapTlv(data, tag) == Ok(value)
       <==> exists form, rest :: IsLength(form, |value|) && data == [tag] + form + value + rest
  {
    if UnwrapTlv(data, tag) == Ok(value) {
      var rest := ReadTlv(data).value.rest;
      ReadExactly(data, tag, value, rest);
      var form :| IsLength(form, |value|) && data == [tag] + form + value + rest;
    }
    forall form, rest | IsLength(form, |value|) && data == [tag] + form + value + rest
      ensures UnwrapTlv(data, tag) == Ok(value)
    {
      ReadForm(tag, form, value, rest);
    }
  }

  /** The TLV spans the whole buffer exactly if the reader leaves nothing behind it. */
  lemma SpansExactly(data: seq<byte>, tag: byte, value: seq<byte>)
    requires UnwrapTlv(data, tag) == Ok(value)
    ensures (exists form :: IsLength(form, |value|) && data == [tag] + form + value) <==> ReadTlv(data).value.rest == []
  {
    var rest := ReadTlv(data).value.rest;
    ReadExactly(data, tag, value, rest);
    var whole :| IsLength(whole, |value|) && data == [tag] + whole + value + rest;
    forall form | IsLength(form, |value|) && data == [tag] + form + value
      ensures rest == []
    {
      assert data == [tag] + form + value + [];
      ReadForm(tag, form, value, []);
    }
    if rest == [] {
      assert data == [tag] + whole + value;
    }
  }

  /** An empty object with a byte behind it is unwrapped, though it does not span the buffer. */
  lemma TrailingByteIgnored()
    ensures UnwrapTlv([0x53, 0x00, 0xff], 0x53) == Ok([]) && ReadTlv([0x53, 0x00, 0xff]).value.rest == [0xff]
  {
  }

  // ---------------------------------------------------------------- the search on arbitrary bytes

  /** A TLV as it stands in the data, its length in any form the reader takes. */
  datatype Field = Field(tag: byte, form: seq<byte>, value: seq<byte>)

  predicate ValidField(f: Field) {
    IsLength(f.form, |f.value|)
  }

  function FieldBytes(f: Field): seq<byte> {
    [f.tag] + f.form + f.value
  }

  function AllFieldBytes(fields: seq<Field>): seq<byte> {
    if fields == [] then [] else FieldBytes(fields[0]) + AllFieldBytes(fields[1..])
  }

  /** `data` begin with `fields`, none of them tagged `tag`, and then `rest`. */
  predicate Passes(data: seq<byte>, tag: byte, fields: seq<Field>, rest: seq<byte>) {
    && (forall f <- fields :: ValidField(f) && f.tag != tag)
    && data == AllFieldBytes(fields) + rest
  }

  /** Fields with other tags, then one with this tag and value. */
  predicate Hit(data: seq<byte>, tag: byte, value: seq<byte>, fields: seq<Field>, form: seq<byte>, rest: seq<byte>) {
    IsLength(form, |value|) && Passes(data, tag, fields, FieldBytes(Field(tag, form, value)) + rest)
  }

  /** Fields with other tags, then the end of the data or something that is no TLV. */
  predicate Miss(data: seq<byte>, tag: byte, fields: seq<Field>, rest: seq<byte>) {
    (rest == [] || ReadTlv(rest).None?) && Passes(data, tag, fields, rest)
  }

  /** The search goes past fields with other tags. */
  lemma {:induction false} SearchPasses(data: seq<byte>, tag: byte, fields: seq<Field>, rest: seq<byte>)
    requires Passes(data, tag, fields, rest)
    ensures FirstTlv(data, tag) == FirstTlv(rest, tag)
    decreases |fields|
  {
    if fields == [] {
      assert data == rest;
    } else {
      var f, others := fields[0], AllFieldBytes(fields[1..]) + rest;
      assert f in fields;
      Regroup(FieldBytes(f), AllFieldBytes(fields[1..]), rest);
      ReadForm(f.tag, f.form, f.value, others);
      assert ReadTlv(data) == Some(Parts(f.tag, f.value, others));
      SearchPasses(others, tag, fields[1..], rest);
    }
  }

  lemma PassesOneMore(data: seq<byte>, tag: byte, f: Field, others: seq<byte>, fields: seq<Field>, rest: seq<byte>)
    requires ValidField(f) && f.tag != tag && data == FieldBytes(f) + others && Passes(others, tag, fields, rest)
    ensures Passes(data, tag, [f] + fields, rest)
  {
    assert ([f] + fields)[1..] == fields;
    Regroup(FieldBytes(f), AllFieldBytes(fields), rest);
  }

  /** What the search has gone past when it ends, whatever the data. */
  lemma {:induction false} SearchEnds(data: seq<byte>, tag: byte)
    returns (fields: seq<Field>, form: seq<byte>, rest: seq<byte>)
    ensures match FirstTlv(data, tag)
            case Some(value) => Hit(data, tag, value, fields, form, rest)
            case None => Miss(data, tag, fields, rest)
    decreases |data|
  {
    if data == [] || ReadTlv(data).None? {
      fields, form, rest := [], [], data;
      assert data == [] + data;
    } else {
      var parts := ReadTlv(data).value;
      ReadExactly(data, parts.tag, parts.value, parts.rest);
      var read :| IsLength(read, |parts.value|) && data == [parts.tag] + read + parts.value + parts.rest;
      var f := Field(parts.tag, read, parts.value);
      if parts.tag == tag {
        fields, form, rest := [], read, parts.rest;
        assert data == [] + (FieldBytes(f) + rest);
      } else {
        var later;
        later, form, rest := SearchEnds(parts.rest, tag);
        fields := [f] + later;
        var found := FirstTlv(data, tag);
        var behind := if found.Some? then FieldBytes(Field(tag, form, found.value)) + rest else rest;
        PassesOneMore(data, tag, f, parts.rest, later, behind);
      }
    }
  }

  /** A hit is exactly a run of fields with other tags and then one with this tag. */
  lemma FoundExactly(data: seq<byte>, tag: byte, value: seq<byte>)
    ensures FirstTlv(data, tag) == Some(value)
       <==> exists fields, form, rest :: Hit(data, tag, value, fields, form, rest)
  {
    var fields, form, rest := SearchEnds(data, tag);
    forall fields, form, rest | Hit(data, tag, value, fields, form, rest)
      ensures FirstTlv(data, tag) == Some(value)
    {
      SearchPasses(data, tag, fields, FieldBytes(Field(tag, form, value)) + rest);
      ReadForm(tag, form, value, rest);
    }
  }

  /** Nothing is found exactly if such a run goes on to the end, or to where the data break off. */
  lemma MissedExactly(data: seq<byte>, tag: byte)
    ensures FirstTlv(data, tag) == None <==> exists fields, rest :: Miss(data, tag, fields, rest)
  {
    var fields, form, rest := SearchEnds(data, tag);
    forall fields, rest | Miss(data, tag, fields, rest)
      ensures FirstTlv(data, tag) == None
    {
      SearchPasses(data, tag, fields, rest);
    }
  }

  method FindTlv(data: seq<byte>, tag: byte) returns (found: Option<seq<byte>>)
    ensures found == FirstTlv(data, tag)
    ensures found.Some? ==> exists fields, form, rest :: Hit(data, tag, found.value, fields, form, rest)
    ensures found.None? ==> exists fields, rest :: Miss(data, tag, fields, rest)
  {
    ghost var _, _, _ := SearchEnds(data, tag);
    var rest := data;
    while rest != []
      invariant FirstTlv(rest, tag) == FirstTlv(data, tag)
      decreases |rest|
    {
      var read := ReadTlv(rest);
      if read.None? {
        return None;
      }
      if read.value.tag == tag {
        return Some(read.value.value);
      }
      rest := read.value.rest;
    }
    found := None;
  }

  // ---------------------------------------------------------------- the canonical encoder

  type Value = v: seq<byte> | |v| < 0x1_0000
  datatype Item = Item(tag: byte, value: Value)

  /** The shortest definite form. */
  function Length(n: nat): seq<byte>
    requires n < 0x1_0000
  {
    if n < 0x80 then [n] else if n < 0x100 then [0x81, n] else [0x82] + Be16(n)
  }

  function Encode(item: Item): seq<byte> {
    [item.tag] + Length(|item.value|) + item.value
  }

  function EncodeAll(items: seq<Item>): seq<byte> {
    if items == [] then [] else Encode(items[0]) + EncodeAll(items[1..])
  }

  function FirstValue(items: seq<Item>, tag: byte): Option<seq<byte>> {
    if items == [] then None
    else if items[0].tag == tag then Some(items[0].value)
    else FirstValue(items[1..], tag)
  }

  lemma ReadEncoded(item: Item, rest: seq<byte>)
    ensures ReadTlv(Encode(item) + rest) == Some(Parts(item.tag, item.value, rest))
  {
    ReadForm(item.tag, Length(|item.value|), item.value, rest);
  }

  /** `read_tlv` peels the head off an encoded list and leaves the encoding of its tail. */
  lemma ReadPeels(items: seq<Item>)
    requires items != []
    ensures ReadTlv(EncodeAll(items)) == Some(Parts(items[0].tag, items[0].value, EncodeAll(items[1..])))
  {
    ReadEncoded(items[0], EncodeAll(items[1..]));
  }

  /** The search finds the first value of that tag in the list, or else goes on behind it. */
  lemma {:induction false} FirstOfEncoded(items: seq<Item>, tag: byte, tail: seq<byte>)
    ensures FirstTlv(EncodeAll(items) + tail, tag)
         == if FirstValue(items, tag).Some? then FirstValue(items, tag) else FirstTlv(tail, tag)
  {
    if items == [] {
      assert EncodeAll(items) + tail == tail;
    } else {
      var others := EncodeAll(items[1..]) + tail;
      assert EncodeAll(items) + tail == Encode(items[0]) + others;
      ReadEncoded(items[0], others);
      FirstOfEncoded(items[1..], tag, tail);
    }
  }

  /** An item inside another is found through the wrapper, whatever follows the wrapper. */
  lemma FindsNested(outer: byte, items: seq<Item>, tag: byte, tail: seq<byte>)
    requires |EncodeAll(items)| < 0x1_0000
    ensures UnwrapTlv(Encode(Item(outer, EncodeAll(items))) + tail, outer) == Ok(EncodeAll(items))
    ensures FirstTlv(EncodeAll(items), tag) == FirstValue(items, tag)
  {
    ReadEncoded(Item(outer, EncodeAll(items)), tail);
    FirstOfEncoded(items, tag, []);
    assert EncodeAll(items) + [] == EncodeAll(items);
  }
}
