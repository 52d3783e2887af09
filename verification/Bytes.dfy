/** Machine bytes and the big-endian integers the source reads and writes. */
module Bytes {

  type byte = b: int | 0 <= b < 256

  /** `(n as u16).to_be_bytes()`: the cast keeps the low sixteen bits. */
  function Be16(n: nat): seq<byte> {
    [n / 256 % 256, n % 256]
  }

  /** `(n as u32).to_be_bytes()`: the cast keeps the low thirty-two bits. */
  function Be32(n: nat): seq<byte> {
    Be16(n / 0x1_0000) + Be16(n)
  }

  /** `u16::from_be_bytes`. */
  function FromBe16(s: seq<byte>): (n: nat)
    requires |s| == 2
    ensures n < 0x1_0000
  {
    256 * (s[0] as int) + s[1] as int
  }

  /** `u32::from_be_bytes`. */
  function FromBe32(s: seq<byte>): (n: nat)
    requires |s| == 4
    ensures n < 0x1_0000_0000
  {
    0x1_0000 * FromBe16(s[..2]) + FromBe16(s[2..])
  }

  /** Most significant byte first. */
  lemma Be32Bytes(n: nat)
    ensures Be32(n) == [n / 0x100_0000 % 256, n / 0x1_0000 % 256, n / 256 % 256, n % 256]
  {
    assert n / 0x1_0000 / 256 == n / 0x100_0000;
  }

  lemma FromBe32Bytes(s: seq<byte>)
    requires |s| == 4
    ensures FromBe32(s) == 0x100_0000 * (s[0] as int) + 0x1_0000 * (s[1] as int) + 256 * (s[2] as int) + s[3] as int
  {
  }

  lemma Be16RoundTrip(n: nat)
    ensures FromBe16(Be16(n)) == n % 0x1_0000
  {
  }

  lemma RemainderOf32(q: nat, r: nat)
    requires r < 0x1_0000_0000
    ensures (0x1_0000_0000 * q + r) % 0x1_0000_0000 == r
  {
  }

  lemma DigitsOf32(high: nat, low: nat)
    requires low < 0x1_0000
    ensures (0x1_0000 * high + low) % 0x1_0000_0000 == 0x1_0000 * (high % 0x1_0000) + low
  {
    var q, r := high / 0x1_0000, high % 0x1_0000;
    assert 0x1_0000 * high + low == 0x1_0000_0000 * q + (0x1_0000 * r + low);
    RemainderOf32(q, 0x1_0000 * r + low);
  }

  lemma Be32RoundTrip(n: nat)
    ensures FromBe32(Be32(n)) == n % 0x1_0000_0000
  {
    var high := n / 0x1_0000;
    Be16RoundTrip(high);
    Be16RoundTrip(n);
    assert Be32(n)[..2] == Be16(high) && Be32(n)[2..] == Be16(n);
    DigitsOf32(high, n % 0x1_0000);
  }

  lemma FromBe16RoundTrip(s: seq<byte>)
    requires |s| == 2
    ensures Be16(FromBe16(s)) == s
  {
  }

  lemma Be16IgnoresHighBits(high: nat, low: nat)
    ensures Be16(0x1_0000 * high + low) == Be16(low)
  {
    assert (0x1_0000 * high + low) / 256 == 256 * high + low / 256;
  }

  lemma FromBe32RoundTrip(s: seq<byte>)
    requires |s| == 4
    ensures Be32(FromBe32(s)) == s
  {
    var high, low := FromBe16(s[..2]), FromBe16(s[2..]);
    assert FromBe32(s) / 0x1_0000 == high;
    Be16IgnoresHighBits(high, low);
    FromBe16RoundTrip(s[..2]);
    FromBe16RoundTrip(s[2..]);
    assert s == s[..2] + s[2..];
  }

  function Min(a: nat, b: nat): nat {
    if a < b then a else b
  }

  lemma Regroup<T>(a: seq<T>, b: seq<T>, c: seq<T>)
    ensures a + b + c == a + (b + c)
  {
  }
}
