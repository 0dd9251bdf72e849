/** UTF-8, as in RFC 3629 section 3: the bytes of a string, and how a string is read back from them. */
module Utf8 {
  import opened Basics

  function CodePoint(c: char): nat { c as int }

  function EncodeChar(c: char): (bs: seq<byte>)
    ensures 1 <= |bs| <= 4
  {
    var n := CodePoint(c);
    if n < 0x80 then [n]
    else if n < 0x800 then [0xC0 + n / 0x40, 0x80 + n % 0x40]
    else if n < 0x1_0000 then [0xE0 + n / 0x1000, 0x80 + n / 0x40 % 0x40, 0x80 + n % 0x40]
    else [0xF0 + n / 0x4_0000, 0x80 + n / 0x1000 % 0x40, 0x80 + n / 0x40 % 0x40, 0x80 + n % 0x40]
  }

  function Encode(s: string): seq<byte> {
    if s == [] then [] else EncodeChar(s[0]) + Encode(s[1..])
  }

  /** How many bytes the character that starts with `lead` takes. */
  function Width(lead: byte): nat {
    if lead < 0x80 then 1 else if lead < 0xE0 then 2 else if lead < 0xF0 then 3 else 4
  }

  /** The scalar value of one encoded character, without any check on the bytes. */
  function Scalar(bs: seq<byte>): int
    requires bs != [] && |bs| == Width(bs[0])
  {
    if |bs| == 1 then bs[0]
    else if |bs| == 2 then 0x40 * Payload(bs[0], 0xC0) + Payload(bs[1], 0x80)
    else if |bs| == 3 then 0x1000 * Payload(bs[0], 0xE0) + 0x40 * Payload(bs[1], 0x80) + Payload(bs[2], 0x80)
    else
      0x4_0000 * Payload(bs[0], 0xF0) + 0x1000 * Payload(bs[1], 0x80)
      + 0x40 * Payload(bs[2], 0x80) + Payload(bs[3], 0x80)
  }

  function Payload(b: byte, marker: int): int { (b as int) - marker }

  predicate IsScalar(n: int) { 0 <= n < 0xD800 || 0xE000 <= n < 0x11_0000 }

  function Decode(bs: seq<byte>): Option<string> {
    if bs == [] then Some([])
    else
      var w := Width(bs[0]);
      if |bs| < w || !IsScalar(Scalar(bs[..w])) then None
      else
        match Decode(bs[w..])
        case None => None
        case Some(tail) => Some([Scalar(bs[..w]) as char] + tail)
  }

  lemma CharRoundTrip(c: char)
    ensures Width(EncodeChar(c)[0]) == |EncodeChar(c)|
    ensures Scalar(EncodeChar(c)) == CodePoint(c)
  {
    var n := CodePoint(c);
    assert n / 0x1000 == n / 0x40 / 0x40;
    assert n / 0x4_0000 == n / 0x1000 / 0x40;
  }

  lemma {:induction false} DecodeOfEncode(s: string)
    ensures Decode(Encode(s)) == Some(s)
  {
    if s != [] {
      var first := EncodeChar(s[0]);
      CharRoundTrip(s[0]);
      DecodeOfEncode(s[1..]);
      var bs := first + Encode(s[1..]);
      assert bs[..|first|] == first && bs[|first|..] == Encode(s[1..]);
      assert [s[0]] + s[1..] == s;
    }
  }
}
