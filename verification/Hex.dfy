/** Hexadecimal text: fixed-width numbers in upper case, byte strings in lower case, and reading either. */
module Hex {
  import opened Basics
  import opened Text

  predicate IsHex(c: char) { '0' <= c <= '9' || 'a' <= c <= 'f' || 'A' <= c <= 'F' }

  predicate AllHex(s: string) { forall i :: 0 <= i < |s| ==> IsHex(s[i]) }

  function HexDigit(c: char): (d: nat)
    requires IsHex(c)
    ensures d < 16
  {
    if c <= '9' then c as int - '0' as int
    else if c <= 'F' then c as int - 'A' as int + 10
    else c as int - 'a' as int + 10
  }

  function UpperHex(d: nat): (c: char)
    requires d < 16
    ensures IsHex(c) && HexDigit(c) == d
  {
    if d < 10 then '0' + d as char else 'A' + (d - 10) as char
  }

  function LowerHex(d: nat): (c: char)
    requires d < 16
    ensures IsHex(c) && HexDigit(c) == d
  {
    if d < 10 then '0' + d as char else 'a' + (d - 10) as char
  }

  /** The low `width` hexadecimal digits of `n`, upper case. */
  function HexNumber(n: nat, width: nat): (s: string)
    ensures |s| == width && AllHex(s)
  {
    if width == 0 then [] else HexNumber(n / 16, width - 1) + [UpperHex(n % 16)]
  }

  function HexValue(s: string): nat
    requires AllHex(s)
  {
    if s == [] then 0 else 16 * HexValue(s[..|s| - 1]) + HexDigit(s[|s| - 1])
  }

  function Pow16(k: nat): nat { if k == 0 then 1 else 16 * Pow16(k - 1) }

  lemma {:induction false} HexNumberValue(n: nat, width: nat)
    requires n < Pow16(width)
    ensures HexValue(HexNumber(n, width)) == n
  {
    if width > 0 {
      HexNumberValue(n / 16, width - 1);
    }
  }

  lemma {:induction false} HexValueBound(s: string)
    requires AllHex(s)
    ensures HexValue(s) < Pow16(|s|)
  {
    if s != [] {
      HexValueBound(s[..|s| - 1]);
    }
  }

  lemma HexWidths()
    ensures Pow16(2) == 0x100 && Pow16(4) == U16_MAX + 1 && Pow16(5) == 0x10_0000 && Pow16(8) == U32_MAX + 1
  {
  }

  function HexEncode(bs: seq<byte>): (s: string)
    ensures |s| == 2 * |bs| && AllHex(s)
  {
    if bs == [] then [] else [LowerHex(bs[0] / 16), LowerHex(bs[0] % 16)] + HexEncode(bs[1..])
  }

  /** Fails on an odd length or a character that is no hexadecimal digit; either case is read. */
  function HexDecode(s: string): (r: Option<seq<byte>>)
    ensures r.Some? ==> |s| == 2 * |r.value| && AllHex(s)
    ensures AllHex(s) && |s| % 2 == 0 ==> r.Some?
  {
    if s == [] then Some([])
    else if |s| == 1 || !IsHex(s[0]) || !IsHex(s[1]) then None
    else
      match HexDecode(s[2..])
      case None => None
      case Some(tail) =>
        assert s == [s[0], s[1]] + s[2..];
        Some([16 * HexDigit(s[0]) + HexDigit(s[1])] + tail)
  }

  lemma HexByte(b: byte, tail: string)
    ensures HexDecode([LowerHex(b / 16), LowerHex(b % 16)] + tail)
      == match HexDecode(tail) case None => None case Some(bs) => Some([b] + bs)
  {
  }

  lemma {:induction false} HexRoundTrip(bs: seq<byte>)
    ensures HexDecode(HexEncode(bs)) == Some(bs)
  {
    if bs != [] {
      HexRoundTrip(bs[1..]);
      HexByte(bs[0], HexEncode(bs[1..]));
      assert [bs[0]] + bs[1..] == bs;
    }
  }

  /** Numbers are printed in upper case. */
  lemma {:induction false} HexNumberUpper(n: nat, width: nat)
    ensures forall c :: c in HexNumber(n, width) ==> '0' <= c <= '9' || 'A' <= c <= 'F'
  {
    if width > 0 {
      HexNumberUpper(n / 16, width - 1);
    }
  }

  /** Bytes are printed in lower case. */
  lemma {:induction false} HexEncodeLower(bs: seq<byte>)
    ensures forall c :: c in HexEncode(bs) ==> '0' <= c <= '9' || 'a' <= c <= 'f'
  {
    if bs != [] {
      HexEncodeLower(bs[1..]);
    }
  }
}
