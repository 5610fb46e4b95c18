/** UTF-8 encoding of a string (`s.encode('utf-8')`), as RFC 3629 section 3 lays it out. */
module Utf8 {

  newtype byte = x: int | 0 <= x < 256

  /** How many bytes RFC 3629 assigns to a code point, read off its range. */
  function Width(c: char): nat {
    if c as int < 0x80 then 1
    else if c as int < 0x800 then 2
    else if c as int < 0x1_0000 then 3
    else 4
  }

  /** A continuation byte `10xxxxxx`. */
  predicate IsContinuation(b: byte) {
    0x80 <= b < 0xC0
  }

  /** The bytes of one code point: a lead byte whose high bits announce the
      length, then continuation bytes. */
  function EncodeChar(c: char): (bs: seq<byte>)
    ensures |bs| == Width(c)
    ensures |bs| == 1 <==> bs[0] < 0x80
    ensures |bs| == 2 <==> 0xC0 <= bs[0] < 0xE0
    ensures |bs| == 3 <==> 0xE0 <= bs[0] < 0xF0
    ensures |bs| == 4 <==> 0xF0 <= bs[0] < 0xF8
    ensures forall i :: 1 <= i < |bs| ==> IsContinuation(bs[i])
  {
    var cp := c as int;
    if cp < 0x80 then [cp as byte]
    else if cp < 0x800 then [(0xC0 + cp / 64) as byte, (0x80 + cp % 64) as byte]
    else if cp < 0x1_0000 then
      [(0xE0 + cp / 4096) as byte, (0x80 + (cp / 64) % 64) as byte, (0x80 + cp % 64) as byte]
    else
      [(0xF0 + cp / 262144) as byte, (0x80 + (cp / 4096) % 64) as byte,
       (0x80 + (cp / 64) % 64) as byte, (0x80 + cp % 64) as byte]
  }

  /** The code point a well-formed sequence of one to four bytes stands
      for: the payload bits of the lead byte followed by six bits from each
      continuation byte. */
  function DecodeChar(bs: seq<byte>): int
    requires 1 <= |bs| <= 4
  {
    var lead := bs[0] as int;
    var payload := if |bs| == 1 then lead
                   else if |bs| == 2 then lead - 0xC0
                   else if |bs| == 3 then lead - 0xE0
                   else lead - 0xF0;
    Continue(payload, bs[1..])
  }

  /** Shifts in six bits per continuation byte. */
  function Continue(acc: int, rest: seq<byte>): int
    decreases |rest|
  {
    if rest == [] then acc else Continue(acc * 64 + (rest[0] as int - 0x80), rest[1..])
  }

  /** Decoding gives back the encoded code point. */
  lemma DecodeEncodeChar(c: char)
    ensures DecodeChar(EncodeChar(c)) == c as int
  {
    var cp := c as int;
    var bs := EncodeChar(c);
    var low := cp % 64;
    var mid := (cp / 64) % 64;
    var high := (cp / 4096) % 64;
    assert cp == cp / 64 * 64 + low;
    assert cp / 64 == cp / 4096 * 64 + mid;
    assert cp / 4096 == cp / 262144 * 64 + high;
    if cp < 0x80 {
      assert DecodeChar(bs) == Continue(cp, []);
    } else if cp < 0x800 {
      assert DecodeChar(bs) == Continue(cp / 64, [bs[1]]) == cp / 64 * 64 + low;
    } else if cp < 0x1_0000 {
      assert bs[1..] == [bs[1], bs[2]];
      assert DecodeChar(bs) == Continue(cp / 4096, [bs[1], bs[2]]);
      assert Continue(cp / 4096, [bs[1], bs[2]]) == Continue(cp / 64, [bs[2]]);
    } else {
      assert bs[1..] == [bs[1], bs[2], bs[3]];
      assert DecodeChar(bs) == Continue(cp / 262144, [bs[1], bs[2], bs[3]]);
      assert Continue(cp / 262144, [bs[1], bs[2], bs[3]]) == Continue(cp / 4096, [bs[2], bs[3]]);
      assert [bs[2], bs[3]][1..] == [bs[3]];
      assert Continue(cp / 4096, [bs[2], bs[3]]) == Continue(cp / 64, [bs[3]]);
      assert Continue(cp / 64, [bs[3]]) == Continue(cp, []);
    }
  }

  /** `s.encode('utf-8')`. */
  function Encode(s: string): seq<byte> {
    if s == [] then [] else EncodeChar(s[0]) + Encode(s[1..])
  }

  /** The encoded length, summed character by character from `Width`. */
  function ByteLength(s: string): nat {
    if s == [] then 0 else Width(s[0]) + ByteLength(s[1..])
  }

  lemma {:induction false} EncodeLength(s: string)
    ensures |Encode(s)| == ByteLength(s)
    ensures |s| <= |Encode(s)| <= 4 * |s|
  {
    if s != [] {
      EncodeLength(s[1..]);
    }
  }

  /** Pure ASCII text takes one byte per character. */
  lemma {:induction false} AsciiLength(s: string)
    requires forall i :: 0 <= i < |s| ==> s[i] as int < 0x80
    ensures |Encode(s)| == |s|
  {
    if s != [] {
      AsciiLength(s[1..]);
    }
  }

  /** Characters outside the Basic Multilingual Plane take four bytes each. */
  lemma {:induction false} AstralLength(s: string)
    requires forall i :: 0 <= i < |s| ==> s[i] as int >= 0x1_0000
    ensures |Encode(s)| == 4 * |s|
  {
    if s != [] {
      AstralLength(s[1..]);
    }
  }
}
