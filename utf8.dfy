/**
 * UTF-8 (section 3 of RFC 3629): the octets `Buffer.from(text)` produces for a string.
 * A Dafny `char` is a Unicode scalar value, so every character has an encoding.
 */
module Utf8 {
  import opened Results
  import opened Bytes

  predicate IsScalar(n: int) {
    0 <= n < 0xD800 || 0xE000 <= n <= 0x10FFFF
  }

  /** The one to four octets that encode one character. */
  function EncodeChar(c: char): (bs: seq<byte>)
    ensures 1 <= |bs| <= 4
    ensures (|bs| == 1) == (c as int < 0x80)
  {
    var n := c as int;
    if n < 0x80 then [n]
    else if n < 0x800 then [0xC0 + n / 64, 0x80 + n % 64]
    else if n < 0x10000 then [0xE0 + n / 4096, 0x80 + n / 64 % 64, 0x80 + n % 64]
    else [0xF0 + n / 262144, 0x80 + n / 4096 % 64, 0x80 + n / 64 % 64, 0x80 + n % 64]
  }

  function Encode(s: string): (bs: seq<byte>)
    ensures |bs| >= |s|
  {
    if s == [] then [] else EncodeChar(s[0]) + Encode(s[1..])
  }

  predicate IsContinuation(b: byte) {
    0x80 <= b < 0xC0
  }

  /** The character at the front of the octets and the number of octets it takes; None if they do not start with one. */
  function DecodeFirst(bs: seq<byte>): (r: Option<(char, nat)>)
    ensures r.Some? ==> 1 <= r.value.1 <= |bs|
  {
    if bs == [] then None
    else if bs[0] < 0x80 then Some((bs[0] as char, 1))
    else if 0xC0 <= bs[0] < 0xE0 && |bs| >= 2 && IsContinuation(bs[1]) then
      var n := (bs[0] as int - 0xC0) * 64 + (bs[1] as int - 0x80);
      if IsScalar(n) then Some((n as char, 2)) else None
    else if 0xE0 <= bs[0] < 0xF0 && |bs| >= 3 && IsContinuation(bs[1]) && IsContinuation(bs[2]) then
      var n := (bs[0] as int - 0xE0) * 4096 + (bs[1] as int - 0x80) * 64 + (bs[2] as int - 0x80);
      if IsScalar(n) then Some((n as char, 3)) else None
    else if 0xF0 <= bs[0] < 0xF8 && |bs| >= 4 && IsContinuation(bs[1]) && IsContinuation(bs[2]) && IsContinuation(bs[3]) then
      var n := (bs[0] as int - 0xF0) * 262144 + (bs[1] as int - 0x80) * 4096 + (bs[2] as int - 0x80) * 64 + (bs[3] as int - 0x80);
      if IsScalar(n) then Some((n as char, 4)) else None
    else None
  }

  function Decode(bs: seq<byte>): Option<string>
    decreases |bs|
  {
    if bs == [] then Some("")
    else match DecodeFirst(bs)
      case None => None
      case Some((c, k)) =>
        match Decode(bs[k..])
        case None => None
        case Some(rest) => Some([c] + rest)
  }

  lemma TwoOctets(n: int)
    requires 0x80 <= n < 0x800
    ensures n / 64 * 64 + n % 64 == n && 2 <= n / 64 < 32
  {
  }

  lemma ThreeOctets(n: int)
    requires 0x800 <= n < 0x10000
    ensures n / 4096 * 4096 + n / 64 % 64 * 64 + n % 64 == n && n / 4096 < 16
  {
    assert n == n / 64 * 64 + n % 64;
    assert n / 64 == n / 4096 * 64 + n / 64 % 64;
  }

  lemma FourOctets(n: int)
    requires 0x10000 <= n <= 0x10FFFF
    ensures n / 262144 * 262144 + n / 4096 % 64 * 4096 + n / 64 % 64 * 64 + n % 64 == n && n / 262144 < 5
  {
    assert n == n / 64 * 64 + n % 64;
    assert n / 64 == n / 4096 * 64 + n / 64 % 64;
    assert n / 4096 == n / 262144 * 64 + n / 4096 % 64;
  }

  lemma DecodeFirstEncodeChar(c: char, tail: seq<byte>)
    ensures DecodeFirst(EncodeChar(c) + tail) == Some((c, |EncodeChar(c)|))
  {
    var n := c as int;
    var bs := EncodeChar(c) + tail;
    if n < 0x80 {
    } else if n < 0x800 {
      TwoOctets(n);
      assert (bs[0] as int - 0xC0) * 64 + (bs[1] as int - 0x80) == n;
    } else if n < 0x10000 {
      ThreeOctets(n);
      assert (bs[0] as int - 0xE0) * 4096 + (bs[1] as int - 0x80) * 64 + (bs[2] as int - 0x80) == n;
    } else {
      FourOctets(n);
      assert (bs[0] as int - 0xF0) * 262144 + (bs[1] as int - 0x80) * 4096 + (bs[2] as int - 0x80) * 64 + (bs[3] as int - 0x80) == n;
    }
  }

  /** Decoding undoes encoding. */
  lemma {:induction false} DecodeEncode(s: string)
    ensures Decode(Encode(s)) == Some(s)
  {
    if s != [] {
      var head := EncodeChar(s[0]);
      DecodeFirstEncodeChar(s[0], Encode(s[1..]));
      assert (head + Encode(s[1..]))[|head|..] == Encode(s[1..]);
      DecodeEncode(s[1..]);
      assert s == [s[0]] + s[1..];
    }
  }
}
