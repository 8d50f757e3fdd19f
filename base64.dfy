/**
 * The base 64 encoding of section 4 of RFC 4648 (alphabet of Table 1, '=' padding),
 * which `Buffer.prototype.toString("base64")` produces.
 */
module Base64 {
  import opened Results
  import opened Bytes

  /** The character that encodes a 6-bit value (Table 1 of RFC 4648). */
  function SextetChar(n: nat): (c: char)
    requires n < 64
    ensures SextetValue(c) == Some(n)
  {
    if n < 26 then ('A' as int + n) as char
    else if n < 52 then ('a' as int + (n - 26)) as char
    else if n < 62 then ('0' as int + (n - 52)) as char
    else if n == 62 then '+'
    else '/'
  }

  /** The 6-bit value a character of the alphabet stands for; None for '=' and every other character. */
  function SextetValue(c: char): (v: Option<nat>)
    ensures v.Some? ==> v.value < 64
  {
    if 'A' <= c <= 'Z' then Some(c as int - 'A' as int)
    else if 'a' <= c <= 'z' then Some(c as int - 'a' as int + 26)
    else if '0' <= c <= '9' then Some(c as int - '0' as int + 52)
    else if c == '+' then Some(62)
    else if c == '/' then Some(63)
    else None
  }

  /** Every 24-bit group becomes four characters; a final group of one or two octets is padded with '='. */
  function Encode(b: seq<byte>): (s: string)
    decreases |b|
  {
    if |b| == 0 then ""
    else if |b| == 1 then
      [SextetChar(b[0] / 4), SextetChar(b[0] % 4 * 16), '=', '=']
    else if |b| == 2 then
      [SextetChar(b[0] / 4), SextetChar(b[0] % 4 * 16 + b[1] / 16), SextetChar(b[1] % 16 * 4), '=']
    else
      [SextetChar(b[0] / 4), SextetChar(b[0] % 4 * 16 + b[1] / 16),
       SextetChar(b[1] % 16 * 4 + b[2] / 64), SextetChar(b[2] % 64)] + Encode(b[3..])
  }

  /** The three octets of a full group of four sextets. */
  function GroupOctets(v0: nat, v1: nat, v2: nat, v3: nat): seq<byte>
    requires v0 < 64 && v1 < 64 && v2 < 64 && v3 < 64
  {
    [v0 * 4 + v1 / 16, v1 % 16 * 16 + v2 / 4, v2 % 4 * 64 + v3]
  }

  /** The octet of a final group of two sextets and two pads. */
  function SingleOctet(v0: nat, v1: nat): seq<byte>
    requires v0 < 64 && v1 < 64
  {
    [v0 * 4 + v1 / 16]
  }

  /** The two octets of a final group of three sextets and one pad. */
  function PairOctets(v0: nat, v1: nat, v2: nat): seq<byte>
    requires v0 < 64 && v1 < 64 && v2 < 64
  {
    [v0 * 4 + v1 / 16, v1 % 16 * 16 + v2 / 4]
  }

  /** Reads four characters at a time back into octets; None on a character outside the alphabet or a bad length. */
  function Decode(s: string): (r: Option<seq<byte>>)
    decreases |s|
  {
    if |s| == 0 then Some([])
    else if |s| < 4 then None
    else
      var v0, v1, v2, v3 := SextetValue(s[0]), SextetValue(s[1]), SextetValue(s[2]), SextetValue(s[3]);
      if v0.None? || v1.None? then None
      else if |s| == 4 && s[2] == '=' && s[3] == '=' then
        Some(SingleOctet(v0.value, v1.value))
      else if v2.None? then None
      else if |s| == 4 && s[3] == '=' then
        Some(PairOctets(v0.value, v1.value, v2.value))
      else if v3.None? then None
      else
        match Decode(s[4..])
        case None => None
        case Some(rest) =>
          Some(GroupOctets(v0.value, v1.value, v2.value, v3.value) + rest)
  }

  /** The arithmetic of one full group: the sextets of three octets give back the three octets. */
  lemma FullGroup(x: byte, y: byte, z: byte)
    ensures (x / 4) * 4 + (x % 4 * 16 + y / 16) / 16 == x
    ensures (x % 4 * 16 + y / 16) % 16 * 16 + (y % 16 * 4 + z / 64) / 4 == y
    ensures GroupOctets(x / 4, x % 4 * 16 + y / 16, y % 16 * 4 + z / 64, z % 64) == [x, y, z]
  {
    assert (x % 4 * 16 + y / 16) / 16 == x % 4;
    assert (x % 4 * 16 + y / 16) % 16 == y / 16;
    assert (y % 16 * 4 + z / 64) / 4 == y % 16;
    assert (y % 16 * 4 + z / 64) % 4 == z / 64;
  }

  /** Decoding a full group of alphabet characters followed by decodable text. */
  lemma DecodeGroup(c0: char, c1: char, c2: char, c3: char, rest: string, octets: seq<byte>)
    requires SextetValue(c0).Some? && SextetValue(c1).Some? && SextetValue(c2).Some? && SextetValue(c3).Some?
    requires Decode(rest) == Some(octets)
    ensures Decode([c0, c1, c2, c3] + rest)
      == Some(GroupOctets(SextetValue(c0).value, SextetValue(c1).value, SextetValue(c2).value, SextetValue(c3).value) + octets)
  {
    var s := [c0, c1, c2, c3] + rest;
    assert s[0] == c0 && s[1] == c1 && s[2] == c2 && s[3] == c3;
    assert s[4..] == rest;
  }

  lemma {:induction false} DecodeEncodeLong(b: seq<byte>)
    requires |b| >= 3
    requires Decode(Encode(b[3..])) == Some(b[3..])
    ensures Decode(Encode(b)) == Some(b)
  {
    var n0, n1, n2, n3 := b[0] / 4, b[0] % 4 * 16 + b[1] / 16, b[1] % 16 * 4 + b[2] / 64, b[2] % 64;
    var c0, c1, c2, c3 := SextetChar(n0), SextetChar(n1), SextetChar(n2), SextetChar(n3);
    assert Encode(b) == [c0, c1, c2, c3] + Encode(b[3..]);
    DecodeGroup(c0, c1, c2, c3, Encode(b[3..]), b[3..]);
    FullGroup(b[0], b[1], b[2]);
    assert b == [b[0], b[1], b[2]] + b[3..];
  }

  /** Decoding a final group of two alphabet characters and two pads. */
  lemma DecodePadded2(c0: char, c1: char)
    requires SextetValue(c0).Some? && SextetValue(c1).Some?
    ensures Decode([c0, c1, '=', '=']) == Some(SingleOctet(SextetValue(c0).value, SextetValue(c1).value))
  {
    var s := [c0, c1, '=', '='];
    assert s[0] == c0 && s[1] == c1 && s[2] == '=' && s[3] == '=';
  }

  /** Decoding a final group of three alphabet characters and one pad. */
  lemma DecodePadded1(c0: char, c1: char, c2: char)
    requires SextetValue(c0).Some? && SextetValue(c1).Some? && SextetValue(c2).Some?
    ensures Decode([c0, c1, c2, '='])
      == Some(PairOctets(SextetValue(c0).value, SextetValue(c1).value, SextetValue(c2).value))
  {
    var s := [c0, c1, c2, '='];
    assert s[0] == c0 && s[1] == c1 && s[2] == c2 && s[3] == '=';
  }

  /** The arithmetic of a final group of one octet. */
  lemma OneOctet(x: byte)
    ensures SingleOctet(x / 4, x % 4 * 16) == [x]
  {
    assert (x % 4 * 16) / 16 == x % 4;
  }

  /** The arithmetic of a final group of two octets. */
  lemma TwoOctets(x: byte, y: byte)
    ensures PairOctets(x / 4, x % 4 * 16 + y / 16, y % 16 * 4) == [x, y]
  {
    assert (x % 4 * 16 + y / 16) / 16 == x % 4;
    assert (x % 4 * 16 + y / 16) % 16 == y / 16;
    assert (y % 16 * 4) / 4 == y % 16;
  }

  /** A final group of one octet. */
  lemma DecodeEncodeOne(b: seq<byte>)
    requires |b| == 1
    ensures Decode(Encode(b)) == Some(b)
  {
    var c0, c1 := SextetChar(b[0] / 4), SextetChar(b[0] % 4 * 16);
    assert Encode(b) == [c0, c1, '=', '='];
    DecodePadded2(c0, c1);
    OneOctet(b[0]);
    assert b == [b[0]];
  }

  /** A final group of two octets. */
  lemma DecodeEncodeTwo(b: seq<byte>)
    requires |b| == 2
    ensures Decode(Encode(b)) == Some(b)
  {
    var n0, n1, n2 := b[0] / 4, b[0] % 4 * 16 + b[1] / 16, b[1] % 16 * 4;
    var c0, c1, c2 := SextetChar(n0), SextetChar(n1), SextetChar(n2);
    assert Encode(b) == [c0, c1, c2, '='];
    DecodePadded1(c0, c1, c2);
    TwoOctets(b[0], b[1]);
    assert b == [b[0], b[1]];
  }

  /** Decoding undoes encoding. */
  lemma {:induction false} DecodeEncode(b: seq<byte>)
    ensures Decode(Encode(b)) == Some(b)
    decreases |b|
  {
    if |b| == 1 {
      DecodeEncodeOne(b);
    } else if |b| == 2 {
      DecodeEncodeTwo(b);
    } else if |b| >= 3 {
      DecodeEncode(b[3..]);
      DecodeEncodeLong(b);
    }
  }

  /** Four characters per started group of three octets. */
  lemma {:induction false} EncodedLength(b: seq<byte>)
    ensures |Encode(b)| == (|b| + 2) / 3 * 4
    decreases |b|
  {
    if |b| >= 3 {
      EncodedLength(b[3..]);
      assert (|b| + 2) / 3 == (|b[3..]| + 2) / 3 + 1;
    }
  }
}
