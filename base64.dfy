/**
 * The base64 encoding of section 4 of RFC 4648 (alphabet `A-Z a-z 0-9 + /`,
 * padded with `=`), which `Buffer.toString('base64')` produces, with the
 * decoder that inverts it.
 */
module Base64 {
  import opened Utf8

  type Sextet = x: int | 0 <= x < 64

  /** Character `v` of the base64 alphabet. */
  function SextetChar(v: Sextet): char {
    if v < 26 then ('A' as int + v) as char
    else if v < 52 then ('a' as int + v - 26) as char
    else if v < 62 then ('0' as int + v - 52) as char
    else if v == 62 then '+'
    else '/'
  }

  predicate IsBase64Char(c: char) {
    'A' <= c <= 'Z' || 'a' <= c <= 'z' || '0' <= c <= '9' || c == '+' || c == '/'
  }

  /** The value of a base64 character. */
  function CharSextet(c: char): (v: Sextet)
    requires IsBase64Char(c)
    ensures SextetChar(v) == c
  {
    if 'A' <= c <= 'Z' then c as int - 'A' as int
    else if 'a' <= c <= 'z' then c as int - 'a' as int + 26
    else if '0' <= c <= '9' then c as int - '0' as int + 52
    else if c == '+' then 62
    else 63
  }

  lemma SextetRoundTrip(v: Sextet)
    ensures IsBase64Char(SextetChar(v)) && CharSextet(SextetChar(v)) == v
  {
  }

  /** Three bytes as four characters. */
  function EncodeGroup(a: Byte, b: Byte, c: Byte): string {
    [SextetChar(a / 4), SextetChar((a % 4) * 16 + b / 16), SextetChar((b % 16) * 4 + c / 64), SextetChar(c % 64)]
  }

  /** `Buffer.from(bytes).toString('base64')`. */
  function Encode(bytes: seq<Byte>): (r: string)
    ensures |r| == 4 * ((|bytes| + 2) / 3) && |r| % 4 == 0
    ensures forall i :: 0 <= i < |r| ==> IsBase64Char(r[i]) || r[i] == '='
    decreases |bytes|
  {
    if |bytes| == 0 then ""
    else if |bytes| == 1 then EncodeGroup(bytes[0], 0, 0)[..2] + "=="
    else if |bytes| == 2 then EncodeGroup(bytes[0], bytes[1], 0)[..3] + "="
    else
      GroupsLength(|bytes|);
      EncodeGroup(bytes[0], bytes[1], bytes[2]) + Encode(bytes[3..])
  }

  /** Each group of three bytes adds four characters. */
  lemma GroupsLength(n: nat)
    requires n >= 3
    ensures 4 + 4 * ((n - 3 + 2) / 3) == 4 * ((n + 2) / 3)
    ensures (4 + 4 * ((n - 3 + 2) / 3)) % 4 == 0
  {
    assert (n + 2) / 3 == (n - 1) / 3 + 1;
  }

  /** Four sextets back to three bytes. */
  function DecodeGroup(w: Sextet, x: Sextet, y: Sextet, z: Sextet): seq<Byte> {
    [w * 4 + x / 16, (x % 16) * 16 + y / 4, (y % 4) * 64 + z]
  }

  predicate IsBase64Text(s: string) {
    forall i :: 0 <= i < |s| ==> IsBase64Char(s[i])
  }

  /** Decoding of a padded base64 text; a malformed group ends the output. */
  function Decode(s: string): seq<Byte>
    requires |s| % 4 == 0
    decreases |s|
  {
    if |s| == 0 then []
    else if |s| == 4 && IsBase64Text(s[..2]) && s[2..] == "==" then
      DecodeGroup(CharSextet(s[0]), CharSextet(s[1]), 0, 0)[..1]
    else if |s| == 4 && IsBase64Text(s[..3]) && s[3] == '=' then
      DecodeGroup(CharSextet(s[0]), CharSextet(s[1]), CharSextet(s[2]), 0)[..2]
    else if IsBase64Text(s[..4]) then
      DecodeGroup(CharSextet(s[0]), CharSextet(s[1]), CharSextet(s[2]), CharSextet(s[3])) + Decode(s[4..])
    else []
  }

  /** The first byte is the first sextet and the top of the second. */
  lemma JoinFirst(a: Byte, b: Byte)
    ensures (a / 4) * 4 + ((a % 4) * 16 + b / 16) / 16 == a
  {
    assert ((a % 4) * 16 + b / 16) / 16 == a % 4;
  }

  /** The second byte is the bottom of the second sextet and the top of the third. */
  lemma JoinSecond(a: Byte, b: Byte, c: Byte)
    ensures (((a % 4) * 16 + b / 16) % 16) * 16 + ((b % 16) * 4 + c / 64) / 4 == b
  {
    assert ((a % 4) * 16 + b / 16) % 16 == b / 16;
    assert ((b % 16) * 4 + c / 64) / 4 == b % 16;
  }

  /** The third byte is the bottom of the third sextet and the fourth. */
  lemma JoinThird(b: Byte, c: Byte)
    ensures (((b % 16) * 4 + c / 64) % 4) * 64 + c % 64 == c
  {
    assert ((b % 16) * 4 + c / 64) % 4 == c / 64;
  }

  /** Four sextets written as characters read back as themselves. */
  lemma SextetsRoundTrip(w: Sextet, x: Sextet, y: Sextet, z: Sextet)
    ensures var g := [SextetChar(w), SextetChar(x), SextetChar(y), SextetChar(z)];
      IsBase64Text(g) && CharSextet(g[0]) == w && CharSextet(g[1]) == x && CharSextet(g[2]) == y && CharSextet(g[3]) == z
  {
    SextetRoundTrip(w);
    SextetRoundTrip(x);
    SextetRoundTrip(y);
    SextetRoundTrip(z);
  }

  /** Three bytes cut into sextets and joined again give the same bytes. */
  lemma SextetsJoin(a: Byte, b: Byte, c: Byte)
    ensures DecodeGroup(a / 4, (a % 4) * 16 + b / 16, (b % 16) * 4 + c / 64, c % 64) == [a, b, c]
  {
    JoinFirst(a, b);
    JoinSecond(a, b, c);
    JoinThird(b, c);
  }

  /** One group decodes to the bytes it encodes. */
  lemma GroupRoundTrip(a: Byte, b: Byte, c: Byte)
    ensures var g := EncodeGroup(a, b, c);
      IsBase64Text(g) && DecodeGroup(CharSextet(g[0]), CharSextet(g[1]), CharSextet(g[2]), CharSextet(g[3])) == [a, b, c]
  {
    SextetsRoundTrip(a / 4, (a % 4) * 16 + b / 16, (b % 16) * 4 + c / 64, c % 64);
    SextetsJoin(a, b, c);
  }

  lemma DecodeEncodeOne(a: Byte)
    ensures Decode(Encode([a])) == [a]
  {
    var e := Encode([a]);
    GroupRoundTrip(a, 0, 0);
    assert e[..2] == EncodeGroup(a, 0, 0)[..2];
    assert e[2..] == "==";
  }

  lemma DecodeEncodeTwo(a: Byte, b: Byte)
    ensures Decode(Encode([a, b])) == [a, b]
  {
    var e := Encode([a, b]);
    GroupRoundTrip(a, b, 0);
    assert e[..3] == EncodeGroup(a, b, 0)[..3];
    assert e[3] == '=';
    assert !(IsBase64Text(e[..2]) && e[2..] == "==") by {
      SextetRoundTrip((b % 16) * 4);
      assert e[2] == SextetChar((b % 16) * 4);
    }
  }

  /** A full group in front decodes on its own. */
  lemma DecodeCons(g: string, rest: string)
    requires |g| == 4 && IsBase64Text(g) && |rest| % 4 == 0
    ensures Decode(g + rest) ==
      DecodeGroup(CharSextet(g[0]), CharSextet(g[1]), CharSextet(g[2]), CharSextet(g[3])) + Decode(rest)
  {
    var e := g + rest;
    assert e[..4] == g && e[4..] == rest;
    assert e[3] == g[3];
    assert e[2..] != "==" by {
      assert |e[2..]| < 2 || e[2..][1] == g[3];
    }
  }

  lemma DecodeEncodeGroup(bytes: seq<Byte>)
    requires |bytes| >= 3
    requires Decode(Encode(bytes[3..])) == bytes[3..]
    ensures Decode(Encode(bytes)) == bytes
  {
    var g := EncodeGroup(bytes[0], bytes[1], bytes[2]);
    var rest := Encode(bytes[3..]);
    assert Encode(bytes) == g + rest;
    GroupRoundTrip(bytes[0], bytes[1], bytes[2]);
    DecodeCons(g, rest);
    SplitThree(bytes);
  }

  lemma SplitThree(bytes: seq<Byte>)
    requires |bytes| >= 3
    ensures bytes == [bytes[0], bytes[1], bytes[2]] + bytes[3..]
  {
  }

  /** Decoding inverts encoding. */
  lemma {:induction false} DecodeEncode(bytes: seq<Byte>)
    ensures Decode(Encode(bytes)) == bytes
    decreases |bytes|
  {
    if |bytes| == 1 {
      assert bytes == [bytes[0]];
      DecodeEncodeOne(bytes[0]);
    } else if |bytes| == 2 {
      assert bytes == [bytes[0], bytes[1]];
      DecodeEncodeTwo(bytes[0], bytes[1]);
    } else if |bytes| >= 3 {
      DecodeEncode(bytes[3..]);
      DecodeEncodeGroup(bytes);
    }
  }

  /** `Buffer.from(text).toString('base64')`. */
  function EncodeText(s: string): (r: string)
    ensures |r| % 4 == 0 && Decode(r) == Utf8.Encode(s)
  {
    DecodeEncode(Utf8.Encode(s));
    Encode(Utf8.Encode(s))
  }
}
