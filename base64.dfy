/** The base 64 encoding of section 4 of RFC 4648, as the keyfob uses it
    through g_base64_encode and g_base64_decode.  Encoding pads the last group
    with '='.  Decoding is lenient the way GLib's is: characters outside the
    alphabet are skipped, '=' counts as a zero digit that suppresses the byte it
    stands for, and a final group of fewer than four characters is dropped. */
module Base64 {

  newtype byte = x: int | 0 <= x < 256

  /** The encoding alphabet of table 1 of RFC 4648. */
  function Digit(i: nat): (c: char)
    requires i < 64
    ensures c != '=' && c != ' ' && c != 0 as char
  {
    if i < 26 then ('A' as int + i) as char
    else if i < 52 then ('a' as int + (i - 26)) as char
    else if i < 62 then ('0' as int + (i - 52)) as char
    else if i == 62 then '+'
    else '/'
  }

  /** The value of a character while decoding: its place in the alphabet, 0 for
      '=', and -1 for a character the decoder skips. */
  function Rank(c: char): (r: int)
    ensures -1 <= r < 64
    ensures c == '=' ==> r == 0
  {
    if 'A' <= c <= 'Z' then c as int - 'A' as int
    else if 'a' <= c <= 'z' then c as int - 'a' as int + 26
    else if '0' <= c <= '9' then c as int - '0' as int + 52
    else if c == '+' then 62
    else if c == '/' then 63
    else if c == '=' then 0
    else -1
  }

  lemma RankOfDigit(i: nat)
    requires i < 64
    ensures Rank(Digit(i)) == i
  {
  }

  /** Characters the decoder reads, none of them a space or a NUL. */
  ghost predicate Readable(s: string)
  {
    forall k | 0 <= k < |s| :: Rank(s[k]) >= 0 && s[k] != ' ' && s[k] != 0 as char
  }

  /** A final single byte: two digits and two pads. */
  function EncodeOne(a: byte): (r: string)
    ensures |r| == 4 && Readable(r) && r[2] == '=' && r[3] == '='
  {
    [Digit(a as int / 4), Digit(a as int % 4 * 16), '=', '=']
  }

  /** A final pair of bytes: three digits and one pad. */
  function EncodeTwo(a: byte, b: byte): (r: string)
    ensures |r| == 4 && Readable(r) && r[2] != '=' && r[3] == '='
  {
    [Digit(a as int / 4), Digit(a as int % 4 * 16 + b as int / 16), Digit(b as int % 16 * 4), '=']
  }

  /** Three bytes: four digits of six bits each. */
  function EncodeThree(a: byte, b: byte, c: byte): (r: string)
    ensures |r| == 4 && Readable(r) && r[2] != '=' && r[3] != '='
  {
    [Digit(a as int / 4), Digit(a as int % 4 * 16 + b as int / 16),
     Digit(b as int % 16 * 4 + c as int / 64), Digit(c as int % 64)]
  }

  /** g_base64_encode: three bytes become four digits; one or two bytes left
      at the end become two or three digits and padding. */
  function Encode(b: seq<byte>): (s: string)
    ensures Readable(s)
    decreases |b|
  {
    if |b| == 0 then ""
    else if |b| == 1 then EncodeOne(b[0])
    else if |b| == 2 then EncodeTwo(b[0], b[1])
    else EncodeThree(b[0], b[1], b[2]) + Encode(b[3..])
  }

  /** The characters the decoder reads. */
  function Significant(s: string): (r: string)
    ensures forall k | 0 <= k < |r| :: Rank(r[k]) >= 0
    ensures |r| <= |s|
  {
    if s == [] then []
    else if Rank(s[0]) >= 0 then [s[0]] + Significant(s[1..])
    else Significant(s[1..])
  }

  /** One group of four characters: the first byte always, the second unless
      the third character is '=', the third unless the fourth is '='. */
  function DecodeGroup(c0: char, c1: char, c2: char, c3: char): (r: seq<byte>)
    requires Rank(c0) >= 0 && Rank(c1) >= 0 && Rank(c2) >= 0 && Rank(c3) >= 0
    ensures 1 <= |r| <= 3
  {
    var x := (Rank(c0) * 4 + Rank(c1) / 16) as byte;
    var y := (Rank(c1) % 16 * 16 + Rank(c2) / 4) as byte;
    var z := (Rank(c2) % 4 * 64 + Rank(c3)) as byte;
    [x] + (if c2 != '=' then [y] else []) + (if c3 != '=' then [z] else [])
  }

  function DecodeGroups(q: string): seq<byte>
    requires forall k | 0 <= k < |q| :: Rank(q[k]) >= 0
    decreases |q|
  {
    if |q| < 4 then [] else DecodeGroup(q[0], q[1], q[2], q[3]) + DecodeGroups(q[4..])
  }

  /** g_base64_decode. */
  function Decode(s: string): seq<byte>
  {
    DecodeGroups(Significant(s))
  }

  /** An encoding holds only characters the decoder reads. */
  lemma {:induction false} SignificantOfEncoding(s: string)
    requires Readable(s)
    ensures Significant(s) == s
    decreases |s|
  {
    if s != [] {
      SignificantOfEncoding(s[1..]);
    }
  }

  /** Decoding undoes encoding, for every byte string. */
  lemma {:induction false} DecodeEncode(b: seq<byte>)
    ensures Decode(Encode(b)) == b
  {
    SignificantOfEncoding(Encode(b));
    DecodeGroupsEncode(b);
  }

  lemma {:induction false} DecodeGroupsEncode(b: seq<byte>)
    ensures DecodeGroups(Encode(b)) == b
    decreases |b|
  {
    if |b| == 1 {
      var g := EncodeOne(b[0]);
      OneByte(b[0]);
      DecodeGroupsStep(g, "");
      assert g + "" == g;
    } else if |b| == 2 {
      var g := EncodeTwo(b[0], b[1]);
      TwoBytes(b[0], b[1]);
      DecodeGroupsStep(g, "");
      assert g + "" == g;
      assert b == [b[0], b[1]];
    } else if |b| >= 3 {
      var g := EncodeThree(b[0], b[1], b[2]);
      ThreeBytes(b[0], b[1], b[2]);
      DecodeGroupsEncode(b[3..]);
      DecodeGroupsStep(g, Encode(b[3..]));
      assert b == b[..3] + b[3..];
    }
  }

  /** The decoder reads a leading group of four and then the rest. */
  lemma DecodeGroupsStep(g: string, rest: string)
    requires |g| == 4 && Readable(g) && Readable(rest)
    ensures Readable(g + rest)
    ensures DecodeGroups(g + rest) == DecodeGroup(g[0], g[1], g[2], g[3]) + DecodeGroups(rest)
  {
    assert (g + rest)[4..] == rest;
  }

  lemma OneByte(a: byte)
    ensures var g := EncodeOne(a); DecodeGroup(g[0], g[1], g[2], g[3]) == [a]
  {
    RankOfDigit(a as int / 4);
    RankOfDigit(a as int % 4 * 16);
  }

  lemma TwoBytes(a: byte, b: byte)
    ensures var g := EncodeTwo(a, b); DecodeGroup(g[0], g[1], g[2], g[3]) == [a, b]
  {
    RankOfDigit(a as int / 4);
    RankOfDigit(a as int % 4 * 16 + b as int / 16);
    RankOfDigit(b as int % 16 * 4);
  }

  lemma ThreeBytes(a: byte, b: byte, c: byte)
    ensures var g := EncodeThree(a, b, c); DecodeGroup(g[0], g[1], g[2], g[3]) == [a, b, c]
  {
    RankOfDigit(a as int / 4);
    RankOfDigit(a as int % 4 * 16 + b as int / 16);
    RankOfDigit(b as int % 16 * 4 + c as int / 64);
    RankOfDigit(c as int % 64);
  }

  /** The ASCII bytes of a string of 8-bit characters. */
  function Bytes(s: string): (r: seq<byte>)
    requires forall k | 0 <= k < |s| :: s[k] as int < 256
    ensures |r| == |s| && forall k | 0 <= k < |s| :: r[k] as int == s[k] as int
  {
    seq(|s|, k requires 0 <= k < |s| => s[k] as int as byte)
  }
}
