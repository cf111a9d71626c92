/** The OAuth token store of the mojito keyfob (mojito-keyfob.c): a token and
    its secret are kept in the keyring as one string, the base 64 encodings of
    the two joined by a space.  The keyring itself is outside the model; its
    answer is an input. */
module Keyfob {
  import opened Wrappers
  import opened Base64
  import Strs

  /** A C string read from a byte buffer: the bytes before the first NUL. */
  function CString(b: seq<byte>): (r: seq<byte>)
    ensures 0 !in r
    ensures |r| <= |b| && r == b[..|r|]
    ensures |r| < |b| ==> b[|r|] == 0
  {
    if b == [] || b[0] == 0 then [] else [b[0]] + CString(b[1..])
  }

  lemma {:induction false} CStringOfCString(b: seq<byte>)
    requires 0 !in b
    ensures CString(b) == b
  {
    if b != [] {
      CStringOfCString(b[1..]);
    }
  }

  /** g_strsplit (s, " ", 2): the text before the first space and everything
      after it, or nothing when there is no space. */
  function SplitOnce(s: string): (r: Option<(string, string)>)
    ensures r.None? <==> ' ' !in s
    ensures r.Some? ==> s == r.value.0 + " " + r.value.1 && ' ' !in r.value.0
  {
    match Strs.IndexOf(s, ' ')
    case None => None
    case Some(i) =>
      assert s == s[..i] + " " + s[i + 1..];
      Some((s[..i], s[i + 1..]))
  }

  /** decode: a string with a space yields the two decoded C strings; one
      without yields nothing. */
  function DecodePair(s: string): (r: Option<(seq<byte>, seq<byte>)>)
    ensures r.Some? <==> ' ' in s
  {
    match SplitOnce(s)
    case None => None
    case Some((t, u)) => Some((CString(Decode(t)), CString(Decode(u))))
  }

  /** encode: the C strings of the token and the secret, each encoded, joined
      by a space. */
  function EncodePair(token: seq<byte>, secret: seq<byte>): (s: string)
    ensures ' ' in s
  {
    Encode(CString(token)) + " " + Encode(CString(secret))
  }

  /** Decoding a stored pair gives back the token and the secret. */
  lemma EncodeThenDecode(token: seq<byte>, secret: seq<byte>)
    ensures DecodePair(EncodePair(token, secret)) == Some((CString(token), CString(secret)))
  {
    var t, u := Encode(CString(token)), Encode(CString(secret));
    var s := EncodePair(token, secret);
    SplitUnique(t, u);
    DecodeEncode(CString(token));
    DecodeEncode(CString(secret));
    CStringOfCString(CString(token));
    CStringOfCString(CString(secret));
  }

  /** A string joined at a space split back at its first space. */
  lemma SplitUnique(t: string, u: string)
    requires ' ' !in t
    ensures SplitOnce(t + " " + u) == Some((t, u))
  {
    var s := t + " " + u;
    assert s[|t|] == ' ';
    assert s[..|t|] == t && s[|t| + 1..] == u;
  }

  /** A keyring answer that decodes sets the proxy's token and secret. */
  class OAuthProxy {
    var token: Option<seq<byte>>
    var tokenSecret: Option<seq<byte>>

    constructor ()
      ensures token == None && tokenSecret == None
    {
      token := None;
      tokenSecret := None;
    }
  }

  /** find_key_cb and mojito_keyfob_oauth_sync: success only when the keyring
      lookup succeeded and the stored string decoded; then, and only then, the
      proxy takes the decoded token and secret. */
  method FoundKey(proxy: OAuthProxy, lookupOk: bool, stored: string) returns (success: bool)
    modifies proxy
    ensures success <==> lookupOk && DecodePair(stored).Some?
    ensures success ==> proxy.token == Some(DecodePair(stored).value.0) &&
                        proxy.tokenSecret == Some(DecodePair(stored).value.1)
    ensures !success ==> proxy.token == old(proxy.token) && proxy.tokenSecret == old(proxy.tokenSecret)
  {
    if !lookupOk {
      return false;
    }
    var pair := DecodePair(stored);
    if pair.None? {
      return false;
    }
    proxy.token := Some(pair.value.0);
    proxy.tokenSecret := Some(pair.value.1);
    success := true;
  }

  /** The in-file tests: one block, with or without valid data, does not
      decode. */
  lemma DecodeOneBlock(s: string)
    requires s == "1234567890" || s == "MTIzNA=="
    ensures DecodePair(s) == None
  {
    assert ' ' !in s;
  }

  /** The in-file test: two blocks decode to the token and the secret. */
  lemma DecodeTwoBlocks(s: string, token: seq<byte>, secret: seq<byte>)
    requires s == "MTIzNA== YWJjZA=="
    requires token == Bytes("1234") && secret == Bytes("abcd")
    ensures DecodePair(s) == Some((token, secret))
  {
    EncodeTokenAbcd(token, secret);
    EncodeThenDecode(token, secret);
  }

  lemma EncodeTokenAbcd(token: seq<byte>, secret: seq<byte>)
    requires token == Bytes("1234") && secret == Bytes("abcd")
    ensures EncodePair(token, secret) == "MTIzNA== YWJjZA=="
    ensures CString(token) == token && CString(secret) == secret
  {
    CStringOfCString(token);
    CStringOfCString(secret);
    Encode1234();
    EncodeAbcd();
  }

  /** Four bytes encode as one full group and one padded group. */
  lemma EncodeFour(b: seq<byte>)
    requires |b| == 4
    ensures Encode(b) == EncodeThree(b[0], b[1], b[2]) + EncodeOne(b[3])
  {
    assert b[3..] == [b[3]];
  }

  lemma Encode1234()
    ensures Encode(Bytes("1234")) == "MTIzNA=="
  {
    var b := Bytes("1234");
    EncodeFour(b);
    assert b[0] == 49 && b[1] == 50 && b[2] == 51 && b[3] == 52;
    Digits1234();
  }

  lemma Digits1234()
    ensures EncodeThree(49, 50, 51) == "MTIz" && EncodeOne(52) == "NA=="
  {
  }

  lemma Encode5678()
    ensures Encode(Bytes("5678")) == "NTY3OA=="
  {
    var b := Bytes("5678");
    EncodeFour(b);
    assert b[0] == 53 && b[1] == 54 && b[2] == 55 && b[3] == 56;
    Digits5678();
  }

  lemma Digits5678()
    ensures EncodeThree(53, 54, 55) == "NTY3" && EncodeOne(56) == "OA=="
  {
  }

  lemma EncodeAbcd()
    ensures Encode(Bytes("abcd")) == "YWJjZA=="
  {
    var b := Bytes("abcd");
    EncodeFour(b);
    assert b[0] == 97 && b[1] == 98 && b[2] == 99 && b[3] == 100;
    DigitsAbcd();
  }

  lemma DigitsAbcd()
    ensures EncodeThree(97, 98, 99) == "YWJj" && EncodeOne(100) == "ZA=="
  {
  }

  /** The in-file encoding test. */
  lemma EncodeExamples(token: seq<byte>, secret: seq<byte>)
    requires token == Bytes("1234") && secret == Bytes("5678")
    ensures EncodePair(token, secret) == "MTIzNA== NTY3OA=="
  {
    CStringOfCString(token);
    CStringOfCString(secret);
    Encode1234();
    Encode5678();
  }
}
