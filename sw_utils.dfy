/** libsocialweb's utilities (sw-utils.c): the in-place unescaper of XML
    entity and character references, the operation id counter and the hash
    of a string dictionary. */
module SwUtils {
  import opened Wrappers

  /** A byte of a C string, read as unsigned. */
  type Byte = b: int | 0 <= b < 256

  const Nul: Byte := 0
  const Amp: Byte := 0x26
  const Semicolon: Byte := 0x3b
  const NumberSign: Byte := 0x23
  const LowerX: Byte := 0x78
  const Minus: Byte := 0x2d
  const Plus: Byte := 0x2b

  /** The five predefined entity names of XML 1.0, as bytes. */
  const QuotName: seq<Byte> := [0x71, 0x75, 0x6f, 0x74]
  const AmpName: seq<Byte> := [0x61, 0x6d, 0x70]
  const AposName: seq<Byte> := [0x61, 0x70, 0x6f, 0x73]
  const LtName: seq<Byte> := [0x6c, 0x74]
  const GtName: seq<Byte> := [0x67, 0x74]

  predicate NoNul(s: seq<Byte>) {
    forall i | 0 <= i < |s| :: s[i] != Nul
  }

  // ---------------------------------------------------------------------
  // The bucket: the bytes after '&' that the code copies before matching.

  /** The length of the bucket counted from k: copying stops at ';', at NUL
      or after nine bytes. */
  function BucketFrom(s: seq<Byte>, k: nat): (n: nat)
    requires k <= 9 && k <= |s|
    ensures k <= n <= 9 && n <= |s|
    ensures k < |s| && s[|s| - 1] == Nul ==> n < |s|
    decreases 9 - k
  {
    if k == 9 || k == |s| || s[k] == Semicolon || s[k] == Nul then k else BucketFrom(s, k + 1)
  }

  function BucketLength(s: seq<Byte>): (n: nat)
    ensures n <= 9 && n <= |s|
    ensures 0 < |s| && s[|s| - 1] == Nul ==> n < |s|
  {
    BucketFrom(s, 0)
  }

  /** The bucket holds no ';' and no NUL, and it ends at the first of them,
      at the end of the bytes, or after nine bytes. */
  lemma {:induction false} BucketStops(s: seq<Byte>, k: nat)
    requires k <= 9 && k <= |s|
    requires forall i | 0 <= i < k :: s[i] != Semicolon && s[i] != Nul
    ensures var n := BucketFrom(s, k);
            (forall i | 0 <= i < n :: s[i] != Semicolon && s[i] != Nul)
            && (n == 9 || n == |s| || s[n] == Semicolon || s[n] == Nul)
    decreases 9 - k
  {
    if !(k == 9 || k == |s| || s[k] == Semicolon || s[k] == Nul) {
      BucketStops(s, k + 1);
    }
  }

  /** The bucket of a NUL-free string followed by a NUL is the bucket of the
      string alone: whatever lies beyond the terminator is never read. */
  lemma {:induction false} BucketStable(t: seq<Byte>, rest: seq<Byte>, k: nat)
    requires NoNul(t) && 0 < |rest| && rest[0] == Nul
    requires k <= 9 && k <= |t|
    ensures BucketFrom(t + rest, k) == BucketFrom(t, k)
    decreases 9 - k
  {
    if k < 9 && k < |t| && t[k] != Semicolon {
      BucketStable(t, rest, k + 1);
    }
  }

  /** The bucket at p when the bytes after p are a NUL-free t and then a
      terminator. */
  lemma BucketOf(buf: seq<Byte>, p: nat, t: seq<Byte>, rest: seq<Byte>)
    requires p < |buf| && buf[p + 1..] == t + rest
    requires NoNul(t) && 0 < |rest| && rest[0] == Nul
    ensures Bucket(buf, p) == t[..BucketLength(t)]
  {
    BucketStable(t, rest, 0);
    var n := BucketLength(t);
    assert (t + rest)[..n] == t[..n];
  }

  // ---------------------------------------------------------------------
  // sscanf's "%u" and "%x" conversions.

  /** isspace in the C locale. */
  predicate IsSpace(b: Byte) {
    b == 0x20 || 0x09 <= b <= 0x0d
  }

  function DigitIn(b: Byte, base: nat): Option<nat>
    requires base == 10 || base == 16
  {
    if 0x30 <= b <= 0x39 then Some(b - 0x30)
    else if base == 16 && 0x61 <= b <= 0x66 then Some(b - 0x61 + 10)
    else if base == 16 && 0x41 <= b <= 0x46 then Some(b - 0x41 + 10)
    else None
  }

  /** How many bytes from k on are digits in the base. */
  function DigitRun(s: seq<Byte>, base: nat, k: nat): (n: nat)
    requires base == 10 || base == 16
    requires k <= |s|
    ensures k <= n <= |s|
    decreases |s| - k
  {
    if k < |s| && DigitIn(s[k], base).Some? then DigitRun(s, base, k + 1) else k
  }

  function Pow(b: nat, e: nat): (p: nat)
    ensures b > 0 ==> p > 0
  {
    if e == 0 then 1 else b * Pow(b, e - 1)
  }

  /** The value of a string of digits, most significant first. */
  function DigitsValue(d: seq<Byte>, base: nat): nat
    requires base == 10 || base == 16
    requires forall i | 0 <= i < |d| :: DigitIn(d[i], base).Some?
  {
    if d == [] then 0
    else DigitsValue(d[..|d| - 1], base) * base + DigitIn(d[|d| - 1], base).value
  }

  lemma {:induction false} DigitsBound(d: seq<Byte>, base: nat)
    requires base == 10 || base == 16
    requires forall i | 0 <= i < |d| :: DigitIn(d[i], base).Some?
    ensures DigitsValue(d, base) < Pow(base, |d|)
  {
    if d != [] {
      var init := d[..|d| - 1];
      DigitsBound(init, base);
      var v := DigitsValue(init, base);
      var last := DigitIn(d[|d| - 1], base).value;
      assert last < base;
      assert v <= Pow(base, |init|) - 1;
      assert v * base <= (Pow(base, |init|) - 1) * base;
    }
  }

  function SkipSpace(s: seq<Byte>, k: nat): (n: nat)
    requires k <= |s|
    ensures k <= n <= |s|
    decreases |s| - k
  {
    if k < |s| && IsSpace(s[k]) then SkipSpace(s, k + 1) else k
  }

  /** The digits sscanf converts: after white space, an optional sign, and
      for base 16 an optional 0x or 0X prefix. */
  function ScannedDigits(s: seq<Byte>, base: nat): (d: seq<Byte>)
    requires base == 10 || base == 16
    ensures |d| <= |s|
    ensures forall i | 0 <= i < |d| :: DigitIn(d[i], base).Some?
  {
    var a := SkipSpace(s, 0);
    var b := if a < |s| && (s[a] == Plus || s[a] == Minus) then a + 1 else a;
    var c := if base == 16 && b + 1 < |s| && s[b] == 0x30 && (s[b + 1] == 0x78 || s[b + 1] == 0x58) then b + 2 else b;
    DigitRunAll(s, base, c);
    s[c..DigitRun(s, base, c)]
  }

  lemma {:induction false} DigitRunAll(s: seq<Byte>, base: nat, k: nat)
    requires base == 10 || base == 16
    requires k <= |s|
    ensures forall i | k <= i < DigitRun(s, base, k) :: DigitIn(s[i], base).Some?
    ensures forall i | 0 <= i < |s[k..DigitRun(s, base, k)]| :: DigitIn(s[k..DigitRun(s, base, k)][i], base).Some?
    decreases |s| - k
  {
    if k < |s| && DigitIn(s[k], base).Some? {
      DigitRunAll(s, base, k + 1);
    }
    var n := DigitRun(s, base, k);
    assert forall i | 0 <= i < n - k :: s[k..n][i] == s[k + i];
  }

  /** sscanf (s, "%u") or (s, "%x") into a gunichar that starts at 0: the
      digits' value as a 32-bit unsigned number, negated when a '-' was read;
      a failed conversion leaves the 0. */
  function Scan(s: seq<Byte>, base: nat): (c: nat)
    requires base == 10 || base == 16
    ensures c < 0x1_0000_0000
  {
    var d := ScannedDigits(s, base);
    var v := DigitsValue(d, base) % 0x1_0000_0000;
    if Negative(s) then (0x1_0000_0000 - v) % 0x1_0000_0000 else v
  }

  /** The number sscanf reads starts with a '-'. */
  predicate Negative(s: seq<Byte>) {
    var a := SkipSpace(s, 0);
    a < |s| && s[a] == Minus
  }

  /** The number a '#' reference carries.  As written, sscanf's reading is
      kept, so a '-' wraps round to a large code point; as intended, a
      signed number is read but a negative one names no character, and the
      reference is left in place. */
  function Number(s: seq<Byte>, base: nat, asWritten: bool): (c: Option<nat>)
    requires base == 10 || base == 16
    ensures c.Some? ==> c.value < 0x1_0000_0000
    ensures c.None? <==> !asWritten && Negative(s)
  {
    if !asWritten && Negative(s) then None else Some(Scan(s, base))
  }

  /** The code point the bucket names: one of the five predefined entities,
      '#x' and hexadecimal digits, or '#' and decimal digits; None for any
      other name, which the code leaves in place.  `asWritten` chooses
      between sscanf's reading as the code keeps it (a '-' wraps round) and
      the intended one, where a negative number names no character. */
  function CodePoint(name: seq<Byte>, asWritten: bool): (c: Option<nat>)
    ensures c.Some? ==> c.value < 0x1_0000_0000
  {
    if name == QuotName then Some(0x22)
    else if name == AmpName then Some(0x26)
    else if name == AposName then Some(0x27)
    else if name == LtName then Some(0x3c)
    else if name == GtName then Some(0x3e)
    else if |name| >= 2 && name[0] == NumberSign && name[1] == LowerX then Number(name[2..], 16, asWritten)
    else if |name| >= 1 && name[0] == NumberSign then Number(name[1..], 10, asWritten)
    else None
  }

  // ---------------------------------------------------------------------
  // g_unichar_to_utf8: the UTF-8 form of section 3 of RFC 3629, extended to
  // the five- and six-byte sequences GLib still writes for larger values.

  function Utf8Length(c: nat): nat {
    if c < 0x80 then 1
    else if c < 0x800 then 2
    else if c < 0x1_0000 then 3
    else if c < 0x20_0000 then 4
    else if c < 0x400_0000 then 5
    else 6
  }

  /** The k continuation bytes that carry the low 6k bits of c. */
  function Continuation(c: nat, k: nat): (r: seq<Byte>)
    ensures |r| == k
  {
    if k == 0 then [] else Continuation(c / 64, k - 1) + [0x80 + c % 64]
  }

  lemma {:induction false} ContinuationBytes(c: nat, k: nat)
    ensures forall i | 0 <= i < k :: 0x80 <= Continuation(c, k)[i] < 0xc0
  {
    if k > 0 {
      ContinuationBytes(c / 64, k - 1);
    }
  }

  /** c with its low 6k bits dropped: what is left for the lead byte. */
  function Shift(c: nat, k: nat): nat {
    if k == 0 then c else Shift(c / 64, k - 1)
  }

  lemma {:induction false} ShiftBound(c: nat, k: nat, b: nat)
    requires c < b * Pow(64, k)
    ensures Shift(c, k) < b
  {
    if k > 0 {
      assert c / 64 < b * Pow(64, k - 1);
      ShiftBound(c / 64, k - 1, b);
    }
  }

  /** The lead byte's bits and the continuation bytes' bits make up c again. */
  lemma {:induction false} ShiftSplit(c: nat, k: nat)
    ensures Shift(c, k) * Pow(64, k) + ContinuationValue(Continuation(c, k)) == c
  {
    if k > 0 {
      ShiftSplit(c / 64, k - 1);
      var r := Continuation(c, k);
      assert r[..|r| - 1] == Continuation(c / 64, k - 1);
      var a := Shift(c / 64, k - 1);
      var p := Pow(64, k - 1);
      var b := ContinuationValue(Continuation(c / 64, k - 1));
      assert ContinuationValue(r) == b * 64 + c % 64;
      Regroup(a, p, b, c / 64, c % 64);
    }
  }

  lemma Regroup(a: nat, p: nat, b: nat, q: nat, r: nat)
    requires a * p + b == q
    ensures a * (64 * p) + (b * 64 + r) == 64 * q + r
  {
    assert a * (64 * p) == 64 * (a * p);
  }

  /** The lead byte g_unichar_to_utf8 writes for a sequence of n bytes. */
  function LeadMark(n: nat): Byte
    requires 1 <= n <= 6
  {
    [0, 0, 0xc0, 0xe0, 0xf0, 0xf8, 0xfc][n]
  }

  function Utf8(c: nat): (r: seq<Byte>)
    requires c < 0x1_0000_0000
    ensures |r| == Utf8Length(c)
  {
    var n := Utf8Length(c);
    LeadFits(c, n);
    [LeadMark(n) + Shift(c, n - 1)] + Continuation(c, n - 1)
  }

  /** The value the continuation bytes carry. */
  function ContinuationValue(r: seq<Byte>): nat {
    if r == [] then 0 else ContinuationValue(r[..|r| - 1]) * 64 + r[|r| - 1] % 64
  }

  /** The length a lead byte announces, 0 for a byte that cannot lead. */
  function LeadLength(lead: Byte): nat {
    if lead < 0x80 then 1
    else if 0xc0 <= lead < 0xe0 then 2
    else if 0xe0 <= lead < 0xf0 then 3
    else if 0xf0 <= lead < 0xf8 then 4
    else if 0xf8 <= lead < 0xfc then 5
    else if 0xfc <= lead < 0xfe then 6
    else 0
  }

  /** The value bits of a lead byte, below its length mark. */
  function LeadValue(lead: Byte): nat {
    if lead < 0x80 then lead
    else if lead < 0xe0 then lead % 0x20
    else if lead < 0xf0 then lead % 0x10
    else if lead < 0xf8 then lead % 8
    else lead % 4
  }

  /** A decoder for one character: the lead byte gives the length, the rest
      must be continuation bytes. */
  function Utf8Decode(r: seq<Byte>): Option<nat> {
    if |r| == 0 then None
    else
      var n := LeadLength(r[0]);
      if n == 0 || |r| != n || !(forall i | 1 <= i < n :: 0x80 <= r[i] < 0xc0) then None
      else
        var tail := r[1..];
        Some(LeadValue(r[0]) * Pow(64, n - 1) + ContinuationValue(tail))
  }

  /** Decoding what g_unichar_to_utf8 wrote gives the code point back, for
      every value below 2^31 (the range the six-byte form covers). */
  lemma Utf8RoundTrip(c: nat)
    requires c < 0x8000_0000
    ensures Utf8Decode(Utf8(c)) == Some(c)
  {
    var n := Utf8Length(c);
    LeadFits(c, n);
    var lead := LeadMark(n) + Shift(c, n - 1);
    LeadRoundTrip(n, Shift(c, n - 1));
    ContinuationBytes(c, n - 1);
    Utf8DecodeParts(lead, Continuation(c, n - 1));
    ShiftSplit(c, n - 1);
  }

  /** A lead byte announcing the right length, then continuation bytes. */
  lemma Utf8DecodeParts(lead: Byte, tail: seq<Byte>)
    requires LeadLength(lead) == |tail| + 1
    requires forall i | 0 <= i < |tail| :: 0x80 <= tail[i] < 0xc0
    ensures Utf8Decode([lead] + tail) == Some(LeadValue(lead) * Pow(64, |tail|) + ContinuationValue(tail))
  {
    var r := [lead] + tail;
    assert r[1..] == tail;
  }

  /** What is left of c for the lead byte fits under its length mark; below
      2^31 the six-byte lead byte keeps one value bit. */
  lemma LeadFits(c: nat, n: nat)
    requires c < 0x1_0000_0000 && n == Utf8Length(c)
    ensures 1 <= n <= 6 && Shift(c, n - 1) < [0, 0x80, 0x20, 0x10, 8, 4, 4][n]
    ensures c < 0x8000_0000 ==> Shift(c, n - 1) < [0, 0x80, 0x20, 0x10, 8, 4, 2][n]
  {
    Pow64Table();
    if n == 1 {
      ShiftBound(c, 0, 0x80);
    } else if n == 2 {
      ShiftBound(c, 1, 0x20);
    } else if n == 3 {
      ShiftBound(c, 2, 0x10);
    } else if n == 4 {
      ShiftBound(c, 3, 8);
    } else if n == 5 {
      ShiftBound(c, 4, 4);
    } else if c < 0x8000_0000 {
      ShiftBound(c, 5, 2);
    } else {
      ShiftBound(c, 5, 4);
    }
  }

  lemma Pow64Table()
    ensures Pow(64, 0) == 1 && Pow(64, 1) == 0x40 && Pow(64, 2) == 0x1000
    ensures Pow(64, 3) == 0x4_0000 && Pow(64, 4) == 0x100_0000 && Pow(64, 5) == 0x4000_0000
  {
    assert Pow(64, 1) == 0x40;
    assert Pow(64, 2) == 0x1000;
    assert Pow(64, 3) == 0x4_0000;
    assert Pow(64, 4) == 0x100_0000;
  }

  /** A lead byte announces its length and gives back its value bits. */
  lemma LeadRoundTrip(n: nat, v: nat)
    requires 1 <= n <= 6 && v < [0, 0x80, 0x20, 0x10, 8, 4, 2][n]
    ensures LeadMark(n) + v < 256
    ensures LeadLength(LeadMark(n) + v) == n && LeadValue(LeadMark(n) + v) == v
  {
  }

  // ---------------------------------------------------------------------
  // The sign in a character reference.

  /** As written: sscanf's "%u" accepts a sign, so "&#-1;" names 0xffffffff,
      whose six-byte form is longer than the five-byte reference. */
  lemma SignedReferenceGrows()
    ensures CodePoint([NumberSign, Minus, 0x31], true) == Some(0xffff_ffff)
    ensures Utf8Length(0xffff_ffff) == 6 > |[Amp, NumberSign, Minus, 0x31, Semicolon]|
  {
    var s: seq<Byte> := [Minus, 0x31];
    assert SkipSpace(s, 0) == 0;
    assert DigitRun(s, 10, 1) == 2;
    assert ScannedDigits(s, 10) == [0x31];
    var one: seq<Byte> := [0x31];
    assert DigitsValue(one, 10) == 1 by {
      assert one[..0] == [];
    }
  }

  /** Read as intended, a reference names what sscanf reads from it, unless
      the number is negative: then it names nothing and stays in place. */
  lemma IntendedAgreesUnlessNegative(name: seq<Byte>)
    ensures CodePoint(name, false).Some? ==> CodePoint(name, false) == CodePoint(name, true)
    ensures CodePoint(name, false).None? && CodePoint(name, true).Some? ==>
              |name| >= 1 && name[0] == NumberSign &&
              (if |name| >= 2 && name[1] == LowerX then Negative(name[2..]) else Negative(name[1..]))
  {
  }

  /** sscanf's "%u" also reads a '+', so "&#+65;" names 'A' in both
      readings, and the reference becomes that one byte. */
  lemma PlusReferenceNamesDigits()
    ensures CodePoint([NumberSign, Plus, 0x36, 0x35], false) == Some(0x41)
    ensures CodePoint([NumberSign, Plus, 0x36, 0x35], true) == Some(0x41)
    ensures Unescape([Amp, NumberSign, Plus, 0x36, 0x35, Semicolon, Nul], 0)
            == [0x41, Nul, Plus, 0x36, 0x35, Semicolon, Nul]
  {
    var buf: seq<Byte> := [Amp, NumberSign, Plus, 0x36, 0x35, Semicolon, Nul];
    var name: seq<Byte> := [NumberSign, Plus, 0x36, 0x35];
    PlusSixtyFive(name);
    assert Bucket(buf, 0) == name;
    assert Utf8(0x41) == [0x41];
    var next: seq<Byte> := [0x41, Nul, Plus, 0x36, 0x35, Semicolon, Nul];
    assert Replaced(buf, 0, 4, [0x41]) == next;
    ReplacementAt(buf, 0, name, [0x41], next);
    UnescapeReplaces(buf, 0, name, [0x41], next, 1);
  }

  lemma PlusSixtyFive(name: seq<Byte>)
    requires name == [NumberSign, Plus, 0x36, 0x35]
    ensures CodePoint(name, false) == Some(0x41) && CodePoint(name, true) == Some(0x41)
  {
    var s: seq<Byte> := [Plus, 0x36, 0x35];
    assert name[1..] == s;
    assert SkipSpace(s, 0) == 0;
    assert DigitRun(s, 10, 1) == 3;
    var d: seq<Byte> := [0x36, 0x35];
    assert ScannedDigits(s, 10) == d;
    assert DigitsValue(d, 10) == 65 by {
      assert d[..1] == [0x36] && [0x36][..0] == [];
    }
  }

  /** Read as intended, "&#-1;" names nothing, so the reference is left as
      it is rather than wrapping round (see SignedReferenceGrows). */
  lemma NegativeReferenceKept()
    ensures CodePoint([NumberSign, Minus, 0x31], false) == None
  {
    var s: seq<Byte> := [Minus, 0x31];
    assert SkipSpace(s, 0) == 0;
    assert [NumberSign, Minus, 0x31][1..] == s;
  }

  /** With digits only, a reference from a bucket of at most nine bytes is
      always replaced by no more bytes than the bucket plus one, so the
      replacement never reaches past the reference it replaces. */
  lemma ReferenceFits(name: seq<Byte>)
    requires |name| <= 9
    requires CodePoint(name, false).Some?
    ensures CodePoint(name, false).value < 0x1000_0000
    ensures Utf8Length(CodePoint(name, false).value) <= |name| + 1
  {
    if name == QuotName || name == AmpName || name == AposName || name == LtName || name == GtName {
    } else if |name| >= 2 && name[0] == NumberSign && name[1] == LowerX {
      HexFits(name[2..]);
    } else {
      DecFits(name[1..]);
    }
  }

  /** The value of at most seven hexadecimal digits, and its UTF-8 length. */
  lemma HexFits(s: seq<Byte>)
    requires |s| <= 7
    requires !Negative(s)
    ensures Scan(s, 16) < 0x1000_0000
    ensures Utf8Length(Scan(s, 16)) <= |s| + 3
  {
    var d := ScannedDigits(s, 16);
    DigitsBound(d, 16);
    PowHex(|d|);
    assert DigitsValue(d, 16) % 0x1_0000_0000 == DigitsValue(d, 16);
  }

  /** The value of at most eight decimal digits, and its UTF-8 length. */
  lemma DecFits(s: seq<Byte>)
    requires |s| <= 8
    requires !Negative(s)
    ensures Scan(s, 10) < 100_000_000
    ensures Utf8Length(Scan(s, 10)) <= |s| + 2
  {
    var d := ScannedDigits(s, 10);
    DigitsBound(d, 10);
    PowDec(|d|);
    assert DigitsValue(d, 10) % 0x1_0000_0000 == DigitsValue(d, 10);
  }

  /** Below 16^k the six-byte ladder needs at most k + 3 bytes, for k <= 7. */
  lemma PowHex(k: nat)
    requires k <= 7
    ensures Pow(16, k) <= 0x1000_0000
    ensures forall v: nat | v < Pow(16, k) :: Utf8Length(v) <= k + 3
  {
    assert Pow(16, 1) == 0x10;
    assert Pow(16, 2) == 0x100;
    assert Pow(16, 3) == 0x1000;
    assert Pow(16, 4) == 0x1_0000;
    assert Pow(16, 5) == 0x10_0000;
    assert Pow(16, 6) == 0x100_0000;
    assert Pow(16, 7) == 0x1000_0000;
  }

  /** Below 10^k the ladder needs at most k + 2 bytes, for k <= 8. */
  lemma PowDec(k: nat)
    requires k <= 8
    ensures Pow(10, k) <= 100_000_000
    ensures forall v: nat | v < Pow(10, k) :: Utf8Length(v) <= k + 2
  {
    assert Pow(10, 1) == 10;
    assert Pow(10, 2) == 100;
    assert Pow(10, 3) == 1000;
    assert Pow(10, 4) == 10_000;
    assert Pow(10, 5) == 100_000;
    assert Pow(10, 6) == 1_000_000;
    assert Pow(10, 7) == 10_000_000;
    assert Pow(10, 8) == 100_000_000;
  }

  // ---------------------------------------------------------------------
  // The unescaping loop.

  /** What memmove (dst, src, count) leaves in the buffer when dst <= src. */
  function MemMoved(s: seq<Byte>, dst: nat, src: nat, count: nat): (r: seq<Byte>)
    requires dst <= src && src + count <= |s|
    ensures |r| == |s|
  {
    s[..dst] + s[src..src + count] + s[dst + count..]
  }

  /** Byte by byte: below dst and from dst + count on nothing changes, in
      between the bytes come from src on. */
  lemma MemMovedAt(s: seq<Byte>, dst: nat, src: nat, count: nat, j: nat)
    requires dst <= src && src + count <= |s| && j < |s|
    ensures MemMoved(s, dst, src, count)[j]
            == if j < dst || dst + count <= j then s[j] else s[src + j - dst]
  {
  }

  /** A C string in its own allocation: its last byte is the terminator, and
      p is a position in it. */
  predicate Framed(buf: seq<Byte>, p: nat) {
    0 < |buf| && buf[|buf| - 1] == Nul && p < |buf|
  }

  /** The reference the loop meets when it reaches p: the bucket after the
      '&' at p, and what it names. */
  function Bucket(buf: seq<Byte>, p: nat): (b: seq<Byte>)
    requires p < |buf|
    ensures |b| <= 9 && p + 1 + |b| <= |buf|
    ensures p + 1 < |buf| && buf[|buf| - 1] == Nul ==> p + 1 + |b| < |buf|
  {
    buf[p + 1..p + 1 + BucketLength(buf[p + 1..])]
  }

  /** One turn of sw_unescape_entities's loop at p, which is not the
      terminator: the buffer it leaves and the position it goes on from.  A
      byte other than '&' is passed over; an '&' whose bucket names nothing
      is passed over as well; otherwise the code point is written at p in
      UTF-8, everything from just after the bucket and its terminator up to
      the end of the allocation is moved down behind it, and the loop goes
      on after what it wrote.  The memmove always runs, since the
      replacement is shorter than the reference (see ReferenceFits). */
  function Step(buf: seq<Byte>, p: nat): (r: (seq<Byte>, nat))
    requires Framed(buf, p) && buf[p] != Nul
    ensures |r.0| == |buf| && p < r.1 && Framed(r.0, r.1)
  {
    if buf[p] != Amp then (buf, p + 1)
    else
      var name := Bucket(buf, p);
      var code := CodePoint(name, false);
      if code.None? then (buf, p + 1)
      else
        ReferenceFits(name);
        var u := Utf8(code.value);
        (Replaced(buf, p, |name|, u), p + |u|)
  }

  /** The whole buffer once the loop has gone on from p to the terminator. */
  function Unescape(buf: seq<Byte>, p: nat): (r: seq<Byte>)
    requires Framed(buf, p)
    ensures |r| == |buf|
    decreases |buf| - p
  {
    if buf[p] == Nul then buf
    else
      var (next, p') := Step(buf, p);
      Unescape(next, p')
  }

  /** The buffer with the bytes u written over it at p. */
  function Overwritten(buf: seq<Byte>, p: nat, u: seq<Byte>): (r: seq<Byte>)
    requires p + |u| <= |buf|
    ensures |r| == |buf|
  {
    buf[..p] + u + buf[p + |u|..]
  }

  /** The buffer after the code point's bytes u are written at p and the
      rest is moved down over the reference of bucket length n. */
  function Replaced(buf: seq<Byte>, p: nat, n: nat, u: seq<Byte>): (r: seq<Byte>)
    requires Framed(buf, p) && buf[p] != Nul && 1 <= |u| <= n + 1 && p + n + 2 <= |buf|
    ensures Framed(r, p + |u|) && |r| == |buf|
  {
    MemMoved(Overwritten(buf, p, u), p + |u|, p + n + 2, |buf| - (p + n + 2))
  }

  /** The scan recognises a reference at the head of t, with its bucket
      terminated by ';' as section 4.1 of XML 1.0 asks. */
  predicate Recognised(t: seq<Byte>) {
    0 < |t| && t[0] == Amp
    && var n := BucketLength(t[1..]);
       CodePoint(t[1..1 + n], false).Some? && 1 + n < |t| && t[1 + n] == Semicolon
  }

  /** What unescaping is meant to make of a string: every recognised
      reference replaced by its code point in UTF-8, every other byte kept,
      scanning on after each replacement. */
  function Decode(t: seq<Byte>): seq<Byte>
    decreases |t|
  {
    if t == [] then []
    else if Recognised(t) then
      var n := BucketLength(t[1..]);
      Utf8(CodePoint(t[1..1 + n], false).value) + Decode(t[n + 2..])
    else [t[0]] + Decode(t[1..])
  }

  /** Every reference the scan recognises in t ends in ';': no bucket stops
      at the end of the string or after nine bytes while naming something. */
  predicate Terminated(t: seq<Byte>)
    decreases |t|
  {
    if t == [] then true
    else
      var n := BucketLength(t[1..]);
      if t[0] == Amp && CodePoint(t[1..1 + n], false).Some? then
        1 + n < |t| && t[1 + n] == Semicolon && Terminated(t[n + 2..])
      else Terminated(t[1..])
  }

  /** Unescaping never makes a string longer. */
  lemma {:induction false} DecodeNotLonger(t: seq<Byte>)
    ensures |Decode(t)| <= |t|
    decreases |t|
  {
    if t != [] {
      if Recognised(t) {
        var n := BucketLength(t[1..]);
        ReferenceFits(t[1..1 + n]);
        DecodeNotLonger(t[n + 2..]);
      } else {
        DecodeNotLonger(t[1..]);
      }
    }
  }

  /** The loop has reached the start of the unprocessed text t in buf,
      with out already written before it and stale bytes junk after its
      terminator. */
  predicate Pending(buf: seq<Byte>, out: seq<Byte>, t: seq<Byte>, junk: seq<Byte>) {
    buf == out + t + [Nul] + junk && NoNul(t) && Terminated(t) && Framed(buf, |out|)
  }

  /** The buffer r starts with out, then d, then a terminator. */
  predicate Holds(r: seq<Byte>, out: seq<Byte>, d: seq<Byte>) {
    |out| + |d| < |r| && r[..|out| + |d| + 1] == out + d + [Nul]
  }

  /** From a pending text t, the loop leaves out, then t decoded, then a
      terminator. */
  lemma {:induction false} UnescapeSuffix(buf: seq<Byte>, out: seq<Byte>, t: seq<Byte>, junk: seq<Byte>)
    requires Pending(buf, out, t, junk)
    ensures Holds(Unescape(buf, |out|), out, Decode(t))
    decreases |t|, 1
  {
    var p := |out|;
    DecodeNotLonger(t);
    if t == [] {
      assert buf[p] == Nul;
      assert buf[..p + 1] == out + [Nul];
    } else {
      assert buf[p] == t[0];
      assert buf[p + 1..] == t[1..] + ([Nul] + junk);
      BucketOf(buf, p, t[1..], [Nul] + junk);
      var n := BucketLength(t[1..]);
      assert t[1..][..n] == t[1..1 + n];
      if t[0] == Amp && CodePoint(t[1..1 + n], false).Some? {
        SuffixReplaced(buf, out, t, junk);
      } else {
        SuffixPassed(buf, out, t, junk);
      }
    }
  }

  /** UnescapeSuffix when the byte at the head of t is passed over. */
  lemma {:induction false} SuffixPassed(buf: seq<Byte>, out: seq<Byte>, t: seq<Byte>, junk: seq<Byte>)
    requires Pending(buf, out, t, junk) && 0 < |t|
    requires t[0] != Amp || CodePoint(Bucket(buf, |out|), false).None?
    requires Bucket(buf, |out|) == t[1..1 + BucketLength(t[1..])]
    ensures Holds(Unescape(buf, |out|), out, Decode(t))
    decreases |t|, 0
  {
    assert !Recognised(t);
    assert buf == (out + [t[0]]) + t[1..] + [Nul] + junk;
    UnescapePasses(buf, |out|, buf, |out + [t[0]]|);
    UnescapeSuffix(buf, out + [t[0]], t[1..], junk);
    assert Decode(t) == [t[0]] + Decode(t[1..]);
    PrefixAfterStep(Unescape(buf, |out + [t[0]]|), out, [t[0]], Decode(t[1..]), Decode(t));
  }

  /** UnescapeSuffix when a reference is recognised at the head of t: out
      grows by the code point's bytes u, the rest of t after the reference
      is still pending, and stale bytes join the junk. */
  lemma {:induction false} SuffixReplaced(buf: seq<Byte>, out: seq<Byte>, t: seq<Byte>, junk: seq<Byte>)
    requires Pending(buf, out, t, junk) && 0 < |t| && t[0] == Amp
    requires Bucket(buf, |out|) == t[1..1 + BucketLength(t[1..])]
    requires CodePoint(t[1..1 + BucketLength(t[1..])], false).Some?
    ensures Holds(Unescape(buf, |out|), out, Decode(t))
    decreases |t|, 0
  {
    var next, u, rest, junk' := ReplaceLayout(buf, out, t, junk);
    UnescapeReplaces(buf, |out|, t[1..1 + BucketLength(t[1..])], u, next, |out + u|);
    UnescapeSuffix(next, out + u, rest, junk');
    PrefixAfterStep(Unescape(next, |out + u|), out, u, Decode(rest), Decode(t));
  }

  /** The buffer a replacement at the head of a pending t leaves behind. */
  lemma ReplaceLayout(buf: seq<Byte>, out: seq<Byte>, t: seq<Byte>, junk: seq<Byte>)
    returns (next: seq<Byte>, u: seq<Byte>, rest: seq<Byte>, junk': seq<Byte>)
    requires Pending(buf, out, t, junk) && 0 < |t| && t[0] == Amp
    requires Bucket(buf, |out|) == t[1..1 + BucketLength(t[1..])]
    requires CodePoint(t[1..1 + BucketLength(t[1..])], false).Some?
    ensures Replacement(buf, |out|, t[1..1 + BucketLength(t[1..])], u, next)
    ensures |rest| < |t| && Pending(next, out + u, rest, junk')
    ensures Decode(t) == u + Decode(rest)
  {
    var n;
    n, u, rest := TextStep(t);
    next, junk' := LayoutAfter(buf, out, t, junk, n, u);
  }

  /** ReplaceLayout once the reference's bucket length n and code point's
      bytes u are known. */
  lemma LayoutAfter(buf: seq<Byte>, out: seq<Byte>, t: seq<Byte>, junk: seq<Byte>, n: nat, u: seq<Byte>)
    returns (next: seq<Byte>, junk': seq<Byte>)
    requires Pending(buf, out, t, junk) && 0 < |t| && t[0] == Amp
    requires 1 <= |u| <= n + 1 && 1 + n < |t| && t[1 + n] == Semicolon
    requires Bucket(buf, |out|) == t[1..1 + n]
    requires CodePoint(t[1..1 + n], false).Some? && u == Utf8(CodePoint(t[1..1 + n], false).value)
    requires NoNul(t[n + 2..]) && Terminated(t[n + 2..])
    ensures Replacement(buf, |out|, t[1..1 + n], u, next)
    ensures Pending(next, out + u, t[n + 2..], junk')
  {
    var stale := ReplacedShape(out, t, junk, n, u);
    junk' := junk + stale;
    next := (out + u) + t[n + 2..] + [Nul] + junk';
    ReplacementAt(buf, |out|, t[1..1 + n], u, next);
  }

  /** Replacement, from its parts. */
  lemma ReplacementAt(buf: seq<Byte>, p: nat, name: seq<Byte>, u: seq<Byte>, next: seq<Byte>)
    requires Framed(buf, p) && buf[p] == Amp && Bucket(buf, p) == name
    requires CodePoint(name, false).Some? && u == Utf8(CodePoint(name, false).value)
    requires 1 <= |u| <= |name| + 1 && p + |name| + 2 <= |buf|
    requires Replaced(buf, p, |name|, u) == next
    ensures Replacement(buf, p, name, u, next)
  {
  }

  /** A recognised reference at the head of a pending text: its code
      point's bytes u, no longer than the reference, and the pending rest
      after its ';'. */
  lemma TextStep(t: seq<Byte>) returns (n: nat, u: seq<Byte>, rest: seq<Byte>)
    requires NoNul(t) && Terminated(t) && 0 < |t| && t[0] == Amp
    requires CodePoint(t[1..1 + BucketLength(t[1..])], false).Some?
    ensures n == BucketLength(t[1..]) && u == Utf8(CodePoint(t[1..1 + n], false).value)
    ensures 1 <= |u| <= n + 1 && 1 + n < |t| && t[1 + n] == Semicolon && rest == t[n + 2..]
    ensures NoNul(rest) && Terminated(rest) && Decode(t) == u + Decode(rest)
  {
    n := BucketLength(t[1..]);
    RecognisedRest(t, n);
    u := ReferenceBytes(t[1..1 + n]);
    rest := t[n + 2..];
    DecodeRecognised(t, n, u);
  }

  /** The bytes a reference is replaced by: at least one, and no more than
      its bucket and the '&'. */
  lemma ReferenceBytes(name: seq<Byte>) returns (u: seq<Byte>)
    requires |name| <= 9 && CodePoint(name, false).Some?
    ensures u == Utf8(CodePoint(name, false).value) && 1 <= |u| <= |name| + 1
  {
    ReferenceFits(name);
    u := Utf8(CodePoint(name, false).value);
  }

  /** A recognised reference at the head of a pending text is followed by
      a pending text. */
  lemma RecognisedRest(t: seq<Byte>, n: nat)
    requires NoNul(t) && Terminated(t) && 0 < |t| && t[0] == Amp
    requires n == BucketLength(t[1..]) && CodePoint(t[1..1 + n], false).Some?
    ensures Recognised(t) && 1 + n < |t| && t[1 + n] == Semicolon
    ensures NoNul(t[n + 2..]) && Terminated(t[n + 2..])
  {
  }

  lemma DecodeRecognised(t: seq<Byte>, n: nat, u: seq<Byte>)
    requires Recognised(t) && n == BucketLength(t[1..])
    requires u == Utf8(CodePoint(t[1..1 + n], false).value)
    ensures Decode(t) == u + Decode(t[n + 2..])
  {
  }

  /** The buffer starts with out, then the decoding d, then a terminator,
      when it starts with out + u, then the rest of d, then a terminator. */
  lemma PrefixAfterStep(r: seq<Byte>, out: seq<Byte>, u: seq<Byte>, rest: seq<Byte>, d: seq<Byte>)
    requires d == u + rest && Holds(r, out + u, rest)
    ensures Holds(r, out, d)
  {
    assert out + d + [Nul] == (out + u) + rest + [Nul];
  }

  lemma HoldsFromStart(r: seq<Byte>, d: seq<Byte>)
    requires Holds(r, [], d)
    ensures |d| < |r| && r[..|d| + 1] == d + [Nul]
  {
    assert [] + d + [Nul] == d + [Nul];
  }

  /** Replacing a terminated reference at the head of t leaves out and the
      code point's bytes, the rest of t, its terminator, and stale bytes. */
  lemma ReplacedShape(out: seq<Byte>, t: seq<Byte>, junk: seq<Byte>, n: nat, u: seq<Byte>)
    returns (stale: seq<Byte>)
    requires Framed(out + t + [Nul] + junk, |out|) && 0 < |t| && t[0] != Nul
    requires 1 <= |u| <= n + 1 && 1 + n < |t| && t[1 + n] == Semicolon
    ensures Replaced(out + t + [Nul] + junk, |out|, n, u) == (out + u) + t[n + 2..] + [Nul] + (junk + stale)
    ensures Framed((out + u) + t[n + 2..] + [Nul] + (junk + stale), |out + u|)
  {
    var buf := out + t + [Nul] + junk;
    var p := |out|;
    stale := ReplacedParts(buf, p, n, u);
    assert buf[..p] == out;
    assert buf[p + n + 2..] == t[n + 2..] + [Nul] + junk;
  }

  /** The buffer after a replacement: the bytes before p, the code point's
      bytes, the rest after the reference, and as many stale bytes from the
      end of the allocation as the string shrank by. */
  lemma ReplacedParts(buf: seq<Byte>, p: nat, n: nat, u: seq<Byte>) returns (stale: seq<Byte>)
    requires Framed(buf, p) && buf[p] != Nul && 1 <= |u| <= n + 1 && p + n + 2 <= |buf|
    ensures Replaced(buf, p, n, u) == buf[..p] + u + buf[p + n + 2..] + stale
  {
    var written := Overwritten(buf, p, u);
    var dst := p + |u|;
    var count := |buf| - (p + n + 2);
    stale := written[dst + count..];
    assert written[..dst] == buf[..p] + u;
    assert written[dst..] == buf[dst..];
    assert written[p + n + 2..p + n + 2 + count] == buf[p + n + 2..];
  }

  /** At p the loop meets a reference whose bucket is name, writes its code
      point's bytes u and leaves the buffer next. */
  predicate Replacement(buf: seq<Byte>, p: nat, name: seq<Byte>, u: seq<Byte>, next: seq<Byte>) {
    Framed(buf, p) && buf[p] == Amp && Bucket(buf, p) == name
    && CodePoint(name, false).Some? && u == Utf8(CodePoint(name, false).value)
    && 1 <= |u| <= |name| + 1 && p + |name| + 2 <= |buf|
    && Replaced(buf, p, |name|, u) == next
  }

  /** One turn of the loop at a recognised reference whose bucket is name
      and whose code point's bytes are u, leaving the buffer next. */
  lemma UnescapeReplaces(buf: seq<Byte>, p: nat, name: seq<Byte>, u: seq<Byte>, next: seq<Byte>, p': nat)
    requires Replacement(buf, p, name, u, next) && p' == p + |u|
    ensures Framed(next, p') && Unescape(buf, p) == Unescape(next, p')
  {
    ReferenceFits(name);
    assert Step(buf, p) == (next, p');
  }

  /** One turn of the loop at any other byte: the buffer next is the same
      buffer, looked at from p'. */
  lemma UnescapePasses(buf: seq<Byte>, p: nat, next: seq<Byte>, p': nat)
    requires Framed(buf, p) && buf[p] != Nul
    requires buf[p] != Amp || CodePoint(Bucket(buf, p), false).None?
    requires next == buf && p' == p + 1
    ensures Framed(next, p') && Unescape(buf, p) == Unescape(next, p')
  {
  }

  /** A string whose recognised references all end in ';' unescapes, in its
      own buffer, to its decoding followed by the terminator. */
  lemma UnescapeDecodes(s: seq<Byte>)
    requires NoNul(s) && Terminated(s)
    ensures |Decode(s)| <= |s|
    ensures Unescape(s + [Nul], 0)[..|Decode(s)| + 1] == Decode(s) + [Nul]
  {
    assert [] + s + [Nul] + [] == s + [Nul];
    UnescapeSuffix(s + [Nul], [], s, []);
    HoldsFromStart(Unescape(s + [Nul], 0), Decode(s));
    DecodeNotLonger(s);
  }

  /** "&amp;lt;" unescapes once, to "&lt;": the scan goes on after what it
      wrote. */
  lemma DecodeOnce()
    ensures Decode([Amp] + AmpName + [Semicolon] + LtName + [Semicolon]) == [Amp] + LtName + [Semicolon]
  {
    var t := [Amp] + AmpName + [Semicolon] + LtName + [Semicolon];
    assert BucketLength(t[1..]) == 3;
    assert t[1..4] == AmpName;
    assert t[5..] == LtName + [Semicolon];
    assert Recognised(t);
    assert Utf8(0x26) == [Amp];
    var r := LtName + [Semicolon];
    assert r[1..] == [0x74, Semicolon] && r[1..][1..] == [Semicolon];
    assert Decode([Semicolon]) == [Semicolon] by {
      assert [Semicolon][1..] == [];
    }
    assert Decode(r[1..]) == [0x74, Semicolon];
    assert Decode(r) == r;
  }

  /** A name the code does not know, "&foo;", stays as it is. */
  lemma DecodeKeepsUnknown()
    ensures Decode([Amp, 0x66, 0x6f, 0x6f, Semicolon]) == [Amp, 0x66, 0x6f, 0x6f, Semicolon]
  {
    var t: seq<Byte> := [Amp, 0x66, 0x6f, 0x6f, Semicolon];
    assert BucketLength(t[1..]) == 3 && t[1..4] == [0x66, 0x6f, 0x6f];
    assert !Recognised(t);
    assert Decode([Semicolon]) == [Semicolon] by {
      assert [Semicolon][1..] == [];
    }
    assert t[4..] == [Semicolon];
    assert Decode(t[3..]) == t[3..];
    assert Decode(t[2..]) == t[2..];
    assert Decode(t[1..]) == t[1..];
  }

  /** A reference cut off by the end of the string still names its entity:
      "&lt" becomes "<lt", since the bucket stops at the terminator and the
      memmove then moves nothing. */
  lemma UnterminatedKeepsName()
    ensures Unescape([Amp, 0x6c, 0x74, Nul], 0) == [0x3c, 0x6c, 0x74, Nul]
  {
    var buf: seq<Byte> := [Amp, 0x6c, 0x74, Nul];
    assert Bucket(buf, 0) == LtName;
    assert CodePoint(LtName, false) == Some(0x3c);
    assert Utf8(0x3c) == [0x3c];
    var next: seq<Byte> := [0x3c, 0x6c, 0x74, Nul];
    assert Replaced(buf, 0, 2, [0x3c]) == next;
    assert Step(buf, 0) == (next, 1);
    assert Step(next, 1) == (next, 2);
    assert Step(next, 2) == (next, 3);
    assert Unescape(next, 2) == next;
  }

  /** "&#;" names code point 0, since sscanf leaves the 0 when it converts
      nothing: a NUL is written and the string ends there. */
  lemma EmptyReferenceEndsString()
    ensures Unescape([Amp, NumberSign, Semicolon, 0x41, Nul], 0) == [Nul, 0x41, Nul, 0x41, Nul]
  {
    var buf: seq<Byte> := [Amp, NumberSign, Semicolon, 0x41, Nul];
    var name: seq<Byte> := [NumberSign];
    assert Bucket(buf, 0) == name;
    EmptyNumberIsZero(name);
    assert Utf8(0) == [Nul];
    var next: seq<Byte> := [Nul, 0x41, Nul, 0x41, Nul];
    assert Replaced(buf, 0, 1, [Nul]) == next;
    ReplacementAt(buf, 0, name, [Nul], next);
    UnescapeReplaces(buf, 0, name, [Nul], next, 1);
    assert Step(next, 1) == (next, 2);
    assert Unescape(next, 1) == next;
  }

  lemma EmptyNumberIsZero(name: seq<Byte>)
    requires name == [NumberSign]
    ensures CodePoint(name, false) == Some(0)
  {
    var e: seq<Byte> := [];
    assert name[1..] == e && ScannedDigits(e, 10) == e;
    assert SkipSpace(e, 0) == 0 && DigitsValue(e, 10) == 0;
    assert Number(e, 10, false) == Some(0);
    assert name != QuotName && name != AmpName && name != AposName && name != LtName && name != GtName;
  }

  // ---------------------------------------------------------------------
  // sw_unescape_entities on the bytes of its buffer.

  /** The byte at j once the first i bytes of a forward move are copied. */
  function MovedByte(s: seq<Byte>, dst: nat, src: nat, i: nat, j: nat): Byte
    requires dst <= src && src + i <= |s| && j < |s|
  {
    if dst <= j < dst + i then s[src + j - dst] else s[j]
  }

  /** g_memmove with dst <= src: copies count bytes forward, one at a time. */
  method MemMove(a: array<Byte>, ghost s: seq<Byte>, dst: nat, src: nat, count: nat)
    requires a[..] == s && dst <= src && src + count <= a.Length
    modifies a
    ensures a[..] == MemMoved(s, dst, src, count)
  {
    var i := 0;
    while i < count
      invariant 0 <= i <= count && a.Length == |s|
      invariant forall j | 0 <= j < a.Length :: a[j] == MovedByte(s, dst, src, i, j)
    {
      assert a[src + i] == s[src + i];
      a[dst + i] := a[src + i];
      i := i + 1;
    }
    forall j | 0 <= j < a.Length
      ensures a[j] == MemMoved(s, dst, src, count)[j]
    {
      MemMovedAt(s, dst, src, count, j);
    }
    assert a[..] == MemMoved(s, dst, src, count);
  }

  /** The loop that fills the bucket: the bytes after the '&' at p, up to
      ';', the terminator or nine bytes. */
  method ReadBucket(a: array<Byte>, p: nat) returns (bucket: seq<Byte>)
    requires Framed(a[..], p) && a[p] != Nul
    ensures bucket == Bucket(a[..], p)
  {
    ghost var s := a[p + 1..];
    var q := p + 1;
    bucket := [];
    while a[q] != Semicolon && a[q] != Nul && |bucket| < 9
      invariant q == p + 1 + |bucket| < a.Length && |bucket| <= 9
      invariant bucket == a[p + 1..q]
      invariant BucketFrom(s, |bucket|) == BucketLength(s)
      decreases 9 - |bucket|
    {
      bucket := bucket + [a[q]];
      q := q + 1;
    }
  }

  /** sw_unescape_entities: replaces, in place, every reference the scan
      recognises by the UTF-8 form of its code point and returns the same
      buffer.  The buffer holds the string and its terminator; the length
      the memmove counts with is the string's length before any
      replacement, so every move runs to the end of the allocation (len + 1
      bytes, which is 0 when the bucket ran into the terminator and len
      wrapped round). */
  method UnescapeEntities(a: array<Byte>) returns (r: array<Byte>)
    requires 0 < a.Length && a[a.Length - 1] == Nul && NoNul(a[..a.Length - 1])
    modifies a
    ensures r == a && a[..] == Unescape(old(a[..]), 0)
  {
    ghost var goal := Unescape(a[..], 0);
    var p := 0;
    while a[p] != Nul
      invariant Framed(a[..], p)
      invariant Unescape(a[..], p) == goal
      decreases a.Length - p
    {
      var next := p + 1;
      if a[p] != Amp {
        UnescapePasses(a[..], p, a[..], next);
      } else {
        var bucket := ReadBucket(a, p);
        var code := CodePoint(bucket, false);
        if code.None? {
          UnescapePasses(a[..], p, a[..], next);
        } else {
          ReferenceFits(bucket);
          var u := Utf8(code.value);
          next := p + |u|;
          ghost var before := a[..];
          ReplaceReference(a, p, |bucket|, u);
          UnescapeReplaces(before, p, bucket, u, a[..], next);
        }
      }
      p := next;
    }
    r := a;
  }

  /** The copy g_unichar_to_utf8 makes of a code point's bytes u into the
      buffer at p. */
  method WriteBytes(a: array<Byte>, p: nat, u: seq<Byte>)
    requires p + |u| <= a.Length
    modifies a
    ensures a[..] == Overwritten(old(a[..]), p, u)
  {
    forall i | 0 <= i < |u| {
      a[p + i] := u[i];
    }
  }

  /** Writing u at p and then moving the tail down is what Replaced says. */
  lemma ReplacedByMoves(moved: seq<Byte>, buf: seq<Byte>, p: nat, n: nat, u: seq<Byte>, dst: nat, src: nat, count: nat)
    requires Framed(buf, p) && buf[p] != Nul && 1 <= |u| <= n + 1
    requires dst == p + |u| && src == p + n + 2 && src + count == |buf|
    requires moved == MemMoved(Overwritten(buf, p, u), dst, src, count)
    ensures moved == Replaced(buf, p, n, u)
  {
  }

  /** The turn of the loop that replaces the reference at p, whose bucket
      is n bytes long, by the bytes u g_unichar_to_utf8 writes for its code
      point: u is written at p and the rest of the allocation is moved down
      behind it. */
  method ReplaceReference(a: array<Byte>, p: nat, n: nat, u: seq<Byte>)
    requires Framed(a[..], p) && a[p] != Nul && p + n + 2 <= a.Length
    requires 1 <= |u| <= n + 1
    modifies a
    ensures a[..] == Replaced(old(a[..]), p, n, u)
  {
    var dst, src := p + |u|, p + n + 2;
    var count := a.Length - src;
    WriteBytes(a, p, u);
    MemMove(a, Overwritten(old(a[..]), p, u), dst, src, count);
    ReplacedByMoves(a[..], old(a[..]), p, n, u, dst, src, count);
  }

  // ---------------------------------------------------------------------
  // sw_next_opid: a process-wide counter of operation ids.

  const GintMax: int := 0x7fff_ffff
  const GintMin: int := -0x8000_0000

  /** n as a gint: two's complement wrap-around to 32 bits. */
  function Gint(n: int): (g: int)
    ensures GintMin <= g <= GintMax
    ensures GintMin <= n <= GintMax ==> g == n
  {
    (n - GintMin) % 0x1_0000_0000 + GintMin
  }

  /** Adding one to a gint: the successor, or GintMin after GintMax. */
  lemma GintStep(n: int)
    ensures Gint(n + 1) == if Gint(n) == GintMax then GintMin else Gint(n) + 1
  {
    var r := (n - GintMin) % 0x1_0000_0000;
    assert n - GintMin == (n - GintMin) / 0x1_0000_0000 * 0x1_0000_0000 + r;
    if r == 0xffff_ffff {
      assert (n + 1 - GintMin) % 0x1_0000_0000 == 0 by {
        assert n + 1 - GintMin == ((n - GintMin) / 0x1_0000_0000 + 1) * 0x1_0000_0000;
      }
    } else {
      assert (n + 1 - GintMin) % 0x1_0000_0000 == r + 1 by {
        assert n + 1 - GintMin == (n - GintMin) / 0x1_0000_0000 * 0x1_0000_0000 + (r + 1);
      }
    }
  }

  /** The static opid and how many ids it has handed out. */
  class OpIdCounter {
    var opid: int
    ghost var issued: nat

    ghost predicate Valid()
      reads this
    {
      opid == Gint(1 + issued)
    }

    /** The static's initial value, 1. */
    constructor ()
      ensures Valid() && issued == 0 && opid == 1
    {
      opid := 1;
      issued := 0;
    }

    /** sw_next_opid: g_atomic_int_exchange_and_add returns the value the
        counter had and adds one to it, wrapping round as a gint does. */
    method Next() returns (id: int)
      requires Valid()
      modifies this
      ensures Valid() && issued == old(issued) + 1
      ensures id == old(opid) == OpId(old(issued))
    {
      GintStep(1 + issued);
      id := opid;
      opid := if opid == GintMax then GintMin else opid + 1;
      issued := issued + 1;
    }
  }

  /** The id the k-th call of sw_next_opid returns, counting from 0. */
  function OpId(k: nat): (id: int)
    ensures GintMin <= id <= GintMax
  {
    Gint(1 + k)
  }

  /** Until the counter wraps the calls return 1, 2, 3, and so on. */
  lemma OpIdsCount(k: nat)
    requires k < GintMax
    ensures OpId(k) == k + 1
  {
  }

  /** Any 2^32 successive calls return different ids; the call after
      GintMax wraps to GintMin, and the next 2^32 calls repeat the ids. */
  lemma OpIdsDistinct(i: nat, j: nat)
    ensures i < j < i + 0x1_0000_0000 ==> OpId(i) != OpId(j)
    ensures OpId(0x7fff_fffe) == GintMax && OpId(0x7fff_ffff) == GintMin
    ensures OpId(i + 0x1_0000_0000) == OpId(i)
  {
    if i < j < i + 0x1_0000_0000 {
      var a, b := (1 + i - GintMin) % 0x1_0000_0000, (1 + j - GintMin) % 0x1_0000_0000;
      assert 1 + i - GintMin == (1 + i - GintMin) / 0x1_0000_0000 * 0x1_0000_0000 + a;
      assert 1 + j - GintMin == (1 + j - GintMin) / 0x1_0000_0000 * 0x1_0000_0000 + b;
    }
    assert 1 + i + 0x1_0000_0000 - GintMin == (1 + i - GintMin) + 1 * 0x1_0000_0000;
  }

  // ---------------------------------------------------------------------
  // sw_hash_string_dict: a checksum of a string-to-string dictionary.

  /** strcmp's order: byte by byte as unsigned char, a proper prefix first. */
  predicate StrLess(a: seq<Byte>, b: seq<Byte>)
    decreases |a|
  {
    0 < |b| && (|a| == 0 || a[0] < b[0] || (a[0] == b[0] && StrLess(a[1..], b[1..])))
  }

  lemma {:induction false} StrLessIrreflexive(a: seq<Byte>)
    ensures !StrLess(a, a)
    decreases |a|
  {
    if 0 < |a| {
      StrLessIrreflexive(a[1..]);
    }
  }

  lemma {:induction false} StrLessTransitive(a: seq<Byte>, b: seq<Byte>, c: seq<Byte>)
    requires StrLess(a, b) && StrLess(b, c)
    ensures StrLess(a, c)
    decreases |a|
  {
    if 0 < |a| && a[0] == b[0] && b[0] == c[0] {
      StrLessTransitive(a[1..], b[1..], c[1..]);
    }
  }

  /** Two different strings are always ordered one way or the other. */
  lemma {:induction false} StrLessTotal(a: seq<Byte>, b: seq<Byte>)
    requires a != b
    ensures StrLess(a, b) || StrLess(b, a)
    decreases |a|
  {
    if 0 < |a| && 0 < |b| && a[0] == b[0] {
      assert a == [a[0]] + a[1..] && b == [b[0]] + b[1..];
      StrLessTotal(a[1..], b[1..]);
    }
  }

  /** No string comes after a later one. */
  predicate Sorted(ks: seq<seq<Byte>>) {
    forall i, j | 0 <= i < j < |ks| :: !StrLess(ks[j], ks[i])
  }

  /** k placed before the first string that does not come before it. */
  function Insert(k: seq<Byte>, ks: seq<seq<Byte>>): (r: seq<seq<Byte>>)
    ensures multiset(r) == multiset(ks) + multiset{k}
  {
    if ks == [] then [k]
    else if StrLess(ks[0], k) then
      assert ks == [ks[0]] + ks[1..];
      [ks[0]] + Insert(k, ks[1..])
    else [k] + ks
  }

  lemma {:induction false} InsertSorted(k: seq<Byte>, ks: seq<seq<Byte>>)
    requires Sorted(ks)
    ensures Sorted(Insert(k, ks))
  {
    if ks != [] {
      var r := Insert(k, ks);
      if StrLess(ks[0], k) {
        InsertSorted(k, ks[1..]);
        assert ks == [ks[0]] + ks[1..];
        forall j | 0 < j < |r| ensures !StrLess(r[j], r[0]) {
          assert r[j] in multiset(ks[1..]) + multiset{k};
          if r[j] == k {
            StrLessNotBoth(ks[0], k);
          } else {
            assert r[j] in ks[1..];
          }
        }
      } else {
        forall j | 0 < j < |r| ensures !StrLess(r[j], k) {
          if StrLess(r[j], k) && r[j] != ks[0] {
            StrLessTotal(ks[0], r[j]);
            StrLessTransitive(ks[0], r[j], k);
          }
        }
      }
    }
  }

  lemma StrLessNotBoth(a: seq<Byte>, b: seq<Byte>)
    requires StrLess(a, b)
    ensures !StrLess(b, a)
  {
    if StrLess(b, a) {
      StrLessTransitive(a, b, a);
      StrLessIrreflexive(a);
    }
  }

  /** The keys in strcmp order, as g_list_sort (keys, strcmp) leaves them. */
  function SortKeys(ks: seq<seq<Byte>>): (r: seq<seq<Byte>>)
    ensures multiset(r) == multiset(ks) && Sorted(r)
  {
    if ks == [] then []
    else
      assert ks == [ks[0]] + ks[1..];
      InsertSorted(ks[0], SortKeys(ks[1..]));
      Insert(ks[0], SortKeys(ks[1..]))
  }

  /** There is only one sorted arrangement of a multiset of strings, so
      which sort the code uses, and in which order it gets the keys, makes
      no difference. */
  lemma {:induction false} SortedUnique(xs: seq<seq<Byte>>, ys: seq<seq<Byte>>)
    requires Sorted(xs) && Sorted(ys) && multiset(xs) == multiset(ys)
    ensures xs == ys
    decreases |xs|
  {
    if xs != [] {
      SortedHeads(xs, ys);
      RestMultiset(xs);
      RestMultiset(ys);
      SortedUnique(xs[1..], ys[1..]);
    }
  }

  /** Two sorted arrangements of one multiset start alike. */
  lemma SortedHeads(xs: seq<seq<Byte>>, ys: seq<seq<Byte>>)
    requires Sorted(xs) && Sorted(ys) && multiset(xs) == multiset(ys) && xs != []
    ensures ys != [] && xs[0] == ys[0]
  {
    assert xs[0] in multiset(ys);
    assert ys[0] in multiset(xs);
    var i :| 0 <= i < |xs| && xs[i] == ys[0];
    var j :| 0 <= j < |ys| && ys[j] == xs[0];
    if xs[0] != ys[0] {
      assert !StrLess(xs[i], xs[0]) && !StrLess(ys[j], ys[0]);
      StrLessTotal(xs[0], ys[0]);
      assert false;
    }
  }

  lemma RestMultiset(xs: seq<seq<Byte>>)
    requires xs != []
    ensures multiset(xs[1..]) == multiset(xs) - multiset{xs[0]}
  {
    assert xs == [xs[0]] + xs[1..];
  }

  /** ks lists each key of the dictionary once, as g_hash_table_get_keys
      does, in an order the hash table chooses. */
  predicate Enumerates(ks: seq<seq<Byte>>, m: map<seq<Byte>, seq<Byte>>) {
    multiset(ks) == multiset(m.Keys)
  }

  /** Every key followed by its value, in the order of ks: the bytes the
      checksum is fed. */
  function Feed(ks: seq<seq<Byte>>, m: map<seq<Byte>, seq<Byte>>): (r: seq<Byte>)
    requires forall k | k in ks :: k in m
  {
    if ks == [] then [] else ks[0] + m[ks[0]] + Feed(ks[1..], m)
  }

  /** Some listing of the strings in s, each once. */
  ghost function Enumeration(s: set<seq<Byte>>): (ks: seq<seq<Byte>>)
    ensures multiset(ks) == multiset(s)
    decreases |s|
  {
    if s == {} then []
    else
      var k :| k in s;
      assert (s - {k}) + {k} == s;
      Enumeration(s - {k}) + [k]
  }

  /** The keys of m in strcmp order. */
  ghost function SortedKeysOf(m: map<seq<Byte>, seq<Byte>>): (ks: seq<seq<Byte>>)
    ensures Enumerates(ks, m) && Sorted(ks)
  {
    SortKeys(Enumeration(m.Keys))
  }

  /** What sw_hash_string_dict returns for the dictionary m, md5 being the
      hex digest GChecksum computes: a function of m alone. */
  ghost function DictHash(m: map<seq<Byte>, seq<Byte>>, md5: seq<Byte> -> string): string {
    var ks := SortedKeysOf(m);
    assert forall k | k in ks :: k in multiset(ks);
    md5(Feed(ks, m))
  }

  /** A dictionary with one entry feeds its key and then its value. */
  lemma SingleKey(k: seq<Byte>, v: seq<Byte>)
    ensures SortedKeysOf(map[k := v]) == [k]
    ensures Feed([k], map[k := v]) == k + v
  {
    var m := map[k := v];
    assert m.Keys == {k};
    SortedUnique(SortedKeysOf(m), [k]);
  }

  /** sw_hash_string_dict: NULL for a NULL table; otherwise the checksum of
      every key followed by its value, keys in strcmp order.  keys is what
      g_hash_table_get_keys returns; the result does not depend on its
      order. */
  method HashStringDict(hash: Option<map<seq<Byte>, seq<Byte>>>, keys: seq<seq<Byte>>, md5: seq<Byte> -> string)
    returns (r: Option<string>)
    requires hash.Some? ==> Enumerates(keys, hash.value)
    ensures hash.None? ==> r.None?
    ensures hash.Some? ==> r == Some(DictHash(hash.value, md5))
  {
    if hash.None? {
      return None;
    }
    var m := hash.value;
    var sorted := SortKeys(keys);
    SortedUnique(sorted, SortedKeysOf(m));
    assert forall k | k in sorted :: k in m by {
      forall k | k in sorted ensures k in m {
        assert k in multiset(sorted);
      }
    }
    var sum: seq<Byte> := [];
    var rest := sorted;
    while rest != []
      invariant forall k | k in rest :: k in m
      invariant sum + Feed(rest, m) == Feed(sorted, m)
    {
      FeedStep(sum, rest, m);
      sum := sum + rest[0];
      sum := sum + m[rest[0]];
      rest := rest[1..];
    }
    assert sum == Feed(sorted, m);
    r := Some(md5(sum));
  }

  /** One turn of the loop feeding the checksum. */
  lemma FeedStep(sum: seq<Byte>, rest: seq<seq<Byte>>, m: map<seq<Byte>, seq<Byte>>)
    requires rest != [] && forall k | k in rest :: k in m
    ensures sum + Feed(rest, m) == sum + rest[0] + m[rest[0]] + Feed(rest[1..], m)
  {
  }

  /** The checksum runs each key into its value, so two one-entry
      dictionaries whose key and value run together into the same bytes,
      such as {"a": "bc"} and {"ab": "c"}, hash alike whatever the digest. */
  lemma KeysRunIntoValues(k1: seq<Byte>, v1: seq<Byte>, k2: seq<Byte>, v2: seq<Byte>, md5: seq<Byte> -> string)
    requires k1 + v1 == k2 + v2
    ensures DictHash(map[k1 := v1], md5) == DictHash(map[k2 := v2], md5)
  {
    SingleKey(k1, v1);
    SingleKey(k2, v2);
  }

}
