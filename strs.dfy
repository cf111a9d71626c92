/** String helpers shared by the model: the C library and GLib string
    functions the source relies on (printf's %d, strstr, g_str_has_prefix,
    g_strsplit, g_strjoin), stated on sequences of characters. */
module Strs {
  import opened Wrappers

  predicate IsDigit(c: char) {
    '0' <= c <= '9'
  }

  predicate AllDigits(s: string) {
    forall i | 0 <= i < |s| :: IsDigit(s[i])
  }

  function DigitChar(d: nat): (c: char)
    requires d < 10
    ensures IsDigit(c)
  {
    "0123456789"[d]
  }

  function DigitValue(c: char): (d: nat)
    requires IsDigit(c)
    ensures d < 10
  {
    (c as int - '0' as int) as nat
  }

  /** printf "%d" of a non-negative number. */
  function NatToDecimal(n: nat): (s: string)
    decreases n
  {
    if n < 10 then [DigitChar(n)] else NatToDecimal(n / 10) + [DigitChar(n % 10)]
  }

  /** The number a string of decimal digits spells (most significant first). */
  function DecimalValue(s: string): nat
    requires AllDigits(s)
  {
    if s == [] then 0 else DecimalValue(s[..|s| - 1]) * 10 + DigitValue(s[|s| - 1])
  }

  /** Reading back what "%d" printed yields the number. */
  lemma {:induction false} DecimalRoundTrip(n: nat)
    ensures |NatToDecimal(n)| > 0 && AllDigits(NatToDecimal(n))
    ensures DecimalValue(NatToDecimal(n)) == n
  {
    if n >= 10 {
      DecimalRoundTrip(n / 10);
      var s := NatToDecimal(n);
      assert s[..|s| - 1] == NatToDecimal(n / 10);
      assert DigitValue(DigitChar(n % 10)) == n % 10 by {
        var k := n % 10;
        assert "0123456789"[k] as int == '0' as int + k;
      }
    } else {
      assert DigitValue(DigitChar(n)) == n by {
        assert "0123456789"[n] as int == '0' as int + n;
      }
      assert NatToDecimal(n)[..0] == [];
    }
  }

  /** Distinct numbers print differently. */
  lemma DecimalInjective(m: nat, n: nat)
    requires m != n
    ensures NatToDecimal(m) != NatToDecimal(n)
  {
    DecimalRoundTrip(m);
    DecimalRoundTrip(n);
  }

  /** printf "%lld" of any number: a minus sign before the digits of a
      negative one. */
  function IntToDecimal(i: int): (s: string)
  {
    if i < 0 then "-" + NatToDecimal(-i) else NatToDecimal(i)
  }

  /** Distinct numbers print differently, whatever their signs. */
  lemma IntDecimalInjective(m: int, n: int)
    requires m != n
    ensures IntToDecimal(m) != IntToDecimal(n)
  {
    DecimalRoundTrip(if m < 0 then -m else m);
    DecimalRoundTrip(if n < 0 then -n else n);
    if m < 0 && n < 0 {
      DecimalInjective(-m, -n);
      PrefixCancel("-", NatToDecimal(-m), NatToDecimal(-n));
    } else if m < 0 {
      assert IntToDecimal(m)[0] == '-';
      assert IsDigit(IntToDecimal(n)[0]);
    } else if n < 0 {
      assert IntToDecimal(n)[0] == '-';
      assert IsDigit(IntToDecimal(m)[0]);
    } else {
      DecimalInjective(m, n);
    }
  }

  /** Two strings that share a prefix are equal exactly when the rests are. */
  lemma PrefixCancel(p: string, a: string, b: string)
    ensures p + a == p + b <==> a == b
  {
    if p + a == p + b {
      assert a == (p + a)[|p|..];
      assert b == (p + b)[|p|..];
    }
  }

  /** Two strings that share a suffix are equal exactly when the starts are. */
  lemma SuffixCancel(a: string, b: string, q: string)
    ensures a + q == b + q <==> a == b
  {
    if a + q == b + q {
      assert a == (a + q)[..|a|];
      assert b == (b + q)[..|b|];
    }
  }

  predicate IsPrefix(p: string, s: string) {
    |p| <= |s| && s[..|p|] == p
  }

  predicate OccursAt(s: string, sub: string, i: nat) {
    i + |sub| <= |s| && s[i..i + |sub|] == sub
  }

  /** strstr(s, sub) != NULL: sub occurs at some position of s. */
  predicate Contains(s: string, sub: string)
    decreases |s|
  {
    IsPrefix(sub, s) || (|s| > 0 && Contains(s[1..], sub))
  }

  lemma {:induction false} ContainsOccurs(s: string, sub: string)
    ensures Contains(s, sub) <==> exists i: nat :: OccursAt(s, sub, i)
    decreases |s|
  {
    if IsPrefix(sub, s) {
      assert OccursAt(s, sub, 0);
    }
    if |s| > 0 {
      ContainsOccurs(s[1..], sub);
      if exists i: nat :: OccursAt(s, sub, i) {
        var i: nat :| OccursAt(s, sub, i);
        if i > 0 {
          assert OccursAt(s[1..], sub, i - 1);
        }
      }
      if exists i: nat :: OccursAt(s[1..], sub, i) {
        var i: nat :| OccursAt(s[1..], sub, i);
        assert OccursAt(s, sub, i + 1);
      }
    } else {
      if exists i: nat :: OccursAt(s, sub, i) {
        var i: nat :| OccursAt(s, sub, i);
        assert i == 0;
      }
    }
  }

  /** The position of the first occurrence of c in s. */
  function IndexOf(s: string, c: char): (r: Option<nat>)
    ensures r.Some? ==> r.value < |s| && s[r.value] == c && c !in s[..r.value]
    ensures r.None? ==> c !in s
  {
    if s == [] then None
    else if s[0] == c then Some(0)
    else match IndexOf(s[1..], c)
      case None => None
      case Some(i) => Some(i + 1)
  }

  /** g_strsplit (s, sep, 2) on a non-empty s: the parts before and after the
      first separator, or the whole string when there is none. */
  function SplitFirst(s: string, sep: char): (r: seq<string>)
    ensures 1 <= |r| <= 2
    ensures |r| == 1 <==> sep !in s
    ensures |r| == 1 ==> r[0] == s
    ensures |r| == 2 ==> sep !in r[0] && s == r[0] + [sep] + r[1]
  {
    match IndexOf(s, sep)
    case None => [s]
    case Some(i) => assert s == s[..i] + [sep] + s[i + 1..]; [s[..i], s[i + 1..]]
  }

  /** g_strsplit (s, sep, -1): the pieces between separators; an empty string
      gives no pieces. */
  function Split(s: string, sep: char): (r: seq<string>)
    ensures s != [] ==> |r| >= 1
    ensures forall i | 0 <= i < |r| :: sep !in r[i]
  {
    if s == [] then [] else SplitPieces(s, sep)
  }

  function SplitPieces(s: string, sep: char): (r: seq<string>)
    ensures |r| >= 1
    ensures forall i | 0 <= i < |r| :: sep !in r[i]
    decreases |s|
  {
    match IndexOf(s, sep)
    case None => [s]
    case Some(i) => [s[..i]] + SplitPieces(s[i + 1..], sep)
  }

  /** g_strjoinv */
  function Join(parts: seq<string>, sep: char): string {
    if |parts| == 0 then []
    else if |parts| == 1 then parts[0]
    else parts[0] + [sep] + Join(parts[1..], sep)
  }

  /** Joining the pieces of a split restores the string. */
  lemma {:induction false} JoinSplitPieces(s: string, sep: char)
    ensures Join(SplitPieces(s, sep), sep) == s
    decreases |s|
  {
    match IndexOf(s, sep)
    case None =>
    case Some(i) =>
      JoinSplitPieces(s[i + 1..], sep);
      JoinSplitStep(s, sep, i);
  }

  /** The step of the induction: the first piece, the separator, and the
      joined rest. */
  lemma JoinSplitStep(s: string, sep: char, i: nat)
    requires IndexOf(s, sep) == Some(i)
    requires Join(SplitPieces(s[i + 1..], sep), sep) == s[i + 1..]
    ensures Join(SplitPieces(s, sep), sep) == s
  {
    var rest := SplitPieces(s[i + 1..], sep);
    assert SplitPieces(s, sep) == [s[..i]] + rest;
    JoinCons(s[..i], rest, sep);
    CutAt(s, i);
  }

  /** A string is what comes before position i, the character at i, and
      what comes after. */
  lemma CutAt(s: string, i: nat)
    requires i < |s|
    ensures s == s[..i] + [s[i]] + s[i + 1..]
  {
    assert s[..i] + [s[i]] == s[..i + 1];
  }

  /** Joining a first part before at least one more. */
  lemma JoinCons(a: string, rest: seq<string>, sep: char)
    requires |rest| >= 1
    ensures Join([a] + rest, sep) == a + [sep] + Join(rest, sep)
  {
    assert ([a] + rest)[1..] == rest;
  }

  /** Replaces every occurrence of one character by another (as a loop over
      the buffer does in place). */
  function ReplaceChar(s: string, from: char, to: char): (r: string)
    ensures |r| == |s|
    ensures forall i | 0 <= i < |s| :: r[i] == if s[i] == from then to else s[i]
  {
    if s == [] then [] else [if s[0] == from then to else s[0]] + ReplaceChar(s[1..], from, to)
  }

  /** isspace in the C locale. */
  predicate IsSpace(c: char)
  {
    c == ' ' || c == '\t' || c == '\n' || c == 11 as char || c == 12 as char || c == '\r'
  }

  /** The position of the first character that is not white space. */
  function SkipSpace(s: string, i: nat): (r: nat)
    requires i <= |s|
    ensures i <= r <= |s|
    ensures r < |s| ==> !IsSpace(s[r])
    decreases |s| - i
  {
    if i < |s| && IsSpace(s[i]) then SkipSpace(s, i + 1) else i
  }

  /** The length of the run of decimal digits starting at i. */
  function DigitRun(s: string, i: nat): (n: nat)
    requires i <= |s|
    ensures i + n <= |s|
    ensures AllDigits(s[i..i + n])
    ensures i + n < |s| ==> !IsDigit(s[i + n])
    decreases |s| - i
  {
    if i < |s| && IsDigit(s[i]) then
      var m := DigitRun(s, i + 1);
      assert s[i..i + 1 + m] == [s[i]] + s[i + 1..i + 1 + m];
      1 + m
    else 0
  }

  /** The number "%d" (and strtol in base 10) reads from the front of s:
      white space, an optional sign and at least one digit; nothing when
      there is no digit. */
  function ScanInt(s: string): (r: Option<int>)
  {
    var i := SkipSpace(s, 0);
    var signed := i < |s| && (s[i] == '-' || s[i] == '+');
    var j := if signed then i + 1 else i;
    var n := DigitRun(s, j);
    if n == 0 then None
    else
      var v: int := DecimalValue(s[j..j + n]);
      Some(if signed && s[i] == '-' then -v else v)
  }

  /** atoi: the number at the front of s, 0 when there is none. */
  function Atoi(s: string): int
  {
    ScanInt(s).GetOr(0)
  }

  /** A run of digits that reaches the end of the string. */
  lemma {:induction false} DigitRunToEnd(s: string, i: nat)
    requires i <= |s| && AllDigits(s[i..])
    ensures DigitRun(s, i) == |s| - i
    decreases |s| - i
  {
    if i < |s| {
      assert IsDigit(s[i..][0]);
      assert s[i + 1..] == s[i..][1..];
      DigitRunToEnd(s, i + 1);
    }
  }

  /** atoi reads back what "%d" printed. */
  lemma AtoiDecimal(n: nat)
    ensures Atoi(NatToDecimal(n)) == n
  {
    var s := NatToDecimal(n);
    DecimalRoundTrip(n);
    assert IsDigit(s[0]);
    assert SkipSpace(s, 0) == 0;
    assert s[0..] == s;
    DigitRunToEnd(s, 0);
    assert s[0..0 + |s|] == s;
  }

  /** The first separator of a + [sep] + b is the one after a, when a holds
      none. */
  lemma {:induction false} IndexAfter(a: string, b: string, sep: char)
    requires sep !in a
    ensures IndexOf(a + [sep] + b, sep) == Some(|a|)
    decreases |a|
  {
    if a != [] {
      assert (a + [sep] + b)[1..] == a[1..] + [sep] + b;
      IndexAfter(a[1..], b, sep);
    }
  }

  /** Two strings cut at the first separator: when neither front part holds
      the separator, equal strings have equal fronts and equal rests. */
  lemma SeparatedCancel(a: string, b: string, c: string, d: string, sep: char)
    requires sep !in a && sep !in c
    requires a + [sep] + b == c + [sep] + d
    ensures a == c && b == d
  {
    IndexAfter(a, b, sep);
    IndexAfter(c, d, sep);
    assert a == (a + [sep] + b)[..|a|];
    assert c == (c + [sep] + d)[..|c|];
    PrefixCancel(a + [sep], b, d);
  }

  /** g_ascii_tolower */
  function AsciiLower(c: char): char
  {
    if 'A' <= c <= 'Z' then (c as int + 32) as char else c
  }

  /** g_ascii_strcasecmp (a, b) == 0: equal once ASCII letters are folded
      to lower case. */
  predicate EqualIgnoringCase(a: string, b: string)
  {
    |a| == |b| && forall i | 0 <= i < |a| :: AsciiLower(a[i]) == AsciiLower(b[i])
  }

  /** strstr as a position: where sub first occurs in s. */
  function FindSub(s: string, sub: string): (r: Option<nat>)
    decreases |s|
  {
    if IsPrefix(sub, s) then Some(0)
    else if s == [] then None
    else match FindSub(s[1..], sub)
      case None => None
      case Some(i) => Some(i + 1)
  }

  /** FindSub finds the first occurrence, and finds one whenever there is
      one. */
  lemma {:induction false} FindSubSpec(s: string, sub: string)
    ensures FindSub(s, sub).Some? ==>
              OccursAt(s, sub, FindSub(s, sub).value) &&
              forall j: nat | j < FindSub(s, sub).value :: !OccursAt(s, sub, j)
    ensures FindSub(s, sub).None? ==> forall j: nat :: !OccursAt(s, sub, j)
    decreases |s|
  {
    if IsPrefix(sub, s) {
      assert s[0..|sub|] == s[..|sub|];
    } else if s == [] {
    } else {
      FindSubSpec(s[1..], sub);
      forall j: nat
        ensures OccursAt(s, sub, j) <==> (j == 0 && IsPrefix(sub, s)) || (j > 0 && OccursAt(s[1..], sub, j - 1))
      {
        if j > 0 && j + |sub| <= |s| {
          assert s[1..][j - 1..j - 1 + |sub|] == s[j..j + |sub|];
        }
        if j == 0 && |sub| <= |s| {
          assert s[0..|sub|] == s[..|sub|];
        }
      }
    }
  }

  /** g_strjoinv with a string separator. */
  function JoinWith(parts: seq<string>, sep: string): string
  {
    if |parts| == 0 then []
    else if |parts| == 1 then parts[0]
    else parts[0] + sep + JoinWith(parts[1..], sep)
  }

  /** g_strsplit (s, delim, max) on a non-empty s with max >= 1: the pieces
      between the first max - 1 occurrences of delim, the last piece holding
      the rest of the string. */
  function SplitMax(s: string, delim: string, max: nat): (r: seq<string>)
    requires |delim| > 0 && max >= 1
    ensures 1 <= |r| <= max
    decreases max
  {
    if max == 1 then [s]
    else match FindSub(s, delim)
      case None => [s]
      case Some(i) =>
        FindSubSpec(s, delim);
        [s[..i]] + SplitMax(s[i + |delim|..], delim, max - 1)
  }

  /** Joining the pieces with the delimiter gives the string back. */
  lemma {:induction false} SplitMaxJoin(s: string, delim: string, max: nat)
    requires |delim| > 0 && max >= 1
    ensures JoinWith(SplitMax(s, delim, max), delim) == s
    decreases max
  {
    if max > 1 && FindSub(s, delim).Some? {
      var i := FindSub(s, delim).value;
      FindSubSpec(s, delim);
      var rest := s[i + |delim|..];
      SplitMaxJoin(rest, delim, max - 1);
      var tail := SplitMax(rest, delim, max - 1);
      assert SplitMax(s, delim, max) == [s[..i]] + tail;
      assert ([s[..i]] + tail)[1..] == tail;
      assert s == s[..i] + delim + rest by {
        assert s[i..i + |delim|] == delim;
      }
    }
  }

  /** No piece but the last holds the delimiter, and the last holds it only
      when the limit was reached. */
  lemma {:induction false} SplitMaxPieces(s: string, delim: string, max: nat)
    requires |delim| > 0 && max >= 1
    ensures var r := SplitMax(s, delim, max);
            forall k | 0 <= k < |r| - 1 :: !Contains(r[k], delim)
    ensures var r := SplitMax(s, delim, max);
            |r| < max ==> !Contains(r[|r| - 1], delim)
    decreases max
  {
    var r := SplitMax(s, delim, max);
    FindSubSpec(s, delim);
    if max > 1 {
      match FindSub(s, delim)
      case None =>
        ContainsOccurs(s, delim);
      case Some(i) =>
        var rest := s[i + |delim|..];
        SplitMaxPieces(rest, delim, max - 1);
        var tail := SplitMax(rest, delim, max - 1);
        assert r == [s[..i]] + tail;
        NoEarlierOccurrence(s, delim, i);
        forall k | 1 <= k < |r|
          ensures r[k] == tail[k - 1]
        {
        }
    }
  }

  /** The part before the first occurrence holds no occurrence. */
  lemma NoEarlierOccurrence(s: string, sub: string, i: nat)
    requires i <= |s| && |sub| > 0
    requires forall j: nat | j < i :: !OccursAt(s, sub, j)
    ensures !Contains(s[..i], sub)
  {
    ContainsOccurs(s[..i], sub);
    forall j: nat
      ensures !OccursAt(s[..i], sub, j)
    {
      PrefixOccurrence(s, sub, i, j);
    }
  }

  /** An occurrence in a prefix is an occurrence in the whole string. */
  lemma PrefixOccurrence(s: string, sub: string, i: nat, j: nat)
    requires i <= |s|
    ensures OccursAt(s[..i], sub, j) ==> OccursAt(s, sub, j)
  {
    if j + |sub| <= i {
      assert s[..i][j..j + |sub|] == s[j..j + |sub|];
    }
  }
}
