/** The Twitter filter stream (services/twitter/twitter-item-stream.c): a
    continuous POST to 1/statuses/filter.json with delimited=length, whose
    body is a sequence of frames `<decimal length>\r\n<payload>`, possibly
    preceded by keep-alive "\r\n" pairs, cut into chunks at arbitrary points.
    Each chunk is appended to a buffer, complete frames are taken off its
    front, and the status each payload parses into becomes an item when its
    text contains the track keywords.

    The framing as written has three defects (see the lemmas LoneCrHangs,
    KeepAlivesShiftCount and KeepAliveBetweenFrames); the stream class uses
    the framing the code evidently intends, Process, and ProcessPrefix
    proves that it hands out exactly the payloads of every complete frame
    however the stream is cut. */
module TwitterStream {
  import opened Wrappers
  import opened Adapters
  import Strs

  // ---------------------------------------------------------------------
  // sscanf (s, "%d\r\n", &n) == 1

  /** A header is a run of digits ended by a character that is not one. */
  lemma HeaderOfDigits(d: string, rest: string)
    requires |d| > 0 && Strs.AllDigits(d)
    requires |rest| > 0 && !Strs.IsDigit(rest[0])
    ensures Strs.ScanInt(d + rest) == Some(Strs.DecimalValue(d))
  {
    var s := d + rest;
    assert !Strs.IsSpace(s[0]);
    assert s[0] != '-' && s[0] != '+';
    DigitRunOf(s, 0, |d|);
    assert s[..|d|] == d;
  }

  lemma {:induction false} DigitRunOf(s: string, i: nat, n: nat)
    requires i + n < |s| && Strs.AllDigits(s[i..i + n]) && !Strs.IsDigit(s[i + n])
    ensures Strs.DigitRun(s, i) == n
    decreases n
  {
    if n > 0 {
      assert Strs.IsDigit(s[i..i + n][0]);
      assert s[i + 1..i + n] == s[i..i + n][1..];
      DigitRunOf(s, i + 1, n - 1);
    }
  }

  // ---------------------------------------------------------------------
  // The stream as the server sends it

  /** What the stream carries: a keep-alive, or a frame holding a payload. */
  datatype Piece = KeepAlive | Frame(payload: string)

  function PieceText(p: Piece): (t: string)
    ensures |t| >= 2
  {
    match p
    case KeepAlive => "\r\n"
    case Frame(m) => Strs.NatToDecimal(|m|) + "\r\n" + m
  }

  function PiecePayload(p: Piece): seq<string>
  {
    if p.Frame? then [p.payload] else []
  }

  /** The bytes a list of pieces is sent as. */
  function Text(ps: seq<Piece>): string
  {
    FlatMap(ps, PieceText)
  }

  /** The payloads of the frames, in order. */
  function Payloads(ps: seq<Piece>): seq<string>
  {
    FlatMap(ps, PiecePayload)
  }

  /** The concatenation of what each element maps to. */
  function FlatMap<T, U>(xs: seq<T>, f: T -> seq<U>): seq<U>
  {
    if xs == [] then [] else f(xs[0]) + FlatMap(xs[1..], f)
  }

  lemma {:induction false} FlatMapAppend<T, U>(a: seq<T>, b: seq<T>, f: T -> seq<U>)
    ensures FlatMap(a + b, f) == FlatMap(a, f) + FlatMap(b, f)
  {
    if a != [] {
      FlatMapAppend(a[1..], b, f);
      assert (a + b)[1..] == a[1..] + b;
      assert (a + b)[0] == a[0];
    } else {
      assert a + b == b;
    }
  }

  lemma FlatMapOne<T, U>(x: T, f: T -> seq<U>)
    ensures FlatMap([x], f) == f(x)
  {
    assert [x][1..] == [];
  }

  lemma FlatMapThree<T, U>(x: T, y: T, z: T, f: T -> seq<U>)
    ensures FlatMap([x, y, z], f) == f(x) + f(y) + f(z)
  {
    FlatMapAppend([x], [y], f);
    FlatMapAppend([x] + [y], [z], f);
    FlatMapOne(x, f);
    FlatMapOne(y, f);
    FlatMapOne(z, f);
    assert [x, y, z] == [x] + [y] + [z];
  }


  /** How many leading pieces lie wholly within the first n bytes. */
  function Complete(ps: seq<Piece>, n: nat): (k: nat)
    ensures k <= |ps|
  {
    if ps == [] || |PieceText(ps[0])| > n then 0
    else 1 + Complete(ps[1..], n - |PieceText(ps[0])|)
  }

  // ---------------------------------------------------------------------
  // The framing the code evidently intends

  /** The payloads taken off a buffer and what stays buffered. */
  datatype Framed = Framed(payloads: seq<string>, rest: string)

  /** Keep-alive pairs are dropped, then a frame whose header, newline and
      payload are all buffered is taken off; anything else waits for more
      data. */
  function Process(buf: string): (f: Framed)
    ensures |f.rest| <= |buf|
    decreases |buf|
  {
    if |buf| >= 2 && buf[0] == '\r' && buf[1] == '\n' then Process(buf[2..])
    else match Strs.ScanInt(buf)
      case None => Framed([], buf)
      case Some(len) =>
        match Strs.IndexOf(buf, '\n')
        case None => Framed([], buf)
        case Some(nl) =>
          if 0 <= len && nl + 1 + len <= |buf| then
            var after := Process(buf[nl + 1 + len..]);
            Framed([buf[nl + 1..nl + 1 + len]] + after.payloads, after.rest)
          else Framed([], buf)
  }

  /** A whole piece at the front of the buffer is taken off, its payload
      handed out, and processing goes on with what follows it. */
  lemma ProcessPiece(p: Piece, rest: string)
    ensures Process(PieceText(p) + rest) ==
            Framed(PiecePayload(p) + Process(rest).payloads, Process(rest).rest)
  {
    if p.KeepAlive? {
      var buf := PieceText(p) + rest;
      assert buf[0] == '\r' && buf[1] == '\n' && buf[2..] == rest;
      assert Process(buf) == Process(rest);
      assert PiecePayload(p) + Process(rest).payloads == Process(rest).payloads;
    } else {
      ProcessFrame(p.payload, rest);
    }
  }

  lemma ProcessFrame(m: string, rest: string)
    ensures Process(PieceText(Frame(m)) + rest) ==
            Framed([m] + Process(rest).payloads, Process(rest).rest)
  {
    var d := Strs.NatToDecimal(|m|);
    var buf := PieceText(Frame(m)) + rest;
    FrameFront(m, rest);
    assert buf[|d| + 2..|d| + 2 + |m|] == m;
    assert buf[|d| + 2 + |m|..] == rest;
  }

  /** The front of a whole frame: not a keep-alive, a header giving the
      payload's length, and the newline right after it. */
  lemma FrameFront(m: string, rest: string)
    ensures var d := Strs.NatToDecimal(|m|);
            var buf := PieceText(Frame(m)) + rest;
            |buf| == |d| + 2 + |m| + |rest| && buf[0] != '\r' &&
            Strs.ScanInt(buf) == Some(|m|) && Strs.IndexOf(buf, '\n') == Some(|d| + 1) &&
            buf[|d| + 2..] == m + rest
  {
    FrameHeader(m, rest);
    FrameNewline(m, rest);
    FrameBody(m, rest);
  }

  /** A frame's header reads as its payload's length. */
  lemma FrameHeader(m: string, rest: string)
    ensures var buf := PieceText(Frame(m)) + rest;
            buf[0] != '\r' && Strs.ScanInt(buf) == Some(|m|)
  {
    var d := Strs.NatToDecimal(|m|);
    Strs.DecimalRoundTrip(|m|);
    var afterDigits := "\r\n" + (m + rest);
    FrameShape(d, m, rest, "\r\n", "\r", "\n");
    assert afterDigits[0] == '\r' && !Strs.IsDigit(afterDigits[0]);
    HeaderOfDigits(d, afterDigits);
  }

  /** A frame's first newline ends its header. */
  lemma FrameNewline(m: string, rest: string)
    ensures Strs.IndexOf(PieceText(Frame(m)) + rest, '\n') == Some(|Strs.NatToDecimal(|m|)| + 1)
  {
    var d := Strs.NatToDecimal(|m|);
    Strs.DecimalRoundTrip(|m|);
    FrameShape(d, m, rest, "\r\n", "\r", "\n");
    NewlineAfterDigits(d, "\n" + (m + rest));
  }

  /** After the header and its line end come the payload and the rest. */
  lemma FrameBody(m: string, rest: string)
    ensures var d := Strs.NatToDecimal(|m|);
            var buf := PieceText(Frame(m)) + rest;
            |buf| == |d| + 2 + |m| + |rest| && buf[|d| + 2..] == m + rest
  {
    var d := Strs.NatToDecimal(|m|);
    var buf := PieceText(Frame(m)) + rest;
    assert buf == (d + "\r\n") + (m + rest);
  }

  /** Digits and a carriage return come before the first newline. */
  lemma NewlineAfterDigits(d: string, rest: string)
    requires Strs.AllDigits(d) && |rest| > 0 && rest[0] == '\n'
    ensures Strs.IndexOf(d + "\r" + rest, '\n') == Some(|d| + 1)
  {
    var s := d + "\r" + rest;
    assert s[..|d| + 1] == d + "\r";
    assert '\n' !in d + "\r" by {
      forall k | 0 <= k < |d| + 1
        ensures (d + "\r")[k] != '\n'
      {
        if k < |d| {
          assert Strs.IsDigit(d[k]);
        }
      }
    }
    IndexAfterDigits(s, |d| + 1);
  }

  /** How a frame's text with more bytes after it associates. */
  lemma FrameShape(d: string, m: string, rest: string, crlf: string, cr: string, lf: string)
    requires crlf == "\r\n" && cr == "\r" && lf == "\n"
    ensures (d + crlf + m) + rest == d + (crlf + (m + rest)) == d + cr + (lf + (m + rest))
  {
    assert crlf == cr + lf;
  }

  /** A prefix reaching past the first part of a concatenation. */
  lemma PrefixOfConcat(a: string, b: string, n: nat)
    requires |a| <= n <= |a| + |b|
    ensures (a + b)[..n] == a + b[..n - |a|]
  {
  }

  lemma IndexAfterDigits(s: string, k: nat)
    requires k < |s| && s[k] == '\n' && '\n' !in s[..k]
    ensures Strs.IndexOf(s, '\n') == Some(k)
  {
  }

  /** A proper prefix of a piece is left in the buffer untouched. */
  lemma PartialPieceWaits(p: Piece, n: nat)
    requires n < |PieceText(p)|
    ensures Process(PieceText(p)[..n]) == Framed([], PieceText(p)[..n])
  {
    if p.KeepAlive? {
      if n == 1 {
        var q := PieceText(p)[..n];
        assert q == "\r";
        assert Strs.SkipSpace(q, 0) == 1 by {
          assert Strs.IsSpace(q[0]);
        }
      }
    } else {
      var d := Strs.NatToDecimal(|p.payload|);
      if n <= |d| + 1 {
        PartialHeaderWaits(p.payload, n);
      } else {
        PartialPayloadWaits(p.payload, n);
      }
    }
  }

  /** Part of a frame's header: no newline has arrived yet. */
  lemma PartialHeaderWaits(m: string, n: nat)
    requires n <= |Strs.NatToDecimal(|m|)| + 1
    ensures Process(PieceText(Frame(m))[..n]) == Framed([], PieceText(Frame(m))[..n])
  {
    var d := Strs.NatToDecimal(|m|);
    Strs.DecimalRoundTrip(|m|);
    var q := PieceText(Frame(m))[..n];
    FrameShape(d, m, "", "\r\n", "\r", "\n");
    assert m + "" == m;
    assert PieceText(Frame(m)) == (d + "\r") + ("\n" + m);
    assert q == (d + "\r")[..n];
    assert '\n' !in q by {
      forall k | 0 <= k < n
        ensures q[k] != '\n'
      {
        if k < |d| {
          assert q[k] == d[k] && Strs.IsDigit(d[k]);
        }
      }
    }
    if n > 0 {
      assert q[0] == d[0] && Strs.IsDigit(d[0]);
    }
  }

  /** A frame's header and part of its payload: the payload is short. */
  lemma PartialPayloadWaits(m: string, n: nat)
    requires |Strs.NatToDecimal(|m|)| + 1 < n < |PieceText(Frame(m))|
    ensures Process(PieceText(Frame(m))[..n]) == Framed([], PieceText(Frame(m))[..n])
  {
    var d := Strs.NatToDecimal(|m|);
    Strs.DecimalRoundTrip(|m|);
    var q := PieceText(Frame(m))[..n];
    var part := m[..n - |d| - 2];
    PrefixOfConcat(d + "\r\n", m, n);
    FrameShape(d, part, "", "\r\n", "\r", "\n");
    assert part + "" == part;
    assert q == d + ("\r\n" + part) == d + "\r" + ("\n" + part);
    HeaderOfDigits(d, "\r\n" + part);
    NewlineAfterDigits(d, "\n" + part);
    assert Strs.ScanInt(q) == Some(|m|);
    assert Strs.IndexOf(q, '\n') == Some(|d| + 1);
    assert q[0] == d[0] && Strs.IsDigit(d[0]);
    assert |q| < |d| + 2 + |m|;
  }

  lemma TextPrefix(ps: seq<Piece>, k: nat)
    requires 0 < k <= |ps|
    ensures Text(ps[..k]) == PieceText(ps[0]) + Text(ps[1..][..k - 1])
    ensures Payloads(ps[..k]) == PiecePayload(ps[0]) + Payloads(ps[1..][..k - 1])
  {
    assert ps[..k][1..] == ps[1..][..k - 1];
    assert ps[..k][0] == ps[0];
  }

  /** Framing a prefix of a well-formed stream: the payloads of the frames
      wholly within it are handed out, and what follows the last whole piece
      stays buffered. */
  lemma {:induction false} ProcessPrefix(ps: seq<Piece>, n: nat)
    requires n <= |Text(ps)|
    ensures FramesPrefix(ps, n)
    decreases |ps|
  {
    if ps == [] {
      assert Text(ps)[..n] == "";
      assert ps[..0] == [];
    } else if |PieceText(ps[0])| > n {
      PrefixInFirstPiece(ps, n);
    } else {
      ProcessPrefix(ps[1..], n - |PieceText(ps[0])|);
      PrefixPastFirstPiece(ps, n);
    }
  }

  /** Framing the first n bytes of the stream hands out the payloads of the
      pieces wholly within them, and leaves buffered exactly the bytes after
      those pieces. */
  ghost predicate FramesPrefix(ps: seq<Piece>, n: nat)
    requires n <= |Text(ps)|
  {
    var k := Complete(ps, n);
    |Text(ps[..k])| <= n &&
    Text(ps)[..n] == Text(ps[..k]) + Process(Text(ps)[..n]).rest &&
    Process(Text(ps)[..n]).payloads == Payloads(ps[..k])
  }

  /** The first n bytes end inside the first piece: nothing is handed out. */
  lemma PrefixInFirstPiece(ps: seq<Piece>, n: nat)
    requires ps != [] && n < |PieceText(ps[0])|
    ensures Complete(ps, n) == 0
    ensures Text(ps)[..n] == Process(Text(ps)[..n]).rest
    ensures Process(Text(ps)[..n]).payloads == []
  {
    var t := PieceText(ps[0]);
    assert Text(ps) == t + Text(ps[1..]);
    assert Text(ps)[..n] == t[..n];
    PartialPieceWaits(ps[0], n);
  }

  /** The first piece lies within the first n bytes: it is handed out, and
      the rest frames as the remaining pieces' prefix does. */
  lemma PrefixPastFirstPiece(ps: seq<Piece>, n: nat)
    requires ps != [] && |PieceText(ps[0])| <= n <= |Text(ps)|
    requires FramesPrefix(ps[1..], n - |PieceText(ps[0])|)
    ensures FramesPrefix(ps, n)
  {
    var t := PieceText(ps[0]);
    var m := n - |t|;
    var rest := Text(ps[1..])[..m];
    var k := Complete(ps[1..], m);
    assert Complete(ps, n) == 1 + k;
    assert Text(ps) == t + Text(ps[1..]);
    assert Text(ps)[..n] == t + rest;
    ProcessPiece(ps[0], rest);
    var after := Process(rest);
    assert Process(t + rest) == Framed((if ps[0].Frame? then [ps[0].payload] else []) + after.payloads, after.rest);
    TextPrefix(ps, 1 + k);
    var x := Text(ps[1..][..k]);
    assert Text(ps[..1 + k]) == t + x;
    assert rest == x + after.rest;
    Associate(t, x, after.rest);
  }

  lemma Associate<T>(a: seq<T>, b: seq<T>, c: seq<T>)
    ensures a + (b + c) == (a + b) + c
  {
  }

  /** The whole stream, however it was cut, leaves nothing buffered once it
      has all arrived, and every payload has been handed out. */
  lemma WholeStream(ps: seq<Piece>)
    ensures Process(Text(ps)) == Framed(Payloads(ps), "")
  {
    ProcessPrefix(ps, |Text(ps)|);
    assert Text(ps)[..|Text(ps)|] == Text(ps);
    CompleteAll(ps);
    assert ps[..|ps|] == ps;
  }

  lemma {:induction false} CompleteAll(ps: seq<Piece>)
    ensures Complete(ps, |Text(ps)|) == |ps|
  {
    if ps != [] {
      CompleteAll(ps[1..]);
    }
  }

  /** Framing the first n bytes of a text, then the buffer left over with
      the bytes up to m appended, hands out what framing the first m bytes
      at once hands out, and leaves the same buffer. */
  ghost predicate Composes(text: string, n: nat, m: nat)
    requires n <= m <= |text|
  {
    var first := Process(text[..n]);
    var second := Process(first.rest + text[n..m]);
    first.payloads + second.payloads == Process(text[..m]).payloads &&
    second.rest == Process(text[..m]).rest
  }

  /** Feeding a chunk after earlier ones is framing the longer prefix: the
      buffer left by the first n bytes, with the next chunk appended, frames
      to what the first m bytes frame to at once. */
  lemma {:induction false} ChunksCompose(ps: seq<Piece>, n: nat, m: nat)
    requires n <= m <= |Text(ps)|
    ensures Composes(Text(ps), n, m)
    decreases |ps|
  {
    if ps == [] {
      assert Text(ps)[..n] == "";
      ComposeWaiting(Text(ps), n, m);
    } else if |PieceText(ps[0])| > n {
      PrefixInFirstPiece(ps, n);
      ComposeWaiting(Text(ps), n, m);
    } else {
      var t, rest := PieceText(ps[0]), ps[1..];
      var n', m' := n - |t|, m - |t|;
      TextCons(ps, t, rest);
      ChunksCompose(rest, n', m');
      ComposePast(ps[0], Text(rest), Text(ps), n, m, n', m');
    }
  }

  /** The text of pieces is the first piece's text followed by the rest's. */
  lemma TextCons(ps: seq<Piece>, t: string, rest: seq<Piece>)
    requires ps != [] && t == PieceText(ps[0]) && rest == ps[1..]
    ensures Text(ps) == t + Text(rest)
    ensures |Text(rest)| == |Text(ps)| - |t|
  {
  }

  /** When the first n bytes frame to nothing, the second chunk is framed
      with all of them in front of it. */
  lemma ComposeWaiting(text: string, n: nat, m: nat)
    requires n <= m <= |text|
    requires Process(text[..n]) == Framed([], text[..n])
    ensures Composes(text, n, m)
  {
    assert text[..n] + text[n..m] == text[..m];
  }

  /** A whole piece in front of the text changes nothing about how it
      composes. */
  lemma ComposePast(p: Piece, u: string, text: string, n: nat, m: nat, n': nat, m': nat)
    requires text == PieceText(p) + u
    requires |PieceText(p)| <= n <= m <= |text|
    requires n' == n - |PieceText(p)| && m' == m - |PieceText(p)|
    requires Composes(u, n', m')
    ensures Composes(text, n, m)
  {
    var t := PieceText(p);
    CutAfter(t, u, n, m);
    ProcessPiece(p, u[..n']);
    ProcessPiece(p, u[..m']);
    var un := Process(u[..n']);
    ComposeStep(PiecePayload(p), Process(t + u[..n']), Process(t + u[..m']),
                un, Process(u[..m']), Process(un.rest + u[n'..m']));
  }

  /** Cutting a text that starts with t at or after t's end. */
  lemma CutAfter(t: string, u: string, n: nat, m: nat)
    requires |t| <= n <= m <= |t| + |u|
    ensures (t + u)[..n] == t + u[..n - |t|]
    ensures (t + u)[..m] == t + u[..m - |t|]
    ensures (t + u)[n..m] == u[n - |t|..m - |t|]
  {
  }

  /** A whole first piece, framed alike before and after the split: its
      payloads come first either way. */
  lemma ComposeStep(head: seq<string>, fn: Framed, fm: Framed, un: Framed, um: Framed, second: Framed)
    requires fn == Framed(head + un.payloads, un.rest)
    requires fm == Framed(head + um.payloads, um.rest)
    requires un.payloads + second.payloads == um.payloads && second.rest == um.rest
    ensures fn.payloads + second.payloads == fm.payloads && second.rest == fm.rest
  {
    assert head + un.payloads + second.payloads == head + (un.payloads + second.payloads);
  }

  // ---------------------------------------------------------------------
  // The framing as written

  /** g_string_erase (s, 0, n): n characters off the front; a count past the
      end fails the function's check and leaves the string as it was, and a
      negative count erases to the end. */
  function EraseFront(s: string, n: int): (r: string)
    ensures |r| <= |s|
  {
    if n < 0 then "" else if n <= |s| then s[n..] else s
  }

  /** The strip loop as written: while the buffer starts with '\r', two
      characters are erased.  A buffer that comes down to a lone "\r" stays
      "\r" and the loop never ends: the result is then None. */
  function StripAsWritten(s: string): (r: Option<string>)
    decreases |s|
  {
    if |s| > 0 && s[0] == '\r' then
      if |s| >= 2 then StripAsWritten(s[2..]) else None
    else Some(s)
  }

  /** What one round of the callback leaves: the buffer, buf_size and the
      payloads handed to the parser. */
  datatype Written = Written(buf: string, size: int, payloads: seq<string>)

  /** One round of the frame loop as written: the header is read, the
      newline is searched for among the first buf_size bytes (all of them
      when buf_size is negative or past the end), and when buf_size covers
      the frame the payload is handed out, the frame erased and buf_size
      lowered.  Stop when the loop stops.  A header read with no newline
      after it in the window leaves g_utf8_strchr returning NULL, from which
      newline_pos is computed: the round is then Undefined. */
  function RoundAsWritten(buf: string, size: int): (r: Round)
    ensures r.Take? ==> |r.after| < |buf|
  {
    RoundAfterHeader(buf, size, Strs.ScanInt(buf))
  }

  /** The rest of a round, once the header has been read. */
  function RoundAfterHeader(buf: string, size: int, header: Option<int>): (r: Round)
    ensures r.Take? ==> |r.after| < |buf|
  {
    match header
    case None => Stop
    case Some(len) =>
      match Strs.IndexOf(Window(buf, size), '\n')
      case None => Undefined
      case Some(nl) => TakeAfter(buf, size, len, nl)
  }

  /** Where the newline is searched for: the first buf_size bytes, or all of
      them when buf_size is negative or past the end. */
  function Window(buf: string, size: int): (w: string)
    ensures |w| <= |buf|
  {
    if 0 <= size < |buf| then buf[..size] else buf
  }

  /** The payload taken when buf_size covers the frame whose header's
      newline is at nl. */
  function TakeAfter(buf: string, size: int, len: int, nl: nat): (r: Round)
    requires nl < |buf|
    ensures r.Take? ==> |r.after| < |buf|
  {
    if size >= nl + 1 + len then
      var body := buf[nl + 1..];
      var payload := if 0 <= len <= |body| then body[..len] else body;
      Take(payload, EraseFront(body, len), size - (nl + 1 + len))
    else Stop
  }

  /** What a round of the frame loop does: stop, hand out a payload and go
      on with what is left and the lowered buf_size, or subtract a NULL
      pointer, whose outcome C leaves undefined. */
  datatype Round = Stop | Take(payload: string, after: string, left: int) | Undefined

  /** The frame loop as written; None once a round is undefined. */
  function FramesAsWritten(buf: string, size: int): (w: Option<Written>)
    decreases |buf|
  {
    match RoundAsWritten(buf, size)
    case Stop => Some(Written(buf, size, []))
    case Undefined => None
    case Take(payload, after, left) =>
      match FramesAsWritten(after, left)
      case None => None
      case Some(next) => Some(Written(next.buf, next.size, [payload] + next.payloads))
  }

  /** The callback as written on one chunk, from the buffer and buf_size it
      left before (None before the first chunk); None when it never
      returns or reaches undefined behaviour. */
  function ChunkAsWritten(prev: Option<(string, int)>, data: string): Option<Written>
  {
    var buf := (if prev.Some? then prev.value.0 else "") + data;
    var size := (if prev.Some? then prev.value.1 else 0) + |data|;
    match StripAsWritten(buf)
    case None => None
    case Some(stripped) => FramesAsWritten(stripped, size)
  }

  /** A chunk holding only the first half of a keep-alive hangs the
      callback: the strip loop finds '\r' at the front of the buffer for
      ever.  Framed as intended, the half keep-alive waits for its '\n'. */
  lemma LoneCrHangs(cr: string)
    requires cr == "\r"
    ensures ChunkAsWritten(None, cr) == None
    ensures Process(cr) == Framed([], cr)
  {
    PartialPieceWaits(KeepAlive, 1);
  }

  /** A chunk that ends inside a header, before its newline: sscanf still
      reads the count, g_utf8_strchr finds no newline and returns NULL, and
      newline_pos is computed from that NULL, which C leaves undefined.
      Framed as intended, the header waits for the rest of the frame. */
  lemma SplitHeaderUndefined(head: string)
    requires head == "5\r"
    ensures ChunkAsWritten(None, head) == None
    ensures Process(head) == Framed([], head)
  {
    DigitHeader(head, "5", 5);
    assert Strs.IndexOf(head, '\n') == None;
    assert Window(head, 2) == head;
    assert RoundAsWritten(head, 2) == Undefined;
    assert "" + head == head;
    FiveIsText("abcde", "5\r\nab", "cde");
    PartialHeaderWaits("abcde", 2);
    assert PieceText(Frame("abcde"))[..2] == head;
  }

  /** The strip loop erases keep-alives without lowering buf_size, so after
      two keep-alives the count runs four bytes ahead of the buffer: the
      header and the first two bytes of a five-byte frame are taken for a
      complete frame, "ab" goes to the parser, and the three bytes that
      follow can never be framed.  Framed as intended, the frame waits. */
  lemma KeepAlivesShiftCount(ka: string, partial: string, tail: string)
    requires ka == "\r\n" && partial == "5\r\nab" && tail == "cde"
    ensures var w1 := ChunkAsWritten(None, ka);
            w1 == Some(Written("", 2, [])) &&
            var w2 := ChunkAsWritten(Some((w1.value.buf, w1.value.size)), ka);
            w2 == Some(Written("", 4, [])) &&
            var w3 := ChunkAsWritten(Some((w2.value.buf, w2.value.size)), partial);
            w3 == Some(Written("ab", 1, ["ab"])) &&
            ChunkAsWritten(Some((w3.value.buf, w3.value.size)), tail) == Some(Written("abcde", 4, []))
    ensures Process(ka + ka + partial) == Framed([], partial)
    ensures Process(partial + tail) == Framed(["abcde"], "")
  {
    KeepAliveAsWritten(ka, None, 2);
    KeepAliveAsWritten(ka, Some(("", 2)), 4);
    FrameFiveOfTwo(partial);
    assert "" + partial == partial;
    AbcdeWaits("ab", tail);
    KeepAlivesThenPartial(ka, partial);
    WholeFive(partial, tail);
  }

  /** A keep-alive alone in a chunk, with nothing buffered: it is stripped,
      and buf_size still counts its two bytes. */
  lemma KeepAliveAsWritten(ka: string, prev: Option<(string, int)>, size: int)
    requires ka == "\r\n"
    requires prev == None || prev.value.0 == ""
    requires size == (if prev.Some? then prev.value.1 else 0) + 2
    ensures ChunkAsWritten(prev, ka) == Some(Written("", size, []))
  {
    var buf := (if prev.Some? then prev.value.0 else "") + ka;
    assert buf == ka;
    assert StripAsWritten(ka) == StripAsWritten("");
    FramesWait("", size);
  }

  /** No header at the front: the frame loop stops at once. */
  lemma FramesWait(buf: string, size: int)
    requires Strs.ScanInt(buf) == None
    ensures FramesAsWritten(buf, size) == Some(Written(buf, size, []))
  {
    assert RoundAsWritten(buf, size) == Stop;
  }

  /** A buffer starting with a letter has no header. */
  lemma NoHeaderAtLetter(s: string)
    requires |s| > 0 && 'a' <= s[0] <= 'z'
    ensures Strs.ScanInt(s) == None
  {
    assert Strs.SkipSpace(s, 0) == 0;
    assert Strs.DigitRun(s, 0) == 0;
  }

  /** A round of the frame loop as written that hands a payload out. */
  lemma FramesRound(buf: string, size: int, payload: string, after: string, left: int, w: Written)
    requires RoundAsWritten(buf, size) == Take(payload, after, left)
    requires FramesAsWritten(after, left) == Some(w)
    ensures FramesAsWritten(buf, size) == Some(Written(w.buf, w.size, [payload] + w.payloads))
  {
  }

  /** With buf_size counting at least the whole buffer, a frame that is all
      buffered is taken off. */
  lemma RoundTakes(buf: string, size: int, len: nat, nl: nat)
    requires |buf| <= size
    requires Strs.IndexOf(buf, '\n') == Some(nl)
    requires nl + 1 + len <= |buf|
    ensures RoundAfterHeader(buf, size, Some(len)) ==
            Take(buf[nl + 1..nl + 1 + len], buf[nl + 1 + len..], size - (nl + 1 + len))
  {
    HeaderRoundTakesAfter(buf, size, len, nl);
    TakeAfterTakes(buf, size, len, nl);
  }

  /** Once the whole buffer is searched, the round goes on from the header's
      newline. */
  lemma HeaderRoundTakesAfter(buf: string, size: int, len: nat, nl: nat)
    requires |buf| <= size
    requires Strs.IndexOf(buf, '\n') == Some(nl)
    ensures nl < |buf|
    ensures RoundAfterHeader(buf, size, Some(len)) == TakeAfter(buf, size, len, nl)
  {
    assert Window(buf, size) == buf;
  }

  /** A frame that is all buffered is taken off whole. */
  lemma TakeAfterTakes(buf: string, size: int, len: nat, nl: nat)
    requires nl + 1 + len <= |buf| <= size
    ensures TakeAfter(buf, size, len, nl) ==
            Take(buf[nl + 1..nl + 1 + len], buf[nl + 1 + len..], size - (nl + 1 + len))
  {
    BodySlices(buf, nl + 1, len);
  }

  lemma BodySlices(buf: string, a: nat, len: nat)
    requires a + len <= |buf|
    ensures buf[a..][..len] == buf[a..a + len]
    ensures EraseFront(buf[a..], len) == buf[a + len..]
  {
  }

  /** With buf_size counting past the buffer, a frame longer than what is
      buffered is handed out short, and nothing is erased. */
  lemma RoundOverruns(buf: string, size: int, len: nat, nl: nat)
    requires |buf| <= size
    requires Strs.IndexOf(buf, '\n') == Some(nl)
    requires |buf| < nl + 1 + len <= size
    ensures RoundAfterHeader(buf, size, Some(len)) ==
            Take(buf[nl + 1..], buf[nl + 1..], size - (nl + 1 + len))
  {
    var body := buf[nl + 1..];
    assert len > |body|;
    assert EraseFront(body, len) == body;
    var r := RoundAfterHeader(buf, size, Some(len));
    assert r.Take? && r.payload == body && r.after == body;
  }

  /** A one-digit header at the front of s. */
  lemma DigitHeader(s: string, d: string, v: nat)
    requires |s| >= 2 && [s[0]] == d && Strs.AllDigits(d) && !Strs.IsDigit(s[1])
    requires Strs.DecimalValue(d) == v
    ensures Strs.ScanInt(s) == Some(v)
  {
    assert s == d + s[1..];
    HeaderOfDigits(d, s[1..]);
  }

  /** A digit and a carriage return ahead of the newline. */
  lemma NewlineAtTwo(s: string)
    requires |s| >= 3 && Strs.IsDigit(s[0]) && s[1] == '\r' && s[2] == '\n'
    ensures Strs.IndexOf(s, '\n') == Some(2)
  {
    assert s[..2] == [s[0], s[1]];
    IndexAfterDigits(s, 2);
  }

  /** The third chunk as written: nine bytes counted, a header "5" with its
      newline at 2, so 9 >= 2 + 1 + 5 lets the two buffered payload bytes
      through. */
  lemma FrameFiveOfTwo(partial: string)
    requires partial == "5\r\nab"
    ensures StripAsWritten(partial) == Some(partial)
    ensures FramesAsWritten(partial, 9) == Some(Written("ab", 1, ["ab"]))
  {
    DigitHeader(partial, "5", 5);
    NewlineAtTwo(partial);
    RoundOverruns(partial, 9, 5, 2);
    var body := partial[3..];
    assert body == "ab";
    NoHeaderAtLetter(body);
    FramesWait(body, 1);
    assert RoundAsWritten(partial, 9) == Take(body, body, 1);
    FramesRound(partial, 9, body, body, 1, Written(body, 1, []));
    assert [body] + [] == ["ab"];
  }

  /** The fourth chunk as written: the three bytes after the lost frame
      start with a letter and stay buffered for ever. */
  lemma AbcdeWaits(ab: string, tail: string)
    requires ab == "ab" && tail == "cde"
    ensures ChunkAsWritten(Some((ab, 1)), tail) == Some(Written("abcde", 4, []))
  {
    var s := ab + tail;
    assert s == "abcde";
    NoHeaderAtLetter(s);
    FramesWait(s, 4);
  }

  /** Framed as intended, two keep-alives are dropped and the partial frame
      waits. */
  lemma KeepAlivesThenPartial(ka: string, partial: string)
    requires ka == "\r\n" && partial == "5\r\nab"
    ensures Process(ka + ka + partial) == Framed([], partial)
  {
    assert PieceText(KeepAlive) == ka;
    ProcessPiece(KeepAlive, ka + partial);
    assert ka + ka + partial == PieceText(KeepAlive) + (ka + partial);
    ProcessPiece(KeepAlive, partial);
    FiveIsText("abcde", partial, "cde");
    PartialPieceWaits(Frame("abcde"), 5);
    assert PieceText(Frame("abcde"))[..5] == partial;
  }

  /** Framed as intended, the frame is handed out once all of it is in. */
  lemma WholeFive(partial: string, tail: string)
    requires partial == "5\r\nab" && tail == "cde"
    ensures Process(partial + tail) == Framed(["abcde"], "")
  {
    FiveIsText("abcde", partial, tail);
    ProcessPiece(Frame("abcde"), "");
    assert Process("") == Framed([], "");
  }

  lemma FiveIsText(m: string, partial: string, tail: string)
    requires m == "abcde" && partial == "5\r\nab" && tail == "cde"
    ensures PieceText(Frame(m)) == "5\r\nabcde"
    ensures PieceText(Frame(m)) + "" == partial + tail
  {
    assert Strs.NatToDecimal(5) == "5";
    assert PieceText(Frame(m)) == "5\r\nabcde";
  }

  /** A keep-alive that follows a frame in the same chunk: "%d" skips the
      "\r\n" to read the next header, but the newline found is the
      keep-alive's own, so the next frame is cut one byte short of its
      header and its header is handed out as the payload.  Framed as
      intended (TwoFramesIntended), the two payloads are "ab" and "c". */
  lemma KeepAliveBetweenFrames(s: string)
    requires s == "2\r\nab\r\n1\r\nc"
    ensures ChunkAsWritten(None, s) == Some(Written("\r\nc", 3, ["ab", "1"]))
  {
    var t, rest := "\r\n1\r\nc", "\r\nc";
    FirstFrameAsWritten(s, t);
    SecondFrameAsWritten(t, rest);
    TwoRounds(s, t, rest, "ab", "1");
  }

  /** A first chunk on which the frame loop goes round twice and stops. */
  lemma TwoRounds(s: string, t: string, rest: string, p1: string, p2: string)
    requires |s| == 11 && StripAsWritten(s) == Some(s)
    requires RoundAsWritten(s, 11) == Take(p1, t, 6)
    requires RoundAsWritten(t, 6) == Take(p2, rest, 3)
    requires Strs.ScanInt(rest) == None
    ensures ChunkAsWritten(None, s) == Some(Written(rest, 3, [p1, p2]))
  {
    FramesTwice(s, t, rest, p1, p2);
    FirstChunk(s, Written(rest, 3, [p1, p2]));
  }

  /** The frame loop goes round twice and stops. */
  lemma FramesTwice(s: string, t: string, rest: string, p1: string, p2: string)
    requires RoundAsWritten(s, 11) == Take(p1, t, 6)
    requires RoundAsWritten(t, 6) == Take(p2, rest, 3)
    requires Strs.ScanInt(rest) == None
    ensures FramesAsWritten(s, 11) == Some(Written(rest, 3, [p1, p2]))
  {
    FramesOnce(t, 6, p2, rest, 3);
    FramesRound(s, 11, p1, t, 6, Written(rest, 3, [p2]));
    assert [p1] + [p2] == [p1, p2];
  }

  /** The frame loop goes round once and stops. */
  lemma FramesOnce(t: string, size: int, p: string, rest: string, left: int)
    requires RoundAsWritten(t, size) == Take(p, rest, left)
    requires Strs.ScanInt(rest) == None
    ensures FramesAsWritten(t, size) == Some(Written(rest, left, [p]))
  {
    FramesWait(rest, left);
    FramesRound(t, size, p, rest, left, Written(rest, left, []));
    assert [p] + [] == [p];
  }

  /** The callback on the first chunk: strip, then frame with buf_size the
      chunk's length. */
  lemma FirstChunk(data: string, w: Written)
    requires StripAsWritten(data) == Some(data)
    requires FramesAsWritten(data, |data|) == Some(w)
    ensures ChunkAsWritten(None, data) == Some(w)
  {
    assert "" + data == data;
  }

  /** The first round as written: "ab" is handed out and buf_size drops to
      six. */
  lemma FirstFrameAsWritten(s: string, t: string)
    requires s == "2\r\nab\r\n1\r\nc" && t == "\r\n1\r\nc"
    ensures |s| == 11 && StripAsWritten(s) == Some(s)
    ensures RoundAsWritten(s, 11) == Take("ab", t, 6)
  {
    FirstFramePieces(s, t);
    var d := "2";
    DigitTwo(d);
    FirstRound(s, t, d);
  }

  /** The one-digit header "2" reads as two. */
  lemma DigitTwo(d: string)
    requires d == "2"
    ensures [d[0]] == d && Strs.AllDigits(d) && Strs.DecimalValue(d) == 2
  {
    assert [d[0]] == d;
  }

  /** The first round as written on a buffer holding the frame "ab" under a
      one-digit header that reads as two, and then t. */
  lemma FirstRound(s: string, t: string, d: string)
    requires |s| == 11 && [s[0]] == d && Strs.AllDigits(d) && Strs.DecimalValue(d) == 2
    requires s[1] == '\r' && s[2] == '\n' && s[3..5] == "ab" && s[5..] == t
    ensures RoundAsWritten(s, 11) == Take("ab", t, 6)
  {
    DigitFrameRound(s, 11, d, 2);
  }

  /** The pieces of the first chunk: the header "2", its line end, the
      payload "ab" and what follows. */
  lemma FirstFramePieces(s: string, t: string)
    requires s == "2\r\nab\r\n1\r\nc" && t == "\r\n1\r\nc"
    ensures |s| == 11 && [s[0]] == "2" && s[1] == '\r' && s[2] == '\n'
    ensures s[3..5] == "ab" && s[5..] == t
  {
    assert s[3..5] == "ab";
    assert s[5..] == t;
  }

  /** A round of the frame loop as written on a buffer that starts with a
      one-digit header, with buf_size counting at least the buffer and the
      whole frame buffered. */
  lemma DigitFrameRound(s: string, size: int, d: string, len: nat)
    requires |s| >= 3 + len && |s| <= size
    requires [s[0]] == d && Strs.AllDigits(d) && Strs.DecimalValue(d) == len
    requires s[1] == '\r' && s[2] == '\n'
    ensures RoundAsWritten(s, size) == Take(s[3..3 + len], s[3 + len..], size - (3 + len))
  {
    DigitHeader(s, d, len);
    NewlineAtTwo(s);
    RoundTakes(s, size, len, 2);
  }

  /** The second round as written: the header "1" is read past the
      keep-alive, but the newline found is the keep-alive's, so the payload
      handed out is the header itself; then no header is left. */
  lemma SecondFrameAsWritten(t: string, rest: string)
    requires t == "\r\n1\r\nc" && rest == "\r\nc"
    ensures RoundAsWritten(t, 6) == Take("1", rest, 3)
    ensures Strs.ScanInt(rest) == None
  {
    HeaderPastKeepAlive(t);
    assert t[..1] == "\r";
    IndexAfterDigits(t, 1);
    RoundTakes(t, 6, 1, 1);
    assert t[2..3] == "1" && t[3..] == rest;
    assert Strs.SkipSpace(rest, 0) == 2 by {
      assert Strs.SkipSpace(rest, 1) == 2;
    }
    assert Strs.DigitRun(rest, 2) == 0;
  }

  /** "%d" skips the leading white space before the digit. */
  lemma HeaderPastKeepAlive(s: string)
    requires s == "\r\n1\r\nc"
    ensures Strs.ScanInt(s) == Some(1)
  {
    assert Strs.SkipSpace(s, 0) == 2 by {
      assert Strs.SkipSpace(s, 1) == 2 by {
        assert !Strs.IsSpace(s[2]);
      }
    }
    assert s[2..3] == "1" && Strs.DecimalValue("1") == 1;
    DigitRunOf(s, 2, 1);
  }

  /** Framed as intended: the first frame, the keep-alive and the second
      frame, one after the other. */
  lemma TwoFramesIntended(s: string)
    requires s == "2\r\nab\r\n1\r\nc"
    ensures Process(s) == Framed(["ab", "c"], "")
  {
    var ps := [Frame("ab"), KeepAlive, Frame("c")];
    FlatMapThree(Frame("ab"), KeepAlive, Frame("c"), PieceText);
    FlatMapThree(Frame("ab"), KeepAlive, Frame("c"), PiecePayload);
    SmallFrameText("ab", "2");
    SmallFrameText("c", "1");
    assert Text(ps) == s;
    WholeStream(ps);
  }

  /** The text of a frame whose length is one digit. */
  lemma SmallFrameText(m: string, d: string)
    requires 0 < |m| < 10 && d == [Strs.DigitChar(|m|)]
    ensures PieceText(Frame(m)) == d + "\r\n" + m
  {
    assert Strs.NatToDecimal(|m|) == d;
  }

  // ---------------------------------------------------------------------
  // Statuses

  /** _create_item_from_node: the status's author, its permalink as id and
      url, its text and date, and the author's picture when the status
      carries one.  The parsed date is an input (strptime and timegm are
      foreign). */
  function StatusItem(root: Json, makeDate: Option<string> -> string): Draft
  {
    var o := AsObject(Some(root));
    var user := ObjectMember(o, "user");
    var url := StatusUrl(StringMember(user, "screen_name"), IntMember(o, "id"));
    var p0 := Put(map[], "authorid", StringMember(user, "screen_name"));
    var p1 := p0["id" := url]["url" := url];
    var p2 := Put(p1, "author", StringMember(user, "name"));
    var p3 := Put(p2, "content", StringMember(o, "text"));
    var p4 := p3["date" := makeDate(StringMember(o, "created_at"))];
    var icon := StringMember(user, "profile_image_url");
    Draft(p4, if icon.Some? then [ImageFetch(true, "authoricon", icon.value)] else [])
  }

  /** The item's id and url are both the status's permalink, built from
      the author's screen name and the status id; its author and text are
      the status's, missing when the status lacks them, and its date is
      the parsed creation time. */
  lemma StatusItemFields(root: Json, makeDate: Option<string> -> string)
    ensures var d := StatusItem(root, makeDate);
            var o := AsObject(Some(root));
            var user := ObjectMember(o, "user");
            d.Get("id") == d.Get("url") == Some(StatusUrl(StringMember(user, "screen_name"), IntMember(o, "id"))) &&
            d.Get("authorid") == StringMember(user, "screen_name") &&
            d.Get("author") == StringMember(user, "name") &&
            d.Get("content") == StringMember(o, "text") &&
            d.Get("date") == Some(makeDate(StringMember(o, "created_at")))
  {
    var o := AsObject(Some(root));
    var user := ObjectMember(o, "user");
    var url := StatusUrl(StringMember(user, "screen_name"), IntMember(o, "id"));
    var p0 := Put(map[], "authorid", StringMember(user, "screen_name"));
    var p1 := p0["id" := url]["url" := url];
    var p2 := Put(p1, "author", StringMember(user, "name"));
    var p3 := Put(p2, "content", StringMember(o, "text"));
    assert "authorid" != "id" && "authorid" != "url" && "authorid" != "author" && "authorid" != "content";
    assert "id" != "url" && "id" != "author" && "id" != "content" && "url" != "author" && "url" != "content";
    assert "author" != "content";
    assert "date" != "authorid" && "date" != "id" && "date" != "url" && "date" != "author" && "date" != "content";
  }

  /** "http://twitter.com/%s/statuses/%lld" */
  function StatusUrl(screenName: Option<string>, id: int): string
  {
    "http://twitter.com/" + Printed(screenName) + "/statuses/" + Strs.IntToDecimal(id)
  }

  /** Two statuses of one author have different permalinks. */
  lemma StatusUrlsDistinct(screenName: Option<string>, a: int, b: int)
    requires a != b
    ensures StatusUrl(screenName, a) != StatusUrl(screenName, b)
  {
    Strs.IntDecimalInjective(a, b);
    Strs.PrefixCancel("http://twitter.com/" + Printed(screenName) + "/statuses/", Strs.IntToDecimal(a), Strs.IntToDecimal(b));
  }

  /** What one payload becomes: its status item when it parses and its
      text contains the keywords as configured (with their spaces, not the
      commas sent as the track parameter), nothing otherwise. */
  function Accepted(payload: string, parse: string -> Option<Json>, keywords: string,
                    makeDate: Option<string> -> string): (r: seq<Draft>)
    ensures |r| <= 1
    ensures parse(payload).None? ==> r == []
    ensures r != [] ==> r[0].Get("content").Some? && Strs.Contains(r[0].Get("content").value, keywords)
  {
    match parse(payload)
    case None => []
    case Some(root) =>
      var d := StatusItem(root, makeDate);
      if d.Get("content").Some? && Strs.Contains(d.Get("content").value, keywords) then [d] else []
  }

  /** The items a list of payloads becomes, in order. */
  function Matching(payloads: seq<string>, parse: string -> Option<Json>, keywords: string,
                    makeDate: Option<string> -> string): (r: seq<Draft>)
  {
    FlatMap(payloads, p => Accepted(p, parse, keywords, makeDate))
  }

  /** The endpoint and parameters start sends. */
  function FilterRequest(keywords: string): (o: Outgoing)
    ensures o.Rest? && o.verb == "POST" && o.endpoint == "1/statuses/filter.json"
    ensures |o.params| == 2 && o.params[0].0 == "track" && o.params[1] == ("delimited", "length")
    ensures |o.params[0].1| == |keywords| && ' ' !in o.params[0].1
    ensures forall i | 0 <= i < |keywords| && keywords[i] != ' ' :: o.params[0].1[i] == keywords[i]
  {
    Rest("POST", "1/statuses/filter.json", [("track", Strs.ReplaceChar(keywords, ' ', ',')), ("delimited", "length")])
  }

  /** SwTwitterItemStream: its construction parameters, the buffer of
      stream bytes not yet framed (NULL before the first chunk), and the
      items added to the stream. */
  class TwitterItemStream {
    const params: map<string, string>
    var started: bool
    var buffer: Option<string>
    var sent: seq<Outgoing>
    var added: seq<Draft>
    /** The payloads handed to the JSON parser. */
    ghost var framed: seq<string>

    ghost predicate Valid()
      reads this
    {
      started ==> "keywords" in params
    }

    constructor (ps: map<string, string>)
      ensures Valid() && params == ps && !started && buffer == None
      ensures sent == [] && added == [] && framed == []
    {
      params := ps;
      started := false;
      buffer := None;
      sent := [];
      added := [];
      framed := [];
    }

    /** twitter_item_stream_start: without "keywords" it only complains;
        otherwise the filter request goes out with the keywords' spaces
        turned into commas and the stream is running. */
    method Start()
      requires Valid()
      modifies this`started, this`sent
      ensures Valid()
      ensures "keywords" !in params ==> started == old(started) && sent == old(sent)
      ensures "keywords" in params ==> started && sent == old(sent) + [FilterRequest(params["keywords"])]
    {
      if "keywords" !in params {
        return;
      }
      var track := Strs.ReplaceChar(params["keywords"], ' ', ',');
      sent := sent + [Rest("POST", "1/statuses/filter.json", [("track", track), ("delimited", "length")])];
      started := true;
    }

    /** _call_continous_cb, with the framing as intended: an error changes
        nothing; otherwise the chunk joins the buffer, every complete frame
        is taken off it, and each payload's status is added when its text
        contains the keywords. */
    method Chunk(data: string, error: bool, parse: string -> Option<Json>, makeDate: Option<string> -> string)
      requires Valid() && started
      modifies this`buffer, this`added, this`framed
      ensures Valid()
      ensures error ==> buffer == old(buffer) && added == old(added) && framed == old(framed)
      ensures !error ==>
                var f := Process(old(buffer).GetOr("") + data);
                buffer == Some(f.rest) && framed == old(framed) + f.payloads &&
                added == old(added) + Matching(f.payloads, parse, params["keywords"], makeDate)
    {
      if error {
        return;
      }
      var payloads, rest := FrameAll(buffer.GetOr("") + data);
      HandOut(payloads, parse, params["keywords"], makeDate);
      buffer := Some(rest);
    }

    /** The payloads of the frame loop handed to the parser in turn, each
        status added when it matches. */
    method HandOut(payloads: seq<string>, parse: string -> Option<Json>, keywords: string,
                   makeDate: Option<string> -> string)
      modifies this`added, this`framed
      ensures framed == old(framed) + payloads
      ensures added == old(added) + Matching(payloads, parse, keywords, makeDate)
    {
      var i := 0;
      while i < |payloads|
        invariant 0 <= i <= |payloads|
        invariant framed == old(framed) + payloads[..i]
        invariant added == old(added) + Matching(payloads[..i], parse, keywords, makeDate)
      {
        TakeFrame(payloads[i], parse, keywords, makeDate);
        FlatMapAppend(payloads[..i], [payloads[i]], p => Accepted(p, parse, keywords, makeDate));
        FlatMapOne(payloads[i], p => Accepted(p, parse, keywords, makeDate));
        assert payloads[..i + 1] == payloads[..i] + [payloads[i]];
        framed := framed + [payloads[i]];
        i := i + 1;
      }
      assert payloads[..i] == payloads;
    }

    /** One payload handed to the parser: its status is added when it
        matches. */
    method TakeFrame(payload: string, parse: string -> Option<Json>, keywords: string,
                     makeDate: Option<string> -> string)
      modifies this`added
      ensures added == old(added) + Accepted(payload, parse, keywords, makeDate)
    {
      var root := parse(payload);
      if root.Some? {
        var item := StatusItem(root.value, makeDate);
        var content := item.Get("content");
        if content.Some? && Strs.Contains(content.value, keywords) {
          added := added + [item];
        }
      }
    }
  }

  /** The frame loop on a buffer: the payloads of the complete frames at its
      front, in order, and what is left. */
  method FrameAll(buf0: string) returns (payloads: seq<string>, buf: string)
    ensures payloads == Process(buf0).payloads && buf == Process(buf0).rest
  {
    buf := buf0;
    payloads := [];
    while true
      invariant Process(buf).rest == Process(buf0).rest
      invariant payloads + Process(buf).payloads == Process(buf0).payloads
      decreases |buf|
    {
      var payload, rest := NextFrame(buf);
      if payload.None? {
        buf := rest;
        assert payloads + [] == payloads;
        break;
      }
      assert (payloads + [payload.value]) + Process(rest).payloads == payloads + Process(buf).payloads;
      payloads := payloads + [payload.value];
      buf := rest;
    }
  }

  /** One round of the frame loop: keep-alive pairs are erased from the
      front, then a complete frame, when there is one, is taken off. */
  method NextFrame(buf: string) returns (payload: Option<string>, rest: string)
    ensures payload.None? ==> Process(rest) == Process(buf) == Framed([], rest)
    ensures payload.Some? ==>
              |rest| < |buf| &&
              Process(buf) == Framed([payload.value] + Process(rest).payloads, Process(rest).rest)
  {
    rest := buf;
    while |rest| >= 2 && rest[0] == '\r' && rest[1] == '\n'
      invariant Process(rest) == Process(buf) && |rest| <= |buf|
      decreases |rest|
    {
      rest := rest[2..];
    }
    var len := Strs.ScanInt(rest);
    var nl := Strs.IndexOf(rest, '\n');
    if len.None? || nl.None? || len.value < 0 || nl.value + 1 + len.value > |rest| {
      return None, rest;
    }
    payload := Some(rest[nl.value + 1..nl.value + 1 + len.value]);
    rest := rest[nl.value + 1 + len.value..];
  }

  /** What two chunks frame to: the payloads of the frames complete within
      the bytes fed, and the rest of those bytes left over. */
  lemma TwoChunksFrame(ps: seq<Piece>, n: nat, m: nat, f1: Framed, f2: Framed)
    requires n <= m <= |Text(ps)|
    requires f1 == Process(Text(ps)[..n]) && f2 == Process(f1.rest + Text(ps)[n..m])
    ensures f1.payloads + f2.payloads == Payloads(ps[..Complete(ps, m)])
    ensures Text(ps)[..m] == Text(ps[..Complete(ps, m)]) + f2.rest
  {
    ChunksCompose(ps, n, m);
    ProcessPrefix(ps, m);
  }

  /** Feeding the stream's bytes in any two chunks to a fresh stream hands
      the parser exactly the payloads of the frames that have fully arrived,
      and keeps the rest buffered. */
  method TwoChunks(s: TwitterItemStream, ps: seq<Piece>, n: nat, m: nat,
                   parse: string -> Option<Json>, makeDate: Option<string> -> string)
    requires s.Valid() && s.started && s.buffer == None
    requires n <= m <= |Text(ps)|
    modifies s
    ensures s.framed == old(s.framed) + Payloads(ps[..Complete(ps, m)])
    ensures Text(ps)[..m] == Text(ps[..Complete(ps, m)]) + s.buffer.GetOr("")
  {
    var first, second := Text(ps)[..n], Text(ps)[n..m];
    ghost var f1 := Process(first);
    assert "" + first == first;
    s.Chunk(first, false, parse, makeDate);
    ghost var framed1 := s.framed;
    assert s.buffer == Some(f1.rest) && framed1 == old(s.framed) + f1.payloads;
    s.Chunk(second, false, parse, makeDate);
    ghost var f2 := Process(f1.rest + second);
    assert s.buffer == Some(f2.rest) && s.framed == framed1 + f2.payloads;
    TwoChunksFrame(ps, n, m, f1, f2);
    Associate(old(s.framed), f1.payloads, f2.payloads);
  }
}
