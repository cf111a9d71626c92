/** The Twitter item view (services/twitter/twitter-item-view.c): it polls
    the friends timeline, turns each status of the XML reply into an item,
    and turns statuses that link a twitpic picture into picture items whose
    title is the status with the link cut out and trimmed.

    The link is found with the pattern "http://twitpic.com/([A-Za-z0-9]+)",
    whose unescaped '.' matches any character but a newline (see
    DotMatchesAnyCharacter); the items are built with the pattern the code
    evidently means, with a literal '.'. */
module TwitterItemView {
  import opened Wrappers
  import opened Adapters
  import opened AdapterViews
  import Strs

  // ---------------------------------------------------------------------
  // The twitpic pattern

  const TwitpicPrefix := "http://twitpic.com/"

  /** [A-Za-z0-9] */
  predicate IsAlnum(c: char)
  {
    'A' <= c <= 'Z' || 'a' <= c <= 'z' || '0' <= c <= '9'
  }

  /** A pattern character against a text character: '.' matches anything
      but a newline unless it is taken literally. */
  predicate PatternChar(p: char, c: char, literalDot: bool)
  {
    if p == '.' && !literalDot then c != '\n' else c == p
  }

  /** The pattern's fixed part matches at i. */
  predicate PrefixAt(s: string, i: nat, literalDot: bool)
  {
    i + |TwitpicPrefix| <= |s| &&
    forall k | 0 <= k < |TwitpicPrefix| :: PatternChar(TwitpicPrefix[k], s[i + k], literalDot)
  }

  /** The whole pattern matches at i: the fixed part and at least one
      letter or digit after it. */
  predicate MatchAt(s: string, i: nat, literalDot: bool)
  {
    PrefixAt(s, i, literalDot) && i + |TwitpicPrefix| < |s| && IsAlnum(s[i + |TwitpicPrefix|])
  }

  /** The length of the run of letters and digits at i: what the greedy
      group takes. */
  function AlnumRun(s: string, i: nat): (n: nat)
    requires i <= |s|
    ensures i + n <= |s|
    ensures forall k | i <= k < i + n :: IsAlnum(s[k])
    ensures i + n < |s| ==> !IsAlnum(s[i + n])
    decreases |s| - i
  {
    if i < |s| && IsAlnum(s[i]) then 1 + AlnumRun(s, i + 1) else 0
  }

  /** The end of the match at i. */
  function MatchEnd(s: string, i: nat, literalDot: bool): (e: nat)
    requires MatchAt(s, i, literalDot)
    ensures i + |TwitpicPrefix| < e <= |s|
  {
    i + |TwitpicPrefix| + AlnumRun(s, i + |TwitpicPrefix|)
  }

  /** g_regex_match from i: the leftmost position where the pattern
      matches. */
  function FirstMatch(s: string, i: nat, literalDot: bool): (r: Option<nat>)
    requires i <= |s|
    ensures r.Some? ==> i <= r.value && MatchAt(s, r.value, literalDot)
    ensures r.Some? ==> forall k | i <= k < r.value :: !MatchAt(s, k, literalDot)
    ensures r.None? ==> forall k | i <= k < |s| :: !MatchAt(s, k, literalDot)
    decreases |s| - i
  {
    if i == |s| then None
    else if MatchAt(s, i, literalDot) then Some(i)
    else FirstMatch(s, i + 1, literalDot)
  }

  /** g_match_info_fetch (match_info, 1): the picture id of the leftmost
      match. */
  function TwitpicId(s: string, literalDot: bool): (r: Option<string>)
    ensures r.Some? <==> exists k | 0 <= k < |s| :: MatchAt(s, k, literalDot)
    ensures r.Some? ==> |r.value| > 0 && forall k | 0 <= k < |r.value| :: IsAlnum(r.value[k])
  {
    match FirstMatch(s, 0, literalDot)
    case None => None
    case Some(j) => Some(s[j + |TwitpicPrefix|..MatchEnd(s, j, literalDot)])
  }

  /** g_regex_replace with "": every match, leftmost first and each as long
      as the group allows, is cut out; the search goes on after it. */
  function RemoveTwitpics(s: string, i: nat, literalDot: bool): (r: string)
    requires i <= |s|
    ensures |r| <= |s| - i
    decreases |s| - i
  {
    if i == |s| then ""
    else if MatchAt(s, i, literalDot) then RemoveTwitpics(s, MatchEnd(s, i, literalDot), literalDot)
    else [s[i]] + RemoveTwitpics(s, i + 1, literalDot)
  }

  /** Text with no match is left as it is. */
  lemma {:induction false} RemoveWithoutMatch(s: string, i: nat, literalDot: bool)
    requires i <= |s| && FirstMatch(s, i, literalDot).None?
    ensures RemoveTwitpics(s, i, literalDot) == s[i..]
    decreases |s| - i
  {
    if i < |s| {
      RemoveWithoutMatch(s, i + 1, literalDot);
      SliceCons(s, i, |s|);
    }
  }

  /** The text before the first match is kept, the match is cut, and the
      search goes on after it. */
  lemma {:induction false} RemoveUpToFirst(s: string, i: nat, literalDot: bool)
    requires i <= |s| && FirstMatch(s, i, literalDot).Some?
    ensures var j := FirstMatch(s, i, literalDot).value;
            RemoveTwitpics(s, i, literalDot) == s[i..j] + RemoveTwitpics(s, MatchEnd(s, j, literalDot), literalDot)
    decreases |s| - i
  {
    var j := FirstMatch(s, i, literalDot).value;
    var rest := RemoveTwitpics(s, MatchEnd(s, j, literalDot), literalDot);
    if j == i {
      assert s[i..j] == [];
    } else {
      assert !MatchAt(s, i, literalDot);
      assert FirstMatch(s, i + 1, literalDot) == Some(j);
      RemoveUpToFirst(s, i + 1, literalDot);
      var r1 := RemoveTwitpics(s, i + 1, literalDot);
      assert RemoveTwitpics(s, i, literalDot) == [s[i]] + r1;
      SliceCons(s, i, j);
      ConsAppend(s[i], s[i + 1..j], rest);
    }
  }

  lemma ConsAppend<T>(x: T, a: seq<T>, b: seq<T>)
    ensures [x] + (a + b) == ([x] + a) + b
  {
  }

  lemma SliceCons<T>(s: seq<T>, i: nat, j: nat)
    requires i < j <= |s|
    ensures s[i..j] == [s[i]] + s[i + 1..j]
  {
  }

  /** The text changes exactly when it holds a link. */
  lemma RemoveChangesIffMatch(s: string, literalDot: bool)
    ensures RemoveTwitpics(s, 0, literalDot) == s <==> TwitpicId(s, literalDot).None?
  {
    if FirstMatch(s, 0, literalDot).None? {
      RemoveWithoutMatch(s, 0, literalDot);
    } else {
      RemoveUpToFirst(s, 0, literalDot);
      var j := FirstMatch(s, 0, literalDot).value;
      var e := MatchEnd(s, j, literalDot);
      assert |RemoveTwitpics(s, 0, literalDot)| <= j + (|s| - e) < |s|;
    }
  }

  /** The pattern as written takes any character for the '.' of
      "twitpic.com"; read literally, it does not. */
  lemma DotMatchesAnyCharacter(s: string)
    requires s == "http://twitpicXcom/ab"
    ensures TwitpicId(s, false) == Some("ab")
    ensures TwitpicId(s, true) == None
  {
    assert MatchAt(s, 0, false);
    assert FirstMatch(s, 0, false) == Some(0);
    assert s[19..21] == "ab";
    assert AlnumRun(s, 19) == 2 by {
      assert AlnumRun(s, 21) == 0;
    }
    forall k | 0 <= k < |s|
      ensures !MatchAt(s, k, true)
    {
      if k == 0 {
        assert !PatternChar(TwitpicPrefix[14], s[14], true);
      } else if k == 1 {
        assert !PatternChar(TwitpicPrefix[0], s[1], true);
      }
    }
  }

  // ---------------------------------------------------------------------
  // _cleanup_twitpic

  /** g_ascii_isspace, or a hyphen. */
  predicate Trimmable(c: char)
  {
    Strs.IsSpace(c) || c == '-'
  }

  /** The number of leading white space and hyphen characters. */
  function LeadLen(s: string): (r: nat)
    ensures r <= |s|
    ensures forall k | 0 <= k < r :: Trimmable(s[k])
    ensures r < |s| ==> !Trimmable(s[r])
  {
    if s != [] && Trimmable(s[0]) then 1 + LeadLen(s[1..]) else 0
  }

  /** The number of trailing white space and hyphen characters. */
  function TrailLen(s: string): (r: nat)
    ensures r <= |s|
    ensures forall k | |s| - r <= k < |s| :: Trimmable(s[k])
    ensures r < |s| ==> !Trimmable(s[|s| - r - 1])
  {
    if s != [] && Trimmable(s[|s| - 1]) then 1 + TrailLen(s[..|s| - 1]) else 0
  }

  /** The text with leading and trailing white space and hyphens cut. */
  function Trimmed(s: string): string
  {
    var u := s[LeadLen(s)..];
    u[..|u| - TrailLen(u)]
  }

  /** What trimming cuts is white space and hyphens at both ends, and what
      it leaves is the middle, unchanged, starting and ending with neither. */
  lemma TrimmedShape(s: string)
    ensures var a := LeadLen(s);
            var t := Trimmed(s);
            a + |t| <= |s| && s == s[..a] + t + s[a + |t|..] &&
            (forall k | 0 <= k < a :: Trimmable(s[k])) &&
            (forall k | a + |t| <= k < |s| :: Trimmable(s[k])) &&
            (t != [] ==> !Trimmable(t[0]) && !Trimmable(t[|t| - 1]))
  {
    var a := LeadLen(s);
    var u := s[a..];
    var r := TrailLen(u);
    var t := Trimmed(s);
    assert t == u[..|u| - r];
    TrimmedTail(s, a, u, r, t);
    assert s == s[..a] + t + s[a + |t|..] by {
      CutTwice(s, a, |u| - r);
    }
  }

  /** Cutting s at a and at a + n gives three pieces that make up s. */
  lemma CutTwice(s: string, a: nat, n: nat)
    requires a + n <= |s|
    ensures s == s[..a] + s[a..][..n] + s[a + n..]
  {
    assert s[a..][..n] == s[a..a + n];
  }

  /** What follows the trimmed text is trimmable, and the text ends with
      neither white space nor a hyphen. */
  lemma TrimmedTail(s: string, a: nat, u: string, r: nat, t: string)
    requires a == LeadLen(s) && u == s[a..] && r == TrailLen(u) && t == u[..|u| - r]
    ensures forall k | a + |t| <= k < |s| :: Trimmable(s[k])
    ensures t != [] ==> !Trimmable(t[0]) && !Trimmable(t[|t| - 1])
  {
    CutTail(s, a, u, r, t);
    if t != [] {
      assert t[0] == s[a];
    }
  }

  /** The part of s after a kept middle of u = s[a..] is the part of u the
      trailing count covers. */
  lemma CutTail(s: string, a: nat, u: string, r: nat, t: string)
    requires a <= |s| && u == s[a..] && r == TrailLen(u) && t == u[..|u| - r]
    ensures forall k | a + |t| <= k < |s| :: Trimmable(s[k])
    ensures t != [] ==> !Trimmable(t[|t| - 1])
  {
    forall k | a + |t| <= k < |s|
      ensures Trimmable(s[k])
    {
      assert s[k] == u[k - a];
    }
    if t != [] {
      assert t[|t| - 1] == u[|u| - r - 1];
    }
  }

  /** Trimming twice is trimming once. */
  lemma TrimmedIdempotent(s: string)
    ensures Trimmed(Trimmed(s)) == Trimmed(s)
  {
    var t := Trimmed(s);
    TrimmedShape(s);
    assert LeadLen(t) == 0;
    assert t[0..] == t;
    assert TrailLen(t) == 0;
    assert t[..|t|] == t;
  }

  /** Text that starts and ends with neither white space nor a hyphen is
      left as it is. */
  lemma TrimmedKeepsClean(s: string)
    requires s != [] ==> !Trimmable(s[0]) && !Trimmable(s[|s| - 1])
    ensures Trimmed(s) == s
  {
    assert LeadLen(s) == 0;
    assert s[0..] == s;
    assert TrailLen(s) == 0;
    assert s[..|s|] == s;
  }

  /** _cleanup_twitpic on a C string (its characters, then a NUL): the
      leading white space and hyphens are skipped, the rest and its NUL are
      moved to the front, and trailing white space and hyphens are
      overwritten with NULs.  The new string is the first len characters. */
  method CleanupTwitpic(a: array<char>) returns (len: nat)
    requires a.Length > 0 && a[a.Length - 1] == '\0'
    requires forall k | 0 <= k < a.Length - 1 :: a[k] != '\0'
    modifies a
    ensures len < a.Length && a[len] == '\0'
    ensures a[..len] == Trimmed(old(a[..a.Length - 1]))
    ensures forall j | len <= j < a.Length - LeadLen(old(a[..a.Length - 1])) :: a[j] == '\0'
    ensures forall j | a.Length - LeadLen(old(a[..a.Length - 1])) <= j < a.Length :: a[j] == old(a[j])
  {
    ghost var s := a[..a.Length - 1];
    var start := SkipLeading(a);
    var n := a.Length - 1 - start;
    MoveToFront(a, start);
    assert forall j | 0 <= j < n :: a[j] == s[start..][j];
    len := CutTrailing(a, n, s[start..]);
  }

  /** The skipping loop: the index of the first character that is neither
      white space nor a hyphen (the NUL stops it at the latest). */
  method SkipLeading(a: array<char>) returns (start: nat)
    requires a.Length > 0 && a[a.Length - 1] == '\0'
    requires forall k | 0 <= k < a.Length - 1 :: a[k] != '\0'
    ensures start == LeadLen(a[..a.Length - 1])
  {
    ghost var s := a[..a.Length - 1];
    start := 0;
    while Trimmable(a[start])
      invariant start <= LeadLen(s) && start < a.Length
      decreases a.Length - start
    {
      assert a[start] == s[start];
      start := start + 1;
    }
    assert start < |s| ==> a[start] == s[start];
  }

  /** memmove (string, start, strlen (start) + 1): the characters from
      start and the NUL are copied to the front, one by one from the left. */
  method MoveToFront(a: array<char>, start: nat)
    requires start < a.Length
    modifies a
    ensures forall j | 0 <= j < a.Length - start :: a[j] == old(a[start + j])
    ensures forall j | a.Length - start <= j < a.Length :: a[j] == old(a[j])
  {
    var k := 0;
    while k < a.Length - start
      invariant 0 <= k <= a.Length - start
      invariant forall j | 0 <= j < k :: a[j] == old(a[start + j])
      invariant forall j | k <= j < a.Length :: a[j] == old(a[j])
    {
      a[k] := a[start + k];
      k := k + 1;
    }
  }

  /** The cutting loop: from the end of the n characters, white space and
      hyphens are overwritten with NULs until another character is met. */
  method CutTrailing(a: array<char>, n: nat, ghost u: string) returns (len: nat)
    requires n < a.Length && |u| == n && a[n] == '\0'
    requires forall j | 0 <= j < n :: a[j] == u[j]
    modifies a
    ensures len == n - TrailLen(u) && a[..len] == u[..len]
    ensures forall j | len <= j <= n :: a[j] == '\0'
    ensures forall j | n < j < a.Length :: a[j] == old(a[j])
  {
    len := n;
    while len > 0 && Trimmable(a[len - 1])
      invariant |u| - TrailLen(u) <= len <= n
      invariant forall j | 0 <= j < len :: a[j] == u[j]
      invariant forall j | len <= j <= n :: a[j] == '\0'
      invariant forall j | n < j < a.Length :: a[j] == old(a[j])
    {
      TrailStep(u, len);
      len := len - 1;
      a[len] := '\0';
    }
    TrailExit(u, len);
    assert a[..len] == u[..len];
  }

  /** One more trailing character cut stays within the trailing run. */
  lemma TrailStep(u: string, len: nat)
    requires |u| - TrailLen(u) <= len <= |u| && 0 < len && Trimmable(u[len - 1])
    ensures |u| - TrailLen(u) <= len - 1
  {
  }

  /** The cutting stops exactly at the trailing run. */
  lemma TrailExit(u: string, len: nat)
    requires |u| - TrailLen(u) <= len <= |u|
    requires len == 0 || !Trimmable(u[len - 1])
    ensures len == |u| - TrailLen(u)
  {
  }

  // ---------------------------------------------------------------------
  // _make_item

  /** The nodes _make_item dereferences without a check: a status missing
      one of them crashes the daemon, and the source expects none to be
      missing. */
  predicate Complete(node: Xml)
  {
    Find(node, "user").Some? && Find(Find(node, "user").value, "screen_name").Some? &&
    Find(node, "id").Some? && Find(node, "name").Some? &&
    Find(node, "text").Some? && Find(node, "text").value.content.Some? &&
    Find(node, "created_at").Some?
  }

  /** "http://twitter.com/%s/statuses/%s" */
  function StatusUrl(userId: Option<string>, postId: Option<string>): string
  {
    "http://twitter.com/" + Printed(userId) + "/statuses/" + Printed(postId)
  }

  /** The title of a picture status: the text with its links cut and the
      ends trimmed. */
  function PictureTitle(content: string): string
  {
    Trimmed(RemoveTwitpics(content, 0, true))
  }

  /** The first properties of a status's item: the author's screen name,
      the permalink as id and url, and the author's name. */
  function AuthorProps(userId: Option<string>, postId: Option<string>, name: Option<string>): (r: map<string, string>)
    ensures forall k | k in r :: k == "authorid" || k == "id" || k == "url" || k == "author"
    ensures "id" in r && r["id"] == StatusUrl(userId, postId) && "url" in r && r["url"] == r["id"]
    ensures ("authorid" in r <==> userId.Some?) && (userId.Some? ==> r["authorid"] == userId.value)
    ensures ("author" in r <==> name.Some?) && (name.Some? ==> r["author"] == name.value)
  {
    var url := StatusUrl(userId, postId);
    Put(Put(map[], "authorid", userId)["id" := url]["url" := url], "author", name)
  }

  /** The text of a status: a status linking a picture asks for its
      thumbnail and takes the trimmed text without links as title and the
      picture page as url; any other keeps its text as content. */
  function TextProps(p: map<string, string>, content: string): (r: Draft)
    ensures match TwitpicId(content, true)
            case Some(id) =>
              r.props == p["title" := PictureTitle(content)]["url" := "http://twitpic.com/" + id] &&
              r.fetches == [ImageFetch(false, "thumbnail", "http://twitpic.com/show/thumb/" + id)]
            case None =>
              r.props == p["content" := content] && r.fetches == []
  {
    match TwitpicId(content, true)
    case Some(id) =>
      Draft(p["title" := PictureTitle(content)]["url" := "http://twitpic.com/" + id],
            [ImageFetch(false, "thumbnail", "http://twitpic.com/show/thumb/" + id)])
    case None => Draft(p["content" := content], [])
  }

  /** The date, and the author's location when the status gives one. */
  function DatedProps(p: map<string, string>, date: string, location: Option<string>): (r: map<string, string>)
    ensures "date" in r && r["date"] == date
    ensures forall k | k != "date" && k != "location" :: (k in r <==> k in p) && (k in r ==> r[k] == p[k])
  {
    var q := p["date" := date];
    if location.Some? then q["location" := location.value] else q
  }

  /** _make_item: author, permalink, text or picture, date, location, and
      the author's picture when the status gives one. */
  function MakeItem(node: Xml, makeDate: Option<string> -> string): Draft
    requires Complete(node)
  {
    var user := Find(node, "user").value;
    var p := AuthorProps(Find(user, "screen_name").value.content, Find(node, "id").value.content,
                         Find(node, "name").value.content);
    var body := TextProps(p, Find(node, "text").value.content.value);
    var icon := ContentOf(Find(user, "profile_image_url"));
    Draft(DatedProps(body.props, makeDate(Find(node, "created_at").value.content), ContentOf(Find(user, "location"))),
          body.fetches + if icon.Some? then [ImageFetch(false, "authoricon", icon.value)] else [])
  }

  /** The author's fields and the date of a status's item. */
  lemma ItemAuthorFields(userId: Option<string>, postId: Option<string>, name: Option<string>, content: string,
                         date: string, location: Option<string>)
    ensures var body := TextProps(AuthorProps(userId, postId, name), content);
            var d := Draft(DatedProps(body.props, date, location), body.fetches);
            d.Get("id") == Some(StatusUrl(userId, postId)) &&
            d.Get("authorid") == userId && d.Get("author") == name && d.Get("date") == Some(date)
  {
    var p := AuthorProps(userId, postId, name);
    var body := TextProps(p, content);
    var r := DatedProps(body.props, date, location);
    assert r["id"] == body.props["id"] && ("authorid" in r <==> "authorid" in body.props);
    assert "author" in r <==> "author" in body.props;
  }

  /** The text fields of a status's item: picture or plain. */
  lemma ItemTextFields(userId: Option<string>, postId: Option<string>, name: Option<string>, content: string,
                       date: string, location: Option<string>)
    ensures var body := TextProps(AuthorProps(userId, postId, name), content);
            var d := Draft(DatedProps(body.props, date, location), body.fetches);
            match TwitpicId(content, true)
            case Some(id) =>
              d.Get("url") == Some("http://twitpic.com/" + id) &&
              d.Get("title") == Some(PictureTitle(content)) && d.Get("content") == None &&
              d.fetches[0] == ImageFetch(false, "thumbnail", "http://twitpic.com/show/thumb/" + id)
            case None =>
              d.Get("url") == d.Get("id") && d.Get("content") == Some(content) && d.Get("title") == None
  {
    var p := AuthorProps(userId, postId, name);
    var body := TextProps(p, content);
    var r := DatedProps(body.props, date, location);
    assert "content" !in p && "title" !in p;
    assert r["id"] == body.props["id"] && ("url" in r <==> "url" in body.props);
    assert ("content" in r <==> "content" in body.props) && ("title" in r <==> "title" in body.props);
  }

  /** Every item is filed under the status's permalink; a status linking a
      picture becomes a picture item titled with its trimmed text and
      pointing at the picture page, any other status keeps its text as
      content and its permalink as url. */
  lemma MakeItemFields(node: Xml, makeDate: Option<string> -> string)
    requires Complete(node)
    ensures var d := MakeItem(node, makeDate);
            var user := Find(node, "user").value;
            var content := Find(node, "text").value.content.value;
            d.Get("id") == Some(StatusUrl(Find(user, "screen_name").value.content, Find(node, "id").value.content)) &&
            d.Get("authorid") == Find(user, "screen_name").value.content &&
            d.Get("author") == Find(node, "name").value.content &&
            d.Get("date") == Some(makeDate(Find(node, "created_at").value.content)) &&
            match TwitpicId(content, true)
            case Some(id) =>
              d.Get("url") == Some("http://twitpic.com/" + id) &&
              d.Get("title") == Some(PictureTitle(content)) && d.Get("content") == None &&
              d.fetches[0] == ImageFetch(false, "thumbnail", "http://twitpic.com/show/thumb/" + id)
            case None =>
              d.Get("url") == d.Get("id") && d.Get("content") == Some(content) && d.Get("title") == None
  {
    var user := Find(node, "user").value;
    var userId, postId, name := Find(user, "screen_name").value.content, Find(node, "id").value.content,
                                Find(node, "name").value.content;
    var content, date := Find(node, "text").value.content.value, makeDate(Find(node, "created_at").value.content);
    ItemAuthorFields(userId, postId, name, content, date, ContentOf(Find(user, "location")));
    ItemTextFields(userId, postId, name, content, date, ContentOf(Find(user, "location")));
  }

  /** A picture title neither starts nor ends with white space or a hyphen,
      and is a piece of the text with the links cut. */
  lemma PictureTitleClean(content: string)
    ensures var t := PictureTitle(content);
            (t != [] ==> !Trimmable(t[0]) && !Trimmable(t[|t| - 1])) &&
            Trimmed(t) == t
  {
    TrimmedShape(RemoveTwitpics(content, 0, true));
    TrimmedIdempotent(RemoveTwitpics(content, 0, true));
  }

  // ---------------------------------------------------------------------
  // The view

  /** UPDATE_TIMEOUT, in seconds. */
  const UpdateTimeout := 5 * 60

  /** A status's item, when the status has every node _make_item reads. */
  function StatusItem(makeDate: Option<string> -> string): Xml -> Option<Draft>
  {
    node => if Complete(node) then Some(MakeItem(node, makeDate)) else None
  }

  /** The statuses of a reply: the first "status" node found and the
      siblings after it. */
  function Statuses(root: Xml): seq<Xml>
  {
    FindAll(root, "status")
  }

  /** The item set of a reply: each status's item added in turn, an item
      whose id is held already dropped (mojito_set_add). */
  function StatusSet(root: Xml, makeDate: Option<string> -> string): map<string, Draft>
  {
    Collected(Statuses(root), StatusItem(makeDate), DraftId, {}, false)
  }

  /** Every status of a reply has its permalink in the set, and every
      member of the set is the item of one of the statuses. */
  lemma StatusSetCoversReply(root: Xml, makeDate: Option<string> -> string)
    requires forall k | 0 <= k < |Statuses(root)| :: Complete(Statuses(root)[k])
    ensures forall k | 0 <= k < |Statuses(root)| ::
              DraftId(MakeItem(Statuses(root)[k], makeDate)) in StatusSet(root, makeDate)
    ensures forall id | id in StatusSet(root, makeDate) ::
              MadeBySome(Statuses(root), StatusItem(makeDate), StatusSet(root, makeDate)[id])
  {
    var ss := Statuses(root);
    CollectedComplete(ss, StatusItem(makeDate), DraftId, {}, false);
    CollectedSound(ss, StatusItem(makeDate), DraftId, {}, false);
    forall k | 0 <= k < |ss|
      ensures DraftId(MakeItem(ss[k], makeDate)) in StatusSet(root, makeDate)
    {
      assert Kept(ss[k], StatusItem(makeDate), DraftId, {});
    }
  }

  class TwitterItemView {
    /** The refresh timer's period while it is armed (timeout_id != 0). */
    var timeout: Option<nat>
    /** friends_timeline requests sent. */
    var requests: nat
    /** The sets handed to mojito_item_view_set_from_set. */
    var published: seq<map<string, Draft>>

    constructor ()
      ensures timeout == None && requests == 0 && published == []
    {
      timeout := None;
      requests := 0;
      published := [];
    }

    /** start: a started view only warns; otherwise the timer is armed and
        the timeline requested at once. */
    method Start()
      modifies this`timeout, this`requests
      ensures old(timeout).Some? ==> timeout == old(timeout) && requests == old(requests)
      ensures old(timeout).None? ==> timeout == Some(UpdateTimeout) && requests == old(requests) + 1
    {
      if timeout.Some? {
        return;
      }
      timeout := Some(UpdateTimeout);
      requests := requests + 1;
    }

    /** The timer firing: another request, the timer kept. */
    method Timeout()
      requires timeout.Some?
      modifies this`requests
      ensures requests == old(requests) + 1
    {
      requests := requests + 1;
    }

    /** dispose: the timer is removed. */
    method Dispose()
      modifies this`timeout
      ensures timeout == None
    {
      timeout := None;
    }

    /** _got_status_updates_cb: an error, a failed call or a reply that does
        not parse (root None) changes nothing; otherwise the reply's item
        set is handed to the view. */
    method GotStatusUpdates(error: bool, root: Option<Xml>, makeDate: Option<string> -> string)
      requires root.Some? ==> forall k | 0 <= k < |Statuses(root.value)| :: Complete(Statuses(root.value)[k])
      modifies this`published
      ensures error || root.None? ==> published == old(published)
      ensures !error && root.Some? ==> published == old(published) + [StatusSet(root.value, makeDate)]
    {
      if error || root.None? {
        return;
      }
      var items := Collect(Statuses(root.value), StatusItem(makeDate), DraftId, {}, false);
      published := published + [items];
    }
  }

  /** Starting twice arms the timer once and sends one request. */
  method StartTwice(v: TwitterItemView)
    modifies v
    ensures v.timeout.Some?
    ensures v.requests <= old(v.requests) + 1
  {
    v.Start();
    v.Start();
  }
}
