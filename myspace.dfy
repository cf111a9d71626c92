/** The MySpace service of the older daemon (services/myspace/myspace.c): OAuth
    tokens come from the keyring when the daemon goes online, a "v1/user" call
    gives the account's user id, display name, profile and avatar URLs, and a
    refresh reads the status of the user or of the user's friends from an XML
    reply, emitting the set of statuses when it is not empty. */
module Myspace {
  import opened Wrappers
  import opened Adapters
  import opened AdapterViews
  import Strs

  /** The proxy's base URL, under which the keyring keeps the tokens. */
  const ApiUrl := "http://api.myspace.com/"

  const StaticCaps := [CanUpdateStatus, CanRequestAvatar]

  /** get_dynamic_caps: a known user id can update the status and request
      the avatar; otherwise there are no capabilities. */
  function DynamicCaps(userId: Option<string>): (r: seq<string>)
    ensures r != [] <==> userId.Some?
    ensures CanUpdateStatus in r <==> userId.Some?
  {
    if userId.Some? then [CanUpdateStatus, CanRequestAvatar] else []
  }

  /** node_from_call: a failed status, a payload that does not parse and an
      "error" root give nothing. */
  function NodeFromCall(code: int, parsed: Option<Xml>): (r: Option<Xml>)
    ensures r.Some? <==> 200 <= code < 300 && parsed.Some? && parsed.value.name != "error"
    ensures r.Some? ==> r == parsed
  {
    if 200 <= code < 300 && parsed.Some? && parsed.value.name != "error" then parsed else None
  }

  // ---------------------------------------------------------------------
  // Statuses as items

  /** The user nodes of a reply: the users under a "friends" node for the
      friends' statuses, the root itself for the user's own. */
  function StatusNodes(root: Xml): (r: seq<Xml>)
    ensures Find(root, "friends").None? ==> r == [root]
  {
    match Find(root, "friends")
    case Some(f) => FindAll(f, "user")
    case None => [root]
  }

  /** What the loop dereferences without checking: the userid,
      moodlastupdated and status nodes. */
  predicate Readable(node: Xml)
  {
    Find(node, "userid").Some? && Find(node, "moodlastupdated").Some? && Find(node, "status").Some?
  }

  const IdPrefix := "myspace-"

  /** The item's id: "myspace-", the user id, "-" and the mood's update
      time, g_strconcat stopping at the first missing text. */
  function StatusId(node: Xml): (r: string)
    requires Readable(node)
  {
    StrConcat([Some(IdPrefix), Find(node, "userid").value.content, Some("-"), Find(node, "moodlastupdated").value.content])
  }

  /** g_strconcat of four strings, all present. */
  lemma StrConcatFour(a: string, b: string, c: string, d: string)
    ensures StrConcat([Some(a), Some(b), Some(c), Some(d)]) == a + (b + (c + d))
  {
    var parts := [Some(a), Some(b), Some(c), Some(d)];
    assert [Some(d)][1..] == [];
    assert StrConcat([Some(d)]) == d;
    assert [Some(c), Some(d)][1..] == [Some(d)];
    assert StrConcat([Some(c), Some(d)]) == c + d;
    assert [Some(b), Some(c), Some(d)][1..] == [Some(c), Some(d)];
    assert StrConcat([Some(b), Some(c), Some(d)]) == b + (c + d);
    assert parts[1..] == [Some(b), Some(c), Some(d)];
  }

  /** With both texts present the id is "myspace-<userid>-<moodlastupdated>". */
  lemma StatusIdShape(node: Xml)
    requires Readable(node)
    requires Find(node, "userid").value.content.Some? && Find(node, "moodlastupdated").value.content.Some?
    ensures StatusId(node) == IdPrefix + Find(node, "userid").value.content.value + "-" +
                              Find(node, "moodlastupdated").value.content.value
  {
    StrConcatFour(IdPrefix, Find(node, "userid").value.content.value, "-", Find(node, "moodlastupdated").value.content.value);
  }

  /** Two statuses with user ids free of '-' get the same id only when they
      have the same user and the same update time. */
  lemma StatusIdsDistinct(a: Xml, b: Xml)
    requires Readable(a) && Readable(b)
    requires Find(a, "userid").value.content.Some? && Find(a, "moodlastupdated").value.content.Some?
    requires Find(b, "userid").value.content.Some? && Find(b, "moodlastupdated").value.content.Some?
    requires '-' !in Find(a, "userid").value.content.value && '-' !in Find(b, "userid").value.content.value
    requires StatusId(a) == StatusId(b)
    ensures Find(a, "userid").value.content == Find(b, "userid").value.content
    ensures Find(a, "moodlastupdated").value.content == Find(b, "moodlastupdated").value.content
  {
    var ua, ma := Find(a, "userid").value.content.value, Find(a, "moodlastupdated").value.content.value;
    var ub, mb := Find(b, "userid").value.content.value, Find(b, "moodlastupdated").value.content.value;
    StrConcatFour(IdPrefix, ua, "-", ma);
    StrConcatFour(IdPrefix, ub, "-", mb);
    Strs.PrefixCancel(IdPrefix, ua + ("-" + ma), ub + ("-" + mb));
    assert ua + ("-" + ma) == ua + ['-'] + ma;
    assert ub + ("-" + mb) == ub + ['-'] + mb;
    Strs.SeparatedCancel(ua, ma, ub, mb, '-');
  }

  /** The date: NULL without an update time, else the time through
      utcDate (strptime, mktime and the eight-hour shift of get_utc_date). */
  function StatusDate(text: Option<string>, utcDate: string -> string): (r: Option<string>)
    ensures r.Some? <==> text.Some?
  {
    if text.Some? then Some(utcDate(text.value)) else None
  }

  /** A node's text when the node is there and has text, else the account's
      value. */
  function TextOr(n: Option<Xml>, fallback: Option<string>): (r: Option<string>)
    ensures ContentOf(n).Some? ==> r == ContentOf(n)
    ensures ContentOf(n).None? ==> r == fallback
  {
    if ContentOf(n).Some? then ContentOf(n) else fallback
  }

  /** The author icon download, when the node has an image URL. */
  function IconFetch(node: Xml): (r: seq<ImageFetch>)
    ensures r == [] <==> ContentOf(Find(node, "imageurl")).None?
  {
    match ContentOf(Find(node, "imageurl"))
    case Some(url) => [ImageFetch(false, "authoricon", url)]
    case None => []
  }

  /** The six properties the loop stores are under different keys. */
  lemma ItemKeysDiffer()
    ensures "id" != "date" && "id" != "authorid" && "id" != "author" && "id" != "content" && "id" != "url"
    ensures "date" != "authorid" && "date" != "author" && "date" != "content" && "date" != "url"
    ensures "authorid" != "author" && "authorid" != "content" && "authorid" != "url"
    ensures "author" != "content" && "author" != "url" && "content" != "url"
  {
    assert |"id"| == 2 && |"url"| == 3 && |"date"| == 4 && |"author"| == 6 && |"content"| == 7 && |"authorid"| == 8;
    assert "date"[0] != "url"[0];
  }

  function Lookup(m: map<string, string>, k: string): Option<string>
  {
    if k in m then Some(m[k]) else None
  }

  /** The properties, from the values the loop read. */
  function StatusProps(id: string, date: Option<string>, authorId: Option<string>, author: Option<string>,
                       content: Option<string>, url: Option<string>): (p: map<string, string>)
    ensures Lookup(p, "id") == Some(id) && Lookup(p, "date") == date && Lookup(p, "authorid") == authorId
    ensures Lookup(p, "author") == author && Lookup(p, "content") == content && Lookup(p, "url") == url
    ensures p.Keys <= {"id", "date", "authorid", "author", "content", "url"}
  {
    ItemKeysDiffer();
    var p1 := Put(Put(map["id" := id], "date", date), "authorid", authorId);
    Put(Put(Put(p1, "author", author), "content", content), "url", url)
  }

  /** One turn of got_status_cb's loop: the id, the date, the user id as
      authorid, the name (else the account's display name) as author, the
      status as content, the profile URL (else the account's) as url, and
      the image as author icon. */
  function StatusItem(node: Xml, displayName: Option<string>, profileUrl: Option<string>,
                      utcDate: string -> string): (d: Draft)
    requires Readable(node)
    ensures d.Get("id") == Some(StatusId(node)) && Strs.IsPrefix(IdPrefix, DraftId(d))
    ensures d.Get("date") == StatusDate(Find(node, "moodlastupdated").value.content, utcDate)
    ensures d.Get("authorid") == Find(node, "userid").value.content
    ensures d.Get("author") == TextOr(Find(node, "name"), displayName)
    ensures d.Get("content") == Find(node, "status").value.content
    ensures d.Get("url") == TextOr(Find(node, "profileurl"), profileUrl)
    ensures d.fetches == IconFetch(node)
  {
    assert Strs.IsPrefix(IdPrefix, StatusId(node));
    Draft(StatusProps(StatusId(node), StatusDate(Find(node, "moodlastupdated").value.content, utcDate),
                      Find(node, "userid").value.content, TextOr(Find(node, "name"), displayName),
                      Find(node, "status").value.content, TextOr(Find(node, "profileurl"), profileUrl)),
          IconFetch(node))
  }

  function MakeStatus(displayName: Option<string>, profileUrl: Option<string>, utcDate: string -> string): Xml -> Option<Draft>
  {
    (n: Xml) => if Readable(n) then Some(StatusItem(n, displayName, profileUrl, utcDate)) else None
  }

  /** What the loop needs of an accepted reply's nodes. */
  predicate ReplyReadable(root: Xml)
  {
    forall k | 0 <= k < |StatusNodes(root)| :: Readable(StatusNodes(root)[k])
  }

  /** The set of one reply: every status, mojito_set_add keeping the first
      of an id (there is no banned list in the older daemon). */
  function StatusSet(root: Xml, displayName: Option<string>, profileUrl: Option<string>,
                     utcDate: string -> string): map<string, Draft>
  {
    Collected(StatusNodes(root), MakeStatus(displayName, profileUrl, utcDate), DraftId, {}, false)
  }

  /** Every status of a reply has its id in the set, and every member is a
      status's item. */
  lemma StatusSetMembers(root: Xml, displayName: Option<string>, profileUrl: Option<string>, utcDate: string -> string)
    requires ReplyReadable(root)
    ensures forall k | 0 <= k < |StatusNodes(root)| ::
              StatusId(StatusNodes(root)[k]) in StatusSet(root, displayName, profileUrl, utcDate)
    ensures forall id | id in StatusSet(root, displayName, profileUrl, utcDate) ::
              MadeBySome(StatusNodes(root), MakeStatus(displayName, profileUrl, utcDate),
                         StatusSet(root, displayName, profileUrl, utcDate)[id])
  {
    var nodes := StatusNodes(root);
    var make := MakeStatus(displayName, profileUrl, utcDate);
    CollectedComplete(nodes, make, DraftId, {}, false);
    CollectedSound(nodes, make, DraftId, {}, false);
    forall k | 0 <= k < |nodes|
      ensures StatusId(nodes[k]) in StatusSet(root, displayName, profileUrl, utcDate)
    {
      assert Kept(nodes[k], make, DraftId, {});
    }
  }

  /** A reply about the user alone (no "friends" node) always makes a set of
      exactly one status, so it is always emitted. */
  lemma OwnStatusIsEmitted(root: Xml, displayName: Option<string>, profileUrl: Option<string>, utcDate: string -> string)
    requires Find(root, "friends").None? && Readable(root)
    ensures StatusSet(root, displayName, profileUrl, utcDate).Keys == {StatusId(root)}
  {
    var make := MakeStatus(displayName, profileUrl, utcDate);
    CollectedSnoc([], root, make, DraftId, {}, false);
    assert [] + [root] == [root];
  }

  // ---------------------------------------------------------------------
  // Requests

  /** The call get_status_updates makes: the user's own status with the
      "own" parameter, else the friends' statuses. */
  function StatusCall(userId: string, own: bool): (r: Outgoing)
    ensures r.Rest? && Strs.IsPrefix("v1/users/" + userId + "/", r.endpoint)
  {
    if own then Rest("GET", "v1/users/" + userId + "/status", [])
    else Rest("GET", "v1/users/" + userId + "/friends/status", [])
  }

  /** The call got_tokens_cb makes once the keyring has the tokens. */
  const UserCall := Rest("GET", "v1/user", [])

  // ---------------------------------------------------------------------
  // The service

  /** The service object: whether it runs, whether it has a proxy (it is
      made when the daemon goes online and dropped when it goes offline),
      what the last "v1/user" reply gave, whether the service was opened
      with the "own" parameter, and what was sent and emitted (refreshed
      with a NULL set is None). */
  class MyspaceService {
    const own: bool
    var running: bool
    var hasProxy: bool
    var userId: Option<string>
    var displayName: Option<string>
    var profileUrl: Option<string>
    var imageUrl: Option<string>
    var sent: seq<Outgoing>
    var signals: seq<ServiceSignal>
    var refreshed: seq<Option<map<string, Draft>>>

    /** mojito_service_myspace_init: online, the keyring is asked at once. */
    constructor (own: bool, online: bool)
      ensures this.own == own && !running && hasProxy == online
      ensures userId.None? && displayName.None? && profileUrl.None? && imageUrl.None?
      ensures sent == (if online then [KeyringLookup(ApiUrl)] else []) && signals == [] && refreshed == []
    {
      this.own := own;
      running := false;
      hasProxy := false;
      userId := None;
      displayName := None;
      profileUrl := None;
      imageUrl := None;
      sent := [];
      signals := [];
      refreshed := [];
      new;
      if online {
        OnlineNotify(true);
      }
    }

    /** online_notify: online, a proxy is made and the keyring asked for
        the tokens; offline, NULL capabilities are announced, and the proxy
        and the user id dropped (the other account values stay). */
    method OnlineNotify(online: bool)
      modifies this`hasProxy, this`userId, this`sent, this`signals
      ensures hasProxy == online
      ensures online ==> userId == old(userId) && sent == old(sent) + [KeyringLookup(ApiUrl)] && signals == old(signals)
      ensures !online ==> userId.None? && sent == old(sent) && signals == old(signals) + [CapabilitiesChanged([])]
    {
      if online {
        hasProxy := true;
        sent := sent + [KeyringLookup(ApiUrl)];
      } else {
        signals := signals + [CapabilitiesChanged([])];
        hasProxy := false;
        userId := None;
      }
    }

    /** got_tokens_cb: with tokens the user is asked for; without, a NULL
        set is emitted. */
    method GotTokens(authorised: bool)
      modifies this`sent, this`refreshed
      ensures authorised ==> sent == old(sent) + [UserCall] && refreshed == old(refreshed)
      ensures !authorised ==> sent == old(sent) && refreshed == old(refreshed) + [None]
    {
      if authorised {
        sent := sent + [UserCall];
      } else {
        refreshed := refreshed + [None];
      }
    }

    /** get_status_updates: the user id is asserted. */
    method GetStatusUpdates()
      requires userId.Some?
      modifies this`sent
      ensures sent == old(sent) + [StatusCall(userId.value, own)]
    {
      sent := sent + [StatusCall(userId.value, own)];
    }

    /** got_user_cb: a failed call or a rejected reply changes nothing;
        otherwise the account values are read (NULL when missing or empty),
        the capabilities announced, and a running service asks for the
        statuses (asserting that the reply had a user id). */
    method GotUser(error: bool, code: int, parsed: Option<Xml>)
      requires !error && NodeFromCall(code, parsed).Some? && running ==> XmlChildValue(parsed.value, "userid").Some?
      modifies this`userId, this`displayName, this`profileUrl, this`imageUrl, this`signals, this`sent
      ensures error || NodeFromCall(code, parsed).None? ==>
                userId == old(userId) && displayName == old(displayName) && profileUrl == old(profileUrl) &&
                imageUrl == old(imageUrl) && signals == old(signals) && sent == old(sent)
      ensures !error && NodeFromCall(code, parsed).Some? ==>
                userId == XmlChildValue(parsed.value, "userid") &&
                displayName == XmlChildValue(parsed.value, "displayname") &&
                profileUrl == XmlChildValue(parsed.value, "weburi") &&
                imageUrl == XmlChildValue(parsed.value, "imageuri") &&
                signals == old(signals) + [CapabilitiesChanged(DynamicCaps(userId))] &&
                sent == old(sent) + (if running then [StatusCall(userId.value, own)] else [])
    {
      if error {
        return;
      }
      var node := NodeFromCall(code, parsed);
      if node.None? {
        return;
      }
      var root := node.value;
      assert root == parsed.value;
      var uid := XmlChildValue(root, "userid");
      userId, displayName := uid, XmlChildValue(root, "displayname");
      profileUrl, imageUrl := XmlChildValue(root, "weburi"), XmlChildValue(root, "imageuri");
      signals := signals + [CapabilitiesChanged(DynamicCaps(uid))];
      if running {
        sent := sent + [StatusCall(uid.value, own)];
      }
    }

    /** got_status_cb: a failed call or a rejected reply emits nothing;
        otherwise every status joins a new set, which is emitted only when
        it is not empty. */
    method GotStatus(error: bool, code: int, parsed: Option<Xml>, utcDate: string -> string)
      requires !error && NodeFromCall(code, parsed).Some? ==> ReplyReadable(parsed.value)
      modifies this`refreshed
      ensures error || NodeFromCall(code, parsed).None? ==> refreshed == old(refreshed)
      ensures !error && NodeFromCall(code, parsed).Some? ==>
                var s := StatusSet(parsed.value, displayName, profileUrl, utcDate);
                refreshed == old(refreshed) + (if s != map[] then [Some(s)] else [])
    {
      if error {
        return;
      }
      var root := NodeFromCall(code, parsed);
      if root.None? {
        return;
      }
      var s := Collect(StatusNodes(root.value), MakeStatus(displayName, profileUrl, utcDate), DraftId, {}, false);
      if s != map[] {
        refreshed := refreshed + [Some(s)];
      }
    }

    /** start: the service runs from now on. */
    method Start()
      modifies this`running
      ensures running
    {
      running := true;
    }

    /** refresh: nothing unless running; without a user id the keyring is
        asked for the tokens again, with one the statuses are asked for. */
    method Refresh()
      requires running && userId.None? ==> hasProxy
      modifies this`sent
      ensures !running ==> sent == old(sent)
      ensures running && userId.None? ==> sent == old(sent) + [KeyringLookup(ApiUrl)]
      ensures running && userId.Some? ==> sent == old(sent) + [StatusCall(userId.value, own)]
    {
      if !running {
        return;
      }
      if userId.None? {
        sent := sent + [KeyringLookup(ApiUrl)];
      } else {
        GetStatusUpdates();
      }
    }
  }

  /** A running service that has gone offline and online again asks the
      keyring again on refresh instead of reading statuses with the old
      user id. */
  method ReconnectForgetsUser(s: MyspaceService)
    requires s.running
    modifies s
    ensures s.userId.None? && s.hasProxy
    ensures s.sent == old(s.sent) + [KeyringLookup(ApiUrl), KeyringLookup(ApiUrl)]
  {
    s.OnlineNotify(false);
    s.OnlineNotify(true);
    s.Refresh();
  }
}
