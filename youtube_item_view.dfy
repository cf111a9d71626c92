/** The YouTube item view (services/youtube/youtube-item-view.c): with the
    service's user auth token it asks for the user's subscription videos
    ("feed") or uploads ("own") as RSS, makes an item of every channel item
    that is not banned, and looks up each author's icon once per batch,
    remembering the answers in a map. */
module YoutubeItemViews {
  import opened Wrappers
  import opened Adapters
  import opened AdapterViews
  import Youtube

  // ---------------------------------------------------------------------
  // Replies

  /** xml_node_from_call (call, "Youtube"): a failed status, a payload that
      does not parse and an "error_response" root give nothing. */
  function NodeFromCall(code: int, parsed: Option<Xml>): (r: Option<Xml>)
    ensures r.Some? <==> 200 <= code < 300 && parsed.Some? && parsed.value.name != "error_response"
    ensures r.Some? ==> r == parsed
  {
    if 200 <= code < 300 && parsed.Some? && parsed.value.name != "error_response" then parsed else None
  }

  // ---------------------------------------------------------------------
  // Author icons

  /** The icon a user's reply gives: the url of its first media:thumbnail. */
  function IconFromReply(reply: Option<Xml>): Option<string>
  {
    if reply.None? then None
    else match Find(reply.value, "media:thumbnail")
      case Some(n) => Attr(n, "url")
      case None => None
  }

  /** Every remembered icon is the one the user's reply gives.  `lookup` is
      the synchronous "users/<author>" call, through NodeFromCall. */
  predicate MemoAgrees(memo: map<string, string>, lookup: string -> Option<Xml>)
  {
    forall a | a in memo :: IconFromReply(lookup(a)) == Some(memo[a])
  }

  /** get_author_icon_url: a remembered icon, or the one the reply gives. */
  function AuthorIcon(memo: map<string, string>, author: string, lookup: string -> Option<Xml>): Option<string>
  {
    if author in memo then Some(memo[author]) else IconFromReply(lookup(author))
  }

  /** The memo saves calls and changes no answer. */
  lemma MemoKeepsAnswers(memo: map<string, string>, author: string, lookup: string -> Option<Xml>)
    requires MemoAgrees(memo, lookup)
    ensures AuthorIcon(memo, author, lookup) == IconFromReply(lookup(author))
  {
  }

  // ---------------------------------------------------------------------
  // Items

  /** What make_item uses without checking: the author (a key of the icon
      map) and, in a media group, its thumbnail. */
  predicate Readable(node: Xml)
  {
    XmlChildValue(node, "author").Some? &&
    (Find(node, "media:group").Some? ==> Find(Find(node, "media:group").value, "media:thumbnail").Some?)
  }

  /** The thumbnail URL of the item's media group. */
  function ThumbUrl(node: Xml): Option<string>
    requires Readable(node)
  {
    match Find(node, "media:group")
    case Some(g) => Attr(Find(g, "media:thumbnail").value, "url")
    case None => None
  }

  /** The downloads of an item: the thumbnail, which the item waits for,
      then the author's icon, which it does not. */
  function VideoFetches(node: Xml, icon: Option<string>): (r: seq<ImageFetch>)
    requires Readable(node)
    ensures |r| <= 2
    ensures forall f | f in r :: f.delaysReady <==> f.key == "thumbnail"
  {
    (if ThumbUrl(node).Some? then [ImageFetch(true, "thumbnail", ThumbUrl(node).value)] else []) +
    (if icon.Some? then [ImageFetch(false, "authoricon", icon.value)] else [])
  }

  /** The five properties make_item stores are under different keys. */
  lemma ItemKeysDiffer()
    ensures "id" != "date" && "id" != "title" && "id" != "url" && "id" != "author"
    ensures "date" != "title" && "date" != "url" && "date" != "author"
    ensures "title" != "url" && "title" != "author" && "url" != "author"
  {
    assert |"id"| == 2 && |"url"| == 3 && |"date"| == 4 && |"title"| == 5 && |"author"| == 6;
    assert "date"[0] != "url"[0];
  }

  function Lookup(m: map<string, string>, k: string): Option<string>
  {
    if k in m then Some(m[k]) else None
  }

  /** make_item's properties, from the values it read. */
  function ItemProps(id: Option<string>, date: Option<string>, title: Option<string>, url: Option<string>,
                     author: Option<string>): (p: map<string, string>)
    ensures Lookup(p, "id") == id && Lookup(p, "date") == date && Lookup(p, "title") == title
    ensures Lookup(p, "url") == url && Lookup(p, "author") == author
    ensures p.Keys <= {"id", "date", "title", "url", "author"}
  {
    ItemKeysDiffer();
    var p1 := Put(Put(map[], "id", id), "date", date);
    Put(Put(Put(p1, "title", title), "url", url), "author", author)
  }

  /** make_item: the guid as id, the update time (through makeDate), the
      title, the link as url, the author, and the downloads. */
  function VideoItem(node: Xml, icon: Option<string>, makeDate: string -> string): (d: Draft)
    requires Readable(node)
    ensures d.Get("id") == XmlChildValue(node, "guid")
    ensures d.Get("date") == if XmlChildValue(node, "atom:updated").Some? then Some(makeDate(XmlChildValue(node, "atom:updated").value)) else None
    ensures d.Get("title") == XmlChildValue(node, "title") && d.Get("url") == XmlChildValue(node, "link")
    ensures d.Get("author") == XmlChildValue(node, "author")
    ensures d.fetches == VideoFetches(node, icon)
  {
    var updated := XmlChildValue(node, "atom:updated");
    var date := if updated.Some? then Some(makeDate(updated.value)) else None;
    Draft(ItemProps(XmlChildValue(node, "guid"), date, XmlChildValue(node, "title"), XmlChildValue(node, "link"),
                    XmlChildValue(node, "author")), VideoFetches(node, icon))
  }

  /** The item of a channel item with its author's icon as the user's reply
      gives it. */
  function MakeVideo(lookup: string -> Option<Xml>, makeDate: string -> string): Xml -> Option<Draft>
  {
    (n: Xml) => if Readable(n) then Some(VideoItem(n, IconFromReply(lookup(XmlChildValue(n, "author").value)), makeDate)) else None
  }

  /** The channel items of a reply: the first "item" below the channel and
      its `next` chain; nothing without a channel. */
  function ChannelItems(root: Xml): seq<Xml>
  {
    match Find(root, "channel")
    case Some(c) => FindAll(c, "item")
    case None => []
  }

  /** What _got_videos_cb needs of an accepted reply's items. */
  predicate ReplyReadable(root: Xml)
  {
    forall k | 0 <= k < |ChannelItems(root)| :: Readable(ChannelItems(root)[k])
  }

  /** The set of one reply: every item not banned, a later one replacing an
      earlier one with its id. */
  function ReplySet(root: Xml, banned: set<string>, lookup: string -> Option<Xml>, makeDate: string -> string): map<string, Draft>
  {
    Collected(ChannelItems(root), MakeVideo(lookup, makeDate), DraftId, banned, true)
  }

  // ---------------------------------------------------------------------
  // Requests

  /** A feed request: the call, and the Authorization and X-GData-Key
      headers. */
  datatype FeedRequest = FeedRequest(call: Outgoing, authorization: string, devKey: string)

  /** The function _get_status_updates calls for a query. */
  function FeedFunction(query: string): (r: string)
    requires query in Youtube.ValidQueries
    ensures query == "feed" ==> r == "users/default/newsubscriptionvideos"
    ensures query == "own" ==> r == "users/default/uploads"
  {
    if query == "feed" then "users/default/newsubscriptionvideos" else "users/default/uploads"
  }

  function FeedCall(query: string, userAuth: string, developerKey: string): FeedRequest
    requires query in Youtube.ValidQueries
  {
    FeedRequest(Rest("GET", FeedFunction(query), [("max-results", "10"), ("alt", "rss")]),
                "GoogleLogin auth=" + userAuth, "key=" + developerKey)
  }

  // ---------------------------------------------------------------------
  // The view

  /** The item view: its query and developer key, whether the refresh timer
      is armed, the set being built, the author icon map, the authors looked
      up, the feed requests sent, and what was published, cached, dropped
      and hidden. */
  class YoutubeItemView {
    const query: string
    const developerKey: string
    var timerArmed: bool
    var working: map<string, Draft>
    var memo: map<string, string>
    var lookups: seq<string>
    var sent: seq<FeedRequest>
    var published: seq<map<string, Draft>>
    var saved: seq<map<string, Draft>>
    var cacheDrops: nat
    var hidden: seq<string>

    constructor (query: string, developerKey: string)
      requires query in Youtube.ValidQueries
      ensures this.query == query && this.developerKey == developerKey
      ensures !timerArmed && working == map[] && memo == map[] && lookups == [] && sent == []
      ensures published == [] && saved == [] && cacheDrops == 0 && hidden == []
    {
      this.query := query;
      this.developerKey := developerKey;
      timerArmed := false;
      working := map[];
      memo := map[];
      lookups := [];
      sent := [];
      published := [];
      saved := [];
      cacheDrops := 0;
      hidden := [];
    }

    /** _get_status_updates: without the service's user auth token nothing
        happens; otherwise the set is emptied and the feed asked for. */
    method GetStatusUpdates(userAuth: Option<string>)
      requires query in Youtube.ValidQueries
      modifies this`working, this`sent
      ensures userAuth.None? ==> working == old(working) && sent == old(sent)
      ensures userAuth.Some? ==>
                working == map[] && sent == old(sent) + [FeedCall(query, userAuth.value, developerKey)]
    {
      if userAuth.None? {
        return;
      }
      working := map[];
      sent := sent + [FeedCall(query, userAuth.value, developerKey)];
    }

    /** get_author_icon_url: a remembered icon is returned without a call;
        otherwise the user is looked up and an icon found is remembered. */
    method AuthorIconUrl(author: string, lookup: string -> Option<Xml>) returns (url: Option<string>)
      modifies this`memo, this`lookups
      ensures url == AuthorIcon(old(memo), author, lookup)
      ensures author in old(memo) ==> memo == old(memo) && lookups == old(lookups)
      ensures author !in old(memo) ==>
                lookups == old(lookups) + [author] &&
                memo == if url.Some? then old(memo)[author := url.value] else old(memo)
    {
      if author in memo {
        return Some(memo[author]);
      }
      lookups := lookups + [author];
      var root := lookup(author);
      if root.None? {
        return None;
      }
      var node := Find(root.value, "media:thumbnail");
      if node.None? {
        return None;
      }
      url := Attr(node.value, "url");
      if url.Some? {
        memo := memo[author := url.value];
      }
    }

    /** make_item, with the icon from the memo or a lookup; an agreeing memo
        stays agreeing. */
    method MakeItem(node: Xml, lookup: string -> Option<Xml>, makeDate: string -> string) returns (d: Draft)
      requires Readable(node) && MemoAgrees(memo, lookup)
      modifies this`memo, this`lookups
      ensures MemoAgrees(memo, lookup)
      ensures MakeVideo(lookup, makeDate)(node) == Some(d)
      ensures |old(lookups)| <= |lookups| <= |old(lookups)| + 1
    {
      var author := XmlChildValue(node, "author").value;
      MemoKeepsAnswers(memo, author, lookup);
      var icon := AuthorIconUrl(author, lookup);
      d := VideoItem(node, icon, makeDate);
    }

    /** _got_videos_cb: a failed call, a rejected reply or one without a
        channel changes nothing; otherwise the icon map is cleared, every
        item not banned joins the set, and the set is published, cached and
        emptied. */
    method GotVideos(failed: bool, code: int, parsed: Option<Xml>, banned: set<string>,
                     lookup: string -> Option<Xml>, makeDate: string -> string)
      requires NodeFromCall(code, parsed).Some? ==> ReplyReadable(parsed.value)
      modifies this`working, this`memo, this`lookups, this`published, this`saved
      ensures failed || NodeFromCall(code, parsed).None? || Find(parsed.value, "channel").None? ==>
                working == old(working) && published == old(published) && saved == old(saved)
      ensures !failed && NodeFromCall(code, parsed).Some? && Find(parsed.value, "channel").Some? ==>
                var s := old(working) + ReplySet(parsed.value, banned, lookup, makeDate);
                published == old(published) + [s] && saved == old(saved) + [s] && working == map[]
    {
      if failed {
        return;
      }
      var root := NodeFromCall(code, parsed);
      if root.None? || Find(root.value, "channel").None? {
        return;
      }
      memo := map[];
      var items := ChannelItems(root.value);
      AddItems(items, banned, lookup, makeDate);
      Publish();
    }

    /** The loop of _got_videos_cb over the channel items. */
    method AddItems(items: seq<Xml>, banned: set<string>, lookup: string -> Option<Xml>, makeDate: string -> string)
      requires forall k | 0 <= k < |items| :: Readable(items[k])
      requires MemoAgrees(memo, lookup)
      modifies this`working, this`memo, this`lookups
      ensures working == old(working) + Collected(items, MakeVideo(lookup, makeDate), DraftId, banned, true)
      ensures |old(lookups)| <= |lookups| <= |old(lookups)| + |items|
    {
      var i := 0;
      while i < |items|
        invariant 0 <= i <= |items|
        invariant MemoAgrees(memo, lookup)
        invariant working == old(working) + Collected(items[..i], MakeVideo(lookup, makeDate), DraftId, banned, true)
        invariant |old(lookups)| <= |lookups| <= |old(lookups)| + i
      {
        var d := MakeItem(items[i], lookup, makeDate);
        ghost var c := Collected(items[..i], MakeVideo(lookup, makeDate), DraftId, banned, true);
        CollectedPrefix(items, i, MakeVideo(lookup, makeDate), DraftId, banned, true);
        if DraftId(d) !in banned {
          UnionUpdate(old(working), c, DraftId(d), d);
          working := working[DraftId(d) := d];
        }
        i := i + 1;
      }
      assert items[..i] == items;
    }

    /** The end of _got_videos_cb: the view and the cache get the set, which
        is then emptied. */
    method Publish()
      modifies this`working, this`published, this`saved
      ensures published == old(published) + [old(working)] && saved == old(saved) + [old(working)]
      ensures working == map[]
    {
      published := published + [working];
      saved := saved + [working];
      working := map[];
    }

    /** start: a started view only warns; otherwise the timer is armed, the
        cached set (if any) shown, and the feed asked for. */
    method Start(cached: Option<map<string, Draft>>, userAuth: Option<string>)
      requires query in Youtube.ValidQueries
      modifies this`timerArmed, this`published, this`working, this`sent
      ensures timerArmed
      ensures old(timerArmed) ==> published == old(published) && working == old(working) && sent == old(sent)
      ensures !old(timerArmed) ==>
                published == old(published) + (if cached.Some? then [cached.value] else []) &&
                (userAuth.Some? ==> working == map[] && sent == old(sent) + [FeedCall(query, userAuth.value, developerKey)]) &&
                (userAuth.None? ==> working == old(working) && sent == old(sent))
    {
      if timerArmed {
        return;
      }
      timerArmed := true;
      if cached.Some? {
        published := published + [cached.value];
      }
      GetStatusUpdates(userAuth);
    }

    /** stop: a stopped view only warns; otherwise the timer is removed. */
    method Stop()
      modifies this`timerArmed
      ensures !timerArmed
    {
      if timerArmed {
        timerArmed := false;
      }
    }

    /** _service_capabilities_changed_cb: valid credentials refresh the view
        and arm the timer if it is not armed; anything else removes it. */
    method CapabilitiesChanged(caps: seq<string>, userAuth: Option<string>)
      requires query in Youtube.ValidQueries
      modifies this`timerArmed, this`working, this`sent
      ensures timerArmed <==> CredentialsValid in caps
      ensures CredentialsValid in caps && userAuth.Some? ==>
                working == map[] && sent == old(sent) + [FeedCall(query, userAuth.value, developerKey)]
      ensures CredentialsValid !in caps || userAuth.None? ==> working == old(working) && sent == old(sent)
    {
      if CredentialsValid in caps {
        GetStatusUpdates(userAuth);
        if !timerArmed {
          timerArmed := true;
        }
      } else {
        if timerArmed {
          timerArmed := false;
        }
      }
    }

    /** _service_user_changed_cb: the view is emptied and the cache dropped. */
    method UserChanged()
      modifies this`published, this`cacheDrops
      ensures published == old(published) + [map[]] && cacheDrops == old(cacheDrops) + 1
    {
      published := published + [map[]];
      cacheDrops := cacheDrops + 1;
    }

    /** _service_item_hidden_cb */
    method ItemHidden(uid: string)
      modifies this`hidden
      ensures hidden == old(hidden) + [uid]
    {
      hidden := hidden + [uid];
    }
  }

  /** Every item of an accepted reply whose id is not banned is in the
      published set, and every member of it is the item of one of the
      reply's channel items. */
  lemma ReplySetMembers(root: Xml, banned: set<string>, lookup: string -> Option<Xml>, makeDate: string -> string)
    requires ReplyReadable(root)
    ensures forall k | 0 <= k < |ChannelItems(root)| &&
                       DraftId(MakeVideo(lookup, makeDate)(ChannelItems(root)[k]).value) !in banned ::
              DraftId(MakeVideo(lookup, makeDate)(ChannelItems(root)[k]).value) in ReplySet(root, banned, lookup, makeDate)
    ensures forall id | id in ReplySet(root, banned, lookup, makeDate) ::
              id !in banned && MadeBySome(ChannelItems(root), MakeVideo(lookup, makeDate), ReplySet(root, banned, lookup, makeDate)[id])
  {
    var items := ChannelItems(root);
    var make := MakeVideo(lookup, makeDate);
    CollectedComplete(items, make, DraftId, banned, true);
    CollectedSound(items, make, DraftId, banned, true);
    forall k | 0 <= k < |items| && DraftId(make(items[k]).value) !in banned
      ensures DraftId(make(items[k]).value) in ReplySet(root, banned, lookup, makeDate)
    {
      assert Kept(items[k], make, DraftId, banned);
    }
  }
}
