/** The Vimeo service (services/vimeo/vimeo.c) and its item view
    (services/vimeo/vimeo-item-view.c): the configured user a proxy is bound
    to, the queries a view can be opened for, and the view that asks for the
    user's subscriptions or own videos, turns each video into an item and
    publishes the set once no call is outstanding. */
module Vimeo {
  import opened Wrappers
  import opened Adapters
  import opened AdapterViews
  import opened CallLists
  import opened GLists

  /** UPDATE_TIMEOUT, in seconds. */
  const UpdateTimeout := 5 * 60

  /** get_static_caps: the query and banishable interfaces. */
  const StaticCaps := [HasQueryIface, HasBanishableIface]

  /** valid_queries */
  const ValidQueries := ["feed", "own"]

  /** The proxy's URL format "http://vimeo.com/api/v2/%s/" bound to a user
      (a NULL user prints as "(null)"). */
  function ProxyUrl(user: Option<string>): string
  {
    "http://vimeo.com/api/v2/" + Printed(user) + "/"
  }

  // ---------------------------------------------------------------------
  // The service

  class VimeoService {
    var userId: Option<string>
    /** The URL the proxy is bound to; None until the first binding. */
    var bound: Option<string>
    /** user-changed signals emitted. */
    var userChanges: nat
    /** The queries views were opened for. */
    var views: seq<string>

    /** sw_service_vimeo_init: no user and an unbound proxy; the
        configuration is read by the first UserChanged. */
    constructor ()
      ensures userId.None? && bound.None? && userChanges == 0 && views == []
    {
      userId := None;
      bound := None;
      userChanges := 0;
      views := [];
    }

    /** _gconf_user_changed_cb: an unset or empty user is no user; only a
        different user is taken, and then the proxy is bound to it and
        user-changed emitted. */
    method UserChanged(value: Option<string>)
      modifies this`userId, this`bound, this`userChanges
      ensures userId == ConfiguredUser(value)
      ensures ConfiguredUser(value) == old(userId) ==> bound == old(bound) && userChanges == old(userChanges)
      ensures ConfiguredUser(value) != old(userId) ==>
                bound == Some(ProxyUrl(userId)) && userChanges == old(userChanges) + 1
    {
      var newUser := ConfiguredUser(value);
      if newUser != userId {
        userId := newUser;
        bound := Some(ProxyUrl(userId));
        userChanges := userChanges + 1;
      }
    }

    /** _vimeo_query_open_view: only "feed" and "own" open a view. */
    method QueryOpenView(query: string) returns (reply: OpenViewReply)
      modifies this`views
      ensures query in ValidQueries ==> reply == ViewOpened(query) && views == old(views) + [query]
      ensures query !in ValidQueries ==> reply == InvalidQuery(query) && views == old(views)
    {
      var valid := CheckQueryValidity(ValidQueries, query);
      if !valid {
        return InvalidQuery(query);
      }
      views := views + [query];
      reply := ViewOpened(query);
    }
  }

  /** Telling the service the same user twice, or an empty user after none,
      binds and announces nothing the second time. */
  method SameUserTwice(s: VimeoService, value: Option<string>)
    modifies s
    ensures s.userId == ConfiguredUser(value)
    ensures s.userChanges <= old(s.userChanges) + 1
  {
    s.UserChanged(value);
    s.UserChanged(value);
  }

  // ---------------------------------------------------------------------
  // Videos as items

  /** The text of the video's first element with a tag. */
  function Field(video: Xml, tag: string): Option<string>
  {
    ContentOf(Find(video, tag))
  }

  /** A video element that is not the empty placeholder: it has a url. */
  predicate HasUrl(video: Xml)
  {
    Find(video, "url").Some?
  }

  /** What make_item and the banned check dereference without checking in
      a video with a url: the url's text, the title, user name, upload date
      (with its text), thumbnail and portrait elements. */
  predicate Readable(video: Xml)
  {
    Field(video, "url").Some? && Find(video, "title").Some? && Find(video, "user_name").Some? &&
    Field(video, "upload_date").Some? &&
    Find(video, "thumbnail_medium").Some? && Find(video, "user_portrait_medium").Some?
  }

  /** The two downloads of a video's item, when their URLs are there; neither
      delays the item. */
  function VideoFetches(video: Xml): seq<ImageFetch>
  {
    (if Field(video, "thumbnail_medium").Some? then [ImageFetch(false, "thumbnail", Field(video, "thumbnail_medium").value)] else []) +
    (if Field(video, "user_portrait_medium").Some? then [ImageFetch(false, "authoricon", Field(video, "user_portrait_medium").value)] else [])
  }

  /** The keys make_item sets are distinct. */
  lemma ItemKeysDiffer()
    ensures "id" != "url" && "id" != "date" && "url" != "date"
    ensures "id" != "title" && "url" != "title" && "date" != "title"
    ensures "id" != "author" && "url" != "author" && "date" != "author" && "title" != "author"
  {
    assert |"id"| == 2 && |"url"| == 3 && |"date"| == 4 && |"title"| == 5 && |"author"| == 6;
  }

  /** The properties make_item sets, from the texts it reads. */
  function ItemProps(url: string, title: Option<string>, author: Option<string>, date: string): (p: map<string, string>)
    ensures "id" in p && p["id"] == url && "url" in p && p["url"] == url
    ensures "date" in p && p["date"] == date
    ensures ("title" in p <==> title.Some?) && (title.Some? ==> "title" in p && p["title"] == title.value)
    ensures ("author" in p <==> author.Some?) && (author.Some? ==> "author" in p && p["author"] == author.value)
    ensures p.Keys <= {"id", "url", "title", "author", "date"}
  {
    ItemKeysDiffer();
    var named := Put(Put(map[], "title", title), "author", author);
    named["id" := url]["url" := url]["date" := date]
  }

  /** make_item: the video's url is both the item's id and its url, with its
      title, author and upload date (parsed by makeDate). */
  function VideoItem(video: Xml, makeDate: string -> string): (d: Draft)
    requires Readable(video)
    ensures DraftId(d) == Field(video, "url").value && d.Get("url") == Field(video, "url")
    ensures d.Get("title") == Field(video, "title") && d.Get("author") == Field(video, "user_name")
    ensures d.Get("date") == Some(makeDate(Field(video, "upload_date").value))
    ensures d.props.Keys <= {"id", "url", "title", "author", "date"}
    ensures d.fetches == VideoFetches(video)
  {
    var url := Field(video, "url").value;
    Draft(ItemProps(url, Field(video, "title"), Field(video, "user_name"), makeDate(Field(video, "upload_date").value)),
          VideoFetches(video))
  }

  /** The loop body of _got_videos_cb: an empty placeholder makes nothing. */
  function MakeVideo(makeDate: string -> string): Xml -> Option<Draft>
  {
    (v: Xml) => if HasUrl(v) && Readable(v) then Some(VideoItem(v, makeDate)) else None
  }

  /** The video elements of a reply. */
  function Videos(root: Xml): seq<Xml>
  {
    FindAll(root, "video")
  }

  /** The set of a reply: each video with a url whose url is not banned,
      a later one replacing an earlier one with the same url. */
  function VideoSet(root: Xml, banned: set<string>, makeDate: string -> string): map<string, Draft>
  {
    Collected(Videos(root), MakeVideo(makeDate), DraftId, banned, true)
  }

  /** What _got_videos_cb needs of a reply's videos. */
  predicate ReplyReadable(root: Xml)
  {
    forall k | 0 <= k < |Videos(root)| :: HasUrl(Videos(root)[k]) ==> Readable(Videos(root)[k])
  }

  /** The set holds exactly the urls of the reply's videos that are not
      banned, each with its video's item; placeholders add nothing. */
  lemma VideoSetMembers(root: Xml, banned: set<string>, makeDate: string -> string)
    requires ReplyReadable(root)
    ensures forall k | 0 <= k < |Videos(root)| && HasUrl(Videos(root)[k]) && Field(Videos(root)[k], "url").value !in banned ::
              Field(Videos(root)[k], "url").value in VideoSet(root, banned, makeDate)
    ensures forall id | id in VideoSet(root, banned, makeDate) ::
              id !in banned &&
              exists k | 0 <= k < |Videos(root)| :: HasUrl(Videos(root)[k]) && Readable(Videos(root)[k]) &&
                Field(Videos(root)[k], "url").value == id &&
                VideoSet(root, banned, makeDate)[id] == VideoItem(Videos(root)[k], makeDate)
  {
    var vs := Videos(root);
    var make := MakeVideo(makeDate);
    CollectedComplete(vs, make, DraftId, banned, true);
    CollectedSound(vs, make, DraftId, banned, true);
    forall k | 0 <= k < |vs| && HasUrl(vs[k]) && Field(vs[k], "url").value !in banned
      ensures Field(vs[k], "url").value in VideoSet(root, banned, makeDate)
    {
      assert Kept(vs[k], make, DraftId, banned);
    }
    forall id | id in VideoSet(root, banned, makeDate)
      ensures exists k | 0 <= k < |vs| :: HasUrl(vs[k]) && Readable(vs[k]) &&
                Field(vs[k], "url").value == id && VideoSet(root, banned, makeDate)[id] == VideoItem(vs[k], makeDate)
    {
      var k :| 0 <= k < |vs| && make(vs[k]) == Some(VideoSet(root, banned, makeDate)[id]);
    }
  }

  /** node_from_call: the root of a successful call whose payload parsed. */
  function NodeFromCall(status: int, parsed: Option<Xml>): (r: Option<Xml>)
    ensures r.Some? <==> 200 <= status < 300 && parsed.Some?
    ensures r.Some? ==> r == parsed
  {
    if 200 <= status < 300 then parsed else None
  }

  /** _get_status_updates: "feed" reads the subscriptions, "own" the user's
      videos. */
  function VideosCall(query: string): (r: Outgoing)
    requires query in ValidQueries
    ensures query == "feed" ==> r == Rest("GET", "subscriptions.xml", [])
    ensures query == "own" ==> r == Rest("GET", "videos.xml", [])
  {
    if query == "feed" then Rest("GET", "subscriptions.xml", []) else Rest("GET", "videos.xml", [])
  }

  // ---------------------------------------------------------------------
  // The item view

  class VimeoItemView {
    const query: string
    const calls: CallList
    /** Whether the refresh timer is armed (timeout_id != 0). */
    var timerArmed: bool
    /** The set the replies fill (priv->set). */
    var working: map<string, Draft>
    var published: seq<map<string, Draft>>
    var saved: seq<map<string, Draft>>
    var cacheDrops: nat
    var hidden: seq<string>
    /** The requests sent, in order, each to the proxy's bound URL. */
    var sent: seq<Outgoing>

    ghost predicate Valid()
      reads this, calls
    {
      calls.Valid() && query in ValidQueries
    }

    /** The view _vimeo_query_open_view makes for a valid query. */
    constructor (query: string)
      requires query in ValidQueries
      ensures Valid() && this.query == query && fresh(calls) && calls.IsEmpty()
      ensures !timerArmed && working == map[] && published == [] && saved == [] && cacheDrops == 0
      ensures hidden == [] && sent == []
    {
      this.query := query;
      calls := new CallList();
      timerArmed := false;
      working := map[];
      published := [];
      saved := [];
      cacheDrops := 0;
      hidden := [];
      sent := [];
    }

    /** _get_status_updates: outstanding calls are cancelled, the set
        emptied, and one new call for the query goes out and is listed. */
    method GetStatusUpdates()
      requires Valid()
      modifies this`working, this`sent, calls, set c | c in calls.l
      ensures Valid()
      ensures working == map[] && sent == old(sent) + [VideosCall(query)]
      ensures |calls.l| == 1 && fresh(calls.l[0])
      ensures forall c | c in old(calls.l) :: c.cancelled
    {
      calls.CancelAll();
      working := map[];
      var call := new ProxyCall();
      calls.Add(call);
      sent := sent + [VideosCall(query)];
    }

    /** _update_if_done: once no call is outstanding the set is handed to
        the view and the cache, then emptied. */
    method UpdateIfDone()
      requires Valid()
      modifies this`published, this`saved, this`working
      ensures Valid()
      ensures calls.IsEmpty() ==>
                published == old(published) + [old(working)] && saved == old(saved) + [old(working)] &&
                working == map[]
      ensures !calls.IsEmpty() ==>
                published == old(published) && saved == old(saved) && working == old(working)
    {
      if calls.IsEmpty() {
        published := published + [working];
        saved := saved + [working];
        working := map[];
      }
    }

    /** _got_videos_cb: the call leaves the list; an error, a failed status
        or a payload that does not parse ends there, without an update;
        otherwise each video's item joins the set unless it is a placeholder
        or banned, and the view is updated if no call is left. */
    method GotVideos(call: ProxyCall, error: bool, status: int, parsed: Option<Xml>,
                     banned: set<string>, makeDate: string -> string)
      requires Valid()
      requires parsed.Some? ==> ReplyReadable(parsed.value)
      modifies this`working, this`published, this`saved, calls
      ensures Valid()
      ensures calls.l == RemoveFirst(old(calls.l), call)
      ensures error || NodeFromCall(status, parsed).None? ==>
                working == old(working) && published == old(published) && saved == old(saved)
      ensures !error && NodeFromCall(status, parsed).Some? ==>
                var filled := old(working) + VideoSet(parsed.value, banned, makeDate);
                if calls.IsEmpty() then
                  published == old(published) + [filled] && saved == old(saved) + [filled] && working == map[]
                else
                  published == old(published) && saved == old(saved) && working == filled
    {
      calls.Remove(call);
      var root := NodeFromCall(status, parsed);
      if !error && root.Some? {
        var s := Collect(Videos(root.value), MakeVideo(makeDate), DraftId, banned, true);
        Merge(s);
      }
    }

    /** The end of _got_videos_cb for a reply that parsed: the reply's set
        joins the working set (sw_set_add replacing members with the same
        id), and the view is updated if no call is left. */
    method Merge(s: map<string, Draft>)
      requires Valid()
      modifies this`working, this`published, this`saved
      ensures Valid()
      ensures calls.IsEmpty() ==>
                published == old(published) + [old(working) + s] && saved == old(saved) + [old(working) + s] &&
                working == map[]
      ensures !calls.IsEmpty() ==>
                published == old(published) && saved == old(saved) && working == old(working) + s
    {
      working := working + s;
      UpdateIfDone();
    }

    /** start: a started view only warns; otherwise the timer is armed, the
        cached set (if any) shown, and the videos asked for. */
    method Start(cached: Option<map<string, Draft>>)
      requires Valid()
      modifies this`timerArmed, this`published, this`working, this`sent, calls, set c | c in calls.l
      ensures Valid() && timerArmed
      ensures old(timerArmed) ==>
                published == old(published) && sent == old(sent) && working == old(working) && calls.l == old(calls.l)
      ensures !old(timerArmed) ==>
                published == old(published) + (if cached.Some? then [cached.value] else []) &&
                working == map[] && sent == old(sent) + [VideosCall(query)] && |calls.l| == 1
    {
      if timerArmed {
        return;
      }
      timerArmed := true;
      if cached.Some? {
        published := published + [cached.value];
      }
      GetStatusUpdates();
    }

    /** stop: a stopped view only warns; otherwise the timer is removed. */
    method Stop()
      modifies this`timerArmed
      ensures !timerArmed
    {
      if timerArmed {
        timerArmed := false;
      }
    }

    /** refresh, and the timer firing. */
    method Refresh()
      requires Valid()
      modifies this`working, this`sent, calls, set c | c in calls.l
      ensures Valid()
      ensures working == map[] && sent == old(sent) + [VideosCall(query)] && |calls.l| == 1
    {
      GetStatusUpdates();
    }

    /** _service_item_hidden_cb */
    method ItemHidden(uid: string)
      modifies this`hidden
      ensures hidden == old(hidden) + [uid]
    {
      hidden := hidden + [uid];
    }

    /** _service_user_changed_cb: the view is emptied and the cache dropped. */
    method UserChanged()
      modifies this`published, this`cacheDrops
      ensures published == old(published) + [map[]] && cacheDrops == old(cacheDrops) + 1
    {
      published := published + [map[]];
      cacheDrops := cacheDrops + 1;
    }
  }

  /** A refresh followed by its reply publishes exactly the reply's set: the
      refresh leaves one call, whose reply empties the list. */
  method RefreshThenReply(v: VimeoItemView, parsed: Xml, banned: set<string>, makeDate: string -> string)
    requires v.Valid() && ReplyReadable(parsed)
    modifies v, v.calls, set c | c in v.calls.l
    ensures v.Valid()
    ensures v.published == old(v.published) + [VideoSet(parsed, banned, makeDate)]
    ensures v.working == map[]
  {
    v.Refresh();
    var call := v.calls.l[0];
    assert v.calls.l == [call];
    ghost var before := v.published;
    v.GotVideos(call, false, 200, Some(parsed), banned, makeDate);
    assert v.calls.l == [];
    assert map[] + VideoSet(parsed, banned, makeDate) == VideoSet(parsed, banned, makeDate);
  }
}
