/** The Digg service of the older daemon (services/digg/digg.c): one
    synchronous refresh reads the user's friends' submitted, commented and
    dugg stories and emits them as one item set; the configured user name
    decides whether there is anything to read. */
module Digg {
  import opened Wrappers
  import opened Adapters
  import opened AdapterViews
  import Strs

  /** The number of stories each call asks for. */
  const PageSize := "5"

  /** The three sub-requests of a refresh, in the order they are made. */
  const Submissions := "submissions"
  const Commented := "commented"
  const Dugg := "dugg"

  /** The proxy's URL format "http://services.digg.com/user/%s/friends/%s",
      bound to the user and the sub-request. */
  function CallUrl(user: string, sub: string): (r: string)
    ensures Strs.IsPrefix("http://services.digg.com/user/" + user + "/friends/", r)
  {
    "http://services.digg.com/user/" + user + "/friends/" + sub
  }

  /** The request digg_call sends for one sub-request. */
  function StoriesCall(user: string, sub: string, appKey: string): Outgoing
  {
    Rest("GET", CallUrl(user, sub), [("appkey", appKey), ("count", PageSize)])
  }

  // ---------------------------------------------------------------------
  // digg_call

  /** What digg_call hands back: the root it returns, and whether it
      released that root before returning it. */
  datatype CallOutcome = CallOutcome(root: Option<Xml>, released: bool)

  /** A root that is returned after it was released is read (and released
      again) by the caller. */
  predicate UseAfterRelease(o: CallOutcome)
  {
    o.root.Some? && o.released
  }

  /** digg_call as written: a parsed root that is not "stories" is reported
      and released, and then returned all the same. */
  function CallAsWritten(parsed: Option<Xml>): (r: CallOutcome)
    ensures r.root == parsed
    ensures r.released <==> parsed.Some? && parsed.value.name != "stories"
  {
    CallOutcome(parsed, parsed.Some? && parsed.value.name != "stories")
  }

  /** An error document as the reply: the call returns the root it has just
      released. */
  lemma ErrorRootUsedAfterRelease()
    ensures UseAfterRelease(CallAsWritten(Some(Xml("error", map[], None, []))))
    ensures Call(Some(Xml("error", map[], None, []))).root.None?
  {
  }

  /** digg_call as its comment intends: no content or wrong content gives
      NULL, and only a "stories" root is returned. */
  function Call(parsed: Option<Xml>): (r: CallOutcome)
    ensures !UseAfterRelease(r)
    ensures r.root.Some? <==> parsed.Some? && parsed.value.name == "stories"
    ensures r.root.Some? ==> r.root == parsed
  {
    if parsed.Some? && parsed.value.name == "stories" then CallOutcome(parsed, false)
    else CallOutcome(None, parsed.Some?)
  }

  // ---------------------------------------------------------------------
  // Stories as items

  /** One item to make: the story, the id prefix (none for the user's own
      submissions) and the author node (NULL when the story has none). */
  datatype Entry = Entry(story: Xml, prefix: Option<string>, author: Option<Xml>)

  /** What init_item and assign_author dereference without checking: the
      story's title and description nodes, its submit date, and the author
      node. */
  predicate Readable(e: Entry)
  {
    Find(e.story, "title").Some? && Find(e.story, "description").Some? &&
    Attr(e.story, "submit_date").Some? && e.author.Some?
  }

  /** init_item's id: "<prefix>_<id>", or the bare id without a prefix (a
      missing id attribute prints as "(null)" after a prefix and leaves the
      id unset without one). */
  function ItemId(story: Xml, prefix: Option<string>): Option<string>
  {
    if prefix.Some? then Some(prefix.value + "_" + Printed(Attr(story, "id")))
    else Attr(story, "id")
  }

  /** Stories with different ids keep different ids under one prefix. */
  lemma ItemIdsDistinct(a: Xml, b: Xml, prefix: Option<string>)
    requires Attr(a, "id").Some? && Attr(b, "id").Some? && Attr(a, "id") != Attr(b, "id")
    ensures ItemId(a, prefix) != ItemId(b, prefix)
  {
    if prefix.Some? {
      Strs.PrefixCancel(prefix.value + "_", Attr(a, "id").value, Attr(b, "id").value);
    }
  }

  /** retrieve_thumbnail and assign_author's downloads: the thumbnail's
      source when the story has a thumbnail, then the author's icon; neither
      delays the item. */
  function EntryFetches(e: Entry): seq<ImageFetch>
    requires e.author.Some?
  {
    var thumb := Find(e.story, "thumbnail");
    var src := if thumb.Some? then Attr(thumb.value, "src") else None;
    var icon := Attr(e.author.value, "icon");
    (if src.Some? then [ImageFetch(false, "thumbnail", src.value)] else []) +
    (if icon.Some? then [ImageFetch(false, "authoricon", icon.value)] else [])
  }

  /** init_item's properties. */
  function StoryProps(e: Entry, makeDate: int -> string): (r: map<string, string>)
    requires Readable(e)
    ensures r.Keys <= {"id", "url", "title", "content", "date"}
    ensures "id" in r <==> ItemId(e.story, e.prefix).Some?
    ensures "id" in r ==> r["id"] == ItemId(e.story, e.prefix).value
    ensures "date" in r && r["date"] == makeDate(Strs.Atoi(Attr(e.story, "submit_date").value))
  {
    var p1 := Put(map[], "id", ItemId(e.story, e.prefix));
    var p2 := Put(p1, "url", Attr(e.story, "link"));
    var p3 := Put(p2, "title", Find(e.story, "title").value.content);
    var p4 := Put(p3, "content", Find(e.story, "description").value.content);
    p4["date" := makeDate(Strs.Atoi(Attr(e.story, "submit_date").value))]
  }

  /** init_item followed by assign_author: the story's properties, the
      author's full name and user name, and the downloads. */
  function EntryItem(e: Entry, makeDate: int -> string): (d: Draft)
    requires Readable(e)
    ensures d.Get("id") == ItemId(e.story, e.prefix)
    ensures d.Get("title") == Find(e.story, "title").value.content
    ensures d.Get("author") == Attr(e.author.value, "fullname")
    ensures d.Get("authorid") == Attr(e.author.value, "name")
    ensures d.fetches == EntryFetches(e)
  {
    var p := StoryProps(e, makeDate);
    var p1 := Put(p, "author", Attr(e.author.value, "fullname"));
    Draft(Put(p1, "authorid", Attr(e.author.value, "name")), EntryFetches(e))
  }

  function MakeEntry(makeDate: int -> string): Entry -> Option<Draft>
  {
    (e: Entry) => if Readable(e) then Some(EntryItem(e, makeDate)) else None
  }

  /** The stories under a root, in document order. */
  function Stories(root: Option<Xml>): seq<Xml>
  {
    if root.Some? then FindAll(root.value, "story") else []
  }

  /** The loop over the user's submissions: each story by its own author,
      without a prefix. */
  function SubmissionEntries(stories: seq<Xml>): (r: seq<Entry>)
    ensures |r| == |stories|
    ensures forall k | 0 <= k < |r| :: r[k].story == stories[k] && r[k].prefix.None?
  {
    seq(|stories|, k requires 0 <= k < |stories| => Entry(stories[k], None, Find(stories[k], "user")))
  }

  /** The friends of a story (rest_xml_node_find on a NULL node finds
      nothing). */
  function Friends(story: Xml): seq<Xml>
  {
    match Find(story, "friends")
    case Some(f) => FindAll(f, "user")
    case None => []
  }

  /** collect_with_friends: the story once per friend, prefixed with
      "<prefix>_<friend's name>". */
  function FriendEntries(story: Xml, prefix: string): (r: seq<Entry>)
    ensures forall k | 0 <= k < |r| ::
              r[k].story == story && r[k].author.Some? && r[k].prefix.Some? &&
              Strs.IsPrefix(prefix + "_", r[k].prefix.value)
  {
    var users := Friends(story);
    seq(|users|, k requires 0 <= k < |users| =>
          Entry(story, Some(prefix + "_" + Printed(Attr(users[k], "name"))), Some(users[k])))
  }

  /** The loop over the commented or dugg stories. */
  function AllFriendEntries(stories: seq<Xml>, prefix: string): (r: seq<Entry>)
    ensures forall k | 0 <= k < |r| ::
              r[k].author.Some? && r[k].prefix.Some? && Strs.IsPrefix(prefix + "_", r[k].prefix.value)
  {
    if stories == [] then []
    else FriendEntries(stories[0], prefix) + AllFriendEntries(stories[1..], prefix)
  }

  /** The replies of one refresh's three calls, as parsed. */
  datatype Replies = Replies(submissions: Option<Xml>, commented: Option<Xml>, dugg: Option<Xml>)

  /** Every item a refresh makes, in the order it adds them. */
  function RefreshEntries(r: Replies): seq<Entry>
  {
    SubmissionEntries(Stories(Call(r.submissions).root)) +
    AllFriendEntries(Stories(Call(r.commented).root), "comment") +
    AllFriendEntries(Stories(Call(r.dugg).root), "digg")
  }

  /** Ids made under prefixes that start differently differ. */
  lemma PrefixedIdsDiffer(a: Entry, b: Entry)
    requires a.prefix.Some? && Strs.IsPrefix("comment_", a.prefix.value)
    requires b.prefix.Some? && Strs.IsPrefix("digg_", b.prefix.value)
    ensures ItemId(a.story, a.prefix) != ItemId(b.story, b.prefix)
  {
    assert a.prefix.value[0] == "comment_"[0] == 'c';
    assert b.prefix.value[0] == "digg_"[0] == 'd';
    assert ItemId(a.story, a.prefix).value[0] == 'c';
    assert ItemId(b.story, b.prefix).value[0] == 'd';
  }

  /** Items from a commented story and from a dugg story never share an id:
      one starts "comment_", the other "digg_". */
  lemma CommentedAndDuggDistinct(r: Replies, i: nat, j: nat)
    requires i < |AllFriendEntries(Stories(Call(r.commented).root), "comment")|
    requires j < |AllFriendEntries(Stories(Call(r.dugg).root), "digg")|
    ensures var c := AllFriendEntries(Stories(Call(r.commented).root), "comment")[i];
            var d := AllFriendEntries(Stories(Call(r.dugg).root), "digg")[j];
            ItemId(c.story, c.prefix) != ItemId(d.story, d.prefix)
  {
    var c := AllFriendEntries(Stories(Call(r.commented).root), "comment")[i];
    var d := AllFriendEntries(Stories(Call(r.dugg).root), "digg")[j];
    PrefixedIdsDiffer(c, d);
  }

  /** The set a refresh emits: every item in turn, mojito_set_add keeping
      the first item of an id. */
  function RefreshSet(r: Replies, makeDate: int -> string): map<string, Draft>
  {
    Collected(RefreshEntries(r), MakeEntry(makeDate), DraftId, {}, false)
  }

  /** What init_item and assign_author need of every story a refresh reads. */
  predicate AllReadable(r: Replies)
  {
    forall k | 0 <= k < |RefreshEntries(r)| :: Readable(RefreshEntries(r)[k])
  }

  /** Every story of a refresh has an item in the emitted set, and every
      member of the set is the item of one of them. */
  lemma RefreshSetCoversEntries(r: Replies, makeDate: int -> string)
    requires AllReadable(r)
    ensures forall k | 0 <= k < |RefreshEntries(r)| ::
              DraftId(EntryItem(RefreshEntries(r)[k], makeDate)) in RefreshSet(r, makeDate)
    ensures forall id | id in RefreshSet(r, makeDate) ::
              MadeBySome(RefreshEntries(r), MakeEntry(makeDate), RefreshSet(r, makeDate)[id])
  {
    var es := RefreshEntries(r);
    CollectedComplete(es, MakeEntry(makeDate), DraftId, {}, false);
    CollectedSound(es, MakeEntry(makeDate), DraftId, {}, false);
    forall k | 0 <= k < |es|
      ensures DraftId(EntryItem(es[k], makeDate)) in RefreshSet(r, makeDate)
    {
      assert Kept(es[k], MakeEntry(makeDate), DraftId, {});
    }
  }

  // ---------------------------------------------------------------------
  // The service

  /** The Digg service object: whether it runs, the configured user, the
      calls sent and the sets emitted (None for a NULL set). */
  class DiggService {
    const appKey: string
    var running: bool
    var userId: Option<string>
    var sent: seq<Outgoing>
    var refreshed: seq<Option<map<string, Draft>>>

    /** mojito_service_digg_init: not running, no user yet. */
    constructor (appKey: string)
      ensures this.appKey == appKey && !running && userId.None? && sent == [] && refreshed == []
    {
      this.appKey := appKey;
      running := false;
      userId := None;
      sent := [];
      refreshed := [];
    }

    /** start: the service runs from now on. */
    method Start()
      modifies this`running
      ensures running
    {
      running := true;
    }

    /** refresh: nothing unless the service runs and has a user; otherwise
        the three calls are made in turn and the set of all their stories
        emitted. */
    method Refresh(r: Replies, makeDate: int -> string)
      requires AllReadable(r)
      modifies this`sent, this`refreshed
      ensures !running || userId.None? ==> sent == old(sent) && refreshed == old(refreshed)
      ensures running && userId.Some? ==>
                sent == old(sent) + [StoriesCall(userId.value, Submissions, appKey),
                                     StoriesCall(userId.value, Commented, appKey),
                                     StoriesCall(userId.value, Dugg, appKey)] &&
                refreshed == old(refreshed) + [Some(RefreshSet(r, makeDate))]
    {
      if !running || userId.None? {
        return;
      }
      sent := sent + [StoriesCall(userId.value, Submissions, appKey),
                      StoriesCall(userId.value, Commented, appKey),
                      StoriesCall(userId.value, Dugg, appKey)];
      var s := Collect(RefreshEntries(r), MakeEntry(makeDate), DraftId, {}, false);
      refreshed := refreshed + [Some(s)];
    }

    /** user_changed_cb: only a different user is taken; then a user makes
        a refresh and no user a refreshed signal with a NULL set. */
    method UserChanged(value: Option<string>, r: Replies, makeDate: int -> string)
      requires AllReadable(r)
      modifies this`userId, this`sent, this`refreshed
      ensures userId == ConfiguredUser(value)
      ensures ConfiguredUser(value) == old(userId) ==> sent == old(sent) && refreshed == old(refreshed)
      ensures ConfiguredUser(value) != old(userId) && ConfiguredUser(value).None? ==>
                sent == old(sent) && refreshed == old(refreshed) + [None]
      ensures ConfiguredUser(value) != old(userId) && ConfiguredUser(value).Some? && running ==>
                sent == old(sent) + [StoriesCall(userId.value, Submissions, appKey),
                                     StoriesCall(userId.value, Commented, appKey),
                                     StoriesCall(userId.value, Dugg, appKey)] &&
                refreshed == old(refreshed) + [Some(RefreshSet(r, makeDate))]
      ensures ConfiguredUser(value) != old(userId) && ConfiguredUser(value).Some? && !running ==>
                sent == old(sent) && refreshed == old(refreshed)
    {
      var newUser := ConfiguredUser(value);
      if newUser != userId {
        userId := newUser;
        if userId.Some? {
          Refresh(r, makeDate);
        } else {
          refreshed := refreshed + [None];
        }
      }
    }
  }

  /** The same user configured twice, or an empty user after none, changes
      nothing the second time. */
  method UserChangedTwice(s: DiggService, value: Option<string>, r: Replies, makeDate: int -> string)
    requires AllReadable(r)
    modifies s
    ensures s.userId == ConfiguredUser(value)
    ensures |old(s.refreshed)| <= |s.refreshed| <= |old(s.refreshed)| + 1
    ensures s.refreshed[..|old(s.refreshed)|] == old(s.refreshed)
  {
    s.UserChanged(value, r, makeDate);
    ghost var between := s.refreshed;
    s.UserChanged(value, r, makeDate);
    assert s.refreshed == between;
  }
}
