/** The Sina item view (services/sina/sina-item-view.c): "own" asks for the
    user's timeline, "feed" for the friends' timeline and then, into the same
    set, the user's timeline; every status not banned becomes an item, and
    the set is published once the user's timeline is in. */
module SinaItemViews {
  import opened Wrappers
  import opened Adapters
  import opened AdapterViews
  import Strs
  import Sina

  // ---------------------------------------------------------------------
  // Statuses as items

  /** What the populate loop uses without checking: the status's user node
      (xml_get_child_node_value asserts its node) and its creation time
      (strptime reads it). */
  predicate Readable(node: Xml)
  {
    Find(node, "user").Some? && XmlChildValue(node, "created_at").Some?
  }

  const IdPrefix := "sina-"
  const ProfilePrefix := "http://t.sina.com.cn/"

  /** The item's id: "sina-" and the status id (g_strconcat stops at a
      missing id). */
  function StatusId(node: Xml): (r: string)
    ensures r == IdPrefix + XmlChildValue(node, "id").GetOr("")
  {
    StrConcatPair(IdPrefix, XmlChildValue(node, "id"));
    StrConcat([Some(IdPrefix), XmlChildValue(node, "id")])
  }

  /** The item's url: the profile page of the status's user. */
  function ProfileUrl(user: Xml): (r: string)
    ensures r == ProfilePrefix + XmlChildValue(user, "id").GetOr("")
  {
    StrConcatPair(ProfilePrefix, XmlChildValue(user, "id"));
    StrConcat([Some(ProfilePrefix), XmlChildValue(user, "id")])
  }

  /** The author icon download, which the item does not wait for. */
  function IconFetch(user: Xml): (r: seq<ImageFetch>)
    ensures r == [] <==> XmlChildValue(user, "profile_image_url").None?
    ensures forall f | f in r :: !f.delaysReady && f.key == "authoricon"
  {
    match XmlChildValue(user, "profile_image_url")
    case Some(url) => [ImageFetch(false, "authoricon", url)]
    case None => []
  }

  /** The six properties the loop stores are under different keys. */
  lemma ItemKeysDiffer()
    ensures "id" != "date" && "id" != "author" && "id" != "content" && "id" != "url"
    ensures "date" != "author" && "date" != "content" && "date" != "url"
    ensures "author" != "content" && "author" != "url" && "content" != "url"
  {
    assert |"id"| == 2 && |"url"| == 3 && |"date"| == 4 && |"author"| == 6 && |"content"| == 7;
    assert "date"[0] != "url"[0];
  }

  function Lookup(m: map<string, string>, k: string): Option<string>
  {
    if k in m then Some(m[k]) else None
  }

  /** The properties, from the values the loop read. */
  function StatusProps(id: string, date: string, author: Option<string>, content: Option<string>, url: string): (p: map<string, string>)
    ensures Lookup(p, "id") == Some(id) && Lookup(p, "date") == Some(date) && Lookup(p, "url") == Some(url)
    ensures Lookup(p, "author") == author && Lookup(p, "content") == content
    ensures p.Keys <= {"id", "date", "author", "content", "url"}
  {
    ItemKeysDiffer();
    Put(Put(map["id" := id]["date" := date], "author", author), "content", content)["url" := url]
  }

  /** One turn of the populate loop: the id, the creation time (through
      makeDate, the strptime and mktime of make_date), the user's screen name
      as author, the text as content, the user's page as url, and the
      author icon. */
  function StatusItem(node: Xml, makeDate: string -> string): (d: Draft)
    requires Readable(node)
    ensures d.Get("id") == Some(StatusId(node)) && Strs.IsPrefix(IdPrefix, DraftId(d))
    ensures d.Get("date") == Some(makeDate(XmlChildValue(node, "created_at").value))
    ensures d.Get("author") == XmlChildValue(Find(node, "user").value, "screen_name")
    ensures d.Get("content") == XmlChildValue(node, "text")
    ensures d.Get("url") == Some(ProfileUrl(Find(node, "user").value))
    ensures d.fetches == IconFetch(Find(node, "user").value)
  {
    var user := Find(node, "user").value;
    Draft(StatusProps(StatusId(node), makeDate(XmlChildValue(node, "created_at").value),
                      XmlChildValue(user, "screen_name"), XmlChildValue(node, "text"), ProfileUrl(user)),
          IconFetch(user))
  }

  function MakeStatus(makeDate: string -> string): Xml -> Option<Draft>
  {
    (n: Xml) => if Readable(n) then Some(StatusItem(n, makeDate)) else None
  }

  /** Statuses with different ids make items with different ids. */
  lemma StatusIdsDistinct(a: Xml, b: Xml)
    requires XmlChildValue(a, "id").Some? && XmlChildValue(b, "id").Some?
    requires XmlChildValue(a, "id") != XmlChildValue(b, "id")
    ensures StatusId(a) != StatusId(b)
  {
    Strs.PrefixCancel(IdPrefix, XmlChildValue(a, "id").value, XmlChildValue(b, "id").value);
  }

  /** The statuses of a reply: the first "status" node and its `next`
      chain. */
  function Statuses(root: Xml): seq<Xml>
  {
    FindAll(root, "status")
  }

  /** What the populate loop needs of a reply's statuses. */
  predicate ReplyReadable(root: Option<Xml>)
  {
    root.Some? ==> forall k | 0 <= k < |Statuses(root.value)| :: Readable(Statuses(root.value)[k])
  }

  /** _populate_set_from_node: no root adds nothing; otherwise every status
      not banned is added to the set, replacing a member with its id. */
  function Populated(acc: map<string, Draft>, root: Option<Xml>, banned: set<string>, makeDate: string -> string): map<string, Draft>
  {
    if root.None? then acc
    else acc + Collected(Statuses(root.value), MakeStatus(makeDate), DraftId, banned, true)
  }

  /** The populate loop. */
  method PopulateSet(acc: map<string, Draft>, root: Option<Xml>, banned: set<string>, makeDate: string -> string)
    returns (s: map<string, Draft>)
    ensures s == Populated(acc, root, banned, makeDate)
  {
    if root.None? {
      return acc;
    }
    s := CollectInto(acc, Statuses(root.value), MakeStatus(makeDate), banned);
  }

  /** Every status of a reply whose id is not banned has its item in the
      set, and every item the reply adds is a status's, not banned. */
  lemma PopulatedMembers(acc: map<string, Draft>, root: Xml, banned: set<string>, makeDate: string -> string)
    requires ReplyReadable(Some(root))
    ensures forall k | 0 <= k < |Statuses(root)| && StatusId(Statuses(root)[k]) !in banned ::
              StatusId(Statuses(root)[k]) in Populated(acc, Some(root), banned, makeDate)
    ensures forall id | id in Populated(acc, Some(root), banned, makeDate) && id !in acc ::
              id !in banned && Strs.IsPrefix(IdPrefix, id) &&
              MadeBySome(Statuses(root), MakeStatus(makeDate), Populated(acc, Some(root), banned, makeDate)[id])
  {
    var nodes := Statuses(root);
    var make := MakeStatus(makeDate);
    CollectedComplete(nodes, make, DraftId, banned, true);
    CollectedSound(nodes, make, DraftId, banned, true);
    forall k | 0 <= k < |nodes| && StatusId(nodes[k]) !in banned
      ensures StatusId(nodes[k]) in Populated(acc, Some(root), banned, makeDate)
    {
      assert Kept(nodes[k], make, DraftId, banned);
    }
    var c := Collected(nodes, make, DraftId, banned, true);
    forall id | id in c
      ensures Strs.IsPrefix(IdPrefix, id)
    {
      var i :| 0 <= i < |nodes| && make(nodes[i]) == Some(c[id]);
    }
  }

  // ---------------------------------------------------------------------
  // Requests

  /** The two timelines. */
  datatype Timeline = FriendsTimeline | UserTimeline

  /** The call for a timeline: the ten latest statuses. */
  function TimelineCall(t: Timeline): (r: Outgoing)
    ensures r.Rest? && r.params == [("count", "10")]
  {
    match t
    case FriendsTimeline => Rest("GET", "statuses/friends_timeline.xml", [("count", "10")])
    case UserTimeline => Rest("GET", "statuses/user_timeline.xml", [("count", "10")])
  }

  /** A call sent, with the set it carries to its callback. */
  datatype Pending = Pending(timeline: Timeline, acc: map<string, Draft>)

  /** The timeline a refresh starts with. */
  function FirstTimeline(query: string): (r: Timeline)
    requires query in Sina.ValidQueries
    ensures r == FriendsTimeline <==> query == "feed"
  {
    if query == "own" then UserTimeline else FriendsTimeline
  }

  // ---------------------------------------------------------------------
  // The view

  /** The item view: its query, whether the refresh timer is armed, the
      calls sent with their sets, and what was published, cached, dropped
      and hidden. */
  class SinaItemView {
    const query: string
    var timerArmed: bool
    var sent: seq<Pending>
    var published: seq<map<string, Draft>>
    var saved: seq<map<string, Draft>>
    var cacheDrops: nat
    var hidden: seq<string>

    constructor (query: string)
      requires query in Sina.ValidQueries
      ensures this.query == query
      ensures !timerArmed && sent == [] && published == [] && saved == [] && cacheDrops == 0 && hidden == []
    {
      this.query := query;
      timerArmed := false;
      sent := [];
      published := [];
      saved := [];
      cacheDrops := 0;
      hidden := [];
    }

    /** _get_status_updates: a new, empty set goes out with the first call
        of the query's chain. */
    method GetStatusUpdates()
      requires query in Sina.ValidQueries
      modifies this`sent
      ensures sent == old(sent) + [Pending(FirstTimeline(query), map[])]
    {
      var acc: map<string, Draft> := map[];
      if query == "own" {
        sent := sent + [Pending(UserTimeline, acc)];
      } else {
        sent := sent + [Pending(FriendsTimeline, acc)];
      }
    }

    /** _got_friends_status_cb: on a transport error the chain stops;
        otherwise the reply's statuses (none for a failed or unparsable
        reply) join the set, which goes on with the user's timeline call. */
    method GotFriendsStatus(acc: map<string, Draft>, error: bool, code: int, parsed: Option<Xml>,
                            banned: set<string>, makeDate: string -> string)
      requires ReplyReadable(Sina.NodeFromCall(code, parsed))
      modifies this`sent
      ensures error ==> sent == old(sent)
      ensures !error ==>
                sent == old(sent) + [Pending(UserTimeline, Populated(acc, Sina.NodeFromCall(code, parsed), banned, makeDate))]
    {
      if error {
        return;
      }
      var root := Sina.NodeFromCall(code, parsed);
      var s := PopulateSet(acc, root, banned, makeDate);
      sent := sent + [Pending(UserTimeline, s)];
    }

    /** _got_user_status_cb: on a transport error nothing is published;
        otherwise the reply's statuses join the set, which is published and
        cached. */
    method GotUserStatus(acc: map<string, Draft>, error: bool, code: int, parsed: Option<Xml>,
                         banned: set<string>, makeDate: string -> string)
      requires ReplyReadable(Sina.NodeFromCall(code, parsed))
      modifies this`published, this`saved
      ensures error ==> published == old(published) && saved == old(saved)
      ensures !error ==>
                var s := Populated(acc, Sina.NodeFromCall(code, parsed), banned, makeDate);
                published == old(published) + [s] && saved == old(saved) + [s]
    {
      if error {
        return;
      }
      var root := Sina.NodeFromCall(code, parsed);
      var s := PopulateSet(acc, root, banned, makeDate);
      published := published + [s];
      saved := saved + [s];
    }

    /** start: a started view only warns; otherwise the timer is armed, the
        cached set (if any) shown, and a refresh started. */
    method Start(cached: Option<map<string, Draft>>)
      requires query in Sina.ValidQueries
      modifies this`timerArmed, this`published, this`sent
      ensures timerArmed
      ensures old(timerArmed) ==> published == old(published) && sent == old(sent)
      ensures !old(timerArmed) ==>
                published == old(published) + (if cached.Some? then [cached.value] else []) &&
                sent == old(sent) + [Pending(FirstTimeline(query), map[])]
    {
      if timerArmed {
        return;
      }
      timerArmed := true;
      if cached.Some? {
        published := published + [cached.value];
      }
      GetStatusUpdates();
    }

    /** stop: a stopped view only warns; otherwise the timer is removed. */
    method Stop()
      modifies this`timerArmed
      ensures !timerArmed
    {
      if timerArmed {
        timerArmed := false;
      }
    }

    /** _service_capabilities_changed_cb: valid credentials refresh the view
        and arm the timer if it is not armed; anything else removes it. */
    method CapabilitiesChanged(caps: seq<string>)
      requires query in Sina.ValidQueries
      modifies this`timerArmed, this`sent
      ensures timerArmed <==> CredentialsValid in caps
      ensures CredentialsValid in caps ==> sent == old(sent) + [Pending(FirstTimeline(query), map[])]
      ensures CredentialsValid !in caps ==> sent == old(sent)
    {
      if CredentialsValid in caps {
        GetStatusUpdates();
        if !timerArmed {
          timerArmed := true;
        }
      } else {
        if timerArmed {
          timerArmed := false;
        }
      }
    }

    /** _service_user_changed_cb: the view is emptied and the cache dropped. */
    method UserChanged()
      modifies this`published, this`cacheDrops
      ensures published == old(published) + [map[]] && cacheDrops == old(cacheDrops) + 1
    {
      published := published + [map[]];
      cacheDrops := cacheDrops + 1;
    }

    /** _service_item_hidden_cb */
    method ItemHidden(uid: string)
      modifies this`hidden
      ensures hidden == old(hidden) + [uid]
    {
      hidden := hidden + [uid];
    }
  }

  /** The set a "feed" refresh publishes: the friends' statuses, then the
      user's, in one set. */
  function FeedSet(friends: Option<Xml>, own: Option<Xml>, banned: set<string>, makeDate: string -> string): map<string, Draft>
  {
    Populated(Populated(map[], friends, banned, makeDate), own, banned, makeDate)
  }

  /** A "feed" refresh whose two calls both come back publishes, once, the
      statuses of both timelines in one set; "own" would have published
      after the first. */
  method FeedRefresh(v: SinaItemView, code1: int, parsed1: Option<Xml>, code2: int, parsed2: Option<Xml>,
                     banned: set<string>, makeDate: string -> string)
    requires v.query == "feed"
    requires ReplyReadable(Sina.NodeFromCall(code1, parsed1)) && ReplyReadable(Sina.NodeFromCall(code2, parsed2))
    modifies v
    ensures v.sent == old(v.sent) + [Pending(FriendsTimeline, map[]),
                                     Pending(UserTimeline, Populated(map[], Sina.NodeFromCall(code1, parsed1), banned, makeDate))]
    ensures v.published == old(v.published) +
              [FeedSet(Sina.NodeFromCall(code1, parsed1), Sina.NodeFromCall(code2, parsed2), banned, makeDate)]
  {
    v.GetStatusUpdates();
    var first := v.sent[|v.sent| - 1];
    v.GotFriendsStatus(first.acc, false, code1, parsed1, banned, makeDate);
    var second := v.sent[|v.sent| - 1];
    v.GotUserStatus(second.acc, false, code2, parsed2, banned, makeDate);
  }

  /** In the set a "feed" refresh publishes, every status of either
      timeline whose id is not banned has its item; a status of the user's
      own timeline wins over a friends' status with its id. */
  lemma FeedSetMembers(friends: Xml, own: Xml, banned: set<string>, makeDate: string -> string)
    requires ReplyReadable(Some(friends)) && ReplyReadable(Some(own))
    ensures forall k | 0 <= k < |Statuses(friends)| && StatusId(Statuses(friends)[k]) !in banned ::
              StatusId(Statuses(friends)[k]) in FeedSet(Some(friends), Some(own), banned, makeDate)
    ensures forall k | 0 <= k < |Statuses(own)| && StatusId(Statuses(own)[k]) !in banned ::
              StatusId(Statuses(own)[k]) in FeedSet(Some(friends), Some(own), banned, makeDate)
    ensures forall id | id in FeedSet(Some(friends), Some(own), banned, makeDate) ::
              id !in banned && Strs.IsPrefix(IdPrefix, id)
  {
    var first := Populated(map[], Some(friends), banned, makeDate);
    PopulatedMembers(map[], friends, banned, makeDate);
    PopulatedMembers(first, own, banned, makeDate);
  }
}
