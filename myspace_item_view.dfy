/** The MySpace item view (services/myspace/myspace-item-view.c): "own" asks
    for the user's status history, "feed" for the friends' (the user's
    included); every status entry of the JSON reply becomes an item unless
    its id is banned, and the set is published. */
module MyspaceItemViews {
  import opened Wrappers
  import opened Adapters
  import opened AdapterViews
  import Strs

  /** The queries the view knows; any other is fatal. */
  const Queries := ["feed", "own"]

  /** json_node_from_call: a failed status or a payload without a root gives
      nothing. */
  function NodeFromCall(code: int, parsed: Option<Json>): (r: Option<Json>)
    ensures r.Some? <==> 200 <= code < 300 && parsed.Some?
    ensures r.Some? ==> r == parsed
  {
    if 200 <= code < 300 then parsed else None
  }

  /** The elements of the root object's "entry" array (none when the root is
      not an object or has no such array). */
  function Entries(root: Json): seq<Json>
  {
    Elements(Member(AsObject(Some(root)), "entry"))
  }

  function EntryObject(entry: Json): Option<JsonObject>
  {
    AsObject(Some(entry))
  }

  /** The entry's author object, NULL when it has none. */
  function AuthorObject(entry: Json): Option<JsonObject>
  {
    AsObject(Member(EntryObject(entry), "author"))
  }

  /** What make_item reads without checking: the status, which the
      unescaper scans, and the update time, which strptime reads. */
  predicate Readable(entry: Json)
  {
    StringMember(EntryObject(entry), "status").Some? &&
    StringMember(EntryObject(entry), "moodStatusLastUpdated").Some?
  }

  const IdPrefix := "myspace-"

  /** The item's id: "myspace-" and the status id (g_strconcat stops at a
      missing one). */
  function EntryId(entry: Json): (r: string)
    ensures r == IdPrefix + StringMember(EntryObject(entry), "statusId").GetOr("")
  {
    StrConcatPair(IdPrefix, StringMember(EntryObject(entry), "statusId"));
    StrConcat([Some(IdPrefix), StringMember(EntryObject(entry), "statusId")])
  }

  /** The author icon download, which the item does not wait for. */
  function IconFetch(entry: Json): (r: seq<ImageFetch>)
    ensures r == [] <==> StringMember(AuthorObject(entry), "thumbnailUrl").None?
    ensures forall f | f in r :: !f.delaysReady && f.key == "authoricon"
  {
    match StringMember(AuthorObject(entry), "thumbnailUrl")
    case Some(url) => [ImageFetch(false, "authoricon", url)]
    case None => []
  }

  /** The seven properties make_item stores are under different keys. */
  lemma ItemKeysDiffer()
    ensures "id" != "authorid" && "id" != "author" && "id" != "content" && "id" != "date" && "id" != "url"
    ensures "authorid" != "author" && "authorid" != "content" && "authorid" != "date" && "authorid" != "url"
    ensures "author" != "content" && "author" != "date" && "author" != "url"
    ensures "content" != "date" && "content" != "url" && "date" != "url"
  {
    assert |"id"| == 2 && |"url"| == 3 && |"date"| == 4 && |"author"| == 6 && |"content"| == 7 && |"authorid"| == 8;
    assert "date"[0] != "url"[0];
  }

  function Lookup(m: map<string, string>, k: string): Option<string>
  {
    if k in m then Some(m[k]) else None
  }

  /** make_item's properties, from the values it read. */
  function EntryProps(id: string, authorId: Option<string>, author: Option<string>, content: string, date: string,
                      url: Option<string>): (p: map<string, string>)
    ensures Lookup(p, "id") == Some(id) && Lookup(p, "authorid") == authorId && Lookup(p, "author") == author
    ensures Lookup(p, "content") == Some(content) && Lookup(p, "date") == Some(date) && Lookup(p, "url") == url
    ensures p.Keys <= {"id", "authorid", "author", "content", "date", "url"}
  {
    ItemKeysDiffer();
    var p1 := Put(Put(map["id" := id], "authorid", authorId), "author", author);
    Put(p1["content" := content]["date" := date], "url", url)
  }

  /** make_item: the id, the user id as authorid, the author's display
      name, the status with its entities replaced (`unescape`, the
      sw_unescape_entities of sw-utils.c), the update time (through
      makeDate, the strptime and timegm of make_date), the author's profile
      as url, and the author's thumbnail. */
  function EntryItem(entry: Json, unescape: string -> string, makeDate: string -> string): (d: Draft)
    requires Readable(entry)
    ensures d.Get("id") == Some(EntryId(entry)) && Strs.IsPrefix(IdPrefix, DraftId(d))
    ensures d.Get("authorid") == StringMember(EntryObject(entry), "userId")
    ensures d.Get("author") == StringMember(AuthorObject(entry), "displayName")
    ensures d.Get("content") == Some(unescape(StringMember(EntryObject(entry), "status").value))
    ensures d.Get("date") == Some(makeDate(StringMember(EntryObject(entry), "moodStatusLastUpdated").value))
    ensures d.Get("url") == StringMember(AuthorObject(entry), "profileUrl")
    ensures d.fetches == IconFetch(entry)
  {
    var o := EntryObject(entry);
    var a := AuthorObject(entry);
    Draft(EntryProps(EntryId(entry), StringMember(o, "userId"), StringMember(a, "displayName"),
                     unescape(StringMember(o, "status").value), makeDate(StringMember(o, "moodStatusLastUpdated").value),
                     StringMember(a, "profileUrl")),
          IconFetch(entry))
  }

  function MakeEntry(unescape: string -> string, makeDate: string -> string): Json -> Option<Draft>
  {
    (e: Json) => if Readable(e) then Some(EntryItem(e, unescape, makeDate)) else None
  }

  /** Entries with different status ids make items with different ids. */
  lemma EntryIdsDistinct(a: Json, b: Json)
    requires StringMember(EntryObject(a), "statusId").Some? && StringMember(EntryObject(b), "statusId").Some?
    requires StringMember(EntryObject(a), "statusId") != StringMember(EntryObject(b), "statusId")
    ensures EntryId(a) != EntryId(b)
  {
    Strs.PrefixCancel(IdPrefix, StringMember(EntryObject(a), "statusId").value,
                      StringMember(EntryObject(b), "statusId").value);
  }

  /** What the populate loop needs of a reply's entries. */
  predicate ReplyReadable(root: Json)
  {
    forall k | 0 <= k < |Entries(root)| :: Readable(Entries(root)[k])
  }

  /** _populate_set_from_node on the refresh's new set: every entry whose
      id is not banned, a later one replacing an earlier one with its id. */
  function ReplySet(root: Json, banned: set<string>, unescape: string -> string, makeDate: string -> string): map<string, Draft>
  {
    Collected(Entries(root), MakeEntry(unescape, makeDate), DraftId, banned, true)
  }

  /** Every entry whose id is not banned has its item in the set, and every
      member of the set is an entry's item, not banned. */
  lemma ReplySetMembers(root: Json, banned: set<string>, unescape: string -> string, makeDate: string -> string)
    requires ReplyReadable(root)
    ensures forall k | 0 <= k < |Entries(root)| && EntryId(Entries(root)[k]) !in banned ::
              EntryId(Entries(root)[k]) in ReplySet(root, banned, unescape, makeDate)
    ensures forall id | id in ReplySet(root, banned, unescape, makeDate) ::
              id !in banned && Strs.IsPrefix(IdPrefix, id) &&
              MadeBySome(Entries(root), MakeEntry(unescape, makeDate), ReplySet(root, banned, unescape, makeDate)[id])
  {
    var es := Entries(root);
    var make := MakeEntry(unescape, makeDate);
    CollectedComplete(es, make, DraftId, banned, true);
    CollectedSound(es, make, DraftId, banned, true);
    forall k | 0 <= k < |es| && EntryId(es[k]) !in banned
      ensures EntryId(es[k]) in ReplySet(root, banned, unescape, makeDate)
    {
      assert Kept(es[k], make, DraftId, banned);
    }
    var c := ReplySet(root, banned, unescape, makeDate);
    forall id | id in c
      ensures Strs.IsPrefix(IdPrefix, id)
    {
      var i :| 0 <= i < |es| && make(es[i]) == Some(c[id]);
    }
  }

  /** The call for a query: the user's own status history, or the friends'
      with the user's included; twenty entries with their authors. */
  function StatusCall(query: string): (r: Outgoing)
    requires query in Queries
    ensures r.Rest? && ("count", "20") in r.params && ("fields", "author") in r.params
    ensures query == "own" ==> r.endpoint == "1.0/statusmood/@me/@self/history"
    ensures query == "feed" ==> r.endpoint == "1.0/statusmood/@me/@friends/history" && ("includeself", "true") in r.params
  {
    if query == "own" then Rest("GET", "1.0/statusmood/@me/@self/history", [("count", "20"), ("fields", "author")])
    else Rest("GET", "1.0/statusmood/@me/@friends/history", [("includeself", "true"), ("count", "20"), ("fields", "author")])
  }

  /** The item view: its query, whether the refresh timer is armed, the
      calls sent, and what was published, cached, dropped and hidden. */
  class MyspaceItemView {
    const query: string
    var timerArmed: bool
    var sent: seq<Outgoing>
    var published: seq<map<string, Draft>>
    var saved: seq<map<string, Draft>>
    var cacheDrops: nat
    var hidden: seq<string>

    constructor (query: string)
      requires query in Queries
      ensures this.query == query
      ensures !timerArmed && sent == [] && published == [] && saved == [] && cacheDrops == 0 && hidden == []
    {
      this.query := query;
      timerArmed := false;
      sent := [];
      published := [];
      saved := [];
      cacheDrops := 0;
      hidden := [];
    }

    /** _get_status_updates: the query's call goes out with a new, empty
        set. */
    method GetStatusUpdates()
      requires query in Queries
      modifies this`sent
      ensures sent == old(sent) + [StatusCall(query)]
    {
      if query == "own" {
        sent := sent + [StatusCall("own")];
      } else {
        sent := sent + [StatusCall("feed")];
      }
    }

    /** _got_status_cb: a transport error, a failed status or a payload
        without a root publishes nothing; otherwise the entries fill the
        refresh's set, which is published and cached. */
    method GotStatus(error: bool, code: int, parsed: Option<Json>, banned: set<string>,
                     unescape: string -> string, makeDate: string -> string)
      requires NodeFromCall(code, parsed).Some? ==> ReplyReadable(parsed.value)
      modifies this`published, this`saved
      ensures error || NodeFromCall(code, parsed).None? ==> published == old(published) && saved == old(saved)
      ensures !error && NodeFromCall(code, parsed).Some? ==>
                var s := ReplySet(parsed.value, banned, unescape, makeDate);
                published == old(published) + [s] && saved == old(saved) + [s]
    {
      if error {
        return;
      }
      var root := NodeFromCall(code, parsed);
      if root.None? {
        return;
      }
      var s := CollectInto(map[], Entries(root.value), MakeEntry(unescape, makeDate), banned);
      assert s == ReplySet(root.value, banned, unescape, makeDate);
      published := published + [s];
      saved := saved + [s];
    }

    /** start: a started view only warns; otherwise the timer is armed, the
        cached set (if any) shown, and the statuses asked for. */
    method Start(cached: Option<map<string, Draft>>)
      requires query in Queries
      modifies this`timerArmed, this`published, this`sent
      ensures timerArmed
      ensures old(timerArmed) ==> published == old(published) && sent == old(sent)
      ensures !old(timerArmed) ==>
                published == old(published) + (if cached.Some? then [cached.value] else []) &&
                sent == old(sent) + [StatusCall(query)]
    {
      if timerArmed {
        return;
      }
      timerArmed := true;
      if cached.Some? {
        published := published + [cached.value];
      }
      GetStatusUpdates();
    }

    /** stop: a stopped view only warns; otherwise the timer is removed. */
    method Stop()
      modifies this`timerArmed
      ensures !timerArmed
    {
      if timerArmed {
        timerArmed := false;
      }
    }

    /** _service_capabilities_changed_cb: valid credentials refresh the view
        and arm the timer if it is not armed; anything else removes it. */
    method CapabilitiesChanged(caps: seq<string>)
      requires query in Queries
      modifies this`timerArmed, this`sent
      ensures timerArmed <==> CredentialsValid in caps
      ensures sent == old(sent) + (if CredentialsValid in caps then [StatusCall(query)] else [])
    {
      if CredentialsValid in caps {
        GetStatusUpdates();
        if !timerArmed {
          timerArmed := true;
        }
      } else {
        if timerArmed {
          timerArmed := false;
        }
      }
    }

    /** _service_user_changed_cb: the view is emptied and the cache dropped. */
    method UserChanged()
      modifies this`published, this`cacheDrops
      ensures published == old(published) + [map[]] && cacheDrops == old(cacheDrops) + 1
    {
      published := published + [map[]];
      cacheDrops := cacheDrops + 1;
    }

    /** _service_item_hidden_cb */
    method ItemHidden(uid: string)
      modifies this`hidden
      ensures hidden == old(hidden) + [uid]
    {
      hidden := hidden + [uid];
    }
  }
}
