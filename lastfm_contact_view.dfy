/** The Last.fm contact view (services/lastfm/lastfm-contact-view.c): a
    refresh asks for the user's friends, and each friend with a name that is
    not banned becomes a contact.  The view is set from the contacts only
    when some contact was added and no call is left. */
module LastfmContactViews {
  import opened Wrappers
  import opened Adapters
  import opened AdapterViews
  import opened CallLists
  import opened GLists
  import LastfmItemViews

  /** What _get_friends_cb reads of a friend without checking. */
  predicate FriendDerefs(user: Xml)
  {
    Find(user, "name").Some? && Find(user, "realname").Some? && Find(user, "url").Some?
  }

  /** The properties of a friend's contact. */
  function ContactProps(id: string, realname: Option<string>, url: Option<string>, now: string): (r: map<string, string>)
    ensures "id" in r && r["id"] == id && "date" in r && r["date"] == now
    ensures "name" in r && r["name"] == realname.GetOr(id)
    ensures ("url" in r <==> url.Some?) && (url.Some? ==> r["url"] == url.value)
    ensures r.Keys <= {"id", "name", "url", "date"}
  {
    Put(map["id" := id]["name" := realname.GetOr(id)], "url", url)["date" := now]
  }

  /** A friend's contact: none without a name; otherwise the name as id, the
      real name (the id when there is none) as name, the url when given,
      and the time as date. */
  function FriendContact(user: Xml, now: string): (r: Option<Draft>)
    requires FriendDerefs(user)
    ensures r.None? <==> Find(user, "name").value.content.None?
    ensures r.Some? ==>
              var id := Find(user, "name").value.content.value;
              r.value.Get("id") == Some(id) && DraftId(r.value) == id &&
              r.value.Get("name") == Some(Find(user, "realname").value.content.GetOr(id)) &&
              r.value.Get("url") == Find(user, "url").value.content &&
              r.value.Get("date") == Some(now) && r.value.fetches == []
  {
    var id := Find(user, "name").value.content;
    if id.None? then None
    else Some(Draft(ContactProps(id.value, Find(user, "realname").value.content, Find(user, "url").value.content, now), []))
  }

  function FriendContactOf(now: string): Xml -> Option<Draft>
  {
    (u: Xml) => if FriendDerefs(u) then FriendContact(u, now) else None
  }

  /** The contacts of a reply: each named friend not banned, one per id. */
  function ContactSet(root: Xml, banned: set<string>, now: string): map<string, Draft>
  {
    Collected(FindAll(root, "user"), FriendContactOf(now), DraftId, banned, true)
  }

  /** What _get_friends_cb reads of every friend of a reply. */
  predicate FriendsReadable(root: Xml)
  {
    forall k | 0 <= k < |FindAll(root, "user")| :: FriendDerefs(FindAll(root, "user")[k])
  }

  /** A friend with a name that is not banned. */
  predicate Allowed(user: Xml, banned: set<string>)
  {
    FriendDerefs(user) && Find(user, "name").value.content.Some? &&
    Find(user, "name").value.content.value !in banned
  }

  /** Every friend with a name that is not banned has a contact in the set,
      under that name, and every contact in the set is a friend's, under its
      name, which is not banned. */
  lemma ContactSetMembers(root: Xml, banned: set<string>, now: string)
    ensures forall k | 0 <= k < |FindAll(root, "user")| && Allowed(FindAll(root, "user")[k], banned) ::
              Find(FindAll(root, "user")[k], "name").value.content.value in ContactSet(root, banned, now)
    ensures forall id | id in ContactSet(root, banned, now) ::
              id !in banned && ContactSet(root, banned, now)[id].Get("id") == Some(id) &&
              MadeBySome(FindAll(root, "user"), FriendContactOf(now), ContactSet(root, banned, now)[id])
  {
    var users := FindAll(root, "user");
    var make := FriendContactOf(now);
    CollectedComplete(users, make, DraftId, banned, true);
    CollectedSound(users, make, DraftId, banned, true);
    forall k | 0 <= k < |users| && Allowed(users[k], banned)
      ensures Find(users[k], "name").value.content.value in ContactSet(root, banned, now)
    {
      assert Kept(users[k], make, DraftId, banned);
    }
    forall id | id in ContactSet(root, banned, now)
      ensures ContactSet(root, banned, now)[id].Get("id") == Some(id)
    {
      var i :| 0 <= i < |users| && make(users[i]) == Some(ContactSet(root, banned, now)[id]);
    }
  }

  /** Some record of the list makes an entry that joins the set. */
  predicate SomeKept<X>(xs: seq<X>, make: X -> Option<Draft>, banned: set<string>)
  {
    exists k | 0 <= k < |xs| :: Kept(xs[k], make, DraftId, banned)
  }

  class LastfmContactView {
    const calls: CallList
    var timerArmed: bool
    var working: map<string, Draft>
    var sent: seq<Outgoing>
    var published: seq<map<string, Draft>>
    var saved: seq<map<string, Draft>>
    var cacheDrops: nat

    ghost predicate Valid()
      reads this, calls
    {
      calls.Valid()
    }

    constructor ()
      ensures Valid() && fresh(calls) && calls.IsEmpty()
      ensures !timerArmed && working == map[] && sent == [] && published == [] && saved == [] && cacheDrops == 0
    {
      calls := new CallList();
      timerArmed := false;
      working := map[];
      sent := [];
      published := [];
      saved := [];
      cacheDrops := 0;
    }

    /** _get_updates: outstanding calls are cancelled, the set emptied and a
        call listed; it is sent only when the service has a user id, and
        otherwise stays listed, unsent. */
    method GetUpdates(apiKey: string, userId: Option<string>)
      requires Valid()
      modifies this`working, this`sent, calls, set c | c in calls.l
      ensures Valid()
      ensures working == map[] && |calls.l| == 1 && fresh(calls.l[0])
      ensures userId.None? ==> sent == old(sent)
      ensures userId.Some? ==> sent == old(sent) + [LastfmItemViews.FriendsCall(apiKey, userId.value)]
      ensures forall c | c in old(calls.l) :: c.cancelled
    {
      calls.CancelAll();
      working := map[];
      var call := new ProxyCall();
      calls.Add(call);
      if userId.None? {
        return;
      }
      sent := sent + [LastfmItemViews.FriendsCall(apiKey, userId.value)];
    }

    /** _update_if_done: once no call is outstanding the set is handed to
        the view and the cache, then emptied. */
    method UpdateIfDone()
      requires Valid()
      modifies this`published, this`saved, this`working
      ensures Valid()
      ensures calls.IsEmpty() ==>
                published == old(published) + [old(working)] && saved == old(saved) + [old(working)] &&
                working == map[]
      ensures !calls.IsEmpty() ==>
                published == old(published) && saved == old(saved) && working == old(working)
    {
      if calls.IsEmpty() {
        published := published + [working];
        saved := saved + [working];
        working := map[];
      }
    }

    /** The loop of _get_friends_cb: each record's contact, when it has one
        and its id is not banned, joins the set (sw_set_add replacing one
        with that id); the result says whether any did. */
    method AddContacts<X>(xs: seq<X>, make: X -> Option<Draft>, banned: set<string>) returns (updated: bool)
      modifies this`working
      ensures working == old(working) + Collected(xs, make, DraftId, banned, true)
      ensures updated <==> SomeKept(xs, make, banned)
    {
      updated := false;
      var i := 0;
      while i < |xs|
        invariant 0 <= i <= |xs|
        invariant working == old(working) + Collected(xs[..i], make, DraftId, banned, true)
        invariant updated <==> exists k | 0 <= k < i :: Kept(xs[k], make, DraftId, banned)
      {
        ghost var c := Collected(xs[..i], make, DraftId, banned, true);
        CollectedPrefix(xs, i, make, DraftId, banned, true);
        var contact := make(xs[i]);
        if contact.Some? && DraftId(contact.value) !in banned {
          UnionUpdate(old(working), c, DraftId(contact.value), contact.value);
          working := working[DraftId(contact.value) := contact.value];
          updated := true;
        }
        i := i + 1;
      }
      assert xs[..i] == xs;
    }

    /** _get_friends_cb: the call leaves the list; an error or a rejected
        reply ends there; otherwise the friends' contacts join the set, and
        only when some did is the view updated (if no call is left). */
    method GotFriends(call: ProxyCall, error: bool, code: int, parsed: Option<Xml>, banned: set<string>, now: string)
      requires Valid() && LastfmItemViews.ReplyChecked(code, parsed)
      requires !error && LastfmItemViews.NodeFromCall(code, parsed).Some? ==> FriendsReadable(parsed.value)
      modifies this`working, this`published, this`saved, calls
      ensures Valid()
      ensures calls.l == RemoveFirst(old(calls.l), call)
      ensures error || LastfmItemViews.NodeFromCall(code, parsed).None? ==>
                working == old(working) && published == old(published) && saved == old(saved)
      ensures !error && LastfmItemViews.NodeFromCall(code, parsed).Some? ==>
                var filled := old(working) + ContactSet(parsed.value, banned, now);
                if SomeKept(FindAll(parsed.value, "user"), FriendContactOf(now), banned) && calls.IsEmpty() then
                  published == old(published) + [filled] && saved == old(saved) + [filled] && working == map[]
                else
                  published == old(published) && saved == old(saved) && working == filled
    {
      calls.Remove(call);
      if error {
        return;
      }
      var root := LastfmItemViews.NodeFromCall(code, parsed);
      if root.None? {
        return;
      }
      var updated := AddContacts(FindAll(root.value, "user"), FriendContactOf(now), banned);
      if updated {
        UpdateIfDone();
      }
    }

    /** start: a started view only warns; otherwise the timer is armed, the
        cached set (if any) shown, and the friends asked for. */
    method Start(cached: Option<map<string, Draft>>, apiKey: string, userId: Option<string>)
      requires Valid()
      modifies this`timerArmed, this`published, this`working, this`sent, calls, set c | c in calls.l
      ensures Valid() && timerArmed
      ensures old(timerArmed) ==> published == old(published) && sent == old(sent) && working == old(working)
      ensures !old(timerArmed) ==>
                published == old(published) + (if cached.Some? then [cached.value] else []) &&
                working == map[] && |calls.l| == 1 &&
                sent == old(sent) + (if userId.Some? then [LastfmItemViews.FriendsCall(apiKey, userId.value)] else [])
    {
      if timerArmed {
        return;
      }
      timerArmed := true;
      if cached.Some? {
        published := published + [cached.value];
      }
      GetUpdates(apiKey, userId);
    }

    /** stop: a stopped view only warns; otherwise the timer is removed. */
    method Stop()
      modifies this`timerArmed
      ensures !timerArmed
    {
      if timerArmed {
        timerArmed := false;
      }
    }

    /** _service_user_changed_cb: the view is emptied and the cache dropped. */
    method UserChanged()
      modifies this`published, this`cacheDrops
      ensures published == old(published) + [map[]] && cacheDrops == old(cacheDrops) + 1
    {
      published := published + [map[]];
      cacheDrops := cacheDrops + 1;
    }

    /** _service_capabilities_changed_cb: valid credentials refresh the view
        and arm the timer if it is not armed; anything else removes it. */
    method CapabilitiesChanged(caps: seq<string>, apiKey: string, userId: Option<string>)
      requires Valid()
      modifies this`timerArmed, this`working, this`sent, calls, set c | c in calls.l
      ensures Valid()
      ensures timerArmed <==> CredentialsValid in caps
      ensures CredentialsValid in caps ==>
                working == map[] && |calls.l| == 1 &&
                sent == old(sent) + (if userId.Some? then [LastfmItemViews.FriendsCall(apiKey, userId.value)] else [])
      ensures CredentialsValid !in caps ==> working == old(working) && sent == old(sent)
    {
      if CredentialsValid in caps {
        GetUpdates(apiKey, userId);
        if !timerArmed {
          timerArmed := true;
        }
      } else {
        if timerArmed {
          timerArmed := false;
        }
      }
    }
  }

  /** Without a user id a refresh leaves a call listed that is never sent, so
      no friends reply can empty the list: a reply to any other call
      publishes nothing. */
  method UnconfiguredRefreshNeverPublishes(v: LastfmContactView, apiKey: string, stale: ProxyCall,
                                           parsed: Xml, banned: set<string>, now: string)
    requires v.Valid() && LastfmItemViews.ReplyChecked(200, Some(parsed))
    requires LastfmItemViews.NodeFromCall(200, Some(parsed)).Some? ==> FriendsReadable(parsed)
    modifies v, v.calls, set c | c in v.calls.l
    ensures v.published == old(v.published)
  {
    v.GetUpdates(apiKey, None);
    var pending := v.calls.l[0];
    if stale != pending {
      assert v.calls.l == [pending];
      assert RemoveFirst(v.calls.l, stale) == [pending];
      v.GotFriends(stale, false, 200, Some(parsed), banned, now);
    }
  }
}
