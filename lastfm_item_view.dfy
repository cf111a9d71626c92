/** The Last.fm item view (services/lastfm/lastfm-item-view.c): a refresh
    asks for the user's friends, each friend's reply asks for that friend's
    most recent track, and each track becomes an item.  A track without a
    large album image asks for its artist's image and keeps its item
    pending until that reply.  The set is published once no call is left.
    The view's set is an identity set of fresh items, so it is a list here,
    and an artist lookup remembers the position of the item it completes. */
module LastfmItemViews {
  import opened Wrappers
  import opened Adapters
  import opened CallLists
  import opened GLists
  import Strs

  // ---------------------------------------------------------------------
  // Replies

  /** What node_from_call reads without checking: the status attribute of
      an "lfm" root, and the error node of a status that is not "ok". */
  predicate ReplyChecked(code: int, parsed: Option<Xml>)
  {
    200 <= code < 300 && parsed.Some? && parsed.value.name == "lfm" ==>
      Attr(parsed.value, "status").Some? &&
      (Attr(parsed.value, "status") != Some("ok") ==> Find(parsed.value, "error").Some?)
  }

  /** node_from_call: a failed status, a payload that does not parse, a root
      other than "lfm" and a status other than "ok" give nothing. */
  function NodeFromCall(code: int, parsed: Option<Xml>): (r: Option<Xml>)
    requires ReplyChecked(code, parsed)
    ensures r.Some? <==> 200 <= code < 300 && parsed.Some? && parsed.value.name == "lfm" &&
                         Attr(parsed.value, "status") == Some("ok")
    ensures r.Some? ==> r == parsed
  {
    if 200 <= code < 300 && parsed.Some? && parsed.value.name == "lfm" && Attr(parsed.value, "status") == Some("ok")
    then parsed else None
  }

  // ---------------------------------------------------------------------
  // Images

  /** The position of the first image of the size, or the length when there
      is none. */
  function FirstSized(images: seq<Xml>, size: string): (k: nat)
    ensures k <= |images|
    ensures k < |images| ==> Attr(images[k], "size") == Some(size)
    ensures forall j | 0 <= j < k :: Attr(images[j], "size") != Some(size)
    decreases |images|
  {
    if images == [] then 0
    else if Attr(images[0], "size") == Some(size) then 0
    else 1 + FirstSized(images[1..], size)
  }

  /** What get_image_url reads without checking: the size of every image
      before the first of the size wanted. */
  predicate SizesReadable(node: Xml, size: string)
  {
    var images := FindAll(node, "image");
    forall j | 0 <= j < FirstSized(images, size) :: Attr(images[j], "size").Some?
  }

  /** get_image_url: the text of the first image of the size; nothing when
      there is none of that size or that one has no text (another size is
      not tried). */
  function ImageUrl(node: Xml, size: string): (r: Option<string>)
    requires SizesReadable(node, size)
    ensures (forall j | 0 <= j < |FindAll(node, "image")| :: Attr(FindAll(node, "image")[j], "size") != Some(size)) ==> r.None?
    ensures forall k | 0 <= k < |FindAll(node, "image")| && Attr(FindAll(node, "image")[k], "size") == Some(size) &&
                       (forall j | 0 <= j < k :: Attr(FindAll(node, "image")[j], "size") != Some(size)) ::
              r == FindAll(node, "image")[k].content
  {
    var images := FindAll(node, "image");
    var k := FirstSized(images, size);
    if k < |images| then images[k].content else None
  }

  // ---------------------------------------------------------------------
  // Items

  /** make_title: "<track> by <artist>", the track alone without an artist,
      and "Unknown" without a track. */
  function MakeTitle(track: Option<string>, artist: Option<string>): (r: string)
    ensures track.Some? && artist.Some? ==> Strs.IsPrefix(track.value, r) && r[|track.value|..] == " by " + artist.value
    ensures track.Some? && artist.None? ==> r == track.value
    ensures track.None? ==> r == "Unknown"
  {
    match track
    case None => "Unknown"
    case Some(t) =>
      if artist.Some? then
        assert (t + " by " + artist.value)[..|t|] == t;
        t + " by " + artist.value
      else t
  }

  /** The title names the track whenever there is one. */
  lemma TitleNamesTrack(track: string, artist: Option<string>)
    ensures Strs.IsPrefix(track, MakeTitle(Some(track), artist))
  {
    assert MakeTitle(Some(track), artist)[..|track|] == track;
  }

  /** What make_item reads without checking, of the user node and of the
      track node. */
  predicate TrackReadable(user: Xml, track: Xml)
  {
    Find(user, "name").Some? && Find(user, "realname").Some? && SizesReadable(user, "medium") &&
    Find(track, "url").Some? && Find(track, "name").Some? && Find(track, "artist").Some? &&
    Find(track, "album").Some? && SizesReadable(track, "large") &&
    (Find(track, "date").Some? ==> Attr(Find(track, "date").value, "uts").Some?)
  }

  /** The artist.getInfo call of get_thumbnail: by MusicBrainz id when the
      artist has a non-empty one, by name otherwise. */
  function ArtistCall(apiKey: string, artist: Xml): (c: Outgoing)
    ensures c.Rest? && |c.params| == 3 && c.params[..2] == [("method", "artist.getInfo"), ("api_key", apiKey)]
    ensures Attr(artist, "mbid").Some? && Attr(artist, "mbid").value != "" ==> c.params[2] == ("mbid", Attr(artist, "mbid").value)
    ensures !(Attr(artist, "mbid").Some? && Attr(artist, "mbid").value != "") ==> c.params[2] == ("artist", Printed(artist.content))
  {
    var mbid := Attr(artist, "mbid");
    var last := if mbid.Some? && mbid.value != "" then ("mbid", mbid.value) else ("artist", Printed(artist.content));
    Rest("GET", "", [("method", "artist.getInfo"), ("api_key", apiKey), last])
  }

  /** The values make_item reads from a friend's user node and one of the
      friend's tracks. */
  datatype TrackFields = TrackFields(id: string, url: Option<string>, title: string, album: Option<string>,
                                     date: string, author: Option<string>, authorId: Option<string>,
                                     thumbnail: Option<string>, icon: Option<string>)

  /** make_item's reading: the id is the track URL and the user name; the
      date is the scrobble time, or now for a track playing now; the author
      is the real name, falling back to the user name; the thumbnail is the
      large album image and the icon the user's medium image.
      `timeString` is sw_time_t_to_string and `now` the clock. */
  function Fields(user: Xml, track: Xml, now: int, timeString: int -> string): (f: TrackFields)
    requires TrackReadable(user, track)
    ensures f.id == Printed(Find(track, "url").value.content) + " " + Printed(Find(user, "name").value.content)
    ensures f.url == Find(track, "url").value.content && f.album == Find(track, "album").value.content
    ensures f.title == MakeTitle(Find(track, "name").value.content, Find(track, "artist").value.content)
    ensures Find(track, "date").Some? ==> f.date == timeString(Strs.Atoi(Attr(Find(track, "date").value, "uts").value))
    ensures Find(track, "date").None? ==> f.date == timeString(now)
    ensures Find(user, "realname").value.content.Some? ==> f.author == Find(user, "realname").value.content
    ensures Find(user, "realname").value.content.None? ==> f.author == Find(user, "name").value.content
    ensures f.authorId == Find(user, "name").value.content
    ensures f.thumbnail == ImageUrl(track, "large") && f.icon == ImageUrl(user, "medium")
  {
    var name := Find(user, "name").value.content;
    var url := Find(track, "url").value.content;
    var dateNode := Find(track, "date");
    var realname := Find(user, "realname").value.content;
    TrackFields(
      Printed(url) + " " + Printed(name),
      url,
      MakeTitle(Find(track, "name").value.content, Find(track, "artist").value.content),
      Find(track, "album").value.content,
      if dateNode.Some? then timeString(Strs.Atoi(Attr(dateNode.value, "uts").value)) else timeString(now),
      if realname.Some? then realname else name,
      name,
      ImageUrl(track, "large"),
      ImageUrl(user, "medium"))
  }

  lemma ItemKeysDiffer()
    ensures "id" != "url" && "id" != "title" && "id" != "album" && "id" != "date" && "id" != "author" && "id" != "authorid"
    ensures "url" != "title" && "url" != "album" && "url" != "date" && "url" != "author" && "url" != "authorid"
    ensures "title" != "album" && "title" != "date" && "title" != "author" && "title" != "authorid"
    ensures "album" != "date" && "album" != "author" && "album" != "authorid"
    ensures "date" != "author" && "date" != "authorid" && "author" != "authorid"
  {
    assert |"id"| == 2 && |"url"| == 3 && |"date"| == 4 && |"title"| == 5 && |"album"| == 5;
    assert |"author"| == 6 && |"authorid"| == 8;
    assert "title"[0] != "album"[0];
  }

  /** The downloads make_item asks for: the album image, which the item waits
      for, then the user's icon, which it does not. */
  function TrackFetches(f: TrackFields): (r: seq<ImageFetch>)
    ensures |r| <= 2
    ensures forall x | x in r :: x.delaysReady <==> x.key == "thumbnail"
  {
    (if f.thumbnail.Some? then [ImageFetch(true, "thumbnail", f.thumbnail.value)] else []) +
    (if f.icon.Some? then [ImageFetch(false, "authoricon", f.icon.value)] else [])
  }

  /** The item make_item fills from what it read. */
  function TrackDraft(f: TrackFields): (d: Draft)
    ensures d.Get("id") == Some(f.id) && d.Get("url") == f.url && d.Get("title") == Some(f.title)
    ensures d.Get("album") == f.album && d.Get("date") == Some(f.date)
    ensures d.Get("author") == f.author && d.Get("authorid") == f.authorId
    ensures d.props.Keys <= {"id", "url", "title", "album", "date", "author", "authorid"}
    ensures d.fetches == TrackFetches(f)
  {
    ItemKeysDiffer();
    var p1 := Put(Put(map[], "url", f.url), "album", f.album);
    var p2 := Put(Put(p1, "author", f.author), "authorid", f.authorId);
    Draft(p2["id" := f.id]["title" := f.title]["date" := f.date], TrackFetches(f))
  }

  /** An item of the view: what make_item built, and how many artist lookups
      it still waits for (sw_item_push_pending). */
  datatype Entry = Entry(draft: Draft, pending: nat)

  /** What make_item makes: the item, and the artist lookup it waits for. */
  datatype Made = Made(entry: Entry, lookup: Option<Outgoing>)

  /** make_item with get_thumbnail: a track with a large album image fetches
      it; one without is left pending on an artist lookup. */
  function MakeItem(user: Xml, track: Xml, apiKey: string, now: int, timeString: int -> string): (m: Made)
    requires TrackReadable(user, track)
    ensures m.entry.draft == TrackDraft(Fields(user, track, now, timeString))
    ensures m.lookup.None? <==> ImageUrl(track, "large").Some?
    ensures m.entry.pending == if m.lookup.Some? then 1 else 0
    ensures m.lookup.Some? ==> m.lookup.value == ArtistCall(apiKey, Find(track, "artist").value)
  {
    var f := Fields(user, track, now, timeString);
    if f.thumbnail.Some? then Made(Entry(TrackDraft(f), 0), None)
    else Made(Entry(TrackDraft(f), 1), Some(ArtistCall(apiKey, Find(track, "artist").value)))
  }

  /** get_artist_info_cb on an item: the artist's large image, when there is
      one, is fetched as the thumbnail, and one pending lookup is done. */
  function ArtistAnswered(e: Entry, artist: Xml): (r: Entry)
    requires e.pending > 0 && SizesReadable(artist, "large")
    ensures r.pending == e.pending - 1 && r.draft.props == e.draft.props
    ensures r.draft.fetches == e.draft.fetches +
              (if ImageUrl(artist, "large").Some? then [ImageFetch(true, "thumbnail", ImageUrl(artist, "large").value)] else [])
  {
    var url := ImageUrl(artist, "large");
    var fetches := if url.Some? then e.draft.fetches + [ImageFetch(true, "thumbnail", url.value)] else e.draft.fetches;
    Entry(Draft(e.draft.props, fetches), e.pending - 1)
  }

  /** make_item as a function of the track, for the loops below; a track
      it cannot read makes an empty item. */
  function Track(user: Xml, apiKey: string, now: int, timeString: int -> string): Xml -> Made
  {
    (t: Xml) => if TrackReadable(user, t) then MakeItem(user, t, apiKey, now, timeString) else Made(Entry(Draft(map[], []), 0), None)
  }

  /** An item waits for one lookup exactly when it sends one. */
  predicate Consistent(m: Made)
  {
    m.entry.pending == if m.lookup.Some? then 1 else 0
  }

  lemma TracksConsistent(user: Xml, tracks: seq<Xml>, apiKey: string, now: int, timeString: int -> string)
    ensures forall k | 0 <= k < |tracks| :: Consistent(Track(user, apiKey, now, timeString)(tracks[k]))
  {
  }

  /** The items a list of records makes, in order. */
  function Entries<X>(xs: seq<X>, make: X -> Made): (r: seq<Entry>)
    ensures |r| == |xs|
    decreases |xs|
  {
    if xs == [] then [] else Entries(xs[..|xs| - 1], make) + [make(xs[|xs| - 1]).entry]
  }

  /** The lookups a list of records asks for, in order. */
  function Lookups<X>(xs: seq<X>, make: X -> Made): (r: seq<Outgoing>)
    ensures |r| <= |xs|
    decreases |xs|
  {
    if xs == [] then []
    else
      var m := make(xs[|xs| - 1]);
      Lookups(xs[..|xs| - 1], make) + (if m.lookup.Some? then [m.lookup.value] else [])
  }

  /** One more record handled by a loop over the list. */
  lemma MadeStep<X>(xs: seq<X>, i: nat, make: X -> Made)
    requires i < |xs|
    ensures Entries(xs[..i + 1], make) == Entries(xs[..i], make) + [make(xs[i]).entry]
    ensures Lookups(xs[..i + 1], make) == Lookups(xs[..i], make) + (if make(xs[i]).lookup.Some? then [make(xs[i]).lookup.value] else [])
  {
    assert xs[..i + 1][..i] == xs[..i];
  }

  /** Each record makes exactly its own item, in its place. */
  lemma {:induction false} EntriesAt<X>(xs: seq<X>, make: X -> Made)
    ensures forall k | 0 <= k < |xs| :: Entries(xs, make)[k] == make(xs[k]).entry
    decreases |xs|
  {
    if xs != [] {
      EntriesAt(xs[..|xs| - 1], make);
    }
  }

  /** The positions of the records whose item asks for a lookup. */
  function Asking<X>(xs: seq<X>, make: X -> Made): set<nat>
  {
    set k: nat | k < |xs| && make(xs[k]).lookup.Some?
  }

  /** One lookup per record that asks for one. */
  lemma {:induction false} LookupsCount<X>(xs: seq<X>, make: X -> Made)
    ensures |Lookups(xs, make)| == |Asking(xs, make)|
    decreases |xs|
  {
    if xs == [] {
      assert Asking(xs, make) == {};
    } else {
      var n := |xs| - 1;
      var init := xs[..n];
      LookupsCount(init, make);
      var before := Asking(init, make);
      if make(xs[n]).lookup.Some? {
        assert Asking(xs, make) == before + {n};
      } else {
        assert Asking(xs, make) == before;
      }
    }
  }

  /** The positions of the tracks without a large album image. */
  function MissingArt(tracks: seq<Xml>): set<nat>
    requires forall k | 0 <= k < |tracks| :: SizesReadable(tracks[k], "large")
  {
    set k: nat | k < |tracks| && ImageUrl(tracks[k], "large").None?
  }

  /** A reply sends one artist lookup for each track without a large album
      image, and no other. */
  lemma LookupsForMissingArt(user: Xml, tracks: seq<Xml>, apiKey: string, now: int, timeString: int -> string)
    requires forall k | 0 <= k < |tracks| :: TrackReadable(user, tracks[k])
    ensures |Lookups(tracks, Track(user, apiKey, now, timeString))| == |MissingArt(tracks)|
  {
    var make := Track(user, apiKey, now, timeString);
    LookupsCount(tracks, make);
    forall k: nat | k < |tracks|
      ensures make(tracks[k]).lookup.Some? <==> ImageUrl(tracks[k], "large").None?
    {
      TrackAsks(user, tracks[k], apiKey, now, timeString);
    }
    assert Asking(tracks, make) == MissingArt(tracks);
  }

  /** A readable track asks for a lookup exactly when it has no large
      album image. */
  lemma TrackAsks(user: Xml, t: Xml, apiKey: string, now: int, timeString: int -> string)
    requires TrackReadable(user, t)
    ensures Track(user, apiKey, now, timeString)(t).lookup.Some? <==> ImageUrl(t, "large").None?
  {
    assert Track(user, apiKey, now, timeString)(t) == MakeItem(user, t, apiKey, now, timeString);
  }

  /** Every item of a reply is its track's, and waits for a lookup exactly
      when the track has no large album image. */
  lemma TrackItems(user: Xml, tracks: seq<Xml>, apiKey: string, now: int, timeString: int -> string)
    requires forall k | 0 <= k < |tracks| :: TrackReadable(user, tracks[k])
    ensures forall k | 0 <= k < |tracks| ::
              Entries(tracks, Track(user, apiKey, now, timeString))[k].draft == TrackDraft(Fields(user, tracks[k], now, timeString)) &&
              (Entries(tracks, Track(user, apiKey, now, timeString))[k].pending == 0 <==> ImageUrl(tracks[k], "large").Some?)
  {
    EntriesAt(tracks, Track(user, apiKey, now, timeString));
  }

  // ---------------------------------------------------------------------
  // Requests

  /** The user.getFriends call of _get_status_updates. */
  function FriendsCall(apiKey: string, userId: string): Outgoing
  {
    Rest("GET", "", [("api_key", apiKey), ("user", userId), ("method", "user.getFriends")])
  }

  /** The user.getRecentTracks call made for one friend: the last track only. */
  function TracksCall(apiKey: string, friend: string): Outgoing
  {
    Rest("GET", "", [("api_key", apiKey), ("method", "user.getRecentTracks"), ("user", friend), ("limit", "1")])
  }

  /** What _get_friends_cb reads of each friend: the name, which it sends. */
  predicate FriendReadable(user: Xml)
  {
    Find(user, "name").Some? && Find(user, "name").value.content.Some?
  }

  function FriendName(user: Xml): string
    requires FriendReadable(user)
  {
    Find(user, "name").value.content.value
  }

  /** The getRecentTracks call for a friend node. */
  function FriendRequest(apiKey: string): Xml -> Outgoing
  {
    (u: Xml) => TracksCall(apiKey, if FriendReadable(u) then FriendName(u) else "")
  }

  /** The calls a list of records makes, in order. */
  function Requests<X>(xs: seq<X>, request: X -> Outgoing): (r: seq<Outgoing>)
    ensures |r| == |xs|
    decreases |xs|
  {
    if xs == [] then [] else Requests(xs[..|xs| - 1], request) + [request(xs[|xs| - 1])]
  }

  /** Each record's call, in its place. */
  lemma {:induction false} RequestsAt<X>(xs: seq<X>, request: X -> Outgoing)
    ensures forall k | 0 <= k < |xs| :: Requests(xs, request)[k] == request(xs[k])
    decreases |xs|
  {
    if xs != [] {
      RequestsAt(xs[..|xs| - 1], request);
    }
  }

  /** One getRecentTracks call per friend, for that friend, in order. */
  lemma TracksCallsAt(apiKey: string, users: seq<Xml>)
    requires forall k | 0 <= k < |users| :: FriendReadable(users[k])
    ensures forall k | 0 <= k < |users| :: Requests(users, FriendRequest(apiKey))[k] == TracksCall(apiKey, FriendName(users[k]))
  {
    RequestsAt(users, FriendRequest(apiKey));
  }

  // ---------------------------------------------------------------------
  // The view

  class LastfmItemView {
    const query: string
    const calls: CallList
    var timerArmed: bool
    /** The set the replies fill (priv->set), in the order the items came. */
    var working: seq<Entry>
    /** The user node each outstanding getRecentTracks call was made for. */
    var friendOf: map<ProxyCall, Xml>
    /** The position in the set of the item each outstanding artist lookup
        completes. */
    var itemOf: map<ProxyCall, nat>
    var sent: seq<Outgoing>
    var published: seq<seq<Entry>>
    var saved: seq<seq<Entry>>

    /** The calls on the list. */
    ghost function Listed(): set<ProxyCall>
      reads this, calls
    {
      set c | c in calls.l
    }

    /** Every outstanding call is listed, every lookup's item is in the set
        and still waiting, and no two lookups complete the same item. */
    ghost predicate Valid()
      reads this, calls
    {
      calls.Valid() && query == "feed" &&
      friendOf.Keys <= Listed() && itemOf.Keys <= Listed() &&
      (forall c | c in itemOf :: itemOf[c] < |working| && working[itemOf[c]].pending > 0) &&
      (forall c, d | c in itemOf && d in itemOf && c != d :: itemOf[c] != itemOf[d])
    }

    constructor (query: string)
      requires query == "feed"
      ensures Valid() && this.query == query && fresh(calls) && calls.IsEmpty()
      ensures !timerArmed && working == [] && friendOf == map[] && itemOf == map[]
      ensures sent == [] && published == [] && saved == []
    {
      this.query := query;
      calls := new CallList();
      timerArmed := false;
      working := [];
      friendOf := map[];
      itemOf := map[];
      sent := [];
      published := [];
      saved := [];
    }

    /** _get_status_updates (any query but "feed" is fatal): outstanding
        calls are cancelled, the set emptied, and the friends asked for. */
    method GetStatusUpdates(apiKey: string, userId: string)
      requires Valid()
      modifies this`working, this`sent, this`friendOf, this`itemOf, calls, set c | c in calls.l
      ensures Valid()
      ensures working == [] && friendOf == map[] && itemOf == map[]
      ensures sent == old(sent) + [FriendsCall(apiKey, userId)]
      ensures |calls.l| == 1 && fresh(calls.l[0])
      ensures forall c | c in old(calls.l) :: c.cancelled
    {
      calls.CancelAll();
      working := [];
      friendOf := map[];
      itemOf := map[];
      var call := new ProxyCall();
      calls.Add(call);
      sent := sent + [FriendsCall(apiKey, userId)];
    }

    /** _update_if_done: once no call is outstanding the set is handed to
        the view and the cache, then emptied. */
    method UpdateIfDone()
      requires Valid()
      modifies this`published, this`saved, this`working
      ensures Valid()
      ensures calls.IsEmpty() ==>
                published == old(published) + [old(working)] && saved == old(saved) + [old(working)] && working == []
      ensures !calls.IsEmpty() ==>
                published == old(published) && saved == old(saved) && working == old(working)
    {
      if calls.IsEmpty() {
        assert Listed() == {};
        published := published + [working];
        saved := saved + [working];
        working := [];
      }
    }

    /** Takes an answered call off the list and out of both maps. */
    method Answered(call: ProxyCall)
      requires Valid()
      modifies calls, this`friendOf, this`itemOf
      ensures Valid()
      ensures calls.l == RemoveFirst(old(calls.l), call)
      ensures friendOf == old(friendOf) - {call} && itemOf == old(itemOf) - {call}
    {
      ghost var before := calls.l;
      calls.Remove(call);
      friendOf := friendOf - {call};
      itemOf := itemOf - {call};
      forall c | c in before && c != call
        ensures c in calls.l
      {
        assert multiset(before)[c] > 0;
        assert multiset(calls.l)[c] == multiset(before)[c];
      }
    }

    /** One friend of _get_friends_cb: a getRecentTracks call for the friend
        goes out and is listed. */
    method AddFriendCall(user: Xml, request: Xml -> Outgoing)
      requires Valid()
      modifies calls, this`friendOf, this`sent
      ensures Valid()
      ensures sent == old(sent) + [request(user)]
      ensures |calls.l| == |old(calls.l)| + 1 && fresh(calls.l[0])
      ensures friendOf == old(friendOf)[calls.l[0] := user]
    {
      var c := new ProxyCall();
      calls.Add(c);
      friendOf := friendOf[c := user];
      sent := sent + [request(user)];
    }

    /** _get_friends_cb: the call leaves the list; an error or a rejected
        reply ends there; otherwise one getRecentTracks call per friend goes
        out and is listed, remembering the friend. */
    method GotFriends(call: ProxyCall, error: bool, code: int, parsed: Option<Xml>, apiKey: string)
      requires Valid() && ReplyChecked(code, parsed)
      requires !error && NodeFromCall(code, parsed).Some? ==>
                 forall k | 0 <= k < |FindAll(parsed.value, "user")| :: FriendReadable(FindAll(parsed.value, "user")[k])
      modifies calls, this`friendOf, this`itemOf, this`sent
      ensures Valid()
      ensures error || NodeFromCall(code, parsed).None? ==>
                sent == old(sent) && calls.l == RemoveFirst(old(calls.l), call)
      ensures !error && NodeFromCall(code, parsed).Some? ==>
                sent == old(sent) + Requests(FindAll(parsed.value, "user"), FriendRequest(apiKey)) &&
                |calls.l| == |RemoveFirst(old(calls.l), call)| + |FindAll(parsed.value, "user")|
    {
      Answered(call);
      if error {
        return;
      }
      var root := NodeFromCall(code, parsed);
      if root.None? {
        return;
      }
      AddFriends(FindAll(root.value, "user"), FriendRequest(apiKey));
    }

    /** The loop of _get_friends_cb, `request` making the call for a friend. */
    method AddFriends(users: seq<Xml>, request: Xml -> Outgoing)
      requires Valid()
      modifies calls, this`friendOf, this`sent
      ensures Valid()
      ensures sent == old(sent) + Requests(users, request)
      ensures |calls.l| == |old(calls.l)| + |users|
    {
      var i := 0;
      while i < |users|
        invariant 0 <= i <= |users|
        invariant Valid()
        invariant sent == old(sent) + Requests(users[..i], request)
        invariant |calls.l| == |old(calls.l)| + i
      {
        assert users[..i + 1][..i] == users[..i];
        AddFriendCall(users[i], request);
        i := i + 1;
      }
      assert users[..i] == users;
    }

    /** _get_tracks_cb: the call leaves the list; an error or a rejected
        reply ends there; otherwise every track of the reply becomes an item
        (the set compares by identity, so each one is added), a track without
        album art sends its artist lookup, and the view is updated if no call
        is left. */
    method GotTracks(call: ProxyCall, error: bool, code: int, parsed: Option<Xml>, apiKey: string,
                     now: int, timeString: int -> string)
      requires Valid() && call in friendOf && ReplyChecked(code, parsed)
      requires !error && NodeFromCall(code, parsed).Some? ==>
                 forall k | 0 <= k < |FindAll(parsed.value, "track")| :: TrackReadable(friendOf[call], FindAll(parsed.value, "track")[k])
      modifies calls, this`friendOf, this`itemOf, this`sent, this`working, this`published, this`saved
      ensures Valid()
      ensures error || NodeFromCall(code, parsed).None? ==>
                working == old(working) && published == old(published) && sent == old(sent)
      ensures !error && NodeFromCall(code, parsed).Some? ==>
                var tracks := FindAll(parsed.value, "track");
                var user := old(friendOf)[call];
                var filled := old(working) + Entries(tracks, Track(user, apiKey, now, timeString));
                sent == old(sent) + Lookups(tracks, Track(user, apiKey, now, timeString)) &&
                (if calls.IsEmpty() then published == old(published) + [filled] && working == []
                 else published == old(published) && working == filled)
    {
      var user := friendOf[call];
      Answered(call);
      if error {
        return;
      }
      var root := NodeFromCall(code, parsed);
      if root.None? {
        return;
      }
      var tracks := FindAll(root.value, "track");
      TracksConsistent(user, tracks, apiKey, now, timeString);
      AddAll(tracks, Track(user, apiKey, now, timeString));
      UpdateIfDone();
    }

    /** The loop of _get_tracks_cb, `make` being make_item on the friend's
        user node. */
    method AddAll<X>(xs: seq<X>, make: X -> Made)
      requires Valid()
      requires forall k | 0 <= k < |xs| :: Consistent(make(xs[k]))
      modifies calls, this`itemOf, this`sent, this`working
      ensures Valid()
      ensures working == old(working) + Entries(xs, make)
      ensures sent == old(sent) + Lookups(xs, make)
    {
      ghost var w0, s0 := working, sent;
      var i := 0;
      while i < |xs|
        invariant 0 <= i <= |xs|
        invariant Valid()
        invariant working == w0 + Entries(xs[..i], make)
        invariant sent == s0 + Lookups(xs[..i], make)
      {
        MadeStep(xs, i, make);
        var m := make(xs[i]);
        AddMade(m);
        assert working == w0 + Entries(xs[..i + 1], make) by {
          assert w0 + Entries(xs[..i], make) + [m.entry] == w0 + (Entries(xs[..i], make) + [m.entry]);
        }
        i := i + 1;
      }
      assert xs[..i] == xs;
    }

    /** The item joins the set, and its artist lookup, if it has one, goes
        out remembering the item. */
    method AddMade(m: Made)
      requires Valid() && Consistent(m)
      modifies calls, this`itemOf, this`sent, this`working
      ensures Valid()
      ensures working == old(working) + [m.entry]
      ensures sent == old(sent) + (if m.lookup.Some? then [m.lookup.value] else [])
    {
      working := working + [m.entry];
      if m.lookup.Some? {
        var c := new ProxyCall();
        calls.Add(c);
        itemOf := itemOf[c := |working| - 1];
        sent := sent + [m.lookup.value];
      }
    }

    /** get_artist_info_cb: the call leaves the list; an error or a rejected
        reply ends there, the item still pending; otherwise the item gets the
        artist's image, is no longer pending, and the view is updated if no
        call is left. */
    method GotArtistInfo(call: ProxyCall, error: bool, code: int, parsed: Option<Xml>)
      requires Valid() && call in itemOf && ReplyChecked(code, parsed)
      requires !error && NodeFromCall(code, parsed).Some? ==>
                 Find(parsed.value, "artist").Some? && SizesReadable(Find(parsed.value, "artist").value, "large")
      modifies calls, this`friendOf, this`itemOf, this`working, this`published, this`saved
      ensures Valid()
      ensures error || NodeFromCall(code, parsed).None? ==>
                working == old(working) && published == old(published)
      ensures !error && NodeFromCall(code, parsed).Some? ==>
                var at := old(itemOf)[call];
                var filled := old(working)[at := ArtistAnswered(old(working)[at], Find(parsed.value, "artist").value)];
                if calls.IsEmpty() then published == old(published) + [filled] && working == []
                else published == old(published) && working == filled
    {
      var at := itemOf[call];
      Answered(call);
      if error {
        return;
      }
      var root := NodeFromCall(code, parsed);
      if root.None? {
        return;
      }
      var artist := Find(root.value, "artist").value;
      working := working[at := ArtistAnswered(working[at], artist)];
      UpdateIfDone();
    }

    /** start: a started view only warns; otherwise the timer is armed, the
        cached set (if any) shown, and the friends asked for. */
    method Start(cached: Option<seq<Entry>>, apiKey: string, userId: string)
      requires Valid()
      modifies this`timerArmed, this`published, this`working, this`sent, this`friendOf, this`itemOf, calls, set c | c in calls.l
      ensures Valid() && timerArmed
      ensures old(timerArmed) ==> published == old(published) && sent == old(sent) && working == old(working)
      ensures !old(timerArmed) ==>
                published == old(published) + (if cached.Some? then [cached.value] else []) &&
                working == [] && sent == old(sent) + [FriendsCall(apiKey, userId)] && |calls.l| == 1
    {
      if timerArmed {
        return;
      }
      timerArmed := true;
      if cached.Some? {
        published := published + [cached.value];
      }
      GetStatusUpdates(apiKey, userId);
    }

    /** stop: a stopped view only warns; otherwise the timer is removed. */
    method Stop()
      modifies this`timerArmed
      ensures !timerArmed
    {
      if timerArmed {
        timerArmed := false;
      }
    }
  }
}
