/** The Facebook views (services/facebook/facebook-item-view.c and
    services/facebook/facebook-contact-view.c): which posts of a news feed
    become items and what those items hold, which friends become contacts
    and what those contacts hold, the request each query makes, and the
    polling both views share: a timer that start arms and stop removes, a
    fetch only while a user is signed in and the view runs, and the answers
    to the service's signals. */
module FacebookViews {
  import opened Wrappers
  import opened Adapters
  import opened AdapterViews
  import opened FacebookUtil
  import opened Facebook
  import SwContacts
  import Strs

  /** UPDATE_TIMEOUT of both views, in seconds. */
  const UpdateTimeout := 5 * 60

  /** The address an item falls back to. */
  const Homepage := "http://www.facebook.com"

  // ---------------------------------------------------------------------
  // The link of a post

  /** The actions of a post (NULL, and so none, when "actions" is not an
      array). */
  function Actions(status: Json): seq<Json>
  {
    Elements(Member(AsObject(Some(status)), "actions"))
  }

  /** An action whose name is "Comment", in any letter case. */
  predicate IsCommentAction(a: Json)
  {
    var name := ChildValue(Some(a), "name");
    name.Some? && Strs.EqualIgnoringCase(name.value, "Comment")
  }

  /** The search of the actions for a permalink: actions without a name or
      with another name are passed over, and the first "Comment" action ends
      the search with its link, or with none when it has no link. */
  function CommentLink(actions: seq<Json>): (r: Option<string>)
    ensures r.Some? ==> r.value != ""
  {
    if actions == [] then None
    else if IsCommentAction(actions[0]) then ChildValue(Some(actions[0]), "link")
    else CommentLink(actions[1..])
  }

  /** The link found is the first "Comment" action's. */
  lemma {:induction false} CommentLinkIsFirst(actions: seq<Json>, i: nat)
    requires i < |actions| && IsCommentAction(actions[i])
    requires forall j | 0 <= j < i :: !IsCommentAction(actions[j])
    ensures CommentLink(actions) == ChildValue(Some(actions[i]), "link")
  {
    if i > 0 {
      assert !IsCommentAction(actions[0]);
      CommentLinkIsFirst(actions[1..], i - 1);
    }
  }

  /** Without a "Comment" action there is no link. */
  lemma {:induction false} CommentLinkAbsent(actions: seq<Json>)
    requires forall j | 0 <= j < |actions| :: !IsCommentAction(actions[j])
    ensures CommentLink(actions).None?
  {
    if actions != [] {
      CommentLinkAbsent(actions[1..]);
    }
  }

  /** _facebook_status_node_get_link: the post's "link"; failing that the
      link of its first "Comment" action; failing that the Facebook home
      page.  A post always has some address. */
  function StatusLink(status: Json): (r: string)
    ensures r != ""
    ensures ChildValue(Some(status), "link").Some? ==> r == ChildValue(Some(status), "link").value
    ensures ChildValue(Some(status), "link").None? && CommentLink(Actions(status)).Some? ==>
              r == CommentLink(Actions(status)).value
    ensures ChildValue(Some(status), "link").None? && CommentLink(Actions(status)).None? ==> r == Homepage
  {
    match ChildValue(Some(status), "link")
    case Some(l) => l
    case None =>
      match CommentLink(Actions(status))
      case Some(l) => l
      case None => Homepage
  }

  /** The loop of _facebook_status_node_get_link over the actions. */
  method FindStatusLink(status: Json) returns (url: string)
    ensures url == StatusLink(status)
  {
    var link := ChildValue(Some(status), "link");
    if link.Some? {
      return link.value;
    }
    var actions := Actions(status);
    var found: Option<string> := None;
    var j := 0;
    while j < |actions|
      invariant 0 <= j <= |actions|
      invariant CommentLink(actions[j..]) == CommentLink(actions)
    {
      var name := ChildValue(Some(actions[j]), "name");
      if name.None? || !Strs.EqualIgnoringCase(name.value, "Comment") {
        assert actions[j + 1..] == actions[j..][1..];
        j := j + 1;
        continue;
      }
      found := ChildValue(Some(actions[j]), "link");
      break;
    }
    if found.None? {
      return Homepage;
    }
    return found.value;
  }

  // ---------------------------------------------------------------------
  // Posts addressed to someone

  /** The entries of the post's "to" object's "data" array; none when "to"
      is not an object or has no such array. */
  function Recipients(status: Json): seq<Json>
  {
    Elements(Member(AsObject(Member(AsObject(Some(status)), "to")), "data"))
  }

  /** Some recipient has the signed-in user's id (never so without a user). */
  predicate AddressedTo(users: seq<Json>, myUid: Option<string>)
  {
    exists i | 0 <= i < |users| :: myUid.Some? && ChildValue(Some(users[i]), "id") == myUid
  }

  /** The loop of _facebook_status_node_to_item over the recipients. */
  method FindAddressee(users: seq<Json>, myUid: Option<string>) returns (toMe: bool)
    ensures toMe <==> AddressedTo(users, myUid)
  {
    toMe := false;
    var i := 0;
    while i < |users|
      invariant 0 <= i <= |users|
      invariant forall k | 0 <= k < i :: !(myUid.Some? && ChildValue(Some(users[k]), "id") == myUid)
    {
      var toId := ChildValue(Some(users[i]), "id");
      if toId.Some? && myUid == toId {
        toMe := true;
        break;
      }
      i := i + 1;
    }
  }

  // ---------------------------------------------------------------------
  // A post as an item

  /** The author's name and id, from the post's "from" object. */
  function AuthorName(status: Json): Option<string>
  {
    ChildValue(Member(AsObject(Some(status)), "from"), "name")
  }

  function AuthorId(status: Json): Option<string>
  {
    ChildValue(Member(AsObject(Some(status)), "from"), "id")
  }

  /** The posts that become items: objects of type "status", addressed to
      the user when they are addressed at all, with a creation time, an id,
      a non-empty message and an author name. */
  predicate Postable(status: Json, myUid: Option<string>)
  {
    status.JObject? &&
    ChildValue(Some(status), "type") == Some("status") &&
    ("to" in status.members ==> AddressedTo(Recipients(status), myUid)) &&
    ChildValue(Some(status), "created_time").Some? &&
    ChildValue(Some(status), "id").Some? &&
    ChildValue(Some(status), "message").Some? &&
    AuthorName(status).Some?
  }

  /** The downloads an item asks for: the author's square picture when the
      author's id is known, then the post's picture when it has one; neither
      delays the item. */
  function StatusFetches(status: Json, base: string): seq<ImageFetch>
  {
    (if AuthorId(status).Some? then [ImageFetch(false, "authoricon", PictureUrl(base, AuthorId(status).value, SquareSize))] else []) +
    (if ChildValue(Some(status), "picture").Some? then [ImageFetch(false, "thumbnail", ChildValue(Some(status), "picture").value)] else [])
  }

  /** _facebook_status_node_to_item: a postable post becomes an item with
      the id "facebook-" + its id, its creation time as the date, its
      message as content, the author's name (and id when known) and the
      post's address; any other post makes no item. */
  function StatusItem(status: Json, myUid: Option<string>, base: string): (r: Option<Draft>)
    ensures r.Some? <==> Postable(status, myUid)
    ensures r.Some? ==>
              DraftId(r.value) == "facebook-" + ChildValue(Some(status), "id").value &&
              r.value.Get("date") == ChildValue(Some(status), "created_time") &&
              r.value.Get("content") == ChildValue(Some(status), "message") &&
              r.value.Get("author") == AuthorName(status) &&
              r.value.Get("authorid") == AuthorId(status) &&
              r.value.Get("url") == Some(StatusLink(status)) &&
              r.value.fetches == StatusFetches(status, base)
  {
    if !Postable(status, myUid) then None
    else
      var props := map["date" := ChildValue(Some(status), "created_time").value,
                       "id" := "facebook-" + ChildValue(Some(status), "id").value,
                       "content" := ChildValue(Some(status), "message").value,
                       "author" := AuthorName(status).value,
                       "url" := StatusLink(status)];
      Some(Draft(Put(props, "authorid", AuthorId(status)), StatusFetches(status, base)))
  }

  /** Posts with different ids make items with different ids. */
  lemma StatusIdsDistinct(a: Json, b: Json, myUid: Option<string>, base: string)
    requires StatusItem(a, myUid, base).Some? && StatusItem(b, myUid, base).Some?
    requires ChildValue(Some(a), "id") != ChildValue(Some(b), "id")
    ensures DraftId(StatusItem(a, myUid, base).value) != DraftId(StatusItem(b, myUid, base).value)
  {
    Strs.PrefixCancel("facebook-", ChildValue(Some(a), "id").value, ChildValue(Some(b), "id").value);
  }

  /** A post addressed to others only, or to anybody while no user is
      signed in, makes no item. */
  lemma AddressedPostsNeedUser(status: Json, base: string)
    requires status.JObject? && "to" in status.members
    ensures StatusItem(status, None, base).None?
  {
  }

  // ---------------------------------------------------------------------
  // A reply as an item set

  /** The "data" array of a reply, when the reply is an object holding one. */
  predicate HasData(root: Json)
  {
    root.JObject? && "data" in root.members && root.members["data"].JArray?
  }

  function StatusItemOf(myUid: Option<string>, base: string): Json -> Option<Draft>
  {
    (n: Json) => StatusItem(n, myUid, base)
  }

  /** _facebook_status_node_to_set: NULL unless the reply is an object with
      a "data" array; otherwise the items of its postable posts, a later
      post replacing an earlier one with the same id.  No id is banned
      here. */
  function StatusSet(root: Json, myUid: Option<string>, base: string): (r: Option<map<string, Draft>>)
    ensures r.Some? <==> HasData(root)
  {
    if HasData(root) then Some(Collected(root.members["data"].elems, StatusItemOf(myUid, base), DraftId, {}, true))
    else None
  }

  /** Every member of a status set is the item of one of the reply's posts,
      and every postable post's item id is in the set. */
  lemma StatusSetFromPosts(root: Json, myUid: Option<string>, base: string)
    requires HasData(root)
    ensures var posts := root.members["data"].elems;
            forall id | id in StatusSet(root, myUid, base).value ::
              MadeBySome(posts, StatusItemOf(myUid, base), StatusSet(root, myUid, base).value[id])
    ensures var posts := root.members["data"].elems;
            forall k | 0 <= k < |posts| && Postable(posts[k], myUid) ::
              "facebook-" + ChildValue(Some(posts[k]), "id").value in StatusSet(root, myUid, base).value
  {
    var posts := root.members["data"].elems;
    var make := StatusItemOf(myUid, base);
    CollectedSound(posts, make, DraftId, {}, true);
    CollectedComplete(posts, make, DraftId, {}, true);
    forall k | 0 <= k < |posts| && Postable(posts[k], myUid)
      ensures "facebook-" + ChildValue(Some(posts[k]), "id").value in StatusSet(root, myUid, base).value
    {
      assert Kept(posts[k], make, DraftId, {});
    }
  }

  /** get_status_updates: "own" reads the user's wall, "feed" and
      "friends-only" the news feed; any other query sends nothing. */
  function StatusEndpoint(query: string): (r: Option<string>)
    ensures r == Some("me/feed") <==> query == "own"
    ensures r == Some("me/home") <==> query == "feed" || query == "friends-only"
    ensures r.None? <==> query != "own" && query != "feed" && query != "friends-only"
  {
    if query == "own" then Some("me/feed")
    else if query == "feed" || query == "friends-only" then Some("me/home")
    else None
  }

  function StatusRequest(query: string): (r: Option<Outgoing>)
    ensures r.Some? <==> StatusEndpoint(query).Some?
    ensures r.Some? ==> r.value == Rest("GET", StatusEndpoint(query).value, [])
  {
    match StatusEndpoint(query)
    case Some(e) => Some(Rest("GET", e, []))
    case None => None
  }

  // ---------------------------------------------------------------------
  // A friend as a contact

  /** A contact as the view builds it: multi-valued properties and the
      downloads it asked for. */
  datatype Friend = Friend(props: map<string, seq<string>>, fetches: seq<ImageFetch>)

  /** The key of a contact set: the first "id" value. */
  function FriendId(f: Friend): string
  {
    SwContacts.FirstValue(f.props, "id").GetOr("")
  }

  /** sw_contact_put of each value in turn under one key. */
  function PutEach(props: map<string, seq<string>>, key: string, values: seq<string>): (r: map<string, seq<string>>)
    ensures values == [] ==> r == props
    ensures values != [] ==> key in r && r[key] == (if key in props then props[key] else []) + values
    ensures forall k | k != key :: (k in r <==> k in props) && (k in r ==> r[k] == props[k])
    decreases |values|
  {
    if values == [] then props
    else SwContacts.Appended(PutEach(props, key, values[..|values| - 1]), key, Some(values[|values| - 1]))
  }

  /** The loop of _facebook_friend_node_to_contact that appends each piece
      of the website as a "url" value. */
  method PutEachValue(props: map<string, seq<string>>, key: string, values: seq<string>)
    returns (r: map<string, seq<string>>)
    ensures r == PutEach(props, key, values)
  {
    r := props;
    var i := 0;
    while i < |values|
      invariant 0 <= i <= |values|
      invariant r == PutEach(props, key, values[..i])
    {
      assert values[..i + 1][..i] == values[..i];
      assert PutEach(props, key, values[..i + 1]) == SwContacts.Appended(PutEach(props, key, values[..i]), key, Some(values[i]));
      r := SwContacts.Appended(r, key, Some(values[i]));
      i := i + 1;
    }
    assert values[..i] == values;
  }

  /** update_contact_from_node: the member's value, when it is a non-empty
      string, is appended under the key. */
  function PutFrom(props: map<string, seq<string>>, key: string, node: Json, name: string): (r: map<string, seq<string>>)
    ensures ChildValue(Some(node), name).None? ==> r == props
    ensures ChildValue(Some(node), name).Some? ==>
              key in r && r[key] == (if key in props then props[key] else []) + [ChildValue(Some(node), name).value]
    ensures forall k | k != key :: (k in r <==> k in props) && (k in r ==> r[k] == props[k])
  {
    match ChildValue(Some(node), name)
    case Some(v) => SwContacts.Appended(props, key, Some(v))
    case None => props
  }

  /** The pieces of the friend's website: g_strsplit on "\r\n" into at most
      ten pieces; none without a website. */
  function Websites(node: Json): (r: seq<string>)
    ensures |r| <= 10
    ensures ChildValue(Some(node), "website").Some? ==>
              Strs.JoinWith(r, "\r\n") == ChildValue(Some(node), "website").value
  {
    match ChildValue(Some(node), "website")
    case Some(w) => Strs.SplitMaxJoin(w, "\r\n", 10); Strs.SplitMax(w, "\r\n", 10)
    case None => []
  }

  /** The friends that become contacts: objects with an id, a name and an
      update time. */
  predicate Befriendable(node: Json)
  {
    node.JObject? &&
    ChildValue(Some(node), "id").Some? &&
    ChildValue(Some(node), "name").Some? &&
    ChildValue(Some(node), "updated_time").Some?
  }

  /** The contact's required properties. */
  function FriendBase(node: Json): (r: map<string, seq<string>>)
    requires Befriendable(node)
    ensures r.Keys == {"id", "name", "date"}
    ensures r["id"] == ["facebook-" + ChildValue(Some(node), "id").value]
    ensures r["name"] == [ChildValue(Some(node), "name").value]
    ensures r["date"] == [ChildValue(Some(node), "updated_time").value]
  {
    map["id" := ["facebook-" + ChildValue(Some(node), "id").value],
        "name" := [ChildValue(Some(node), "name").value],
        "date" := [ChildValue(Some(node), "updated_time").value]]
  }

  /** The addresses of a friend: the profile link, then the pieces of the
      website. */
  function FriendUrls(node: Json): seq<string>
  {
    (if ChildValue(Some(node), "link").Some? then [ChildValue(Some(node), "link").value] else []) + Websites(node)
  }

  /** Each optional key is none of the keys set before it. */
  lemma KeysFresh()
    ensures "url" != "id" && "url" != "name" && "url" != "date" && "url" != "x-gender"
    ensures "x-facebook-profile" != "id" && "x-facebook-profile" != "name" && "x-facebook-profile" != "date"
    ensures "x-facebook-profile" != "url" && "x-facebook-profile" != "x-gender"
    ensures "n.given" != "id" && "n.given" != "name" && "n.given" != "date" && "n.given" != "url" && "n.given" != "x-gender"
    ensures "n.family" != "id" && "n.family" != "name" && "n.family" != "date" && "n.family" != "url" && "n.family" != "x-gender"
  {
  }

  /** The required properties with the gender. */
  function FriendGender(node: Json): (r: map<string, seq<string>>)
    requires Befriendable(node)
    ensures forall k | k in FriendBase(node) :: k in r && r[k] == FriendBase(node)[k]
    ensures "x-gender" in r <==> ChildValue(Some(node), "gender").Some?
    ensures r.Keys <= FriendBase(node).Keys + {"x-gender"}
  {
    PutFrom(FriendBase(node), "x-gender", node, "gender")
  }

  /** The friend's addresses, appended to props under "url": the profile
      link when there is one (update_contact_from_node), then each piece of
      the website. */
  function WithUrls(props: map<string, seq<string>>, link: Option<string>, pieces: seq<string>): (r: map<string, seq<string>>)
    ensures forall k | k != "url" :: (k in r <==> k in props) && (k in r ==> r[k] == props[k])
    ensures var urls := (if link.Some? then [link.value] else []) + pieces;
            "url" !in props ==> ("url" in r <==> urls != []) && ("url" in r ==> r["url"] == urls)
  {
    var linked := if link.Some? then SwContacts.Appended(props, "url", link) else props;
    PutEach(linked, "url", pieces)
  }

  /** The profile link and the given and family names, appended to props. */
  function FriendNames(props: map<string, seq<string>>, node: Json): (r: map<string, seq<string>>)
    ensures forall k | k != "x-facebook-profile" && k != "n.given" && k != "n.family" ::
              (k in r <==> k in props) && (k in r ==> r[k] == props[k])
    ensures "x-facebook-profile" !in props ==> ("x-facebook-profile" in r <==> ChildValue(Some(node), "link").Some?)
    ensures "n.given" !in props ==> ("n.given" in r <==> ChildValue(Some(node), "first_name").Some?)
    ensures "n.family" !in props ==> ("n.family" in r <==> ChildValue(Some(node), "last_name").Some?)
  {
    var p4 := PutFrom(props, "x-facebook-profile", node, "link");
    var p5 := PutFrom(p4, "n.given", node, "first_name");
    PutFrom(p5, "n.family", node, "last_name")
  }

  /** The properties of a friend's contact: the required ones, then the
      gender, the addresses, the profile link and the names. */
  function FriendProps(node: Json): map<string, seq<string>>
    requires Befriendable(node)
  {
    FriendNames(WithUrls(FriendGender(node), ChildValue(Some(node), "link"), Websites(node)), node)
  }

  /** A contact keeps the required properties and has no property
      besides them and the optional ones. */
  lemma FriendPropsRequired(node: Json)
    requires Befriendable(node)
    ensures var r := FriendProps(node);
            "id" in r && r["id"] == FriendBase(node)["id"] &&
            "name" in r && r["name"] == FriendBase(node)["name"] &&
            "date" in r && r["date"] == FriendBase(node)["date"]
    ensures FriendProps(node).Keys <= FriendBase(node).Keys + {"url", "x-gender", "x-facebook-profile", "n.given", "n.family"}
  {
    var gendered := FriendGender(node);
    var addressed := WithUrls(gendered, ChildValue(Some(node), "link"), Websites(node));
    assert "id" in gendered && "name" in gendered && "date" in gendered;
  }

  /** A contact sets each optional property only when the friend has a
      non-empty value for it, and the addresses when there is a link or a
      website. */
  lemma FriendPropsOptional(node: Json)
    requires Befriendable(node)
    ensures var r := FriendProps(node);
            ("url" in r <==> FriendUrls(node) != []) && ("url" in r ==> r["url"] == FriendUrls(node))
    ensures "x-gender" in FriendProps(node) <==> ChildValue(Some(node), "gender").Some?
    ensures "x-facebook-profile" in FriendProps(node) <==> ChildValue(Some(node), "link").Some?
    ensures "n.given" in FriendProps(node) <==> ChildValue(Some(node), "first_name").Some?
    ensures "n.family" in FriendProps(node) <==> ChildValue(Some(node), "last_name").Some?
  {
    KeysFresh();
    var gendered := FriendGender(node);
    var addressed := WithUrls(gendered, ChildValue(Some(node), "link"), Websites(node));
    assert addressed.Keys <= {"id", "name", "date", "url", "x-gender"};
  }

  /** _facebook_friend_node_to_contact: a befriendable friend becomes a
      contact with the id "facebook-" + its id, its name, its update time
      as the date, the optional properties, and a download of its square
      picture; any other node makes no contact. */
  function FriendContact(node: Json, base: string): (r: Option<Friend>)
    ensures r.Some? <==> Befriendable(node)
    ensures r.Some? ==>
              FriendId(r.value) == "facebook-" + ChildValue(Some(node), "id").value &&
              r.value.props == FriendProps(node) &&
              r.value.fetches == [ImageFetch(false, "icon", PictureUrl(base, ChildValue(Some(node), "id").value, SquareSize))]
  {
    if !Befriendable(node) then None
    else
      Some(Friend(FriendProps(node),
                  [ImageFetch(false, "icon", PictureUrl(base, ChildValue(Some(node), "id").value, SquareSize))]))
  }

  /** The "url" values of a contact give back the friend's website: after
      the profile link (when there is one) come the website's pieces, at
      most ten, which joined with "\r\n" are the website again. */
  lemma FriendWebsiteRecoverable(node: Json, base: string)
    requires FriendContact(node, base).Some? && ChildValue(Some(node), "website").Some?
    ensures var urls := FriendContact(node, base).value.props["url"];
            var skip := if ChildValue(Some(node), "link").Some? then 1 else 0;
            skip <= |urls| && |urls| - skip <= 10 &&
            Strs.JoinWith(urls[skip..], "\r\n") == ChildValue(Some(node), "website").value
  {
    FriendPropsOptional(node);
    var urls := FriendContact(node, base).value.props["url"];
    var link := if ChildValue(Some(node), "link").Some? then [ChildValue(Some(node), "link").value] else [];
    assert urls == link + Websites(node);
    assert urls[|link|..] == Websites(node);
  }

  function FriendContactOf(base: string): Json -> Option<Friend>
  {
    (n: Json) => FriendContact(n, base)
  }

  /** _facebook_update_node_to_set: NULL unless the reply is an object with
      a "data" array; otherwise the contacts of its befriendable friends. */
  function FriendSet(root: Json, base: string): (r: Option<map<string, Friend>>)
    ensures r.Some? <==> HasData(root)
  {
    if HasData(root) then Some(Collected(root.members["data"].elems, FriendContactOf(base), FriendId, {}, true))
    else None
  }

  /** Every member of a contact set is one of the reply's friends, and every
      befriendable friend is in it under "facebook-" + its id. */
  lemma FriendSetFromFriends(root: Json, base: string)
    requires HasData(root)
    ensures var friends := root.members["data"].elems;
            forall id | id in FriendSet(root, base).value ::
              FriendId(FriendSet(root, base).value[id]) == id &&
              MadeBySome(friends, FriendContactOf(base), FriendSet(root, base).value[id])
    ensures var friends := root.members["data"].elems;
            forall k | 0 <= k < |friends| && Befriendable(friends[k]) ::
              "facebook-" + ChildValue(Some(friends[k]), "id").value in FriendSet(root, base).value
  {
    var friends := root.members["data"].elems;
    var make := FriendContactOf(base);
    CollectedSound(friends, make, FriendId, {}, true);
    CollectedComplete(friends, make, FriendId, {}, true);
    forall k | 0 <= k < |friends| && Befriendable(friends[k])
      ensures "facebook-" + ChildValue(Some(friends[k]), "id").value in FriendSet(root, base).value
    {
      assert Kept(friends[k], make, FriendId, {});
    }
  }

  /** The fields get_updates asks for. */
  const FriendFields := "updated_time,name,first_name,last_name,link,website,gender"

  /** get_updates: only "people" is fetched, from "me/friends". */
  function FriendsRequest(query: string): (r: Option<Outgoing>)
    ensures r.Some? <==> query == "people"
    ensures r.Some? ==> r.value == Rest("GET", "me/friends", [("fields", FriendFields)])
  {
    if query == "people" then Some(Rest("GET", "me/friends", [("fields", FriendFields)])) else None
  }

  // ---------------------------------------------------------------------
  // The views

  /** What both views keep: the service (whose user id and proxy they
      read), the request their query makes, whether the timer is armed
      (running != 0), the requests sent, the sets handed to the view and to
      the cache, the cache drops, and the ids hidden. */
  class FacebookView<D> {
    const service: FacebookService
    const request: Option<Outgoing>
    var running: bool
    var sent: seq<Outgoing>
    var published: seq<map<string, D>>
    var saved: seq<map<string, D>>
    var cacheDrops: nat
    var hidden: seq<string>

    constructor (service: FacebookService, request: Option<Outgoing>)
      ensures this.service == service && this.request == request
      ensures !running && sent == [] && published == [] && saved == [] && cacheDrops == 0 && hidden == []
    {
      this.service := service;
      this.request := request;
      running := false;
      sent := [];
      published := [];
      saved := [];
      cacheDrops := 0;
      hidden := [];
    }

    /** Whether a fetch sends anything now. */
    predicate Fetching()
      reads this, service
    {
      service.uid.Some? && running && request.Some?
    }

    /** get_status_updates and get_updates: nothing without a signed-in user
        or while the view is stopped, nothing for a query the view does not
        know; otherwise the query's request. */
    method Fetch()
      modifies this`sent
      ensures sent == old(sent) + (if Fetching() then [request.value] else [])
    {
      if service.uid.None? || !running {
        return;
      }
      if request.None? {
        return;
      }
      sent := sent + [request.value];
    }

    /** start: a running view only warns; otherwise the timer is armed, the
        cached set (if the cache had one) is published and a fetch made. */
    method Start(cached: Option<map<string, D>>)
      modifies this`running, this`published, this`sent
      ensures running
      ensures old(running) ==> published == old(published) && sent == old(sent)
      ensures !old(running) ==>
                published == old(published) + (if cached.Some? then [cached.value] else []) &&
                sent == old(sent) + (if service.uid.Some? && request.Some? then [request.value] else [])
    {
      if running {
        return;
      }
      running := true;
      if cached.Some? {
        published := published + [cached.value];
      }
      Fetch();
    }

    /** stop: the timer is removed. */
    method Stop()
      modifies this`running
      ensures !running
    {
      if running {
        running := false;
      }
    }

    /** refresh, and the timer firing: a fetch. */
    method Refresh()
      modifies this`sent
      ensures sent == old(sent) + (if Fetching() then [request.value] else [])
    {
      Fetch();
    }

    /** _service_capabilities_changed: valid credentials make a fetch;
        anything else leaves the view (and its timer) alone. */
    method CapabilitiesChanged(caps: seq<string>)
      modifies this`sent
      ensures sent == old(sent) + (if CredentialsValid in caps && Fetching() then [request.value] else [])
    {
      if CredentialsValid in caps {
        Refresh();
      }
    }

    /** _service_user_changed: the view is emptied and the service's cache
        dropped. */
    method UserChanged()
      modifies this`published, this`cacheDrops
      ensures published == old(published) + [map[]] && cacheDrops == old(cacheDrops) + 1
    {
      published := published + [map[]];
      cacheDrops := cacheDrops + 1;
    }

    /** _service_item_hidden (connected by the item view only). */
    method ItemHidden(uid: string)
      modifies this`hidden
      ensures hidden == old(hidden) + [uid]
    {
      hidden := hidden + [uid];
    }

    /** The view is set from a new set, which is saved to the cache. */
    method Publish(s: map<string, D>)
      modifies this`published, this`saved
      ensures published == old(published) + [s] && saved == old(saved) + [s]
    {
      published := published + [s];
      saved := saved + [s];
    }
  }

  /** The item view of a query. */
  method NewItemView(service: FacebookService, query: string) returns (v: FacebookView<Draft>)
    ensures fresh(v) && v.service == service && v.request == StatusRequest(query)
    ensures !v.running && v.sent == [] && v.published == []
  {
    v := new FacebookView<Draft>(service, StatusRequest(query));
  }

  /** The contact view of a query. */
  method NewContactView(service: FacebookService, query: string) returns (v: FacebookView<Friend>)
    ensures fresh(v) && v.service == service && v.request == FriendsRequest(query)
    ensures !v.running && v.sent == [] && v.published == []
  {
    v := new FacebookView<Friend>(service, FriendsRequest(query));
  }

  /** got_status_cb: a failed call, an erroneous reply or a reply without a
      "data" array changes nothing; otherwise the item set, made with the
      user id the service holds now, is published and saved. */
  method StatusReceived(v: FacebookView<Draft>, error: bool, code: int, payload: Parse)
    modifies v`published, v`saved
    ensures var reply := JsonFromCall(code, payload);
            if error || reply.Failed? || !HasData(reply.root) then
              v.published == old(v.published) && v.saved == old(v.saved)
            else
              var s := StatusSet(reply.root, v.service.uid, Printed(v.service.proxyBase)).value;
              v.published == old(v.published) + [s] && v.saved == old(v.saved) + [s]
  {
    if error {
      return;
    }
    var reply := JsonFromCall(code, payload);
    if reply.Failed? || !HasData(reply.root) {
      return;
    }
    var s := Collect(reply.root.members["data"].elems, StatusItemOf(v.service.uid, Printed(v.service.proxyBase)),
                     DraftId, {}, true);
    v.Publish(s);
  }

  /** got_updates_cb of the contact view, likewise with the contact set. */
  method FriendsReceived(v: FacebookView<Friend>, error: bool, code: int, payload: Parse)
    modifies v`published, v`saved
    ensures var reply := JsonFromCall(code, payload);
            if error || reply.Failed? || !HasData(reply.root) then
              v.published == old(v.published) && v.saved == old(v.saved)
            else
              var s := FriendSet(reply.root, Printed(v.service.proxyBase)).value;
              v.published == old(v.published) + [s] && v.saved == old(v.saved) + [s]
  {
    if error {
      return;
    }
    var reply := JsonFromCall(code, payload);
    if reply.Failed? || !HasData(reply.root) {
      return;
    }
    var s := Collect(reply.root.members["data"].elems, FriendContactOf(Printed(v.service.proxyBase)), FriendId, {}, true);
    v.Publish(s);
  }

  /** A view whose query maps to no request never sends anything, however it
      is started, refreshed or told about capabilities. */
  method UnknownQuerySendsNothing(v: FacebookView<Draft>, caps: seq<string>)
    requires v.request.None?
    modifies v
    ensures v.sent == old(v.sent)
  {
    v.Start(None);
    v.Refresh();
    v.CapabilitiesChanged(caps);
  }
}
