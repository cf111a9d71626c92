/** The Plurk adapter (services/plurk/plurk-item-view.c and
    services/plurk/plurk.c): plurk ids written in base 36 for the permalink,
    the avatar URL rules, the mapping of a plurk and its owner to an item,
    the timeline reply, and the service object's credential states and the
    capabilities they give. */
module Plurk {
  import opened Wrappers
  import opened Adapters
  import opened AdapterViews
  import Strs

  /** The base 36 digits 0-9 then a-z. */
  function Digit36(d: nat): (c: char)
    requires d < 36
    ensures ('0' <= c <= '9') || ('a' <= c <= 'z')
    ensures Value36(c) == d
  {
    if d < 10 then ('0' as int + d) as char else ('a' as int + d - 10) as char
  }

  function Value36(c: char): int
  {
    if '0' <= c <= '9' then c as int - '0' as int
    else if 'a' <= c <= 'z' then c as int - 'a' as int + 10
    else 0
  }

  /** A positive number in base 36, most significant digit first. */
  function Base36(n: nat): (s: string)
    requires n > 0
    ensures |s| > 0 && s[0] != '0'
    ensures forall k | 0 <= k < |s| :: ('0' <= s[k] <= '9') || ('a' <= s[k] <= 'z')
    decreases n
  {
    if n < 36 then [Digit36(n)] else Base36(n / 36) + [Digit36(n % 36)]
  }

  /** The number a string of base 36 digits spells. */
  function Base36Value(s: string): int
    decreases |s|
  {
    if s == [] then 0 else Base36Value(s[..|s| - 1]) * 36 + Value36(s[|s| - 1])
  }

  /** Reading the digits back in base 36 yields the number. */
  lemma {:induction false} Base36RoundTrip(n: nat)
    requires n > 0
    ensures Base36Value(Base36(n)) == n
    decreases n
  {
    if n >= 36 {
      Base36RoundTrip(n / 36);
      var s := Base36(n);
      assert s[..|s| - 1] == Base36(n / 36);
    }
  }

  /** base36_encode: the digits of a positive number, NULL for any other. */
  function Base36Text(n: int): (r: Option<string>)
    ensures r.None? <==> n <= 0
  {
    if n > 0 then Some(Base36(n)) else None
  }

  /** base36_encode: the remainders by 36 are written in front of what was
      written so far until the dividend reaches 0; a dividend that is not
      positive writes nothing and the result stays NULL. */
  method Base36Encode(source: int) returns (encoded: Option<string>)
    ensures encoded == Base36Text(source)
  {
    var dividend := source;
    encoded := None;
    while dividend > 0
      invariant dividend >= 0 || dividend == source
      invariant encoded.None? <==> dividend == source
      invariant source <= 0 ==> encoded.None?
      invariant source > 0 ==>
                  Base36(source) == (if dividend > 0 then Base36(dividend) else "") + encoded.GetOr("")
      decreases if dividend > 0 then dividend else 0
    {
      var quotient := dividend % 36;
      dividend := dividend / 36;
      var c := Digit36(quotient);
      if encoded.Some? {
        encoded := Some([c] + encoded.value);
      } else {
        encoded := Some([c]);
      }
    }
    if source > 0 {
      assert "" + encoded.GetOr("") == encoded.value;
    }
  }

  const AvatarBase := "http://avatars.plurk.com/"
  const DefaultAvatar := "http://www.plurk.com/static/default_medium.gif"

  /** construct_image_url: users with a profile image get their own avatar,
      numbered when the avatar counter is positive; the others get the
      default image. */
  function ImageUrl(uid: string, avatar: int, hasProfile: int): (url: string)
    ensures hasProfile != 1 ==> url == DefaultAvatar
  {
    if hasProfile == 1 && avatar <= 0 then AvatarBase + uid + "-medium.gif"
    else if hasProfile == 1 && avatar > 0 then AvatarBase + uid + "-medium" + Strs.IntToDecimal(avatar) + ".gif"
    else DefaultAvatar
  }

  /** Each avatar number of a user has its own URL. */
  lemma ImageUrlsDistinct(uid: string, a: int, b: int)
    requires a > 0 && b > 0 && a != b
    ensures ImageUrl(uid, a, 1) != ImageUrl(uid, b, 1)
  {
    var p := AvatarBase + uid + "-medium";
    Strs.IntDecimalInjective(a, b);
    Strs.SuffixCancel(Strs.IntToDecimal(a), Strs.IntToDecimal(b), ".gif");
    Strs.PrefixCancel(p, Strs.IntToDecimal(a) + ".gif", Strs.IntToDecimal(b) + ".gif");
    assert ImageUrl(uid, a, 1) == p + (Strs.IntToDecimal(a) + ".gif");
    assert ImageUrl(uid, b, 1) == p + (Strs.IntToDecimal(b) + ".gif");
  }

  const PermalinkBase := "http://www.plurk.com/p/"

  /** The owner's entry of the plurk_users object. */
  function Owner(plurk: Option<JsonObject>, users: Option<Json>): Option<JsonObject>
  {
    AsObject(Member(AsObject(users), Strs.IntToDecimal(IntMember(plurk, "owner_id"))))
  }

  /** make_item: a plurk without an owner_id, or whose owner is not in the
      users object, makes no item.  Otherwise the item carries the owner's id
      and name, the id "plurk-<plurk_id>", the avatar as an image fetch that
      does not hold the item back, the qualifier (the translated one when
      there is one) and the raw content, the post date, and the permalink
      with the plurk id in base 36 (just the prefix when the id is not
      positive).  The date conversion is foreign and is a parameter. */
  function MakeItem(node: Json, users: Option<Json>, makeDate: Option<string> -> string): (r: Option<Draft>)
    ensures r.None? <==> !HasMember(AsObject(Some(node)), "owner_id") || Owner(AsObject(Some(node)), users).None?
    ensures r.Some? ==> "id" in r.value.props && "url" in r.value.props && "content" in r.value.props
  {
    var plurk := AsObject(Some(node));
    if !HasMember(plurk, "owner_id") then None
    else
      var uid := Strs.IntToDecimal(IntMember(plurk, "owner_id"));
      var user := Owner(plurk, users);
      if user.None? then None
      else
        var pid := IntMember(plurk, "plurk_id");
        var qualifier := if HasMember(plurk, "qualifier_translated") then StringMember(plurk, "qualifier_translated")
                         else StringMember(plurk, "qualifier");
        var props := Put(map["authorid" := uid, "id" := "plurk-" + Strs.IntToDecimal(pid)],
                         "author", StringMember(user, "full_name"));
        var props := props["content" := Printed(qualifier) + " " + Printed(StringMember(plurk, "content_raw"))]
                          ["date" := makeDate(StringMember(plurk, "posted"))]
                          ["url" := PermalinkBase + Base36Text(pid).GetOr("")];
        var icon := ImageUrl(uid, IntMember(user, "avatar"), IntMember(user, "has_profile_image"));
        Some(Draft(props, [ImageFetch(false, "authoricon", icon)]))
  }

  /** Plurks with different ids make items with different ids. */
  lemma ItemIdsDistinct(a: Json, b: Json, users: Option<Json>, makeDate: Option<string> -> string)
    requires MakeItem(a, users, makeDate).Some? && MakeItem(b, users, makeDate).Some?
    requires IntMember(AsObject(Some(a)), "plurk_id") != IntMember(AsObject(Some(b)), "plurk_id")
    ensures DraftId(MakeItem(a, users, makeDate).value) != DraftId(MakeItem(b, users, makeDate).value)
  {
    var pa := IntMember(AsObject(Some(a)), "plurk_id");
    var pb := IntMember(AsObject(Some(b)), "plurk_id");
    Strs.IntDecimalInjective(pa, pb);
    Strs.PrefixCancel("plurk-", Strs.IntToDecimal(pa), Strs.IntToDecimal(pb));
  }

  /** The permalink of a plurk with a positive id names it: what follows the
      prefix reads back in base 36 as the plurk id. */
  lemma PermalinkNamesPlurk(node: Json, users: Option<Json>, makeDate: Option<string> -> string)
    requires MakeItem(node, users, makeDate).Some?
    requires IntMember(AsObject(Some(node)), "plurk_id") > 0
    ensures var url := MakeItem(node, users, makeDate).value.props["url"];
            Strs.IsPrefix(PermalinkBase, url) &&
            Base36Value(url[|PermalinkBase|..]) == IntMember(AsObject(Some(node)), "plurk_id")
  {
    var pid := IntMember(AsObject(Some(node)), "plurk_id");
    var url := MakeItem(node, users, makeDate).value.props["url"];
    assert url == PermalinkBase + Base36(pid);
    assert url[|PermalinkBase|..] == Base36(pid);
    Base36RoundTrip(pid);
  }

  /** _got_status_updates_cb: an error, an unreadable reply, or a reply
      without "plurks" or "plurk_users" changes nothing; otherwise every plurk
      that makes an item whose id is not banned joins a new set, which the
      view is set from and which is saved to the cache. */
  method GotStatusUpdates(v: PollingView, error: bool, root: Option<Json>, banned: set<string>,
                          makeDate: Option<string> -> string)
    modifies v`published, v`saved
    ensures var o := AsObject(root);
            if error || root.None? || !HasMember(o, "plurks") || !HasMember(o, "plurk_users") then
              v.published == old(v.published) && v.saved == old(v.saved)
            else
              var s := Collected(Elements(Member(o, "plurks")),
                                 (n: Json) => MakeItem(n, Member(o, "plurk_users"), makeDate), DraftId, banned, true);
              v.published == old(v.published) + [s] && v.saved == old(v.saved) + [s]
  {
    if error || root.None? {
      return;
    }
    var o := AsObject(root);
    if !HasMember(o, "plurks") || !HasMember(o, "plurk_users") {
      return;
    }
    var users := Member(o, "plurk_users");
    var s := Collect(Elements(Member(o, "plurks")), (n: Json) => MakeItem(n, users, makeDate), DraftId, banned, true);
    v.Publish(s);
  }

  /** The plurk service's credential state. */
  datatype Credentials = Offline | CredsInvalid | CredsValid

  /** get_dynamic_caps: valid credentials give every capability, invalid ones
      "configured" and "invalid"; offline, the service is configured exactly
      when it has both a user name and a password. */
  function DynamicCaps(c: Credentials, username: Option<string>, password: Option<string>): (caps: seq<string>)
    ensures IsConfigured in caps <==> c != Offline || (username.Some? && password.Some?)
    ensures CredentialsValid in caps <==> c == CredsValid
    ensures CredentialsInvalid in caps <==> c == CredsInvalid
    ensures CanUpdateStatus in caps <==> c == CredsValid
    ensures CanRequestAvatar in caps <==> c == CredsValid
  {
    match c
    case CredsValid => [IsConfigured, CredentialsValid, CanUpdateStatus, CanRequestAvatar]
    case CredsInvalid => [IsConfigured, CredentialsInvalid]
    case Offline => if username.Some? && password.Some? then [IsConfigured] else []
  }

  /** The queries a Plurk view can be opened for. */
  const ValidQueries := ["feed", "own", "friends-only"]

  /** construct_user_data: the user id and avatar URL of a login reply, or
      nothing when the reply has no user_info or its uid is null.  A reply
      that is no object, or a user_info that is no object, reads as one whose
      integers are all 0. */
  function UserData(root: Option<Json>): (r: Option<(string, string)>)
    ensures r.Some? ==> HasMember(AsObject(root), "user_info")
  {
    var info := Member(AsObject(root), "user_info");
    if info.None? then None
    else
      var o := AsObject(info);
      if NullMember(o, "uid") then None
      else
        var uid := Strs.IntToDecimal(IntMember(o, "uid"));
        Some((uid, ImageUrl(uid, IntMember(o, "avatar"), IntMember(o, "has_profile_image"))))
  }

  class PlurkService {
    var inited: bool
    var credentials: Credentials
    var username: Option<string>
    var password: Option<string>
    var userId: Option<string>
    var imageUrl: Option<string>
    var apiKey: Option<string>
    /** Whether online_notify is registered with the online monitor. */
    var watchingOnline: bool
    var signals: seq<ServiceSignal>
    var sent: seq<Outgoing>
    /** The queries views were opened for. */
    var views: seq<string>

    ghost predicate Valid()
      reads this
    {
      (inited <==> apiKey.Some?) && (watchingOnline ==> inited)
    }

    /** The capabilities the current state gives. */
    function Caps(): seq<string>
      reads this`credentials, this`username, this`password
    {
      DynamicCaps(credentials, username, password)
    }

    /** sw_service_plurk_init: nothing is set up yet. */
    constructor ()
      ensures Valid() && !inited && !watchingOnline
      ensures credentials == Offline && username == None && password == None && userId == None && imageUrl == None
      ensures signals == [] && sent == [] && views == []
    {
      inited := false;
      credentials := Offline;
      username := None;
      password := None;
      userId := None;
      imageUrl := None;
      apiKey := None;
      watchingOnline := false;
      signals := [];
      sent := [];
      views := [];
    }

    /** sw_service_plurk_initable: a second call succeeds at once; without an
        API key it fails; otherwise the key is kept, the service starts
        offline, watches the online state and asks the keyring for the
        password. */
    method Init(key: Option<string>) returns (ok: bool)
      requires Valid()
      modifies this
      ensures Valid()
      ensures old(inited) ==> ok && inited && apiKey == old(apiKey) && credentials == old(credentials) && sent == old(sent)
      ensures !old(inited) && key.None? ==> !ok && !inited && sent == old(sent)
      ensures !old(inited) && key.Some? ==>
                ok && inited && apiKey == key && credentials == Offline && watchingOnline &&
                sent == old(sent) + [KeyringLookup("www.plurk.com")]
      ensures signals == old(signals) && views == old(views) && username == old(username) && password == old(password)
    {
      if inited {
        return true;
      }
      if key.None? {
        return false;
      }
      apiKey := key;
      credentials := Offline;
      watchingOnline := true;
      sent := sent + [KeyringLookup("www.plurk.com")];
      inited := true;
      ok := true;
    }

    /** online_notify: the credentials go back to offline first.  Going online
        with a user name and password sends the login call; going offline
        forgets the user id and announces the capabilities. */
    method OnlineNotify(online: bool)
      requires Valid() && inited
      modifies this`credentials, this`userId, this`sent, this`signals
      ensures credentials == Offline
      ensures online && username.Some? && password.Some? ==>
                sent == old(sent) + [Rest("GET", "Users/login",
                                          [("api_key", apiKey.value), ("username", username.value), ("password", password.value)])]
      ensures online && !(username.Some? && password.Some?) ==> sent == old(sent)
      ensures online ==> userId == old(userId) && signals == old(signals)
      ensures !online ==> userId == None && sent == old(sent) &&
                          signals == old(signals) + [CapabilitiesChanged(Caps())]
      ensures !online ==> CredentialsValid !in Caps()
    {
      credentials := Offline;
      if online {
        if username.Some? && password.Some? {
          sent := sent + [Rest("GET", "Users/login",
                               [("api_key", apiKey.value), ("username", username.value), ("password", password.value)])];
        }
      } else {
        userId := None;
        signals := signals + [CapabilitiesChanged(Caps())];
      }
    }

    /** _got_login_data: an error makes the credentials invalid; otherwise
        they are valid and the reply's user id and avatar URL are kept (when
        it has them).  Either way the capabilities are announced. */
    method LoginReplied(error: bool, root: Option<Json>)
      modifies this`credentials, this`userId, this`imageUrl, this`signals
      ensures credentials == if error then CredsInvalid else CredsValid
      ensures !error && UserData(root).Some? ==>
                userId == Some(UserData(root).value.0) && imageUrl == Some(UserData(root).value.1)
      ensures error || UserData(root).None? ==> userId == old(userId) && imageUrl == old(imageUrl)
      ensures signals == old(signals) + [CapabilitiesChanged(Caps())]
      ensures (CredentialsValid in Caps()) == !error
    {
      if error {
        credentials := CredsInvalid;
        signals := signals + [CapabilitiesChanged(Caps())];
        return;
      }
      credentials := CredsValid;
      var data := UserData(root);
      if data.Some? {
        userId := Some(data.value.0);
        imageUrl := Some(data.value.1);
      }
      signals := signals + [CapabilitiesChanged(Caps())];
    }

    /** found_password_cb: a keyring entry gives the user name and password
        and, online, forces an offline and online notification; a miss or an
        error forgets them and leaves the credentials offline.  Either way the
        user change and the capabilities are announced. */
    method FoundPassword(entry: Option<(string, string)>, isOnline: bool)
      requires Valid() && inited
      modifies this`username, this`password, this`credentials, this`userId, this`sent, this`signals
      ensures entry.Some? ==> username == Some(entry.value.0) && password == Some(entry.value.1)
      ensures entry.Some? && isOnline ==>
                credentials == Offline && userId == None &&
                sent == old(sent) + [Rest("GET", "Users/login",
                                          [("api_key", apiKey.value), ("username", entry.value.0), ("password", entry.value.1)])] &&
                signals == old(signals) + [CapabilitiesChanged([IsConfigured]), UserChanged, CapabilitiesChanged([IsConfigured])]
      ensures entry.Some? && !isOnline ==>
                credentials == old(credentials) && userId == old(userId) && sent == old(sent) &&
                signals == old(signals) + [UserChanged, CapabilitiesChanged(Caps())]
      ensures entry.None? ==>
                username == None && password == None && credentials == Offline && userId == old(userId) &&
                sent == old(sent) && signals == old(signals) + [UserChanged, CapabilitiesChanged([])]
    {
      if entry.Some? {
        username := Some(entry.value.0);
        password := Some(entry.value.1);
        if isOnline {
          OnlineNotify(false);
          OnlineNotify(true);
        }
      } else {
        username := None;
        password := None;
        credentials := Offline;
      }
      signals := signals + [UserChanged, CapabilitiesChanged(Caps())];
    }

    /** credentials_updated: the keyring is asked again. */
    method CredentialsUpdated()
      modifies this`sent
      ensures sent == old(sent) + [KeyringLookup("www.plurk.com")]
    {
      sent := sent + [KeyringLookup("www.plurk.com")];
    }

    /** _plurk_query_open_view: only the three known queries open a view;
        any other is answered with an invalid-query error. */
    method QueryOpenView(query: string) returns (reply: OpenViewReply)
      modifies this`views
      ensures query in ValidQueries ==> reply == ViewOpened(query) && views == old(views) + [query]
      ensures query !in ValidQueries ==> reply == InvalidQuery(query) && views == old(views)
    {
      var i := 0;
      var valid := false;
      while i < |ValidQueries|
        invariant 0 <= i <= |ValidQueries|
        invariant valid <==> query in ValidQueries[..i]
      {
        if query == ValidQueries[i] {
          valid := true;
        }
        assert ValidQueries[..i + 1] == ValidQueries[..i] + [ValidQueries[i]];
        i := i + 1;
      }
      assert ValidQueries[..i] == ValidQueries;
      if !valid {
        return InvalidQuery(query);
      }
      views := views + [query];
      reply := ViewOpened(query);
    }

    /** _plurk_avatar_request_avatar: the avatar is downloaded only when the
        login gave an image URL. */
    method RequestAvatar()
      modifies this`sent
      ensures imageUrl.Some? ==> sent == old(sent) + [Download(imageUrl.value)]
      ensures imageUrl.None? ==> sent == old(sent)
    {
      if imageUrl.Some? {
        sent := sent + [Download(imageUrl.value)];
      }
    }

    /** _requested_avatar_downloaded_cb */
    method AvatarDownloaded(localPath: string)
      modifies this`signals
      ensures signals == old(signals) + [AvatarRetrieved(localPath)]
    {
      signals := signals + [AvatarRetrieved(localPath)];
    }

    /** _plurk_status_update_update_status: without a user id nothing is sent
        (and the caller gets no reply); otherwise the message is posted with
        the ":" qualifier. */
    method UpdateStatus(msg: string) returns (replied: bool)
      requires Valid() && inited
      modifies this`sent
      ensures replied <==> userId.Some?
      ensures userId.None? ==> sent == old(sent)
      ensures userId.Some? ==>
                sent == old(sent) + [Rest("POST", "Timeline/plurkAdd",
                                          [("api_key", apiKey.value), ("content", msg), ("qualifier", ":")])]
    {
      if userId.None? {
        return false;
      }
      sent := sent + [Rest("POST", "Timeline/plurkAdd", [("api_key", apiKey.value), ("content", msg), ("qualifier", ":")])];
      replied := true;
    }

    /** _update_status_cb */
    method StatusUpdateReplied(error: bool)
      modifies this`signals
      ensures signals == old(signals) + [StatusUpdated(!error)]
    {
      signals := signals + [StatusUpdated(!error)];
    }
  }

  /** Losing the keyring entry leaves a service with no capabilities at all,
      whatever state it was in. */
  method ForgetAfterLogin(s: PlurkService, root: Option<Json>)
    requires s.Valid() && s.inited
    modifies s
    ensures s.Caps() == [] && s.username == None
  {
    s.LoginReplied(false, root);
    s.FoundPassword(None, true);
  }
}
