/** The Photobucket service (services/photobucket/photobucket.c): OAuth
    credentials from the key fob, a check of the access token that learns the
    user's album and silo subdomain, photo and video uploads, and the
    collections interface over the user's albums.  Replies are XML documents
    whose root is a "response" with a "status" child. */
module Photobucket {
  import opened Wrappers
  import opened Adapters
  import Strs

  /** Collection ids on the bus are the album ids with this prefix. */
  const AlbumPrefix := "photobucket-"

  const StaticCaps := [HasPhotoUploadIface, HasVideoUploadIface, HasBanishableIface]

  /** The media type mask every album reports: COLLECTION | PHOTO | VIDEO. */
  const Collection := 1
  const PhotoMedia := 2
  const VideoMedia := 4
  const AllMedia := Collection + PhotoMedia + VideoMedia

  /** get_dynamic_caps: a known user means valid credentials; tokens alone
      mean configured; otherwise nothing. */
  function DynamicCaps(uid: Option<string>, configured: bool): (r: seq<string>)
    ensures CredentialsValid in r <==> uid.Some?
    ensures IsConfigured in r <==> uid.Some? || configured
    ensures forall c | c in r :: c == IsConfigured || c == CredentialsValid
  {
    assert IsConfigured[0] != CredentialsValid[0];
    if uid.Some? then [IsConfigured, CredentialsValid]
    else if configured then [IsConfigured]
    else []
  }

  // ---------------------------------------------------------------------
  // node_from_call

  /** What node_from_call makes of a reply: the root, or the error it sets. */
  datatype Reply =
    | Accepted(root: Xml)
    | HttpError(code: int)
    | Malformed
    | RemoteError(message: Option<string>)

  /** SOUP_STATUS_IS_SUCCESSFUL: a 2xx status. */
  predicate Successful(code: int)
  {
    200 <= code < 300
  }

  /** The child the root files under "status" (the first one), if any. */
  function StatusChild(root: Xml): (r: Option<Xml>)
    ensures r.Some? ==> r.value.name == "status" && r.value in root.children
  {
    var s := ChildrenNamed(root, "status");
    if s == [] then None else Some(s[0])
  }

  /** A reply Photobucket accepted: a "response" root whose status is "OK". */
  predicate WellFormed(root: Xml)
  {
    root.name == "response" && StatusChild(root).Some?
  }

  /** node_from_call: a failed status, a payload that does not parse into a
      "response" with a status, and a status other than "OK" are errors;
      only an accepted root is handed on. */
  function NodeFromCall(code: int, parsed: Option<Xml>): (r: Reply)
    ensures r.Accepted? <==>
              Successful(code) && parsed.Some? && WellFormed(parsed.value) &&
              StatusChild(parsed.value).value.content == Some("OK")
    ensures r.Accepted? ==> r.root == parsed.value
    ensures r.HttpError? <==> !Successful(code)
    ensures r.Malformed? <==> Successful(code) && (parsed.None? || !WellFormed(parsed.value))
    ensures r.RemoteError? ==> r.message == ContentOf(Find(parsed.value, "message"))
  {
    if !Successful(code) then HttpError(code)
    else if parsed.None? || !WellFormed(parsed.value) then Malformed
    else if StatusChild(parsed.value).value.content != Some("OK") then
      RemoteError(ContentOf(Find(parsed.value, "message")))
    else Accepted(parsed.value)
  }

  // ---------------------------------------------------------------------
  // Collection ids

  /** The album id a collection id names: the id without its prefix, or
      nothing when the prefix is missing (SW_SERVICE_ERROR_NOT_SUPPORTED). */
  function AlbumOf(collectionId: string): (r: Option<string>)
    ensures r.Some? <==> Strs.IsPrefix(AlbumPrefix, collectionId)
    ensures r.Some? ==> AlbumPrefix + r.value == collectionId
  {
    if Strs.IsPrefix(AlbumPrefix, collectionId) then
      assert AlbumPrefix + collectionId[|AlbumPrefix|..] == collectionId;
      Some(collectionId[|AlbumPrefix|..])
    else None
  }

  /** A collection id made from an album id names that album again. */
  lemma AlbumOfCollectionId(album: string)
    ensures AlbumOf(AlbumPrefix + album) == Some(album)
  {
    assert Strs.IsPrefix(AlbumPrefix, AlbumPrefix + album);
    Strs.PrefixCancel(AlbumPrefix, AlbumOf(AlbumPrefix + album).value, album);
  }

  /** The position of the last '/' (g_strrstr), if there is one. */
  function LastSlash(s: string): (r: Option<nat>)
    ensures r.Some? ==> r.value < |s| && s[r.value] == '/' && '/' !in s[r.value + 1..]
    ensures r.None? <==> '/' !in s
  {
    if s == [] then None
    else if s[|s| - 1] == '/' then Some(|s| - 1)
    else
      var r := LastSlash(s[..|s| - 1]);
      assert s == s[..|s| - 1] + [s[|s| - 1]];
      r
  }

  /** The last '/' is the one with no '/' after it. */
  lemma {:induction false} LastSlashAt(s: string, i: nat)
    requires i < |s| && s[i] == '/' && '/' !in s[i + 1..]
    ensures LastSlash(s) == Some(i)
    decreases |s|
  {
    forall j | i < j < |s|
      ensures s[j] != '/'
    {
      assert s[j] == s[i + 1..][j - i - 1];
    }
    if i < |s| - 1 {
      var init := s[..|s| - 1];
      forall j | i < j < |init|
        ensures init[j] != '/'
      {
      }
      assert '/' !in init[i + 1..];
      LastSlashAt(init, i);
    }
  }

  /** The parent _extract_collection_details_from_xml reports for an album
      named `name`: none ("") for a top-level album, whose name has at most
      one '/', and otherwise the collection id of the name up to its last
      '/'.  A missing name is looked at as NULL, which has no '/'. */
  function ParentId(name: Option<string>): (r: string)
    ensures r == "" <==>
              name.None? || LastSlash(name.value).None? || '/' !in name.value[..LastSlash(name.value).value]
    ensures r != "" ==> r == AlbumPrefix + name.value[..LastSlash(name.value).value]
  {
    if name.None? then ""
    else
      var sep := LastSlash(name.value);
      if sep.None? || '/' !in name.value[..sep.value] then ""
      else AlbumPrefix + name.value[..sep.value]
  }

  /** An album named `key/name`, with no '/' in name, is reported under the
      collection id of `key` when key is an album below the user's, and as
      top-level when key is the user's own album. */
  lemma ParentOfChild(key: string, name: string)
    requires '/' !in name
    ensures LastSlash(key + "/" + name) == Some(|key|)
    ensures '/' in key ==> ParentId(Some(key + "/" + name)) == AlbumPrefix + key
    ensures '/' !in key ==> ParentId(Some(key + "/" + name)) == ""
  {
    var s := key + "/" + name;
    assert s[|key| + 1..] == name;
    LastSlashAt(s, |key|);
    assert s[..|key|] == key;
  }

  // ---------------------------------------------------------------------
  // Collection details

  /** g_value_set_int on a gint64: the low 32 bits, as a signed number. */
  function ToGint(n: int): (r: int)
    ensures -0x8000_0000 <= r < 0x8000_0000
    ensures -0x8000_0000 <= n < 0x8000_0000 ==> r == n
    ensures (r - n) % 0x1_0000_0000 == 0
  {
    var m := n % 0x1_0000_0000;
    if m >= 0x8000_0000 then m - 0x1_0000_0000 else m
  }

  /** One count attribute as g_ascii_strtoll reads it; an absent one adds
      nothing. */
  function CountOf(album: Xml, key: string): int
  {
    if Attr(album, key).Some? then Strs.Atoi(Attr(album, key).value) else 0
  }

  /** The details of one collection: its id, title, parent, media types,
      item count and the extra attributes. */
  datatype Details = Details(id: string, title: Option<string>, parent: string, types: int,
                             count: int, attribs: map<string, string>)

  /** The extra attributes: each of the four album attributes that is there,
      under its x-photobucket- key. */
  function ExtraAttribs(album: Xml): (r: map<string, string>)
    ensures "x-photobucket-photo-count" in r <==> Attr(album, "photo_count").Some?
    ensures "x-photobucket-video-count" in r <==> Attr(album, "video_count").Some?
    ensures "x-photobucket-thumb" in r <==> Attr(album, "thumb").Some?
    ensures "x-photobucket-privacy" in r <==> Attr(album, "privacy").Some?
    ensures r.Keys <= {"x-photobucket-photo-count", "x-photobucket-video-count", "x-photobucket-thumb", "x-photobucket-privacy"}
  {
    assert |"x-photobucket-photo-count"| == 25 && |"x-photobucket-video-count"| == 25;
    assert "x-photobucket-photo-count"[14] != "x-photobucket-video-count"[14];
    assert |"x-photobucket-thumb"| == 19 && |"x-photobucket-privacy"| == 21;
    var counts := Put(Put(map[], "x-photobucket-photo-count", Attr(album, "photo_count")),
                      "x-photobucket-video-count", Attr(album, "video_count"));
    Put(Put(counts, "x-photobucket-thumb", Attr(album, "thumb")), "x-photobucket-privacy", Attr(album, "privacy"))
  }

  /** _extract_collection_details_from_xml. */
  function CollectionDetails(album: Xml): (d: Details)
    ensures d.id == AlbumPrefix + Printed(Attr(album, "name"))
    ensures d.title == Attr(album, "title")
    ensures d.parent == ParentId(Attr(album, "name"))
    ensures d.types == AllMedia
    ensures d.count == ToGint(CountOf(album, "photo_count") + CountOf(album, "video_count"))
    ensures d.attribs == ExtraAttribs(album)
  {
    Details(AlbumPrefix + Printed(Attr(album, "name")), Attr(album, "title"), ParentId(Attr(album, "name")),
            AllMedia, ToGint(CountOf(album, "photo_count") + CountOf(album, "video_count")),
            ExtraAttribs(album))
  }

  /** An album with neither count has no items. */
  lemma NoCountsNoItems(album: Xml)
    requires Attr(album, "photo_count").None? && Attr(album, "video_count").None?
    ensures CollectionDetails(album).count == 0
  {
  }

  /** The albums of a get_list reply: the user's album is the first "album"
      below the root, and its sub-albums are the first "album" below it and
      that node's `next` chain. */
  function Albums(root: Xml): seq<Xml>
  {
    match Find(root, "album")
    case Some(user) => FindAll(user, "album")
    case None => []
  }

  /** The loop of _list_albums_cb: the details of every album, in order. */
  method ListAlbumDetails(albums: seq<Xml>) returns (rv: seq<Details>)
    ensures |rv| == |albums|
    ensures forall k | 0 <= k < |albums| :: rv[k] == CollectionDetails(albums[k])
  {
    rv := MapEach(albums, CollectionDetails);
  }

  /** The bus reply of a method that waits for a REST call: a value, or an
      error. */
  datatype BusReply<T> = Value(value: T) | Error(reason: string)

  /** The error every collections callback starts from: a failed call, or
      what node_from_call rejects. */
  function CallError(error: Option<string>, code: int, parsed: Option<Xml>): (r: Option<string>)
    ensures r.None? <==> error.None? && NodeFromCall(code, parsed).Accepted?
  {
    if error.Some? then Some("rest call failed: " + error.value)
    else
      match NodeFromCall(code, parsed)
      case Accepted(_) => None
      case HttpError(c) => Some("HTTP error")
      case Malformed => Some("malformed remote response")
      case RemoteError(m) => Some("remote Photobucket error: " + Printed(m))
  }

  /** _list_albums_cb: an error is returned as such; otherwise the details
      of every sub-album of the user's album. */
  method ListAlbumsReply(error: Option<string>, code: int, parsed: Option<Xml>) returns (r: BusReply<seq<Details>>)
    ensures r.Error? <==> CallError(error, code, parsed).Some?
    ensures r.Value? ==>
              var albums := Albums(parsed.value);
              |r.value| == |albums| &&
              forall k | 0 <= k < |albums| :: r.value[k] == CollectionDetails(albums[k])
  {
    var err := CallError(error, code, parsed);
    if err.Some? {
      return Error(err.value);
    }
    var rv := ListAlbumDetails(Albums(parsed.value));
    return Value(rv);
  }

  /** What _get_album_details_cb reads of an accepted reply without checking:
      an album below the root. */
  predicate DetailsReadable(error: Option<string>, code: int, parsed: Option<Xml>)
  {
    CallError(error, code, parsed).None? ==> Find(parsed.value, "album").Some?
  }

  /** _get_album_details_cb: an error, or the details of the first album in
      the reply. */
  function DetailsReply(error: Option<string>, code: int, parsed: Option<Xml>): (r: BusReply<Details>)
    requires DetailsReadable(error, code, parsed)
    ensures r.Error? <==> CallError(error, code, parsed).Some?
    ensures r.Value? ==> r.value == CollectionDetails(Find(parsed.value, "album").value)
  {
    var err := CallError(error, code, parsed);
    if err.Some? then Error(err.value)
    else Value(CollectionDetails(Find(parsed.value, "album").value))
  }

  // ---------------------------------------------------------------------
  // Requests

  /** _photobucket_collections_get_list: every album below the user's, flat,
      without media. */
  function ListCall(uid: string): (r: Outgoing)
    ensures r.Rest? && r.endpoint == "album/!" && ("id", uid) in r.params
  {
    Rest("GET", "album/!", [("id", uid), ("recurse", "true"), ("view", "flat"), ("media", "none")])
  }

  /** _photobucket_collections_get_details: a collection id without the
      prefix is refused; otherwise the album it names is asked for. */
  function DetailsCall(collectionId: string): (r: BusReply<Outgoing>)
    ensures r.Value? <==> Strs.IsPrefix(AlbumPrefix, collectionId)
    ensures r.Value? ==> r.value == Rest("GET", "album/!", [("id", AlbumOf(collectionId).value), ("media", "none")])
  {
    match AlbumOf(collectionId)
    case Some(album) => Value(Rest("GET", "album/!", [("id", album), ("media", "none")]))
    case None => Error("Photobucket collection ID must start with " + AlbumPrefix)
  }

  /** What _photobucket_collections_create sends and the collection id it
      will answer with. */
  datatype Creation = Creation(call: Outgoing, albumId: string)

  /** The album a new one goes below: the user's album for an empty parent,
      the album the parent names otherwise (nothing when it lacks the
      prefix). */
  function ParentAlbum(parent: string, uid: string): (r: Option<string>)
    ensures parent == "" ==> r == Some(uid)
    ensures parent != "" ==> r == AlbumOf(parent)
  {
    if parent == "" then Some(uid) else AlbumOf(parent)
  }

  /** _photobucket_collections_create: a POST naming the parent album and
      the new name; the answer is the new album's collection id. */
  function CreateCall(name: string, parent: string, uid: string): (r: BusReply<Creation>)
    ensures r.Value? <==> parent == "" || Strs.IsPrefix(AlbumPrefix, parent)
    ensures r.Value? ==>
              var key := ParentAlbum(parent, uid).value;
              r.value.call == Rest("POST", "album/!", [("id", key), ("name", name)]) &&
              r.value.albumId == AlbumPrefix + key + "/" + name
  {
    match ParentAlbum(parent, uid)
    case Some(key) => Value(Creation(Rest("POST", "album/!", [("id", key), ("name", name)]), AlbumPrefix + key + "/" + name))
    case None => Error("Photobucket collection ID must start with " + AlbumPrefix)
  }

  /** A created album is found again where it was made: an album named
      `parent album/name` reports the collection id the creation answered
      with. */
  lemma CreatedAlbumId(name: string, parent: string, uid: string, album: Xml)
    requires CreateCall(name, parent, uid).Value?
    requires Attr(album, "name") == Some(ParentAlbum(parent, uid).value + "/" + name)
    ensures CollectionDetails(album).id == CreateCall(name, parent, uid).value.albumId
  {
    var key := ParentAlbum(parent, uid).value;
    assert AlbumPrefix + (key + "/" + name) == AlbumPrefix + key + "/" + name;
  }

  /** ... and reports the parent it was created under: none for the user's
      album (an empty parent; the user's album has no '/' in its name), the
      parent's collection id for an album below the user's. */
  lemma CreatedAlbumParent(name: string, parent: string, uid: string, album: Xml)
    requires '/' !in name && '/' !in uid
    requires parent == "" || Strs.IsPrefix(AlbumPrefix, parent)
    requires Attr(album, "name") == Some(ParentAlbum(parent, uid).value + "/" + name)
    ensures parent == "" ==> CollectionDetails(album).parent == ""
    ensures parent != "" && '/' in AlbumOf(parent).value ==> CollectionDetails(album).parent == parent
  {
    ParentOfChild(ParentAlbum(parent, uid).value, name);
  }

  /** _create_album_cb: an error, or the collection id computed when the
      request went out. */
  function CreateReply(c: Creation, error: Option<string>, code: int, parsed: Option<Xml>): (r: BusReply<string>)
    ensures r.Error? <==> CallError(error, code, parsed).Some?
    ensures r.Value? ==> r.value == c.albumId
  {
    var err := CallError(error, code, parsed);
    if err.Some? then Error(err.value) else Value(c.albumId)
  }

  // ---------------------------------------------------------------------
  // Uploads

  datatype MediaKind = Photo | Video

  /** The "type" parameter of an upload. */
  function UploadType(kind: MediaKind): (r: string)
    ensures r == "video" <==> kind == Video
  {
    if kind == Video then "video" else "image"
  }

  /** _upload_file's call (the file part aside): the album is the user's
      own without a "collection" field and the one the collection id names
      otherwise; a collection id without the prefix is refused.  `mapped`
      are the extra fields sw_service_map_params passes through. */
  function UploadCall(kind: MediaKind, collection: Option<string>, uid: string,
                      mapped: seq<(string, string)>): (r: BusReply<Outgoing>)
    ensures r.Error? <==> collection.Some? && !Strs.IsPrefix(AlbumPrefix, collection.value)
    ensures r.Value? ==>
              r.value.Rest? && r.value.verb == "POST" && r.value.endpoint == "album/!/upload" &&
              |r.value.params| >= 2 && r.value.params[1] == ("type", UploadType(kind)) &&
              r.value.params[0] == ("id", if collection.None? then uid else AlbumOf(collection.value).value) &&
              r.value.params[2..] == mapped
  {
    var album := if collection.None? then Some(uid) else AlbumOf(collection.value);
    match album
    case Some(id) => Value(Rest("POST", "album/!/upload", [("id", id), ("type", UploadType(kind))] + mapped))
    case None => Error("collection must be in the format: " + AlbumPrefix + "albumid")
  }

  /** An upload into a collection the collections interface reported goes
      to that album. */
  lemma UploadToReportedAlbum(kind: MediaKind, album: string, uid: string, mapped: seq<(string, string)>)
    ensures UploadCall(kind, Some(AlbumPrefix + album), uid, mapped).Value?
    ensures UploadCall(kind, Some(AlbumPrefix + album), uid, mapped).value.params[0] == ("id", album)
  {
    AlbumOfCollectionId(album);
  }

  /** _upload_photo_cb and _upload_video_cb: a failed upload reports -1 and
      the error, a finished one 100 and no message. */
  function UploadProgress(error: Option<string>): (r: (int, string))
    ensures r.0 == 100 <==> error.None?
    ensures error.Some? ==> r == (-1, error.value)
  {
    if error.Some? then (-1, error.value) else (100, "")
  }

  // ---------------------------------------------------------------------
  // The service

  /** The service object: whether it was initialised, whether the key fob
      gave tokens, the user (the album of the token's owner), the subdomain
      the silo proxy is bound to, the calls sent, the key fob requests made
      and the signals emitted. */
  class PhotobucketService {
    var inited: bool
    var configured: bool
    var uid: Option<string>
    var silo: Option<string>
    var sent: seq<Outgoing>
    var tokenRequests: nat
    var signals: seq<ServiceSignal>

    constructor ()
      ensures !inited && !configured && uid.None? && silo.None?
      ensures sent == [] && tokenRequests == 0 && signals == []
    {
      inited := false;
      configured := false;
      uid := None;
      silo := None;
      sent := [];
      tokenRequests := 0;
      signals := [];
    }

    /** online_notify: going online asks the key fob for tokens; going
        offline forgets the user and announces the capabilities. */
    method OnlineNotify(online: bool)
      modifies this`uid, this`tokenRequests, this`signals
      ensures online ==> uid == old(uid) && tokenRequests == old(tokenRequests) + 1 && signals == old(signals)
      ensures !online ==>
                uid.None? && tokenRequests == old(tokenRequests) &&
                signals == old(signals) + [CapabilitiesChanged(DynamicCaps(None, configured))]
    {
      if online {
        tokenRequests := tokenRequests + 1;
      } else {
        uid := None;
        signals := signals + [CapabilitiesChanged(DynamicCaps(uid, configured))];
      }
    }

    /** refresh_credentials (and credentials_updated): unconfigured, the
        user change announced, offline then online again. */
    method RefreshCredentials()
      modifies this`configured, this`uid, this`tokenRequests, this`signals
      ensures !configured && uid.None? && tokenRequests == old(tokenRequests) + 1
      ensures signals == old(signals) + [UserChanged, CapabilitiesChanged([])]
    {
      configured := false;
      signals := signals + [UserChanged];
      OnlineNotify(false);
      OnlineNotify(true);
    }

    /** got_tokens_cb: the service is configured exactly when the key fob
        had tokens, and then the access token is checked; the capabilities
        are announced either way. */
    method GotTokens(gotTokens: bool)
      modifies this`configured, this`sent, this`signals
      ensures configured == gotTokens
      ensures gotTokens ==> sent == old(sent) + [Rest("GET", "user/-/url", [])]
      ensures !gotTokens ==> sent == old(sent)
      ensures signals == old(signals) + [CapabilitiesChanged(DynamicCaps(uid, gotTokens))]
    {
      configured := gotTokens;
      if gotTokens {
        sent := sent + [Rest("GET", "user/-/url", [])];
      }
      signals := signals + [CapabilitiesChanged(DynamicCaps(uid, configured))];
    }

    /** _check_access_token_cb: the user is forgotten; a rejected reply
        ends there; an accepted one binds the silo proxy to its "api"
        subdomain and takes the "username" as the user, and the
        capabilities are announced. */
    method CheckAccessToken(code: int, parsed: Option<Xml>)
      modifies this`uid, this`silo, this`signals
      ensures !NodeFromCall(code, parsed).Accepted? ==>
                uid.None? && silo == old(silo) && signals == old(signals)
      ensures NodeFromCall(code, parsed).Accepted? ==>
                var root := parsed.value;
                uid == ContentOf(Find(root, "username")) &&
                silo == (if Find(root, "api").Some? then Some(Printed(Find(root, "api").value.content)) else old(silo)) &&
                signals == old(signals) + [CapabilitiesChanged(DynamicCaps(uid, configured))]
    {
      uid := None;
      var reply := NodeFromCall(code, parsed);
      if !reply.Accepted? {
        return;
      }
      var api := Find(reply.root, "api");
      if api.Some? {
        silo := Some(Printed(api.value.content));
      }
      var username := Find(reply.root, "username");
      if username.Some? {
        uid := username.value.content;
      }
      signals := signals + [CapabilitiesChanged(DynamicCaps(uid, configured))];
    }

    /** sw_service_photobucket_initable: an initialised service stays so;
        without an API key and secret it fails; otherwise it refreshes its
        credentials. */
    method Init(haveKeys: bool) returns (ok: bool)
      modifies this`inited, this`configured, this`uid, this`tokenRequests, this`signals
      ensures ok <==> old(inited) || haveKeys
      ensures inited == ok
      ensures old(inited) || !haveKeys ==>
                configured == old(configured) && uid == old(uid) && signals == old(signals) &&
                tokenRequests == old(tokenRequests)
      ensures !old(inited) && haveKeys ==>
                !configured && uid.None? && tokenRequests == old(tokenRequests) + 1 &&
                signals == old(signals) + [UserChanged, CapabilitiesChanged([])]
    {
      if inited {
        return true;
      }
      if !haveKeys {
        return false;
      }
      inited := true;
      RefreshCredentials();
      return true;
    }
  }

  /** After a token check the capabilities tell whether the check learnt
      the user: valid credentials exactly when an accepted reply named one. */
  method TokenCheckDecidesCredentials(s: PhotobucketService, code: int, parsed: Option<Xml>)
    modifies s
    ensures NodeFromCall(code, parsed).Accepted? ==>
              |s.signals| > 0 && s.signals[|s.signals| - 1] == CapabilitiesChanged(DynamicCaps(s.uid, s.configured)) &&
              (CredentialsValid in DynamicCaps(s.uid, s.configured) <==>
                 ContentOf(Find(parsed.value, "username")).Some?)
    ensures !NodeFromCall(code, parsed).Accepted? ==> s.signals == old(s.signals) && s.uid.None?
  {
    s.CheckAccessToken(code, parsed);
  }
}
