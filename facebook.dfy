/** The Facebook service object (services/facebook/facebook.c): the dynamic
    capabilities worked out from the signed-in user and the online state, the
    user information read from the "me" object, the online notifications,
    the reconnection a credentials change forces on every Facebook service,
    initialisation from the keystore and the keys file, the avatar, status
    updates, and photo and video uploads. */
module Facebook {
  import opened Wrappers
  import opened Adapters
  import opened FacebookUtil
  import SwUtils

  // ---------------------------------------------------------------------
  // Capabilities

  const OfflineCaps: seq<string> := [IsConfigured]
  const FullCaps: seq<string> := [CanUpdateStatus, CanRequestAvatar, IsConfigured, CredentialsValid]

  /** get_dynamic_caps: nothing without a user; everything a signed-in user
      allows when online; only "configured" when offline. */
  function DynamicCaps(uid: Option<string>, online: bool): (r: seq<string>)
    ensures uid.None? ==> r == []
    ensures uid.Some? && online ==> r == FullCaps
    ensures uid.Some? && !online ==> r == OfflineCaps
  {
    if uid.None? then []
    else if online then FullCaps
    else OfflineCaps
  }

  /** The credentials are reported valid, and a status can be posted, exactly
      when a user is known and the service is online; a known user always
      makes the service "configured". */
  lemma CapsMeaning(uid: Option<string>, online: bool)
    ensures CredentialsValid in DynamicCaps(uid, online) <==> uid.Some? && online
    ensures CanUpdateStatus in DynamicCaps(uid, online) <==> uid.Some? && online
    ensures CanRequestAvatar in DynamicCaps(uid, online) <==> uid.Some? && online
    ensures IsConfigured in DynamicCaps(uid, online) <==> uid.Some?
  {
    assert FullCaps[3] == CredentialsValid && FullCaps[0] == CanUpdateStatus;
    assert FullCaps[1] == CanRequestAvatar && FullCaps[2] == IsConfigured;
    assert OfflineCaps[0] == IsConfigured;
  }

  // ---------------------------------------------------------------------
  // The signed-in user

  /** The user fields of the private structure. */
  datatype UserInfo = UserInfo(uid: Option<string>, displayName: Option<string>,
                               profileUrl: Option<string>, picSquare: Option<string>)

  const NoUser := UserInfo(None, None, None, None)

  /** _facebook_extract_user_info: id, name and link are read from the "me"
      object; without an id or a name every field is cleared, otherwise the
      square picture of the user (on the proxy's base) is added. */
  function ExtractedUserInfo(node: Json, base: string): (r: UserInfo)
    ensures r.uid.Some? <==> ChildValue(Some(node), "id").Some? && ChildValue(Some(node), "name").Some?
    ensures r.uid.None? ==> r == NoUser
    ensures r.uid.Some? ==> r.uid == ChildValue(Some(node), "id") && r.displayName == ChildValue(Some(node), "name") &&
                            r.profileUrl == ChildValue(Some(node), "link")
  {
    var uid := ChildValue(Some(node), "id");
    var name := ChildValue(Some(node), "name");
    if uid.None? || name.None? then NoUser
    else UserInfo(uid, name, ChildValue(Some(node), "link"), Some(PictureUrl(base, uid.value, SquareSize)))
  }

  /** The user information is all there or not there at all: an id comes
      with a name and with the picture of that very id, and the picture
      names the user it was built for. */
  lemma UserInfoConsistent(node: Json, other: Json, base: string)
    ensures var r := ExtractedUserInfo(node, base);
            (r.uid.Some? <==> r.displayName.Some?) && (r.uid.Some? <==> r.picSquare.Some?) &&
            (r.uid.Some? ==> r.picSquare == Some(PictureUrl(base, r.uid.value, SquareSize)))
    ensures var r, s := ExtractedUserInfo(node, base), ExtractedUserInfo(other, base);
            r.uid.Some? && s.uid.Some? && '/' !in r.uid.value && '/' !in s.uid.value && r.picSquare == s.picSquare ==>
              r.uid == s.uid
  {
    var r, s := ExtractedUserInfo(node, base), ExtractedUserInfo(other, base);
    if r.uid.Some? && s.uid.Some? && '/' !in r.uid.value && '/' !in s.uid.value && r.picSquare == s.picSquare {
      PictureUrlInjective(base, r.uid.value, s.uid.value, SquareSize);
    }
  }

  // ---------------------------------------------------------------------
  // Initialisation

  /** The three values of the [OAuth2] group of facebook.keys, NULL when the
      key is missing (or the file is). */
  datatype KeysFile = KeysFile(authEndpoint: Option<string>, baseUri: Option<string>, baseVideoUri: Option<string>)
  {
    predicate Complete() {
      authEndpoint.Some? && baseUri.Some? && baseVideoUri.Some?
    }
  }

  /** The errors the initable sets. */
  datatype InitError = NoKeys | IncompleteKeysFile

  /** sw_service_facebook_initable as written: an initialised object
      succeeds; without an API key it fails with SW_SERVICE_ERROR_NO_KEYS;
      with a keys file lacking one of its three URLs it returns FALSE
      without setting any error. */
  function InitVerdictAsWritten(inited: bool, hasKey: bool, keys: KeysFile): (r: (bool, Option<InitError>))
    ensures r.0 <==> inited || (hasKey && keys.Complete())
    ensures r.0 ==> r.1.None?
    ensures !inited && !hasKey ==> r.1 == Some(NoKeys)
  {
    if inited then (true, None)
    else if !hasKey then (false, Some(NoKeys))
    else if !keys.Complete() then (false, None)
    else (true, None)
  }

  /** A keys file without BaseUri makes the initable fail with no error, so
      the daemon's "Cannot construct %s: %s" reads the message of a NULL
      error. */
  lemma IncompleteKeysFileSetsNoError()
    ensures var keys := KeysFile(Some("https://graph.facebook.com/oauth/authorize"), None,
                                 Some("https://api-video.facebook.com"));
            InitVerdictAsWritten(false, true, keys) == (false, None)
  {
  }

  /** The initable with the evident intent: every failure carries its error.
      It succeeds in exactly the same cases as the code as written and sets
      the same error wherever that sets one. */
  function InitVerdict(inited: bool, hasKey: bool, keys: KeysFile): (r: (bool, Option<InitError>))
    ensures r.0 == InitVerdictAsWritten(inited, hasKey, keys).0
    ensures InitVerdictAsWritten(inited, hasKey, keys).1.Some? ==> r.1 == InitVerdictAsWritten(inited, hasKey, keys).1
    ensures !r.0 <==> r.1.Some?
  {
    if inited then (true, None)
    else if !hasKey then (false, Some(NoKeys))
    else if !keys.Complete() then (false, Some(IncompleteKeysFile))
    else (true, None)
  }

  // ---------------------------------------------------------------------
  // Uploads

  datatype UploadKind = Photo | Video

  /** The parameter an extra field becomes: a photo's "title" is sent as
      "message"; anything else, and every field of a video, is sent as it
      is. */
  function UploadField(kind: UploadKind, f: (string, string)): (string, string)
  {
    if kind == Photo && f.0 == "title" then ("message", f.1) else f
  }

  /** The extra fields of an upload as parameters, in the order the
      dictionary is walked. */
  function UploadFields(kind: UploadKind, fields: seq<(string, string)>): (r: seq<(string, string)>)
    ensures |r| == |fields|
    ensures forall i | 0 <= i < |r| :: r[i] == UploadField(kind, fields[i])
    ensures forall i | 0 <= i < |r| :: r[i].1 == fields[i].1
    ensures kind == Video ==> r == fields
    ensures kind == Photo ==> forall i | 0 <= i < |r| ::
              r[i].0 != "title" && (fields[i].0 != "title" ==> r[i].0 == fields[i].0)
  {
    if fields == [] then []
    else [UploadField(kind, fields[0])] + UploadFields(kind, fields[1..])
  }

  /** The loop of _upload_file that adds the extra fields to the call. */
  method AddUploadFields(kind: UploadKind, fields: seq<(string, string)>) returns (params: seq<(string, string)>)
    ensures params == UploadFields(kind, fields)
  {
    params := [];
    var i := 0;
    while i < |fields|
      invariant 0 <= i <= |fields|
      invariant |params| == i
      invariant forall k | 0 <= k < i :: params[k] == UploadField(kind, fields[k])
    {
      var key := fields[i].0;
      if kind != Video && key == "title" {
        key := "message";
      }
      params := params + [(key, fields[i].1)];
      i := i + 1;
    }
  }

  /** The call _upload_file sends (the file part aside): a photo goes to
      "me/photos" on the Graph proxy; a video goes to the video upload
      method on the video proxy, with the Graph proxy's access token and a
      JSON format before the extra fields. */
  function UploadCall(kind: UploadKind, fields: seq<(string, string)>, accessToken: string): (r: Outgoing)
    ensures r.Rest? && r.verb == "POST"
    ensures kind == Photo ==> r.endpoint == "me/photos" && r.params == UploadFields(Photo, fields)
    ensures kind == Video ==> r.endpoint == "restserver.php?method=video.upload" &&
                              r.params == [("access_token", accessToken), ("format", "json")] + fields
  {
    if kind == Photo then Rest("POST", "me/photos", UploadFields(Photo, fields))
    else Rest("POST", "restserver.php?method=video.upload",
              [("access_token", accessToken), ("format", "json")] + UploadFields(Video, fields))
  }

  // ---------------------------------------------------------------------
  // The service object

  /** A progress signal of an upload: its operation id, the percentage (-1
      for a failure) and a message. */
  datatype Progress = Progress(kind: UploadKind, opid: int, percent: int, message: string)

  class FacebookService {
    var inited: bool
    var online: bool
    /** The URL format of the Graph proxy and the base of the video proxy;
        NULL before initialisation creates them. */
    var proxyBase: Option<string>
    var videoBase: Option<string>
    var uid: Option<string>
    var displayName: Option<string>
    var profileUrl: Option<string>
    var picSquare: Option<string>
    /** Whether online_notify is registered with the online monitor. */
    var notifying: bool
    var signals: seq<ServiceSignal>
    var progress: seq<Progress>
    var sent: seq<Outgoing>
    /** OAuth2 token requests started through the keyfob. */
    var tokenRequests: nat

    /** The proxies exist exactly once the object is initialised, and a
        known user has a name and the square picture of that user. */
    ghost predicate Valid()
      reads this
    {
      (proxyBase.Some? <==> inited) && (videoBase.Some? <==> inited) &&
      (uid.Some? ==> inited && displayName.Some? && picSquare == Some(PictureUrl(proxyBase.value, uid.value, SquareSize)))
    }

    /** sw_service_facebook_init: not initialised, no user, nothing sent. */
    constructor ()
      ensures Valid() && !inited && !online && !notifying
      ensures uid.None? && displayName.None? && profileUrl.None? && picSquare.None?
      ensures signals == [] && progress == [] && sent == [] && tokenRequests == 0
    {
      inited := false;
      online := false;
      proxyBase := None;
      videoBase := None;
      uid := None;
      displayName := None;
      profileUrl := None;
      picSquare := None;
      notifying := false;
      signals := [];
      progress := [];
      sent := [];
      tokenRequests := 0;
    }

    /** sw_service_facebook_initable, with every failure reporting its error:
        on success the proxies are made from the keys file, the service goes
        online at once when the machine is online, and online changes are
        followed from then on; otherwise nothing changes. */
    method Init(apiKey: Option<string>, keys: KeysFile, isOnline: bool) returns (ok: bool, err: Option<InitError>)
      requires Valid()
      modifies this`inited, this`online, this`proxyBase, this`videoBase, this`notifying, this`tokenRequests
      ensures Valid()
      ensures (ok, err) == InitVerdict(old(inited), apiKey.Some?, keys)
      ensures old(inited) || !ok ==>
                inited == old(inited) && online == old(online) && proxyBase == old(proxyBase) &&
                videoBase == old(videoBase) && notifying == old(notifying) && tokenRequests == old(tokenRequests)
      ensures !old(inited) && ok ==>
                inited && notifying && proxyBase == keys.baseUri && videoBase == keys.baseVideoUri &&
                online == (old(online) || isOnline) &&
                tokenRequests == old(tokenRequests) + (if isOnline then 1 else 0)
    {
      if inited {
        return true, None;
      }
      if apiKey.None? {
        return false, Some(NoKeys);
      }
      if !keys.Complete() {
        return false, Some(IncompleteKeysFile);
      }
      proxyBase := keys.baseUri;
      videoBase := keys.baseVideoUri;
      inited := true;
      if isOnline {
        GoOnline();
      }
      notifying := true;
      return true, None;
    }

    /** online_notify (TRUE, …): online, and an OAuth2 token request. */
    method GoOnline()
      modifies this`online, this`tokenRequests
      ensures online && tokenRequests == old(tokenRequests) + 1
    {
      online := true;
      tokenRequests := tokenRequests + 1;
    }

    /** online_notify (FALSE, …): offline; the capabilities are emitted while
        the user is still known (so "configured" is announced), and only
        then is the user id cleared.  The name and the picture stay. */
    method GoOffline()
      requires Valid()
      modifies this`online, this`uid, this`signals
      ensures Valid()
      ensures !online && uid.None?
      ensures signals == old(signals) + [CapabilitiesChanged(DynamicCaps(old(uid), false))]
    {
      online := false;
      signals := signals + [CapabilitiesChanged(DynamicCaps(uid, online))];
      uid := None;
    }

    /** online_notify */
    method OnlineNotify(on: bool)
      requires Valid()
      modifies this`online, this`uid, this`signals, this`tokenRequests
      ensures Valid() && online == on
      ensures on ==> uid == old(uid) && signals == old(signals) && tokenRequests == old(tokenRequests) + 1
      ensures !on ==> uid.None? && tokenRequests == old(tokenRequests) &&
                      signals == old(signals) + [CapabilitiesChanged(DynamicCaps(old(uid), false))]
    {
      if on {
        GoOnline();
      } else {
        GoOffline();
      }
    }

    /** got_tokens_cb: an authorised proxy asks for the "me" object. */
    method GotTokens(authorised: bool)
      modifies this`sent
      ensures sent == old(sent) + (if authorised then [Rest("GET", "me", [])] else [])
    {
      if authorised {
        sent := sent + [Rest("GET", "me", [])];
      }
    }

    /** _facebook_extract_user_info on the object's fields. */
    method ExtractUserInfo(node: Json) returns (ok: bool)
      requires Valid() && inited
      modifies this`uid, this`displayName, this`profileUrl, this`picSquare
      ensures Valid()
      ensures UserInfo(uid, displayName, profileUrl, picSquare) == ExtractedUserInfo(node, proxyBase.value)
      ensures ok <==> uid.Some?
    {
      var info := ExtractedUserInfo(node, proxyBase.value);
      uid, displayName, profileUrl, picSquare := info.uid, info.displayName, info.profileUrl, info.picSquare;
      ok := uid.Some?;
    }

    /** got_user_info_cb: a failed call or an erroneous reply changes
        nothing; otherwise the user information is read and the capabilities
        are emitted. */
    method GotUserInfo(error: bool, code: int, payload: Parse)
      requires Valid() && inited
      modifies this`uid, this`displayName, this`profileUrl, this`picSquare, this`signals
      ensures Valid()
      ensures error || JsonFromCall(code, payload).Failed? ==>
                uid == old(uid) && displayName == old(displayName) && profileUrl == old(profileUrl) &&
                picSquare == old(picSquare) && signals == old(signals)
      ensures !error && JsonFromCall(code, payload).Root? ==>
                UserInfo(uid, displayName, profileUrl, picSquare) ==
                  ExtractedUserInfo(JsonFromCall(code, payload).root, proxyBase.value) &&
                signals == old(signals) + [CapabilitiesChanged(DynamicCaps(uid, online))]
    {
      if error {
        return;
      }
      var reply := JsonFromCall(code, payload);
      if reply.Failed? {
        return;
      }
      var _ := ExtractUserInfo(reply.root);
      signals := signals + [CapabilitiesChanged(DynamicCaps(uid, online))];
    }

    /** _credentials_updated_func: offline and online again (a new token
        request), with the picture cleared in between, then user-changed and
        the capabilities, which are empty since the user is gone until the
        "me" object comes back. */
    method Reconnect()
      requires Valid()
      modifies this`online, this`uid, this`picSquare, this`signals, this`tokenRequests
      ensures Valid()
      ensures online && uid.None? && picSquare.None?
      ensures tokenRequests == old(tokenRequests) + 1
      ensures signals == old(signals) + [CapabilitiesChanged(DynamicCaps(old(uid), false)), UserChanged, CapabilitiesChanged([])]
    {
      OnlineNotify(false);
      if picSquare.Some? {
        picSquare := None;
      }
      OnlineNotify(true);
      signals := signals + [UserChanged];
      signals := signals + [CapabilitiesChanged(DynamicCaps(uid, online))];
    }

    /** _facebook_avatar_request_avatar: the square picture is downloaded
        when it is known. */
    method RequestAvatar()
      modifies this`sent
      ensures sent == old(sent) + (if picSquare.Some? then [Download(picSquare.value)] else [])
    {
      if picSquare.Some? {
        sent := sent + [Download(picSquare.value)];
      }
    }

    /** _requested_avatar_downloaded_cb */
    method AvatarDownloaded(path: string)
      modifies this`signals
      ensures signals == old(signals) + [AvatarRetrieved(path)]
    {
      signals := signals + [AvatarRetrieved(path)];
    }

    /** _facebook_status_update_update_status: without a proxy nothing is
        sent; otherwise the message is posted to "me/feed". */
    method UpdateStatus(msg: string)
      modifies this`sent
      ensures sent == old(sent) + (if proxyBase.Some? then [Rest("POST", "me/feed", [("message", msg)])] else [])
    {
      if proxyBase.None? {
        return;
      }
      sent := sent + [Rest("POST", "me/feed", [("message", msg)])];
    }

    /** _update_status_cb */
    method StatusReplied(error: bool)
      modifies this`signals
      ensures signals == old(signals) + [StatusUpdated(!error)]
    {
      signals := signals + [StatusUpdated(!error)];
    }

    /** _upload_file and its D-Bus callers: without a proxy the operation id
        is -1 and no error is set; a file that cannot be mapped gives -1 and
        an error; otherwise the call is sent and the next operation id is
        returned. */
    method Upload(kind: UploadKind, fileReadable: bool, fields: seq<(string, string)>,
                  accessToken: string, opids: SwUtils.OpIdCounter) returns (opid: int, failed: bool)
      requires opids.Valid()
      modifies this`sent, opids
      ensures opids.Valid()
      ensures proxyBase.None? ==> opid == -1 && !failed && sent == old(sent) && opids.issued == old(opids.issued)
      ensures proxyBase.Some? && !fileReadable ==>
                opid == -1 && failed && sent == old(sent) && opids.issued == old(opids.issued)
      ensures proxyBase.Some? && fileReadable ==>
                !failed && sent == old(sent) + [UploadCall(kind, fields, accessToken)] &&
                opids.issued == old(opids.issued) + 1 && opid == SwUtils.OpId(old(opids.issued))
    {
      if proxyBase.None? {
        return -1, false;
      }
      if !fileReadable {
        return -1, true;
      }
      var params := AddUploadFields(kind, fields);
      if kind == Video {
        params := [("access_token", accessToken), ("format", "json")] + params;
      }
      var endpoint := if kind == Video then "restserver.php?method=video.upload" else "me/photos";
      sent := sent + [Rest("POST", endpoint, params)];
      opid := opids.Next();
      failed := false;
    }

    /** _upload_photo_cb and _upload_video_cb: -1 with the error's message,
        or 100 with an empty one. */
    method UploadReplied(kind: UploadKind, opid: int, error: Option<string>)
      modifies this`progress
      ensures progress == old(progress) +
                [if error.Some? then Progress(kind, opid, -1, error.value) else Progress(kind, opid, 100, "")]
    {
      if error.Some? {
        progress := progress + [Progress(kind, opid, -1, error.value)];
      } else {
        progress := progress + [Progress(kind, opid, 100, "")];
      }
    }
  }

  /** credentials_updated: when the machine is online every Facebook
      service reconnects; otherwise nothing happens. */
  method CredentialsUpdated(services: seq<FacebookService>, isOnline: bool)
    requires forall i, j | 0 <= i < j < |services| :: services[i] != services[j]
    requires forall k | 0 <= k < |services| :: services[k].Valid()
    modifies set k | 0 <= k < |services| :: services[k]
    ensures forall k | 0 <= k < |services| :: services[k].Valid()
    ensures forall k | 0 <= k < |services| ::
              if isOnline then
                services[k].online && services[k].uid.None? && services[k].picSquare.None? &&
                services[k].tokenRequests == old(services[k].tokenRequests) + 1 &&
                services[k].signals == old(services[k].signals) +
                  [CapabilitiesChanged(DynamicCaps(old(services[k].uid), false)), UserChanged, CapabilitiesChanged([])]
              else
                services[k].signals == old(services[k].signals) && services[k].uid == old(services[k].uid) &&
                services[k].tokenRequests == old(services[k].tokenRequests)
  {
    if !isOnline {
      return;
    }
    var i := 0;
    while i < |services|
      invariant 0 <= i <= |services|
      invariant forall k | 0 <= k < |services| :: services[k].Valid()
      invariant forall k | 0 <= k < i ::
                  services[k].online && services[k].uid.None? && services[k].picSquare.None? &&
                  services[k].tokenRequests == old(services[k].tokenRequests) + 1 &&
                  services[k].signals == old(services[k].signals) +
                    [CapabilitiesChanged(DynamicCaps(old(services[k].uid), false)), UserChanged, CapabilitiesChanged([])]
      invariant forall k | i <= k < |services| ::
                  services[k].signals == old(services[k].signals) && services[k].uid == old(services[k].uid) &&
                  services[k].tokenRequests == old(services[k].tokenRequests)
    {
      services[i].Reconnect();
      i := i + 1;
    }
  }

  /** Going offline leaves the picture of the last user: an avatar asked for
      afterwards is still downloaded, while the capabilities no longer offer
      one. */
  method AvatarAfterOffline(s: FacebookService)
    requires s.Valid() && s.uid.Some?
    modifies s
    ensures CanRequestAvatar !in DynamicCaps(s.uid, s.online)
    ensures s.sent == old(s.sent) + [Download(PictureUrl(old(s.proxyBase).value, old(s.uid).value, SquareSize))]
  {
    s.OnlineNotify(false);
    CapsMeaning(s.uid, s.online);
    s.RequestAvatar();
  }
}
