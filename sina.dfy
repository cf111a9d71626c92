/** The Sina microblog service (services/sina/sina.c): OAuth tokens come from
    the keyring whenever the daemon goes online, a verify_credentials call
    then gives the user id and avatar URL, and a known user id is what makes
    the credentials valid.  Views are opened for "feed" and "own"; status
    updates and avatar requests need the user id and the avatar URL. */
module Sina {
  import opened Wrappers
  import opened Adapters
  import opened AdapterViews

  /** The proxy's base URL, under which the keyring keeps the tokens. */
  const ApiUrl := "http://api.t.sina.com.cn/"

  const ValidQueries := ["feed", "own"]

  const StaticCaps := [CanVerifyCredentials, HasUpdateStatusIface, HasAvatarIface, HasBanishableIface,
                       HasQueryIface, CanUpdateStatus, CanRequestAvatar]

  /** get_dynamic_caps: a known user id gives the full set; otherwise the
      account is configured (tokens in the keyring, `configured`) or has no
      capabilities. */
  function DynamicCaps(userId: Option<string>, configured: bool): (r: seq<string>)
    ensures CredentialsValid in r <==> userId.Some?
    ensures CanUpdateStatus in r <==> userId.Some?
    ensures IsConfigured in r <==> userId.Some? || configured
  {
    assert IsConfigured[0] != CredentialsValid[0] && IsConfigured[1] != CanUpdateStatus[1];
    assert CredentialsValid[0] == CanUpdateStatus[0] && CredentialsValid[1] != CanUpdateStatus[1];
    if userId.Some? then [IsConfigured, CredentialsValid, CanUpdateStatus, CanRequestAvatar]
    else if configured then [IsConfigured]
    else []
  }

  /** xml_node_from_call: a failed status or a payload that does not parse
      gives nothing. */
  function NodeFromCall(code: int, parsed: Option<Xml>): (r: Option<Xml>)
    ensures r.Some? <==> 200 <= code < 300 && parsed.Some?
    ensures r.Some? ==> r == parsed
  {
    if 200 <= code < 300 then parsed else None
  }

  /** The call got_tokens_cb makes once the keyring has the tokens. */
  const VerifyCall := Rest("GET", "account/verify_credentials.xml", [])

  /** The call a status update makes. */
  function UpdateCall(msg: string): (r: Outgoing)
    ensures r.Rest? && r.verb == "POST" && r.params == [("status", msg)]
  {
    Rest("POST", "statuses/update.xml", [("status", msg)])
  }

  /** The service object: initialised or not, the user id and avatar URL
      the last verify_credentials reply gave, the queries views were opened
      for, what was sent (keyring lookups, calls, downloads) and the signals
      emitted. */
  class SinaService {
    var inited: bool
    var userId: Option<string>
    var imageUrl: Option<string>
    var views: seq<string>
    var sent: seq<Outgoing>
    var signals: seq<ServiceSignal>

    constructor ()
      ensures !inited && userId.None? && imageUrl.None? && views == [] && sent == [] && signals == []
    {
      inited := false;
      userId := None;
      imageUrl := None;
      views := [];
      sent := [];
      signals := [];
    }

    function Caps(configured: bool): seq<string>
      reads this
    {
      DynamicCaps(userId, configured)
    }

    /** online_notify: online, the keyring is asked for the tokens; offline,
        the user id and avatar URL are forgotten and the capabilities
        announced. */
    method OnlineNotify(online: bool, configured: bool)
      modifies this`userId, this`imageUrl, this`sent, this`signals
      ensures online ==>
                userId == old(userId) && imageUrl == old(imageUrl) &&
                sent == old(sent) + [KeyringLookup(ApiUrl)] && signals == old(signals)
      ensures !online ==>
                userId.None? && imageUrl.None? && sent == old(sent) &&
                signals == old(signals) + [CapabilitiesChanged(DynamicCaps(None, configured))]
    {
      if online {
        sent := sent + [KeyringLookup(ApiUrl)];
      } else {
        userId := None;
        imageUrl := None;
        signals := signals + [CapabilitiesChanged(Caps(configured))];
      }
    }

    /** got_tokens_cb: with tokens the credentials are verified; without,
        nothing happens. */
    method GotTokens(authorised: bool)
      modifies this`sent
      ensures sent == old(sent) + (if authorised then [VerifyCall] else [])
    {
      if authorised {
        sent := sent + [VerifyCall];
      }
    }

    /** got_user_cb: a failed call or a rejected reply changes nothing;
        otherwise the reply's id and profile image URL (NULL when missing or
        empty) are taken and the capabilities announced. */
    method GotUser(error: bool, code: int, parsed: Option<Xml>, configured: bool)
      modifies this`userId, this`imageUrl, this`signals
      ensures error || NodeFromCall(code, parsed).None? ==>
                userId == old(userId) && imageUrl == old(imageUrl) && signals == old(signals)
      ensures !error && NodeFromCall(code, parsed).Some? ==>
                userId == XmlChildValue(parsed.value, "id") &&
                imageUrl == XmlChildValue(parsed.value, "profile_image_url") &&
                signals == old(signals) + [CapabilitiesChanged(DynamicCaps(userId, configured))]
    {
      if error {
        return;
      }
      var root := NodeFromCall(code, parsed);
      if root.None? {
        return;
      }
      userId := XmlChildValue(root.value, "id");
      imageUrl := XmlChildValue(root.value, "profile_image_url");
      signals := signals + [CapabilitiesChanged(Caps(configured))];
    }

    /** refresh_credentials: offline, then online again. */
    method RefreshCredentials(configured: bool)
      modifies this`userId, this`imageUrl, this`sent, this`signals
      ensures userId.None? && imageUrl.None?
      ensures sent == old(sent) + [KeyringLookup(ApiUrl)]
      ensures signals == old(signals) + [CapabilitiesChanged(DynamicCaps(None, configured))]
    {
      OnlineNotify(false, configured);
      OnlineNotify(true, configured);
    }

    /** credentials_updated: the credentials are refreshed, and the user
        change and the capabilities announced. */
    method CredentialsUpdated(configured: bool)
      modifies this`userId, this`imageUrl, this`sent, this`signals
      ensures userId.None? && imageUrl.None?
      ensures sent == old(sent) + [KeyringLookup(ApiUrl)]
      ensures signals == old(signals) + [CapabilitiesChanged(DynamicCaps(None, configured)), UserChanged,
                                         CapabilitiesChanged(DynamicCaps(None, configured))]
    {
      RefreshCredentials(configured);
      signals := signals + [UserChanged, CapabilitiesChanged(Caps(configured))];
    }

    /** sw_service_sina_initable: an initialised service stays so; without
        an API key and secret it fails; otherwise it refreshes its
        credentials. */
    method Init(haveKeys: bool, configured: bool) returns (ok: bool)
      modifies this`inited, this`userId, this`imageUrl, this`sent, this`signals
      ensures ok <==> old(inited) || haveKeys
      ensures inited == ok
      ensures old(inited) || !haveKeys ==>
                userId == old(userId) && imageUrl == old(imageUrl) && sent == old(sent) && signals == old(signals)
      ensures !old(inited) && haveKeys ==>
                userId.None? && imageUrl.None? && sent == old(sent) + [KeyringLookup(ApiUrl)] &&
                signals == old(signals) + [CapabilitiesChanged(DynamicCaps(None, configured))]
    {
      if inited {
        return true;
      }
      if !haveKeys {
        return false;
      }
      RefreshCredentials(configured);
      inited := true;
      return true;
    }

    /** _sina_query_open_view: only "feed" and "own" open a view. */
    method QueryOpenView(query: string) returns (reply: OpenViewReply)
      modifies this`views
      ensures query in ValidQueries ==> reply == ViewOpened(query) && views == old(views) + [query]
      ensures query !in ValidQueries ==> reply == InvalidQuery(query) && views == old(views)
    {
      var valid := CheckQueryValidity(ValidQueries, query);
      if !valid {
        return InvalidQuery(query);
      }
      views := views + [query];
      reply := ViewOpened(query);
    }

    /** _sina_avatar_request_avatar: the avatar is downloaded when its URL
        is known. */
    method RequestAvatar()
      modifies this`sent
      ensures sent == old(sent) + (if imageUrl.Some? then [Download(imageUrl.value)] else [])
    {
      if imageUrl.Some? {
        sent := sent + [Download(imageUrl.value)];
      }
    }

    /** _sina_status_update_update_status: without a user id nothing is
        sent (and the request is not answered); otherwise the status is
        posted. */
    method UpdateStatus(msg: string) returns (answered: bool)
      modifies this`sent
      ensures answered <==> userId.Some?
      ensures sent == old(sent) + (if userId.Some? then [UpdateCall(msg)] else [])
    {
      if userId.None? {
        return false;
      }
      sent := sent + [UpdateCall(msg)];
      return true;
    }

    /** _update_status_cb: the outcome is announced. */
    method StatusUpdateDone(error: bool)
      modifies this`signals
      ensures signals == old(signals) + [StatusUpdated(!error)]
    {
      signals := signals + [StatusUpdated(!error)];
    }
  }

  /** Going offline takes the valid credentials away, and a status update
      after it sends nothing. */
  method OfflineStopsUpdates(s: SinaService, configured: bool, msg: string)
    modifies s
    ensures s.userId.None? && CredentialsValid !in s.Caps(configured)
    ensures s.sent == old(s.sent)
  {
    s.OnlineNotify(false, configured);
    var answered := s.UpdateStatus(msg);
  }

  /** A verify_credentials reply with a user id makes the credentials
      valid, and a status update then goes out. */
  method VerifiedUserCanUpdate(s: SinaService, root: Xml, configured: bool, msg: string)
    requires XmlChildValue(root, "id").Some?
    modifies s
    ensures CredentialsValid in s.Caps(configured)
    ensures s.sent == old(s.sent) + [UpdateCall(msg)]
  {
    s.GotUser(false, 200, Some(root), configured);
    var answered := s.UpdateStatus(msg);
  }
}
