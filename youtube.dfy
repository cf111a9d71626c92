/** The YouTube service (services/youtube/youtube.c): the account's user
    name and password come from the keyring, a ClientLogin request turns them
    into a user auth token whenever the daemon goes online, and the state of
    that token decides the capabilities.  Views are opened for "feed" and
    "own"; uploads default their category. */
module Youtube {
  import opened Wrappers
  import opened Adapters
  import opened AdapterViews

  const ValidQueries := ["feed", "own"]

  const StaticCaps := [CanVerifyCredentials, HasQueryIface, HasBanishableIface, HasVideoUploadIface]

  /** The credentials field: no answer yet (or offline), refused, accepted. */
  datatype Credentials = Offline | CredsInvalid | CredsValid

  /** get_dynamic_caps: valid or invalid credentials are configured and say
      which; offline, the service is configured when it has a user name and
      password. */
  function DynamicCaps(creds: Credentials, haveLogin: bool): (r: seq<string>)
    ensures CredentialsValid in r <==> creds == CredsValid
    ensures CredentialsInvalid in r <==> creds == CredsInvalid
    ensures IsConfigured in r <==> creds != Offline || haveLogin
  {
    assert IsConfigured[0] != CredentialsValid[0] && IsConfigured[0] != CredentialsInvalid[0];
    assert CredentialsValid[12] != CredentialsInvalid[12];
    match creds
    case CredsValid => [IsConfigured, CredentialsValid]
    case CredsInvalid => [IsConfigured, CredentialsInvalid]
    case Offline => if haveLogin then [IsConfigured] else []
  }

  // ---------------------------------------------------------------------
  // The ClientLogin reply

  /** The separators the reply is split at: '=' and newline. */
  predicate IsSeparator(c: char)
  {
    c == '=' || c == '\n'
  }

  predicate NoSeparator(t: string)
  {
    forall k | 0 <= k < |t| :: !IsSeparator(t[k])
  }

  /** The position of the first separator. */
  function FirstSeparator(s: string): (r: Option<nat>)
    ensures r.Some? ==> r.value < |s| && IsSeparator(s[r.value]) && NoSeparator(s[..r.value])
    ensures r.None? ==> NoSeparator(s)
  {
    if s == [] then None
    else if IsSeparator(s[0]) then Some(0)
    else match FirstSeparator(s[1..])
      case None => None
      case Some(i) =>
        assert s[..i + 1] == [s[0]] + s[1..][..i];
        Some(i + 1)
  }

  /** g_strsplit_set (s, "=\n", -1): the pieces between separators, empty
      ones included; an empty string gives no pieces. */
  function SplitSet(s: string): (r: seq<string>)
    ensures s == [] <==> r == []
    ensures forall i | 0 <= i < |r| :: NoSeparator(r[i])
  {
    if s == [] then [] else SplitSetPieces(s)
  }

  function SplitSetPieces(s: string): (r: seq<string>)
    ensures |r| >= 1
    ensures forall i | 0 <= i < |r| :: NoSeparator(r[i])
    decreases |s|
  {
    match FirstSeparator(s)
    case None => [s]
    case Some(i) => [s[..i]] + SplitSetPieces(s[i + 1..])
  }

  /** A piece without separators followed by a separator is split off. */
  lemma SplitAtSeparator(p: string, c: char, rest: string)
    requires NoSeparator(p) && IsSeparator(c)
    ensures SplitSetPieces(p + [c] + rest) == [p] + SplitSetPieces(rest)
  {
    var s := p + [c] + rest;
    FirstSeparatorAt(s, |p|);
    assert s[..|p|] == p && s[|p| + 1..] == rest;
  }

  lemma {:induction false} FirstSeparatorAt(s: string, i: nat)
    requires i < |s| && IsSeparator(s[i]) && NoSeparator(s[..i])
    ensures FirstSeparator(s) == Some(i)
  {
    if i > 0 {
      assert !IsSeparator(s[..i][0]);
      assert s[1..][..i - 1] == s[..i][1..];
      FirstSeparatorAt(s[1..], i - 1);
    }
  }

  /** The reply ClientLogin gives a valid login: the auth token and the
      YouTube user name, each on its own line after its key. */
  function LoginReply(auth: string, nickname: string): string
  {
    "Auth" + ['='] + auth + ['\n'] + "YouTubeUser" + ['='] + nickname + ['\n']
  }

  /** Two "key=value" lines split into the keys, their values, and the
      empty piece after the last newline. */
  lemma SplitTwoLines(k1: string, v1: string, k2: string, v2: string)
    requires NoSeparator(k1) && NoSeparator(v1) && NoSeparator(k2) && NoSeparator(v2)
    ensures SplitSet(k1 + ['='] + v1 + ['\n'] + k2 + ['='] + v2 + ['\n']) == [k1, v1, k2, v2, ""]
  {
    var tail := v2 + ['\n'] + "";
    var line2 := k2 + ['='] + tail;
    var rest := v1 + ['\n'] + line2;
    var whole := k1 + ['='] + rest;
    assert k1 + ['='] + v1 + ['\n'] + k2 + ['='] + v2 + ['\n'] == whole;
    assert SplitSetPieces("") == [""];
    SplitAtSeparator(v2, '\n', "");
    var p4 := SplitSetPieces(tail);
    assert p4 == [v2, ""];
    SplitAtSeparator(k2, '=', tail);
    var p3 := SplitSetPieces(line2);
    assert p3 == [k2] + p4;
    SplitAtSeparator(v1, '\n', line2);
    var p2 := SplitSetPieces(rest);
    assert p2 == [v1] + p3;
    SplitAtSeparator(k1, '=', rest);
    assert SplitSetPieces(whole) == [k1] + p2;
  }

  /** A login reply splits into the two keys, their values, and the empty
      piece after the last newline. */
  lemma SplitLoginReply(auth: string, nickname: string)
    requires NoSeparator(auth) && NoSeparator(nickname)
    ensures SplitSet(LoginReply(auth, nickname)) == ["Auth", auth, "YouTubeUser", nickname, ""]
  {
    KeysHaveNoSeparator("Auth", "YouTubeUser");
    SplitTwoLines("Auth", auth, "YouTubeUser", nickname);
  }

  lemma KeysHaveNoSeparator(a: string, y: string)
    requires a == "Auth" && y == "YouTubeUser"
    ensures NoSeparator(a) && NoSeparator(y)
  {
  }

  /** What _got_user_auth decides from the pieces of the reply: the auth
      token and nickname, a refusal, or (as written) a read past the end of
      the piece vector. */
  datatype AuthVerdict = Authorized(auth: string, nickname: Option<string>) | Refused | ReadsPastEnd

  /** tokens[i] of the NULL-terminated vector g_strsplit_set returns: a
      piece, or NULL at the terminator. */
  function TokenAt(tokens: seq<string>, i: nat): Option<string>
    requires i <= |tokens|
  {
    if i < |tokens| then Some(tokens[i]) else None
  }

  /** _got_user_auth as written: once tokens[0] is "Auth" it reads
      tokens[2] without checking that the vector is that long, and then the
      auth token and the nickname (NULL at the terminator). */
  function AuthAsWritten(tokens: seq<string>): (r: AuthVerdict)
    ensures r.ReadsPastEnd? <==> tokens == ["Auth"]
  {
    if TokenAt(tokens, 0) != Some("Auth") then Refused
    else if 2 > |tokens| then ReadsPastEnd
    else if TokenAt(tokens, 2) != Some("YouTubeUser") then Refused
    else Authorized(tokens[1], TokenAt(tokens, 3))
  }

  /** A reply that is just "Auth" makes the check read past the vector. */
  lemma BareAuthReadsPastEnd()
    ensures SplitSet("Auth") == ["Auth"]
    ensures AuthAsWritten(SplitSet("Auth")).ReadsPastEnd?
    ensures ParseAuth(SplitSet("Auth")) == Refused
  {
    assert FirstSeparator("Auth") == None by {
      assert NoSeparator("Auth");
    }
  }

  /** The check as intended: a piece past the vector is as missing as the
      terminator, so a short reply is refused. */
  function ParseAuth(tokens: seq<string>): (r: AuthVerdict)
    ensures !r.ReadsPastEnd?
    ensures r.Authorized? <==> |tokens| >= 3 && tokens[0] == "Auth" && tokens[2] == "YouTubeUser"
    ensures r.Authorized? ==> r.auth == tokens[1] && r.nickname == (if |tokens| > 3 then Some(tokens[3]) else None)
  {
    if |tokens| >= 3 && tokens[0] == "Auth" && tokens[2] == "YouTubeUser" then
      Authorized(tokens[1], TokenAt(tokens, 3))
    else Refused
  }

  /** The intended check decides as the written one wherever that one stays
      inside the vector. */
  lemma ParseAuthAgrees(tokens: seq<string>)
    requires !AuthAsWritten(tokens).ReadsPastEnd?
    ensures ParseAuth(tokens) == AuthAsWritten(tokens)
  {
  }

  /** A valid ClientLogin reply gives its auth token and user name. */
  lemma LoginReplyAuthorizes(auth: string, nickname: string)
    requires NoSeparator(auth) && NoSeparator(nickname)
    ensures ParseAuth(SplitSet(LoginReply(auth, nickname))) == Authorized(auth, Some(nickname))
  {
    SplitLoginReply(auth, nickname);
  }

  /** The ClientLogin request online_notify sends for a user name and
      password. */
  function LoginCall(username: string, password: string): (r: Outgoing)
    ensures r.Rest? && r.verb == "POST" && r.endpoint == "ClientLogin"
    ensures ("Email", username) in r.params && ("Passwd", password) in r.params
  {
    Rest("POST", "ClientLogin", [("Email", username), ("Passwd", password), ("service", "youtube"), ("source", "SUSE MeeGo")])
  }

  /** The native fields of an upload: the category defaults to "People",
      the other fields are passed as they are. */
  function UploadFields(native: map<string, string>): (r: map<string, string>)
    ensures "category" in r
    ensures r["category"] == if "category" in native then native["category"] else "People"
    ensures forall k | k != "category" :: (k in r <==> k in native) && (k in r ==> r[k] == native[k])
  {
    if "category" in native then native else native["category" := "People"]
  }

  // ---------------------------------------------------------------------
  // The service

  /** The service object: initialised or not, the credentials state, the
      account's user name and password, the auth token and nickname the last
      accepted login gave, the queries views were opened for, what was sent
      (keyring lookups and logins) and the signals emitted. */
  class YoutubeService {
    var inited: bool
    var credentials: Credentials
    var login: Option<(string, string)>
    var userAuth: Option<string>
    var nickname: Option<string>
    var views: seq<string>
    var sent: seq<Outgoing>
    var signals: seq<ServiceSignal>

    constructor ()
      ensures !inited && credentials == Offline && login.None? && userAuth.None? && nickname.None?
      ensures views == [] && sent == [] && signals == []
    {
      inited := false;
      credentials := Offline;
      login := None;
      userAuth := None;
      nickname := None;
      views := [];
      sent := [];
      signals := [];
    }

    function Caps(): seq<string>
      reads this
    {
      DynamicCaps(credentials, login.Some?)
    }

    /** online_notify: every notification first drops to offline; online
        with a login asks for an auth token, offline announces the
        capabilities. */
    method OnlineNotify(online: bool)
      modifies this`credentials, this`sent, this`signals
      ensures credentials == Offline
      ensures online && login.Some? ==>
                sent == old(sent) + [LoginCall(login.value.0, login.value.1)] && signals == old(signals)
      ensures online && login.None? ==> sent == old(sent) && signals == old(signals)
      ensures !online ==> sent == old(sent) && signals == old(signals) + [CapabilitiesChanged(Caps())]
    {
      credentials := Offline;
      if online {
        if login.Some? {
          sent := sent + [LoginCall(login.value.0, login.value.1)];
        }
      } else {
        signals := signals + [CapabilitiesChanged(Caps())];
      }
    }

    /** _got_user_auth: a failed call refuses the credentials; otherwise the
        reply's pieces decide (a refused reply keeps the token of an earlier
        login); the capabilities are announced. */
    method GotUserAuth(failed: bool, message: string)
      modifies this`credentials, this`userAuth, this`nickname, this`signals
      ensures failed ==> credentials == CredsInvalid && userAuth == old(userAuth) && nickname == old(nickname)
      ensures !failed ==>
                match ParseAuth(SplitSet(message))
                case Authorized(auth, nick) =>
                  credentials == CredsValid && userAuth == Some(auth) && nickname == nick
                case _ =>
                  credentials == CredsInvalid && userAuth == old(userAuth) && nickname == old(nickname)
      ensures signals == old(signals) + [CapabilitiesChanged(Caps())]
    {
      if failed {
        credentials := CredsInvalid;
      } else {
        var verdict := ParseAuth(SplitSet(message));
        if verdict.Authorized? {
          userAuth := Some(verdict.auth);
          nickname := verdict.nickname;
          credentials := CredsValid;
        } else {
          credentials := CredsInvalid;
        }
      }
      signals := signals + [CapabilitiesChanged(Caps())];
    }

    /** refresh_credentials: the keyring is asked for the www.youtube.com
        password. */
    method RefreshCredentials()
      modifies this`sent
      ensures sent == old(sent) + [KeyringLookup("www.youtube.com")]
    {
      sent := sent + [KeyringLookup("www.youtube.com")];
    }

    /** found_password_cb: a found password replaces the login and, when the
        daemon is online, reconnects (offline, then online again); no
        password clears the login and drops to offline.  The user change and
        the capabilities are announced either way. */
    method FoundPassword(found: Option<(string, string)>, online: bool)
      modifies this`login, this`credentials, this`sent, this`signals
      ensures login == found
      ensures found.None? || online ==> credentials == Offline
      ensures found.Some? && !online ==> credentials == old(credentials)
      ensures found.Some? && online ==>
                sent == old(sent) + [LoginCall(found.value.0, found.value.1)] &&
                signals == old(signals) + [CapabilitiesChanged(Caps()), UserChanged, CapabilitiesChanged(Caps())]
      ensures !(found.Some? && online) ==>
                sent == old(sent) && signals == old(signals) + [UserChanged, CapabilitiesChanged(Caps())]
    {
      login := found;
      if found.Some? {
        if online {
          OnlineNotify(false);
          OnlineNotify(true);
        }
      } else {
        credentials := Offline;
      }
      signals := signals + [UserChanged, CapabilitiesChanged(Caps())];
    }

    /** sw_service_youtube_initable: an initialised service stays so;
        without a developer key it fails; otherwise it starts offline and
        asks the keyring. */
    method Init(haveKey: bool) returns (ok: bool)
      modifies this`inited, this`credentials, this`sent
      ensures ok <==> old(inited) || haveKey
      ensures inited == ok
      ensures old(inited) || !haveKey ==> credentials == old(credentials) && sent == old(sent)
      ensures !old(inited) && haveKey ==>
                credentials == Offline && sent == old(sent) + [KeyringLookup("www.youtube.com")]
    {
      if inited {
        return true;
      }
      if !haveKey {
        return false;
      }
      credentials := Offline;
      RefreshCredentials();
      inited := true;
      return true;
    }

    /** _youtube_query_open_view: only "feed" and "own" open a view. */
    method QueryOpenView(query: string) returns (reply: OpenViewReply)
      modifies this`views
      ensures query in ValidQueries ==> reply == ViewOpened(query) && views == old(views) + [query]
      ensures query !in ValidQueries ==> reply == InvalidQuery(query) && views == old(views)
    {
      var valid := CheckQueryValidity(ValidQueries, query);
      if !valid {
        return InvalidQuery(query);
      }
      views := views + [query];
      reply := ViewOpened(query);
    }
  }

  /** Whatever the state before, a login that is accepted leaves the
      service with valid credentials and the reply's token, and says so. */
  method AcceptedLogin(s: YoutubeService, auth: string, nick: string)
    requires NoSeparator(auth) && NoSeparator(nick)
    modifies s
    ensures s.credentials == CredsValid && s.userAuth == Some(auth) && s.nickname == Some(nick)
    ensures CredentialsValid in s.Caps() && s.signals == old(s.signals) + [CapabilitiesChanged(s.Caps())]
  {
    LoginReplyAuthorizes(auth, nick);
    s.GotUserAuth(false, LoginReply(auth, nick));
  }
}
