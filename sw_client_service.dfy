/** The client-side handle on one daemon service (sw-client-service.c): the
    capability test, the lazily created per-interface D-Bus proxies, the display
    name read once from the service's key file, and the OpenView query call.
    The bus, the key file and the daemon's replies are inputs of the methods. */
module SwClientServices {
  import opened Wrappers

  /** The interfaces a service object may be reached through. */
  datatype Iface = ServiceIface | AvatarIface | QueryIface | StatusUpdateIface | BanishableIface

  function InterfaceName(i: Iface): string
  {
    match i
    case ServiceIface => "org.moblin.libsocialweb.Service"
    case AvatarIface => "org.moblin.libsocialweb.Avatar"
    case QueryIface => "org.moblin.libsocialweb.Query"
    case StatusUpdateIface => "org.moblin.libsocialweb.StatusUpdate"
    case BanishableIface => "org.moblin.libsocialweb.Banishable"
  }

  const BusName := "org.moblin.libsocialweb"

  /** SW_CLIENT_SERVICE_OBJECT with the service name substituted. */
  function ServicePath(serviceName: string): string
  {
    "/org/moblin/libsocialweb/Service/" + serviceName
  }

  /** A proxy: the bus name, object path and interface it talks to. */
  datatype Proxy = Proxy(busName: string, path: string, iface: string)

  /** The capabilities of a NULL-terminated string vector: the entries before
      the first NULL. */
  function BeforeTerminator(caps: seq<Option<string>>): (r: seq<string>)
    ensures |r| <= |caps|
    ensures forall k | 0 <= k < |r| :: caps[k] == Some(r[k])
    ensures |r| < |caps| ==> caps[|r|] == None
  {
    if caps == [] || caps[0] == None then [] else [caps[0].value] + BeforeTerminator(caps[1..])
  }

  /** sw_client_service_has_cap: a NULL vector has no capability; otherwise the
      entries are compared in turn up to the terminating NULL. */
  method HasCap(caps: Option<seq<Option<string>>>, cap: string) returns (b: bool)
    requires caps.Some? ==> None in caps.value
    ensures b <==> caps.Some? && cap in BeforeTerminator(caps.value)
  {
    if caps == None {
      return false;
    }
    var v := caps.value;
    ghost var names := BeforeTerminator(v);
    TerminatorReached(v);
    var i := 0;
    while v[i] != None
      invariant 0 <= i <= |names|
      invariant forall k | 0 <= k < i :: names[k] != cap
      decreases |names| - i
    {
      if v[i].value == cap {
        return true;
      }
      i := i + 1;
    }
    b := false;
  }

  /** A vector holding a NULL has its terminator just after the entries
      read before it. */
  lemma TerminatorReached(v: seq<Option<string>>)
    requires None in v
    ensures |BeforeTerminator(v)| < |v|
  {
    var k :| 0 <= k < |v| && v[k] == None;
    TerminatorBound(v, k);
  }

  /** Nothing is read at or after a NULL entry. */
  lemma {:induction false} TerminatorBound(v: seq<Option<string>>, k: nat)
    requires k < |v| && v[k] == None
    ensures |BeforeTerminator(v)| <= k
  {
    if v[0] != None {
      TerminatorBound(v[1..], k - 1);
    }
  }

  class ClientService {
    /** priv->name: set by the first successful proxy setup. */
    var name: string
    /** priv->proxies: an interface is present once its proxy exists. */
    var proxies: map<Iface, Proxy>
    var loadedInfo: bool
    var displayName: Option<string>
    /** The OpenView calls sent to the daemon: query and parameter table. */
    var openViewCalls: seq<(string, map<string, string>)>
    /** What each OpenView callback was handed: a view path, or NULL. */
    var openedViews: seq<Option<string>>

    constructor (serviceName: string)
      ensures name == serviceName && proxies == map[] && !loadedInfo && displayName == None
      ensures openViewCalls == [] && openedViews == []
    {
      name := serviceName;
      proxies := map[];
      loadedInfo := false;
      displayName := None;
      openViewCalls := [];
      openedViews := [];
    }

    /** _sw_client_service_setup_proxy_for_iface: an existing proxy is kept and
        nothing changes; without a bus connection the call fails and nothing
        changes; otherwise the name is recorded and the proxy for the service's
        object and the interface is created. */
    method SetupProxy(serviceName: string, iface: Iface, busAvailable: bool) returns (ok: bool)
      modifies this`name, this`proxies
      ensures iface in old(proxies) ==> ok && name == old(name) && proxies == old(proxies)
      ensures iface !in old(proxies) && !busAvailable ==>
                !ok && name == old(name) && proxies == old(proxies)
      ensures iface !in old(proxies) && busAvailable ==>
                ok && name == serviceName &&
                proxies == old(proxies)[iface := Proxy(BusName, ServicePath(serviceName), InterfaceName(iface))]
      ensures ok <==> iface in proxies
    {
      if iface in proxies {
        return true;
      }
      if !busAvailable {
        return false;
      }
      name := serviceName;
      proxies := proxies[iface := Proxy(BusName, ServicePath(serviceName), InterfaceName(iface))];
      ok := true;
    }

    /** load_info: the "Name" entry of the service's key file is read the first
        time only. */
    method LoadInfo(nameInKeyFile: Option<string>)
      modifies this`loadedInfo, this`displayName
      ensures loadedInfo
      ensures displayName == if old(loadedInfo) then old(displayName) else nameInKeyFile
    {
      if !loadedInfo {
        displayName := nameInKeyFile;
        loadedInfo := true;
      }
    }

    /** sw_client_service_get_display_name. */
    method GetDisplayName(nameInKeyFile: Option<string>) returns (r: Option<string>)
      modifies this`loadedInfo, this`displayName
      ensures loadedInfo && r == displayName
      ensures r == if old(loadedInfo) then old(displayName) else nameInKeyFile
    {
      LoadInfo(nameInKeyFile);
      r := displayName;
    }

    /** sw_client_service_query_open_view: after setting up the Query proxy
        (giving up if that fails), the call is sent with the caller's parameter
        table, or an empty table when there is none. */
    method QueryOpenView(query: string, params: Option<map<string, string>>, busAvailable: bool)
      modifies this`name, this`proxies, this`openViewCalls
      ensures QueryIface in proxies <==> QueryIface in old(proxies) || busAvailable
      ensures QueryIface in proxies ==>
                openViewCalls == old(openViewCalls) + [(query, params.GetOr(map[]))]
      ensures QueryIface !in proxies ==> openViewCalls == old(openViewCalls)
    {
      var ok := SetupProxy(name, QueryIface, busAvailable);
      if !ok {
        return;
      }
      var table := if params.Some? then params.value else map[];
      openViewCalls := openViewCalls + [(query, table)];
    }

    /** _query_open_view_cb: an error reply hands the callback no view; a path
        hands it the view for that path. */
    method OpenViewReplied(viewPath: Option<string>)
      modifies this`openedViews
      ensures openedViews == old(openedViews) + [viewPath]
    {
      openedViews := openedViews + [viewPath];
    }
  }

  /** Asking for a proxy twice creates it once: the second call changes
      nothing, whatever the bus does. */
  method SetupTwice(s: ClientService, serviceName: string, iface: Iface, bus1: bool, bus2: bool)
    returns (ok1: bool, ok2: bool)
    modifies s
    ensures ok1 ==> ok2
    ensures ok1 ==> iface in s.proxies && s.proxies == old(s.proxies)[iface := s.proxies[iface]]
  {
    ok1 := s.SetupProxy(serviceName, iface, bus1);
    ghost var between := s.proxies;
    ok2 := s.SetupProxy(serviceName, iface, bus2);
    assert ok1 ==> s.proxies == between;
  }

  /** The display name is read once: a second read returns the first answer
      whatever the key file now says. */
  method DisplayNameTwice(s: ClientService, first: Option<string>, second: Option<string>)
    returns (r1: Option<string>, r2: Option<string>)
    modifies s
    ensures r1 == r2
    ensures !old(s.loadedInfo) ==> r1 == first
  {
    r1 := s.GetDisplayName(first);
    r2 := s.GetDisplayName(second);
  }

  /** A vector holding the capability after the terminator does not have it. */
  lemma AfterTerminatorIgnored()
    ensures BeforeTerminator([Some("a"), None, Some("b")]) == ["a"]
  {
  }
}
