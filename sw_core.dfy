/** SwCore: the daemon's root object.  It keeps the service types the loaded
    modules provide, a cache of service instances keyed by name and parameter
    hash, the set of banned item ids, and the list of open views.  OpenView
    parses each requested service spec `name:k=v,k=v` into a name and a
    parameter map and attaches the matching service instance to a new view. */
module SwCore {
  import opened Wrappers
  import opened SwItems
  import Strs
  import GLists
  import SwSets

  /** The key and value a token sets: the text before and after its first
      '=', or nothing when it has none (an empty token included). */
  function Token(t: string): (r: Option<(string, string)>)
    ensures r.Some? ==> t == r.value.0 + "=" + r.value.1 && '=' !in r.value.0
    ensures r.None? ==> '=' !in t
  {
    if t != [] && |Strs.SplitFirst(t, '=')| == 2 then
      var nv := Strs.SplitFirst(t, '=');
      Some((nv[0], nv[1]))
    else None
  }

  /** The parameter map make_param_hash produces for a list of comma-separated
      tokens: each token is inserted in turn, a later one overriding an earlier
      one with the same key. */
  function Params(tokens: seq<string>): map<string, string>
  {
    if tokens == [] then map[]
    else
      var before := Params(tokens[..|tokens| - 1]);
      match Token(tokens[|tokens| - 1])
      case Some((k, v)) => before[k := v]
      case None => before
  }

  /** A key is set exactly when some token names it. */
  lemma {:induction false} ParamsKeys(tokens: seq<string>, k: string)
    ensures k in Params(tokens) <==> exists j | 0 <= j < |tokens| :: Token(tokens[j]).Some? && Token(tokens[j]).value.0 == k
  {
    if tokens != [] {
      var n := |tokens| - 1;
      var init := tokens[..n];
      ParamsKeys(init, k);
      assert forall j | 0 <= j < n :: init[j] == tokens[j];
    }
  }

  /** The value of a key is the one its last token gives. */
  lemma {:induction false} ParamsLastWins(tokens: seq<string>, j: nat, k: string, v: string)
    requires j < |tokens| && Token(tokens[j]) == Some((k, v))
    requires forall j' | j < j' < |tokens| :: Token(tokens[j']).None? || Token(tokens[j']).value.0 != k
    ensures k in Params(tokens) && Params(tokens)[k] == v
  {
    var n := |tokens| - 1;
    var init := tokens[..n];
    if j < n {
      assert forall j' | j < j' < n :: init[j'] == tokens[j'];
      ParamsLastWins(init, j, k, v);
    }
  }

  /** One more token: the map so far, with the token's pair inserted when it
      has one. */
  lemma ParamsStep(tokens: seq<string>, i: nat)
    requires i < |tokens|
    ensures Params(tokens[..i + 1]) ==
              if Token(tokens[i]).Some? then Params(tokens[..i])[Token(tokens[i]).value.0 := Token(tokens[i]).value.1]
              else Params(tokens[..i])
  {
    assert tokens[..i + 1][..i] == tokens[..i];
  }

  /** make_param_hash: NULL gives an empty map; otherwise the string is split at
      every ',' and the tokens are inserted in turn, each split at its first
      '='. */
  method MakeParamHash(s: Option<string>) returns (h: map<string, string>)
    ensures s.None? ==> h == map[]
    ensures s.Some? ==> h == Params(Strs.Split(s.value, ','))
  {
    h := map[];
    if s.Some? {
      var tokens := Strs.Split(s.value, ',');
      var i := 0;
      while i < |tokens|
        invariant 0 <= i <= |tokens|
        invariant h == Params(tokens[..i])
      {
        var t := tokens[i];
        ParamsStep(tokens, i);
        if t != [] {
          var nv := Strs.SplitFirst(t, '=');
          if |nv| == 2 {
            h := h[nv[0] := nv[1]];
          }
        }
        i := i + 1;
      }
      assert tokens[..i] == tokens;
    }
  }

  /** Two pieces joined by one separator split back into the two. */
  lemma SplitTwo(a: string, b: string, sep: char)
    requires sep !in a && sep !in b && b != []
    ensures Strs.Split(a + [sep] + b, sep) == [a, b]
  {
    var s := a + [sep] + b;
    Strs.IndexAfter(a, b, sep);
    assert s[..|a|] == a && s[|a| + 1..] == b;
    assert Strs.IndexOf(b, sep) == None;
    assert Strs.SplitPieces(b, sep) == [b];
    assert Strs.SplitPieces(s, sep) == [a] + Strs.SplitPieces(b, sep);
  }

  /** A token "k=v" whose key holds no '=' is read as k and v. */
  lemma TokenOf(k: string, v: string)
    requires '=' !in k
    ensures Token(k + ['='] + v) == Some((k, v))
  {
    var t := k + ['='] + v;
    Strs.IndexAfter(k, v, '=');
    assert t[..|k|] == k && t[|k| + 1..] == v;
  }

  /** Two tokens give a map of their two pairs. */
  lemma ParamsOfTwo(t1: string, t2: string, k1: string, v1: string, k2: string, v2: string)
    requires Token(t1) == Some((k1, v1)) && Token(t2) == Some((k2, v2))
    ensures Params([t1, t2]) == map[k1 := v1, k2 := v2]
  {
    assert [t1, t2][..1] == [t1];
    assert [t1][..0] == [];
    assert Params([t1]) == map[k1 := v1];
  }

  /** "k1=v1,k2=v2" maps each key to its value, when the keys hold no '='
      and no piece holds a ','. */
  lemma TwoParams(k1: string, v1: string, k2: string, v2: string)
    requires '=' !in k1 && '=' !in k2
    requires ',' !in k1 && ',' !in v1 && ',' !in k2 && ',' !in v2
    ensures Params(Strs.Split(k1 + "=" + v1 + "," + k2 + "=" + v2, ',')) == map[k1 := v1, k2 := v2]
  {
    var t1, t2 := k1 + ['='] + v1, k2 + ['='] + v2;
    assert k1 + "=" + v1 + "," + k2 + "=" + v2 == t1 + [','] + t2;
    SplitTwo(t1, t2, ',');
    TokenOf(k1, v1);
    TokenOf(k2, v2);
    ParamsOfTwo(t1, t2, k1, v1, k2, v2);
  }

  /** Only the first '=' splits: "a=b=c" maps a to "b=c". */
  lemma ValueKeepsEquals()
    ensures Params(["a=b=c"]) == map["a" := "b=c"]
  {
    assert Strs.IndexOf("a=b=c", '=') == Some(1);
    assert "a=b=c"[..1] == "a" && "a=b=c"[2..] == "b=c";
    assert ["a=b=c"][..0] == [];
  }

  /** A service spec split at its first ':' into the service name and the
      parameter string, which is NULL when there is no ':'. */
  function SpecName(spec: string): string
    requires spec != []
  {
    Strs.SplitFirst(spec, ':')[0]
  }

  function SpecParams(spec: string): Option<string>
    requires spec != []
  {
    var parts := Strs.SplitFirst(spec, ':');
    if |parts| == 2 then Some(parts[1]) else None
  }

  /** The name and the parameters re-joined give the spec back, and the name
      holds no ':'. */
  lemma SpecSplitsAtFirstColon(spec: string)
    requires spec != []
    ensures ':' !in SpecName(spec)
    ensures SpecParams(spec).None? ==> SpecName(spec) == spec
    ensures SpecParams(spec).Some? ==> spec == SpecName(spec) + ":" + SpecParams(spec).value
  {
  }

  /** An SwService instance made by the core for a name and parameters. */
  class ServiceInstance {
    const name: string
    const params: map<string, string>

    constructor (name: string, params: map<string, string>)
      ensures this.name == name && this.params == params
    {
      this.name := name;
      this.params := params;
    }
  }

  /** A view opened for a client: the services that were found for its specs,
      each with the parameters it was asked for (sw_view_add_service). */
  class OpenedView {
    const count: nat
    var services: seq<(ServiceInstance, map<string, string>)>

    constructor (count: nat)
      ensures this.count == count && services == []
    {
      this.count := count;
      services := [];
    }
  }

  /** The active_services key: name, '-' and the parameter hash. */
  function ServiceKey(name: string, paramHash: string): string {
    name + "-" + paramHash
  }

  class Core {
    /** service_types: the names the loaded modules registered. */
    const serviceTypes: set<string>
    /** sw_hash_string_dict on a parameter map (MD5 is foreign). */
    const dictHash: map<string, string> -> string
    /** Whether g_initable_init succeeds for a new instance (foreign). */
    const initSucceeds: (string, map<string, string>) -> bool
    var activeServices: map<string, ServiceInstance>
    var bannedUids: set<string>
    /** The ban list as last written to disk (sw_ban_save). */
    var savedBans: set<string>
    var views: seq<OpenedView>
    /** The views told to recalculate, in order (sw_view_recalculate). */
    var recalculated: seq<OpenedView>

    constructor (types: set<string>, dictHash: map<string, string> -> string,
                 initSucceeds: (string, map<string, string>) -> bool, bans: set<string>)
      ensures serviceTypes == types && this.dictHash == dictHash && this.initSucceeds == initSucceeds
      ensures activeServices == map[] && bannedUids == bans && savedBans == bans
      ensures views == [] && recalculated == []
    {
      serviceTypes := types;
      this.dictHash := dictHash;
      this.initSucceeds := initSucceeds;
      activeServices := map[];
      bannedUids := bans;
      savedBans := bans;
      views := [];
      recalculated := [];
    }

    /** get_service: the cached instance for the same name and parameter hash;
        otherwise a new instance, cached, when the name is a known type and the
        instance initialises; otherwise NULL and nothing is cached. */
    method GetService(name: string, params: map<string, string>) returns (s: ServiceInstance?)
      modifies this`activeServices
      ensures var key := ServiceKey(name, dictHash(params));
              if key in old(activeServices) then
                s == old(activeServices)[key] && activeServices == old(activeServices)
              else if name !in serviceTypes || !initSucceeds(name, params) then
                s == null && activeServices == old(activeServices)
              else
                s != null && fresh(s) && s.name == name && s.params == params &&
                activeServices == old(activeServices)[key := s]
    {
      var key := ServiceKey(name, dictHash(params));
      if key in activeServices {
        s := activeServices[key];
        return;
      }
      if name !in serviceTypes {
        s := null;
        return;
      }
      if !initSucceeds(name, params) {
        s := null;
        return;
      }
      s := new ServiceInstance(name, params);
      activeServices := activeServices[key := s];
    }

    /** service_destroy_notify: a destroyed instance leaves the cache. */
    method ServiceDestroyed(key: string)
      modifies this`activeServices
      ensures activeServices == old(activeServices) - {key}
    {
      activeServices := activeServices - {key};
    }

    /** What get_service does for a name and parameters, holding the cache
        before and leaving the cache after: s is the cached instance for the
        same name and parameter hash; otherwise, for a known type whose instance
        initialises, a new instance for them, cached; otherwise NULL and the
        cache is left alone. */
    ghost predicate GotService(before: map<string, ServiceInstance>, after: map<string, ServiceInstance>,
                               name: string, params: map<string, string>, s: ServiceInstance?)
    {
      var key := ServiceKey(name, dictHash(params));
      if key in before then s == before[key] && after == before
      else if name !in serviceTypes || !initSucceeds(name, params) then s == null && after == before
      else s != null && s.name == name && s.params == params && after == before[key := s]
    }

    /** open_view: a new view for count items; each spec is split at its first
        ':' into a name and parameters, and the service get_service finds for
        them is added to the view; an unknown service is skipped.  The view is
        put at the head of the view list.  found[i] is what get_service returned
        for specs[i] and caches[i] the service cache before it was asked: the
        view holds exactly the found services with their parameters, in the
        order of the specs. */
    method OpenView(specs: seq<string>, count: nat)
      returns (view: OpenedView, ghost found: seq<ServiceInstance?>, ghost caches: seq<map<string, ServiceInstance>>)
      requires forall i | 0 <= i < |specs| :: specs[i] != []
      modifies this`activeServices, this`views
      ensures fresh(view) && view.count == count
      ensures views == [view] + old(views)
      ensures |found| == |specs| && |caches| == |specs| + 1
      ensures caches[0] == old(activeServices) && caches[|specs|] == activeServices
      ensures forall i | 0 <= i < |specs| ::
                GotService(caches[i], caches[i + 1], SpecName(specs[i]), SpecParamTable(specs[i]), found[i])
      ensures view.services == FoundServices(found, specs)
      ensures |view.services| <= |specs|
      ensures forall j | 0 <= j < |view.services| ::
                RequestedByOne(activeServices, dictHash, view.services[j], specs)
    {
      view := new OpenedView(count);
      ghost var from;
      found, caches, from := LookUpSpecs(view, specs);
      views := [view] + views;
      AllRequestedByOne(activeServices, dictHash, view.services, specs, from);
    }

    /** open_view's loop over the specs: each spec's service is looked up in
        turn and, when found, added to the view; from[j] is the spec that asked
        for the j-th service of the view. */
    method LookUpSpecs(view: OpenedView, specs: seq<string>)
      returns (ghost found: seq<ServiceInstance?>, ghost caches: seq<map<string, ServiceInstance>>, ghost from: seq<nat>)
      requires forall i | 0 <= i < |specs| :: specs[i] != []
      requires view.services == []
      modifies this`activeServices, view`services
      ensures |found| == |specs| && |caches| == |specs| + 1
      ensures caches[0] == old(activeServices) && caches[|specs|] == activeServices
      ensures GotChain(caches, found, specs)
      ensures view.services == FoundServices(found, specs)
      ensures |from| <= |specs| && AllRequested(activeServices, dictHash, view.services, specs, from)
    {
      found := [];
      caches := [activeServices];
      from := [];
      ghost var start := activeServices;
      var i := 0;
      while i < |specs|
        invariant i <= |specs| && LookedUp(start, activeServices, view.services, found, caches, from, specs, i)
      {
        found, caches, from := LookUpNext(view, specs, i, start, found, caches, from);
        i := i + 1;
      }
      assert specs[..i] == specs;
    }

    /** The state of open_view's loop after the first i specs: found and
        caches record the lookups so far, the view holds what they found, and
        every service in it was requested by the spec from names. */
    ghost predicate LookedUp(start: map<string, ServiceInstance>, active: map<string, ServiceInstance>,
                             services: seq<(ServiceInstance, map<string, string>)>,
                             found: seq<ServiceInstance?>, caches: seq<map<string, ServiceInstance>>,
                             from: seq<nat>, specs: seq<string>, i: nat)
      requires forall i | 0 <= i < |specs| :: specs[i] != []
    {
      i <= |specs| && |found| == i && |caches| == i + 1 &&
      caches[0] == start && caches[i] == active &&
      GotChain(caches, found, specs) &&
      services == FoundServices(found, specs[..i]) &&
      |from| <= i && AllRequested(active, dictHash, services, specs, from)
    }

    /** One turn of open_view's loop, with its bookkeeping. */
    method LookUpNext(view: OpenedView, specs: seq<string>, i: nat, ghost start: map<string, ServiceInstance>,
                      ghost found: seq<ServiceInstance?>, ghost caches: seq<map<string, ServiceInstance>>,
                      ghost from: seq<nat>)
      returns (ghost found': seq<ServiceInstance?>, ghost caches': seq<map<string, ServiceInstance>>,
               ghost from': seq<nat>)
      requires forall i | 0 <= i < |specs| :: specs[i] != []
      requires i < |specs| && LookedUp(start, activeServices, view.services, found, caches, from, specs, i)
      modifies this`activeServices, view`services
      ensures LookedUp(start, activeServices, view.services, found', caches', from', specs, i + 1)
    {
      ghost var before, held := activeServices, view.services;
      var service := AddFound(view, specs[i]);
      RequestedKept(before, activeServices, dictHash, held, specs, from);
      GotChainSnoc(caches, found, specs, activeServices, service);
      SwSets.TakeSnoc(specs, i);
      FoundServicesSnoc(found, specs[..i], service, specs[i]);
      from' := from;
      if service != null {
        AllRequestedSnoc(activeServices, dictHash, held, specs, from, (service, SpecParamTable(specs[i])), i);
        from' := from + [i];
      }
      found' := found + [service];
      caches' := caches + [activeServices];
    }

    /** The first |found| lookups of specs, in order: found[j] is what
        get_service returned for specs[j], moving the cache from caches[j] to
        caches[j + 1]. */
    ghost predicate GotChain(caches: seq<map<string, ServiceInstance>>, found: seq<ServiceInstance?>, specs: seq<string>)
      requires forall i | 0 <= i < |specs| :: specs[i] != []
    {
      |caches| == |found| + 1 && |found| <= |specs| &&
      forall j | 0 <= j < |found| ::
        GotService(caches[j], caches[j + 1], SpecName(specs[j]), SpecParamTable(specs[j]), found[j])
    }

    lemma GotChainSnoc(caches: seq<map<string, ServiceInstance>>, found: seq<ServiceInstance?>, specs: seq<string>,
                       after: map<string, ServiceInstance>, s: ServiceInstance?)
      requires forall i | 0 <= i < |specs| :: specs[i] != []
      requires GotChain(caches, found, specs) && |found| < |specs|
      requires GotService(caches[|found|], after, SpecName(specs[|found|]), SpecParamTable(specs[|found|]), s)
      ensures GotChain(caches + [after], found + [s], specs)
    {
      var c, f := caches + [after], found + [s];
      forall j | 0 <= j < |f|
        ensures GotService(c[j], c[j + 1], SpecName(specs[j]), SpecParamTable(specs[j]), f[j])
      {
        if j < |found| {
          assert GotService(caches[j], caches[j + 1], SpecName(specs[j]), SpecParamTable(specs[j]), found[j]);
          assert c[j] == caches[j] && c[j + 1] == caches[j + 1] && f[j] == found[j];
        } else {
          assert c[j] == caches[|found|] && c[j + 1] == after && f[j] == s;
        }
      }
    }

    /** One turn of open_view's loop: the spec's service is looked up and, when
        found, added to the view with the spec's parameters.  Entries already
        in the cache stay. */
    method AddFound(view: OpenedView, spec: string) returns (service: ServiceInstance?)
      requires spec != []
      modifies this`activeServices, view`services
      ensures GotService(old(activeServices), activeServices, SpecName(spec), SpecParamTable(spec), service)
      ensures view.services == old(view.services) + (if service != null then [(service, SpecParamTable(spec))] else [])
      ensures forall k | k in old(activeServices) :: k in activeServices && activeServices[k] == old(activeServices)[k]
      ensures service != null ==> Requested(activeServices, dictHash, (service, SpecParamTable(spec)), spec)
    {
      var name := SpecName(spec);
      var params := MakeParamHash(SpecParams(spec));
      service := GetService(name, params);
      if service != null {
        view.services := view.services + [(service, params)];
      }
    }

    /** view_weak_notify_list: a destroyed view leaves the view list. */
    method ViewDestroyed(view: OpenedView)
      modifies this`views
      ensures views == GLists.RemoveFirst(old(views), view)
    {
      views := GLists.RemoveFirst(views, view);
    }

    /** core_hide_item: the id joins the ban list, every open view is told to
        recalculate, and the ban list is saved. */
    method HideItem(uid: string)
      modifies this`bannedUids, this`recalculated, this`savedBans
      ensures bannedUids == old(bannedUids) + {uid}
      ensures recalculated == old(recalculated) + views
      ensures savedBans == bannedUids
    {
      bannedUids := bannedUids + {uid};
      recalculated := recalculated + views;
      savedBans := bannedUids;
    }

    /** sw_core_is_item_banned: the item's id is on the ban list.  The ban
        table hashes the id as a string, so the item must have one. */
    function IsItemBanned(item: Item): (b: bool)
      reads this
      requires item.Get("id").Some?
      ensures b <==> ItemId(item) in bannedUids
    {
      item.Get("id").value in bannedUids
    }
  }

  /** The entry a view holds for a spec: the instance cached under the spec's
      name and parameter hash, with the spec's parameters. */
  ghost predicate Requested(active: map<string, ServiceInstance>, dictHash: map<string, string> -> string,
                            entry: (ServiceInstance, map<string, string>), spec: string)
    requires spec != []
  {
    var params := Params(SplitParams(SpecParams(spec)));
    var key := ServiceKey(SpecName(spec), dictHash(params));
    entry.1 == params && key in active && active[key] == entry.0
  }

  /** The entry is the one requested by some spec of the list. */
  ghost predicate RequestedByOne(active: map<string, ServiceInstance>, dictHash: map<string, string> -> string,
                                 entry: (ServiceInstance, map<string, string>), specs: seq<string>)
  {
    exists n | 0 <= n < |specs| && specs[n] != [] :: Requested(active, dictHash, entry, specs[n])
  }

  /** A lookup only adds to the service cache, so entries requested before
      stay requested. */
  lemma RequestedKept(before: map<string, ServiceInstance>, after: map<string, ServiceInstance>,
                      dictHash: map<string, string> -> string,
                      es: seq<(ServiceInstance, map<string, string>)>, specs: seq<string>, from: seq<nat>)
    requires forall k | k in before :: k in after && after[k] == before[k]
    requires AllRequested(before, dictHash, es, specs, from)
    ensures AllRequested(after, dictHash, es, specs, from)
  {
  }

  /** Every entry es[j] was requested by the spec specs[from[j]]. */
  ghost predicate AllRequested(active: map<string, ServiceInstance>, dictHash: map<string, string> -> string,
                               es: seq<(ServiceInstance, map<string, string>)>, specs: seq<string>, from: seq<nat>)
  {
    |es| == |from| &&
    forall j | 0 <= j < |from| ::
      from[j] < |specs| && specs[from[j]] != [] && Requested(active, dictHash, es[j], specs[from[j]])
  }

  lemma AllRequestedSnoc(active: map<string, ServiceInstance>, dictHash: map<string, string> -> string,
                         es: seq<(ServiceInstance, map<string, string>)>, specs: seq<string>, from: seq<nat>,
                         e: (ServiceInstance, map<string, string>), i: nat)
    requires AllRequested(active, dictHash, es, specs, from)
    requires i < |specs| && specs[i] != [] && Requested(active, dictHash, e, specs[i])
    ensures AllRequested(active, dictHash, es + [e], specs, from + [i])
  {
    var es', from' := es + [e], from + [i];
    forall j | 0 <= j < |from'|
      ensures from'[j] < |specs| && specs[from'[j]] != [] && Requested(active, dictHash, es'[j], specs[from'[j]])
    {
      if j < |from| {
        assert es'[j] == es[j] && from'[j] == from[j];
      }
    }
  }

  lemma AllRequestedByOne(active: map<string, ServiceInstance>, dictHash: map<string, string> -> string,
                          es: seq<(ServiceInstance, map<string, string>)>, specs: seq<string>, from: seq<nat>)
    requires AllRequested(active, dictHash, es, specs, from)
    ensures forall j | 0 <= j < |es| :: RequestedByOne(active, dictHash, es[j], specs)
  {
    forall j | 0 <= j < |es|
      ensures RequestedByOne(active, dictHash, es[j], specs)
    {
      assert Requested(active, dictHash, es[j], specs[from[j]]);
    }
  }

  /** The parameter table a spec asks for: make_param_hash of the text after
      its first ':'. */
  function SpecParamTable(spec: string): map<string, string>
    requires spec != []
  {
    var p := SpecParams(spec);
    if p.None? then map[] else Params(Strs.Split(p.value, ','))
  }

  /** The services found for the specs, each with the parameters its spec asks
      for, in the order of the specs; a spec whose service was not found
      contributes nothing. */
  function FoundServices(found: seq<ServiceInstance?>, specs: seq<string>): seq<(ServiceInstance, map<string, string>)>
    requires |found| == |specs| && forall i | 0 <= i < |specs| :: specs[i] != []
  {
    if found == [] then []
    else
      var n := |found| - 1;
      FoundServices(found[..n], specs[..n])
      + (if found[n] != null then [(found[n], SpecParamTable(specs[n]))] else [])
  }

  lemma FoundServicesSnoc(found: seq<ServiceInstance?>, specs: seq<string>, s: ServiceInstance?, spec: string)
    requires |found| == |specs| && spec != [] && forall i | 0 <= i < |specs| :: specs[i] != []
    ensures FoundServices(found + [s], specs + [spec]) ==
              FoundServices(found, specs) + (if s != null then [(s, SpecParamTable(spec))] else [])
  {
    assert (found + [s])[..|found|] == found;
    assert (specs + [spec])[..|specs|] == specs;
  }

  /** Every entry of the view is the service found for some spec, with that
      spec's parameters. */
  lemma {:induction false} FoundServicesSound(found: seq<ServiceInstance?>, specs: seq<string>)
    requires |found| == |specs| && forall i | 0 <= i < |specs| :: specs[i] != []
    ensures forall e | e in FoundServices(found, specs) ::
              exists i | 0 <= i < |found| :: found[i] == e.0 && SpecParamTable(specs[i]) == e.1
  {
    if found != [] {
      var n := |found| - 1;
      var f, p := found[..n], specs[..n];
      FoundServicesSound(f, p);
      forall e | e in FoundServices(found, specs)
        ensures exists i | 0 <= i < |found| :: found[i] == e.0 && SpecParamTable(specs[i]) == e.1
      {
        if e in FoundServices(f, p) {
          var i :| 0 <= i < n && f[i] == e.0 && SpecParamTable(p[i]) == e.1;
          assert found[i] == f[i] && specs[i] == p[i];
        } else {
          assert found[n] == e.0 && SpecParamTable(specs[n]) == e.1;
        }
      }
    }
  }

  /** Every spec whose service was found puts it in the view, with the spec's
      parameters. */
  lemma {:induction false} FoundServicesComplete(found: seq<ServiceInstance?>, specs: seq<string>)
    requires |found| == |specs| && forall i | 0 <= i < |specs| :: specs[i] != []
    ensures forall i | 0 <= i < |found| && found[i] != null ::
              (found[i], SpecParamTable(specs[i])) in FoundServices(found, specs)
  {
    forall i | 0 <= i < |found| && found[i] != null
      ensures (found[i], SpecParamTable(specs[i])) in FoundServices(found, specs)
    {
      FoundServicesHas(found, specs, i);
    }
  }

  /** The service found for spec i is in the view. */
  lemma {:induction false} FoundServicesHas(found: seq<ServiceInstance?>, specs: seq<string>, i: nat)
    requires |found| == |specs| && forall i | 0 <= i < |specs| :: specs[i] != []
    requires i < |found| && found[i] != null
    ensures (found[i], SpecParamTable(specs[i])) in FoundServices(found, specs)
  {
    var n := |found| - 1;
    var f, p := found[..n], specs[..n];
    if i < n {
      FoundServicesHas(f, p, i);
      assert found[i] == f[i] && specs[i] == p[i];
      assert FoundServices(found, specs)[..|FoundServices(f, p)|] == FoundServices(f, p);
    } else {
      var t := SpecParamTable(specs[n]);
      assert FoundServices(found, specs) == FoundServices(f, p) + [(found[n], t)];
    }
  }

  /** The parameter tokens of a spec's parameter string (none for NULL). */
  function SplitParams(s: Option<string>): seq<string> {
    if s.None? then [] else Strs.Split(s.value, ',')
  }

  /** sw_core_dup_singleton: the static core pointer, cleared by a weak
      pointer when the core is destroyed. */
  class CoreSingleton {
    var core: Core?

    constructor ()
      ensures core == null
    {
      core := null;
    }

    /** The same instance while it is alive; a new one once it is gone. */
    method Dup(types: set<string>, dictHash: map<string, string> -> string,
               initSucceeds: (string, map<string, string>) -> bool, bans: set<string>) returns (c: Core)
      modifies this
      ensures old(core) != null ==> c == old(core) && core == old(core)
      ensures old(core) == null ==> fresh(c) && core == c
    {
      if core == null {
        c := new Core(types, dictHash, initSucceeds, bans);
        core := c;
      } else {
        c := core;
      }
    }

    /** The weak pointer is cleared when the core is destroyed. */
    method CoreDestroyed()
      modifies this
      ensures core == null
    {
      core := null;
    }
  }
}
