/** The Twitter contact view (services/twitter/twitter-contact-view.c): it
    asks for the ids of the people the user follows, looks those people up
    in groups of at most TWITTER_LOOKUP_MAX ids per request, adds each
    looked-up person to a working set, and hands the set to the view (and
    to the cache) once no lookup is outstanding. */
module TwitterContactView {
  import opened Wrappers
  import opened Adapters
  import opened CallLists
  import opened GLists
  import Strs

  /** TWITTER_LOOKUP_MAX: ids per users/lookup request. */
  const LookupMax := 1

  /** UPDATE_TIMEOUT, in seconds. */
  const UpdateTimeout := 5 * 60

  // ---------------------------------------------------------------------
  // Batching the ids

  /** The ids split, in order, into groups of max; the last group holds
      what is left over. */
  function Groups(ids: seq<string>, max: nat): seq<seq<string>>
    requires max >= 1
    decreases |ids|
  {
    if |ids| <= max then (if ids == [] then [] else [ids])
    else [ids[..max]] + Groups(ids[max..], max)
  }

  /** The "user_id" parameter of each lookup: a group's ids joined with
      commas. */
  function Lookups(ids: seq<string>, max: nat): (r: seq<string>)
    requires max >= 1
    ensures |r| == |Groups(ids, max)|
  {
    var gs := Groups(ids, max);
    seq(|gs|, k requires 0 <= k < |gs| => Strs.Join(gs[k], ','))
  }

  /** The concatenation of groups. */
  function Flatten(gs: seq<seq<string>>): seq<string>
  {
    if gs == [] then [] else gs[0] + Flatten(gs[1..])
  }

  /** Ids that fill whole groups. */
  predicate Whole(ids: seq<string>, max: nat)
    requires max >= 1
    decreases |ids|
  {
    ids == [] || (|ids| >= max && Whole(ids[max..], max))
  }

  /** Every id is in exactly one lookup, in order; no lookup is empty or
      holds more than max ids, and only the last holds fewer. */
  lemma {:induction false} GroupsShape(ids: seq<string>, max: nat)
    requires max >= 1
    ensures Flatten(Groups(ids, max)) == ids
    ensures forall k | 0 <= k < |Groups(ids, max)| :: 0 < |Groups(ids, max)[k]| <= max
    ensures forall k | 0 <= k < |Groups(ids, max)| - 1 :: |Groups(ids, max)[k]| == max
    decreases |ids|
  {
    if |ids| > max {
      GroupsShape(ids[max..], max);
      var gs := Groups(ids, max);
      assert gs[1..] == Groups(ids[max..], max);
      assert ids == ids[..max] + ids[max..];
    }
  }

  /** A group appended after whole groups is the next lookup. */
  lemma {:induction false} GroupsSnoc(a: seq<string>, g: seq<string>, max: nat)
    requires max >= 1 && Whole(a, max) && 0 < |g| <= max
    ensures Groups(a + g, max) == Groups(a, max) + [g]
    decreases |a|
  {
    if a == [] {
      assert a + g == g;
    } else {
      GroupsSnoc(a[max..], g, max);
      assert (a + g)[..max] == a[..max];
      assert (a + g)[max..] == a[max..] + g;
    }
  }

  /** A whole group appended after whole groups leaves whole groups. */
  lemma {:induction false} WholeSnoc(a: seq<string>, g: seq<string>, max: nat)
    requires max >= 1 && Whole(a, max) && |g| == max
    ensures Whole(a + g, max)
    decreases |a|
  {
    if a == [] {
      assert (a + g)[max..] == [];
    } else {
      WholeSnoc(a[max..], g, max);
      assert (a + g)[max..] == a[max..] + g;
    }
  }

  /** The lookups after one more group. */
  lemma LookupsSnoc(a: seq<string>, g: seq<string>, max: nat)
    requires max >= 1 && Whole(a, max) && 0 < |g| <= max
    ensures Lookups(a + g, max) == Lookups(a, max) + [Strs.Join(g, ',')]
  {
    GroupsSnoc(a, g, max);
  }

  /** With one id per lookup, as TWITTER_LOOKUP_MAX has it, each id is its
      own lookup. */
  lemma {:induction false} OneIdPerLookup(ids: seq<string>)
    ensures Lookups(ids, LookupMax) == ids
    decreases |ids|
  {
    if |ids| > 1 {
      OneIdPerLookup(ids[1..]);
      assert Lookups(ids[1..], 1) == ids[1..];
      var gs := Groups(ids, 1);
      assert gs == [ids[..1]] + Groups(ids[1..], 1);
      forall k | 0 <= k < |ids|
        ensures Lookups(ids, 1)[k] == ids[k]
      {
        if k > 0 {
          assert gs[k] == Groups(ids[1..], 1)[k - 1];
          assert Lookups(ids[1..], 1)[k - 1] == ids[k];
        }
      }
    }
  }

  /** The ids string after one more id: a copy of the first id, then
      "%s,%s" of the string so far and the id. */
  function Extend(acc: Option<string>, id: string): string
  {
    if acc.None? then id else acc.value + "," + id
  }

  /** Extending the string of a group joins one more id. */
  lemma ExtendJoins(ids: seq<string>, m: nat, k: nat, acc: Option<string>)
    requires m <= k < |ids|
    requires m == k ==> acc == None
    requires m < k ==> acc == Some(Strs.Join(ids[m..k], ','))
    ensures Extend(acc, ids[k]) == Strs.Join(ids[m..k + 1], ',')
  {
    if m == k {
      assert ids[m..k + 1] == [ids[k]];
    } else {
      JoinSnoc(ids[m..k], ids[k]);
      assert ids[m..k + 1] == ids[m..k] + [ids[k]];
    }
  }

  /** Joining one more id: the "%s,%s" step. */
  lemma {:induction false} JoinSnoc(ps: seq<string>, x: string)
    requires ps != []
    ensures Strs.Join(ps + [x], ',') == Strs.Join(ps, ',') + [','] + x
    decreases |ps|
  {
    if |ps| > 1 {
      JoinSnoc(ps[1..], x);
      assert (ps + [x])[1..] == ps[1..] + [x];
    } else {
      assert ps + [x] == [ps[0], x];
    }
  }

  /** The text of the id nodes of a friends/ids reply. */
  function IdsOf(nodes: seq<Xml>): (r: seq<string>)
    requires forall k | 0 <= k < |nodes| :: nodes[k].content.Some?
    ensures |r| == |nodes| && forall k | 0 <= k < |nodes| :: r[k] == nodes[k].content.value
  {
    seq(|nodes|, k requires 0 <= k < |nodes| => nodes[k].content.value)
  }

  /** The request for one lookup. */
  function LookupRequest(p: string): Outgoing
  {
    Rest("GET", "users/lookup.xml", [("user_id", p)])
  }

  function LookupRequests(ps: seq<string>): (r: seq<Outgoing>)
    ensures |r| == |ps| && forall k | 0 <= k < |ps| :: r[k] == LookupRequest(ps[k])
  {
    seq(|ps|, k requires 0 <= k < |ps| => LookupRequest(ps[k]))
  }

  // ---------------------------------------------------------------------
  // _make_contact

  /** The nodes _make_contact dereferences without a check. */
  predicate Derefs(node: Xml)
  {
    Find(node, "screen_name").Some? && Find(node, "url").Some? && Find(node, "name").Some?
  }

  /** The properties of a contact: the screen name as id, the url and name
      when given, and the time as date. */
  function ContactProps(userId: string, url: Option<string>, name: Option<string>, now: string): (r: map<string, string>)
    ensures "id" in r && r["id"] == userId && "date" in r && r["date"] == now
    ensures ("url" in r <==> url.Some?) && (url.Some? ==> r["url"] == url.value)
    ensures ("name" in r <==> name.Some?) && (name.Some? ==> r["name"] == name.value)
    ensures forall k | k in r :: k == "id" || k == "url" || k == "name" || k == "date"
  {
    Put(Put(map["id" := userId], "url", url), "name", name)["date" := now]
  }

  /** _make_contact: nothing without a screen name; otherwise the contact's
      properties, and the avatar fetch when the profile image url has
      text. */
  function MakeContact(node: Xml, now: string): (r: Option<Draft>)
    requires Derefs(node)
    ensures r.None? <==> Find(node, "screen_name").value.content.None?
    ensures r.Some? ==>
              r.value.Get("id") == Find(node, "screen_name").value.content &&
              r.value.Get("url") == Find(node, "url").value.content &&
              r.value.Get("name") == Find(node, "name").value.content &&
              r.value.Get("date") == Some(now) &&
              (r.value.fetches != [] <==> ContentOf(Find(node, "profile_image_url")).Some?)
  {
    var userId := Find(node, "screen_name").value.content;
    if userId.None? then None
    else
      var icon := ContentOf(Find(node, "profile_image_url"));
      Some(Draft(ContactProps(userId.value, Find(node, "url").value.content, Find(node, "name").value.content, now),
                 if icon.Some? then [ImageFetch(false, "icon", icon.value)] else []))
  }

  // ---------------------------------------------------------------------
  // The view

  class TwitterContactView {
    /** The query the view was opened with. */
    const query: string
    /** The lookup group size. */
    const lookupMax: nat
    /** The calls still expected to answer. */
    const calls: CallList
    /** The refresh timer's period while it is armed (timeout_id != 0). */
    var timeout: Option<nat>
    /** The working set the lookups fill. */
    var working: map<string, Draft>
    /** The sets handed to sw_contact_view_set_from_set. */
    var published: seq<map<string, Draft>>
    /** The sets handed to sw_cache_save. */
    var saved: seq<map<string, Draft>>
    /** sw_cache_drop_all calls. */
    var cacheDrops: nat
    /** The requests sent, in order. */
    var sent: seq<Outgoing>
    /** g_error was reached: the process aborts. */
    var aborted: bool

    ghost predicate Valid()
      reads this, calls
    {
      calls.Valid() && lookupMax >= 1
    }

    /** sw_twitter_contact_view_init with its construct-only query. */
    constructor (query: string)
      ensures Valid() && fresh(calls) && calls.IsEmpty()
      ensures this.query == query && lookupMax == LookupMax
      ensures timeout == None && working == map[] && published == [] && saved == []
      ensures cacheDrops == 0 && sent == [] && !aborted
    {
      this.query := query;
      lookupMax := LookupMax;
      calls := new CallList();
      timeout := None;
      working := map[];
      published := [];
      saved := [];
      cacheDrops := 0;
      sent := [];
      aborted := false;
    }

    /** _get_ids: only the "people" query is known (any other aborts);
        pending lookups are cancelled, the working set emptied, and the ids
        of the people the user follows asked for.  That request is not put
        on the call list. */
    method GetIds(username: string)
      requires Valid()
      modifies this`working, this`sent, this`aborted, calls, set c | c in calls.l
      ensures Valid()
      ensures query != "people" ==>
                aborted && working == old(working) && sent == old(sent) && calls.l == old(calls.l)
      ensures query == "people" ==>
                !aborted == !old(aborted) && calls.IsEmpty() && working == map[] &&
                (forall c | c in old(calls.l) :: c.cancelled) &&
                sent == old(sent) + [Rest("GET", "friends/ids.xml", [("screen_name", username)])]
    {
      if query != "people" {
        aborted := true;
        return;
      }
      calls.CancelAll();
      working := map[];
      sent := sent + [Rest("GET", "friends/ids.xml", [("screen_name", username)])];
    }

    /** _got_ids_cb: the call leaves the list; on an error or a reply that
        does not parse nothing else happens; otherwise the ids are joined
        into groups, and each group goes out as a lookup that joins the
        call list. */
    method GotIds(call: ProxyCall, error: bool, root: Option<Xml>)
      requires Valid()
      requires root.Some? ==> forall k | 0 <= k < |FindAll(root.value, "id")| :: FindAll(root.value, "id")[k].content.Some?
      modifies this`sent, calls
      ensures Valid()
      ensures error || root.None? ==> calls.l == RemoveFirst(old(calls.l), call) && sent == old(sent)
      ensures !error && root.Some? ==>
                var ps := Lookups(IdsOf(FindAll(root.value, "id")), lookupMax);
                sent == old(sent) + LookupRequests(ps) &&
                |calls.l| == |ps| + |RemoveFirst(old(calls.l), call)| &&
                calls.l[|ps|..] == RemoveFirst(old(calls.l), call) &&
                forall k | 0 <= k < |ps| :: fresh(calls.l[k])
    {
      calls.Remove(call);
      if error || root.None? {
        return;
      }
      SendLookups(IdsOf(FindAll(root.value, "id")));
    }

    /** The loop of _got_ids_cb: each id is appended to the group being
        built ("%s,%s" after the first), and the group goes out as a lookup
        once it holds lookupMax ids or the last id is reached; each lookup
        call joins the call list. */
    method SendLookups(ids: seq<string>)
      requires Valid()
      modifies this`sent, calls
      ensures Valid()
      ensures var ps := Lookups(ids, lookupMax);
              sent == old(sent) + LookupRequests(ps) &&
              |calls.l| == |ps| + |old(calls.l)| && calls.l[|ps|..] == old(calls.l) &&
              forall k | 0 <= k < |ps| :: fresh(calls.l[k])
    {
      ghost var base := calls.l;
      ghost var ps: seq<string> := [];
      var i := 0;
      var acc: Option<string> := None;
      var k := 0;
      ghost var m := 0;
      while k < |ids|
        invariant 0 <= m <= k <= |ids| && i == k - m && i < lookupMax && (k == |ids| ==> m == k)
        invariant i == 0 ==> acc == None
        invariant i > 0 ==> acc == Some(Strs.Join(ids[m..k], ','))
        invariant Whole(ids[..m], lookupMax) || m == |ids|
        invariant ps == Lookups(ids[..m], lookupMax)
        invariant calls.Valid()
        invariant sent == old(sent) + LookupRequests(ps)
        invariant |calls.l| == |ps| + |base| && calls.l[|ps|..] == base
        invariant forall j | 0 <= j < |ps| :: fresh(calls.l[j])
        decreases |ids| - k
      {
        ExtendJoins(ids, m, k, acc);
        acc := Some(Extend(acc, ids[k]));
        i := i + 1;
        k := k + 1;
        if i == lookupMax || k == |ids| {
          FlushStep(ids, m, k, lookupMax);
          ghost var before := calls.l;
          SendLookup(acc.value);
          RequestsSnoc(ps, acc.value);
          assert calls.l[|ps| + 1..] == before[|ps|..];
          ps := ps + [acc.value];
          i := 0;
          acc := None;
          m := k;
        }
      }
      assert ids[..m] == ids;
    }

    /** One users/lookup call: created, put on the call list and sent. */
    method SendLookup(p: string)
      requires calls.Valid()
      modifies this`sent, calls
      ensures calls.Valid()
      ensures sent == old(sent) + [LookupRequest(p)]
      ensures |calls.l| == |old(calls.l)| + 1 && calls.l[1..] == old(calls.l) && fresh(calls.l[0])
    {
      var c := new ProxyCall();
      calls.Add(c);
      sent := sent + [LookupRequest(p)];
    }

    /** _update_if_done: once no call is outstanding the working set is
        handed to the view and to the cache, then emptied. */
    method UpdateIfDone()
      requires Valid()
      modifies this`published, this`saved, this`working
      ensures Valid()
      ensures calls.IsEmpty() ==>
                published == old(published) + [old(working)] && saved == old(saved) + [old(working)] &&
                working == map[]
      ensures !calls.IsEmpty() ==>
                published == old(published) && saved == old(saved) && working == old(working)
    {
      if calls.IsEmpty() {
        published := published + [working];
        saved := saved + [working];
        working := map[];
      }
    }

    /** _got_contacts_updates_cb: the call leaves the list; on an error or a
        reply that does not parse nothing else happens; otherwise the
        person's contact, when it has an id that is not banned, joins the
        working set (replacing one with that id), and the view is updated if
        that was the last call.  A parsed reply is one node with no
        siblings, so the loop over the node and its siblings makes one
        contact. */
    method GotContacts(call: ProxyCall, error: bool, root: Option<Xml>, banned: set<string>, now: string)
      requires Valid()
      requires root.Some? ==> Derefs(root.value)
      modifies this`working, this`published, this`saved, calls
      ensures Valid()
      ensures calls.l == RemoveFirst(old(calls.l), call)
      ensures error || root.None? ==>
                working == old(working) && published == old(published) && saved == old(saved)
      ensures !error && root.Some? ==>
                var c := MakeContact(root.value, now);
                var filled := if c.Some? && DraftId(c.value) !in banned then AddReplacing(old(working), c.value)
                              else old(working);
                if calls.IsEmpty() then
                  published == old(published) + [filled] && saved == old(saved) + [filled] && working == map[]
                else
                  published == old(published) && saved == old(saved) && working == filled
    {
      calls.Remove(call);
      if error || root.None? {
        return;
      }
      var contact := MakeContact(root.value, now);
      if contact.Some? && DraftId(contact.value) !in banned {
        working := AddReplacing(working, contact.value);
      }
      UpdateIfDone();
    }

    /** start: a started view only warns; otherwise the timer is armed, the
        cached set (if the cache had one) is shown, and the ids are asked
        for. */
    method Start(cached: Option<map<string, Draft>>, username: string)
      requires Valid()
      modifies this`timeout, this`published, this`working, this`sent, this`aborted, calls, set c | c in calls.l
      ensures Valid()
      ensures old(timeout).Some? ==>
                timeout == old(timeout) && published == old(published) && sent == old(sent) &&
                working == old(working) && calls.l == old(calls.l)
      ensures old(timeout).None? ==>
                timeout == Some(UpdateTimeout) &&
                published == old(published) + (if cached.Some? then [cached.value] else []) &&
                (query == "people" ==>
                   calls.IsEmpty() && working == map[] &&
                   sent == old(sent) + [Rest("GET", "friends/ids.xml", [("screen_name", username)])])
    {
      if timeout.Some? {
        return;
      }
      timeout := Some(UpdateTimeout);
      if cached.Some? {
        published := published + [cached.value];
      }
      GetIds(username);
    }

    /** stop: a stopped view only warns; otherwise the timer is removed. */
    method Stop()
      modifies this`timeout
      ensures timeout == None
    {
      if timeout.Some? {
        timeout := None;
      }
    }

    /** _service_user_changed_cb: the view is set from an empty set and the
        service's cache dropped. */
    method UserChanged()
      modifies this`published, this`cacheDrops
      ensures published == old(published) + [map[]] && cacheDrops == old(cacheDrops) + 1
    {
      published := published + [map[]];
      cacheDrops := cacheDrops + 1;
    }

    /** _service_capabilities_changed_cb: valid credentials ask for the ids
        again and arm the timer if it is not armed; anything else removes
        the timer. */
    method CapabilitiesChanged(caps: seq<string>, username: string)
      requires Valid()
      modifies this`timeout, this`working, this`sent, this`aborted, calls, set c | c in calls.l
      ensures Valid()
      ensures CredentialsValid in caps ==>
                (old(timeout).Some? ==> timeout == old(timeout)) &&
                (old(timeout).None? ==> timeout == Some(UpdateTimeout)) &&
                (query == "people" ==>
                   calls.IsEmpty() && working == map[] &&
                   sent == old(sent) + [Rest("GET", "friends/ids.xml", [("screen_name", username)])])
      ensures CredentialsValid !in caps ==>
                timeout == None && sent == old(sent) && working == old(working) && calls.l == old(calls.l)
    {
      if CredentialsValid in caps {
        GetIds(username);
        if timeout.None? {
          timeout := Some(UpdateTimeout);
        }
      } else {
        timeout := None;
      }
    }

    /** dispose: every outstanding call is cancelled and the timer removed. */
    method Dispose()
      requires Valid()
      modifies this`timeout, calls, set c | c in calls.l
      ensures calls.IsEmpty() && timeout == None
      ensures forall c | c in old(calls.l) :: c.cancelled
    {
      calls.Free();
      timeout := None;
    }
  }

  lemma RequestsSnoc(ps: seq<string>, p: string)
    ensures LookupRequests(ps + [p]) == LookupRequests(ps) + [LookupRequest(p)]
  {
  }

  /** A flushed group: the lookups gain the group's joined ids, and a full
      group leaves whole groups behind it. */
  lemma FlushStep(ids: seq<string>, m: nat, k: nat, max: nat)
    requires max >= 1 && 0 <= m < k <= |ids| && k - m <= max && Whole(ids[..m], max)
    ensures Lookups(ids[..k], max) == Lookups(ids[..m], max) + [Strs.Join(ids[m..k], ',')]
    ensures k - m == max ==> Whole(ids[..k], max)
  {
    assert ids[..k] == ids[..m] + ids[m..k];
    LookupsSnoc(ids[..m], ids[m..k], max);
    if k - m == max {
      WholeSnoc(ids[..m], ids[m..k], max);
    }
  }
}
