/** The part every polling item view of the web-service adapters shares
    (services/flickr/flickr-item-view.c, services/plurk/plurk-item-view.c and
    the others written the same way): a refresh timer that start arms and stop
    removes, a refresh on demand, the reaction to the service's capability
    and user changes, and the loop that turns the records of a reply into an
    item set, skipping records that make no item and items whose id is
    banned.  What a refresh sends is each adapter's own; here it is counted. */
module AdapterViews {
  import opened Wrappers
  import opened Adapters

  /** The set a reply's records make, each entry filed under the id `id`
      gives it: each record in turn makes an entry or nothing; an entry
      whose id is banned is skipped, and the others join the set.  With
      `replace` a later entry with the id of a member replaces it
      (sw_set_add); without it the member stays (mojito_set_add). */
  function Collected<R, D>(records: seq<R>, make: R -> Option<D>, id: D -> string, banned: set<string>, replace: bool): map<string, D>
    decreases |records|
  {
    if records == [] then map[]
    else
      var s := Collected(records[..|records| - 1], make, id, banned, replace);
      var d := make(records[|records| - 1]);
      if d.Some? && id(d.value) !in banned then
        (if replace || id(d.value) !in s then s[id(d.value) := d.value] else s)
      else s
  }

  /** A record whose entry joins the set. */
  predicate Kept<R, D>(r: R, make: R -> Option<D>, id: D -> string, banned: set<string>)
  {
    make(r).Some? && id(make(r).value) !in banned
  }

  /** Some record of the list makes exactly this entry. */
  predicate MadeBySome<R, D(==)>(records: seq<R>, make: R -> Option<D>, d: D)
  {
    exists i | 0 <= i < |records| :: make(records[i]) == Some(d)
  }

  /** Every member of the set is an entry some record made, filed under its
      own id, and no member's id is banned. */
  lemma {:induction false} CollectedSound<R, D>(records: seq<R>, make: R -> Option<D>, id: D -> string, banned: set<string>, replace: bool)
    ensures forall k | k in Collected(records, make, id, banned, replace) ::
              k !in banned && id(Collected(records, make, id, banned, replace)[k]) == k &&
              MadeBySome(records, make, Collected(records, make, id, banned, replace)[k])
    decreases |records|
  {
    if records != [] {
      var init := records[..|records| - 1];
      CollectedSound(init, make, id, banned, replace);
      var s := Collected(init, make, id, banned, replace);
      forall k | k in s
        ensures MadeBySome(records, make, s[k])
      {
        var i :| 0 <= i < |init| && make(init[i]) == Some(s[k]);
        assert records[i] == init[i];
      }
    }
  }

  /** Every record whose entry is not banned has its id in the set. */
  lemma {:induction false} CollectedComplete<R, D>(records: seq<R>, make: R -> Option<D>, id: D -> string, banned: set<string>, replace: bool)
    ensures forall i | 0 <= i < |records| && Kept(records[i], make, id, banned) ::
              id(make(records[i]).value) in Collected(records, make, id, banned, replace)
    decreases |records|
  {
    if records != [] {
      var init := records[..|records| - 1];
      CollectedComplete(init, make, id, banned, replace);
      forall i | 0 <= i < |records| - 1 && Kept(records[i], make, id, banned)
        ensures id(make(records[i]).value) in Collected(init, make, id, banned, replace)
      {
        assert records[i] == init[i];
      }
    }
  }

  /** One more record handled by the populate loop. */
  lemma CollectedSnoc<R, D>(records: seq<R>, r: R, make: R -> Option<D>, id: D -> string, banned: set<string>, replace: bool)
    ensures Collected(records + [r], make, id, banned, replace) ==
            var s := Collected(records, make, id, banned, replace);
            if Kept(r, make, id, banned) && (replace || id(make(r).value) !in s) then s[id(make(r).value) := make(r).value]
            else s
  {
    assert (records + [r])[..|records|] == records;
  }

  /** The populate loop's step over the prefix of a list. */
  lemma CollectedPrefix<R, D>(records: seq<R>, i: nat, make: R -> Option<D>, id: D -> string, banned: set<string>, replace: bool)
    requires i < |records|
    ensures Collected(records[..i + 1], make, id, banned, replace) ==
            var s := Collected(records[..i], make, id, banned, replace);
            if Kept(records[i], make, id, banned) && (replace || id(make(records[i]).value) !in s)
            then s[id(make(records[i]).value) := make(records[i]).value]
            else s
  {
    assert records[..i + 1] == records[..i] + [records[i]];
    CollectedSnoc(records[..i], records[i], make, id, banned, replace);
  }

  /** On items, the set is built with sw_set_add or mojito_set_add. */
  lemma CollectedItems<R>(records: seq<R>, r: R, make: R -> Option<Draft>, banned: set<string>, replace: bool)
    ensures Collected(records + [r], make, DraftId, banned, replace) ==
            var s := Collected(records, make, DraftId, banned, replace);
            if Kept(r, make, DraftId, banned) then
              (if replace then AddReplacing(s, make(r).value) else AddKeeping(s, make(r).value))
            else s
  {
    CollectedSnoc(records, r, make, DraftId, banned, replace);
  }

  /** The populate loop: each record's entry, when it has one and its id is
      not banned, is added to a new set. */
  method Collect<R, D>(records: seq<R>, make: R -> Option<D>, id: D -> string, banned: set<string>, replace: bool)
    returns (s: map<string, D>)
    ensures s == Collected(records, make, id, banned, replace)
  {
    s := map[];
    var i := 0;
    while i < |records|
      invariant 0 <= i <= |records|
      invariant s == Collected(records[..i], make, id, banned, replace)
    {
      var d := make(records[i]);
      CollectedSnoc(records[..i], records[i], make, id, banned, replace);
      assert records[..i + 1] == records[..i] + [records[i]];
      if d.Some? && id(d.value) !in banned && (replace || id(d.value) !in s) {
        s := s[id(d.value) := d.value];
      }
      i := i + 1;
    }
    assert records[..i] == records;
  }

  /** Adding to a union adds to its right-hand side. */
  lemma UnionUpdate<D>(w: map<string, D>, c: map<string, D>, k: string, v: D)
    ensures (w + c)[k := v] == w + c[k := v]
  {
  }

  /** The populate loop over a set that may hold items already: each
      record's item, when it has one and its id is not banned, is added with
      sw_set_add, replacing a member with its id. */
  method CollectInto<R>(acc: map<string, Draft>, records: seq<R>, make: R -> Option<Draft>, banned: set<string>)
    returns (s: map<string, Draft>)
    ensures s == acc + Collected(records, make, DraftId, banned, true)
  {
    s := acc;
    var i := 0;
    while i < |records|
      invariant 0 <= i <= |records|
      invariant s == acc + Collected(records[..i], make, DraftId, banned, true)
    {
      ghost var c := Collected(records[..i], make, DraftId, banned, true);
      CollectedPrefix(records, i, make, DraftId, banned, true);
      var item := make(records[i]);
      if item.Some? && DraftId(item.value) !in banned {
        UnionUpdate(acc, c, DraftId(item.value), item.value);
        s := s[DraftId(item.value) := item.value];
      }
      i := i + 1;
    }
    assert records[..i] == records;
  }

  /** _check_query_validity: the query is one of the service's valid
      queries. */
  method CheckQueryValidity(valid: seq<string>, query: string) returns (ok: bool)
    ensures ok <==> query in valid
  {
    var i := 0;
    while i < |valid|
      invariant 0 <= i <= |valid|
      invariant query !in valid[..i]
    {
      if query == valid[i] {
        return true;
      }
      assert valid[..i + 1] == valid[..i] + [valid[i]];
      i := i + 1;
    }
    assert valid[..i] == valid;
    return false;
  }

  /** The view state the adapters' item views keep beside the daemon's item
      view: whether the refresh timer is armed (timeout_id != 0), how many
      refreshes were started, the sets handed to sw_item_view_set_from_set
      and to sw_cache_save, the cache drops, and the ids hidden through
      sw_item_view_remove_by_uid. */
  class PollingView {
    var timerArmed: bool
    var refreshes: nat
    var published: seq<map<string, Draft>>
    var saved: seq<map<string, Draft>>
    var cacheDrops: nat
    var hidden: seq<string>

    constructor ()
      ensures !timerArmed && refreshes == 0 && published == [] && saved == [] && cacheDrops == 0 && hidden == []
    {
      timerArmed := false;
      refreshes := 0;
      published := [];
      saved := [];
      cacheDrops := 0;
      hidden := [];
    }

    /** start: a started view only warns; otherwise the timer is armed, the
        cached set (if the cache had one) is published, and a refresh goes
        out. */
    method Start(cached: Option<map<string, Draft>>)
      modifies this`timerArmed, this`published, this`refreshes
      ensures old(timerArmed) ==> timerArmed && published == old(published) && refreshes == old(refreshes)
      ensures !old(timerArmed) ==>
                timerArmed && refreshes == old(refreshes) + 1 &&
                published == old(published) + (if cached.Some? then [cached.value] else [])
    {
      if timerArmed {
        return;
      }
      timerArmed := true;
      if cached.Some? {
        published := published + [cached.value];
      }
      refreshes := refreshes + 1;
    }

    /** stop: a stopped view only warns; otherwise the timer is removed and
        its id reset. */
    method Stop()
      modifies this`timerArmed
      ensures !timerArmed
    {
      if timerArmed {
        timerArmed := false;
      }
    }

    /** refresh, and the timer firing: one more request, the timer kept. */
    method Refresh()
      modifies this`refreshes
      ensures refreshes == old(refreshes) + 1
    {
      refreshes := refreshes + 1;
    }

    /** _service_capabilities_changed_cb: valid credentials refresh the view
        and arm the timer if it is not armed; anything else removes it. */
    method CapabilitiesChanged(caps: seq<string>)
      modifies this`timerArmed, this`refreshes
      ensures CredentialsValid in caps ==> timerArmed && refreshes == old(refreshes) + 1
      ensures CredentialsValid !in caps ==> !timerArmed && refreshes == old(refreshes)
    {
      if CredentialsValid in caps {
        Refresh();
        if !timerArmed {
          timerArmed := true;
        }
      } else {
        if timerArmed {
          timerArmed := false;
        }
      }
    }

    /** _service_user_changed_cb: the view is set from an empty set and the
        service's cache is dropped. */
    method UserChanged()
      modifies this`published, this`cacheDrops
      ensures published == old(published) + [map[]]
      ensures cacheDrops == old(cacheDrops) + 1
    {
      published := published + [map[]];
      cacheDrops := cacheDrops + 1;
    }

    /** _service_item_hidden_cb: the item with that id leaves the view. */
    method ItemHidden(uid: string)
      modifies this`hidden
      ensures hidden == old(hidden) + [uid]
    {
      hidden := hidden + [uid];
    }

    /** The end of a reply callback: the view is set from the new set and the
        set is saved to the cache. */
    method Publish(s: map<string, Draft>)
      modifies this`published, this`saved
      ensures published == old(published) + [s] && saved == old(saved) + [s]
    {
      published := published + [s];
      saved := saved + [s];
    }
  }

  /** Starting a started view changes nothing: the timer is armed once and
      the cache is loaded once. */
  method StartTwice(v: PollingView, c1: Option<map<string, Draft>>, c2: Option<map<string, Draft>>)
    modifies v
    ensures v.timerArmed
    ensures v.refreshes <= old(v.refreshes) + 1
    ensures |v.published| <= |old(v.published)| + 1
  {
    v.Start(c1);
    v.Start(c2);
  }

  /** Whatever the capabilities said before, the last change decides whether
      the timer runs. */
  method CapabilitiesTwice(v: PollingView, first: seq<string>, second: seq<string>)
    modifies v
    ensures v.timerArmed <==> CredentialsValid in second
  {
    v.CapabilitiesChanged(first);
    v.CapabilitiesChanged(second);
  }
}
