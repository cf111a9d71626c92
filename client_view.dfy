/** The client-side mirror of a daemon view (sw-client-view.c, and its twins
    sw-client-item-view.c, sw-client-contact-view.c and the older
    mojito-client-view.c).  The mirror keeps a uuid -> entry table that the
    daemon's ItemsAdded / ItemsChanged / ItemsRemoved signals (ContactsAdded ...
    for contacts) keep up to date, and re-emits each batch to the application as
    a list of entries.  The item and contact mirrors differ only in the type of
    an entry's properties, so the mirror is generic in it (ItemProps and
    ContactProps below).  The emitted lists are logged as the entries' contents
    at the moment of emission. */
module ClientViews {

  /** The properties of an item: a{ss}, one string per key. */
  type ItemProps = map<string, string>

  /** The properties of a contact: a{sas}, a list of strings per key. */
  type ContactProps = map<string, seq<string>>

  /** The D-Bus struct an entry travels as: fields 0 to 3 are the service name,
      the uuid, the date in seconds and the properties. */
  datatype Payload<P> = Payload(service: string, uuid: string, date: int, props: P)

  /** The signals a mirror emits, each with the list it hands out. */
  datatype ViewEvent<P> =
    | Added(entries: seq<Payload<P>>)
    | Changed(entries: seq<Payload<P>>)
    | Removed(entries: seq<Payload<P>>)

  // ---------------------------------------------------------------------
  // The table's contents as values
  // ---------------------------------------------------------------------

  function Last<T>(s: seq<T>): T
    requires s != []
  {
    s[|s| - 1]
  }

  function Init<T>(s: seq<T>): seq<T>
    requires s != []
  {
    s[..|s| - 1]
  }

  /** The uuids a batch carries. */
  function Uuids<P>(ps: seq<Payload<P>>): set<string> {
    set i | 0 <= i < |ps| :: ps[i].uuid
  }

  /** The table after inserting every payload under its uuid, in order (a later
      payload for a uuid replaces an earlier one). */
  function AddAll<P>(m: map<string, Payload<P>>, ps: seq<Payload<P>>): map<string, Payload<P>> {
    if ps == [] then m else AddAll(m, Init(ps))[Last(ps).uuid := Last(ps)]
  }

  /** The table after updating, in order, the entries whose uuid is known;
      payloads for unknown uuids are skipped. */
  function ChangeKnown<P>(m: map<string, Payload<P>>, ps: seq<Payload<P>>): map<string, Payload<P>> {
    if ps == [] then m
    else
      var before := ChangeKnown(m, Init(ps));
      if Last(ps).uuid in before then before[Last(ps).uuid := Last(ps)] else before
  }

  /** The table after removing every listed uuid, in order. */
  function RemoveAll<P>(m: map<string, Payload<P>>, us: seq<string>): (r: map<string, Payload<P>>)
    ensures r.Keys <= m.Keys && forall u | u in r :: r[u] == m[u]
  {
    if us == [] then m else RemoveAll(m, Init(us)) - {Last(us)}
  }

  /** The uuids a removal batch reports: each listed uuid the table held, at
      its first listing. */
  function Reported<P>(m: map<string, Payload<P>>, us: seq<string>): (r: seq<string>)
    ensures forall u | u in r :: u in m
  {
    if us == [] then []
    else
      var before := Reported(m, Init(us));
      if Last(us) in RemoveAll(m, Init(us)) then before + [Last(us)] else before
  }

  /** The uuids of a change batch the table holds, in batch order (a uuid
      changed twice is listed twice). */
  function KnownUuids<P>(m: map<string, Payload<P>>, ps: seq<Payload<P>>): (r: seq<string>)
    ensures forall u | u in r :: u in m
  {
    if ps == [] then []
    else KnownUuids(m, Init(ps)) + if Last(ps).uuid in m then [Last(ps).uuid] else []
  }

  /** The uuids of a batch, in batch order. */
  function UuidSeq<P>(ps: seq<Payload<P>>): (r: seq<string>)
    ensures |r| == |ps| && forall i | 0 <= i < |ps| :: r[i] == ps[i].uuid
  {
    seq(|ps|, i requires 0 <= i < |ps| => ps[i].uuid)
  }

  /** The contents of the listed uuids in a table. */
  function Contents<P>(m: map<string, Payload<P>>, us: seq<string>): (r: seq<Payload<P>>)
    requires forall u | u in us :: u in m
    ensures |r| == |us|
  {
    seq(|us|, i requires 0 <= i < |us| => m[us[i]])
  }

  lemma AddAllSnoc<P>(m: map<string, Payload<P>>, ps: seq<Payload<P>>, p: Payload<P>)
    ensures AddAll(m, ps + [p]) == AddAll(m, ps)[p.uuid := p]
  {
    assert Init(ps + [p]) == ps;
  }

  lemma ChangeKnownSnoc<P>(m: map<string, Payload<P>>, ps: seq<Payload<P>>, p: Payload<P>)
    ensures ChangeKnown(m, ps + [p]) ==
              if p.uuid in ChangeKnown(m, ps) then ChangeKnown(m, ps)[p.uuid := p] else ChangeKnown(m, ps)
    ensures KnownUuids(m, ps + [p]) == KnownUuids(m, ps) + if p.uuid in m then [p.uuid] else []
  {
    assert Init(ps + [p]) == ps;
  }

  /** Adding a batch holds exactly the old uuids and the batch's, and the
      uuids it does not carry keep their contents. */
  lemma {:induction false} AddAllHolds<P>(m: map<string, Payload<P>>, ps: seq<Payload<P>>)
    ensures AddAll(m, ps).Keys == m.Keys + Uuids(ps)
    ensures forall u | u !in Uuids(ps) && u in m :: AddAll(m, ps)[u] == m[u]
  {
    if ps != [] {
      AddAllHolds(m, Init(ps));
      assert ps == Init(ps) + [Last(ps)];
      assert Uuids(ps) == Uuids(Init(ps)) + {Last(ps).uuid};
    }
  }

  /** The last payload a batch carries for a uuid is what the uuid holds. */
  lemma {:induction false} AddAllLastWins<P>(m: map<string, Payload<P>>, ps: seq<Payload<P>>, j: nat)
    requires j < |ps|
    requires forall k | j < k < |ps| :: ps[k].uuid != ps[j].uuid
    ensures ps[j].uuid in AddAll(m, ps) && AddAll(m, ps)[ps[j].uuid] == ps[j]
  {
    if j < |ps| - 1 {
      assert Init(ps)[j] == ps[j];
      AddAllLastWins(m, Init(ps), j);
    }
  }

  /** A change batch never adds nor drops an entry, and entries it does not
      mention keep their contents. */
  lemma {:induction false} ChangeKnownKeys<P>(m: map<string, Payload<P>>, ps: seq<Payload<P>>)
    ensures ChangeKnown(m, ps).Keys == m.Keys
    ensures forall u | u in m && u !in Uuids(ps) :: ChangeKnown(m, ps)[u] == m[u]
  {
    if ps != [] {
      ChangeKnownKeys(m, Init(ps));
      assert ps == Init(ps) + [Last(ps)];
      assert Uuids(ps) == Uuids(Init(ps)) + {Last(ps).uuid};
    }
  }

  /** When every uuid of a batch is known, skipping unknown uuids and inserting
      every payload come to the same table: the guarded and unguarded change
      handlers, and mojito's re-inserting one, agree on batches they all
      accept. */
  lemma {:induction false} ChangeKnownIsAddAll<P>(m: map<string, Payload<P>>, ps: seq<Payload<P>>)
    requires Uuids(ps) <= m.Keys
    ensures ChangeKnown(m, ps) == AddAll(m, ps)
  {
    if ps != [] {
      assert ps == Init(ps) + [Last(ps)];
      assert Uuids(Init(ps)) <= Uuids(ps);
      ChangeKnownIsAddAll(m, Init(ps));
      ChangeKnownKeys(m, Init(ps));
    }
  }

  /** Removing a batch drops exactly its uuids. */
  lemma {:induction false} RemoveAllIsDifference<P>(m: map<string, Payload<P>>, us: seq<string>)
    ensures RemoveAll(m, us) == m - set u | u in us
  {
    if us != [] {
      RemoveAllIsDifference(m, Init(us));
      assert us == Init(us) + [Last(us)];
      assert (set u | u in us) == (set u | u in Init(us)) + {Last(us)};
    }
  }

  /** A removal batch reports each uuid the table held and was listed exactly
      once, and nothing else. */
  lemma {:induction false} ReportedOnce<P>(m: map<string, Payload<P>>, us: seq<string>)
    ensures forall u :: u in Reported(m, us) <==> u in us && u in m
    ensures forall i, j | 0 <= i < j < |Reported(m, us)| :: Reported(m, us)[i] != Reported(m, us)[j]
  {
    if us != [] {
      ReportedOnce(m, Init(us));
      RemoveAllIsDifference(m, Init(us));
      assert us == Init(us) + [Last(us)];
    }
  }

  /** Removing the uuids of a batch just added leaves the table without them:
      whatever the batch replaced is gone too. */
  lemma AddThenRemove<P>(m: map<string, Payload<P>>, ps: seq<Payload<P>>)
    ensures RemoveAll(AddAll(m, ps), UuidSeq(ps)) == m - Uuids(ps)
  {
    var us := UuidSeq(ps);
    RemoveAllIsDifference(AddAll(m, ps), us);
    AddAllHolds(m, ps);
    assert (set u | u in us) == Uuids(ps) by {
      forall u | u in Uuids(ps) ensures u in us {
        var p :| p in ps && p.uuid == u;
        var i :| 0 <= i < |ps| && ps[i] == p;
        assert us[i] == u;
      }
    }
  }

  // ---------------------------------------------------------------------
  // The mirror
  // ---------------------------------------------------------------------

  /** A client-side SwItem / SwContact / MojitoItem: a reference-counted struct
      whose fields a change batch overwrites in place. */
  class ClientEntry<P> {
    var service: string
    var uuid: string
    var date: int
    var props: P

    function Snapshot(): Payload<P>
      reads this
    {
      Payload(service, uuid, date, props)
    }

    /** _sw_item_from_value_array: a new entry holding the payload. */
    constructor (p: Payload<P>)
      ensures Snapshot() == p
    {
      service := p.service;
      uuid := p.uuid;
      date := p.date;
      props := p.props;
    }

    /** _sw_item_update_from_value_array: every field is replaced. */
    method UpdateFrom(p: Payload<P>)
      modifies this
      ensures Snapshot() == p
    {
      service := p.service;
      uuid := p.uuid;
      date := p.date;
      props := p.props;
    }
  }

  /** The contents of a list of entries. */
  function Snapshots<P>(list: seq<ClientEntry<P>>): (r: seq<Payload<P>>)
    reads set e | e in list
    ensures |r| == |list| && forall k | 0 <= k < |list| :: r[k] == list[k].Snapshot()
  {
    seq(|list|, k requires 0 <= k < |list| reads set e | e in list => list[k].Snapshot())
  }

  lemma SnapshotsSnoc<P>(list: seq<ClientEntry<P>>, e: ClientEntry<P>)
    ensures Snapshots(list + [e]) == Snapshots(list) + [e.Snapshot()]
  {
  }

  lemma ContentsSnoc<P>(m: map<string, Payload<P>>, us: seq<string>, u: string)
    requires (forall v | v in us :: v in m) && u in m
    ensures Contents(m, us + [u]) == Contents(m, us) + [m[u]]
  {
  }

  /** Entries are listed newest first. */
  ghost predicate NewestFirst<P>(s: seq<ClientEntry<P>>)
    reads set e | e in s
  {
    forall i, j | 0 <= i < j < |s| :: s[i].date >= s[j].date
  }

  /** One step of g_list_sort with _sort_compare_func: the entry goes after
      every entry at least as new as it, so entries of equal date keep their
      order. */
  method InsertNewestFirst<P>(s: seq<ClientEntry<P>>, e: ClientEntry<P>) returns (r: seq<ClientEntry<P>>)
    requires NewestFirst(s)
    ensures NewestFirst(r)
    ensures multiset(r) == multiset(s) + multiset{e}
  {
    var pos := 0;
    while pos < |s| && s[pos].date >= e.date
      invariant 0 <= pos <= |s|
      invariant forall k | 0 <= k < pos :: s[k].date >= e.date
    {
      pos := pos + 1;
    }
    r := s[..pos] + [e] + s[pos..];
    InsertedNewestFirst(s, e, pos);
    assert s == s[..pos] + s[pos..];
  }

  /** Putting an entry after every entry at least as new as it, and before
      the older ones, keeps a list newest first. */
  lemma InsertedNewestFirst<P>(s: seq<ClientEntry<P>>, e: ClientEntry<P>, pos: nat)
    requires NewestFirst(s) && pos <= |s|
    requires forall k | 0 <= k < pos :: s[k].date >= e.date
    requires pos < |s| ==> s[pos].date < e.date
    ensures NewestFirst(s[..pos] + [e] + s[pos..])
  {
    var r := s[..pos] + [e] + s[pos..];
    assert forall k | 0 <= k < pos :: r[k] == s[k];
    assert r[pos] == e;
    assert forall k | pos < k < |r| :: r[k] == s[k - 1];
    forall i, j | 0 <= i < j < |r|
      ensures r[i].date >= r[j].date
    {
      if j > pos && i == pos {
        assert s[pos].date >= s[j - 1].date;
      }
    }
  }

  class ClientView<P> {
    /** uuid_to_items (uuid_to_contacts in the contact view). */
    var uuidToItems: map<string, ClientEntry<P>>
    /** The signals emitted so far, oldest first. */
    var events: seq<ViewEvent<P>>

    /** Each entry is held under its own uuid, so no entry is held twice. */
    ghost predicate Valid()
      reads this`uuidToItems, uuidToItems.Values
    {
      forall u | u in uuidToItems :: uuidToItems[u].uuid == u
    }

    /** The table's contents. */
    function Table(): map<string, Payload<P>>
      reads this`uuidToItems, uuidToItems.Values
    {
      map u | u in uuidToItems :: uuidToItems[u].Snapshot()
    }

    /** A new mirror holds nothing and has emitted nothing. */
    constructor ()
      ensures Valid() && uuidToItems == map[] && events == []
    {
      uuidToItems := map[];
      events := [];
    }

    /** The insertion loop shared by the ItemsAdded handlers and mojito's
        ItemsChanged handler: each payload becomes a new entry, put under its
        uuid (replacing any entry held there). */
    method InsertAll(ps: seq<Payload<P>>)
      requires Valid()
      modifies this`uuidToItems
      ensures Valid()
      ensures Table() == AddAll(old(Table()), ps)
    {
      var i := 0;
      while i < |ps|
        invariant 0 <= i <= |ps|
        invariant Valid()
        invariant Table() == AddAll(old(Table()), ps[..i])
      {
        var entry := new ClientEntry(ps[i]);
        assert ps[..i + 1] == ps[..i] + [ps[i]];
        assert Init(ps[..i + 1]) == ps[..i];
        uuidToItems := uuidToItems[entry.uuid := entry];
        i := i + 1;
      }
      assert ps[..i] == ps;
    }

    /** _proxy_items_added_cb (and the contacts one): every payload is inserted
        and the batch is emitted, in payload order. */
    method ItemsAdded(ps: seq<Payload<P>>)
      requires Valid()
      modifies this
      ensures Valid()
      ensures Table() == AddAll(old(Table()), ps)
      ensures events == old(events) + [Added(ps)]
    {
      InsertAll(ps);
      events := events + [Added(ps)];
    }

    /** _proxy_items_changed_cb of mojito-client-view.c: a change re-inserts a
        new entry for each payload, so it also adds unknown uuids. */
    method ItemsReplaced(ps: seq<Payload<P>>)
      requires Valid()
      modifies this
      ensures Valid()
      ensures Table() == AddAll(old(Table()), ps)
      ensures events == old(events) + [Changed(ps)]
    {
      InsertAll(ps);
      events := events + [Changed(ps)];
    }

    /** _proxy_items_changed_cb of sw-client-item-view.c and
        sw-client-contact-view.c: a known uuid's entry is overwritten in place
        and listed; an unknown uuid is skipped.  Each listed entry shows its
        contents after the whole batch. */
    method ItemsChanged(ps: seq<Payload<P>>)
      requires Valid()
      modifies this, uuidToItems.Values
      ensures uuidToItems == old(uuidToItems) && Valid()
      ensures Table() == ChangeKnown(old(Table()), ps)
      ensures events == old(events) + [Changed(Contents(Table(), KnownUuids(old(Table()), ps)))]
    {
      var list := UpdateKnown(ps);
      events := events + [Changed(Snapshots(list))];
    }

    /** The loop of the guarded change handler. */
    method UpdateKnown(ps: seq<Payload<P>>) returns (list: seq<ClientEntry<P>>)
      requires Valid()
      modifies uuidToItems.Values
      ensures Valid()
      ensures Table() == ChangeKnown(old(Table()), ps)
      ensures Snapshots(list) == Contents(Table(), KnownUuids(old(Table()), ps))
    {
      list := [];
      ghost var listed: seq<string> := [];
      ghost var m0 := Table();
      var i := 0;
      while i < |ps|
        invariant 0 <= i <= |ps|
        invariant Valid() && uuidToItems.Keys == m0.Keys
        invariant Table() == ChangeKnown(m0, ps[..i])
        invariant listed == KnownUuids(m0, ps[..i])
        invariant Lists(list, listed)
      {
        assert ps[..i + 1] == ps[..i] + [ps[i]];
        ChangeKnownSnoc(m0, ps[..i], ps[i]);
        var p := ps[i];
        if p.uuid in uuidToItems {
          var entry := uuidToItems[p.uuid];
          UpdateEntry(entry, p);
          ListsSnoc(list, listed, p.uuid);
          list := list + [entry];
          listed := listed + [p.uuid];
        }
        i := i + 1;
      }
      assert ps[..i] == ps;
      ListsContents(list, listed);
    }

    /** _proxy_items_changed_cb of sw-client-view.c: every uuid is assumed
        known (the handler would dereference a NULL entry otherwise), and its
        entry is overwritten in place and listed. */
    method ItemsChangedUnchecked(ps: seq<Payload<P>>)
      requires Valid()
      requires Uuids(ps) <= uuidToItems.Keys
      modifies this, uuidToItems.Values
      ensures uuidToItems == old(uuidToItems) && Valid()
      ensures Table() == AddAll(old(Table()), ps)
      ensures events == old(events) + [Changed(Contents(Table(), UuidSeq(ps)))]
    {
      var list := UpdateAll(ps);
      events := events + [Changed(Snapshots(list))];
    }

    /** The loop of the unguarded change handler. */
    method UpdateAll(ps: seq<Payload<P>>) returns (list: seq<ClientEntry<P>>)
      requires Valid()
      requires Uuids(ps) <= uuidToItems.Keys
      modifies uuidToItems.Values
      ensures Valid()
      ensures Table() == AddAll(old(Table()), ps)
      ensures Snapshots(list) == Contents(Table(), UuidSeq(ps))
    {
      list := [];
      ghost var listed: seq<string> := [];
      ghost var m0 := Table();
      var i := 0;
      while i < |ps|
        invariant 0 <= i <= |ps|
        invariant Valid() && uuidToItems.Keys == m0.Keys
        invariant Table() == AddAll(m0, ps[..i])
        invariant |listed| == i && (forall k | 0 <= k < i :: listed[k] == ps[k].uuid) && Lists(list, listed)
      {
        assert ps[..i + 1] == ps[..i] + [ps[i]];
        AddAllSnoc(m0, ps[..i], ps[i]);
        assert ps[i] in ps;
        var entry := uuidToItems[ps[i].uuid];
        UpdateEntry(entry, ps[i]);
        ListsSnoc(list, listed, ps[i].uuid);
        list := list + [entry];
        listed := listed + [ps[i].uuid];
        i := i + 1;
      }
      assert ps[..i] == ps && listed == UuidSeq(ps);
      ListsContents(list, listed);
    }

    /** The listed entries are the ones held under the listed uuids. */
    ghost predicate Lists(list: seq<ClientEntry<P>>, us: seq<string>)
      reads this`uuidToItems
    {
      |list| == |us| && forall k | 0 <= k < |us| :: us[k] in uuidToItems && list[k] == uuidToItems[us[k]]
    }

    lemma ListsSnoc(list: seq<ClientEntry<P>>, us: seq<string>, u: string)
      requires Lists(list, us) && u in uuidToItems
      ensures Lists(list + [uuidToItems[u]], us + [u])
    {
    }

    lemma ListsContents(list: seq<ClientEntry<P>>, us: seq<string>)
      requires Lists(list, us)
      ensures Snapshots(list) == Contents(Table(), us)
    {
    }

    /** One in-place update: the entry held under the payload's uuid takes the
        payload, and no other entry changes. */
    method UpdateEntry(entry: ClientEntry<P>, p: Payload<P>)
      requires Valid() && p.uuid in uuidToItems && uuidToItems[p.uuid] == entry
      modifies entry
      ensures Valid()
      ensures Table() == old(Table())[p.uuid := p]
    {
      assert forall u | u in uuidToItems && u != p.uuid :: uuidToItems[u] != entry;
      entry.UpdateFrom(p);
    }

    /** sw_client_view_get_sorted_items: every entry of the table, each once,
        newest first. */
    method GetSortedItems() returns (items: seq<ClientEntry<P>>)
      ensures NewestFirst(items)
      ensures multiset(items) == multiset(uuidToItems.Values)
    {
      items := [];
      var rest := uuidToItems.Values;
      while rest != {}
        invariant rest <= uuidToItems.Values
        invariant NewestFirst(items)
        invariant multiset(items) == multiset(uuidToItems.Values - rest)
        decreases |rest|
      {
        var e :| e in rest;
        assert uuidToItems.Values - (rest - {e}) == (uuidToItems.Values - rest) + {e};
        items := InsertNewestFirst(items, e);
        rest := rest - {e};
      }
    }

    /** _proxy_items_removed_cb (and _proxy_contacts_removed_cb): each listed
        uuid the table holds is listed and dropped; unknown uuids are ignored.
        The removed payloads carry (service, uuid) pairs, of which only the
        uuids matter. */
    method ItemsRemoved(uuids: seq<string>)
      requires Valid()
      modifies this
      ensures Valid()
      ensures Table() == RemoveAll(old(Table()), uuids)
      ensures events == old(events) + [Removed(Contents(old(Table()), Reported(old(Table()), uuids)))]
    {
      var list := DropListed(uuids);
      events := events + [Removed(Snapshots(list))];
    }

    /** The loop of the removal handler. */
    method DropListed(uuids: seq<string>) returns (list: seq<ClientEntry<P>>)
      requires Valid()
      modifies this`uuidToItems
      ensures Valid()
      ensures Table() == RemoveAll(old(Table()), uuids)
      ensures Snapshots(list) == Contents(old(Table()), Reported(old(Table()), uuids))
    {
      list := [];
      ghost var m0 := Table();
      ghost var reported: seq<string> := [];
      var i := 0;
      while i < |uuids|
        invariant 0 <= i <= |uuids|
        invariant Valid()
        invariant Table() == RemoveAll(m0, uuids[..i])
        invariant reported == Reported(m0, uuids[..i])
        invariant Snapshots(list) == Contents(m0, reported)
      {
        assert Init(uuids[..i + 1]) == uuids[..i] && Last(uuids[..i + 1]) == uuids[i];
        var u := uuids[i];
        if u in uuidToItems {
          var entry := DropOne(u);
          assert entry.Snapshot() == m0[u];
          SnapshotsSnoc(list, entry);
          ContentsSnoc(m0, reported, u);
          list := list + [entry];
          reported := reported + [u];
        }
        i := i + 1;
      }
      assert uuids[..i] == uuids;
    }

    /** g_hash_table_remove of a held uuid, after taking its entry. */
    method DropOne(u: string) returns (entry: ClientEntry<P>)
      requires Valid() && u in uuidToItems
      modifies this`uuidToItems
      ensures Valid()
      ensures entry.Snapshot() == old(Table())[u]
      ensures Table() == old(Table()) - {u}
    {
      entry := uuidToItems[u];
      uuidToItems := uuidToItems - {u};
    }
  }
}
