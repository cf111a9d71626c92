/** The item cache of the older mojito daemon (mojito-cache.c): the same key
    file of one group per item as SwCache, but one file per service, no
    "cached" marker, no ready check and no relative image paths. */
module MojitoCache {
  import opened Wrappers
  import opened SwSets
  import opened SwItems
  import opened MojitoSets
  import opened SwCache

  /** get_cache_filename: `<cache>/mojito/cache/<service name>`. */
  function MojitoCacheFilename(cacheDir: string, service: string): string {
    cacheDir + "/mojito/cache/" + service
  }

  /** The given properties restricted to some keys. */
  function PropsFrom(props: map<string, string>, ks: set<string>): map<string, string> {
    map k | k in ks && k in props :: props[k]
  }

  /** The property loop of set_keyfile_from_item: each property is set in the
      item's group as it is; the first one creates the group. */
  method SetVerbatim(kf: KeyFile, group: string, props: map<string, string>) returns (r: KeyFile)
    requires kf.WellFormed() && props != map[]
    ensures r.WellFormed()
    ensures r.entries == kf.entries[group := kf.Group(group) + props]
  {
    var key0 :| key0 in props;
    var marked := SetString(kf, group, key0, props[key0]);
    SetStringWellFormed(kf, group, key0, props[key0]);
    assert props.Keys - (props.Keys - {key0}) == {key0};
    assert kf.Group(group) + PropsFrom(props, {key0}) == kf.Group(group)[key0 := props[key0]];
    r := SetRest(marked, kf, group, props, props.Keys - {key0});
    SameShapeWellFormed(marked, r);
  }

  /** The rest of the property loop, once the group exists. */
  method SetRest(r0: KeyFile, ghost kf: KeyFile, group: string, props: map<string, string>, todo: set<string>)
    returns (r: KeyFile)
    requires todo <= props.Keys
    requires r0.entries == kf.entries[group := kf.Group(group) + PropsFrom(props, props.Keys - todo)]
    ensures r.groups == r0.groups
    ensures r.entries == kf.entries[group := kf.Group(group) + props]
  {
    r := r0;
    var keys := todo;
    while keys != {}
      invariant keys <= props.Keys
      invariant r.groups == r0.groups
      invariant r.entries == kf.entries[group := kf.Group(group) + PropsFrom(props, props.Keys - keys)]
      decreases keys
    {
      var key :| key in keys;
      assert props.Keys - (keys - {key}) == (props.Keys - keys) + {key};
      PropsFromStep(kf.Group(group), props, props.Keys - keys, key);
      r := SetString(r, group, key, props[key]);
      keys := keys - {key};
    }
    assert PropsFrom(props, props.Keys - keys) == props;
  }

  lemma PropsFromStep(base: map<string, string>, props: map<string, string>, done: set<string>, key: string)
    requires key in props
    ensures base + PropsFrom(props, done + {key}) == (base + PropsFrom(props, done))[key := props[key]]
  {
  }

  /** set_keyfile_from_item: an item without an id adds nothing; otherwise
      every property goes into the group named by the id. */
  method SetKeyfileFromItem(kf: KeyFile, item: Item) returns (r: KeyFile)
    requires kf.WellFormed()
    ensures r.WellFormed()
    ensures item.Get("id").None? ==> r == kf
    ensures item.Get("id").Some? ==>
              var g := item.Get("id").value;
              r.entries == kf.entries[g := kf.Group(g) + item.props]
  {
    var group := item.Get("id");
    if group.None? {
      return kf;
    }
    r := SetVerbatim(kf, group.value, item.props);
  }

  /** The groups the members under the given keys are written as. */
  function WrittenFrom(h: map<string, Item>, ks: set<string>): map<string, map<string, string>> {
    map k | k in ks && k in h && h[k].Get("id").Some? :: h[k].props
  }

  /** The groups an item set is written as: every item with an id, as it is. */
  function Written(h: map<string, Item>): map<string, map<string, string>> {
    WrittenFrom(h, h.Keys)
  }

  lemma WrittenFromStep(h: map<string, Item>, ks: set<string>, k: string)
    requires k in h
    ensures WrittenFrom(h, ks + {k}) ==
              if h[k].Get("id").Some? then WrittenFrom(h, ks)[k := h[k].props] else WrittenFrom(h, ks)
  {
  }

  /** mojito_cache_save: a NULL or empty set removes the service's cache file;
      otherwise the file is written with one group per item with an id. */
  method Save(cacheDir: string, service: string, items: MojitoSet?<string, Item>) returns (w: CacheWrite)
    requires items != null ==> items.Valid() && items.keyOf == ItemId
    ensures w.path == MojitoCacheFilename(cacheDir, service)
    ensures (items == null || items.hash == map[]) ==> w.RemoveFile?
    ensures items != null && items.hash != map[] ==>
              w.WriteFile? && w.contents.WellFormed() && w.contents.entries == Written(items.hash)
  {
    var filename := MojitoCacheFilename(cacheDir, service);
    if items == null || items.IsEmpty() {
      return RemoveFile(filename);
    }
    var kf := KeyFile([], map[]);
    var todo := items.hash.Keys;
    while todo != {}
      invariant todo <= items.hash.Keys
      invariant kf.WellFormed()
      invariant kf.entries == WrittenFrom(items.hash, items.hash.Keys - todo)
      decreases todo
    {
      var k :| k in todo;
      var item := items.hash[k];
      assert item.Get("id").Some? ==> item.Get("id").value == k;
      assert k !in kf.entries && kf.Group(k) + item.props == item.props;
      WrittenFromStep(items.hash, items.hash.Keys - todo, k);
      assert items.hash.Keys - (todo - {k}) == (items.hash.Keys - todo) + {k};
      kf := SetKeyfileFromItem(kf, item);
      todo := todo - {k};
    }
    return WriteFile(filename, kf);
  }

  /** The item a group is read back as: a new item of the service holding the
      group's keys as they are. */
  function MojitoItemOf(service: string, group: map<string, string>, handle: nat): Item {
    Item(handle, service, group, 0, 0)
  }

  /** The item set after reading the first n groups: each group becomes an item
      (the i-th getting the object handle first + i), and an item whose id a
      member already has is not added, so the first group with an id wins. */
  function MojitoLoaded(service: string, kf: KeyFile, first: nat, n: nat): (h: map<string, Item>)
    requires n <= |kf.groups|
  {
    if n == 0 then map[]
    else
      var before := MojitoLoaded(service, kf, first, n - 1);
      var item := MojitoItemOf(service, kf.Group(kf.groups[n - 1]), first + n - 1);
      if ItemId(item) in before then before else before[ItemId(item) := item]
  }

  /** One turn of the group loop of mojito_cache_load: load_item_from_keyfile
      builds the item and mojito_set_add adds it. */
  method LoadGroup(r: MojitoSet<string, Item>, service: string, kf: KeyFile, first: nat, i: nat)
    requires i < |kf.groups|
    requires r.Valid() && r.keyOf == ItemId
    requires r.hash == MojitoLoaded(service, kf, first, i)
    modifies r
    ensures r.Valid()
    ensures r.hash == MojitoLoaded(service, kf, first, i + 1)
  {
    var entries := kf.Group(kf.groups[i]);
    var props: map<string, string> := map[];
    var keys := entries.Keys;
    while keys != {}
      invariant keys <= entries.Keys
      invariant props == PropsFrom(entries, entries.Keys - keys)
      decreases keys
    {
      var key :| key in keys;
      assert entries.Keys - (keys - {key}) == (entries.Keys - keys) + {key};
      props := props[key := entries[key]];
      keys := keys - {key};
    }
    assert props == entries;
    var item := Item(first + i, service, props, 0, 0);
    assert r.keyOf(item) == ItemId(item);
    r.Add(Some(item));
  }

  /** mojito_cache_load: NULL when there is no readable cache file or it has
      no groups; otherwise the item set of its groups. */
  method Load(service: string, file: Option<KeyFile>, first: nat) returns (r: MojitoSet?<string, Item>)
    ensures (file.None? || file.value.groups == []) ==> r == null
    ensures file.Some? && file.value.groups != [] ==>
              r != null && fresh(r) && r.Valid() && r.keyOf == ItemId &&
              r.hash == MojitoLoaded(service, file.value, first, |file.value.groups|)
  {
    if file.None? || file.value.groups == [] {
      return null;
    }
    var kf := file.value;
    var s := new MojitoSet(ItemId);
    var i := 0;
    while i < |kf.groups|
      invariant 0 <= i <= |kf.groups|
      invariant fresh(s) && s.Valid() && s.keyOf == ItemId
      invariant s.hash == MojitoLoaded(service, kf, first, i)
    {
      LoadGroup(s, service, kf, first, i);
      i := i + 1;
    }
    return s;
  }

  /** The first group holding an id is the one the loaded set keeps for it:
      later groups with the same id are dropped. */
  lemma {:induction false} FirstGroupWins(service: string, kf: KeyFile, first: nat, j: nat, n: nat)
    requires j < n <= |kf.groups|
    requires ItemId(MojitoItemOf(service, kf.Group(kf.groups[j]), first + j)) !in MojitoLoaded(service, kf, first, j)
    ensures var x := MojitoItemOf(service, kf.Group(kf.groups[j]), first + j);
            ItemId(x) in MojitoLoaded(service, kf, first, n) && MojitoLoaded(service, kf, first, n)[ItemId(x)] == x
  {
    if n > j + 1 {
      FirstGroupWins(service, kf, first, j, n - 1);
    }
  }

  /** No group of a well-formed file appears before its own position. */
  lemma GroupsDistinct(kf: KeyFile, n: nat)
    requires kf.WellFormed() && 0 < n <= |kf.groups|
    ensures kf.groups[n - 1] !in kf.groups[..n - 1]
  {
  }

  /** When every group holds its own name under "id" (as saved groups do), the
      groups read back are exactly the groups read, each holding its keys. */
  lemma {:induction false} MojitoLoadedByGroup(service: string, kf: KeyFile, first: nat, n: nat)
    requires kf.WellFormed() && n <= |kf.groups|
    requires forall g | g in kf.entries :: "id" in kf.entries[g] && kf.entries[g]["id"] == g
    ensures forall k :: k in MojitoLoaded(service, kf, first, n) <==> k in kf.groups[..n]
    ensures forall k | k in MojitoLoaded(service, kf, first, n) ::
              k in kf.entries && MojitoLoaded(service, kf, first, n)[k].props == kf.entries[k]
  {
    if n > 0 {
      MojitoLoadedByGroup(service, kf, first, n - 1);
      GroupsDistinct(kf, n);
      MojitoLoadedStep(service, kf, first, n, MojitoLoaded(service, kf, first, n - 1), kf.groups[..n - 1]);
    }
  }

  /** The induction step of MojitoLoadedByGroup, for the n-th group. */
  lemma MojitoLoadedStep(service: string, kf: KeyFile, first: nat, n: nat, before: map<string, Item>, prefix: seq<string>)
    requires 0 < n <= |kf.groups|
    requires kf.groups[n - 1] in kf.entries && kf.groups[n - 1] !in kf.groups[..n - 1]
    requires "id" in kf.entries[kf.groups[n - 1]] && kf.entries[kf.groups[n - 1]]["id"] == kf.groups[n - 1]
    requires before == MojitoLoaded(service, kf, first, n - 1) && prefix == kf.groups[..n - 1]
    requires forall k :: k in before <==> k in prefix
    requires forall k | k in before :: k in kf.entries && before[k].props == kf.entries[k]
    ensures forall k :: k in MojitoLoaded(service, kf, first, n) <==> k in kf.groups[..n]
    ensures forall k | k in MojitoLoaded(service, kf, first, n) ::
              k in kf.entries && MojitoLoaded(service, kf, first, n)[k].props == kf.entries[k]
  {
    var g := kf.groups[n - 1];
    assert kf.groups[..n] == kf.groups[..n - 1] + [g];
    var item := MojitoItemOf(service, kf.Group(g), first + n - 1);
    assert ItemId(item) == g;
    assert g !in before;
    var after := MojitoLoaded(service, kf, first, n);
    assert after == before[g := item];
  }

  /** A saved set read back holds exactly its items with an id, each with the
      properties it had. */
  lemma SaveThenLoadMojito(service: string, h: map<string, Item>, kf: KeyFile, first: nat)
    requires Keyed(h, ItemId)
    requires kf.WellFormed() && kf.entries == Written(h)
    ensures var l := MojitoLoaded(service, kf, first, |kf.groups|);
            forall k :: k in l <==> k in h && h[k].Get("id").Some?
    ensures var l := MojitoLoaded(service, kf, first, |kf.groups|);
            forall k | k in l :: k in h && l[k].props == h[k].props
  {
    forall g | g in kf.entries
      ensures "id" in kf.entries[g] && kf.entries[g]["id"] == g
    {
      assert ItemId(h[g]) == g;
    }
    MojitoLoadedByGroup(service, kf, first, |kf.groups|);
    assert kf.groups[..|kf.groups|] == kf.groups;
  }
}
