/** The on-disk cache of a service's items (sw-cache.c).  A set of items is
    written as a GKeyFile with one group per item, named by the item's id and
    holding its properties; the image paths it holds are written relative and
    made absolute again when the file is read back.  File reads and writes are
    outside the model: saving returns what would be written or removed, and
    loading takes the parsed key file (or its absence) as input. */
module SwCache {
  import opened Wrappers
  import opened SwSets
  import opened SwItems

  /** PACKAGE, the directory name under the user's cache directory. */
  const Package: string := "libsocialweb"

  /** A parsed GKeyFile: its groups in file order and each group's keys. */
  datatype KeyFile = KeyFile(groups: seq<string>, entries: map<string, map<string, string>>)
  {
    /** The keys of a group; none for a group the file does not have. */
    function Group(g: string): map<string, string> {
      if g in entries then entries[g] else map[]
    }

    /** Each group appears once, and exactly the listed groups have entries. */
    ghost predicate WellFormed() {
      (forall i, j | 0 <= i < j < |groups| :: groups[i] != groups[j]) &&
      (forall g :: g in entries <==> g in groups)
    }
  }

  /** g_key_file_set_string: the group is created at the end when new. */
  function SetString(kf: KeyFile, group: string, key: string, value: string): (r: KeyFile)
    ensures r.entries == kf.entries[group := (if group in kf.entries then kf.entries[group] else map[])[key := value]]
    ensures r.groups == if group in kf.entries then kf.groups else kf.groups + [group]
  {
    if group in kf.entries then
      KeyFile(kf.groups, kf.entries[group := kf.entries[group][key := value]])
    else
      KeyFile(kf.groups + [group], kf.entries[group := map[key := value]])
  }

  lemma SetStringWellFormed(kf: KeyFile, group: string, key: string, value: string)
    requires kf.WellFormed()
    ensures SetString(kf, group, key, value).WellFormed()
  {
  }

  /** Rewriting values keeps a key file well formed. */
  lemma SameShapeWellFormed(a: KeyFile, b: KeyFile)
    requires a.WellFormed() && a.groups == b.groups && a.entries.Keys == b.entries.Keys
    ensures b.WellFormed()
  {
  }

  /** What the cache write does: remove the file, or write the key file. */
  datatype CacheWrite = RemoveFile(path: string) | WriteFile(path: string, contents: KeyFile)

  /** get_cache_filename: `<cache>/PACKAGE/cache/<service>-<query>-<paramhash>`.
      The parameter hash is NULL for NULL parameters, and g_strconcat stops at
      the first NULL, so the name then ends at the second '-'. */
  function CacheFilename(cacheDir: string, service: string, query: string, paramHash: Option<string>): string {
    cacheDir + "/" + Package + "/cache/" + service + "-" + query + "-" + paramHash.GetOr("")
  }

  /** A NULL query is the "feed" query. */
  function QueryOrFeed(query: Option<string>): (q: string)
    ensures query.None? ==> q == "feed"
    ensures query.Some? ==> q == query.value
  {
    query.GetOr("feed")
  }

  // ---------------------------------------------------------------------
  // g_path_get_basename and the relative / absolute image paths
  // ---------------------------------------------------------------------

  /** The path without its trailing separators. */
  function StripSlashes(s: string): (r: string)
    ensures r <= s
    ensures r != [] ==> r[|r| - 1] != '/'
  {
    if s != [] && s[|s| - 1] == '/' then StripSlashes(s[..|s| - 1]) else s
  }

  /** The part of the path after its last separator. */
  function AfterLastSlash(s: string): (r: string)
    ensures '/' !in r
  {
    if s == [] || s[|s| - 1] == '/' then [] else AfterLastSlash(s[..|s| - 1]) + [s[|s| - 1]]
  }

  /** g_path_get_basename: "." for an empty path, "/" for a path of separators
      only, otherwise the last component with trailing separators ignored. */
  function Basename(s: string): (b: string)
  {
    if s == [] then "."
    else
      var t := StripSlashes(s);
      if t == [] then "/" else AfterLastSlash(t)
  }

  /** A base name is never empty, and holds a separator only when it is "/". */
  lemma BasenameShape(s: string)
    ensures Basename(s) != []
    ensures Basename(s) == "/" || '/' !in Basename(s)
  {
    if s != [] {
      var t := StripSlashes(s);
      if t != [] {
        assert t == t[..|t| - 1] + [t[|t| - 1]];
      }
    }
  }

  lemma {:induction false} AfterLastSlashOfJoin(p: string, v: string)
    requires '/' !in v
    ensures AfterLastSlash(p + "/" + v) == v
    decreases |v|
  {
    if v == [] {
      assert (p + "/" + v)[|p + "/" + v| - 1] == '/';
    } else {
      var w := v[..|v| - 1];
      assert (p + "/" + v)[..|p + "/" + v| - 1] == p + "/" + w;
      AfterLastSlashOfJoin(p, w);
      assert v == w + [v[|v| - 1]];
    }
  }

  /** The base name of dir/v is v, for a non-empty v without separators. */
  lemma BasenameOfJoin(dir: string, v: string)
    requires v != [] && '/' !in v
    ensures Basename(dir + "/" + v) == v
  {
    var s := dir + "/" + v;
    assert s[|s| - 1] == v[|v| - 1];
    assert StripSlashes(s) == s;
    AfterLastSlashOfJoin(dir, v);
  }

  /** The keys whose values are image paths. */
  predicate IsPathKey(key: string) {
    key == "authoricon" || key == "thumbnail"
  }

  /** make_relative_path */
  function MakeRelativePath(key: string, value: string): (r: Option<string>)
    ensures r.Some? <==> IsPathKey(key)
  {
    if IsPathKey(key) then Some(Basename(value)) else None
  }

  /** The directory downloaded images are kept in. */
  function ThumbnailDir(cacheDir: string): string {
    cacheDir + "/" + Package + "/thumbnails"
  }

  /** make_absolute_path */
  function MakeAbsolutePath(cacheDir: string, key: string, value: string): (r: Option<string>)
    ensures r.Some? <==> IsPathKey(key)
  {
    if IsPathKey(key) then Some(ThumbnailDir(cacheDir) + "/" + value) else None
  }

  /** A path made absolute and then relative again is the original name, so a
      cache file moves between users intact. */
  lemma AbsoluteThenRelative(cacheDir: string, key: string, v: string)
    requires IsPathKey(key) && v != [] && '/' !in v
    ensures MakeRelativePath(key, MakeAbsolutePath(cacheDir, key, v).value) == Some(v)
  {
    BasenameOfJoin(ThumbnailDir(cacheDir), v);
  }

  /** A path saved relative and loaded back points at the file of the same
      name in the thumbnail directory. */
  lemma RelativeThenAbsolute(cacheDir: string, key: string, v: string)
    requires IsPathKey(key)
    ensures MakeAbsolutePath(cacheDir, key, MakeRelativePath(key, v).value) ==
              Some(ThumbnailDir(cacheDir) + "/" + Basename(v))
  {
  }

  /** The non-path cases the source's own tests check. */
  lemma NonPathExamples()
    ensures MakeRelativePath("authorid", "/foo/bar").None?
    ensures MakeRelativePath("title", "this is a test").None?
    ensures MakeAbsolutePath("/c", "authorid", "1234").None?
  {
  }

  /** A cached thumbnail path loses its directory. */
  lemma ThumbnailExample()
    ensures MakeRelativePath("thumbnail", "/home/ross/.cache/libsocialweb/thumbnails/1234") == Some("1234")
  {
    var dir := "/home/ross/.cache/libsocialweb/thumbnails";
    BasenameOfJoin(dir, "1234");
    assert dir + "/" + "1234" == "/home/ross/.cache/libsocialweb/thumbnails/1234";
  }

  /** A stored name is found again in the thumbnail directory. */
  lemma AbsoluteExample()
    ensures MakeAbsolutePath("/c", "thumbnail", "1234") == Some("/c/libsocialweb/thumbnails/1234")
  {
    assert ThumbnailDir("/c") + "/" + "1234" == "/c/libsocialweb/thumbnails/1234";
  }

  // ---------------------------------------------------------------------
  // Saving
  // ---------------------------------------------------------------------

  /** The value written for a property: relative for image paths. */
  function SavedValue(key: string, value: string): string {
    MakeRelativePath(key, value).GetOr(value)
  }

  /** The given properties of an item as written, with image paths made
      relative. */
  function RelativeProps(props: map<string, string>, ks: set<string>): map<string, string> {
    map k | k in ks && k in props :: SavedValue(k, props[k])
  }

  lemma RelativePropsStep(base: map<string, string>, props: map<string, string>, done: set<string>, key: string)
    requires key in props
    ensures base + RelativeProps(props, done + {key}) ==
            (base + RelativeProps(props, done))[key := SavedValue(key, props[key])]
  {
  }

  /** The group an item is written as: the "cached" marker, then every
      property (a "cached" property of the item's own overrides the marker). */
  function GroupOf(item: Item): map<string, string> {
    map["cached" := "1"] + RelativeProps(item.props, item.props.Keys)
  }

  /** Only items with an id that are ready are written. */
  predicate Saveable(item: Item) {
    item.Get("id").Some? && item.Ready()
  }

  /** The groups the members under the given keys are written as, by id. */
  function SavedFrom(h: map<string, Item>, ks: set<string>): map<string, map<string, string>> {
    map k | k in ks && k in h && Saveable(h[k]) :: GroupOf(h[k])
  }

  /** The groups an item set is written as, by id. */
  function Saved(h: map<string, Item>): map<string, map<string, string>> {
    SavedFrom(h, h.Keys)
  }

  lemma SavedFromStep(h: map<string, Item>, ks: set<string>, k: string)
    requires k in h
    ensures SavedFrom(h, ks + {k}) ==
              if Saveable(h[k]) then SavedFrom(h, ks)[k := GroupOf(h[k])] else SavedFrom(h, ks)
  {
  }

  /** The property loop of set_keyfile_from_item: each property is set in
      the item's group, image paths relative. */
  method SetProps(kf: KeyFile, group: string, props: map<string, string>) returns (r: KeyFile)
    requires group in kf.entries
    ensures r.groups == kf.groups
    ensures r.entries == kf.entries[group := kf.entries[group] + RelativeProps(props, props.Keys)]
  {
    r := kf;
    ghost var base := kf.entries[group];
    assert RelativeProps(props, props.Keys - props.Keys) == map[];
    assert base + map[] == base;
    assert kf.entries == kf.entries[group := base];
    var keys := props.Keys;
    while keys != {}
      invariant keys <= props.Keys
      invariant r.groups == kf.groups
      invariant r.entries == kf.entries[group := base + RelativeProps(props, props.Keys - keys)]
      decreases keys
    {
      var key :| key in keys;
      var value := props[key];
      var newValue := MakeRelativePath(key, value);
      assert props.Keys - (keys - {key}) == (props.Keys - keys) + {key};
      RelativePropsStep(base, props, props.Keys - keys, key);
      if newValue.Some? {
        r := SetString(r, group, key, newValue.value);
      } else {
        r := SetString(r, group, key, value);
      }
      keys := keys - {key};
    }
    assert props.Keys - keys == props.Keys;
  }

  /** set_keyfile_from_item: an item without an id or not ready adds nothing;
      otherwise its group gets the marker and then each property. */
  method SetKeyfileFromItem(kf: KeyFile, item: Item) returns (r: KeyFile)
    requires kf.WellFormed()
    ensures r.WellFormed()
    ensures !Saveable(item) ==> r == kf
    ensures Saveable(item) ==>
              var g := item.Get("id").value;
              r.entries == kf.entries[g := (if g in kf.entries then kf.entries[g] else map[])["cached" := "1"] + RelativeProps(item.props, item.props.Keys)]
  {
    if item.Get("id").None? || !item.Ready() {
      return kf;
    }
    var group := item.Get("id").value;
    var marked := SetString(kf, group, "cached", "1");
    SetStringWellFormed(kf, group, "cached", "1");
    r := SetProps(marked, group, item.props);
    SameShapeWellFormed(marked, r);
  }

  /** sw_cache_save: a NULL or empty set removes the cache file; otherwise the
      file is written with one group per saveable item. */
  method Save(cacheDir: string, service: string, query: Option<string>, paramHash: Option<string>,
              items: SwSet?<string, Item>) returns (w: CacheWrite)
    requires items != null ==> items.Valid() && items.keyOf == ItemId
    ensures w.path == CacheFilename(cacheDir, service, QueryOrFeed(query), paramHash)
    ensures (items == null || items.hash == map[]) ==> w.RemoveFile?
    ensures items != null && items.hash != map[] ==>
              w.WriteFile? && w.contents.WellFormed() && w.contents.entries == Saved(items.hash)
  {
    var filename := CacheFilename(cacheDir, service, QueryOrFeed(query), paramHash);
    if items == null || items.IsEmpty() {
      return RemoveFile(filename);
    }
    var kf := KeyFile([], map[]);
    var todo := items.hash.Keys;
    while todo != {}
      invariant todo <= items.hash.Keys
      invariant kf.WellFormed()
      invariant kf.entries == SavedFrom(items.hash, items.hash.Keys - todo)
      decreases todo
    {
      var k :| k in todo;
      var item := items.hash[k];
      assert Saveable(item) ==> item.Get("id").value == k;
      SavedFromStep(items.hash, items.hash.Keys - todo, k);
      assert items.hash.Keys - (todo - {k}) == (items.hash.Keys - todo) + {k};
      kf := SetKeyfileFromItem(kf, item);
      todo := todo - {k};
    }
    return WriteFile(filename, kf);
  }

  /** sw_cache_drop: the cache file is removed. */
  function Drop(cacheDir: string, service: string, query: Option<string>, paramHash: Option<string>): (w: CacheWrite)
    ensures w.RemoveFile? && w.path == CacheFilename(cacheDir, service, QueryOrFeed(query), paramHash)
  {
    RemoveFile(CacheFilename(cacheDir, service, QueryOrFeed(query), paramHash))
  }

  // ---------------------------------------------------------------------
  // Loading
  // ---------------------------------------------------------------------

  /** The value a stored property is read back as: absolute for image paths. */
  function LoadedValue(cacheDir: string, key: string, value: string): string {
    MakeAbsolutePath(cacheDir, key, value).GetOr(value)
  }

  function AbsoluteProps(cacheDir: string, group: map<string, string>): map<string, string> {
    map k | k in group :: LoadedValue(cacheDir, k, group[k])
  }

  /** The item a group is read back as. */
  function ItemOf(cacheDir: string, service: string, group: map<string, string>, handle: nat): Item {
    Item(handle, service, AbsoluteProps(cacheDir, group), 0, 0)
  }

  /** sw_service_is_uid_banned on the item's id; an item without an id is not
      banned. */
  predicate Banned(item: Item, banned: set<string>) {
    item.Get("id").Some? && item.Get("id").value in banned
  }

  /** The item set after reading the first n groups: each group becomes an item
      (the i-th getting the object handle first + i), and every item that is
      not banned is added by id, replacing an earlier one with the same id. */
  function Loaded(cacheDir: string, service: string, banned: set<string>, kf: KeyFile, first: nat, n: nat): (h: map<string, Item>)
    requires n <= |kf.groups|
  {
    if n == 0 then map[]
    else
      var before := Loaded(cacheDir, service, banned, kf, first, n - 1);
      var g := kf.groups[n - 1];
      var item := ItemOf(cacheDir, service, kf.Group(g), first + n - 1);
      if Banned(item, banned) then before else before[ItemId(item) := item]
  }

  lemma LoadedStep(cacheDir: string, service: string, banned: set<string>, kf: KeyFile, first: nat, i: nat)
    requires i < |kf.groups|
    ensures var next := ItemOf(cacheDir, service, kf.Group(kf.groups[i]), first + i);
            var before := Loaded(cacheDir, service, banned, kf, first, i);
            Loaded(cacheDir, service, banned, kf, first, i + 1) ==
              if Banned(next, banned) then before else before[ItemId(next) := next]
  {
  }

  /** load_item_from_keyfile: a new item of the service holding the group's
      keys, image paths made absolute; NULL when its id is banned. */
  method LoadItem(cacheDir: string, service: string, banned: set<string>, kf: KeyFile, group: string, handle: nat)
    returns (r: Option<Item>)
    ensures var item := ItemOf(cacheDir, service, kf.Group(group), handle);
            r == if Banned(item, banned) then None else Some(item)
  {
    var entries := kf.Group(group);
    var props: map<string, string> := map[];
    var keys := entries.Keys;
    while keys != {}
      invariant keys <= entries.Keys
      invariant props == map k | k in entries && k !in keys :: LoadedValue(cacheDir, k, entries[k])
      decreases keys
    {
      var key :| key in keys;
      var value := entries[key];
      var newValue := MakeAbsolutePath(cacheDir, key, value);
      if newValue.Some? {
        props := props[key := newValue.value];
      } else {
        props := props[key := value];
      }
      keys := keys - {key};
    }
    assert props == AbsoluteProps(cacheDir, entries);
    var item := Item(handle, service, props, 0, 0);
    if item.Get("id").Some? && item.Get("id").value in banned {
      return None;
    }
    return Some(item);
  }

  /** sw_cache_load: NULL when there is no readable cache file or it has no
      groups; otherwise the item set of its groups, banned ids left out. */
  method Load(cacheDir: string, service: string, banned: set<string>, file: Option<KeyFile>, first: nat)
    returns (r: SwSet?<string, Item>)
    requires file.Some? ==> file.value.WellFormed()
    ensures (file.None? || file.value.groups == []) ==> r == null
    ensures file.Some? && file.value.groups != [] ==>
              r != null && fresh(r) && r.Valid() && r.keyOf == ItemId &&
              r.hash == Loaded(cacheDir, service, banned, file.value, first, |file.value.groups|)
  {
    if file.None? || file.value.groups == [] {
      return null;
    }
    r := LoadGroups(cacheDir, service, banned, file.value, first);
  }

  /** The group loop of sw_cache_load: every group is read into a new item,
      and the items not banned are added to a new item set. */
  method LoadGroups(cacheDir: string, service: string, banned: set<string>, kf: KeyFile, first: nat)
    returns (r: SwSet<string, Item>)
    ensures fresh(r) && r.Valid() && r.keyOf == ItemId
    ensures r.hash == Loaded(cacheDir, service, banned, kf, first, |kf.groups|)
  {
    r := new SwSet(ItemId);
    var i := 0;
    while i < |kf.groups|
      invariant 0 <= i <= |kf.groups|
      invariant fresh(r) && r.Valid() && r.keyOf == ItemId
      invariant r.hash == Loaded(cacheDir, service, banned, kf, first, i)
    {
      LoadGroup(r, cacheDir, service, banned, kf, first, i);
      i := i + 1;
    }
  }

  /** One turn of the group loop: the i-th group is read, and its item added
      unless banned. */
  method LoadGroup(r: SwSet<string, Item>, cacheDir: string, service: string, banned: set<string>, kf: KeyFile, first: nat, i: nat)
    requires i < |kf.groups|
    requires r.Valid() && r.keyOf == ItemId
    requires r.hash == Loaded(cacheDir, service, banned, kf, first, i)
    modifies r
    ensures r.Valid()
    ensures r.hash == Loaded(cacheDir, service, banned, kf, first, i + 1)
  {
    ghost var next := ItemOf(cacheDir, service, kf.Group(kf.groups[i]), first + i);
    LoadedStep(cacheDir, service, banned, kf, first, i);
    var item := LoadItem(cacheDir, service, banned, kf, kf.groups[i], first + i);
    if item.Some? {
      assert item.value == next && r.keyOf(next) == ItemId(next);
      r.Add(item.value);
    }
  }

  /** Every loaded item has a group that it came from, is not banned, and holds
      that group's keys with image paths made absolute. */
  lemma {:induction false} LoadedItems(cacheDir: string, service: string, banned: set<string>, kf: KeyFile, first: nat, n: nat)
    requires kf.WellFormed() && n <= |kf.groups|
    ensures forall k | k in Loaded(cacheDir, service, banned, kf, first, n) ::
              var x := Loaded(cacheDir, service, banned, kf, first, n)[k];
              !Banned(x, banned) && x.service == service && x.Ready() && ItemId(x) == k &&
              exists g | g in kf.entries :: x.props == AbsoluteProps(cacheDir, kf.entries[g])
  {
    if n > 0 {
      LoadedItems(cacheDir, service, banned, kf, first, n - 1);
      var g := kf.groups[n - 1];
      assert g in kf.entries;
    }
  }

  /** Each group written for an item names the item's id and holds it under
      "id", so reading it back finds the same id. */
  lemma GroupKeepsId(item: Item)
    requires Saveable(item)
    ensures "id" in GroupOf(item) && GroupOf(item)["id"] == item.Get("id").value
  {
  }

  /** When every group holds its own name under "id" (as saved groups do), the
      groups read back are exactly the groups read that are not banned, and
      each holds its group's keys with image paths made absolute. */
  lemma LoadedByGroup(cacheDir: string, service: string, banned: set<string>, kf: KeyFile, first: nat, n: nat)
    requires kf.WellFormed() && n <= |kf.groups|
    requires forall g | g in kf.entries :: "id" in kf.entries[g] && kf.entries[g]["id"] == g
    ensures forall k :: k in Loaded(cacheDir, service, banned, kf, first, n) <==> k in kf.groups[..n] && k !in banned
    ensures forall k | k in Loaded(cacheDir, service, banned, kf, first, n) ::
              k in kf.entries && Loaded(cacheDir, service, banned, kf, first, n)[k].props == AbsoluteProps(cacheDir, kf.entries[k])
  {
    forall k
      ensures k in Loaded(cacheDir, service, banned, kf, first, n) <==> k in kf.groups[..n] && k !in banned
      ensures k in Loaded(cacheDir, service, banned, kf, first, n) ==>
                k in kf.entries && Loaded(cacheDir, service, banned, kf, first, n)[k].props == AbsoluteProps(cacheDir, kf.entries[k])
    {
      LoadedIdsAt(cacheDir, service, banned, kf, first, n, k);
      LoadedPropsAt(cacheDir, service, banned, kf, first, n, k);
    }
  }

  /** The membership half of LoadedByGroup for one id, by induction on the
      groups read. */
  lemma {:induction false} LoadedIdsAt(cacheDir: string, service: string, banned: set<string>, kf: KeyFile, first: nat, n: nat, k: string)
    requires n <= |kf.groups|
    requires forall g | g in kf.groups :: g in kf.entries && "id" in kf.entries[g] && kf.entries[g]["id"] == g
    ensures k in Loaded(cacheDir, service, banned, kf, first, n) <==> k in kf.groups[..n] && k !in banned
  {
    if n > 0 {
      LoadedIdsAt(cacheDir, service, banned, kf, first, n - 1, k);
      var g := kf.groups[n - 1];
      assert g in kf.groups;
      LoadedStep(cacheDir, service, banned, kf, first, n - 1);
      GroupItem(cacheDir, service, banned, kf, g, first + n - 1);
      assert kf.groups[..n] == kf.groups[..n - 1] + [g];
      assert k in kf.groups[..n] <==> k in kf.groups[..n - 1] || k == g;
    }
  }

  /** The contents half of LoadedByGroup for one id. */
  lemma {:induction false} LoadedPropsAt(cacheDir: string, service: string, banned: set<string>, kf: KeyFile, first: nat, n: nat, k: string)
    requires n <= |kf.groups|
    requires forall g | g in kf.groups :: g in kf.entries && "id" in kf.entries[g] && kf.entries[g]["id"] == g
    ensures k in Loaded(cacheDir, service, banned, kf, first, n) ==>
              k in kf.entries && Loaded(cacheDir, service, banned, kf, first, n)[k].props == AbsoluteProps(cacheDir, kf.entries[k])
  {
    if n > 0 {
      LoadedPropsAt(cacheDir, service, banned, kf, first, n - 1, k);
      var g := kf.groups[n - 1];
      assert g in kf.groups;
      LoadedStep(cacheDir, service, banned, kf, first, n - 1);
      GroupItem(cacheDir, service, banned, kf, g, first + n - 1);
    }
  }

  /** A group holding its own name under "id" is read back as an item with
      that id, banned exactly when the name is. */
  lemma GroupItem(cacheDir: string, service: string, banned: set<string>, kf: KeyFile, g: string, handle: nat)
    requires g in kf.entries && "id" in kf.entries[g] && kf.entries[g]["id"] == g
    ensures var item := ItemOf(cacheDir, service, kf.Group(g), handle);
            ItemId(item) == g && (Banned(item, banned) <==> g in banned) &&
            item.props == AbsoluteProps(cacheDir, kf.entries[g])
  {
    var item := ItemOf(cacheDir, service, kf.Group(g), handle);
    assert item.props["id"] == g;
  }

  /** The groups of a saved file, read back in any order, give back exactly
      the saved items that are not banned, each holding what was written. */
  lemma SaveThenLoad(cacheDir: string, service: string, banned: set<string>,
                     h: map<string, Item>, kf: KeyFile, first: nat)
    requires Keyed(h, ItemId)
    requires kf.WellFormed() && kf.entries == Saved(h)
    ensures var l := Loaded(cacheDir, service, banned, kf, first, |kf.groups|);
            forall k :: k in l <==> k in h && Saveable(h[k]) && k !in banned
    ensures var l := Loaded(cacheDir, service, banned, kf, first, |kf.groups|);
            forall k | k in l :: k in h && l[k].props == AbsoluteProps(cacheDir, GroupOf(h[k]))
  {
    forall g | g in kf.entries
      ensures "id" in kf.entries[g] && kf.entries[g]["id"] == g
    {
      GroupKeepsId(h[g]);
    }
    LoadedByGroup(cacheDir, service, banned, kf, first, |kf.groups|);
    assert kf.groups[..|kf.groups|] == kf.groups;
  }
}
