/** SwItemView: the daemon side of one open view of a service's feed.  It keeps
    the items it has published in an id-keyed set (with a uid => item table
    beside it), holds items that are not ready yet in a pending set until a
    coalescing timeout sends them, collects items that changed in a list sent
    on a rate-limiting timeout, and publishes the difference between what it
    holds and a new set of items as ItemsRemoved / ItemsChanged / ItemsAdded
    signals, kept here as an append-only event log.  Timeouts firing and item
    notifications are explicit method calls. */
module SwItemViews {
  import opened Wrappers
  import opened SwSets
  import opened SwItems
  import Strs

  type ItemPayload = Payload<map<string, string>>

  /** The signals a view emits over the bus, in emission order. */
  datatype Event =
    | ItemsAdded(items: seq<ItemPayload>)
    | ItemsChanged(items: seq<ItemPayload>)
    | ItemsRemoved(pairs: seq<(string, string)>)

  /** The payloads of the ready items of a list, in list order. */
  function ReadyPayloads(items: seq<Item>, parseDate: Option<string> -> int): seq<ItemPayload> {
    if items == [] then []
    else
      var x := items[|items| - 1];
      ReadyPayloads(DropLast(items), parseDate) + (if x.Ready() then [ToPayload(x, parseDate)] else [])
  }

  /** The items of a list that are not ready, in list order. */
  function NotReady(items: seq<Item>): seq<Item> {
    if items == [] then []
    else
      var x := items[|items| - 1];
      NotReady(DropLast(items)) + (if x.Ready() then [] else [x])
  }

  /** The handles (object identities) of a list of items. */
  function Handles(items: seq<Item>): set<nat> {
    if items == [] then {} else Handles(DropLast(items)) + {items[|items| - 1].handle}
  }

  /** The table an item set becomes after sw_set_add of each item in turn. */
  function AddAll(h: map<string, Item>, items: seq<Item>): map<string, Item> {
    if items == [] then h
    else
      var x := items[|items| - 1];
      AddAll(h, DropLast(items))[ItemId(x) := x]
  }

  /** The (service name, id) pair ItemsRemoved carries for each item. */
  function RemovedPairs(items: seq<Item>): seq<(string, string)> {
    seq(|items|, i requires 0 <= i < |items| => (items[i].service, ItemId(items[i])))
  }

  /** No object appears twice. */
  predicate DistinctHandles(items: seq<Item>) {
    forall i, j | 0 <= i < j < |items| :: items[i].handle != items[j].handle
  }

  /** A table in which the stored snapshot of the object it.handle is replaced
      by its new state it: the view holds the object, so a change to it is seen
      through every reference. */
  function RefreshedTable(h: map<string, Item>, it: Item): map<string, Item> {
    if ItemId(it) in h && h[ItemId(it)].handle == it.handle then h[ItemId(it) := it] else h
  }

  function RefreshedList(l: seq<Item>, it: Item): seq<Item> {
    seq(|l|, i requires 0 <= i < |l| => if l[i].handle == it.handle then it else l[i])
  }

  lemma ReadyPayloadsSnoc(l: seq<Item>, x: Item, parseDate: Option<string> -> int)
    ensures ReadyPayloads(l + [x], parseDate) ==
              ReadyPayloads(l, parseDate) + (if x.Ready() then [ToPayload(x, parseDate)] else [])
  {
    assert DropLast(l + [x]) == l;
  }

  lemma NotReadySnoc(l: seq<Item>, x: Item)
    ensures NotReady(l + [x]) == NotReady(l) + (if x.Ready() then [] else [x])
  {
    assert DropLast(l + [x]) == l;
  }

  lemma AddAllSnoc(h: map<string, Item>, l: seq<Item>, x: Item)
    ensures AddAll(h, l + [x]) == AddAll(h, l)[ItemId(x) := x]
  {
    assert DropLast(l + [x]) == l;
  }

  lemma HandlesSnoc(l: seq<Item>, x: Item)
    ensures Handles(l + [x]) == Handles(l) + {x.handle}
  {
    assert DropLast(l + [x]) == l;
  }

  /** Two lists holding the same objects position by position have the same
      handles. */
  lemma {:induction false} HandlesSame(a: seq<Item>, b: seq<Item>)
    requires |a| == |b| && forall i | 0 <= i < |a| :: a[i].handle == b[i].handle
    ensures Handles(a) == Handles(b)
  {
    if a != [] {
      HandlesSame(DropLast(a), DropLast(b));
    }
  }

  /** The handles of a list are those of its elements. */
  lemma {:induction false} HandlesOfElements(l: seq<Item>)
    ensures forall i | 0 <= i < |l| :: l[i].handle in Handles(l)
    ensures forall h | h in Handles(l) :: exists i | 0 <= i < |l| :: l[i].handle == h
  {
    if l != [] {
      var init := DropLast(l);
      HandlesOfElements(init);
      forall i | 0 <= i < |l| ensures l[i].handle in Handles(l) {
        if i < |init| {
          assert l[i] == init[i];
        }
      }
      forall h | h in Handles(l) ensures exists i | 0 <= i < |l| :: l[i].handle == h {
        if h in Handles(init) {
          var i :| 0 <= i < |init| && init[i].handle == h;
          assert l[i] == init[i];
        } else {
          assert l[|l| - 1].handle == h;
        }
      }
    }
  }

  /** Refreshing a snapshot in the changed list keeps its objects in place:
      same length, same handle at each position, and so the same handles and
      distinctness. */
  lemma RefreshedListSpec(l: seq<Item>, it: Item)
    ensures |RefreshedList(l, it)| == |l|
    ensures forall i | 0 <= i < |l| :: RefreshedList(l, it)[i].handle == l[i].handle
    ensures forall i | 0 <= i < |l| :: RefreshedList(l, it)[i] == l[i] || RefreshedList(l, it)[i] == it
    ensures Handles(RefreshedList(l, it)) == Handles(l)
    ensures DistinctHandles(l) ==> DistinctHandles(RefreshedList(l, it))
  {
    HandlesSame(RefreshedList(l, it), l);
  }

  /** Appending an object the list does not hold keeps the handles distinct. */
  lemma AppendNewHandle(l: seq<Item>, it: Item)
    requires DistinctHandles(l) && it.handle !in Handles(l)
    ensures DistinctHandles(l + [it])
    ensures Handles(l + [it]) == Handles(l) + {it.handle}
  {
    HandlesOfElements(l);
    HandlesSnoc(l, it);
    forall i, j | 0 <= i < j < |l + [it]| ensures (l + [it])[i].handle != (l + [it])[j].handle {
      assert (l + [it])[i] == l[i];
    }
  }

  /** ItemsAdded carries exactly the ready items of the list, each once per
      occurrence and in list order; the others are the not-ready ones. */
  lemma {:induction false} ReadyPayloadsSpec(items: seq<Item>, parseDate: Option<string> -> int)
    ensures forall p | p in ReadyPayloads(items, parseDate) ::
              exists x | x in items :: x.Ready() && p == ToPayload(x, parseDate)
    ensures forall x | x in items && x.Ready() :: ToPayload(x, parseDate) in ReadyPayloads(items, parseDate)
    ensures forall x | x in NotReady(items) :: x in items && !x.Ready()
    ensures forall x | x in items && !x.Ready() :: x in NotReady(items)
    ensures |ReadyPayloads(items, parseDate)| + |NotReady(items)| == |items|
  {
    if items != [] {
      var init := DropLast(items);
      var x := items[|items| - 1];
      ReadyPayloadsSpec(init, parseDate);
      assert items == init + [x];
      forall p | p in ReadyPayloads(items, parseDate)
        ensures exists y | y in items :: y.Ready() && p == ToPayload(y, parseDate)
      {
        if p in ReadyPayloads(init, parseDate) {
          var y :| y in init && y.Ready() && p == ToPayload(y, parseDate);
          assert y in items;
        } else {
          assert x in items && x.Ready() && p == ToPayload(x, parseDate);
        }
      }
    }
  }

  /** When every item of a list is ready, all of them are sent and none waits. */
  lemma {:induction false} AllReadyAllSent(items: seq<Item>, parseDate: Option<string> -> int)
    requires forall x | x in items :: x.Ready()
    ensures NotReady(items) == []
    ensures |ReadyPayloads(items, parseDate)| == |items|
  {
    if items != [] {
      assert forall x | x in DropLast(items) :: x in items;
      AllReadyAllSent(DropLast(items), parseDate);
    }
  }

  /** The ids a list occupies grow by the id of each appended item. */
  lemma KeysOfSnoc(l: seq<Item>, x: Item)
    ensures Elems(l + [x]) == Elems(l) + {x}
    ensures KeysOf(ItemId, Elems(l + [x])) == KeysOf(ItemId, Elems(l)) + {ItemId(x)}
  {
    assert Elems(l + [x]) == Elems(l) + {x};
  }

  /** Adding items one by one to an id-keyed table keeps it keyed, and the
      new keys are the ids of the items. */
  lemma {:induction false} AddAllKeys(h: map<string, Item>, xs: seq<Item>)
    requires Keyed(h, ItemId)
    ensures Keyed(AddAll(h, xs), ItemId)
    ensures AddAll(h, xs).Keys == h.Keys + KeysOf(ItemId, Elems(xs))
  {
    if xs != [] {
      var init := DropLast(xs);
      var x := xs[|xs| - 1];
      AddAllKeys(h, init);
      assert xs == init + [x];
      KeysOfSnoc(init, x);
    }
  }

  /** After adding items one by one, each entry under one of their ids is
      one of them, and every other entry is the one that was there. */
  lemma {:induction false} AddAllEntries(h: map<string, Item>, xs: seq<Item>)
    requires Keyed(h, ItemId)
    ensures forall k | k in AddAll(h, xs) ::
              if k in KeysOf(ItemId, Elems(xs)) then AddAll(h, xs)[k] in xs
              else k in h && AddAll(h, xs)[k] == h[k]
  {
    if xs != [] {
      var init := DropLast(xs);
      var x := xs[|xs| - 1];
      AddAllEntries(h, init);
      assert xs == init + [x];
      KeysOfSnoc(init, x);
      assert forall y | y in init :: y in xs;
    }
  }

  /** Adding items one by one to an id-keyed table keeps it keyed; the new
      keys are the ids of the items, and each entry is either one of them
      or the entry that was there. */
  lemma AddAllSpec(h: map<string, Item>, xs: seq<Item>)
    requires Keyed(h, ItemId)
    ensures Keyed(AddAll(h, xs), ItemId)
    ensures AddAll(h, xs).Keys == h.Keys + KeysOf(ItemId, Elems(xs))
    ensures forall k | k in AddAll(h, xs) ::
              if k in KeysOf(ItemId, Elems(xs)) then AddAll(h, xs)[k] in xs
              else AddAll(h, xs)[k] == h[k]
  {
    AddAllKeys(h, xs);
    AddAllEntries(h, xs);
  }

  /** Refreshing a snapshot keeps the table keyed and its keys. */
  lemma RefreshedTableKeyed(h: map<string, Item>, it: Item)
    requires Keyed(h, ItemId)
    ensures Keyed(RefreshedTable(h, it), ItemId)
    ensures RefreshedTable(h, it).Keys == h.Keys
    ensures forall k | k in h :: RefreshedTable(h, it)[k].handle == h[k].handle
  {
  }

  /** In an id-keyed table, a member sits under its own id. */
  lemma MemberAtOwnKey(h: map<string, Item>, x: Item)
    requires Keyed(h, ItemId) && x in h.Values
    ensures ItemId(x) in h && h[ItemId(x)] == x
  {
    var k :| k in h && h[k] == x;
  }

  /** The members of an id-keyed table have distinct ids. */
  lemma KeyedInjective(h: map<string, Item>)
    requires Keyed(h, ItemId)
    ensures KeyInjective(ItemId, h.Values)
  {
    forall a, b | a in h.Values && b in h.Values && ItemId(a) == ItemId(b)
      ensures a == b
    {
      MemberAtOwnKey(h, a);
      MemberAtOwnKey(h, b);
    }
  }

  /** The items of a list have pairwise different ids. */
  predicate DistinctIds(l: seq<Item>) {
    forall i, j | 0 <= i < j < |l| :: ItemId(l[i]) != ItemId(l[j])
  }

  /** A list without repetitions drawn from a collection with distinct ids has
      distinct ids. */
  lemma DistinctIdsOfInjective(l: seq<Item>)
    requires forall i, j | 0 <= i < j < |l| :: l[i] != l[j]
    requires KeyInjective(ItemId, Elems(l))
    ensures DistinctIds(l)
  {
    forall i, j | 0 <= i < j < |l| ensures ItemId(l[i]) != ItemId(l[j]) {
      assert l[i] in Elems(l) && l[j] in Elems(l);
    }
  }

  /** Whether update_existing, holding table t, replaces the held item by x:
      an item with x's id is held and sw_item_equal says it differs from x. */
  predicate Replaces(t: map<string, Item>, x: Item, eq: (Item, Item) -> bool) {
    ItemId(x) in t && !eq(x, t[ItemId(x)])
  }

  /** The table update_existing leaves after visiting the list in order. */
  function Updated(h: map<string, Item>, l: seq<Item>, eq: (Item, Item) -> bool): map<string, Item> {
    if l == [] then h
    else
      var t := Updated(h, DropLast(l), eq);
      var x := l[|l| - 1];
      if Replaces(t, x, eq) then t[ItemId(x) := x] else t
  }

  /** The items update_existing reports changed, in the order visited. */
  function Replacements(h: map<string, Item>, l: seq<Item>, eq: (Item, Item) -> bool): seq<Item> {
    if l == [] then []
    else
      var x := l[|l| - 1];
      Replacements(h, DropLast(l), eq) + (if Replaces(Updated(h, DropLast(l), eq), x, eq) then [x] else [])
  }

  lemma UpdatedSnoc(h: map<string, Item>, l: seq<Item>, x: Item, eq: (Item, Item) -> bool)
    ensures Updated(h, l + [x], eq) ==
              if Replaces(Updated(h, l, eq), x, eq) then Updated(h, l, eq)[ItemId(x) := x] else Updated(h, l, eq)
    ensures Replacements(h, l + [x], eq) ==
              Replacements(h, l, eq) + (if Replaces(Updated(h, l, eq), x, eq) then [x] else [])
  {
    assert DropLast(l + [x]) == l;
  }

  /** Dropping the last item of a list with distinct ids keeps the ids
      distinct, and no remaining item shares the last one's id. */
  lemma DistinctIdsDropLast(l: seq<Item>)
    requires DistinctIds(l) && l != []
    ensures DistinctIds(DropLast(l))
    ensures forall y | y in DropLast(l) :: ItemId(y) != ItemId(l[|l| - 1])
  {
    var init := DropLast(l);
    forall i, j | 0 <= i < j < |init| ensures ItemId(init[i]) != ItemId(init[j]) {
      assert init[i] == l[i] && init[j] == l[j];
    }
    forall y | y in init ensures ItemId(y) != ItemId(l[|l| - 1]) {
      var j :| 0 <= j < |init| && init[j] == y;
      assert l[j] == y;
    }
  }

  /** update_existing keeps the table keyed and keeps its ids. */
  lemma {:induction false} UpdatedKeys(h: map<string, Item>, l: seq<Item>, eq: (Item, Item) -> bool)
    requires Keyed(h, ItemId)
    ensures Keyed(Updated(h, l, eq), ItemId)
    ensures Updated(h, l, eq).Keys == h.Keys
  {
    if l != [] {
      UpdatedKeys(h, DropLast(l), eq);
    }
  }

  /** With distinct ids, a listed item whose id is held replaces the held
      item exactly when the two are unequal, and other entries stay. */
  lemma {:induction false} UpdatedEntries(h: map<string, Item>, l: seq<Item>, eq: (Item, Item) -> bool)
    requires Keyed(h, ItemId) && DistinctIds(l)
    ensures forall x | x in l && ItemId(x) in h ::
              ItemId(x) in Updated(h, l, eq) &&
              Updated(h, l, eq)[ItemId(x)] == if eq(x, h[ItemId(x)]) then h[ItemId(x)] else x
    ensures forall k | k in h && k !in KeysOf(ItemId, Elems(l)) :: k in Updated(h, l, eq) && Updated(h, l, eq)[k] == h[k]
  {
    if l != [] {
      var init := DropLast(l);
      var x := l[|l| - 1];
      assert l == init + [x];
      DistinctIdsDropLast(l);
      UpdatedKeys(h, init, eq);
      UpdatedEntries(h, init, eq);
      UpdatedSnoc(h, init, x, eq);
      KeysOfSnoc(init, x);
      assert ItemId(x) !in KeysOf(ItemId, Elems(init));
    }
  }

  /** With distinct ids, update_existing keeps the held ids; a listed item whose
      id is held replaces the held item exactly when the two are unequal, and
      other entries stay. */
  lemma UpdatedSpec(h: map<string, Item>, l: seq<Item>, eq: (Item, Item) -> bool)
    requires Keyed(h, ItemId) && DistinctIds(l)
    ensures Keyed(Updated(h, l, eq), ItemId)
    ensures Updated(h, l, eq).Keys == h.Keys
    ensures forall x | x in l && ItemId(x) in h ::
              Updated(h, l, eq)[ItemId(x)] == if eq(x, h[ItemId(x)]) then h[ItemId(x)] else x
    ensures forall k | k in h && k !in KeysOf(ItemId, Elems(l)) :: Updated(h, l, eq)[k] == h[k]
  {
    UpdatedKeys(h, l, eq);
    UpdatedEntries(h, l, eq);
  }

  /** With distinct ids, update_existing reports exactly the listed items that
      replace a held item, each once. */
  lemma {:induction false} ReplacementsSpec(h: map<string, Item>, l: seq<Item>, eq: (Item, Item) -> bool)
    requires Keyed(h, ItemId) && DistinctIds(l)
    ensures forall x :: x in Replacements(h, l, eq) <==> x in l && Replaces(h, x, eq)
    ensures DistinctIds(Replacements(h, l, eq))
  {
    if l != [] {
      var init := DropLast(l);
      var x := l[|l| - 1];
      assert l == init + [x];
      DistinctIdsDropLast(l);
      ReplacementsSpec(h, init, eq);
      UpdatedSpec(h, init, eq);
      UpdatedSnoc(h, init, x, eq);
      var r := Replacements(h, init, eq);
      assert ItemId(x) !in KeysOf(ItemId, Elems(init));
      assert Replaces(Updated(h, init, eq), x, eq) == Replaces(h, x, eq);
      if Replaces(h, x, eq) {
        forall i, j | 0 <= i < j < |r + [x]| ensures ItemId((r + [x])[i]) != ItemId((r + [x])[j]) {
          if j == |r| {
            assert (r + [x])[i] == r[i] && r[i] in r;
          } else {
            assert (r + [x])[i] == r[i] && (r + [x])[j] == r[j];
          }
        }
      }
      forall y ensures y in Replacements(h, l, eq) <==> y in l && Replaces(h, y, eq) {
        if y == x {
          assert x !in init;
        }
      }
    }
  }

  /** The table left after removing, in list order, each listed item that is
      ready. */
  function RemoveReady(h: map<string, Item>, l: seq<Item>): map<string, Item> {
    if l == [] then h
    else
      var x := l[|l| - 1];
      var t := RemoveReady(h, DropLast(l));
      if x.Ready() then t - {ItemId(x)} else t
  }

  /** The listed items that are ready, last first: each is prepended in turn. */
  function ReadyReversed(l: seq<Item>): seq<Item> {
    if l == [] then []
    else
      var x := l[|l| - 1];
      (if x.Ready() then [x] else []) + ReadyReversed(DropLast(l))
  }

  lemma ReadySnoc(h: map<string, Item>, l: seq<Item>, x: Item)
    ensures RemoveReady(h, l + [x]) == if x.Ready() then RemoveReady(h, l) - {ItemId(x)} else RemoveReady(h, l)
    ensures ReadyReversed(l + [x]) == (if x.Ready() then [x] else []) + ReadyReversed(l)
  {
    assert DropLast(l + [x]) == l;
  }

  /** Removing the ready members of an id-keyed table that a list visits leaves
      exactly the others. */
  lemma {:induction false} RemoveReadySpec(h: map<string, Item>, l: seq<Item>)
    requires Keyed(h, ItemId) && forall x | x in l :: x in h.Values
    ensures forall k :: k in RemoveReady(h, l) <==> k in h && !(h[k].Ready() && h[k] in l)
    ensures forall k | k in RemoveReady(h, l) :: RemoveReady(h, l)[k] == h[k]
  {
    if l != [] {
      var init := DropLast(l);
      var x := l[|l| - 1];
      assert l == init + [x];
      RemoveReadySpec(h, init);
      ReadySnoc(h, init, x);
      MemberAtOwnKey(h, x);
    }
  }

  /** Visiting every member of an id-keyed table removes exactly the ready ones. */
  lemma RemoveReadyAll(h: map<string, Item>, l: seq<Item>)
    requires Keyed(h, ItemId) && Elems(l) == h.Values
    ensures RemoveReady(h, l) == Without(h, (x: Item) => x.Ready())
  {
    RemoveReadySpec(h, l);
    forall k | k in h ensures h[k] in l {
      assert h[k] in h.Values;
    }
  }

  /** The timeout sends each ready listed item once. */
  lemma {:induction false} ReadyReversedSpec(l: seq<Item>)
    requires forall i, j | 0 <= i < j < |l| :: l[i] != l[j]
    ensures forall x :: x in ReadyReversed(l) <==> x in l && x.Ready()
    ensures forall i, j | 0 <= i < j < |ReadyReversed(l)| :: ReadyReversed(l)[i] != ReadyReversed(l)[j]
  {
    if l != [] {
      var init := DropLast(l);
      var x := l[|l| - 1];
      assert l == init + [x];
      ReadyReversedSpec(init);
      ReadySnoc(map[], init, x);
      forall j | 0 <= j < |init| ensures init[j] != x {
        assert init[j] == l[j];
      }
      var r := ReadyReversed(init);
      if x.Ready() {
        forall i, j | 0 <= i < j < |[x] + r| ensures ([x] + r)[i] != ([x] + r)[j] {
          if i == 0 {
            assert ([x] + r)[j] == r[j - 1] && r[j - 1] in r;
          } else {
            assert ([x] + r)[i] == r[i - 1] && ([x] + r)[j] == r[j - 1];
          }
        }
      }
    }
  }

  /** Adding the members of a list with distinct ids one by one to an id-keyed
      table gives the table in which each of them sits under its id. */
  lemma AddAllInjective(u: map<string, Item>, c: map<string, Item>, order: seq<Item>)
    requires Keyed(u, ItemId) && KeyInjective(ItemId, Elems(order))
    requires c.Keys == u.Keys + KeysOf(ItemId, Elems(order))
    requires forall x | x in order :: ItemId(x) in c && c[ItemId(x)] == x
    requires forall k | k in c && k !in KeysOf(ItemId, Elems(order)) :: k in u && c[k] == u[k]
    ensures AddAll(u, order) == c
  {
    AddAllSpec(u, order);
    var a := AddAll(u, order);
    forall k | k in a ensures a[k] == c[k] {
      if k in KeysOf(ItemId, Elems(order)) {
        var y := a[k];
        assert y in order && ItemId(y) == k;
      }
    }
  }

  /** sw_set_add_from of a collection with distinct ids is adding its members
      one by one, in any order. */
  lemma AddFromIsAddAll(u: map<string, Item>, h: map<string, Item>, order: seq<Item>)
    requires Keyed(u, ItemId) && Keyed(h, ItemId) && KeyInjective(ItemId, Elems(order))
    requires h.Keys == u.Keys + KeysOf(ItemId, Elems(order))
    requires forall k | k in h ::
               if k in KeysOf(ItemId, Elems(order)) then h[k] in Elems(order) else h[k] == u[k]
    ensures AddAll(u, order) == h
  {
    forall x | x in order ensures ItemId(x) in h && h[ItemId(x)] == x {
      assert ItemId(x) in KeysOf(ItemId, Elems(order));
      var y := h[ItemId(x)];
      assert y in Elems(order) && ItemId(y) == ItemId(x);
    }
    AddAllInjective(u, h, order);
  }

  /** Adding the members of an id-keyed table one by one to an empty table
      rebuilds it. */
  lemma AddAllFillsKeyed(n: map<string, Item>, order: seq<Item>)
    requires Keyed(n, ItemId) && Elems(order) == n.Values
    ensures AddAll(map[], order) == n
  {
    KeyedInjective(n);
    forall x | x in order ensures ItemId(x) in n && n[ItemId(x)] == x {
      MemberAtOwnKey(n, x);
    }
    assert n.Keys == KeysOf(ItemId, Elems(order)) by {
      forall k | k in n ensures k in KeysOf(ItemId, Elems(order)) {
        assert n[k] in n.Values;
      }
    }
    AddAllInjective(map[], n, order);
  }

  /** What set_from_set leaves in the view, holding c, given the new table n:
      exactly the ids of n; under each the held item when sw_item_equal says it
      equals the new one, otherwise the new one. */
  function Merged(c: map<string, Item>, n: map<string, Item>, eq: (Item, Item) -> bool): map<string, Item> {
    map k | k in n :: if k in c && eq(n[k], c[k]) then c[k] else n[k]
  }

  /** On a view that holds nothing, adding every member of n is the merge:
      nothing is stale, nothing is replaced and everything is new. */
  lemma FillEmpty(c: map<string, Item>, n: map<string, Item>, added: seq<Item>, eq: (Item, Item) -> bool)
    requires c == map[] && Keyed(n, ItemId) && Elems(added) == n.Values
    ensures AddAll(c, added) == Merged(c, n, eq)
    ensures (set x | x in c.Values && ItemId(x) !in n) == {}
    ensures forall x :: !Replaces(c, x, eq)
    ensures Elems(added) == set x | x in n.Values && ItemId(x) !in c
  {
    AddAllFillsKeyed(n, added);
  }

  /** The entries of r whose id n also holds, each replaced by n's item unless
      sw_item_equal says the two are equal. */
  function UpdatedBy(r: map<string, Item>, n: map<string, Item>, eq: (Item, Item) -> bool): map<string, Item> {
    map k | k in r && k in n :: if eq(n[k], r[k]) then r[k] else n[k]
  }

  /** The entries of c whose id n also holds. */
  function Common(c: map<string, Item>, n: map<string, Item>): map<string, Item> {
    map k | k in c && k in n :: c[k]
  }

  /** Removing current \ new from an id-keyed table leaves the entries whose id
      the new table holds. */
  lemma RemovedLeavesCommon(c: map<string, Item>, n: map<string, Item>, removed: seq<Item>)
    requires Keyed(c, ItemId)
    requires Elems(removed) == set x | x in c.Values && ItemId(x) !in n
    ensures c - KeysOf(ItemId, Elems(removed)) == Common(c, n)
  {
    forall k | k in c && k !in n ensures k in KeysOf(ItemId, Elems(removed)) {
      assert c[k] in c.Values;
      assert c[k] in Elems(removed);
    }
  }

  /** The members of an id-keyed table, listed once each, have distinct ids,
      and the list holds every member under its own id. */
  lemma TableOrder(n: map<string, Item>, order: seq<Item>)
    requires Keyed(n, ItemId) && Elems(order) == n.Values
    requires forall i, j | 0 <= i < j < |order| :: order[i] != order[j]
    ensures DistinctIds(order)
    ensures forall k | k in n :: n[k] in order && ItemId(n[k]) == k
    ensures forall x :: x in order <==> x in n.Values
  {
    KeyedInjective(n);
    DistinctIdsOfInjective(order);
    forall k | k in n ensures n[k] in order {
      assert n[k] in n.Values;
    }
    forall x ensures x in order <==> x in n.Values {
      assert x in order <==> x in Elems(order);
    }
  }

  /** Updating the common entries from every member of n replaces each by its
      new item unless sw_item_equal says they are equal. */
  lemma UpdatedFromTable(r: map<string, Item>, n: map<string, Item>, order: seq<Item>, eq: (Item, Item) -> bool)
    requires Keyed(r, ItemId) && Keyed(n, ItemId) && r.Keys <= n.Keys
    requires Elems(order) == n.Values && forall i, j | 0 <= i < j < |order| :: order[i] != order[j]
    ensures Updated(r, order, eq) == UpdatedBy(r, n, eq)
  {
    TableOrder(n, order);
    UpdatedSpec(r, order, eq);
    var u := Updated(r, order, eq);
    forall k | k in r ensures u[k] == UpdatedBy(r, n, eq)[k] {
      var x := n[k];
      assert x in order && ItemId(x) == k;
    }
  }

  /** Updating from every member of n reports exactly the members of n that
      replace a held entry. */
  lemma ReplacedFromTable(r: map<string, Item>, n: map<string, Item>, order: seq<Item>, eq: (Item, Item) -> bool)
    requires Keyed(r, ItemId) && Keyed(n, ItemId)
    requires Elems(order) == n.Values && forall i, j | 0 <= i < j < |order| :: order[i] != order[j]
    ensures forall x :: x in Replacements(r, order, eq) <==> x in n.Values && Replaces(r, x, eq)
  {
    TableOrder(n, order);
    ReplacementsSpec(r, order, eq);
  }

  /** The members of n whose id c does not hold have distinct ids, sit under
      their ids in n, and occupy exactly the ids of n that c lacks. */
  lemma AddedOfTable(c: map<string, Item>, n: map<string, Item>, added: seq<Item>)
    requires Keyed(n, ItemId)
    requires Elems(added) == set x | x in n.Values && ItemId(x) !in c
    ensures KeyInjective(ItemId, Elems(added))
    ensures forall x | x in added :: ItemId(x) in n && ItemId(x) !in c && n[ItemId(x)] == x
    ensures KeysOf(ItemId, Elems(added)) == n.Keys - c.Keys
  {
    KeyedInjective(n);
    forall x | x in added ensures ItemId(x) in n && ItemId(x) !in c && n[ItemId(x)] == x {
      assert x in Elems(added);
      MemberAtOwnKey(n, x);
    }
    forall k | k in n && k !in c ensures k in KeysOf(ItemId, Elems(added)) {
      assert n[k] in n.Values;
      assert n[k] in Elems(added);
    }
  }

  /** Adding new \ current to the updated common entries completes the merge. */
  lemma AddAllMerged(c: map<string, Item>, n: map<string, Item>, added: seq<Item>, eq: (Item, Item) -> bool)
    requires Keyed(c, ItemId) && Keyed(n, ItemId)
    requires Elems(added) == set x | x in n.Values && ItemId(x) !in c
    ensures AddAll(UpdatedBy(Common(c, n), n, eq), added) == Merged(c, n, eq)
  {
    AddedOfTable(c, n, added);
    var u := UpdatedBy(Common(c, n), n, eq);
    assert Keyed(u, ItemId);
    AddAllInjective(u, Merged(c, n, eq), added);
  }

  /** Removing current \ new, updating from new and adding new \ current, in
      that order, leaves the merged table; the changes reported are exactly the
      new items whose id was held and which differ from the held item. */
  lemma SetFromSetMerges(c: map<string, Item>, n: map<string, Item>, removed: seq<Item>, order: seq<Item>,
                         added: seq<Item>, eq: (Item, Item) -> bool)
    requires Keyed(c, ItemId) && Keyed(n, ItemId)
    requires Elems(removed) == set x | x in c.Values && ItemId(x) !in n
    requires Elems(order) == n.Values && forall i, j | 0 <= i < j < |order| :: order[i] != order[j]
    requires Elems(added) == set x | x in n.Values && ItemId(x) !in c
    ensures AddAll(Updated(c - KeysOf(ItemId, Elems(removed)), order, eq), added) == Merged(c, n, eq)
    ensures forall x :: x in Replacements(c - KeysOf(ItemId, Elems(removed)), order, eq) <==>
                        x in n.Values && Replaces(c, x, eq)
  {
    RemovedLeavesCommon(c, n, removed);
    var r := Common(c, n);
    UpdatedFromTable(r, n, order, eq);
    ReplacedFromTable(r, n, order, eq);
    AddAllMerged(c, n, added, eq);
    forall x | x in n.Values ensures Replaces(r, x, eq) == Replaces(c, x, eq) {
      MemberAtOwnKey(n, x);
    }
  }

  /** The id table of a collection holding at most one item per id: each of
      its items under its own id. */
  ghost function IdTable(xs: set<Item>): map<string, Item>
    requires KeyInjective(ItemId, xs)
  {
    map k | k in KeysOf(ItemId, xs) :: var x :| x in xs && ItemId(x) == k; x
  }

  /** The id table is keyed by id, holds exactly the ids of the collection,
      and finds each of its items under its id. */
  lemma IdTableSpec(xs: set<Item>)
    requires KeyInjective(ItemId, xs)
    ensures Keyed(IdTable(xs), ItemId)
    ensures IdTable(xs).Keys == KeysOf(ItemId, xs)
    ensures forall x | x in xs :: ItemId(x) in IdTable(xs) && IdTable(xs)[ItemId(x)] == x
  {
    forall x | x in xs ensures ItemId(x) in IdTable(xs) && IdTable(xs)[ItemId(x)] == x {
      assert ItemId(x) in KeysOf(ItemId, xs);
    }
  }

  /** An id-keyed set is its own id table. */
  lemma IdTableOfKeyed(n: map<string, Item>)
    requires Keyed(n, ItemId)
    ensures KeyInjective(ItemId, n.Values)
    ensures IdTable(n.Values) == n
  {
    KeyedInjective(n);
    IdTableSpec(n.Values);
    var t := IdTable(n.Values);
    forall k | k in n ensures k in t && t[k] == n[k] {
      assert n[k] in n.Values;
    }
    forall k | k in t ensures k in n {
      var x :| x in n.Values && ItemId(x) == k;
      MemberAtOwnKey(n, x);
    }
  }

  /** The held entries left after the stale ones went, each replaced by the
      new item with its id when sw_item_equal says the two differ. */
  function KeptUpdated(r: map<string, Item>, n: map<string, Item>, eq: (Item, Item) -> bool): map<string, Item> {
    map k | k in r :: if k in n && !eq(n[k], r[k]) then n[k] else r[k]
  }

  /** What set_from_set leaves in a view holding c, given the id table n of the
      new set and the ids stale of the held items it removed first: every held
      entry it kept, replaced by the new item when sw_item_equal says they
      differ, and every new item whose id c did not hold.  A new item whose id
      was held under a removed item is not added back, because the added
      items are computed against c before the removal. */
  function MergedBy(c: map<string, Item>, n: map<string, Item>, stale: set<string>,
                    eq: (Item, Item) -> bool): map<string, Item>
  {
    map k | k in (c.Keys - stale) + (n.Keys - c.Keys) ::
      if k in c then (if k in n && !eq(n[k], c[k]) then n[k] else c[k]) else n[k]
  }

  /** When the new set is keyed by id (sw_item_set_new), the removed items are
      exactly the held ones whose id it lacks, set_from_set leaves the merge,
      and the changes reported are the new items that differ from the held
      item with their id. */
  lemma MergedByIdKeyed(c: map<string, Item>, n: map<string, Item>, removed: seq<Item>, eq: (Item, Item) -> bool)
    requires Keyed(c, ItemId) && Keyed(n, ItemId)
    requires Elems(removed) == set x | x in c.Values && ItemId(x) !in n
    ensures KeyInjective(ItemId, n.Values)
    ensures MergedBy(c, IdTable(n.Values), KeysOf(ItemId, Elems(removed)), eq) == Merged(c, n, eq)
    ensures forall x | x in n.Values ::
              Replaces(c - KeysOf(ItemId, Elems(removed)), x, eq) == Replaces(c, x, eq)
  {
    IdTableOfKeyed(n);
    var stale := KeysOf(ItemId, Elems(removed));
    assert stale == c.Keys - n.Keys by {
      forall k | k in c && k !in n ensures k in stale {
        assert c[k] in c.Values;
      }
    }
    MergedByOfMissing(c, n, eq);
    forall x | x in n.Values ensures Replaces(c - stale, x, eq) == Replaces(c, x, eq) {
      MemberAtOwnKey(n, x);
    }
  }

  /** Removing the held entries whose id n lacks and merging gives Merged. */
  lemma MergedByOfMissing(c: map<string, Item>, n: map<string, Item>, eq: (Item, Item) -> bool)
    ensures MergedBy(c, n, c.Keys - n.Keys, eq) == Merged(c, n, eq)
  {
    var m := MergedBy(c, n, c.Keys - n.Keys, eq);
    assert m.Keys == n.Keys;
  }

  /** Removing items from an id-keyed table, updating it from a list with
      distinct ids and adding the listed items whose id it held before the
      removal leaves MergedBy; the changes reported are the listed items that
      replace an entry still held. */
  lemma SetFromSetMergesBy(c: map<string, Item>, ns: set<Item>, removed: seq<Item>, order: seq<Item>,
                           added: seq<Item>, eq: (Item, Item) -> bool)
    requires Keyed(c, ItemId) && KeyInjective(ItemId, ns)
    requires Elems(order) == ns && forall i, j | 0 <= i < j < |order| :: order[i] != order[j]
    requires Elems(added) == set x | x in ns && ItemId(x) !in c
    ensures AddAll(Updated(c - KeysOf(ItemId, Elems(removed)), order, eq), added)
            == MergedBy(c, IdTable(ns), KeysOf(ItemId, Elems(removed)), eq)
    ensures forall x :: x in Replacements(c - KeysOf(ItemId, Elems(removed)), order, eq) <==>
                        x in ns && Replaces(c - KeysOf(ItemId, Elems(removed)), x, eq)
  {
    var stale := KeysOf(ItemId, Elems(removed));
    DistinctIdsOfInjective(order);
    ReplacementsSpec(c - stale, order, eq);
    UpdatedEntriesFromTable(c - stale, ns, order, eq);
    AddedFromTable(c, stale, ns, added, eq);
  }

  /** Updating from a list with distinct ids gives KeptUpdated of its id table. */
  lemma UpdatedEntriesFromTable(r: map<string, Item>, ns: set<Item>, order: seq<Item>, eq: (Item, Item) -> bool)
    requires Keyed(r, ItemId) && KeyInjective(ItemId, ns) && Elems(order) == ns && DistinctIds(order)
    ensures Updated(r, order, eq) == KeptUpdated(r, IdTable(ns), eq)
  {
    var n := IdTable(ns);
    IdTableSpec(ns);
    UpdatedSpec(r, order, eq);
    var u := Updated(r, order, eq);
    forall k | k in r ensures u[k] == KeptUpdated(r, n, eq)[k] {
      if k in n {
        var x :| x in ns && ItemId(x) == k;
        assert x in order;
      }
    }
  }

  /** Adding the new items whose id c lacked to the kept, updated entries
      completes MergedBy. */
  lemma AddedFromTable(c: map<string, Item>, stale: set<string>, ns: set<Item>, added: seq<Item>,
                       eq: (Item, Item) -> bool)
    requires Keyed(c, ItemId) && KeyInjective(ItemId, ns)
    requires Elems(added) == set x | x in ns && ItemId(x) !in c
    ensures AddAll(KeptUpdated(c - stale, IdTable(ns), eq), added) == MergedBy(c, IdTable(ns), stale, eq)
  {
    var n := IdTable(ns);
    IdTableSpec(ns);
    var u := KeptUpdated(c - stale, n, eq);
    var m := MergedBy(c, n, stale, eq);
    assert KeysOf(ItemId, Elems(added)) == n.Keys - c.Keys by {
      forall k | k in n && k !in c ensures k in KeysOf(ItemId, Elems(added)) {
        var x :| x in ns && ItemId(x) == k;
        assert x in Elems(added);
      }
    }
    forall x | x in added ensures ItemId(x) in m && m[ItemId(x)] == x {
      assert x in Elems(added);
    }
    assert Keyed(u, ItemId);
    AddAllInjective(u, m, added);
  }

  /** On a view that holds nothing, set_from_set leaves the id table of the new
      set, whatever its equality. */
  lemma FillEmptyBy(ns: set<Item>, added: seq<Item>, eq: (Item, Item) -> bool)
    requires KeyInjective(ItemId, ns) && Elems(added) == ns
    ensures AddAll(map[], added) == MergedBy(map[], IdTable(ns), {}, eq)
  {
    IdTableSpec(ns);
    AddAllInjective(map[], MergedBy(map[], IdTable(ns), {}, eq), added);
  }

  /** An identity set (sw_set_new) finds a held item only when it holds that
      very object.  When every item of the reply is a new object, every held
      item is removed, and the items whose id was held are not added back:
      a reply listing the ids the view holds leaves it empty, and the next
      reply, on the empty view, fills it again. */
  lemma IdentityReplyAlternates(c: map<string, Item>, n1: map<string, Item>, n2: map<string, Item>,
                                eq: (Item, Item) -> bool)
    requires Keyed(c, ItemId) && c != map[] && n1.Keys == c.Keys
    requires c.Values !! n1.Values
    ensures (set x | x in c.Values && x !in n1.Values) == c.Values
    ensures MergedBy(c, n1, KeysOf(ItemId, c.Values), eq) == map[]
    ensures MergedBy(map[], n2, {}, eq) == n2
  {
    var stale := KeysOf(ItemId, c.Values);
    assert c.Keys <= stale by {
      forall k | k in c ensures k in stale {
        assert c[k] in c.Values;
      }
    }
    var m := MergedBy(c, n1, stale, eq);
    assert m.Keys == {};
    var m2 := MergedBy(map[], n2, {}, eq);
    assert m2.Keys == n2.Keys;
  }

  /** The object path of the n-th view created (_make_object_path). */
  function ObjectPath(n: nat): string {
    "/com/meego/libsocialweb/View" + Strs.NatToDecimal(n)
  }

  /** Two views created at different times get different object paths. */
  lemma ObjectPathsDistinct(m: nat, n: nat)
    requires m != n
    ensures ObjectPath(m) != ObjectPath(n)
  {
    Strs.DecimalInjective(m, n);
    Strs.PrefixCancel("/com/meego/libsocialweb/View", Strs.NatToDecimal(m), Strs.NatToDecimal(n));
  }

  /** The static counter of _make_object_path, shared by every item view. */
  class PathCounter {
    var count: nat

    constructor ()
      ensures count == 0
    {
      count := 0;
    }

    method MakeObjectPath() returns (path: string)
      modifies this
      ensures path == ObjectPath(old(count))
      ensures count == old(count) + 1
    {
      path := "/com/meego/libsocialweb/View" + Strs.NatToDecimal(count);
      count := count + 1;
    }
  }

  /** The signals set_from_set emits: everything as added when the view held
      nothing, otherwise removals, changes and additions, each only when it
      carries something. */
  function DiffEvents(wasEmpty: bool, removed: seq<Item>, changed: seq<Item>, added: seq<Item>,
                      parseDate: Option<string> -> int): seq<Event>
  {
    if wasEmpty then [ItemsAdded(ReadyPayloads(added, parseDate))]
    else
      (if removed == [] then [] else [ItemsRemoved(RemovedPairs(removed))])
      + (if ReadyPayloads(changed, parseDate) == [] then [] else [ItemsChanged(ReadyPayloads(changed, parseDate))])
      + (if added == [] then [] else [ItemsAdded(ReadyPayloads(added, parseDate))])
  }

  /** The signals of the three steps of set_from_set, emitted one after the
      other, are the signals of the difference. */
  lemma DiffEventsInOrder(e0: seq<Event>, e1: seq<Event>, e2: seq<Event>, e3: seq<Event>,
                          removed: seq<Item>, changed: seq<Item>, added: seq<Item>,
                          parseDate: Option<string> -> int)
    requires e1 == e0 + (if removed == [] then [] else [ItemsRemoved(RemovedPairs(removed))])
    requires e2 == e1 + (if ReadyPayloads(changed, parseDate) == [] then []
                         else [ItemsChanged(ReadyPayloads(changed, parseDate))])
    requires e3 == e2 + (if added == [] then [] else [ItemsAdded(ReadyPayloads(added, parseDate))])
    ensures e3 == e0 + DiffEvents(false, removed, changed, added, parseDate)
  {
  }

  /** An item set holding the object it.handle now holds its new state. */
  method RefreshIn(t: SwSet<string, Item>, it: Item)
    requires t.Valid() && t.keyOf == ItemId
    modifies t`hash
    ensures t.Valid() && t.hash == RefreshedTable(old(t.hash), it)
  {
    if ItemId(it) in t.hash && t.hash[ItemId(it)].handle == it.handle {
      t.Add(it);
    }
  }

  /** One step of the loop of add_items: what visiting x adds to the
      payloads, the pending table and the watched objects. */
  lemma PendSnoc(h: map<string, Item>, l: seq<Item>, x: Item, parseDate: Option<string> -> int)
    ensures ReadyPayloads(l + [x], parseDate) ==
              ReadyPayloads(l, parseDate) + (if x.Ready() then [ToPayload(x, parseDate)] else [])
    ensures AddAll(h, NotReady(l + [x])) ==
              if x.Ready() then AddAll(h, NotReady(l)) else AddAll(h, NotReady(l))[ItemId(x) := x]
    ensures Handles(NotReady(l + [x])) ==
              if x.Ready() then Handles(NotReady(l)) else Handles(NotReady(l)) + {x.handle}
    ensures Handles(l + [x]) == Handles(l) + {x.handle}
  {
    ReadyPayloadsSnoc(l, x, parseDate);
    NotReadySnoc(l, x);
    HandlesSnoc(l, x);
    if x.Ready() {
      assert NotReady(l + [x]) == NotReady(l);
    } else {
      AddAllSnoc(h, NotReady(l), x);
      HandlesSnoc(NotReady(l), x);
    }
  }

  /** The body of the loop of add_items for one item x: a ready one
      becomes a payload, another gets a readiness handler and joins the
      pending set t. */
  method PendOne(t: SwSet<string, Item>, x: Item, parseDate: Option<string> -> int,
                 payloads0: seq<ItemPayload>, ready0: set<nat>)
    returns (payloads: seq<ItemPayload>, ready: set<nat>)
    requires t.Valid() && t.keyOf == ItemId
    modifies t`hash
    ensures t.Valid()
    ensures t.hash == if x.Ready() then old(t.hash) else old(t.hash)[ItemId(x) := x]
    ensures payloads == payloads0 + (if x.Ready() then [ToPayload(x, parseDate)] else [])
    ensures ready == if x.Ready() then ready0 else ready0 + {x.handle}
  {
    payloads := payloads0;
    ready := ready0;
    if x.Ready() {
      payloads := payloads + [ToPayload(x, parseDate)];
    } else {
      ready := ready + {x.handle};
      t.Add(x);
    }
  }

  /** The loop of add_items: ready items become payloads, the others join
      the pending set t with a readiness handler, and every one gets a change
      handler. */
  method PendNotReady(t: SwSet<string, Item>, xs: seq<Item>, parseDate: Option<string> -> int,
                      ready0: set<nat>, change0: set<nat>)
    returns (payloads: seq<ItemPayload>, ready: set<nat>, change: set<nat>)
    requires t.Valid() && t.keyOf == ItemId
    modifies t`hash
    ensures t.Valid() && t.hash == AddAll(old(t.hash), NotReady(xs))
    ensures payloads == ReadyPayloads(xs, parseDate)
    ensures ready == ready0 + Handles(NotReady(xs))
    ensures change == change0 + Handles(xs)
  {
    payloads := [];
    ready := ready0;
    change := change0;
    ghost var h0 := t.hash;
    var i := 0;
    while i < |xs|
      invariant 0 <= i <= |xs|
      invariant t.Valid()
      invariant payloads == ReadyPayloads(xs[..i], parseDate)
      invariant t.hash == AddAll(h0, NotReady(xs[..i]))
      invariant ready == ready0 + Handles(NotReady(xs[..i]))
      invariant change == change0 + Handles(xs[..i])
      modifies t`hash
    {
      var x := xs[i];
      TakeSnoc(xs, i);
      PendSnoc(h0, xs[..i], x, parseDate);
      payloads, ready := PendOne(t, x, parseDate, payloads, ready);
      change := change + {x.handle};
      i := i + 1;
    }
    assert xs[..i] == xs;
  }

  /** The loop of update_existing: each listed item whose id the uid table
      holds replaces the held one in the table and in the set t when eq says
      the two differ, and is then reported. */
  method ReplaceChanged(t: SwSet<string, Item>, uid0: map<string, Item>, order: seq<Item>, eq: (Item, Item) -> bool)
    returns (uid: map<string, Item>, sent: seq<Item>)
    requires t.Valid() && t.keyOf == ItemId && uid0 == t.hash
    modifies t`hash
    ensures t.Valid() && uid == t.hash
    ensures uid == Updated(uid0, order, eq)
    ensures sent == Replacements(uid0, order, eq)
  {
    sent := [];
    uid := uid0;
    var i := 0;
    while i < |order|
      invariant 0 <= i <= |order|
      invariant t.Valid() && uid == t.hash
      invariant uid == Updated(uid0, order[..i], eq)
      invariant sent == Replacements(uid0, order[..i], eq)
      modifies t`hash
    {
      var x := order[i];
      TakeSnoc(order, i);
      UpdatedSnoc(uid0, order[..i], x, eq);
      if ItemId(x) in uid {
        var held := uid[ItemId(x)];
        if !eq(x, held) {
          uid := uid[ItemId(x) := x];
          t.Add(x);
          sent := sent + [x];
        }
      }
      i := i + 1;
    }
    assert order[..i] == order;
  }

  /** The loop of the pending timeout: each listed item that is ready is
      prepended to the list to send and leaves the pending set t. */
  method TakeReady(t: SwSet<string, Item>, list: seq<Item>) returns (sent: seq<Item>)
    requires t.Valid() && t.keyOf == ItemId
    modifies t`hash
    ensures t.Valid() && t.hash == RemoveReady(old(t.hash), list)
    ensures sent == ReadyReversed(list)
  {
    ghost var P := t.hash;
    sent := [];
    var i := 0;
    while i < |list|
      invariant 0 <= i <= |list|
      invariant t.Valid()
      invariant t.hash == RemoveReady(P, list[..i])
      invariant sent == ReadyReversed(list[..i])
      modifies t`hash
    {
      var x := list[i];
      TakeSnoc(list, i);
      ReadySnoc(P, list[..i], x);
      if x.Ready() {
        sent := [x] + sent;
        t.Remove(x);
      }
      i := i + 1;
    }
    assert list[..i] == list;
  }

  /** What the pending timeout leaves and sends, having visited every pending
      item once: the pending set keeps exactly those not ready, and the
      ready ones are all sent, each once. */
  lemma TakeReadyAll(p: map<string, Item>, list: seq<Item>, sent: seq<Item>, parseDate: Option<string> -> int)
    requires Keyed(p, ItemId) && Elems(list) == p.Values
    requires forall i, j | 0 <= i < j < |list| :: list[i] != list[j]
    requires sent == ReadyReversed(list)
    ensures RemoveReady(p, list) == Without(p, (x: Item) => x.Ready())
    ensures Elems(sent) == set x | x in p.Values && x.Ready()
    ensures forall i, j | 0 <= i < j < |sent| :: sent[i] != sent[j]
    ensures NotReady(sent) == [] && |ReadyPayloads(sent, parseDate)| == |sent|
  {
    RemoveReadyAll(p, list);
    ReadyReversedSpec(list);
    AllReadyAllSent(sent, parseDate);
  }

  class SwItemView {
    const service: string
    const objectPath: string
    /** The date parser behind the payload's date (foreign). */
    const parseDate: Option<string> -> int
    /** sw_item_equal, which is not part of this model. */
    const itemEqual: (Item, Item) -> bool
    const current: SwSet<string, Item>
    const pending: SwSet<string, Item>
    var uidToItems: map<string, Item>
    var changedItems: seq<Item>
    /** Whether a pending timeout / a changed (refresh) timeout is installed. */
    var pendingTimeout: bool
    var refreshTimeout: bool
    /** Objects whose "notify::ready" / "changed" this view listens to. */
    var readyWatch: set<nat>
    var changeWatch: set<nat>
    var events: seq<Event>

    ghost predicate Valid()
      reads this, current, pending
    {
      current != pending
      && current.keyOf == ItemId && pending.keyOf == ItemId
      && current.Valid() && pending.Valid()
      && uidToItems == current.hash
      && DistinctHandles(changedItems)
    }

    constructor (service: string, counter: PathCounter, parseDate: Option<string> -> int,
                 itemEqual: (Item, Item) -> bool)
      modifies counter
      ensures Valid() && fresh(current) && fresh(pending)
      ensures this.service == service && objectPath == ObjectPath(old(counter.count))
      ensures counter.count == old(counter.count) + 1
      ensures this.parseDate == parseDate && this.itemEqual == itemEqual
      ensures current.hash == map[] && pending.hash == map[] && uidToItems == map[]
      ensures changedItems == [] && !pendingTimeout && !refreshTimeout
      ensures readyWatch == {} && changeWatch == {} && events == []
    {
      this.service := service;
      var path := counter.MakeObjectPath();
      objectPath := path;
      this.parseDate := parseDate;
      this.itemEqual := itemEqual;
      current := new SwSet(ItemId);
      pending := new SwSet(ItemId);
      uidToItems := map[];
      changedItems := [];
      pendingTimeout := false;
      refreshTimeout := false;
      readyWatch := {};
      changeWatch := {};
      events := [];
    }

    /** sw_item_view_add_items: ready items go out in one ItemsAdded (sent even
        when it carries nothing); the others wait in the pending set with a
        readiness handler; every item gets a change handler. */
    method AddItems(items: seq<Item>)
      requires Valid()
      modifies this`readyWatch, this`changeWatch, this`events, pending
      ensures Valid()
      ensures pending.hash == AddAll(old(pending.hash), NotReady(items))
      ensures readyWatch == old(readyWatch) + Handles(NotReady(items))
      ensures changeWatch == old(changeWatch) + Handles(items)
      ensures events == old(events) + [ItemsAdded(ReadyPayloads(items, parseDate))]
    {
      var payloads, ready, change := PendNotReady(pending, items, parseDate, readyWatch, changeWatch);
      readyWatch := ready;
      changeWatch := change;
      events := events + [ItemsAdded(payloads)];
    }

    /** sw_item_view_update_items: the ready items go out in one ItemsChanged,
        which is sent only when it carries something. */
    method UpdateItems(items: seq<Item>)
      modifies this`events
      ensures events == old(events) +
        (if ReadyPayloads(items, parseDate) == [] then [] else [ItemsChanged(ReadyPayloads(items, parseDate))])
    {
      var payloads: seq<ItemPayload> := [];
      var i := 0;
      while i < |items|
        invariant 0 <= i <= |items|
        invariant payloads == ReadyPayloads(items[..i], parseDate)
      {
        var it := items[i];
        assert DropLast(items[..i + 1]) == items[..i];
        if it.Ready() {
          payloads := payloads + [ToPayload(it, parseDate)];
        }
        i := i + 1;
      }
      assert items[..i] == items;
      if |payloads| > 0 {
        events := events + [ItemsChanged(payloads)];
      }
    }

    /** sw_item_view_remove_items: one ItemsRemoved with a (service, id) pair
        per item, sent even when empty. */
    method RemoveItems(items: seq<Item>)
      modifies this`events
      ensures events == old(events) + [ItemsRemoved(RemovedPairs(items))]
    {
      var pairs: seq<(string, string)> := [];
      var i := 0;
      while i < |items|
        invariant 0 <= i <= |items|
        invariant pairs == RemovedPairs(items[..i])
      {
        pairs := pairs + [(items[i].service, ItemId(items[i]))];
        i := i + 1;
      }
      assert items[..i] == items;
      events := events + [ItemsRemoved(pairs)];
    }

    /** The uid table loop of add_from_set: each item is stored under its id. */
    method StoreUids(items: seq<Item>)
      modifies this`uidToItems
      ensures uidToItems == AddAll(old(uidToItems), items)
    {
      var uid := uidToItems;
      var i := 0;
      while i < |items|
        invariant 0 <= i <= |items|
        invariant uid == AddAll(old(uidToItems), items[..i])
      {
        var x := items[i];
        TakeSnoc(items, i);
        AddAllSnoc(old(uidToItems), items[..i], x);
        uid := uid[ItemId(x) := x];
        i := i + 1;
      }
      assert items[..i] == items;
      uidToItems := uid;
    }

    /** The uid table loop of remove_from_set: each item's id is dropped. */
    method DropUids(items: seq<Item>)
      modifies this`uidToItems
      ensures uidToItems == old(uidToItems) - KeysOf(ItemId, Elems(items))
    {
      var uid := uidToItems;
      var i := 0;
      while i < |items|
        invariant 0 <= i <= |items|
        invariant uid == old(uidToItems) - KeysOf(ItemId, Elems(items[..i]))
      {
        var x := items[i];
        TakeSnoc(items, i);
        assert KeysOf(ItemId, Elems(items[..i + 1])) == KeysOf(ItemId, Elems(items[..i])) + {ItemId(x)};
        uid := uid - {ItemId(x)};
        i := i + 1;
      }
      assert items[..i] == items;
      uidToItems := uid;
    }

    /** sw_item_view_add_from_set: the set's items join the current set and the
        uid table and are sent through add_items, in the order the set lists
        them (returned).  The set holds at most one item per id, and is not one
        of the view's own sets. */
    method AddFromSet<K2>(s: SwSet<K2, Item>) returns (order: seq<Item>)
      requires Valid() && KeyInjective(ItemId, s.Members())
      requires s as object != current && s as object != pending
      modifies this`uidToItems, this`readyWatch, this`changeWatch, this`events, current, pending
      ensures Valid()
      ensures Elems(order) == s.Members() && forall i, j | 0 <= i < j < |order| :: order[i] != order[j]
      ensures current.hash == AddAll(old(current.hash), order)
      ensures pending.hash == AddAll(old(pending.hash), NotReady(order))
      ensures readyWatch == old(readyWatch) + Handles(NotReady(order))
      ensures changeWatch == old(changeWatch) + Handles(order)
      ensures events == old(events) + [ItemsAdded(ReadyPayloads(order, parseDate))]
    {
      ghost var S := s.Members();
      ghost var U := uidToItems;
      current.AddFrom(s);
      order := s.AsList();
      assert current.hash == AddAll(U, order) by {
        assert Elems(order) == S;
        AddFromIsAddAll(U, current.hash, order);
      }
      StoreUids(order);
      AddItems(order);
    }

    /** sw_item_view_remove_from_set: the set's items leave the current set and
        the uid table and go out in one ItemsRemoved, in the order the set lists
        them (returned).  The set is not one of the view's own sets. */
    method RemoveFromSet<K2>(s: SwSet<K2, Item>) returns (order: seq<Item>)
      requires Valid()
      requires s as object != current
      modifies this`uidToItems, this`events, current
      ensures Valid()
      ensures Elems(order) == s.Members() && forall i, j | 0 <= i < j < |order| :: order[i] != order[j]
      ensures current.hash == old(current.hash) - KeysOf(ItemId, Elems(order))
      ensures events == old(events) + [ItemsRemoved(RemovedPairs(order))]
    {
      current.RemoveFrom(s);
      order := s.AsList();
      assert Elems(order) == s.Members();
      DropUids(order);
      RemoveItems(order);
    }

    /** sw_item_view_update_existing: the set's items are visited in the order
        the set lists them (returned); one whose id the view holds replaces the
        held item, and is reported changed, when sw_item_equal says the two
        differ.  UpdatedSpec states what this amounts to. */
    method UpdateExisting<K2>(s: SwSet<K2, Item>) returns (order: seq<Item>, sent: seq<Item>)
      requires Valid()
      modifies this`uidToItems, this`events, current
      ensures Valid()
      ensures Elems(order) == old(s.Members()) && forall i, j | 0 <= i < j < |order| :: order[i] != order[j]
      ensures current.hash == Updated(old(current.hash), order, itemEqual)
      ensures sent == Replacements(old(current.hash), order, itemEqual)
      ensures events == old(events) +
        (if ReadyPayloads(sent, parseDate) == [] then [] else [ItemsChanged(ReadyPayloads(sent, parseDate))])
    {
      order := s.AsList();
      var uid;
      uid, sent := ReplaceChanged(current, uidToItems, order, itemEqual);
      uidToItems := uid;
      UpdateItems(sent);
    }

    /** The guarded removal of set_from_set: a non-empty set of stale items goes
        through remove_from_set; an empty one does nothing. */
    method RemoveAnyFromSet(s: SwSet<Item, Item>) returns (removed: seq<Item>)
      requires Valid() && s as object != current
      modifies this`uidToItems, this`events, current
      ensures Valid()
      ensures Elems(removed) == s.Members()
      ensures current.hash == old(current.hash) - KeysOf(ItemId, Elems(removed))
      ensures events == old(events) + (if removed == [] then [] else [ItemsRemoved(RemovedPairs(removed))])
    {
      var empty := s.IsEmpty();
      if !empty {
        removed := RemoveFromSet(s);
        assert removed != [] by {
          var y :| y in s.Members();
          assert y in Elems(removed);
        }
      } else {
        removed := [];
      }
    }

    /** The guarded addition of set_from_set: a non-empty set of new items goes
        through add_from_set; an empty one does nothing. */
    method AddAnyFromSet(s: SwSet<Item, Item>) returns (added: seq<Item>)
      requires Valid() && KeyInjective(ItemId, s.Members())
      requires s as object != current && s as object != pending
      modifies this`uidToItems, this`readyWatch, this`changeWatch, this`events, current, pending
      ensures Valid()
      ensures Elems(added) == s.Members()
      ensures current.hash == AddAll(old(current.hash), added)
      ensures pending.hash == AddAll(old(pending.hash), NotReady(added))
      ensures readyWatch == old(readyWatch) + Handles(NotReady(added))
      ensures changeWatch == old(changeWatch) + Handles(added)
      ensures events == old(events) + (if added == [] then [] else [ItemsAdded(ReadyPayloads(added, parseDate))])
    {
      var empty := s.IsEmpty();
      if !empty {
        added := AddFromSet(s);
        assert added != [] by {
          var y :| y in s.Members();
          assert y in Elems(added);
        }
      } else {
        added := [];
      }
    }

    /** The two differences set_from_set computes, each with the equality of
        the set it looks members up in: removed = current \ new looks the held
        items up in the new set (by identity when the new set is an identity
        set), and added = new \ current looks the new items up by id. */
    method Differences<K2>(s: SwSet<K2, Item>) returns (removedSet: SwSet<Item, Item>, addedSet: SwSet<Item, Item>)
      requires Valid() && KeyInjective(ItemId, s.Members())
      ensures fresh(removedSet) && fresh(addedSet)
      ensures removedSet.Valid() && addedSet.Valid()
      ensures removedSet.Members() == set x | x in current.hash.Values && s.keyOf(x) !in s.hash
      ensures addedSet.Members() == set x | x in s.Members() && ItemId(x) !in current.hash
      ensures KeyInjective(ItemId, addedSet.Members())
    {
      removedSet := current.Difference(s);
      addedSet := s.Difference(current);
    }

    /** set_from_set on a view that holds something: removed = current \ new
        is removed, the items of the new set update the held ones still held,
        and added = new \ current is added.  With an id-keyed set this is the
        merge; with an identity set every held object the new set lacks is
        removed, even when the new set holds an item with its id. */
    method ApplyDifference<K2>(s: SwSet<K2, Item>) returns (removed: seq<Item>, changed: seq<Item>, added: seq<Item>)
      requires Valid() && s.Valid() && KeyInjective(ItemId, s.Members())
      requires s as object != current && s as object != pending
      modifies this`uidToItems, this`readyWatch, this`changeWatch, this`events, current, pending
      ensures Valid()
      ensures Elems(removed) == set x | x in old(current.hash).Values && s.keyOf(x) !in s.hash
      ensures current.hash == MergedBy(old(current.hash), IdTable(s.Members()), KeysOf(ItemId, Elems(removed)), itemEqual)
      ensures forall x :: x in changed <==>
                x in s.Members() && Replaces(old(current.hash) - KeysOf(ItemId, Elems(removed)), x, itemEqual)
      ensures Elems(added) == set x | x in s.Members() && ItemId(x) !in old(current.hash)
      ensures events == old(events) + DiffEvents(false, removed, changed, added, parseDate)
      ensures pending.hash == AddAll(old(pending.hash), NotReady(added))
      ensures readyWatch == old(readyWatch) + Handles(NotReady(added))
      ensures changeWatch == old(changeWatch) + Handles(added)
    {
      ghost var C := current.hash;
      ghost var NS := s.Members();
      var removedSet, addedSet := Differences(s);
      ghost var E := events;
      removed := RemoveAnyFromSet(removedSet);
      ghost var E1 := events;
      var order;
      order, changed, added := UpdateThenAdd(s, addedSet);
      DiffEventsInOrder(E, E1, E1 + (if ReadyPayloads(changed, parseDate) == [] then []
                                     else [ItemsChanged(ReadyPayloads(changed, parseDate))]),
                        events, removed, changed, added, parseDate);
      SetFromSetMergesBy(C, NS, removed, order, added, itemEqual);
    }

    /** The last two steps of set_from_set: update_existing from the new set,
        then add_from_set of added = new \ current when it is not empty. */
    method UpdateThenAdd<K2>(s: SwSet<K2, Item>, addedSet: SwSet<Item, Item>)
      returns (order: seq<Item>, changed: seq<Item>, added: seq<Item>)
      requires Valid() && KeyInjective(ItemId, addedSet.Members())
      requires addedSet as object != current && addedSet as object != pending
      modifies this`uidToItems, this`readyWatch, this`changeWatch, this`events, current, pending
      ensures Valid()
      ensures Elems(order) == old(s.Members()) && forall i, j | 0 <= i < j < |order| :: order[i] != order[j]
      ensures changed == Replacements(old(current.hash), order, itemEqual)
      ensures Elems(added) == old(addedSet.Members())
      ensures current.hash == AddAll(Updated(old(current.hash), order, itemEqual), added)
      ensures events == old(events)
                + (if ReadyPayloads(changed, parseDate) == [] then [] else [ItemsChanged(ReadyPayloads(changed, parseDate))])
                + (if added == [] then [] else [ItemsAdded(ReadyPayloads(added, parseDate))])
      ensures pending.hash == AddAll(old(pending.hash), NotReady(added))
      ensures readyWatch == old(readyWatch) + Handles(NotReady(added))
      ensures changeWatch == old(changeWatch) + Handles(added)
    {
      order, changed := UpdateExisting(s);
      added := AddAnyFromSet(addedSet);
    }

    /** set_from_set on a view that holds nothing: the whole set is added
        through add_from_set. */
    method FillFromSet<K2>(s: SwSet<K2, Item>) returns (added: seq<Item>)
      requires Valid() && s.Valid() && KeyInjective(ItemId, s.Members())
      requires s as object != current && s as object != pending && current.hash == map[]
      modifies this`uidToItems, this`readyWatch, this`changeWatch, this`events, current, pending
      ensures Valid()
      ensures Elems(added) == s.Members()
      ensures current.hash == MergedBy(old(current.hash), IdTable(s.Members()), {}, itemEqual)
      ensures events == old(events) + DiffEvents(true, [], [], added, parseDate)
      ensures pending.hash == AddAll(old(pending.hash), NotReady(added))
      ensures readyWatch == old(readyWatch) + Handles(NotReady(added))
      ensures changeWatch == old(changeWatch) + Handles(added)
    {
      ghost var NS := s.Members();
      added := AddFromSet(s);
      FillEmptyBy(NS, added, itemEqual);
    }

    /** sw_item_view_set_from_set: publish the difference between what the view
        holds and the supplied set.  When the view holds nothing the whole set
        is added.  Otherwise removed = current \ new (looked up with the new
        set's equality) is removed, the new items whose id is still held update
        the held ones where they differ, and added = new \ current (looked up
        by id) is added; removals and additions are published only when
        non-empty, and changes only when a changed item is ready.  The removed,
        changed and added items are returned in the order they were sent.  The
        new set holds at most one item per id. */
    method SetFromSet<K2>(s: SwSet<K2, Item>) returns (removed: seq<Item>, changed: seq<Item>, added: seq<Item>)
      requires Valid() && s.Valid() && KeyInjective(ItemId, s.Members())
      requires s as object != current && s as object != pending
      modifies this`uidToItems, this`readyWatch, this`changeWatch, this`events, current, pending
      ensures Valid()
      ensures Elems(removed) == set x | x in old(current.hash).Values && s.keyOf(x) !in s.hash
      ensures current.hash == MergedBy(old(current.hash), IdTable(s.Members()), KeysOf(ItemId, Elems(removed)), itemEqual)
      ensures forall x :: x in changed <==>
                x in s.Members() && Replaces(old(current.hash) - KeysOf(ItemId, Elems(removed)), x, itemEqual)
      ensures Elems(added) == set x | x in s.Members() && ItemId(x) !in old(current.hash)
      ensures events == old(events) + DiffEvents(old(current.hash) == map[], removed, changed, added, parseDate)
      ensures pending.hash == AddAll(old(pending.hash), NotReady(added))
      ensures readyWatch == old(readyWatch) + Handles(NotReady(added))
      ensures changeWatch == old(changeWatch) + Handles(added)
    {
      var wasEmpty := current.IsEmpty();
      if wasEmpty {
        added := FillFromSet(s);
        removed := [];
        changed := [];
        assert Elems(removed) == {} && KeysOf(ItemId, Elems(removed)) == {};
      } else {
        removed, changed, added := ApplyDifference(s);
      }
    }

    /** Refresh every stored snapshot of the object it.handle to its new state. */
    method Refresh(it: Item)
      requires Valid()
      modifies this`uidToItems, this`changedItems, current, pending
      ensures Valid()
      ensures current.hash == RefreshedTable(old(current.hash), it)
      ensures pending.hash == RefreshedTable(old(pending.hash), it)
      ensures changedItems == RefreshedList(old(changedItems), it)
    {
      RefreshIn(current, it);
      uidToItems := RefreshedTable(uidToItems, it);
      RefreshIn(pending, it);
      RefreshedListSpec(changedItems, it);
      changedItems := RefreshedList(changedItems, it);
    }

    /** _item_ready_notify_cb: the object it.handle notified a change of its
        readiness (it is its new state).  Once it is ready the handler is
        dropped and the pending timeout is installed unless one already is. */
    method ItemReadyNotify(it: Item)
      requires Valid() && it.handle in readyWatch
      modifies this`uidToItems, this`changedItems, this`readyWatch, this`pendingTimeout, current, pending
      ensures Valid()
      ensures current.hash == RefreshedTable(old(current.hash), it)
      ensures pending.hash == RefreshedTable(old(pending.hash), it)
      ensures changedItems == RefreshedList(old(changedItems), it)
      ensures readyWatch == if it.Ready() then old(readyWatch) - {it.handle} else old(readyWatch)
      ensures pendingTimeout == (old(pendingTimeout) || it.Ready())
    {
      Refresh(it);
      if it.Ready() {
        readyWatch := readyWatch - {it.handle};
        if !pendingTimeout {
          pendingTimeout := true;
        }
      }
    }

    /** _handle_ready_pending_cb: exactly the pending items that are now ready
        leave the pending set and go out through add_items (returned in the
        order sent); the timeout is then cleared. */
    method PendingTimeoutFires() returns (sent: seq<Item>)
      requires Valid() && pendingTimeout
      modifies this`pendingTimeout, this`readyWatch, this`changeWatch, this`events, pending
      ensures Valid()
      ensures pending.hash == Without(old(pending.hash), (x: Item) => x.Ready())
      ensures Elems(sent) == set x | x in old(pending.Members()) && x.Ready()
      ensures forall i, j | 0 <= i < j < |sent| :: sent[i] != sent[j]
      ensures events == old(events) + [ItemsAdded(ReadyPayloads(sent, parseDate))]
      ensures |ReadyPayloads(sent, parseDate)| == |sent|
      ensures changeWatch == old(changeWatch) + Handles(sent)
      ensures readyWatch == old(readyWatch)
      ensures !pendingTimeout
    {
      ghost var P := pending.hash;
      var list := pending.AsList();
      sent := TakeReady(pending, list);
      TakeReadyAll(P, list, sent, parseDate);
      AddItems(sent);
      pendingTimeout := false;
    }

    /** _item_changed_cb: the object it.handle changed (it is its new state).
        A change to an item that is not ready is otherwise ignored; a ready one
        joins the changed list unless already there, and the refresh timeout is
        installed unless one already is. */
    method ItemChanged(it: Item)
      requires Valid() && it.handle in changeWatch
      modifies this`uidToItems, this`changedItems, this`refreshTimeout, current, pending
      ensures Valid()
      ensures current.hash == RefreshedTable(old(current.hash), it)
      ensures pending.hash == RefreshedTable(old(pending.hash), it)
      ensures changedItems ==
        RefreshedList(old(changedItems), it)
        + (if it.Ready() && it.handle !in Handles(old(changedItems)) then [it] else [])
      ensures refreshTimeout == (old(refreshTimeout) || it.Ready())
    {
      ghost var L := changedItems;
      Refresh(it);
      if !it.Ready() {
        return;
      }
      assert Handles(changedItems) == Handles(L) by {
        RefreshedListSpec(L, it);
      }
      if it.handle !in Handles(changedItems) {
        AppendNewHandle(changedItems, it);
        changedItems := changedItems + [it];
      }
      if !refreshTimeout {
        refreshTimeout := true;
      }
    }

    /** _item_changed_timeout_cb: the changed list goes out through
        update_items and is emptied; the timeout is cleared. */
    method ChangedTimeoutFires()
      requires Valid() && refreshTimeout
      modifies this`events, this`changedItems, this`refreshTimeout
      ensures Valid()
      ensures events == old(events) +
        (if ReadyPayloads(old(changedItems), parseDate) == [] then []
         else [ItemsChanged(ReadyPayloads(old(changedItems), parseDate))])
      ensures changedItems == [] && !refreshTimeout
    {
      UpdateItems(changedItems);
      changedItems := [];
      refreshTimeout := false;
    }

    /** sw_item_view_remove_by_uid: a known uid leaves the current set and the
        uid table and its item goes out in an ItemsRemoved; an unknown uid only
        logs a critical and changes nothing. */
    method RemoveByUid(uid: string)
      requires Valid()
      modifies this`uidToItems, this`events, current
      ensures Valid()
      ensures uid !in old(uidToItems) ==> current.hash == old(current.hash) && events == old(events)
      ensures uid in old(uidToItems) ==>
                current.hash == old(current.hash) - {uid}
                && events == old(events) + [ItemsRemoved([(old(uidToItems)[uid].service, uid)])]
    {
      if uid in uidToItems {
        var item := uidToItems[uid];
        events := events + [ItemsRemoved([(item.service, ItemId(item))])];
        current.Remove(item);
        uidToItems := uidToItems - {uid};
      }
    }
  }
}
