/** MojitoItemView, the older daemon's view object (mojito/mojito-item-view.c):
    it keeps the set of items the client has been told about and publishes
    the differences between that set and each new set a service hands it.
    Unlike SwItemView it has no pending set, no change detection and no
    per-item signals: every batch is sent whole, even an empty one. */
module MojitoItemViews {
  import opened Wrappers
  import opened SwSets
  import opened SwItems
  import Strs

  type ItemPayload = Payload<map<string, string>>

  /** The signals a view emits over the bus, in emission order. */
  datatype Event =
    | ItemsAdded(items: seq<ItemPayload>)
    | ItemsChanged(items: seq<ItemPayload>)
    | ItemsRemoved(pairs: seq<(string, string)>)

  /** The payloads of a list of items, in list order. */
  function Payloads(items: seq<Item>, parseDate: Option<string> -> int): (r: seq<ItemPayload>)
    ensures |r| == |items|
    ensures forall i | 0 <= i < |items| :: r[i] == ToPayload(items[i], parseDate)
  {
    seq(|items|, i requires 0 <= i < |items| => ToPayload(items[i], parseDate))
  }

  /** The (service name, id) pair ItemsRemoved carries for each item. */
  function Pairs(items: seq<Item>): (r: seq<(string, string)>)
    ensures |r| == |items|
    ensures forall i | 0 <= i < |items| :: r[i] == (items[i].service, ItemId(items[i]))
  {
    seq(|items|, i requires 0 <= i < |items| => (items[i].service, ItemId(items[i])))
  }

  /** A listing of a keyed table: each member once (mojito_set_as_list). */
  ghost predicate Lists(order: seq<Item>, t: map<string, Item>)
  {
    Elems(order) == t.Values && forall i, j | 0 <= i < j < |order| :: order[i] != order[j]
  }

  /** The table after mojito_set_add of every member of t: members already
      held by id stay, the others join. */
  function AddFrom(c: map<string, Item>, t: map<string, Item>): (r: map<string, Item>)
    ensures r.Keys == c.Keys + t.Keys
    ensures forall k | k in r :: r[k] == if k in c then c[k] else t[k]
  {
    map k | k in c.Keys + t.Keys :: if k in c then c[k] else t[k]
  }

  /** mojito_set_difference (a, b): the members of a whose id b lacks. */
  function Difference(a: map<string, Item>, b: map<string, Item>): (r: map<string, Item>)
    ensures r.Keys == a.Keys - b.Keys
    ensures forall k | k in r :: r[k] == a[k]
  {
    map k | k in a && k !in b :: a[k]
  }

  /** The object path of the n-th view of a service (_make_object_path). */
  function ObjectPath(service: string, n: nat): string
  {
    "/com/intel/Mojito/" + service + "/View" + Strs.NatToDecimal(n)
  }

  /** Views created at different times get different object paths. */
  lemma ObjectPathsDistinct(service: string, m: nat, n: nat)
    requires m != n
    ensures ObjectPath(service, m) != ObjectPath(service, n)
  {
    Strs.DecimalInjective(m, n);
    Strs.PrefixCancel("/com/intel/Mojito/" + service + "/View", Strs.NatToDecimal(m), Strs.NatToDecimal(n));
  }

  /** The static counter of _make_object_path, shared by every view. */
  class PathCounter {
    var count: nat

    constructor ()
      ensures count == 0
    {
      count := 0;
    }

    method MakeObjectPath(service: string) returns (path: string)
      modifies this
      ensures path == ObjectPath(service, old(count))
      ensures count == old(count) + 1
    {
      path := "/com/intel/Mojito/" + service + "/View" + Strs.NatToDecimal(count);
      count := count + 1;
    }
  }

  class MojitoItemView {
    const objectPath: string
    /** mojito_time_t_from_string, which is foreign. */
    const parseDate: Option<string> -> int
    /** current_items_set, keyed by item id. */
    var current: map<string, Item>
    var events: seq<Event>

    ghost predicate Valid()
      reads this
    {
      Keyed(current, ItemId)
    }

    /** mojito_item_view_init and _constructed: an empty set, and the next
        object path of the service. */
    constructor (service: string, counter: PathCounter, parse: Option<string> -> int)
      modifies counter
      ensures Valid() && current == map[] && events == []
      ensures objectPath == ObjectPath(service, old(counter.count)) && counter.count == old(counter.count) + 1
      ensures parseDate == parse
    {
      var path := counter.MakeObjectPath(service);
      objectPath := path;
      parseDate := parse;
      current := map[];
      events := [];
    }

    /** mojito_item_view_add_item, _update_item and _remove_item do nothing. */
    method AddItem(item: Item)
    {
    }

    method UpdateItem(item: Item)
    {
    }

    method RemoveItem(item: Item)
    {
    }

    /** mojito_item_view_add_items: one ItemsAdded carrying every item in list
        order, sent even when the list is empty. */
    method AddItems(items: seq<Item>)
      modifies this`events
      ensures events == old(events) + [ItemsAdded(Payloads(items, parseDate))]
    {
      var batch: seq<ItemPayload> := [];
      var i := 0;
      while i < |items|
        invariant 0 <= i <= |items|
        invariant batch == Payloads(items[..i], parseDate)
      {
        batch := batch + [ToPayload(items[i], parseDate)];
        i := i + 1;
      }
      assert items[..i] == items;
      events := events + [ItemsAdded(batch)];
    }

    /** mojito_item_view_update_items: one ItemsChanged carrying every item. */
    method UpdateItems(items: seq<Item>)
      modifies this`events
      ensures events == old(events) + [ItemsChanged(Payloads(items, parseDate))]
    {
      var batch: seq<ItemPayload> := [];
      var i := 0;
      while i < |items|
        invariant 0 <= i <= |items|
        invariant batch == Payloads(items[..i], parseDate)
      {
        batch := batch + [ToPayload(items[i], parseDate)];
        i := i + 1;
      }
      assert items[..i] == items;
      events := events + [ItemsChanged(batch)];
    }

    /** mojito_item_view_remove_items: one ItemsRemoved carrying the service
        name and id of every item. */
    method RemoveItems(items: seq<Item>)
      modifies this`events
      ensures events == old(events) + [ItemsRemoved(Pairs(items))]
    {
      var batch: seq<(string, string)> := [];
      var i := 0;
      while i < |items|
        invariant 0 <= i <= |items|
        invariant batch == Pairs(items[..i])
      {
        batch := batch + [(items[i].service, ItemId(items[i]))];
        i := i + 1;
      }
      assert items[..i] == items;
      events := events + [ItemsRemoved(batch)];
    }

    /** mojito_item_view_add_from_set: the set joins the current set and all
        its items are announced, in the order the set lists them. */
    method AddFromSet(s: map<string, Item>, order: seq<Item>)
      requires Valid() && Keyed(s, ItemId) && Lists(order, s)
      modifies this`current, this`events
      ensures Valid()
      ensures current == AddFrom(old(current), s)
      ensures events == old(events) + [ItemsAdded(Payloads(order, parseDate))]
    {
      current := AddFrom(current, s);
      AddItems(order);
    }

    /** mojito_item_view_remove_from_set: the set's ids leave the current set
        and all its items are announced as removed. */
    method RemoveFromSet(s: map<string, Item>, order: seq<Item>)
      requires Valid() && Lists(order, s)
      modifies this`current, this`events
      ensures Valid()
      ensures current == old(current) - s.Keys
      ensures events == old(events) + [ItemsRemoved(Pairs(order))]
    {
      current := current - s.Keys;
      RemoveItems(order);
    }

    /** mojito_item_view_set_from_set: a view that held nothing takes the whole
        set; otherwise the items it no longer gets are removed and the new
        ones added, each batch announced even when empty.  removedOrder and
        addedOrder are the orders the two difference sets list their items. */
    method SetFromSet(s: map<string, Item>, order: seq<Item>, removedOrder: seq<Item>, addedOrder: seq<Item>)
      requires Valid() && Keyed(s, ItemId) && Lists(order, s)
      requires Lists(removedOrder, Difference(current, s)) && Lists(addedOrder, Difference(s, current))
      modifies this`current, this`events
      ensures Valid()
      ensures current.Keys == s.Keys
      ensures forall k | k in current :: current[k] == if k in old(current) then old(current)[k] else s[k]
      ensures old(current) == map[] ==> events == old(events) + [ItemsAdded(Payloads(order, parseDate))]
      ensures old(current) != map[] ==>
                events == old(events) + [ItemsRemoved(Pairs(removedOrder)), ItemsAdded(Payloads(addedOrder, parseDate))]
    {
      if |current| == 0 {
        AddFromSet(s, order);
      } else {
        DifferenceMerge(current, s);
        ApplyDifference(s, removedOrder, addedOrder);
      }
    }

    /** The else-branch of set_from_set. */
    method ApplyDifference(s: map<string, Item>, removedOrder: seq<Item>, addedOrder: seq<Item>)
      requires Valid() && Keyed(s, ItemId)
      requires Lists(removedOrder, Difference(current, s)) && Lists(addedOrder, Difference(s, current))
      modifies this`current, this`events
      ensures Valid()
      ensures current == AddFrom(old(current) - Difference(old(current), s).Keys, Difference(s, old(current)))
      ensures events == old(events) + [ItemsRemoved(Pairs(removedOrder)), ItemsAdded(Payloads(addedOrder, parseDate))]
    {
      var removed := Difference(current, s);
      var added := Difference(s, current);
      RemoveFromSet(removed, removedOrder);
      AddFromSet(added, addedOrder);
    }
  }

  /** Removing what the new set lacks and adding what the view lacks leaves
      the view holding the new set's ids, with the items it already held kept
      as they were. */
  lemma DifferenceMerge(c: map<string, Item>, s: map<string, Item>)
    ensures AddFrom(c - Difference(c, s).Keys, Difference(s, c)).Keys == s.Keys
    ensures forall k | k in s ::
              AddFrom(c - Difference(c, s).Keys, Difference(s, c))[k] == if k in c then c[k] else s[k]
  {
  }
}
