/** SwItem: one entry of a feed, a string-to-string map ("id", "date",
    "author", ...) owned by a service, with a count of outstanding fetches
    (images still downloading) that decides whether the item is ready to be
    shown.  The views hold items by value: an Item is a snapshot of an SwItem
    object, and its handle stands for the object's identity. */
module SwItems {
  import opened Wrappers

  /** A snapshot of an SwItem object as the views and caches see it. */
  datatype Item = Item(
    handle: nat,
    service: string,
    props: map<string, string>,
    remainingFetches: int,
    cachedDate: int)
  {
    /** sw_item_get on a snapshot */
    function Get(key: string): Option<string> {
      if key in props then Some(props[key]) else None
    }

    /** sw_item_get_ready */
    predicate Ready() {
      remainingFetches == 0
    }
  }

  /** The key an item set compares: the "id" property.  An item without an id
      makes the source hash a NULL string; the model reads it as "". */
  function ItemId(i: Item): string {
    i.Get("id").GetOr("")
  }

  /** The four-field record an item is sent as: service name, id, date in
      seconds and the property map (_sw_item_to_value_array). */
  datatype Payload<P> = Payload(service: string, uuid: string, date: int, props: P)

  /** _sw_item_to_value_array; the date parser is foreign and is a parameter. */
  function ToPayload(i: Item, parseDate: Option<string> -> int): (p: Payload<map<string, string>>)
    ensures p.service == i.service && p.props == i.props
    ensures p.uuid == ItemId(i)
    ensures p.date == parseDate(i.Get("date"))
  {
    Payload(i.service, ItemId(i), parseDate(i.Get("date")), i.props)
  }

  /** cache_date: the date is parsed once; a non-zero cached date is kept. */
  function CachedDate(i: Item, parseDate: string -> int): int {
    if i.cachedDate != 0 then i.cachedDate
    else if "date" in i.props then parseDate(i.props["date"])
    else 0
  }

  function WithCachedDate(i: Item, parseDate: string -> int): (r: Item)
    ensures r.cachedDate == CachedDate(i, parseDate)
    ensures r.(cachedDate := i.cachedDate) == i
  {
    i.(cachedDate := CachedDate(i, parseDate))
  }

  /** Once the cached date is non-zero it is never recomputed, and caching a
      second time changes nothing. */
  lemma CachedDateStable(i: Item, parseDate: string -> int)
    ensures i.cachedDate != 0 ==> WithCachedDate(i, parseDate) == i
    ensures WithCachedDate(WithCachedDate(i, parseDate), parseDate) == WithCachedDate(i, parseDate)
  {
  }

  /** The C int a time_t difference is returned as: two's complement, 32 bits. */
  function ToCInt(x: int): (r: int)
    ensures -0x8000_0000 <= r < 0x8000_0000
    ensures (r - x) % 0x1_0000_0000 == 0
  {
    var m := x % 0x1_0000_0000;
    if m < 0x8000_0000 then m else m - 0x1_0000_0000
  }

  /** sw_item_compare_date_older: positive when a is newer than b. */
  function CompareDateOlder(a: Item, b: Item, parseDate: string -> int): int {
    ToCInt(CachedDate(a, parseDate) - CachedDate(b, parseDate))
  }

  /** sw_item_compare_date_newer: positive when a is older than b. */
  function CompareDateNewer(a: Item, b: Item, parseDate: string -> int): int {
    ToCInt(CachedDate(b, parseDate) - CachedDate(a, parseDate))
  }

  /** compare_date_newer is the negation of compare_date_older, except for the
      one difference whose negation does not fit a C int. */
  lemma NewerNegatesOlder(a: Item, b: Item, parseDate: string -> int)
    ensures (CachedDate(a, parseDate) - CachedDate(b, parseDate)) % 0x1_0000_0000 != 0x8000_0000 ==>
              CompareDateNewer(a, b, parseDate) == -CompareDateOlder(a, b, parseDate)
  {
    var d := CachedDate(a, parseDate) - CachedDate(b, parseDate);
    var o := ToCInt(d);
    var n := ToCInt(-d);
    assert (n + o) % 0x1_0000_0000 == 0 by {
      assert (n - (-d)) % 0x1_0000_0000 == 0;
      assert (o - d) % 0x1_0000_0000 == 0;
      DivisibleSum(n + d, o - d);
    }
  }

  lemma DivisibleSum(x: int, y: int)
    requires x % 0x1_0000_0000 == 0 && y % 0x1_0000_0000 == 0
    ensures (x + y) % 0x1_0000_0000 == 0
  {
    var m := 0x1_0000_0000;
    assert x == (x / m) * m;
    assert y == (y / m) * m;
    assert x + y == (x / m + y / m) * m;
  }

  /** Two items are the same member of an item set exactly when their ids are
      equal (item_hash and item_equal read only "id"). */
  predicate ItemEqual(a: Item, b: Item) {
    ItemId(a) == ItemId(b)
  }

  /** The SwItem object: its property map, cached date, modification time,
      outstanding-fetch count, the "ready" notifications it has emitted and the
      image fetches it is waiting for. */
  datatype Fetch = Fetch(key: string, delaysReady: bool)

  class SwItem {
    const handle: nat
    var service: string
    var hash: map<string, string>
    var cachedDate: int
    var mtime: int
    var remainingFetches: int
    var readyNotifications: nat
    var fetches: seq<Fetch>

    function Snapshot(): (i: Item)
      reads this
      ensures i.handle == handle && i.props == hash && i.remainingFetches == remainingFetches
    {
      Item(handle, service, hash, remainingFetches, cachedDate)
    }

    constructor (h: nat, service: string)
      ensures handle == h && this.service == service && hash == map[]
      ensures cachedDate == 0 && mtime == 0 && remainingFetches == 0
      ensures readyNotifications == 0 && fetches == []
    {
      handle := h;
      this.service := service;
      hash := map[];
      cachedDate := 0;
      mtime := 0;
      remainingFetches := 0;
      readyNotifications := 0;
      fetches := [];
    }

    /** sw_item_touch; the clock is a parameter. */
    method Touch(now: int)
      modifies this`mtime
      ensures mtime == now
    {
      mtime := now;
    }

    /** sw_item_put (and sw_item_take, which differs only in who owns the
        string): a value is stored under the key, NULL removes the key; either
        way the item is touched. */
    method Put(key: string, value: Option<string>, now: int)
      modifies this`hash, this`mtime
      ensures hash == if value.Some? then old(hash)[key := value.value] else old(hash) - {key}
      ensures Get(key) == value
      ensures forall k | k != key :: Get(k) == old(Get(k))
      ensures mtime == now
    {
      if value.Some? {
        hash := hash[key := value.value];
      } else {
        hash := hash - {key};
      }
      Touch(now);
    }

    /** sw_item_get: the value most recently stored under the key, or NULL. */
    function Get(key: string): (r: Option<string>)
      reads this
      ensures r.Some? <==> key in hash
      ensures r.Some? ==> r.value == hash[key]
    {
      if key in hash then Some(hash[key]) else None
    }

    /** cache_date */
    method CacheDate(parseDate: string -> int)
      modifies this`cachedDate
      ensures Snapshot() == WithCachedDate(old(Snapshot()), parseDate)
    {
      if cachedDate != 0 {
        return;
      }
      if "date" !in hash {
        return;
      }
      cachedDate := parseDate(hash["date"]);
    }

    /** sw_item_get_ready */
    function GetReady(): (b: bool)
      reads this
      ensures b <==> Snapshot().Ready()
    {
      remainingFetches == 0
    }

    /** sw_item_push_pending */
    method PushPending()
      modifies this`remainingFetches
      ensures remainingFetches == old(remainingFetches) + 1
      ensures !GetReady() <== old(remainingFetches) >= 0
    {
      remainingFetches := remainingFetches + 1;
    }

    /** sw_item_pop_pending: "ready" is notified when the count reaches 0; the
        item is touched either way.  The count is not guarded and goes negative
        if popped more often than pushed. */
    method PopPending(now: int)
      modifies this`remainingFetches, this`readyNotifications, this`mtime
      ensures remainingFetches == old(remainingFetches) - 1
      ensures readyNotifications == old(readyNotifications) + (if GetReady() then 1 else 0)
      ensures mtime == now
    {
      remainingFetches := remainingFetches - 1;
      if remainingFetches == 0 {
        readyNotifications := readyNotifications + 1;
      }
      Touch(now);
    }

    /** sw_item_request_image_fetch: a fetch that delays readiness keeps the
        item not ready until its download callback runs. */
    method RequestImageFetch(delaysReady: bool, key: string)
      modifies this`remainingFetches, this`fetches
      ensures fetches == old(fetches) + [Fetch(key, delaysReady)]
      ensures remainingFetches == old(remainingFetches) + (if delaysReady then 1 else 0)
      ensures delaysReady && old(remainingFetches) >= 0 ==> !GetReady()
    {
      if delaysReady {
        PushPending();
      }
      fetches := fetches + [Fetch(key, delaysReady)];
    }

    /** _image_download_cb for the i-th outstanding fetch: the downloaded file
        (NULL when none) is taken under the fetch's key, and a fetch that
        delayed readiness pops its count. */
    method ImageDownloaded(i: nat, file: Option<string>, now: int)
      requires i < |fetches|
      modifies this`hash, this`mtime, this`remainingFetches, this`readyNotifications, this`fetches
      ensures fetches == old(fetches[..i] + fetches[i + 1..])
      ensures Get(old(fetches[i].key)) == file
      ensures remainingFetches == old(remainingFetches) - (if old(fetches[i].delaysReady) then 1 else 0)
      ensures mtime == now
    {
      var f := fetches[i];
      fetches := fetches[..i] + fetches[i + 1..];
      Put(f.key, file, now);
      if f.delaysReady {
        PopPending(now);
      }
    }
  }
}
