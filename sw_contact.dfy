/** SwContact: a person known to a service.  Like an item it has a property
    map and an outstanding-fetch count, but each key holds a list of values
    (a GStrv): putting a value appends it after the values already there.
    Views hold contacts by value: a Contact is a snapshot of an SwContact. */
module SwContacts {
  import opened Wrappers
  import SwItems

  /** A snapshot of an SwContact object. */
  datatype Contact = Contact(
    handle: nat,
    service: string,
    props: map<string, seq<string>>,
    remainingFetches: int,
    cachedDate: int,
    mtime: int)
  {
    /** sw_contact_get: the first value stored under the key, or NULL. */
    function Get(key: string): (r: Option<string>)
      ensures r.Some? <==> key in props && |props[key]| > 0
      ensures r.Some? ==> r.value == props[key][0]
    {
      if key in props && |props[key]| > 0 then Some(props[key][0]) else None
    }

    /** sw_contact_get_all, with g_strv_length's reading of a missing list as
        empty. */
    function GetAll(key: string): seq<string> {
      if key in props then props[key] else []
    }

    /** sw_contact_get_ready */
    predicate Ready() {
      remainingFetches == 0
    }
  }

  /** The key a contact set compares: the first "id" value ("" when absent). */
  function ContactId(c: Contact): string {
    c.Get("id").GetOr("")
  }

  /** _sw_contact_to_value_array: a contact is sent as service name, id, date
      in seconds (parsed from the first "date" value by a foreign parser, a
      parameter here) and the whole multi-valued property map. */
  function ToContactPayload(c: Contact, parseDate: Option<string> -> int): (p: SwItems.Payload<map<string, seq<string>>>)
    ensures p.service == c.service && p.props == c.props
    ensures p.uuid == ContactId(c)
    ensures p.date == parseDate(c.Get("date"))
  {
    SwItems.Payload(c.service, ContactId(c), parseDate(c.Get("date")), c.props)
  }

  /** The list stored by sw_contact_put: the value is appended after the
      existing ones; a NULL value terminates the new list early, so it adds
      nothing (and a missing key then gets an empty list). */
  function Appended(props: map<string, seq<string>>, key: string, value: Option<string>): (r: map<string, seq<string>>)
    ensures key in r
    ensures r[key] == (if key in props then props[key] else []) + (if value.Some? then [value.value] else [])
    ensures forall k | k != key :: k in r <==> k in props
    ensures forall k | k != key && k in r :: r[k] == props[k]
  {
    var before := if key in props then props[key] else [];
    props[key := before + (if value.Some? then [value.value] else [])]
  }

  /** Putting values keeps the earlier ones: the list only grows at its end. */
  lemma AppendPreservesEarlier(props: map<string, seq<string>>, key: string, value: Option<string>)
    requires key in props
    ensures Appended(props, key, value)[key][..|props[key]|] == props[key]
    ensures |props[key]| > 0 ==> FirstValue(Appended(props, key, value), key) == FirstValue(props, key)
  {
  }

  /** sw_contact_get on a bare property map. */
  function FirstValue(props: map<string, seq<string>>, key: string): Option<string> {
    if key in props && |props[key]| > 0 then Some(props[key][0]) else None
  }

  /** The number of keys sw_contact_equal compares: "cached" is not counted
      when it holds a value. */
  function ComparedSize(c: Contact): int {
    |c.props| - (if c.Get("cached").Some? then 1 else 0)
  }

  /** sw_contact_equal as written: same service, same pending count, the same
      number of compared keys, and every key of a other than "cached" holds in
      b the same values in the same order.  The modification time is not
      compared. */
  predicate ContactsEqual(a: Contact, b: Contact) {
    a.service == b.service
    && a.remainingFetches == b.remainingFetches
    && ComparedSize(a) == ComparedSize(b)
    && forall k | k in a.props && k != "cached" :: a.props[k] == b.GetAll(k)
  }

  /** sw_contact_equal ignores the modification time and the "cached" marker. */
  lemma EqualIgnoresMtimeAndCached(a: Contact, b: Contact, t: int, v: string)
    requires "cached" !in a.props
    ensures ContactsEqual(a.(mtime := t), b) == ContactsEqual(a, b)
    ensures ContactsEqual(a.(props := a.props["cached" := [v]]), b) == ContactsEqual(a, b)
  {
    var a' := a.(props := a.props["cached" := [v]]);
    assert a'.Get("cached").Some?;
    assert |a'.props| == |a.props| + 1;
    assert forall k | k in a'.props && k != "cached" :: k in a.props && a'.props[k] == a.props[k];
  }

  /** Contacts that differ in service or in outstanding fetches are never
      equal. */
  lemma EqualNeedsServiceAndPending(a: Contact, b: Contact)
    requires a.service != b.service || a.remainingFetches != b.remainingFetches
    ensures !ContactsEqual(a, b)
  {
  }

  /** Any value that differs, or appears in a different position, under a
      compared key of a makes the contacts unequal. */
  lemma EqualComparesInOrder(a: Contact, b: Contact, k: string, i: nat)
    requires k in a.props && k != "cached" && k in b.props
    requires i < |a.props[k]| && i < |b.props[k]| && a.props[k][i] != b.props[k][i]
    ensures !ContactsEqual(a, b)
  {
  }

  /** sw_contact_equal as written is not symmetric: a key of b that holds an
      empty list in a (or is missing from a while a holds an empty list under
      another key) escapes the comparison. */
  lemma EqualNotSymmetric()
    ensures var a := Contact(0, "s", map["x" := []], 0, 0, 0);
            var b := Contact(1, "s", map["y" := ["v"]], 0, 0, 0);
            ContactsEqual(a, b) && !ContactsEqual(b, a)
  {
    var a := Contact(0, "s", map["x" := []], 0, 0, 0);
    var b := Contact(1, "s", map["y" := ["v"]], 0, 0, 0);
    assert b.props["y"] != a.GetAll("y");
  }

  /** The comparison sw_contact_equal evidently intends: same service, same
      pending count, and the same values in the same order under every key
      other than "cached", a missing key counting as an empty list. */
  predicate ContactsEquivalent(a: Contact, b: Contact) {
    a.service == b.service
    && a.remainingFetches == b.remainingFetches
    && (forall k | k in a.props && k != "cached" :: a.props[k] == b.GetAll(k))
    && (forall k | k in b.props && k != "cached" :: b.props[k] == a.GetAll(k))
  }

  /** The intended comparison is an equivalence. */
  lemma EquivalentIsEquivalence(a: Contact, b: Contact, c: Contact)
    ensures ContactsEquivalent(a, a)
    ensures ContactsEquivalent(a, b) ==> ContactsEquivalent(b, a)
    ensures ContactsEquivalent(a, b) && ContactsEquivalent(b, c) ==> ContactsEquivalent(a, c)
  {
    if ContactsEquivalent(a, b) && ContactsEquivalent(b, c) {
      forall k | k in a.props && k != "cached" ensures a.props[k] == c.GetAll(k) {
        if k !in b.props {
          assert a.props[k] == [];
          if k in c.props { assert c.props[k] == b.GetAll(k); }
        }
      }
      forall k | k in c.props && k != "cached" ensures c.props[k] == a.GetAll(k) {
        if k !in b.props {
          assert c.props[k] == [];
          if k in a.props { assert a.props[k] == b.GetAll(k); }
        }
      }
    }
  }

  /** No key holds an empty list: put was never given NULL for a new key. */
  predicate NoEmptyLists(c: Contact) {
    forall k | k in c.props :: |c.props[k]| > 0
  }

  lemma ComparedSizeCountsKeys(c: Contact)
    requires NoEmptyLists(c)
    ensures ComparedSize(c) == |c.props.Keys - {"cached"}|
  {
    if "cached" in c.props {
      assert c.props.Keys == (c.props.Keys - {"cached"}) + {"cached"};
    } else {
      assert c.props.Keys - {"cached"} == c.props.Keys;
    }
  }

  lemma ProperSubsetSmaller<T>(x: set<T>, y: set<T>)
    requires x <= y && x != y
    ensures |x| < |y|
  {
    var d := y - x;
    assert y == x + d && x * d == {};
    var e :| e in d;
    assert |d| >= 1;
  }

  /** Without empty lists, contacts the written comparison accepts are
      equivalent: b cannot hold a key a lacks, since the key counts agree. */
  lemma EqualImpliesEquivalent(a: Contact, b: Contact)
    requires NoEmptyLists(a) && NoEmptyLists(b) && ContactsEqual(a, b)
    ensures ContactsEquivalent(a, b)
  {
    ComparedSizeCountsKeys(a);
    ComparedSizeCountsKeys(b);
    var ka := a.props.Keys - {"cached"};
    var kb := b.props.Keys - {"cached"};
    assert ka <= kb by {
      forall k | k in ka ensures k in kb {
        assert a.props[k] == b.GetAll(k);
      }
    }
    if ka != kb {
      ProperSubsetSmaller(ka, kb);
    }
    forall k | k in b.props && k != "cached" ensures b.props[k] == a.GetAll(k) {
      assert k in ka;
      assert a.props[k] == b.GetAll(k);
    }
  }

  /** Equivalent contacts without empty lists have the same compared keys, so
      the written comparison accepts them. */
  lemma EquivalentImpliesEqual(a: Contact, b: Contact)
    requires NoEmptyLists(a) && NoEmptyLists(b) && ContactsEquivalent(a, b)
    ensures ContactsEqual(a, b)
  {
    ComparedSizeCountsKeys(a);
    ComparedSizeCountsKeys(b);
    var ka := a.props.Keys - {"cached"};
    var kb := b.props.Keys - {"cached"};
    assert ka == kb by {
      forall k | k in ka ensures k in kb {
        assert a.props[k] == b.GetAll(k);
      }
      forall k | k in kb ensures k in ka {
        assert b.props[k] == a.GetAll(k);
      }
    }
  }

  /** Without empty lists the written comparison is the intended one. */
  lemma EqualIsEquivalentWithoutEmptyLists(a: Contact, b: Contact)
    requires NoEmptyLists(a) && NoEmptyLists(b)
    ensures ContactsEqual(a, b) <==> ContactsEquivalent(a, b)
  {
    if ContactsEqual(a, b) {
      EqualImpliesEquivalent(a, b);
    }
    if ContactsEquivalent(a, b) {
      EquivalentImpliesEqual(a, b);
    }
  }

  /** sw_contact_equal, with its loop over a's keys. */
  method Equal(a: Contact, b: Contact) returns (r: bool)
    ensures r == ContactsEqual(a, b)
  {
    if a.service != b.service {
      return false;
    }
    if a.remainingFetches != b.remainingFetches {
      return false;
    }
    var sizeA := |a.props|;
    var sizeB := |b.props|;
    if a.Get("cached").Some? {
      sizeA := sizeA - 1;
    }
    if b.Get("cached").Some? {
      sizeB := sizeB - 1;
    }
    if sizeA != sizeB {
      return false;
    }
    var keys := a.props.Keys;
    while keys != {}
      invariant keys <= a.props.Keys
      invariant forall k | k in a.props && k !in keys && k != "cached" :: a.props[k] == b.GetAll(k)
      decreases keys
    {
      var k :| k in keys;
      keys := keys - {k};
      if k == "cached" {
        continue;
      }
      var va := a.props[k];
      var vb := b.GetAll(k);
      if |va| != |vb| {
        return false;
      }
      var i := 0;
      while i < |va|
        invariant 0 <= i <= |va|
        invariant va[..i] == vb[..i]
      {
        if va[i] != vb[i] {
          return false;
        }
        i := i + 1;
      }
      assert va == va[..i] && vb == vb[..i];
    }
    return true;
  }

  /** The SwContact object. */
  class SwContact {
    const handle: nat
    var service: string
    var hash: map<string, seq<string>>
    var cachedDate: int
    var mtime: int
    var remainingFetches: int
    /** Emissions of the "changed" signal. */
    var changedSignals: nat
    var readyNotifications: nat

    function Snapshot(): (c: Contact)
      reads this
      ensures c.handle == handle && c.props == hash && c.remainingFetches == remainingFetches
    {
      Contact(handle, service, hash, remainingFetches, cachedDate, mtime)
    }

    constructor (h: nat, service: string)
      ensures handle == h && this.service == service && hash == map[]
      ensures cachedDate == 0 && mtime == 0 && remainingFetches == 0
      ensures changedSignals == 0 && readyNotifications == 0
    {
      handle := h;
      this.service := service;
      hash := map[];
      cachedDate := 0;
      mtime := 0;
      remainingFetches := 0;
      changedSignals := 0;
      readyNotifications := 0;
    }

    /** sw_contact_touch: sets the modification time and emits "changed". */
    method Touch(now: int)
      modifies this`mtime, this`changedSignals
      ensures mtime == now && changedSignals == old(changedSignals) + 1
    {
      mtime := now;
      changedSignals := changedSignals + 1;
    }

    /** sw_contact_put (and sw_contact_take, which differs only in who owns
        the string). */
    method Put(key: string, value: Option<string>, now: int)
      modifies this`hash, this`mtime, this`changedSignals
      ensures hash == Appended(old(hash), key, value)
      ensures mtime == now && changedSignals == old(changedSignals) + 1
    {
      var before := if key in hash then hash[key] else [];
      var values := before + (if value.Some? then [value.value] else []);
      hash := hash[key := values];
      Touch(now);
    }

    /** sw_contact_get_ready */
    function GetReady(): (b: bool)
      reads this
      ensures b <==> Snapshot().Ready()
    {
      remainingFetches == 0
    }

    /** sw_contact_push_pending */
    method PushPending()
      modifies this`remainingFetches
      ensures remainingFetches == old(remainingFetches) + 1
    {
      remainingFetches := remainingFetches + 1;
    }

    /** sw_contact_pop_pending: "ready" is notified when the count reaches 0,
        and the contact is touched (so "changed" is emitted) either way. */
    method PopPending(now: int)
      modifies this`remainingFetches, this`readyNotifications, this`mtime, this`changedSignals
      ensures remainingFetches == old(remainingFetches) - 1
      ensures readyNotifications == old(readyNotifications) + (if GetReady() then 1 else 0)
      ensures mtime == now && changedSignals == old(changedSignals) + 1
    {
      remainingFetches := remainingFetches - 1;
      if remainingFetches == 0 {
        readyNotifications := readyNotifications + 1;
      }
      Touch(now);
    }
  }
}
