/** SwContactView: the daemon side of one open view of a service's address
    book.  It is the item view's twin for contacts: it keeps the contacts it
    has published in an id-keyed set (with a uid => contact table beside it),
    holds contacts that are not ready yet in a pending set until a coalescing
    timeout sends them, collects contacts that changed in a list sent on a
    rate-limiting timeout, and publishes the difference between what it holds
    and a new set of contacts as ContactsRemoved / ContactsChanged /
    ContactsAdded signals, kept here as an append-only event log.  Unlike the
    item view it sends none of the three signals empty.  Timeouts firing and
    contact notifications are explicit method calls. */
module SwContactViews {
  import opened Wrappers
  import opened SwSets
  import opened SwContacts
  import SwItems
  import Strs

  type ContactPayload = SwItems.Payload<map<string, seq<string>>>

  /** The signals a view emits over the bus, in emission order. */
  datatype Event =
    | ContactsAdded(contacts: seq<ContactPayload>)
    | ContactsChanged(contacts: seq<ContactPayload>)
    | ContactsRemoved(pairs: seq<(string, string)>)

  /** The payloads of the ready contacts of a list, in list order. */
  function ReadyPayloads(contacts: seq<Contact>, parseDate: Option<string> -> int): seq<ContactPayload> {
    if contacts == [] then []
    else
      var x := contacts[|contacts| - 1];
      ReadyPayloads(DropLast(contacts), parseDate) + (if x.Ready() then [ToContactPayload(x, parseDate)] else [])
  }

  /** The contacts of a list that are not ready, in list order. */
  function NotReady(contacts: seq<Contact>): seq<Contact> {
    if contacts == [] then []
    else
      var x := contacts[|contacts| - 1];
      NotReady(DropLast(contacts)) + (if x.Ready() then [] else [x])
  }

  /** The handles (object identities) of a list of contacts. */
  function Handles(contacts: seq<Contact>): set<nat> {
    if contacts == [] then {} else Handles(DropLast(contacts)) + {contacts[|contacts| - 1].handle}
  }

  /** The table a contact set becomes after sw_set_add of each contact in turn. */
  function AddAll(h: map<string, Contact>, contacts: seq<Contact>): map<string, Contact> {
    if contacts == [] then h
    else
      var x := contacts[|contacts| - 1];
      AddAll(h, DropLast(contacts))[ContactId(x) := x]
  }

  /** The (service name, id) pair ContactsRemoved carries for each contact. */
  function RemovedPairs(contacts: seq<Contact>): seq<(string, string)> {
    seq(|contacts|, i requires 0 <= i < |contacts| => (contacts[i].service, ContactId(contacts[i])))
  }

  /** No object appears twice. */
  predicate DistinctHandles(contacts: seq<Contact>) {
    forall i, j | 0 <= i < j < |contacts| :: contacts[i].handle != contacts[j].handle
  }

  /** A table in which the stored snapshot of the object it.handle is replaced
      by its new state it: the view holds the object, so a change to it is seen
      through every reference. */
  function RefreshedTable(h: map<string, Contact>, it: Contact): map<string, Contact> {
    if ContactId(it) in h && h[ContactId(it)].handle == it.handle then h[ContactId(it) := it] else h
  }

  function RefreshedList(l: seq<Contact>, it: Contact): seq<Contact> {
    seq(|l|, i requires 0 <= i < |l| => if l[i].handle == it.handle then it else l[i])
  }

  lemma ReadyPayloadsSnoc(l: seq<Contact>, x: Contact, parseDate: Option<string> -> int)
    ensures ReadyPayloads(l + [x], parseDate) ==
              ReadyPayloads(l, parseDate) + (if x.Ready() then [ToContactPayload(x, parseDate)] else [])
  {
    assert DropLast(l + [x]) == l;
  }

  lemma NotReadySnoc(l: seq<Contact>, x: Contact)
    ensures NotReady(l + [x]) == NotReady(l) + (if x.Ready() then [] else [x])
  {
    assert DropLast(l + [x]) == l;
  }

  lemma AddAllSnoc(h: map<string, Contact>, l: seq<Contact>, x: Contact)
    ensures AddAll(h, l + [x]) == AddAll(h, l)[ContactId(x) := x]
  {
    assert DropLast(l + [x]) == l;
  }

  lemma HandlesSnoc(l: seq<Contact>, x: Contact)
    ensures Handles(l + [x]) == Handles(l) + {x.handle}
  {
    assert DropLast(l + [x]) == l;
  }

  /** Two lists holding the same objects position by position have the same
      handles. */
  lemma {:induction false} HandlesSame(a: seq<Contact>, b: seq<Contact>)
    requires |a| == |b| && forall i | 0 <= i < |a| :: a[i].handle == b[i].handle
    ensures Handles(a) == Handles(b)
  {
    if a != [] {
      HandlesSame(DropLast(a), DropLast(b));
    }
  }

  /** The handles of a list are those of its elements. */
  lemma {:induction false} HandlesOfElements(l: seq<Contact>)
    ensures forall i | 0 <= i < |l| :: l[i].handle in Handles(l)
    ensures forall h | h in Handles(l) :: exists i | 0 <= i < |l| :: l[i].handle == h
  {
    if l != [] {
      var init := DropLast(l);
      HandlesOfElements(init);
      forall i | 0 <= i < |l| ensures l[i].handle in Handles(l) {
        if i < |init| {
          assert l[i] == init[i];
        }
      }
      forall h | h in Handles(l) ensures exists i | 0 <= i < |l| :: l[i].handle == h {
        if h in Handles(init) {
          var i :| 0 <= i < |init| && init[i].handle == h;
          assert l[i] == init[i];
        } else {
          assert l[|l| - 1].handle == h;
        }
      }
    }
  }

  /** Refreshing a snapshot in the changed list keeps its objects in place:
      same length, same handle at each position, and so the same handles and
      distinctness. */
  lemma RefreshedListSpec(l: seq<Contact>, it: Contact)
    ensures |RefreshedList(l, it)| == |l|
    ensures forall i | 0 <= i < |l| :: RefreshedList(l, it)[i].handle == l[i].handle
    ensures forall i | 0 <= i < |l| :: RefreshedList(l, it)[i] == l[i] || RefreshedList(l, it)[i] == it
    ensures Handles(RefreshedList(l, it)) == Handles(l)
    ensures DistinctHandles(l) ==> DistinctHandles(RefreshedList(l, it))
  {
    HandlesSame(RefreshedList(l, it), l);
  }

  /** Appending an object the list does not hold keeps the handles distinct. */
  lemma AppendNewHandle(l: seq<Contact>, it: Contact)
    requires DistinctHandles(l) && it.handle !in Handles(l)
    ensures DistinctHandles(l + [it])
    ensures Handles(l + [it]) == Handles(l) + {it.handle}
  {
    HandlesOfElements(l);
    HandlesSnoc(l, it);
    forall i, j | 0 <= i < j < |l + [it]| ensures (l + [it])[i].handle != (l + [it])[j].handle {
      assert (l + [it])[i] == l[i];
    }
  }

  /** ContactsAdded carries exactly the ready contacts of the list, each once per
      occurrence and in list order; the others are the not-ready ones. */
  lemma {:induction false} ReadyPayloadsSpec(contacts: seq<Contact>, parseDate: Option<string> -> int)
    ensures forall p | p in ReadyPayloads(contacts, parseDate) ::
              exists x | x in contacts :: x.Ready() && p == ToContactPayload(x, parseDate)
    ensures forall x | x in contacts && x.Ready() :: ToContactPayload(x, parseDate) in ReadyPayloads(contacts, parseDate)
    ensures forall x | x in NotReady(contacts) :: x in contacts && !x.Ready()
    ensures forall x | x in contacts && !x.Ready() :: x in NotReady(contacts)
    ensures |ReadyPayloads(contacts, parseDate)| + |NotReady(contacts)| == |contacts|
  {
    if contacts != [] {
      var init := DropLast(contacts);
      var x := contacts[|contacts| - 1];
      ReadyPayloadsSpec(init, parseDate);
      assert contacts == init + [x];
      forall p | p in ReadyPayloads(contacts, parseDate)
        ensures exists y | y in contacts :: y.Ready() && p == ToContactPayload(y, parseDate)
      {
        if p in ReadyPayloads(init, parseDate) {
          var y :| y in init && y.Ready() && p == ToContactPayload(y, parseDate);
          assert y in contacts;
        } else {
          assert x in contacts && x.Ready() && p == ToContactPayload(x, parseDate);
        }
      }
    }
  }

  /** When every contact of a list is ready, all of them are sent and none waits. */
  lemma {:induction false} AllReadyAllSent(contacts: seq<Contact>, parseDate: Option<string> -> int)
    requires forall x | x in contacts :: x.Ready()
    ensures NotReady(contacts) == []
    ensures |ReadyPayloads(contacts, parseDate)| == |contacts|
  {
    if contacts != [] {
      assert forall x | x in DropLast(contacts) :: x in contacts;
      AllReadyAllSent(DropLast(contacts), parseDate);
    }
  }

  /** The ids a list occupies grow by the id of each appended contact. */
  lemma KeysOfSnoc(l: seq<Contact>, x: Contact)
    ensures Elems(l + [x]) == Elems(l) + {x}
    ensures KeysOf(ContactId, Elems(l + [x])) == KeysOf(ContactId, Elems(l)) + {ContactId(x)}
  {
    assert Elems(l + [x]) == Elems(l) + {x};
  }

  /** Adding contacts one by one to an id-keyed table keeps it keyed, and the
      new keys are the ids of the contacts. */
  lemma {:induction false} AddAllKeys(h: map<string, Contact>, xs: seq<Contact>)
    requires Keyed(h, ContactId)
    ensures Keyed(AddAll(h, xs), ContactId)
    ensures AddAll(h, xs).Keys == h.Keys + KeysOf(ContactId, Elems(xs))
  {
    if xs != [] {
      var init := DropLast(xs);
      var x := xs[|xs| - 1];
      AddAllKeys(h, init);
      assert xs == init + [x];
      KeysOfSnoc(init, x);
    }
  }

  /** After adding contacts one by one, each entry under one of their ids is
      one of them, and every other entry is the one that was there. */
  lemma {:induction false} AddAllEntries(h: map<string, Contact>, xs: seq<Contact>)
    requires Keyed(h, ContactId)
    ensures forall k | k in AddAll(h, xs) ::
              if k in KeysOf(ContactId, Elems(xs)) then AddAll(h, xs)[k] in xs
              else k in h && AddAll(h, xs)[k] == h[k]
  {
    if xs != [] {
      var init := DropLast(xs);
      var x := xs[|xs| - 1];
      AddAllEntries(h, init);
      assert xs == init + [x];
      KeysOfSnoc(init, x);
      assert forall y | y in init :: y in xs;
    }
  }

  /** Adding contacts one by one to an id-keyed table keeps it keyed; the new
      keys are the ids of the contacts, and each entry is either one of them
      or the entry that was there. */
  lemma AddAllSpec(h: map<string, Contact>, xs: seq<Contact>)
    requires Keyed(h, ContactId)
    ensures Keyed(AddAll(h, xs), ContactId)
    ensures AddAll(h, xs).Keys == h.Keys + KeysOf(ContactId, Elems(xs))
    ensures forall k | k in AddAll(h, xs) ::
              if k in KeysOf(ContactId, Elems(xs)) then AddAll(h, xs)[k] in xs
              else AddAll(h, xs)[k] == h[k]
  {
    AddAllKeys(h, xs);
    AddAllEntries(h, xs);
  }

  /** Refreshing a snapshot keeps the table keyed and its keys. */
  lemma RefreshedTableKeyed(h: map<string, Contact>, it: Contact)
    requires Keyed(h, ContactId)
    ensures Keyed(RefreshedTable(h, it), ContactId)
    ensures RefreshedTable(h, it).Keys == h.Keys
    ensures forall k | k in h :: RefreshedTable(h, it)[k].handle == h[k].handle
  {
  }

  /** In an id-keyed table, a member sits under its own id. */
  lemma MemberAtOwnKey(h: map<string, Contact>, x: Contact)
    requires Keyed(h, ContactId) && x in h.Values
    ensures ContactId(x) in h && h[ContactId(x)] == x
  {
    var k :| k in h && h[k] == x;
  }

  /** The members of an id-keyed table have distinct ids. */
  lemma KeyedInjective(h: map<string, Contact>)
    requires Keyed(h, ContactId)
    ensures KeyInjective(ContactId, h.Values)
  {
    forall a, b | a in h.Values && b in h.Values && ContactId(a) == ContactId(b)
      ensures a == b
    {
      MemberAtOwnKey(h, a);
      MemberAtOwnKey(h, b);
    }
  }

  /** The contacts of a list have pairwise different ids. */
  predicate DistinctIds(l: seq<Contact>) {
    forall i, j | 0 <= i < j < |l| :: ContactId(l[i]) != ContactId(l[j])
  }

  /** A list without repetitions drawn from a collection with distinct ids has
      distinct ids. */
  lemma DistinctIdsOfInjective(l: seq<Contact>)
    requires forall i, j | 0 <= i < j < |l| :: l[i] != l[j]
    requires KeyInjective(ContactId, Elems(l))
    ensures DistinctIds(l)
  {
    forall i, j | 0 <= i < j < |l| ensures ContactId(l[i]) != ContactId(l[j]) {
      assert l[i] in Elems(l) && l[j] in Elems(l);
    }
  }

  /** Whether update_existing, holding table t, replaces the held contact by x:
      a contact with x's id is held and eq says it differs from x. */
  predicate Replaces(t: map<string, Contact>, x: Contact, eq: (Contact, Contact) -> bool) {
    ContactId(x) in t && !eq(x, t[ContactId(x)])
  }

  /** The table update_existing leaves after visiting the list in order. */
  function Updated(h: map<string, Contact>, l: seq<Contact>, eq: (Contact, Contact) -> bool): map<string, Contact> {
    if l == [] then h
    else
      var t := Updated(h, DropLast(l), eq);
      var x := l[|l| - 1];
      if Replaces(t, x, eq) then t[ContactId(x) := x] else t
  }

  /** The contacts update_existing reports changed, in the order visited. */
  function Replacements(h: map<string, Contact>, l: seq<Contact>, eq: (Contact, Contact) -> bool): seq<Contact> {
    if l == [] then []
    else
      var x := l[|l| - 1];
      Replacements(h, DropLast(l), eq) + (if Replaces(Updated(h, DropLast(l), eq), x, eq) then [x] else [])
  }

  lemma UpdatedSnoc(h: map<string, Contact>, l: seq<Contact>, x: Contact, eq: (Contact, Contact) -> bool)
    ensures Updated(h, l + [x], eq) ==
              if Replaces(Updated(h, l, eq), x, eq) then Updated(h, l, eq)[ContactId(x) := x] else Updated(h, l, eq)
    ensures Replacements(h, l + [x], eq) ==
              Replacements(h, l, eq) + (if Replaces(Updated(h, l, eq), x, eq) then [x] else [])
  {
    assert DropLast(l + [x]) == l;
  }

  /** Dropping the last contact of a list with distinct ids keeps the ids
      distinct, and no remaining contact shares the last one's id. */
  lemma DistinctIdsDropLast(l: seq<Contact>)
    requires DistinctIds(l) && l != []
    ensures DistinctIds(DropLast(l))
    ensures forall y | y in DropLast(l) :: ContactId(y) != ContactId(l[|l| - 1])
  {
    var init := DropLast(l);
    forall i, j | 0 <= i < j < |init| ensures ContactId(init[i]) != ContactId(init[j]) {
      assert init[i] == l[i] && init[j] == l[j];
    }
    forall y | y in init ensures ContactId(y) != ContactId(l[|l| - 1]) {
      var j :| 0 <= j < |init| && init[j] == y;
      assert l[j] == y;
    }
  }

  /** update_existing keeps the table keyed and keeps its ids. */
  lemma {:induction false} UpdatedKeys(h: map<string, Contact>, l: seq<Contact>, eq: (Contact, Contact) -> bool)
    requires Keyed(h, ContactId)
    ensures Keyed(Updated(h, l, eq), ContactId)
    ensures Updated(h, l, eq).Keys == h.Keys
  {
    if l != [] {
      UpdatedKeys(h, DropLast(l), eq);
    }
  }

  /** With distinct ids, a listed contact whose id is held replaces the held
      contact exactly when the two are unequal, and other entries stay. */
  lemma {:induction false} UpdatedEntries(h: map<string, Contact>, l: seq<Contact>, eq: (Contact, Contact) -> bool)
    requires Keyed(h, ContactId) && DistinctIds(l)
    ensures forall x | x in l && ContactId(x) in h ::
              ContactId(x) in Updated(h, l, eq) &&
              Updated(h, l, eq)[ContactId(x)] == if eq(x, h[ContactId(x)]) then h[ContactId(x)] else x
    ensures forall k | k in h && k !in KeysOf(ContactId, Elems(l)) :: k in Updated(h, l, eq) && Updated(h, l, eq)[k] == h[k]
  {
    if l != [] {
      var init := DropLast(l);
      var x := l[|l| - 1];
      assert l == init + [x];
      DistinctIdsDropLast(l);
      UpdatedKeys(h, init, eq);
      UpdatedEntries(h, init, eq);
      UpdatedSnoc(h, init, x, eq);
      KeysOfSnoc(init, x);
      assert ContactId(x) !in KeysOf(ContactId, Elems(init));
    }
  }

  /** With distinct ids, update_existing keeps the held ids; a listed contact whose
      id is held replaces the held contact exactly when the two are unequal, and
      other entries stay. */
  lemma UpdatedSpec(h: map<string, Contact>, l: seq<Contact>, eq: (Contact, Contact) -> bool)
    requires Keyed(h, ContactId) && DistinctIds(l)
    ensures Keyed(Updated(h, l, eq), ContactId)
    ensures Updated(h, l, eq).Keys == h.Keys
    ensures forall x | x in l && ContactId(x) in h ::
              Updated(h, l, eq)[ContactId(x)] == if eq(x, h[ContactId(x)]) then h[ContactId(x)] else x
    ensures forall k | k in h && k !in KeysOf(ContactId, Elems(l)) :: Updated(h, l, eq)[k] == h[k]
  {
    UpdatedKeys(h, l, eq);
    UpdatedEntries(h, l, eq);
  }

  /** With distinct ids, update_existing reports exactly the listed contacts that
      replace a held contact, each once. */
  lemma {:induction false} ReplacementsSpec(h: map<string, Contact>, l: seq<Contact>, eq: (Contact, Contact) -> bool)
    requires Keyed(h, ContactId) && DistinctIds(l)
    ensures forall x :: x in Replacements(h, l, eq) <==> x in l && Replaces(h, x, eq)
    ensures DistinctIds(Replacements(h, l, eq))
  {
    if l != [] {
      var init := DropLast(l);
      var x := l[|l| - 1];
      assert l == init + [x];
      DistinctIdsDropLast(l);
      ReplacementsSpec(h, init, eq);
      UpdatedSpec(h, init, eq);
      UpdatedSnoc(h, init, x, eq);
      var r := Replacements(h, init, eq);
      assert ContactId(x) !in KeysOf(ContactId, Elems(init));
      assert Replaces(Updated(h, init, eq), x, eq) == Replaces(h, x, eq);
      if Replaces(h, x, eq) {
        forall i, j | 0 <= i < j < |r + [x]| ensures ContactId((r + [x])[i]) != ContactId((r + [x])[j]) {
          if j == |r| {
            assert (r + [x])[i] == r[i] && r[i] in r;
          } else {
            assert (r + [x])[i] == r[i] && (r + [x])[j] == r[j];
          }
        }
      }
      forall y ensures y in Replacements(h, l, eq) <==> y in l && Replaces(h, y, eq) {
        if y == x {
          assert x !in init;
        }
      }
    }
  }

  /** The table left after removing, in list order, each listed contact that is
      ready. */
  function RemoveReady(h: map<string, Contact>, l: seq<Contact>): map<string, Contact> {
    if l == [] then h
    else
      var x := l[|l| - 1];
      var t := RemoveReady(h, DropLast(l));
      if x.Ready() then t - {ContactId(x)} else t
  }

  /** The listed contacts that are ready, last first: each is prepended in turn. */
  function ReadyReversed(l: seq<Contact>): seq<Contact> {
    if l == [] then []
    else
      var x := l[|l| - 1];
      (if x.Ready() then [x] else []) + ReadyReversed(DropLast(l))
  }

  lemma ReadySnoc(h: map<string, Contact>, l: seq<Contact>, x: Contact)
    ensures RemoveReady(h, l + [x]) == if x.Ready() then RemoveReady(h, l) - {ContactId(x)} else RemoveReady(h, l)
    ensures ReadyReversed(l + [x]) == (if x.Ready() then [x] else []) + ReadyReversed(l)
  {
    assert DropLast(l + [x]) == l;
  }

  /** Removing the ready members of an id-keyed table that a list visits leaves
      exactly the others. */
  lemma {:induction false} RemoveReadySpec(h: map<string, Contact>, l: seq<Contact>)
    requires Keyed(h, ContactId) && forall x | x in l :: x in h.Values
    ensures forall k :: k in RemoveReady(h, l) <==> k in h && !(h[k].Ready() && h[k] in l)
    ensures forall k | k in RemoveReady(h, l) :: RemoveReady(h, l)[k] == h[k]
  {
    if l != [] {
      var init := DropLast(l);
      var x := l[|l| - 1];
      assert l == init + [x];
      RemoveReadySpec(h, init);
      ReadySnoc(h, init, x);
      MemberAtOwnKey(h, x);
    }
  }

  /** Visiting every member of an id-keyed table removes exactly the ready ones. */
  lemma RemoveReadyAll(h: map<string, Contact>, l: seq<Contact>)
    requires Keyed(h, ContactId) && Elems(l) == h.Values
    ensures RemoveReady(h, l) == Without(h, (x: Contact) => x.Ready())
  {
    RemoveReadySpec(h, l);
    forall k | k in h ensures h[k] in l {
      assert h[k] in h.Values;
    }
  }

  /** The timeout sends each ready listed contact once. */
  lemma {:induction false} ReadyReversedSpec(l: seq<Contact>)
    requires forall i, j | 0 <= i < j < |l| :: l[i] != l[j]
    ensures forall x :: x in ReadyReversed(l) <==> x in l && x.Ready()
    ensures forall i, j | 0 <= i < j < |ReadyReversed(l)| :: ReadyReversed(l)[i] != ReadyReversed(l)[j]
  {
    if l != [] {
      var init := DropLast(l);
      var x := l[|l| - 1];
      assert l == init + [x];
      ReadyReversedSpec(init);
      ReadySnoc(map[], init, x);
      forall j | 0 <= j < |init| ensures init[j] != x {
        assert init[j] == l[j];
      }
      var r := ReadyReversed(init);
      if x.Ready() {
        forall i, j | 0 <= i < j < |[x] + r| ensures ([x] + r)[i] != ([x] + r)[j] {
          if i == 0 {
            assert ([x] + r)[j] == r[j - 1] && r[j - 1] in r;
          } else {
            assert ([x] + r)[i] == r[i - 1] && ([x] + r)[j] == r[j - 1];
          }
        }
      }
    }
  }

  /** Adding the members of a list with distinct ids one by one to an id-keyed
      table gives the table in which each of them sits under its id. */
  lemma AddAllInjective(u: map<string, Contact>, c: map<string, Contact>, order: seq<Contact>)
    requires Keyed(u, ContactId) && KeyInjective(ContactId, Elems(order))
    requires c.Keys == u.Keys + KeysOf(ContactId, Elems(order))
    requires forall x | x in order :: ContactId(x) in c && c[ContactId(x)] == x
    requires forall k | k in c && k !in KeysOf(ContactId, Elems(order)) :: k in u && c[k] == u[k]
    ensures AddAll(u, order) == c
  {
    AddAllSpec(u, order);
    var a := AddAll(u, order);
    forall k | k in a ensures a[k] == c[k] {
      if k in KeysOf(ContactId, Elems(order)) {
        var y := a[k];
        assert y in order && ContactId(y) == k;
      }
    }
  }

  /** sw_set_add_from of a collection with distinct ids is adding its members
      one by one, in any order. */
  lemma AddFromIsAddAll(u: map<string, Contact>, h: map<string, Contact>, order: seq<Contact>)
    requires Keyed(u, ContactId) && Keyed(h, ContactId) && KeyInjective(ContactId, Elems(order))
    requires h.Keys == u.Keys + KeysOf(ContactId, Elems(order))
    requires forall k | k in h ::
               if k in KeysOf(ContactId, Elems(order)) then h[k] in Elems(order) else h[k] == u[k]
    ensures AddAll(u, order) == h
  {
    forall x | x in order ensures ContactId(x) in h && h[ContactId(x)] == x {
      assert ContactId(x) in KeysOf(ContactId, Elems(order));
      var y := h[ContactId(x)];
      assert y in Elems(order) && ContactId(y) == ContactId(x);
    }
    AddAllInjective(u, h, order);
  }

  /** Adding the members of an id-keyed table one by one to an empty table
      rebuilds it. */
  lemma AddAllFillsKeyed(n: map<string, Contact>, order: seq<Contact>)
    requires Keyed(n, ContactId) && Elems(order) == n.Values
    ensures AddAll(map[], order) == n
  {
    KeyedInjective(n);
    forall x | x in order ensures ContactId(x) in n && n[ContactId(x)] == x {
      MemberAtOwnKey(n, x);
    }
    assert n.Keys == KeysOf(ContactId, Elems(order)) by {
      forall k | k in n ensures k in KeysOf(ContactId, Elems(order)) {
        assert n[k] in n.Values;
      }
    }
    AddAllInjective(map[], n, order);
  }

  /** What set_from_set leaves in the view, holding c, given the new table n:
      exactly the ids of n; under each the held contact when eq says it
      equals the new one, otherwise the new one. */
  function Merged(c: map<string, Contact>, n: map<string, Contact>, eq: (Contact, Contact) -> bool): map<string, Contact> {
    map k | k in n :: if k in c && eq(n[k], c[k]) then c[k] else n[k]
  }

  /** On a view that holds nothing, adding every member of n is the merge:
      nothing is stale, nothing is replaced and everything is new. */
  lemma FillEmpty(c: map<string, Contact>, n: map<string, Contact>, added: seq<Contact>, eq: (Contact, Contact) -> bool)
    requires c == map[] && Keyed(n, ContactId) && Elems(added) == n.Values
    ensures AddAll(c, added) == Merged(c, n, eq)
    ensures (set x | x in c.Values && ContactId(x) !in n) == {}
    ensures forall x :: !Replaces(c, x, eq)
    ensures Elems(added) == set x | x in n.Values && ContactId(x) !in c
  {
    AddAllFillsKeyed(n, added);
  }

  /** The entries of r whose id n also holds, each replaced by n's contact unless
      eq says the two are equal. */
  function UpdatedBy(r: map<string, Contact>, n: map<string, Contact>, eq: (Contact, Contact) -> bool): map<string, Contact> {
    map k | k in r && k in n :: if eq(n[k], r[k]) then r[k] else n[k]
  }

  /** The entries of c whose id n also holds. */
  function Common(c: map<string, Contact>, n: map<string, Contact>): map<string, Contact> {
    map k | k in c && k in n :: c[k]
  }

  /** Removing current \ new from an id-keyed table leaves the entries whose id
      the new table holds. */
  lemma RemovedLeavesCommon(c: map<string, Contact>, n: map<string, Contact>, removed: seq<Contact>)
    requires Keyed(c, ContactId)
    requires Elems(removed) == set x | x in c.Values && ContactId(x) !in n
    ensures c - KeysOf(ContactId, Elems(removed)) == Common(c, n)
  {
    forall k | k in c && k !in n ensures k in KeysOf(ContactId, Elems(removed)) {
      assert c[k] in c.Values;
      assert c[k] in Elems(removed);
    }
  }

  /** The members of an id-keyed table, listed once each, have distinct ids,
      and the list holds every member under its own id. */
  lemma TableOrder(n: map<string, Contact>, order: seq<Contact>)
    requires Keyed(n, ContactId) && Elems(order) == n.Values
    requires forall i, j | 0 <= i < j < |order| :: order[i] != order[j]
    ensures DistinctIds(order)
    ensures forall k | k in n :: n[k] in order && ContactId(n[k]) == k
    ensures forall x :: x in order <==> x in n.Values
  {
    KeyedInjective(n);
    DistinctIdsOfInjective(order);
    forall k | k in n ensures n[k] in order {
      assert n[k] in n.Values;
    }
    forall x ensures x in order <==> x in n.Values {
      assert x in order <==> x in Elems(order);
    }
  }

  /** Updating the common entries from every member of n replaces each by its
      new contact unless eq says they are equal. */
  lemma UpdatedFromTable(r: map<string, Contact>, n: map<string, Contact>, order: seq<Contact>, eq: (Contact, Contact) -> bool)
    requires Keyed(r, ContactId) && Keyed(n, ContactId) && r.Keys <= n.Keys
    requires Elems(order) == n.Values && forall i, j | 0 <= i < j < |order| :: order[i] != order[j]
    ensures Updated(r, order, eq) == UpdatedBy(r, n, eq)
  {
    TableOrder(n, order);
    UpdatedSpec(r, order, eq);
    var u := Updated(r, order, eq);
    forall k | k in r ensures u[k] == UpdatedBy(r, n, eq)[k] {
      var x := n[k];
      assert x in order && ContactId(x) == k;
    }
  }

  /** Updating from every member of n reports exactly the members of n that
      replace a held entry. */
  lemma ReplacedFromTable(r: map<string, Contact>, n: map<string, Contact>, order: seq<Contact>, eq: (Contact, Contact) -> bool)
    requires Keyed(r, ContactId) && Keyed(n, ContactId)
    requires Elems(order) == n.Values && forall i, j | 0 <= i < j < |order| :: order[i] != order[j]
    ensures forall x :: x in Replacements(r, order, eq) <==> x in n.Values && Replaces(r, x, eq)
  {
    TableOrder(n, order);
    ReplacementsSpec(r, order, eq);
  }

  /** The members of n whose id c does not hold have distinct ids, sit under
      their ids in n, and occupy exactly the ids of n that c lacks. */
  lemma AddedOfTable(c: map<string, Contact>, n: map<string, Contact>, added: seq<Contact>)
    requires Keyed(n, ContactId)
    requires Elems(added) == set x | x in n.Values && ContactId(x) !in c
    ensures KeyInjective(ContactId, Elems(added))
    ensures forall x | x in added :: ContactId(x) in n && ContactId(x) !in c && n[ContactId(x)] == x
    ensures KeysOf(ContactId, Elems(added)) == n.Keys - c.Keys
  {
    KeyedInjective(n);
    forall x | x in added ensures ContactId(x) in n && ContactId(x) !in c && n[ContactId(x)] == x {
      assert x in Elems(added);
      MemberAtOwnKey(n, x);
    }
    forall k | k in n && k !in c ensures k in KeysOf(ContactId, Elems(added)) {
      assert n[k] in n.Values;
      assert n[k] in Elems(added);
    }
  }

  /** Adding new \ current to the updated common entries completes the merge. */
  lemma AddAllMerged(c: map<string, Contact>, n: map<string, Contact>, added: seq<Contact>, eq: (Contact, Contact) -> bool)
    requires Keyed(c, ContactId) && Keyed(n, ContactId)
    requires Elems(added) == set x | x in n.Values && ContactId(x) !in c
    ensures AddAll(UpdatedBy(Common(c, n), n, eq), added) == Merged(c, n, eq)
  {
    AddedOfTable(c, n, added);
    var u := UpdatedBy(Common(c, n), n, eq);
    assert Keyed(u, ContactId);
    AddAllInjective(u, Merged(c, n, eq), added);
  }

  /** Removing current \ new, updating from new and adding new \ current, in
      that order, leaves the merged table; the changes reported are exactly the
      new contacts whose id was held and which differ from the held contact. */
  lemma SetFromSetMerges(c: map<string, Contact>, n: map<string, Contact>, removed: seq<Contact>, order: seq<Contact>,
                         added: seq<Contact>, eq: (Contact, Contact) -> bool)
    requires Keyed(c, ContactId) && Keyed(n, ContactId)
    requires Elems(removed) == set x | x in c.Values && ContactId(x) !in n
    requires Elems(order) == n.Values && forall i, j | 0 <= i < j < |order| :: order[i] != order[j]
    requires Elems(added) == set x | x in n.Values && ContactId(x) !in c
    ensures AddAll(Updated(c - KeysOf(ContactId, Elems(removed)), order, eq), added) == Merged(c, n, eq)
    ensures forall x :: x in Replacements(c - KeysOf(ContactId, Elems(removed)), order, eq) <==>
                        x in n.Values && Replaces(c, x, eq)
  {
    RemovedLeavesCommon(c, n, removed);
    var r := Common(c, n);
    UpdatedFromTable(r, n, order, eq);
    ReplacedFromTable(r, n, order, eq);
    AddAllMerged(c, n, added, eq);
    forall x | x in n.Values ensures Replaces(r, x, eq) == Replaces(c, x, eq) {
      MemberAtOwnKey(n, x);
    }
  }

  /** The object path of the n-th view created (_make_object_path). */
  function ObjectPath(n: nat): string {
    "/com/meego/libsocialweb/View" + Strs.NatToDecimal(n)
  }

  /** Two views created at different times get different object paths. */
  lemma ObjectPathsDistinct(m: nat, n: nat)
    requires m != n
    ensures ObjectPath(m) != ObjectPath(n)
  {
    Strs.DecimalInjective(m, n);
    Strs.PrefixCancel("/com/meego/libsocialweb/View", Strs.NatToDecimal(m), Strs.NatToDecimal(n));
  }

  /** The static counter of _make_object_path, shared by every contact view. */
  class PathCounter {
    var count: nat

    constructor ()
      ensures count == 0
    {
      count := 0;
    }

    method MakeObjectPath() returns (path: string)
      modifies this
      ensures path == ObjectPath(old(count))
      ensures count == old(count) + 1
    {
      path := "/com/meego/libsocialweb/View" + Strs.NatToDecimal(count);
      count := count + 1;
    }
  }

  /** ContactsAdded for the ready contacts of a list, when there is one. */
  function AddedEvents(l: seq<Contact>, parseDate: Option<string> -> int): seq<Event> {
    if ReadyPayloads(l, parseDate) == [] then [] else [ContactsAdded(ReadyPayloads(l, parseDate))]
  }

  /** ContactsChanged for the ready contacts of a list, when there is one. */
  function ChangedEvents(l: seq<Contact>, parseDate: Option<string> -> int): seq<Event> {
    if ReadyPayloads(l, parseDate) == [] then [] else [ContactsChanged(ReadyPayloads(l, parseDate))]
  }

  /** ContactsRemoved for a list, when it is not empty. */
  function RemovedEvents(l: seq<Contact>): seq<Event> {
    if l == [] then [] else [ContactsRemoved(RemovedPairs(l))]
  }

  /** The signals set_from_set emits: removals, changes and additions, each
      only when it carries something.  A view that held nothing removes and
      changes nothing, so the same three steps describe that case too. */
  function DiffEvents(removed: seq<Contact>, changed: seq<Contact>, added: seq<Contact>,
                      parseDate: Option<string> -> int): seq<Event>
  {
    RemovedEvents(removed) + ChangedEvents(changed, parseDate) + AddedEvents(added, parseDate)
  }

  /** The signals of the three steps of set_from_set, emitted one after the
      other, are the signals of the difference. */
  lemma DiffEventsInOrder(e0: seq<Event>, e1: seq<Event>, e2: seq<Event>, e3: seq<Event>,
                          removed: seq<Contact>, changed: seq<Contact>, added: seq<Contact>,
                          parseDate: Option<string> -> int)
    requires e1 == e0 + RemovedEvents(removed)
    requires e2 == e1 + ChangedEvents(changed, parseDate)
    requires e3 == e2 + AddedEvents(added, parseDate)
    ensures e3 == e0 + DiffEvents(removed, changed, added, parseDate)
  {
  }

  /** A contact set holding the object it.handle now holds its new state. */
  method RefreshIn(t: SwSet<string, Contact>, it: Contact)
    requires t.Valid() && t.keyOf == ContactId
    modifies t`hash
    ensures t.Valid() && t.hash == RefreshedTable(old(t.hash), it)
  {
    if ContactId(it) in t.hash && t.hash[ContactId(it)].handle == it.handle {
      t.Add(it);
    }
  }

  /** One step of the loop of add_contacts: what visiting x adds to the
      payloads, the pending table and the watched objects. */
  lemma PendSnoc(h: map<string, Contact>, l: seq<Contact>, x: Contact, parseDate: Option<string> -> int)
    ensures ReadyPayloads(l + [x], parseDate) ==
              ReadyPayloads(l, parseDate) + (if x.Ready() then [ToContactPayload(x, parseDate)] else [])
    ensures AddAll(h, NotReady(l + [x])) ==
              if x.Ready() then AddAll(h, NotReady(l)) else AddAll(h, NotReady(l))[ContactId(x) := x]
    ensures Handles(NotReady(l + [x])) ==
              if x.Ready() then Handles(NotReady(l)) else Handles(NotReady(l)) + {x.handle}
    ensures Handles(l + [x]) == Handles(l) + {x.handle}
  {
    ReadyPayloadsSnoc(l, x, parseDate);
    NotReadySnoc(l, x);
    HandlesSnoc(l, x);
    if x.Ready() {
      assert NotReady(l + [x]) == NotReady(l);
    } else {
      AddAllSnoc(h, NotReady(l), x);
      HandlesSnoc(NotReady(l), x);
    }
  }

  /** The body of the loop of add_contacts for one contact x: a ready one
      becomes a payload, another gets a readiness handler and joins the
      pending set t. */
  method PendOne(t: SwSet<string, Contact>, x: Contact, parseDate: Option<string> -> int,
                 payloads0: seq<ContactPayload>, ready0: set<nat>)
    returns (payloads: seq<ContactPayload>, ready: set<nat>)
    requires t.Valid() && t.keyOf == ContactId
    modifies t`hash
    ensures t.Valid()
    ensures t.hash == if x.Ready() then old(t.hash) else old(t.hash)[ContactId(x) := x]
    ensures payloads == payloads0 + (if x.Ready() then [ToContactPayload(x, parseDate)] else [])
    ensures ready == if x.Ready() then ready0 else ready0 + {x.handle}
  {
    payloads := payloads0;
    ready := ready0;
    if x.Ready() {
      payloads := payloads + [ToContactPayload(x, parseDate)];
    } else {
      ready := ready + {x.handle};
      t.Add(x);
    }
  }

  /** The loop of add_contacts: ready contacts become payloads, the others join
      the pending set t with a readiness handler, and every one gets a change
      handler. */
  method PendNotReady(t: SwSet<string, Contact>, xs: seq<Contact>, parseDate: Option<string> -> int,
                      ready0: set<nat>, change0: set<nat>)
    returns (payloads: seq<ContactPayload>, ready: set<nat>, change: set<nat>)
    requires t.Valid() && t.keyOf == ContactId
    modifies t`hash
    ensures t.Valid() && t.hash == AddAll(old(t.hash), NotReady(xs))
    ensures payloads == ReadyPayloads(xs, parseDate)
    ensures ready == ready0 + Handles(NotReady(xs))
    ensures change == change0 + Handles(xs)
  {
    payloads := [];
    ready := ready0;
    change := change0;
    ghost var h0 := t.hash;
    var i := 0;
    while i < |xs|
      invariant 0 <= i <= |xs|
      invariant t.Valid()
      invariant payloads == ReadyPayloads(xs[..i], parseDate)
      invariant t.hash == AddAll(h0, NotReady(xs[..i]))
      invariant ready == ready0 + Handles(NotReady(xs[..i]))
      invariant change == change0 + Handles(xs[..i])
      modifies t`hash
    {
      var x := xs[i];
      TakeSnoc(xs, i);
      PendSnoc(h0, xs[..i], x, parseDate);
      payloads, ready := PendOne(t, x, parseDate, payloads, ready);
      change := change + {x.handle};
      i := i + 1;
    }
    assert xs[..i] == xs;
  }

  /** The loop of update_existing: each listed contact whose id the uid table
      holds replaces the held one in the table and in the set t when eq says
      the two differ, and is then reported. */
  method ReplaceChanged(t: SwSet<string, Contact>, uid0: map<string, Contact>, order: seq<Contact>, eq: (Contact, Contact) -> bool)
    returns (uid: map<string, Contact>, sent: seq<Contact>)
    requires t.Valid() && t.keyOf == ContactId && uid0 == t.hash
    modifies t`hash
    ensures t.Valid() && uid == t.hash
    ensures uid == Updated(uid0, order, eq)
    ensures sent == Replacements(uid0, order, eq)
  {
    sent := [];
    uid := uid0;
    var i := 0;
    while i < |order|
      invariant 0 <= i <= |order|
      invariant t.Valid() && uid == t.hash
      invariant uid == Updated(uid0, order[..i], eq)
      invariant sent == Replacements(uid0, order[..i], eq)
      modifies t`hash
    {
      var x := order[i];
      TakeSnoc(order, i);
      UpdatedSnoc(uid0, order[..i], x, eq);
      if ContactId(x) in uid {
        var held := uid[ContactId(x)];
        if !eq(x, held) {
          uid := uid[ContactId(x) := x];
          t.Add(x);
          sent := sent + [x];
        }
      }
      i := i + 1;
    }
    assert order[..i] == order;
  }

  /** The loop of the pending timeout: each listed contact that is ready is
      prepended to the list to send and leaves the pending set t. */
  method TakeReady(t: SwSet<string, Contact>, list: seq<Contact>) returns (sent: seq<Contact>)
    requires t.Valid() && t.keyOf == ContactId
    modifies t`hash
    ensures t.Valid() && t.hash == RemoveReady(old(t.hash), list)
    ensures sent == ReadyReversed(list)
  {
    ghost var P := t.hash;
    sent := [];
    var i := 0;
    while i < |list|
      invariant 0 <= i <= |list|
      invariant t.Valid()
      invariant t.hash == RemoveReady(P, list[..i])
      invariant sent == ReadyReversed(list[..i])
      modifies t`hash
    {
      var x := list[i];
      TakeSnoc(list, i);
      ReadySnoc(P, list[..i], x);
      if x.Ready() {
        sent := [x] + sent;
        t.Remove(x);
      }
      i := i + 1;
    }
    assert list[..i] == list;
  }

  /** What the pending timeout leaves and sends, having visited every pending
      contact once: the pending set keeps exactly those not ready, and the
      ready ones are all sent, each once. */
  lemma TakeReadyAll(p: map<string, Contact>, list: seq<Contact>, sent: seq<Contact>, parseDate: Option<string> -> int)
    requires Keyed(p, ContactId) && Elems(list) == p.Values
    requires forall i, j | 0 <= i < j < |list| :: list[i] != list[j]
    requires sent == ReadyReversed(list)
    ensures RemoveReady(p, list) == Without(p, (x: Contact) => x.Ready())
    ensures Elems(sent) == set x | x in p.Values && x.Ready()
    ensures forall i, j | 0 <= i < j < |sent| :: sent[i] != sent[j]
    ensures NotReady(sent) == [] && |ReadyPayloads(sent, parseDate)| == |sent|
  {
    RemoveReadyAll(p, list);
    ReadyReversedSpec(list);
    AllReadyAllSent(sent, parseDate);
  }

  class SwContactView {
    const service: string
    const objectPath: string
    /** The date parser behind the payload's date (foreign). */
    const parseDate: Option<string> -> int
    const current: SwSet<string, Contact>
    const pending: SwSet<string, Contact>
    var uidToContacts: map<string, Contact>
    var changedContacts: seq<Contact>
    /** Whether a pending timeout / a changed (refresh) timeout is installed. */
    var pendingTimeout: bool
    var refreshTimeout: bool
    /** Objects whose "notify::ready" / "changed" this view listens to. */
    var readyWatch: set<nat>
    var changeWatch: set<nat>
    var events: seq<Event>

    ghost predicate Valid()
      reads this, current, pending
    {
      current != pending
      && current.keyOf == ContactId && pending.keyOf == ContactId
      && current.Valid() && pending.Valid()
      && uidToContacts == current.hash
      && DistinctHandles(changedContacts)
    }

    constructor (service: string, counter: PathCounter, parseDate: Option<string> -> int)
      modifies counter
      ensures Valid() && fresh(current) && fresh(pending)
      ensures this.service == service && objectPath == ObjectPath(old(counter.count))
      ensures counter.count == old(counter.count) + 1
      ensures this.parseDate == parseDate
      ensures current.hash == map[] && pending.hash == map[] && uidToContacts == map[]
      ensures changedContacts == [] && !pendingTimeout && !refreshTimeout
      ensures readyWatch == {} && changeWatch == {} && events == []
    {
      this.service := service;
      var path := counter.MakeObjectPath();
      objectPath := path;
      this.parseDate := parseDate;
      current := new SwSet(ContactId);
      pending := new SwSet(ContactId);
      uidToContacts := map[];
      changedContacts := [];
      pendingTimeout := false;
      refreshTimeout := false;
      readyWatch := {};
      changeWatch := {};
      events := [];
    }

    /** sw_contact_view_add_contacts: ready contacts go out in one
        ContactsAdded, sent only when it carries something; the others wait in
        the pending set with a readiness handler; every contact gets a change
        handler. */
    method AddContacts(contacts: seq<Contact>)
      requires Valid()
      modifies this`readyWatch, this`changeWatch, this`events, pending
      ensures Valid()
      ensures pending.hash == AddAll(old(pending.hash), NotReady(contacts))
      ensures readyWatch == old(readyWatch) + Handles(NotReady(contacts))
      ensures changeWatch == old(changeWatch) + Handles(contacts)
      ensures events == old(events) + AddedEvents(contacts, parseDate)
    {
      var payloads, ready, change := PendNotReady(pending, contacts, parseDate, readyWatch, changeWatch);
      readyWatch := ready;
      changeWatch := change;
      if |payloads| > 0 {
        events := events + [ContactsAdded(payloads)];
      }
    }

    /** sw_contact_view_update_contacts: the ready contacts go out in one
        ContactsChanged, which is sent only when it carries something. */
    method UpdateContacts(contacts: seq<Contact>)
      modifies this`events
      ensures events == old(events) + ChangedEvents(contacts, parseDate)
    {
      var payloads: seq<ContactPayload> := [];
      var i := 0;
      while i < |contacts|
        invariant 0 <= i <= |contacts|
        invariant payloads == ReadyPayloads(contacts[..i], parseDate)
      {
        var it := contacts[i];
        assert DropLast(contacts[..i + 1]) == contacts[..i];
        if it.Ready() {
          payloads := payloads + [ToContactPayload(it, parseDate)];
        }
        i := i + 1;
      }
      assert contacts[..i] == contacts;
      if |payloads| > 0 {
        events := events + [ContactsChanged(payloads)];
      }
    }

    /** sw_contact_view_remove_contacts: one ContactsRemoved with a (service,
        id) pair per contact, sent only when the list is not empty. */
    method RemoveContacts(contacts: seq<Contact>)
      modifies this`events
      ensures events == old(events) + RemovedEvents(contacts)
    {
      var pairs: seq<(string, string)> := [];
      var i := 0;
      while i < |contacts|
        invariant 0 <= i <= |contacts|
        invariant pairs == RemovedPairs(contacts[..i])
      {
        pairs := pairs + [(contacts[i].service, ContactId(contacts[i]))];
        i := i + 1;
      }
      assert contacts[..i] == contacts;
      if |pairs| > 0 {
        events := events + [ContactsRemoved(pairs)];
      }
    }

    /** The uid table loop of add_from_set: each contact is stored under its id. */
    method StoreUids(contacts: seq<Contact>)
      modifies this`uidToContacts
      ensures uidToContacts == AddAll(old(uidToContacts), contacts)
    {
      var uid := uidToContacts;
      var i := 0;
      while i < |contacts|
        invariant 0 <= i <= |contacts|
        invariant uid == AddAll(old(uidToContacts), contacts[..i])
      {
        var x := contacts[i];
        TakeSnoc(contacts, i);
        AddAllSnoc(old(uidToContacts), contacts[..i], x);
        uid := uid[ContactId(x) := x];
        i := i + 1;
      }
      assert contacts[..i] == contacts;
      uidToContacts := uid;
    }

    /** The uid table loop of remove_from_set: each contact's id is dropped. */
    method DropUids(contacts: seq<Contact>)
      modifies this`uidToContacts
      ensures uidToContacts == old(uidToContacts) - KeysOf(ContactId, Elems(contacts))
    {
      var uid := uidToContacts;
      var i := 0;
      while i < |contacts|
        invariant 0 <= i <= |contacts|
        invariant uid == old(uidToContacts) - KeysOf(ContactId, Elems(contacts[..i]))
      {
        var x := contacts[i];
        TakeSnoc(contacts, i);
        assert KeysOf(ContactId, Elems(contacts[..i + 1])) == KeysOf(ContactId, Elems(contacts[..i])) + {ContactId(x)};
        uid := uid - {ContactId(x)};
        i := i + 1;
      }
      assert contacts[..i] == contacts;
      uidToContacts := uid;
    }

    /** sw_contact_view_add_from_set: the set's contacts join the current set and the
        uid table and are sent through add_contacts, in the order the set lists
        them (returned).  The set holds at most one contact per id, and is not one
        of the view's own sets. */
    method AddFromSet<K2>(s: SwSet<K2, Contact>) returns (order: seq<Contact>)
      requires Valid() && KeyInjective(ContactId, s.Members())
      requires s as object != current && s as object != pending
      modifies this`uidToContacts, this`readyWatch, this`changeWatch, this`events, current, pending
      ensures Valid()
      ensures Elems(order) == s.Members() && forall i, j | 0 <= i < j < |order| :: order[i] != order[j]
      ensures current.hash == AddAll(old(current.hash), order)
      ensures pending.hash == AddAll(old(pending.hash), NotReady(order))
      ensures readyWatch == old(readyWatch) + Handles(NotReady(order))
      ensures changeWatch == old(changeWatch) + Handles(order)
      ensures events == old(events) + AddedEvents(order, parseDate)
    {
      ghost var S := s.Members();
      ghost var U := uidToContacts;
      current.AddFrom(s);
      order := s.AsList();
      assert current.hash == AddAll(U, order) by {
        assert Elems(order) == S;
        AddFromIsAddAll(U, current.hash, order);
      }
      StoreUids(order);
      AddContacts(order);
    }

    /** sw_contact_view_remove_from_set: the set's contacts leave the current set and
        the uid table and go out in one ContactsRemoved, in the order the set lists
        them (returned).  The set is not one of the view's own sets. */
    method RemoveFromSet<K2>(s: SwSet<K2, Contact>) returns (order: seq<Contact>)
      requires Valid()
      requires s as object != current
      modifies this`uidToContacts, this`events, current
      ensures Valid()
      ensures Elems(order) == s.Members() && forall i, j | 0 <= i < j < |order| :: order[i] != order[j]
      ensures current.hash == old(current.hash) - KeysOf(ContactId, Elems(order))
      ensures events == old(events) + RemovedEvents(order)
    {
      current.RemoveFrom(s);
      order := s.AsList();
      assert Elems(order) == s.Members();
      DropUids(order);
      RemoveContacts(order);
    }

    /** sw_contact_view_update_existing: the set's contacts are visited in the order
        the set lists them (returned); one whose id the view holds replaces the
        held contact, and is reported changed, when the two differ.  The
        comparison is ContactsEquivalent, the symmetric one sw_contact_equal
        intends (SwContacts.EqualNotSymmetric shows the written one is not).
        UpdatedSpec states what this amounts to. */
    method UpdateExisting<K2>(s: SwSet<K2, Contact>) returns (order: seq<Contact>, sent: seq<Contact>)
      requires Valid()
      modifies this`uidToContacts, this`events, current
      ensures Valid()
      ensures Elems(order) == old(s.Members()) && forall i, j | 0 <= i < j < |order| :: order[i] != order[j]
      ensures current.hash == Updated(old(current.hash), order, ContactsEquivalent)
      ensures sent == Replacements(old(current.hash), order, ContactsEquivalent)
      ensures events == old(events) + ChangedEvents(sent, parseDate)
    {
      order := s.AsList();
      var uid;
      uid, sent := ReplaceChanged(current, uidToContacts, order, ContactsEquivalent);
      uidToContacts := uid;
      UpdateContacts(sent);
    }

    /** The guarded removal of set_from_set: a non-empty set of stale contacts goes
        through remove_from_set; an empty one does nothing. */
    method RemoveAnyFromSet(s: SwSet<Contact, Contact>) returns (removed: seq<Contact>)
      requires Valid() && s as object != current
      modifies this`uidToContacts, this`events, current
      ensures Valid()
      ensures Elems(removed) == s.Members()
      ensures current.hash == old(current.hash) - KeysOf(ContactId, Elems(removed))
      ensures events == old(events) + RemovedEvents(removed)
    {
      var empty := s.IsEmpty();
      if !empty {
        removed := RemoveFromSet(s);
        assert removed != [] by {
          var y :| y in s.Members();
          assert y in Elems(removed);
        }
      } else {
        removed := [];
      }
    }

    /** The guarded addition of set_from_set: a non-empty set of new contacts goes
        through add_from_set; an empty one does nothing. */
    method AddAnyFromSet(s: SwSet<Contact, Contact>) returns (added: seq<Contact>)
      requires Valid() && KeyInjective(ContactId, s.Members())
      requires s as object != current && s as object != pending
      modifies this`uidToContacts, this`readyWatch, this`changeWatch, this`events, current, pending
      ensures Valid()
      ensures Elems(added) == s.Members()
      ensures current.hash == AddAll(old(current.hash), added)
      ensures pending.hash == AddAll(old(pending.hash), NotReady(added))
      ensures readyWatch == old(readyWatch) + Handles(NotReady(added))
      ensures changeWatch == old(changeWatch) + Handles(added)
      ensures events == old(events) + AddedEvents(added, parseDate)
    {
      var empty := s.IsEmpty();
      if !empty {
        added := AddFromSet(s);
        assert added != [] by {
          var y :| y in s.Members();
          assert y in Elems(added);
        }
      } else {
        added := [];
      }
    }

    /** The two differences set_from_set computes: removed = current \ new
        and added = new \ current, as fresh identity sets. */
    method Differences(s: SwSet<string, Contact>) returns (removedSet: SwSet<Contact, Contact>, addedSet: SwSet<Contact, Contact>)
      requires Valid() && s.Valid() && s.keyOf == ContactId
      ensures fresh(removedSet) && fresh(addedSet)
      ensures removedSet.Valid() && addedSet.Valid()
      ensures removedSet.Members() == set x | x in current.hash.Values && ContactId(x) !in s.hash
      ensures addedSet.Members() == set x | x in s.hash.Values && ContactId(x) !in current.hash
      ensures KeyInjective(ContactId, addedSet.Members())
    {
      removedSet := current.Difference(s);
      addedSet := s.Difference(current);
      assert addedSet.Members() <= s.hash.Values;
      KeyedInjective(s.hash);
    }

    /** set_from_set on a view that holds something: removed = current \ new
        is removed, the contacts of the new set update the held ones, and
        added = new \ current is added. */
    method ApplyDifference(s: SwSet<string, Contact>) returns (removed: seq<Contact>, changed: seq<Contact>, added: seq<Contact>)
      requires Valid() && s.Valid() && s.keyOf == ContactId
      requires s != current && s != pending
      modifies this`uidToContacts, this`readyWatch, this`changeWatch, this`events, current, pending
      ensures Valid()
      ensures current.hash == Merged(old(current.hash), s.hash, ContactsEquivalent)
      ensures Elems(removed) == set x | x in old(current.hash).Values && ContactId(x) !in s.hash
      ensures forall x :: x in changed <==> x in s.hash.Values && Replaces(old(current.hash), x, ContactsEquivalent)
      ensures Elems(added) == set x | x in s.hash.Values && ContactId(x) !in old(current.hash)
      ensures events == old(events) + DiffEvents(removed, changed, added, parseDate)
      ensures pending.hash == AddAll(old(pending.hash), NotReady(added))
      ensures readyWatch == old(readyWatch) + Handles(NotReady(added))
      ensures changeWatch == old(changeWatch) + Handles(added)
    {
      ghost var C := current.hash;
      ghost var N := s.hash;
      var removedSet, addedSet := Differences(s);
      ghost var E := events;
      removed := RemoveAnyFromSet(removedSet);
      ghost var E1 := events;
      var order;
      order, changed := UpdateExisting(s);
      ghost var E2 := events;
      added := AddAnyFromSet(addedSet);
      DiffEventsInOrder(E, E1, E2, events, removed, changed, added, parseDate);
      SetFromSetMerges(C, N, removed, order, added, ContactsEquivalent);
    }

    /** set_from_set on a view that holds nothing: the whole set is added
        through add_from_set. */
    method FillFromSet(s: SwSet<string, Contact>) returns (added: seq<Contact>)
      requires Valid() && s.Valid() && s.keyOf == ContactId
      requires s != current && s != pending && current.hash == map[]
      modifies this`uidToContacts, this`readyWatch, this`changeWatch, this`events, current, pending
      ensures Valid()
      ensures current.hash == Merged(old(current.hash), s.hash, ContactsEquivalent)
      ensures (set x | x in old(current.hash).Values && ContactId(x) !in s.hash) == {}
      ensures forall x :: !Replaces(old(current.hash), x, ContactsEquivalent)
      ensures Elems(added) == set x | x in s.hash.Values && ContactId(x) !in old(current.hash)
      ensures events == old(events) + DiffEvents([], [], added, parseDate)
      ensures pending.hash == AddAll(old(pending.hash), NotReady(added))
      ensures readyWatch == old(readyWatch) + Handles(NotReady(added))
      ensures changeWatch == old(changeWatch) + Handles(added)
    {
      ghost var N := s.hash;
      added := AddFromSet(s) by {
        KeyedInjective(N);
      }
      FillEmpty(old(current.hash), N, added, ContactsEquivalent);
    }

    /** sw_contact_view_set_from_set: publish the difference between what the view
        holds and the supplied id-keyed set.  When the view holds nothing the
        whole set is added.  Otherwise removed = current \ new is removed, contacts
        present in both are updated where they differ, and added = new \ current
        is added; removals and additions are published only when non-empty, and
        changes only when a changed contact is ready.  The removed, changed and
        added contacts are returned in the order they were sent. */
    method SetFromSet(s: SwSet<string, Contact>) returns (removed: seq<Contact>, changed: seq<Contact>, added: seq<Contact>)
      requires Valid() && s.Valid() && s.keyOf == ContactId
      requires s != current && s != pending
      modifies this`uidToContacts, this`readyWatch, this`changeWatch, this`events, current, pending
      ensures Valid()
      ensures current.hash == Merged(old(current.hash), s.hash, ContactsEquivalent)
      ensures Elems(removed) == set x | x in old(current.hash).Values && ContactId(x) !in s.hash
      ensures forall x :: x in changed <==> x in s.hash.Values && Replaces(old(current.hash), x, ContactsEquivalent)
      ensures Elems(added) == set x | x in s.hash.Values && ContactId(x) !in old(current.hash)
      ensures events == old(events) + DiffEvents(removed, changed, added, parseDate)
      ensures pending.hash == AddAll(old(pending.hash), NotReady(added))
      ensures readyWatch == old(readyWatch) + Handles(NotReady(added))
      ensures changeWatch == old(changeWatch) + Handles(added)
    {
      var wasEmpty := current.IsEmpty();
      if wasEmpty {
        added := FillFromSet(s);
        removed := [];
        changed := [];
      } else {
        removed, changed, added := ApplyDifference(s);
      }
    }

    /** Refresh every stored snapshot of the object it.handle to its new state. */
    method Refresh(it: Contact)
      requires Valid()
      modifies this`uidToContacts, this`changedContacts, current, pending
      ensures Valid()
      ensures current.hash == RefreshedTable(old(current.hash), it)
      ensures pending.hash == RefreshedTable(old(pending.hash), it)
      ensures changedContacts == RefreshedList(old(changedContacts), it)
    {
      RefreshIn(current, it);
      uidToContacts := RefreshedTable(uidToContacts, it);
      RefreshIn(pending, it);
      RefreshedListSpec(changedContacts, it);
      changedContacts := RefreshedList(changedContacts, it);
    }

    /** _contact_ready_notify_cb: the object it.handle notified a change of its
        readiness (it is its new state).  Once it is ready the handler is
        dropped and the pending timeout is installed unless one already is. */
    method ContactReadyNotify(it: Contact)
      requires Valid() && it.handle in readyWatch
      modifies this`uidToContacts, this`changedContacts, this`readyWatch, this`pendingTimeout, current, pending
      ensures Valid()
      ensures current.hash == RefreshedTable(old(current.hash), it)
      ensures pending.hash == RefreshedTable(old(pending.hash), it)
      ensures changedContacts == RefreshedList(old(changedContacts), it)
      ensures readyWatch == if it.Ready() then old(readyWatch) - {it.handle} else old(readyWatch)
      ensures pendingTimeout == (old(pendingTimeout) || it.Ready())
    {
      Refresh(it);
      if it.Ready() {
        readyWatch := readyWatch - {it.handle};
        if !pendingTimeout {
          pendingTimeout := true;
        }
      }
    }

    /** _handle_ready_pending_cb: exactly the pending contacts that are now ready
        leave the pending set and go out through add_contacts (returned in the
        order sent); the timeout is then cleared. */
    method PendingTimeoutFires() returns (sent: seq<Contact>)
      requires Valid() && pendingTimeout
      modifies this`pendingTimeout, this`readyWatch, this`changeWatch, this`events, pending
      ensures Valid()
      ensures pending.hash == Without(old(pending.hash), (x: Contact) => x.Ready())
      ensures Elems(sent) == set x | x in old(pending.Members()) && x.Ready()
      ensures forall i, j | 0 <= i < j < |sent| :: sent[i] != sent[j]
      ensures events == old(events) + AddedEvents(sent, parseDate)
      ensures |ReadyPayloads(sent, parseDate)| == |sent|
      ensures changeWatch == old(changeWatch) + Handles(sent)
      ensures readyWatch == old(readyWatch)
      ensures !pendingTimeout
    {
      ghost var P := pending.hash;
      var list := pending.AsList();
      sent := TakeReady(pending, list);
      TakeReadyAll(P, list, sent, parseDate);
      AddContacts(sent);
      pendingTimeout := false;
    }

    /** _contact_changed_cb: the object it.handle changed (it is its new state).
        A change to a contact that is not ready is otherwise ignored; a ready one
        joins the changed list unless already there, and the refresh timeout is
        installed unless one already is. */
    method ContactChanged(it: Contact)
      requires Valid() && it.handle in changeWatch
      modifies this`uidToContacts, this`changedContacts, this`refreshTimeout, current, pending
      ensures Valid()
      ensures current.hash == RefreshedTable(old(current.hash), it)
      ensures pending.hash == RefreshedTable(old(pending.hash), it)
      ensures changedContacts ==
        RefreshedList(old(changedContacts), it)
        + (if it.Ready() && it.handle !in Handles(old(changedContacts)) then [it] else [])
      ensures refreshTimeout == (old(refreshTimeout) || it.Ready())
    {
      ghost var L := changedContacts;
      Refresh(it);
      if !it.Ready() {
        return;
      }
      assert Handles(changedContacts) == Handles(L) by {
        RefreshedListSpec(L, it);
      }
      if it.handle !in Handles(changedContacts) {
        AppendNewHandle(changedContacts, it);
        changedContacts := changedContacts + [it];
      }
      if !refreshTimeout {
        refreshTimeout := true;
      }
    }

    /** _contact_changed_timeout_cb: the changed list goes out through
        update_contacts and is emptied; the timeout is cleared. */
    method ChangedTimeoutFires()
      requires Valid() && refreshTimeout
      modifies this`events, this`changedContacts, this`refreshTimeout
      ensures Valid()
      ensures events == old(events) + ChangedEvents(old(changedContacts), parseDate)
      ensures changedContacts == [] && !refreshTimeout
    {
      UpdateContacts(changedContacts);
      changedContacts := [];
      refreshTimeout := false;
    }
  }
}
