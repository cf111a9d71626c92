/** SwSet: a reference-counted set of objects whose equality is chosen when the
    set is created.  The GHashTable of the source (object => sentinel, hashed and
    compared with the set's functions) is modelled as a map from the key that the
    set's equality compares to the member stored under that key.  A set made with
    sw_set_new compares by identity: its key function is the identity on the
    modelled value, so two snapshots of one object that differ in a field are
    two members here, where the C set would hold one. */
module SwSets {

  /** Every member is stored under its own key. */
  ghost predicate Keyed<K, T>(h: map<K, T>, key: T -> K) {
    forall k | k in h :: key(h[k]) == k
  }

  /** The keys a collection of objects occupies under a key function. */
  function KeysOf<K, T>(key: T -> K, xs: set<T>): set<K> {
    set x | x in xs :: key(x)
  }

  /** No two distinct objects of xs are equal under key. */
  ghost predicate KeyInjective<K, T>(key: T -> K, xs: set<T>) {
    forall a, b | a in xs && b in xs && key(a) == key(b) :: a == b
  }

  /** The members of a keyed table that fail pred, under their keys. */
  function Without<K, T>(h: map<K, T>, pred: T -> bool): map<K, T> {
    map k | k in h && !pred(h[k]) :: h[k]
  }

  /** The members of a keyed table that pass pred, under their keys. */
  function Only<K, T>(h: map<K, T>, pred: T -> bool): map<K, T> {
    map k | k in h && pred(h[k]) :: h[k]
  }

  /** In a keyed table, an object is found exactly when some member has its key. */
  lemma HasIffEqualMember<K, T>(h: map<K, T>, key: T -> K, x: T)
    requires Keyed(h, key)
    ensures key(x) in h <==> exists m :: m in h.Values && key(m) == key(x)
  {
    if key(x) in h {
      assert h[key(x)] in h.Values;
    }
  }

  /** sw_set_add: the added object replaces any member equal to it, the set grows
      only when there was none, and the object is found afterwards. */
  lemma {:induction false} AddReplacesEqual<K, T>(h: map<K, T>, key: T -> K, x: T)
    requires Keyed(h, key)
    ensures Keyed(h[key(x) := x], key)
    ensures x in h[key(x) := x].Values
    ensures |h[key(x) := x]| == if key(x) in h then |h| else |h| + 1
    ensures forall m | m in h.Values && key(m) != key(x) :: m in h[key(x) := x].Values
    ensures forall m | m in h[key(x) := x].Values && m != x :: m in h.Values && key(m) != key(x)
  {
    var h' := h[key(x) := x];
    assert h'[key(x)] == x;
    forall m | m in h.Values && key(m) != key(x) ensures m in h'.Values {
      assert h'[key(m)] == m;
    }
    forall m | m in h'.Values && m != x ensures m in h.Values && key(m) != key(x) {
      var k :| k in h' && h'[k] == m;
      assert k != key(x);
      assert h[k] == m;
    }
  }

  /** sw_set_remove: no member equal to the object is left. */
  lemma RemoveLeavesNoEqual<K, T>(h: map<K, T>, key: T -> K, x: T)
    requires Keyed(h, key)
    ensures Keyed(h - {key(x)}, key)
    ensures forall m | m in (h - {key(x)}).Values :: key(m) != key(x)
  {
  }

  /** A table built from a key-injective collection holds exactly that collection. */
  lemma {:induction false} MembersOfInjective<K, T>(h: map<K, T>, key: T -> K, xs: set<T>)
    requires Keyed(h, key) && KeyInjective(key, xs)
    requires h.Keys == KeysOf(key, xs)
    requires forall k | k in h :: h[k] in xs
    ensures h.Values == xs
  {
    forall x | x in xs ensures x in h.Values {
      assert key(x) in KeysOf(key, xs);
      assert h[key(x)] in xs && key(h[key(x)]) == key(x);
    }
  }

  /** A non-empty list without its last element. */
  function DropLast<T>(s: seq<T>): seq<T>
    requires |s| > 0
  {
    s[..|s| - 1]
  }

  /** Dropping the keys of the members pred accepts leaves the members it
      rejects, and shrinks the table by the number it accepts. */
  lemma RemovedAccepted<K, T>(h: map<K, T>, gone: set<K>, pred: T -> bool)
    requires gone == set k | k in h && pred(h[k])
    ensures h - gone == Without(h, pred)
    ensures |gone| == |Only(h, pred)| == |h| - |h - gone|
  {
    assert gone == Only(h, pred).Keys;
    assert (h - gone).Keys == h.Keys - gone;
    assert h.Keys == (h - gone).Keys + gone;
  }

  /** A prefix one longer is the prefix with the next element appended. */
  lemma TakeSnoc<T>(s: seq<T>, i: nat)
    requires i < |s|
    ensures s[..i + 1] == s[..i] + [s[i]]
  {
  }

  /** The objects a list holds. */
  function Elems<T>(l: seq<T>): set<T> {
    set x | x in l
  }

  /** The table of an identity set holding exactly s. */
  function IdentityTable<T>(s: set<T>): map<T, T> {
    map x | x in s :: x
  }

  lemma IdentityTableMembers<T>(s: set<T>)
    ensures IdentityTable(s).Values == s
    ensures forall k | k in IdentityTable(s) :: IdentityTable(s)[k] == k
  {
    forall x | x in s ensures x in IdentityTable(s).Values {
      assert IdentityTable(s)[x] == x;
    }
  }

  class SwSet<K(==), T(==)> {
    /** What the set's equal function compares. */
    const keyOf: T -> K
    var hash: map<K, T>
    var refCount: int

    ghost predicate Valid()
      reads this
    {
      Keyed(hash, keyOf)
    }

    function Members(): set<T>
      reads this
    {
      hash.Values
    }

    /** sw_set_new_full (sw_set_new when key is the identity). */
    constructor (key: T -> K)
      ensures Valid() && keyOf == key && hash == map[] && refCount == 1
    {
      keyOf := key;
      hash := map[];
      refCount := 1;
    }

    /** sw_set_ref: refused (no effect, reported as NULL) on a dead set. */
    method Ref() returns (ok: bool)
      modifies this`refCount
      ensures ok == (old(refCount) > 0)
      ensures refCount == if ok then old(refCount) + 1 else old(refCount)
    {
      ok := refCount > 0;
      if ok {
        refCount := refCount + 1;
      }
    }

    /** sw_set_unref: the last reference frees the table. */
    method Unref() returns (freed: bool)
      modifies this`refCount, this`hash
      ensures refCount == if old(refCount) > 0 then old(refCount) - 1 else old(refCount)
      ensures freed == (old(refCount) == 1)
      ensures hash == if freed then map[] else old(hash)
    {
      freed := false;
      if refCount > 0 {
        refCount := refCount - 1;
        if refCount == 0 {
          hash := map[];
          freed := true;
        }
      }
    }

    /** sw_set_add */
    method Add(x: T)
      requires Valid()
      modifies this`hash
      ensures Valid()
      ensures hash == old(hash)[keyOf(x) := x]
      ensures Has(x) && x in Members()
    {
      AddReplacesEqual(hash, keyOf, x);
      hash := hash[keyOf(x) := x];
    }

    /** sw_set_remove */
    method Remove(x: T)
      requires Valid()
      modifies this`hash
      ensures Valid()
      ensures hash == old(hash) - {keyOf(x)}
      ensures !Has(x)
    {
      hash := hash - {keyOf(x)};
    }

    /** sw_set_has: some member is equal to x under the set's equality. */
    predicate Has(x: T)
      reads this
    {
      keyOf(x) in hash
    }

    /** sw_set_has, read through the members. */
    method HasMember(x: T) returns (b: bool)
      requires Valid()
      ensures b <==> exists m :: m in Members() && keyOf(m) == keyOf(x)
    {
      HasIffEqualMember(hash, keyOf, x);
      b := keyOf(x) in hash;
    }

    /** sw_set_size */
    function Size(): (n: nat)
      reads this
      ensures n == |hash.Keys|
    {
      |hash|
    }

    /** sw_set_is_empty */
    function IsEmpty(): (b: bool)
      reads this
      ensures b <==> Members() == {}
      ensures b <==> Size() == 0
      ensures b <==> hash == map[]
    {
      if |hash| == 0 then true
      else
        var k :| k in hash;
        assert hash[k] in Members();
        false
    }

    /** sw_set_empty */
    method Empty()
      modifies this`hash
      ensures Valid() && hash == map[] && IsEmpty()
    {
      hash := map[];
    }

    /** sw_set_add_from: every member of from becomes a member of this set,
        replacing the member equal to it.  When two members of from are equal
        under this set's equality, either one may win: the source visits a hash
        table in no particular order. */
    method AddFrom<K2>(from: SwSet<K2, T>)
      requires Valid()
      modifies this`hash
      ensures Valid()
      ensures hash.Keys == old(hash).Keys + KeysOf(keyOf, old(from.Members()))
      ensures forall k | k in hash ::
                if k in KeysOf(keyOf, old(from.Members())) then hash[k] in old(from.Members())
                else hash[k] == old(hash)[k]
    {
      ghost var all := from.Members();
      var todo := from.Members();
      ghost var done: set<T> := {};
      while todo != {}
        invariant Valid()
        invariant todo + done == all && todo !! done
        invariant hash.Keys == old(hash).Keys + KeysOf(keyOf, done)
        invariant forall k | k in hash ::
                    if k in KeysOf(keyOf, done) then hash[k] in done else hash[k] == old(hash)[k]
        decreases todo
      {
        var x :| x in todo;
        assert KeysOf(keyOf, done + {x}) == KeysOf(keyOf, done) + {keyOf(x)};
        hash := hash[keyOf(x) := x];
        todo := todo - {x};
        done := done + {x};
      }
    }

    /** sw_set_remove_from: no member equal to a member of from is left. */
    method RemoveFrom<K2>(from: SwSet<K2, T>)
      requires Valid()
      modifies this`hash
      ensures Valid()
      ensures hash == old(hash) - KeysOf(keyOf, old(from.Members()))
    {
      ghost var all := from.Members();
      var todo := from.Members();
      ghost var done: set<T> := {};
      while todo != {}
        invariant Valid()
        invariant todo + done == all && todo !! done
        invariant hash == old(hash) - KeysOf(keyOf, done)
        decreases todo
      {
        var x :| x in todo;
        assert KeysOf(keyOf, done + {x}) == KeysOf(keyOf, done) + {keyOf(x)};
        hash := hash - {keyOf(x)};
        todo := todo - {x};
        done := done + {x};
      }
    }

    /** sw_set_union: a new identity set holding every member of both sets. */
    method Union<K2>(b: SwSet<K2, T>) returns (r: SwSet<T, T>)
      ensures fresh(r) && r.Valid() && r.refCount == 1
      ensures forall x :: r.keyOf(x) == x
      ensures r.Members() == Members() + b.Members()
    {
      ghost var all := Members() + b.Members();
      r := new SwSet(x => x);
      var todo := Members() + b.Members();
      while todo != {}
        invariant r.refCount == 1
        invariant forall x :: r.keyOf(x) == x
        invariant todo <= all
        invariant r.hash == IdentityTable(all - todo)
        decreases todo
      {
        var x :| x in todo;
        r.hash := r.hash[x := x];
        todo := todo - {x};
      }
      assert all - todo == all;
      IdentityTableMembers(all);
    }

    /** sw_set_difference: a new identity set holding the members of this set for
        which b has no member equal under b's equality. */
    method Difference<K2>(b: SwSet<K2, T>) returns (r: SwSet<T, T>)
      ensures fresh(r) && r.Valid() && r.refCount == 1
      ensures forall x :: r.keyOf(x) == x
      ensures r.Members() == set x | x in Members() && b.keyOf(x) !in b.hash
    {
      ghost var all := Members();
      ghost var bKeys := b.hash.Keys;
      r := new SwSet(x => x);
      var todo := Members();
      while todo != {}
        invariant r.refCount == 1
        invariant forall x :: r.keyOf(x) == x
        invariant todo <= all
        invariant r.hash == IdentityTable(set x | x in all - todo && b.keyOf(x) !in bKeys)
        decreases todo
      {
        var x :| x in todo;
        if b.keyOf(x) !in b.hash {
          r.hash := r.hash[x := x];
        }
        todo := todo - {x};
      }
      assert all - todo == all;
      IdentityTableMembers(set x | x in all && b.keyOf(x) !in bKeys);
    }

    /** sw_set_as_list: every member once, in no particular order. */
    method AsList() returns (l: seq<T>)
      ensures forall x :: x in l <==> x in Members()
      ensures |l| == |Members()|
      ensures forall i, j | 0 <= i < j < |l| :: l[i] != l[j]
    {
      l := [];
      var todo := Members();
      while todo != {}
        invariant forall x :: x in l <==> x in Members() - todo
        invariant todo <= Members()
        invariant forall i, j | 0 <= i < j < |l| :: l[i] != l[j]
        invariant |l| + |todo| == |Members()|
        decreases todo
      {
        var x :| x in todo;
        assert x !in l;
        l := l + [x];
        todo := todo - {x};
      }
    }

    /** sw_set_foreach_remove: removes exactly the members pred accepts and
        returns how many it removed. */
    method ForeachRemove(pred: T -> bool) returns (n: nat)
      requires Valid()
      modifies this`hash
      ensures Valid()
      ensures hash == Without(old(hash), pred)
      ensures n == |old(hash)| - |hash|
      ensures n == |Only(old(hash), pred)|
    {
      var keys := hash.Keys;
      n := 0;
      ghost var gone: set<K> := {};
      while keys != {}
        invariant keys <= old(hash).Keys
        invariant gone <= old(hash).Keys - keys
        invariant hash == old(hash) - gone
        invariant gone == (set k | k in old(hash) && k !in keys && pred(old(hash)[k]))
        invariant n == |gone|
        decreases keys
      {
        var k :| k in keys;
        if pred(hash[k]) {
          hash := hash - {k};
          gone := gone + {k};
          n := n + 1;
        }
        keys := keys - {k};
      }
      RemovedAccepted(old(hash), gone, pred);
    }

    /** sw_set_filter: a new set with this set's equality holding exactly the
        members pred accepts. */
    method Filter(pred: T -> bool) returns (r: SwSet<K, T>)
      requires Valid()
      ensures fresh(r) && r.Valid() && r.refCount == 1 && r.keyOf == keyOf
      ensures r.hash == Only(hash, pred)
    {
      r := new SwSet(keyOf);
      var keys := hash.Keys;
      while keys != {}
        invariant r.Valid() && r.refCount == 1 && r.keyOf == keyOf
        invariant keys <= hash.Keys
        invariant r.hash == map k | k in hash && k !in keys && pred(hash[k]) :: hash[k]
        decreases keys
      {
        var k :| k in keys;
        if pred(hash[k]) {
          r.hash := r.hash[keyOf(hash[k]) := hash[k]];
        }
        keys := keys - {k};
      }
    }
  }

  /** sw_set_from_list: a new identity set of the list's objects. */
  method FromList<T>(l: seq<T>) returns (r: SwSet<T, T>)
    ensures fresh(r) && r.Valid() && r.refCount == 1
    ensures forall x :: r.keyOf(x) == x
    ensures r.Members() == Elems(l)
  {
    r := new SwSet(x => x);
    var i := 0;
    while i < |l|
      invariant 0 <= i <= |l|
      invariant r.refCount == 1
      invariant forall x :: r.keyOf(x) == x
      invariant r.hash == IdentityTable(Elems(l[..i]))
    {
      assert Elems(l[..i + 1]) == Elems(l[..i]) + {l[i]} by {
        TakeSnoc(l, i);
      }
      r.hash := r.hash[l[i] := l[i]];
      i := i + 1;
    }
    assert l[..i] == l;
    IdentityTableMembers(Elems(l));
  }
}
