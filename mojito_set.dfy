/** MojitoSet, the older set of the mojito daemon: a reference-counted hash
    table of items.  Unlike SwSet, adding an item equal to a member keeps the
    member already there (g_hash_table_insert keeps the existing key), and a
    NULL item is refused. */
module MojitoSets {
  import opened Wrappers
  import SwSets

  class MojitoSet<K(==), T(==)> {
    const keyOf: T -> K
    var hash: map<K, T>
    var refCount: int

    ghost predicate Valid()
      reads this
    {
      SwSets.Keyed(hash, keyOf)
    }

    function Members(): set<T>
      reads this
    {
      hash.Values
    }

    /** mojito_set_new */
    constructor (key: T -> K)
      ensures Valid() && keyOf == key && hash == map[] && refCount == 1
    {
      keyOf := key;
      hash := map[];
      refCount := 1;
    }

    /** mojito_set_ref */
    method Ref() returns (ok: bool)
      modifies this`refCount
      ensures ok == (old(refCount) > 0)
      ensures refCount == if ok then old(refCount) + 1 else old(refCount)
    {
      ok := refCount > 0;
      if ok {
        refCount := refCount + 1;
      }
    }

    /** mojito_set_unref: the last reference frees the table. */
    method Unref() returns (freed: bool)
      modifies this`refCount, this`hash
      ensures refCount == if old(refCount) > 0 then old(refCount) - 1 else old(refCount)
      ensures freed == (old(refCount) == 1)
      ensures hash == if freed then map[] else old(hash)
    {
      freed := false;
      if refCount > 0 {
        refCount := refCount - 1;
        if refCount == 0 {
          hash := map[];
          freed := true;
        }
      }
    }

    /** mojito_set_add: NULL is refused; an item equal to a member leaves the
        member in place, so the size does not change. */
    method Add(item: Option<T>)
      requires Valid()
      modifies this`hash
      ensures Valid()
      ensures item.None? ==> hash == old(hash)
      ensures item.Some? && keyOf(item.value) in old(hash) ==> hash == old(hash)
      ensures item.Some? && keyOf(item.value) !in old(hash) ==>
                hash == old(hash)[keyOf(item.value) := item.value]
      ensures item.Some? ==> Has(item.value)
    {
      if item.Some? && keyOf(item.value) !in hash {
        hash := hash[keyOf(item.value) := item.value];
      }
    }

    /** mojito_set_remove: NULL is refused. */
    method Remove(item: Option<T>)
      requires Valid()
      modifies this`hash
      ensures Valid()
      ensures hash == if item.Some? then old(hash) - {keyOf(item.value)} else old(hash)
      ensures item.Some? ==> !Has(item.value)
    {
      if item.Some? {
        hash := hash - {keyOf(item.value)};
      }
    }

    /** mojito_set_has */
    predicate Has(x: T)
      reads this
    {
      keyOf(x) in hash
    }

    /** mojito_set_is_empty */
    function IsEmpty(): (b: bool)
      reads this
      ensures b <==> Members() == {}
      ensures b <==> |hash| == 0
    {
      if |hash| == 0 then true
      else
        var k :| k in hash;
        assert hash[k] in Members();
        false
    }

    /** mojito_set_empty */
    method Empty()
      modifies this`hash
      ensures Valid() && hash == map[] && IsEmpty()
    {
      hash := map[];
    }
  }
}
