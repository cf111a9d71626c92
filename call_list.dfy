/** SwCallList (and its older twin MojitoCallList): the list of REST calls a
    service has in flight.  Each listed call carries a weak reference back to the
    list, so a call that is destroyed while listed takes itself off the list.  The
    weak references the list has registered are kept as a multiset beside the
    list itself. */
module CallLists {
  import opened GLists

  /** A RestProxyCall; all the list ever does to one is cancel it. */
  class ProxyCall {
    var cancelled: bool

    constructor ()
      ensures !cancelled
    {
      cancelled := false;
    }

    /** rest_proxy_call_cancel */
    method Cancel()
      modifies this
      ensures cancelled
    {
      cancelled := true;
    }
  }

  class CallList {
    /** The GList field l, head first. */
    var l: seq<ProxyCall>
    /** The weak references this list holds on calls, one per registration. */
    var weakRefs: multiset<ProxyCall>

    /** Every listed call is watched once per link, and nothing else is. */
    ghost predicate Valid()
      reads this
    {
      weakRefs == multiset(l)
    }

    /** sw_call_list_is_empty */
    predicate IsEmpty()
      reads this
    {
      l == []
    }

    /** sw_call_list_new: a new list is empty. */
    constructor ()
      ensures Valid() && IsEmpty() && weakRefs == multiset{}
    {
      l := [];
      weakRefs := multiset{};
    }

    /** sw_call_list_add: the call is watched and put at the head, so the list
        is no longer empty. */
    method Add(call: ProxyCall)
      requires Valid()
      modifies this
      ensures Valid()
      ensures l == [call] + old(l)
      ensures !IsEmpty() && call in l
    {
      weakRefs := weakRefs + multiset{call};
      l := [call] + l;
    }

    /** sw_call_list_remove: the call is no longer watched and exactly one link
        holding it is dropped; every other call stays, in order. */
    method Remove(call: ProxyCall)
      requires Valid()
      modifies this
      ensures Valid()
      ensures l == RemoveFirst(old(l), call)
      ensures multiset(l) == multiset(old(l)) - multiset{call}
      ensures Without(l, call) == Without(old(l), call)
    {
      RemoveFirstMultiset(l, call);
      RemoveFirstKeepsOthers(l, call);
      weakRefs := weakRefs - multiset{call};
      l := RemoveFirst(l, call);
    }

    /** call_weak_notify: a destroyed call runs the notify once per weak
        reference the list holds on it, and each run drops one link; afterwards
        the call is gone from the list and the other calls keep their order. */
    method CallDestroyed(call: ProxyCall)
      requires Valid()
      modifies this
      ensures Valid()
      ensures l == Without(old(l), call)
      ensures call !in l
    {
      var runs := weakRefs[call];
      weakRefs := weakRefs[call := 0];
      var k := 0;
      while k < runs
        invariant 0 <= k <= runs
        invariant multiset(l)[call] == runs - k
        invariant weakRefs == multiset(l)[call := 0]
        invariant Without(l, call) == Without(old(l), call)
      {
        RemoveFirstMultiset(l, call);
        RemoveFirstKeepsOthers(l, call);
        l := RemoveFirst(l, call);
        k := k + 1;
      }
      WithoutAbsent(l, call);
    }

    /** sw_call_list_cancel_all: drains the list from the head, cancelling each
        call and dropping its weak reference; the list ends empty and every call
        it held is cancelled. */
    method CancelAll()
      requires Valid()
      modifies this, set c | c in l
      ensures Valid() && IsEmpty()
      ensures forall c | c in old(l) :: c.cancelled
    {
      ghost var all := l;
      ghost var i := 0;
      while l != []
        invariant Valid()
        invariant 0 <= i <= |all| && l == all[i..]
        invariant forall c | c in all[..i] :: c.cancelled
        decreases |l|
      {
        var call := l[0];
        call.Cancel();
        assert l == [call] + l[1..];
        assert multiset(l) == multiset{call} + multiset(l[1..]);
        weakRefs := weakRefs - multiset{call};
        assert all[..i + 1] == all[..i] + [call];
        l := l[1..];
        i := i + 1;
      }
      assert all[..i] == all;
    }

    /** sw_call_list_free: every call is cancelled before the list goes away. */
    method Free()
      requires Valid()
      modifies this, set c | c in l
      ensures IsEmpty() && weakRefs == multiset{}
      ensures forall c | c in old(l) :: c.cancelled
    {
      CancelAll();
    }
  }
}
