/** The per-sender object registry of the daemon (client-monitor.c in both the
    libsocialweb and the older mojito daemon, which differ only in whether the
    entry is dropped before or after its objects are released).  A view or
    service object handed to a D-Bus client is tracked under the client's bus
    name; when that name vanishes from the bus, every object tracked for it loses
    the reference the client held. */
module ClientMonitors {
  import opened GLists

  /** A tracked GObject; the registry only ever drops references to it. */
  class TrackedObject {
    var refCount: int

    constructor ()
      ensures refCount == 1
    {
      refCount := 1;
    }
  }

  /** How many links of a list hold o. */
  function CountIn(s: seq<TrackedObject>, o: TrackedObject): nat
  {
    multiset(s)[o]
  }

  class ClientMonitor {
    /** The clients hash: sender address to the list of objects, head first. */
    var clients: map<string, seq<TrackedObject>>

    /** client_monitor_init: no sender is tracked. */
    constructor ()
      ensures clients == map[]
    {
      clients := map[];
    }

    /** g_hash_table_lookup, with a missing sender read as the empty list. */
    function Lookup(sender: string): (l: seq<TrackedObject>)
      reads this
      ensures sender !in clients ==> l == []
    {
      if sender in clients then clients[sender] else []
    }

    /** client_monitor_add: the object is put at the head of the sender's list;
        no other sender's list changes. */
    method Add(sender: string, obj: TrackedObject)
      modifies this
      ensures clients == old(clients)[sender := [obj] + old(Lookup(sender))]
      ensures obj in Lookup(sender)
    {
      var list := Lookup(sender);
      clients := clients[sender := [obj] + list];
    }

    /** client_monitor_remove: the first link holding the object is dropped
        from the sender's list, and the object keeps its references.  The list
        is stored back even when the sender was unknown, which leaves an empty
        entry for it. */
    method Remove(sender: string, obj: TrackedObject)
      modifies this
      ensures clients == old(clients)[sender := RemoveFirst(old(Lookup(sender)), obj)]
      ensures multiset(Lookup(sender)) == multiset(old(Lookup(sender))) - multiset{obj}
    {
      var list := Lookup(sender);
      RemoveFirstMultiset(list, obj);
      clients := clients[sender := RemoveFirst(list, obj)];
    }

    /** name_owner_changed: only a disconnect (an empty new owner for a name
        that was its own owner) acts; it drops the sender's entry and releases
        one reference per link of its list.  Any other change leaves everything
        as it was. */
    method NameOwnerChanged(name: string, prevOwner: string, newOwner: string)
      modifies this, set o | o in Lookup(prevOwner)
      ensures newOwner == "" && name == prevOwner ==>
                clients == old(clients) - {prevOwner} &&
                forall o | o in old(Lookup(prevOwner)) ::
                  o.refCount == old(o.refCount) - CountIn(old(Lookup(prevOwner)), o)
      ensures !(newOwner == "" && name == prevOwner) ==> clients == old(clients)
    {
      if newOwner == "" && name == prevOwner {
        var list := Lookup(prevOwner);
        clients := clients - {prevOwner};
        var i := 0;
        while i < |list|
          invariant 0 <= i <= |list|
          invariant clients == old(clients) - {prevOwner}
          invariant forall o | o in list :: o.refCount == old(o.refCount) - CountIn(list[..i], o)
        {
          assert list[..i + 1] == list[..i] + [list[i]];
          list[i].refCount := list[i].refCount - 1;
          i := i + 1;
        }
        assert list[..i] == list;
      }
    }
  }

  /** Adding an object for a sender and then removing it restores the sender's
      list. */
  lemma AddThenRemove(l: seq<TrackedObject>, obj: TrackedObject)
    ensures RemoveFirst([obj] + l, obj) == l
  {
    assert ([obj] + l)[1..] == l;
  }
}
