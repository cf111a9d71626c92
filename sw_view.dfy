/** SwView: the aggregated view a client opens over several services.  It keeps
    every item the services last reported in one id-keyed set (all_items) and,
    when it recalculates, publishes through its SwItemView part a selection of
    at most `count` items: the ready, non-banned items newest first, taking at
    most ceil(count / number of services) from each service in a first pass and
    filling the rest from what that pass skipped.  It asks its services to
    refresh on a five-minute timeout that exists only while the network is
    online.  Calls on the services, the cache and the main loop are recorded in
    an append-only log; the services' "refreshed" signal and the timeout firing
    are explicit method calls. */
module SwViews {
  import opened Wrappers
  import opened SwSets
  import opened SwItems
  import opened SwItemViews

  /** REFRESH_TIMEOUT, in seconds. */
  const RefreshTimeout: nat := 5 * 60

  /** The date an item is ordered by (the cached "date", parsed once). */
  function Date(x: Item, parseDate: string -> int): int {
    CachedDate(x, parseDate)
  }

  /** Newest first: no item is older than one after it. */
  predicate NewestFirst(l: seq<Item>, parseDate: string -> int) {
    forall i, j | 0 <= i < j < |l| :: Date(l[i], parseDate) >= Date(l[j], parseDate)
  }

  predicate NoDuplicates(l: seq<Item>) {
    forall i, j | 0 <= i < j < |l| :: l[i] != l[j]
  }

  /** x inserted before the first item that is not newer than it. */
  function InsertNewest(x: Item, l: seq<Item>, parseDate: string -> int): seq<Item>
    decreases |l|
  {
    if l == [] || Date(x, parseDate) >= Date(l[0], parseDate) then [x] + l
    else [l[0]] + InsertNewest(x, l[1..], parseDate)
  }

  /** g_list_sort with sw_item_compare_date_newer, stated as a sort on the date. */
  function SortNewest(l: seq<Item>, parseDate: string -> int): seq<Item> {
    if l == [] then [] else InsertNewest(l[0], SortNewest(l[1..], parseDate), parseDate)
  }

  lemma {:induction false} InsertNewestSpec(x: Item, l: seq<Item>, parseDate: string -> int)
    requires NewestFirst(l, parseDate)
    ensures NewestFirst(InsertNewest(x, l, parseDate), parseDate)
    ensures multiset(InsertNewest(x, l, parseDate)) == multiset(l) + multiset{x}
    decreases |l|
  {
    if l != [] && Date(x, parseDate) < Date(l[0], parseDate) {
      var tail := l[1..];
      assert l == [l[0]] + tail;
      InsertNewestSpec(x, tail, parseDate);
      forall j | 0 <= j < |tail| ensures Date(l[0], parseDate) >= Date(tail[j], parseDate) {
        assert tail[j] == l[j + 1];
      }
      HeadNewest(l[0], x, tail, InsertNewest(x, tail, parseDate), parseDate);
    }
  }

  /** A head no older than x and than every item of tail is no older than any
      item of a list holding x and tail's items. */
  lemma HeadNewest(h: Item, x: Item, tail: seq<Item>, r: seq<Item>, parseDate: string -> int)
    requires multiset(r) == multiset(tail) + multiset{x}
    requires Date(h, parseDate) >= Date(x, parseDate)
    requires forall j | 0 <= j < |tail| :: Date(h, parseDate) >= Date(tail[j], parseDate)
    requires NewestFirst(r, parseDate)
    ensures NewestFirst([h] + r, parseDate)
  {
    forall j | 0 <= j < |r| ensures Date(h, parseDate) >= Date(r[j], parseDate) {
      assert r[j] in multiset(r);
      if r[j] != x {
        assert r[j] in multiset(tail);
      }
    }
  }

  /** The sorted list is newest first and holds the same items. */
  lemma {:induction false} SortNewestSpec(l: seq<Item>, parseDate: string -> int)
    ensures NewestFirst(SortNewest(l, parseDate), parseDate)
    ensures multiset(SortNewest(l, parseDate)) == multiset(l)
  {
    if l != [] {
      SortNewestSpec(l[1..], parseDate);
      InsertNewestSpec(l[0], SortNewest(l[1..], parseDate), parseDate);
      assert l == [l[0]] + l[1..];
    }
  }

  /** An item munge_items may select: not banned by the core, and ready. */
  predicate Eligible(x: Item, banned: set<string>) {
    ItemId(x) !in banned && x.Ready()
  }

  /** get_service_count: how many items of a service the table says were taken. */
  function Taken(counts: map<string, nat>, service: string): nat {
    if service in counts then counts[service] else 0
  }

  /** The per-service count table after inc_service_count for each item of l. */
  function Counts(l: seq<Item>): map<string, nat> {
    if l == [] then map[]
    else
      var x := l[|l| - 1];
      var c := Counts(DropLast(l));
      c[x.service := Taken(c, x.service) + 1]
  }

  /** How many items of l belong to the service. */
  function CountOf(l: seq<Item>, service: string): nat {
    Taken(Counts(l), service)
  }

  lemma CountsSnoc(l: seq<Item>, x: Item)
    ensures Counts(l + [x]) == Counts(l)[x.service := Taken(Counts(l), x.service) + 1]
    ensures forall s :: CountOf(l + [x], s) == CountOf(l, s) + (if s == x.service then 1 else 0)
  {
    assert DropLast(l + [x]) == l;
  }

  /** ceil (count / n) for n services; with no service there is nothing to
      share out and the quota is 0. */
  function ServiceMax(count: nat, n: nat): (q: nat)
    ensures n > 0 ==> q * n >= count && (q == 0 || (q - 1) * n < count)
  {
    if n == 0 then 0
    else
      var q := (count + n - 1) / n;
      assert q * n >= count && (q == 0 || (q - 1) * n < count) by {
        CeilingDivision(count, n);
      }
      q
  }

  lemma CeilingDivision(count: nat, n: nat)
    requires n > 0
    ensures ((count + n - 1) / n) * n >= count
    ensures (count + n - 1) / n == 0 || ((count + n - 1) / n - 1) * n < count
  {
    var q := (count + n - 1) / n;
    var r := (count + n - 1) % n;
    assert count + n - 1 == q * n + r;
  }

  /** The state of the first pass of munge_items: the items taken so far, the
      links still in the list, and the link the cursor is on (|rest| when the
      cursor is NULL). */
  datatype Pass = Pass(taken: seq<Item>, rest: seq<Item>, cursor: nat)

  /** The first pass, step by step: stop when the cursor is NULL or count items
      were taken; an item whose service has had its quota is skipped, and at the
      last link the pass stops on it; any other item is taken, its link is
      deleted and the cursor moves to the next link. */
  function FirstPass(p: Pass, count: nat, quota: nat): (r: Pass)
    requires p.cursor <= |p.rest|
    ensures r.cursor <= |r.rest|
    decreases |p.rest| + (|p.rest| - p.cursor)
  {
    if p.cursor == |p.rest| || |p.taken| >= count then p
    else
      var x := p.rest[p.cursor];
      if CountOf(p.taken, x.service) >= quota then
        if p.cursor + 1 < |p.rest| then FirstPass(p.(cursor := p.cursor + 1), count, quota)
        else p
      else FirstPass(Pass(p.taken + [x], p.rest[..p.cursor] + p.rest[p.cursor + 1..], p.cursor), count, quota)
  }

  function Min(a: int, b: int): int {
    if a <= b then a else b
  }

  /** munge_items as written: after the first pass g_list_first rewinds the
      cursor, but a NULL cursor (the pass took the last link) rewinds to
      nothing, so the links it skipped are not used to fill up. */
  function MungeWritten(sorted: seq<Item>, count: nat, quota: nat): seq<Item> {
    var p := FirstPass(Pass([], sorted, 0), count, quota);
    var pool := if p.cursor < |p.rest| then p.rest else [];
    if |p.taken| >= count then p.taken else p.taken + pool[..Min(count - |p.taken|, |pool|)]
  }

  /** munge_items as intended: every link the first pass left is used to fill
      up, newest first. */
  function MungeIntended(sorted: seq<Item>, count: nat, quota: nat): seq<Item> {
    var p := FirstPass(Pass([], sorted, 0), count, quota);
    if |p.taken| >= count then p.taken else p.taken + p.rest[..Min(count - |p.taken|, |p.rest|)]
  }

  /** The first pass only moves items from the list to the taken ones, never
      takes more than count, and keeps the cursor on the list. */
  lemma {:induction false} FirstPassParts(p: Pass, count: nat, quota: nat)
    requires p.cursor <= |p.rest| && |p.taken| <= count
    ensures var r := FirstPass(p, count, quota);
              r.cursor <= |r.rest| && |r.taken| <= count
              && multiset(r.taken) + multiset(r.rest) == multiset(p.taken) + multiset(p.rest)
    decreases |p.rest| + (|p.rest| - p.cursor)
  {
    if p.cursor == |p.rest| || |p.taken| >= count {
    } else {
      var x := p.rest[p.cursor];
      if CountOf(p.taken, x.service) >= quota {
        if p.cursor + 1 < |p.rest| {
          FirstPassParts(p.(cursor := p.cursor + 1), count, quota);
        }
      } else {
        var rest' := p.rest[..p.cursor] + p.rest[p.cursor + 1..];
        assert p.rest == p.rest[..p.cursor] + [x] + p.rest[p.cursor + 1..];
        FirstPassParts(Pass(p.taken + [x], rest', p.cursor), count, quota);
      }
    }
  }

  /** In the first pass no service contributes more than its quota. */
  lemma {:induction false} FirstPassQuota(p: Pass, count: nat, quota: nat)
    requires p.cursor <= |p.rest|
    requires forall s :: CountOf(p.taken, s) <= quota
    ensures forall s :: CountOf(FirstPass(p, count, quota).taken, s) <= quota
    decreases |p.rest| + (|p.rest| - p.cursor)
  {
    if p.cursor == |p.rest| || |p.taken| >= count {
    } else {
      var x := p.rest[p.cursor];
      if CountOf(p.taken, x.service) >= quota {
        if p.cursor + 1 < |p.rest| {
          FirstPassQuota(p.(cursor := p.cursor + 1), count, quota);
        }
      } else {
        CountsSnoc(p.taken, x);
        FirstPassQuota(Pass(p.taken + [x], p.rest[..p.cursor] + p.rest[p.cursor + 1..], p.cursor), count, quota);
      }
    }
  }

  /** Every item left behind the cursor belongs to a service that has had its
      quota. */
  predicate SkippedAtQuota(p: Pass, quota: nat)
    requires p.cursor <= |p.rest|
  {
    forall i | 0 <= i < p.cursor :: CountOf(p.taken, p.rest[i].service) >= quota
  }

  /** The first pass skips an item only when its service has had its quota. */
  lemma {:induction false} FirstPassSkips(p: Pass, count: nat, quota: nat)
    requires p.cursor <= |p.rest| && SkippedAtQuota(p, quota)
    ensures SkippedAtQuota(FirstPass(p, count, quota), quota)
    decreases |p.rest| + (|p.rest| - p.cursor)
  {
    if p.cursor == |p.rest| || |p.taken| >= count {
    } else {
      var x := p.rest[p.cursor];
      if CountOf(p.taken, x.service) >= quota {
        if p.cursor + 1 < |p.rest| {
          FirstPassSkips(p.(cursor := p.cursor + 1), count, quota);
        }
      } else {
        CountsSnoc(p.taken, x);
        var q := Pass(p.taken + [x], p.rest[..p.cursor] + p.rest[p.cursor + 1..], p.cursor);
        forall i | 0 <= i < q.cursor ensures CountOf(q.taken, q.rest[i].service) >= quota {
          assert q.rest[i] == p.rest[i];
        }
        FirstPassSkips(q, count, quota);
      }
    }
  }

  /** The taken items are newest first, and none is older than an item the
      cursor has still to visit. */
  ghost predicate InDateOrder(p: Pass, parseDate: string -> int)
    requires p.cursor <= |p.rest|
  {
    NewestFirst(p.taken, parseDate) && NewestFirst(p.rest[p.cursor..], parseDate)
    && forall i, j | 0 <= i < |p.taken| && p.cursor <= j < |p.rest| ::
         Date(p.taken[i], parseDate) >= Date(p.rest[j], parseDate)
  }

  /** The first pass visits the list in order, so on a newest-first list it
      takes items newest first. */
  lemma {:induction false} FirstPassNewestFirst(p: Pass, count: nat, quota: nat, parseDate: string -> int)
    requires p.cursor <= |p.rest| && InDateOrder(p, parseDate)
    ensures NewestFirst(FirstPass(p, count, quota).taken, parseDate)
    decreases |p.rest| + (|p.rest| - p.cursor)
  {
    if p.cursor == |p.rest| || |p.taken| >= count {
    } else {
      var x := p.rest[p.cursor];
      if CountOf(p.taken, x.service) >= quota {
        if p.cursor + 1 < |p.rest| {
          var q := p.(cursor := p.cursor + 1);
          assert q.rest[q.cursor..] == p.rest[p.cursor..][1..];
          FirstPassNewestFirst(q, count, quota, parseDate);
        }
      } else {
        var q := Pass(p.taken + [x], p.rest[..p.cursor] + p.rest[p.cursor + 1..], p.cursor);
        assert q.rest[q.cursor..] == p.rest[p.cursor + 1..];
        assert InDateOrder(q, parseDate) by {
          forall i, j | 0 <= i < |q.taken| && q.cursor <= j < |q.rest|
            ensures Date(q.taken[i], parseDate) >= Date(q.rest[j], parseDate)
          {
            assert q.rest[j] == p.rest[j + 1];
            assert Date(x, parseDate) >= Date(p.rest[j + 1], parseDate) by {
              assert p.rest[p.cursor..][0] == x;
              assert p.rest[p.cursor..][j + 1 - p.cursor] == p.rest[j + 1];
            }
          }
        }
        FirstPassNewestFirst(q, count, quota, parseDate);
      }
    }
  }

  /** The first pass of munge_items on a newest-first list: it takes items newest
      first, no service beyond its quota, skips an item only when its service
      has had its quota, and takes at most count items of the list. */
  lemma FirstPassSpec(sorted: seq<Item>, count: nat, quota: nat, parseDate: string -> int)
    requires NewestFirst(sorted, parseDate)
    ensures var r := FirstPass(Pass([], sorted, 0), count, quota);
              NewestFirst(r.taken, parseDate)
              && (forall s :: CountOf(r.taken, s) <= quota)
              && SkippedAtQuota(r, quota)
              && |r.taken| <= count && r.cursor <= |r.rest|
              && multiset(r.taken) + multiset(r.rest) == multiset(sorted)
  {
    var p := Pass([], sorted, 0);
    assert sorted[0..] == sorted;
    FirstPassParts(p, count, quota);
    FirstPassQuota(p, count, quota);
    FirstPassSkips(p, count, quota);
    FirstPassNewestFirst(p, count, quota, parseDate);
  }

  /** The intended selection has min(count, eligible) items, all of them from
      the list; the first-pass items come first. */
  lemma MungeIntendedSpec(sorted: seq<Item>, count: nat, quota: nat)
    ensures |MungeIntended(sorted, count, quota)| == Min(count, |sorted|)
    ensures multiset(MungeIntended(sorted, count, quota)) <= multiset(sorted)
    ensures FirstPass(Pass([], sorted, 0), count, quota).taken <= MungeIntended(sorted, count, quota)
  {
    var p := Pass([], sorted, 0);
    FirstPassParts(p, count, quota);
    var r := FirstPass(p, count, quota);
    assert |multiset(r.taken)| + |multiset(r.rest)| == |sorted| by {
      assert |multiset(r.taken) + multiset(r.rest)| == |multiset(sorted)|;
    }
    if |r.taken| < count {
      var fill := r.rest[..Min(count - |r.taken|, |r.rest|)];
      assert r.rest == fill + r.rest[|fill|..];
      assert MungeIntended(sorted, count, quota) == r.taken + fill;
      SubMultiset(r.taken, fill, r.rest[|fill|..]);
    } else {
      SubMultiset(r.taken, [], r.rest);
      assert multiset(r.taken) <= multiset(sorted);
    }
  }

  /** The selection as written never exceeds count and only holds items of the
      list. */
  lemma MungeWrittenSpec(sorted: seq<Item>, count: nat, quota: nat)
    ensures |MungeWritten(sorted, count, quota)| <= Min(count, |sorted|)
    ensures multiset(MungeWritten(sorted, count, quota)) <= multiset(sorted)
  {
    var p := Pass([], sorted, 0);
    FirstPassParts(p, count, quota);
    var r := FirstPass(p, count, quota);
    assert |multiset(r.taken)| + |multiset(r.rest)| == |sorted| by {
      assert |multiset(r.taken) + multiset(r.rest)| == |multiset(sorted)|;
    }
    if |r.taken| < count && r.cursor < |r.rest| {
      var fill := r.rest[..Min(count - |r.taken|, |r.rest|)];
      assert r.rest == fill + r.rest[|fill|..];
      assert multiset(r.rest) == multiset(fill) + multiset(r.rest[|fill|..]);
      assert MungeWritten(sorted, count, quota) == r.taken + fill;
      SubMultiset(r.taken, fill, r.rest[|fill|..]);
    } else {
      assert MungeWritten(sorted, count, quota) == r.taken;
      SubMultiset(r.taken, [], r.rest);
      assert multiset(r.taken) <= multiset(sorted);
    }
  }

  lemma SubMultiset(a: seq<Item>, b: seq<Item>, c: seq<Item>)
    ensures multiset(a + b) <= multiset(a) + multiset(b + c)
    ensures multiset(a) <= multiset(a) + multiset(c)
  {
    assert multiset(a + b) == multiset(a) + multiset(b);
    assert multiset(b + c) == multiset(b) + multiset(c);
  }

  /** The first pass over two items of service a and one of service b, with
      a quota of one per service: a1 is taken, a2 skipped, b1 taken from the
      last link, which leaves the cursor NULL. */
  lemma ExampleFirstPass(a1: Item, a2: Item, b1: Item)
    requires a1.service == "a" && a2.service == "a" && b1.service == "b"
    ensures FirstPass(Pass([], [a1, a2, b1], 0), 3, 1) == Pass([a1, b1], [a2], 1)
  {
    var l := [a1, a2, b1];
    CountsSnoc([], a1);
    assert [] + [a1] == [a1];
    assert l[..0] + l[1..] == [a2, b1];
    var p1 := Pass([a1], [a2, b1], 0);
    assert FirstPass(Pass([], l, 0), 3, 1) == FirstPass(p1, 3, 1);
    ExampleSecondStep(a1, a2, b1);
  }

  lemma ExampleSecondStep(a1: Item, a2: Item, b1: Item)
    requires a1.service == "a" && a2.service == "a" && b1.service == "b"
    ensures FirstPass(Pass([a1], [a2, b1], 0), 3, 1) == Pass([a1, b1], [a2], 1)
  {
    CountsSnoc([], a1);
    assert [] + [a1] == [a1];
    assert CountOf([a1], "a") == 1;
    assert FirstPass(Pass([a1], [a2, b1], 0), 3, 1) == FirstPass(Pass([a1], [a2, b1], 1), 3, 1);
    assert CountOf([a1], "b") == 0;
    assert [a2, b1][..1] + [a2, b1][2..] == [a2];
    assert FirstPass(Pass([a1], [a2, b1], 1), 3, 1) == FirstPass(Pass([a1, b1], [a2], 1), 3, 1);
  }

  /** Three services, count 3 (quota 1) and three ready items, the two newest
      from service "a": the first pass takes a1, skips a2 and takes b1, the
      last link, which leaves the cursor NULL.  As written a2 is lost and the
      view shows two items; as intended it shows all three. */
  lemma MungeWrittenLosesSkipped()
    ensures var a1 := Item(1, "a", map[], 0, 30);
            var a2 := Item(2, "a", map[], 0, 20);
            var b1 := Item(3, "b", map[], 0, 10);
            ServiceMax(3, 3) == 1
            && MungeWritten([a1, a2, b1], 3, 1) == [a1, b1]
            && MungeIntended([a1, a2, b1], 3, 1) == [a1, b1, a2]
  {
    var a1 := Item(1, "a", map[], 0, 30);
    var a2 := Item(2, "a", map[], 0, 20);
    var b1 := Item(3, "b", map[], 0, 10);
    ExampleFirstPass(a1, a2, b1);
  }

  /** The ready, non-banned members of an item set: munge_items' first loop over
      sw_set_as_list, prepending each one it keeps. */
  method Candidates(all: SwSet<string, Item>, banned: set<string>) returns (l: seq<Item>)
    requires all.Valid()
    ensures forall x :: x in l <==> x in all.Members() && Eligible(x, banned)
    ensures NoDuplicates(l)
  {
    var list := all.AsList();
    l := [];
    var i := 0;
    while i < |list|
      invariant 0 <= i <= |list|
      invariant forall x :: x in l <==> x in list[..i] && Eligible(x, banned)
      invariant NoDuplicates(l)
    {
      var x := list[i];
      TakeSnoc(list, i);
      if Eligible(x, banned) {
        assert x !in l by {
          forall j | 0 <= j < i ensures list[j] != x {
          }
        }
        l := [x] + l;
      }
      i := i + 1;
    }
    assert list[..i] == list;
  }

  /** munge_items: the candidates sorted newest first, a first pass honouring
      the per-service quota, then the rewind that fills up from the links the
      first pass left, from the head of the list.  The rewind keeps the head of
      the list, as the code evidently intends; MungeWritten is the code as
      written.  Returns the new id-keyed set, the sorted candidates and the
      selection in the order it was added. */
  method MungeItems(all: SwSet<string, Item>, banned: set<string>, count: nat, services: nat,
                    parseDate: string -> int)
    returns (r: SwSet<string, Item>, sorted: seq<Item>, picked: seq<Item>)
    requires all.Valid()
    ensures fresh(r) && r.Valid() && r.keyOf == ItemId && r.refCount == 1
    ensures forall x :: x in sorted <==> x in all.Members() && Eligible(x, banned)
    ensures NoDuplicates(sorted) && NewestFirst(sorted, parseDate)
    ensures picked == MungeIntended(sorted, count, ServiceMax(count, services))
    ensures r.hash == AddAll(map[], picked)
  {
    var l := Candidates(all, banned);
    sorted := SortNewest(l, parseDate);
    SortNewestSpec(l, parseDate);
    SortedKeepsItems(l, sorted);
    var quota := ServiceMax(count, services);
    r := new SwSet(ItemId);
    var taken, rest, cursor := TakeFirstPass(r, sorted, count, quota);
    FirstPassParts(Pass([], sorted, 0), count, quota);
    picked := FillUp(r, taken, rest, count);
  }

  /** The first loop over the sorted list: items are added to the new set r
      while their service is under its quota. */
  method TakeFirstPass(r: SwSet<string, Item>, sorted: seq<Item>, count: nat, quota: nat)
    returns (taken: seq<Item>, rest: seq<Item>, cursor: nat)
    requires r.Valid() && r.keyOf == ItemId && r.hash == map[]
    modifies r`hash
    ensures r.Valid() && r.hash == AddAll(map[], taken)
    ensures Pass(taken, rest, cursor) == FirstPass(Pass([], sorted, 0), count, quota)
  {
    var counts: map<string, nat> := map[];
    var n := 0;
    taken := [];
    rest := sorted;
    cursor := 0;
    while cursor < |rest| && n < count
      invariant cursor <= |rest| && n == |taken|
      invariant counts == Counts(taken)
      invariant r.Valid() && r.hash == AddAll(map[], taken)
      invariant FirstPass(Pass(taken, rest, cursor), count, quota) == FirstPass(Pass([], sorted, 0), count, quota)
      decreases |rest| + (|rest| - cursor)
    {
      var x := rest[cursor];
      if Taken(counts, x.service) < quota {
        n := n + 1;
        taken, rest, counts := TakeAt(r, taken, rest, cursor, counts, count, quota);
      } else if cursor + 1 < |rest| {
        PassSkips(Pass(taken, rest, cursor), count, quota);
        cursor := cursor + 1;
      } else {
        PassStops(Pass(taken, rest, cursor), count, quota);
        break;
      }
    }
  }

  /** The first pass takes the item under the cursor: it joins r, its
      service's count goes up and its link is deleted. */
  method TakeAt(r: SwSet<string, Item>, taken: seq<Item>, rest: seq<Item>, cursor: nat,
                counts: map<string, nat>, count: nat, quota: nat)
    returns (taken': seq<Item>, rest': seq<Item>, counts': map<string, nat>)
    requires cursor < |rest| && |taken| < count && counts == Counts(taken)
    requires Taken(counts, rest[cursor].service) < quota
    requires r.Valid() && r.keyOf == ItemId && r.hash == AddAll(map[], taken)
    modifies r`hash
    ensures r.Valid() && r.hash == AddAll(map[], taken')
    ensures counts' == Counts(taken') && |taken'| == |taken| + 1
    ensures |rest'| == |rest| - 1 && cursor <= |rest'|
    ensures FirstPass(Pass(taken', rest', cursor), count, quota) == FirstPass(Pass(taken, rest, cursor), count, quota)
  {
    var x := rest[cursor];
    PassTakes(Pass(taken, rest, cursor), count, quota);
    AddItem(r, taken, x);
    CountsSnoc(taken, x);
    taken' := taken + [x];
    rest' := rest[..cursor] + rest[cursor + 1..];
    counts' := counts[x.service := Taken(counts, x.service) + 1];
  }

  /** sw_set_add of one more selected item to the set built from l. */
  method AddItem(r: SwSet<string, Item>, l: seq<Item>, x: Item)
    requires r.Valid() && r.keyOf == ItemId && r.hash == AddAll(map[], l)
    modifies r`hash
    ensures r.Valid() && r.hash == AddAll(map[], l + [x])
  {
    r.Add(x);
    AddAllSnoc(map[], l, x);
  }

  /** A step of the first pass that takes the item under the cursor. */
  lemma PassTakes(p: Pass, count: nat, quota: nat)
    requires p.cursor < |p.rest| && |p.taken| < count
    requires CountOf(p.taken, p.rest[p.cursor].service) < quota
    ensures FirstPass(p, count, quota)
            == FirstPass(Pass(p.taken + [p.rest[p.cursor]], p.rest[..p.cursor] + p.rest[p.cursor + 1..], p.cursor), count, quota)
  {
  }

  /** A step of the first pass that skips the item under the cursor. */
  lemma PassSkips(p: Pass, count: nat, quota: nat)
    requires p.cursor + 1 < |p.rest| && |p.taken| < count
    requires CountOf(p.taken, p.rest[p.cursor].service) >= quota
    ensures FirstPass(p, count, quota) == FirstPass(p.(cursor := p.cursor + 1), count, quota)
  {
  }

  /** The first pass stops at the last link when its item's service is full. */
  lemma PassStops(p: Pass, count: nat, quota: nat)
    requires p.cursor + 1 == |p.rest|
    requires CountOf(p.taken, p.rest[p.cursor].service) >= quota
    ensures FirstPass(p, count, quota) == p
  {
  }

  /** The rewind and the second loop: from the head of what the first pass
      left, items are added until the set holds count. */
  method FillUp(r: SwSet<string, Item>, taken: seq<Item>, rest: seq<Item>, count: nat) returns (picked: seq<Item>)
    requires r.Valid() && r.keyOf == ItemId && r.hash == AddAll(map[], taken) && |taken| <= count
    modifies r`hash
    ensures r.Valid() && r.hash == AddAll(map[], picked)
    ensures picked == if |taken| >= count then taken else taken + rest[..Min(count - |taken|, |rest|)]
  {
    var n := |taken|;
    var k := 0;
    picked := taken;
    assert taken + rest[..0] == taken;
    while k < |rest| && n < count
      invariant k <= |rest| && n == |taken| + k && n <= count
      invariant picked == taken + rest[..k]
      invariant r.Valid() && r.hash == AddAll(map[], picked)
    {
      AddItem(r, picked, rest[k]);
      AppendTakeSnoc(taken, rest, k);
      picked := picked + [rest[k]];
      n := n + 1;
      k := k + 1;
    }
  }

  lemma AppendTakeSnoc(a: seq<Item>, b: seq<Item>, k: nat)
    requires k < |b|
    ensures a + b[..k + 1] == (a + b[..k]) + [b[k]]
  {
    TakeSnoc(b, k);
  }

  lemma SortedKeepsItems(l: seq<Item>, sorted: seq<Item>)
    requires multiset(sorted) == multiset(l) && NoDuplicates(l)
    ensures forall x :: x in sorted <==> x in l
    ensures NoDuplicates(sorted)
  {
    forall x ensures x in sorted <==> x in l {
      assert x in sorted <==> x in multiset(sorted);
      assert x in l <==> x in multiset(l);
    }
    forall i, j | 0 <= i < j < |sorted| ensures sorted[i] != sorted[j] {
      CountedTwice(sorted, i, j);
      NoDuplicatesOnce(l, sorted[i]);
    }
  }

  lemma CountedTwice(s: seq<Item>, i: nat, j: nat)
    requires i < j < |s|
    ensures multiset(s)[s[i]] >= if s[i] == s[j] then 2 else 1
  {
    var x := s[i];
    assert s == s[..j] + [s[j]] + s[j + 1..];
    assert x in s[..j];
  }

  lemma {:induction false} NoDuplicatesOnce(l: seq<Item>, x: Item)
    requires NoDuplicates(l)
    ensures multiset(l)[x] <= 1
  {
    if l != [] {
      assert l == [l[0]] + l[1..];
      assert NoDuplicates(l[1..]) by {
        forall i, j | 0 <= i < j < |l[1..]| ensures l[1..][i] != l[1..][j] {
          assert l[1..][i] == l[i + 1] && l[1..][j] == l[j + 1];
        }
      }
      NoDuplicatesOnce(l[1..], x);
      if l[0] == x {
        assert x !in l[1..] by {
          forall j | 0 <= j < |l[1..]| ensures l[1..][j] != x {
            assert l[1..][j] == l[j + 1];
          }
        }
      }
    }
  }

  /** What the view asks of its services, the cache and the main loop. */
  datatype Call =
    | StartService(service: string)
    | RefreshService(service: string)
    | LoadCache(service: string)
    | SaveCache(service: string, items: map<string, Item>)
    | DropCache(service: string)
    | RemoveSource(id: nat)

  /** sw_service_start / sw_service_refresh for each service, in order. */
  function StartCalls(services: seq<string>): (c: seq<Call>)
    ensures |c| == |services| && forall i | 0 <= i < |c| :: c[i] == StartService(services[i])
  {
    if services == [] then [] else StartCalls(DropLast(services)) + [StartService(services[|services| - 1])]
  }

  function RefreshCalls(services: seq<string>): (c: seq<Call>)
    ensures |c| == |services| && forall i | 0 <= i < |c| :: c[i] == RefreshService(services[i])
  {
    if services == [] then [] else RefreshCalls(DropLast(services)) + [RefreshService(services[|services| - 1])]
  }

  /** remove_service: whether an item belongs to the service. */
  function FromService(service: string): Item -> bool {
    (x: Item) => x.service == service
  }

  /** all_items after a service reported the set s (None: the service reported
      NULL): that service's items are gone, then s is added. */
  function Refreshed(h: map<string, Item>, service: string, s: Option<map<string, Item>>): map<string, Item> {
    if s.Some? then Without(h, FromService(service)) + s.value else Without(h, FromService(service))
  }

  /** The cache call service_refreshed_cb makes for a reported set. */
  function CacheCall(service: string, s: Option<map<string, Item>>): Call {
    if s.Some? then SaveCache(service, s.value) else DropCache(service)
  }

  /** all_items after load_cache fed each service's cached set in turn. */
  function Reloaded(h: map<string, Item>, services: seq<string>, loaded: seq<Option<map<string, Item>>>): map<string, Item>
    requires |loaded| == |services|
  {
    if services == [] then h
    else Refreshed(Reloaded(h, DropLast(services), DropLast(loaded)), services[|services| - 1], loaded[|loaded| - 1])
  }

  /** The calls load_cache makes: per service a cache load, then the save (or
      drop) of what was loaded. */
  function LoadCalls(services: seq<string>, loaded: seq<Option<map<string, Item>>>): seq<Call>
    requires |loaded| == |services|
  {
    if services == [] then []
    else
      var s := services[|services| - 1];
      LoadCalls(DropLast(services), DropLast(loaded)) + [LoadCache(s), CacheCall(s, loaded[|loaded| - 1])]
  }

  /** After a refresh an item of the reporting service is one it reported;
      an item of another service stays unless the report holds its id; every
      reported item is in. */
  lemma RefreshedSpec(h: map<string, Item>, service: string, s: Option<map<string, Item>>)
    requires Keyed(h, ItemId) && (s.Some? ==> Keyed(s.value, ItemId))
    ensures Keyed(Refreshed(h, service, s), ItemId)
    ensures forall x | x in Refreshed(h, service, s).Values && x.service == service ::
              s.Some? && x in s.value.Values
    ensures forall k | k in h && h[k].service != service && (s.None? || k !in s.value) ::
              k in Refreshed(h, service, s) && Refreshed(h, service, s)[k] == h[k]
    ensures s.Some? ==> forall x | x in s.value.Values :: x in Refreshed(h, service, s).Values
  {
    var r := Refreshed(h, service, s);
    forall x | x in r.Values && x.service == service ensures s.Some? && x in s.value.Values {
      var k :| k in r && r[k] == x;
    }
    if s.Some? {
      forall x | x in s.value.Values ensures x in r.Values {
        var k :| k in s.value && s.value[k] == x;
        assert r[k] == x;
      }
    }
  }

  /** sw_set_add_from of an id-keyed set into an id-keyed set is the union of
      the tables, the added set winning. */
  lemma AddFromTable(u: map<string, Item>, f: map<string, Item>, h: map<string, Item>)
    requires Keyed(u, ItemId) && Keyed(f, ItemId) && Keyed(h, ItemId)
    requires h.Keys == u.Keys + KeysOf(ItemId, f.Values)
    requires forall k | k in h :: if k in KeysOf(ItemId, f.Values) then h[k] in f.Values else h[k] == u[k]
    ensures h == u + f
  {
    assert KeysOf(ItemId, f.Values) == f.Keys by {
      forall k | k in f ensures k in KeysOf(ItemId, f.Values) {
        assert f[k] in f.Values;
      }
    }
    forall k | k in h ensures h[k] == (u + f)[k] {
      if k in f {
        MemberAtOwnKey(f, h[k]);
      }
    }
  }

  /** The selection holds at most count items, each taken from the list. */
  lemma SelectionFrom(sorted: seq<Item>, count: nat, quota: nat, members: set<Item>)
    requires forall x | x in sorted :: x in members
    ensures Elems(MungeIntended(sorted, count, quota)) <= members
    ensures |MungeIntended(sorted, count, quota)| <= count
  {
    MungeIntendedSpec(sorted, count, quota);
    forall x | x in MungeIntended(sorted, count, quota) ensures x in members {
      assert x in multiset(MungeIntended(sorted, count, quota));
    }
  }

  /** The set handling of service_refreshed_cb: the service's items leave the
      set, then the reported set (null for NULL) is added. */
  method ReplaceService(t: SwSet<string, Item>, service: string, s: SwSet?<string, Item>)
    requires t.Valid() && t.keyOf == ItemId && t != s
    requires s != null ==> s.Valid() && s.keyOf == ItemId
    modifies t`hash
    ensures t.Valid()
    ensures t.hash == Refreshed(old(t.hash), service, if s == null then None else Some(s.hash))
  {
    var n := t.ForeachRemove(FromService(service));
    ghost var w := t.hash;
    if s != null {
      AddReport(t, s);
      assert t.hash == w + s.hash;
    }
  }

  /** sw_set_add_from of a reported id-keyed set into an id-keyed set. */
  method AddReport(t: SwSet<string, Item>, s: SwSet<string, Item>)
    requires t.Valid() && t.keyOf == ItemId && t != s
    requires s.Valid() && s.keyOf == ItemId
    modifies t`hash
    ensures t.Valid() && t.hash == old(t.hash) + s.hash
  {
    t.AddFrom(s);
    AddFromTable(old(t.hash), s.hash, t.hash);
  }

  class SwView {
    /** The SwItemView this view is. */
    const base: SwItemView
    /** Every item the services last reported, keyed by id. */
    const allItems: SwSet<string, Item>
    /** The most items the view shows (the "count" property). */
    const count: nat
    /** The date parser behind the items' cached dates (foreign). */
    const parseDate: string -> int
    /** The services the view aggregates, by name, in the order added. */
    var services: seq<string>
    var running: bool
    /** The refresh timeout's source id; 0 when none is installed. */
    var refreshTimeoutId: nat
    var calls: seq<Call>

    ghost predicate Valid()
      reads this, base, base.current, base.pending, allItems
    {
      base.Valid() && allItems.Valid() && allItems.keyOf == ItemId
      && allItems != base.current && allItems != base.pending
    }

    /** sw_view_new: an item view, an empty item set, not running and no
        refresh timeout. */
    constructor (counter: PathCounter, count: nat, parseDate: string -> int,
                 payloadDate: Option<string> -> int, itemEqual: (Item, Item) -> bool)
      modifies counter
      ensures Valid() && fresh(base) && fresh(base.current) && fresh(base.pending) && fresh(allItems)
      ensures base.objectPath == ObjectPath(old(counter.count)) && counter.count == old(counter.count) + 1
      ensures base.current.hash == map[] && base.pending.hash == map[] && base.events == []
      ensures base.parseDate == payloadDate && base.itemEqual == itemEqual
      ensures allItems.hash == map[] && this.count == count && this.parseDate == parseDate
      ensures services == [] && !running && refreshTimeoutId == 0 && calls == []
    {
      base := new SwItemView("", counter, payloadDate, itemEqual);
      allItems := new SwSet(ItemId);
      this.count := count;
      this.parseDate := parseDate;
      services := [];
      running := false;
      refreshTimeoutId := 0;
      calls := [];
    }

    /** sw_view_add_service */
    method AddService(service: string)
      modifies this`services
      ensures services == old(services) + [service]
    {
      services := services + [service];
    }

    /** sw_view_recalculate: nothing unless the view is running; otherwise
        munge_items picks at most count ready, non-banned items (banned: the
        core's banned ids) and the view is set from that selection.  Returns the
        candidates newest first, the selection, and the removed, changed and
        added items set_from_set published. */
    method Recalculate(banned: set<string>)
      returns (sorted: seq<Item>, picked: seq<Item>, removed: seq<Item>, changed: seq<Item>, added: seq<Item>)
      requires Valid()
      modifies base`uidToItems, base`readyWatch, base`changeWatch, base`events, base.current, base.pending
      ensures Valid()
      ensures !running ==> unchanged(base, base.current, base.pending)
      ensures running ==>
                (forall x :: x in sorted <==> x in allItems.Members() && Eligible(x, banned))
                && NewestFirst(sorted, parseDate)
                && picked == MungeIntended(sorted, count, ServiceMax(count, |services|))
      ensures running ==> base.current.hash == Merged(old(base.current.hash), AddAll(map[], picked), base.itemEqual)
      ensures running ==> Elems(removed) == set x | x in old(base.current.hash).Values && ItemId(x) !in AddAll(map[], picked)
      ensures running ==> forall x :: x in changed <==>
                x in AddAll(map[], picked).Values && Replaces(old(base.current.hash), x, base.itemEqual)
      ensures running ==> Elems(added) == set x | x in AddAll(map[], picked).Values && ItemId(x) !in old(base.current.hash)
      ensures running ==> (base.events == old(base.events) +
                           DiffEvents(old(base.current.hash) == map[], removed, changed, added, base.parseDate))
      ensures running ==> base.pending.hash == AddAll(old(base.pending.hash), NotReady(added))
      ensures running ==> base.readyWatch == old(base.readyWatch) + Handles(NotReady(added))
      ensures running ==> base.changeWatch == old(base.changeWatch) + Handles(added)
    {
      sorted, picked, removed, changed, added := [], [], [], [], [];
      if !running {
        return;
      }
      var newItems;
      newItems, sorted, picked := MungeItems(allItems, banned, count, |services|, parseDate);
      ghost var C := base.current.hash;
      KeyedInjective(newItems.hash);
      removed, changed, added := base.SetFromSet(newItems);
      MergedByIdKeyed(C, newItems.hash, removed, base.itemEqual);
    }

    /** service_refreshed_cb: the service reported a set (null for NULL).  The
        set is saved to the cache, or the cache is dropped; the service's items
        leave all_items, the set's items join it, and the view recalculates. */
    method ServiceRefreshed(service: string, s: SwSet?<string, Item>, banned: set<string>)
      returns (picked: seq<Item>, removed: seq<Item>, changed: seq<Item>, added: seq<Item>)
      requires Valid()
      requires s != null ==> s.Valid() && s.keyOf == ItemId
      requires s != allItems && s != base.current && s != base.pending
      modifies this`calls, allItems`hash, base`uidToItems, base`readyWatch, base`changeWatch, base`events
      modifies base.current, base.pending
      ensures Valid()
      ensures calls == old(calls) + [CacheCall(service, if s == null then None else Some(s.hash))]
      ensures allItems.hash == Refreshed(old(allItems.hash), service, if s == null then None else Some(s.hash))
      ensures !running ==> unchanged(base, base.current, base.pending)
      ensures running ==> base.current.hash == Merged(old(base.current.hash), AddAll(map[], picked), base.itemEqual)
      ensures running ==> (base.events == old(base.events) +
                           DiffEvents(old(base.current.hash) == map[], removed, changed, added, base.parseDate))
      ensures running ==> Elems(picked) <= allItems.Members() && |picked| <= count
    {
      var report: Option<map<string, Item>> := if s == null then None else Some(s.hash);
      calls := calls + [CacheCall(service, report)];
      ReplaceService(allItems, service, s);
      var sorted;
      sorted, picked, removed, changed, added := Recalculate(banned);
      if running {
        SelectionFrom(sorted, count, ServiceMax(count, |services|), allItems.Members());
      }
    }

    /** start_refresh: every service is asked to refresh; the timeout stays
        installed. */
    method StartRefresh() returns (keep: bool)
      modifies this`calls
      ensures calls == old(calls) + RefreshCalls(services)
      ensures keep
    {
      var i := 0;
      while i < |services|
        invariant 0 <= i <= |services|
        invariant calls == old(calls) + RefreshCalls(services[..i])
      {
        TakeSnoc(services, i);
        assert DropLast(services[..i + 1]) == services[..i];
        calls := calls + [RefreshService(services[i])];
        i := i + 1;
      }
      assert services[..i] == services;
      keep := true;
    }

    /** install_refresh_timeout: only when none is installed; sourceId is the
        id the main loop hands out, never 0. */
    method InstallRefreshTimeout(sourceId: nat)
      requires sourceId != 0
      modifies this`refreshTimeoutId
      ensures refreshTimeoutId == if old(refreshTimeoutId) == 0 then sourceId else old(refreshTimeoutId)
      ensures refreshTimeoutId != 0
    {
      if refreshTimeoutId == 0 {
        refreshTimeoutId := sourceId;
      }
    }

    /** remove_refresh_timeout: the installed source is removed and the id
        reset to 0. */
    method RemoveRefreshTimeout()
      modifies this`refreshTimeoutId, this`calls
      ensures refreshTimeoutId == 0
      ensures calls == old(calls) + if old(refreshTimeoutId) != 0 then [RemoveSource(old(refreshTimeoutId))] else []
    {
      if refreshTimeoutId != 0 {
        calls := calls + [RemoveSource(refreshTimeoutId)];
        refreshTimeoutId := 0;
      }
    }
 
    /** load_cache: for each service in turn, the cached set is loaded
        (loaded[i] is what sw_cache_load returned for services[i]: None for
        NULL) and handled as if the service had just reported it. */
    method LoadCacheAll(loaded: seq<Option<map<string, Item>>>, banned: set<string>)
      requires Valid() && |loaded| == |services|
      requires forall i | 0 <= i < |loaded| :: loaded[i].Some? ==> Keyed(loaded[i].value, ItemId)
      modifies this`calls, allItems`hash, base`uidToItems, base`readyWatch, base`changeWatch, base`events
      modifies base.current, base.pending
      ensures Valid()
      ensures calls == old(calls) + LoadCalls(services, loaded)
      ensures allItems.hash == Reloaded(old(allItems.hash), services, loaded)
      ensures !running ==> unchanged(base, base.current, base.pending)
    {
      var i := 0;
      while i < |services|
        invariant 0 <= i <= |services| && Valid()
        invariant calls == old(calls) + LoadCalls(services[..i], loaded[..i])
        invariant allItems.hash == Reloaded(old(allItems.hash), services[..i], loaded[..i])
        invariant !running ==> unchanged(base, base.current, base.pending)
      {
        LoadOne(services[i], loaded[i], banned);
        LoadStep(old(allItems.hash), old(calls), services, loaded, i);
        i := i + 1;
      }
      assert services[..i] == services && loaded[..i] == loaded;
    }

    /** One turn of load_cache: the service's cached set is loaded (entry is
        what sw_cache_load returned, None for NULL) and handled as a report. */
    method LoadOne(service: string, entry: Option<map<string, Item>>, banned: set<string>)
      requires Valid() && (entry.Some? ==> Keyed(entry.value, ItemId))
      modifies this`calls, allItems`hash, base`uidToItems, base`readyWatch, base`changeWatch, base`events
      modifies base.current, base.pending
      ensures Valid()
      ensures calls == old(calls) + [LoadCache(service), CacheCall(service, entry)]
      ensures allItems.hash == Refreshed(old(allItems.hash), service, entry)
      ensures !running ==> unchanged(base, base.current, base.pending)
    {
      calls := calls + [LoadCache(service)];
      var cached: SwSet?<string, Item> := null;
      if entry.Some? {
        cached := new SwSet(ItemId);
        cached.hash := entry.value;
      }
      var _, _, _, _ := ServiceRefreshed(service, cached, banned);
    }

    /** online_notify: going online installs the refresh timeout and, if the
        view is running, loads the cache and refreshes every service; going
        offline removes the timeout. */
    method OnlineNotify(online: bool, sourceId: nat, loaded: seq<Option<map<string, Item>>>, banned: set<string>)
      requires Valid() && (online ==> sourceId != 0) && |loaded| == |services|
      requires forall i | 0 <= i < |loaded| :: loaded[i].Some? ==> Keyed(loaded[i].value, ItemId)
      modifies this`calls, this`refreshTimeoutId, allItems`hash
      modifies base`uidToItems, base`readyWatch, base`changeWatch, base`events, base.current, base.pending
      ensures Valid()
      ensures refreshTimeoutId == if !online then 0 else if old(refreshTimeoutId) == 0 then sourceId else old(refreshTimeoutId)
      ensures calls == old(calls) +
                if !online then (if old(refreshTimeoutId) != 0 then [RemoveSource(old(refreshTimeoutId))] else [])
                else if running then LoadCalls(services, loaded) + RefreshCalls(services)
                else []
      ensures allItems.hash == if online && running then Reloaded(old(allItems.hash), services, loaded) else old(allItems.hash)
      ensures !(online && running) ==> unchanged(base, base.current, base.pending)
    {
      if online {
        InstallRefreshTimeout(sourceId);
        if running {
          LoadCacheAll(loaded, banned);
          var _ := StartRefresh();
        }
      } else {
        RemoveRefreshTimeout();
      }
    }

    /** view_start: the view runs, every service is started, and then the view
        behaves as on an online notification with the current state; offline,
        the cache is loaded all the same. */
    method Start(online: bool, sourceId: nat, loaded: seq<Option<map<string, Item>>>, banned: set<string>)
      requires Valid() && (online ==> sourceId != 0) && |loaded| == |services|
      requires forall i | 0 <= i < |loaded| :: loaded[i].Some? ==> Keyed(loaded[i].value, ItemId)
      modifies this`running, this`calls, this`refreshTimeoutId, allItems`hash
      modifies base`uidToItems, base`readyWatch, base`changeWatch, base`events, base.current, base.pending
      ensures Valid() && running
      ensures refreshTimeoutId == if !online then 0 else if old(refreshTimeoutId) == 0 then sourceId else old(refreshTimeoutId)
      ensures calls == old(calls) + StartCalls(services) +
                if online then LoadCalls(services, loaded) + RefreshCalls(services)
                else (if old(refreshTimeoutId) != 0 then [RemoveSource(old(refreshTimeoutId))] else [])
                     + LoadCalls(services, loaded)
      ensures allItems.hash == Reloaded(old(allItems.hash), services, loaded)
    {
      running := true;
      StartServices();
      if online {
        OnlineNotify(true, sourceId, loaded, banned);
      } else {
        OnlineNotify(false, sourceId, loaded, banned);
        LoadCacheAll(loaded, banned);
      }
    }

    method StartServices()
      modifies this`calls
      ensures calls == old(calls) + StartCalls(services)
    {
      var i := 0;
      while i < |services|
        invariant 0 <= i <= |services|
        invariant calls == old(calls) + StartCalls(services[..i])
      {
        TakeSnoc(services, i);
        assert DropLast(services[..i + 1]) == services[..i];
        calls := calls + [StartService(services[i])];
        i := i + 1;
      }
      assert services[..i] == services;
    }

    /** view_refresh: the refresh timeout is reinstalled and every service is
        asked to refresh now. */
    method Refresh(sourceId: nat)
      requires sourceId != 0
      modifies this`calls, this`refreshTimeoutId
      ensures refreshTimeoutId == sourceId
      ensures calls == old(calls) + (if old(refreshTimeoutId) != 0 then [RemoveSource(old(refreshTimeoutId))] else [])
                       + RefreshCalls(services)
    {
      RemoveRefreshTimeout();
      InstallRefreshTimeout(sourceId);
      var _ := StartRefresh();
    }
  }

  /** One turn of load_cache's loop extends the loaded calls and items. */
  lemma LoadStep(h: map<string, Item>, c: seq<Call>, services: seq<string>,
                 loaded: seq<Option<map<string, Item>>>, i: nat)
    requires |loaded| == |services| && i < |services|
    ensures LoadCalls(services[..i + 1], loaded[..i + 1]) ==
              LoadCalls(services[..i], loaded[..i]) + [LoadCache(services[i]), CacheCall(services[i], loaded[i])]
    ensures Reloaded(h, services[..i + 1], loaded[..i + 1]) ==
              Refreshed(Reloaded(h, services[..i], loaded[..i]), services[i], loaded[i])
  {
    TakeSnoc(services, i);
    TakeSnoc(loaded, i);
    assert DropLast(services[..i + 1]) == services[..i];
    assert DropLast(loaded[..i + 1]) == loaded[..i];
  }
}
