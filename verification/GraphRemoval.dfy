/**
 The graph of known devices, signals, links and maps: removing a record cascades through queries whose
 cursor moves on before the current item is unlinked.
 */
module GraphRemoval {
  import opened ItemLists
  import opened Queries

  datatype Dev = Dev(id: nat)

  /** The direction of a signal is never undefined, so a query for any direction ignores it. */
  datatype Sig = Sig(dev: nat, removed: bool)

  datatype Link = Link(id: nat, dev0: nat, dev1: nat)

  /** Links of the source slots; a slot that is not local has none. */
  datatype Map = Map(srcs: seq<Item<Sig>>, dst: Item<Sig>, links: seq<nat>, removed: bool)

  predicate HasDev(m: Map, d: nat) {
    (exists i :: 0 <= i < |m.srcs| && m.srcs[i].data.dev == d) || m.dst.data.dev == d
  }

  /** The queries: maps of a device, maps of a signal or link (here of any one in a set), links and
      signals of a device. */
  function DevMaps(d: nat): Map -> bool {
    (m: Map) => !m.removed && HasDev(m, d)
  }

  function SigMaps(ss: set<Item<Sig>>): Map -> bool {
    (m: Map) => !m.removed && ((exists i :: 0 <= i < |m.srcs| && m.srcs[i] in ss) || m.dst in ss)
  }

  function LinkMaps(ids: set<nat>): Map -> bool {
    (m: Map) => exists i :: 0 <= i < |m.links| && m.links[i] in ids
  }

  function DevLinks(d: nat): Link -> bool {
    (l: Link) => l.dev0 == d || l.dev1 == d
  }

  function DevSigs(d: nat): Sig -> bool {
    (s: Sig) => s.dev == d && !s.removed
  }

  /** The maps that go when device d goes. */
  function Orphans(d: nat, ids: set<nat>): Map -> bool {
    (m: Map) => DevMaps(d)(m) || LinkMaps(ids)(m)
  }

  function Matching<T>(items: seq<Item<T>>, test: T -> bool): set<Item<T>> {
    set x | x in items && test(x.data)
  }

  function Ids(links: set<Item<Link>>): set<nat> {
    set l | l in links :: l.data.id
  }

  /** Items that do not match, in order. */
  function Keep<T>(items: seq<Item<T>>, test: T -> bool): (r: seq<Item<T>>)
  {
    if items == [] then []
    else if test(items[0].data) then Keep(items[1..], test)
    else [items[0]] + Keep(items[1..], test)
  }

  lemma {:induction false} KeepAppend<T>(a: seq<Item<T>>, b: seq<Item<T>>, test: T -> bool)
    ensures Keep(a + b, test) == Keep(a, test) + Keep(b, test)
  {
    if a == [] {
      assert a + b == b;
    } else {
      assert (a + b)[1..] == a[1..] + b;
      KeepAppend(a[1..], b, test);
    }
  }

  /** What is kept is exactly what does not match. */
  lemma {:induction false} KeepMembers<T>(items: seq<Item<T>>, test: T -> bool, x: Item<T>)
    ensures x in Keep(items, test) <==> x in items && !test(x.data)
  {
    if items != [] {
      assert items == [items[0]] + items[1..];
      KeepMembers(items[1..], test, x);
    }
  }

  lemma {:induction false} KeepAll<T>(items: seq<Item<T>>, test: T -> bool)
    requires forall i :: 0 <= i < |items| ==> !test(items[i].data)
    ensures Keep(items, test) == items
  {
    if items != [] {
      KeepAll(items[1..], test);
    }
  }

  /** Two passes keep what one pass with the disjunction keeps. */
  lemma {:induction false} KeepTwice<T>(items: seq<Item<T>>, p: T -> bool, q: T -> bool, both: T -> bool)
    requires forall i :: 0 <= i < |items| ==> (both(items[i].data) <==> p(items[i].data) || q(items[i].data))
    ensures Keep(Keep(items, p), q) == Keep(items, both)
  {
    if items != [] {
      KeepTwice(items[1..], p, q, both);
      if !p(items[0].data) {
        assert ([items[0]] + Keep(items[1..], p))[1..] == Keep(items[1..], p);
      }
    }
  }

  /** A sweep in progress: of the whole list, `done` is reduced to what is kept of it, `left` is untouched
      and starts with a match at position p, where the cursor is. */
  ghost predicate Sweeping<T>(all: seq<Item<T>>, done: seq<Item<T>>, left: seq<Item<T>>, items: seq<Item<T>>,
                              p: nat, test: T -> bool) {
    && all == done + left && items == Keep(done, test) + left
    && p == |Keep(done, test)| && left != [] && test(left[0].data)
  }

  lemma SweepStarts<T>(all: seq<Item<T>>, p: nat, test: T -> bool)
    requires p <= |all| && (p < |all| ==> test(all[p].data)) && forall i :: 0 <= i < p ==> !test(all[i].data)
    ensures p < |all| ==> all[p..] != [] && Sweeping(all, all[..p], all[p..], all, p, test)
    ensures p == |all| ==> all == Keep(all, test)
  {
    KeepAll(all[..p], test);
    assert all == all[..p] + all[p..];
    assert p == |all| ==> all[..p] == all;
  }

  lemma KeepMore<T>(done: seq<Item<T>>, x: Item<T>, gap: seq<Item<T>>, test: T -> bool)
    requires test(x.data) && forall i :: 0 <= i < |gap| ==> !test(gap[i].data)
    ensures Keep(done + [x] + gap, test) == Keep(done, test) + gap
  {
    DropOne(x, test);
    hide Keep;
    KeepAll(gap, test);
    KeepAppend(done + [x], gap, test);
    KeepAppend(done, [x], test);
    assert Keep(done, test) + [] == Keep(done, test);
  }

  lemma DropOne<T>(x: Item<T>, test: T -> bool)
    requires test(x.data)
    ensures Keep([x], test) == []
  {
  }

  /** The cursor moved from p to n before item p was taken out. */
  lemma SweepSteps<T>(all: seq<Item<T>>, done: seq<Item<T>>, left: seq<Item<T>>, items: seq<Item<T>>, p: nat, n: nat,
                      test: T -> bool)
    requires Sweeping(all, done, left, items, p, test) && p < n <= |items|
    requires forall i :: p < i < n ==> !test(items[i].data)
    requires n < |items| ==> test(items[n].data)
    ensures n - p <= |left| && (n < |items| ==> n - p < |left|)
    ensures var rest := items[..p] + items[p + 1..];
            if n < |items| then Sweeping(all, done + left[..n - p], left[n - p..], rest, n - 1, test)
            else rest == Keep(all, test)
  {
    hide Keep;
    var gap, later := left[1..n - p], left[n - p..];
    forall i | 0 <= i < |gap| ensures !test(gap[i].data) {
      assert gap[i] == items[p + 1 + i];
    }
    KeepMore(done, left[0], gap, test);
    assert done + left[..n - p] == done + [left[0]] + gap;
    assert items[p + 1..] == gap + later;
    assert all == (done + left[..n - p]) + later;
    if n < |items| {
      assert later[0] == items[n];
    } else {
      assert all == done + left[..n - p];
    }
  }

  lemma {:induction false} MissesBetween<T>(items: seq<Item<T>>, from: nat, test: T -> bool)
    requires from <= |items|
    ensures var (n, res, t) := NextHit(Filter(test), Data(items), from);
            && from <= n <= |items| && t == Filter(test) && res != 2
            && (forall i :: from <= i < n ==> !test(items[i].data)) && (n < |items| ==> test(items[n].data))
    decreases |items| - from
  {
    if from < |items| && !test(items[from].data) {
      MissesBetween(items, from + 1, test);
    }
  }

  lemma LinkMapsStart(maps: seq<Item<Map>>, done: seq<Item<Link>>, test: Link -> bool)
    requires forall i :: 0 <= i < |done| ==> !test(done[i].data)
    ensures maps == Keep(maps, LinkMaps(Ids(Matching(done, test))))
  {
    KeepAll(maps, LinkMaps(Ids(Matching(done, test))));
  }

  lemma LinkMapsStep(maps: seq<Item<Map>>, all: seq<Item<Link>>, done: seq<Item<Link>>, left: seq<Item<Link>>,
                  items: seq<Item<Link>>, p: nat, n: nat, test: Link -> bool)
    requires Sweeping(all, done, left, items, p, test) && p < n <= |items|
    requires forall i :: p < i < n ==> !test(items[i].data)
    ensures n - p <= |left| && left[0] == items[p]
    ensures var kept := Keep(Keep(maps, LinkMaps(Ids(Matching(done, test)))), LinkMaps(Ids({items[p]})));
            && kept == Keep(maps, LinkMaps(Ids(Matching(done + left[..n - p], test))))
            && (n == |items| ==> kept == Keep(maps, LinkMaps(Ids(Matching(all, test)))))
  {
    hide Keep;
    forall i | 0 < i < n - p ensures !test(left[i].data) {
      assert left[i] == items[p + i];
    }
    MatchingStep(done, left, n - p, test);
    KeepTwice(maps, LinkMaps(Ids(Matching(done, test))), LinkMaps(Ids({items[p]})),
              LinkMaps(Ids(Matching(done + left[..n - p], test))));
    assert n == |items| ==> left[..n - p] == left;
  }

  lemma SigMapsStart(maps: seq<Item<Map>>, done: seq<Item<Sig>>, test: Sig -> bool)
    requires forall i :: 0 <= i < |done| ==> !test(done[i].data)
    ensures maps == Keep(maps, SigMaps(Matching(done, test)))
  {
    KeepAll(maps, SigMaps(Matching(done, test)));
  }

  lemma SigMapsStep(maps: seq<Item<Map>>, all: seq<Item<Sig>>, done: seq<Item<Sig>>, left: seq<Item<Sig>>,
                  items: seq<Item<Sig>>, p: nat, n: nat, test: Sig -> bool)
    requires Sweeping(all, done, left, items, p, test) && p < n <= |items|
    requires forall i :: p < i < n ==> !test(items[i].data)
    ensures n - p <= |left| && left[0] == items[p]
    ensures var kept := Keep(Keep(maps, SigMaps(Matching(done, test))), SigMaps({items[p]}));
            && kept == Keep(maps, SigMaps(Matching(done + left[..n - p], test)))
            && (n == |items| ==> kept == Keep(maps, SigMaps(Matching(all, test))))
  {
    hide Keep;
    forall i | 0 < i < n - p ensures !test(left[i].data) {
      assert left[i] == items[p + i];
    }
    MatchingStep(done, left, n - p, test);
    KeepTwice(maps, SigMaps(Matching(done, test)), SigMaps({items[p]}),
              SigMaps(Matching(done + left[..n - p], test)));
    assert n == |items| ==> left[..n - p] == left;
  }

  /** A plain query over a list, as the removals use it. */
  ghost predicate Filtering<T>(q: Query<T>, list: ItemList<T>, test: T -> bool)
    reads q
  {
    q.Valid() && q.repr == {q} && q.start == list && q.kind == Filter(test) && !q.reset
  }

  /** Query a list from its start; null when nothing matches. */
  method NewQuery<T>(list: ItemList<T>, test: T -> bool) returns (q: Query?<T>, ghost p: nat)
    requires list.Valid()
    ensures q == null <==> p == |list.items|
    ensures p <= |list.items| && forall i :: 0 <= i < p ==> !test(list.items[i].data)
    ensures q != null ==> fresh(q) && Filtering(q, list, test) && q.self == list.items[p] && test(list.items[p].data)
  {
    hide NextHit;
    if list.head == null {
      return null, 0;
    }
    q := new Query.Leaf(list, Filter(test));
    MissesBetween(list.items, 0, test);
    var more;
    more, p := q.Start();
    if !more {
      q := null;
    }
  }

  /** The next match after position p. */
  method NextMatch<T>(q: Query<T>, list: ItemList<T>, test: T -> bool, ghost p: nat) returns (more: bool, ghost n: nat)
    requires list.Valid() && Filtering(q, list, test) && p < |list.items| && q.self == list.items[p]
    modifies q
    ensures p < n <= |list.items| && (more <==> n < |list.items|)
    ensures forall i :: p < i < n ==> !test(list.items[i].data)
    ensures more ==> Filtering(q, list, test) && q.self == list.items[n] && test(list.items[n].data)
  {
    hide NextHit;
    MissesBetween(list.items, p + 1, test);
    more, n := q.Continue(p);
  }

  lemma MatchingStep<T>(done: seq<Item<T>>, left: seq<Item<T>>, k: nat, test: T -> bool)
    requires 0 < k <= |left| && test(left[0].data) && forall i :: 0 < i < k ==> !test(left[i].data)
    ensures Matching(done + left[..k], test) == Matching(done, test) + {left[0]}
  {
    assert left[..k] == [left[0]] + left[1..k];
    forall x | x in left[1..k] ensures !test(x.data) {
    }
  }

  lemma PositionInList<T>(list: ItemList<T>, p: nat)
    requires list.Valid() && p < |list.items|
    ensures Position(list.items, list.items[p]) == p
  {
    PositionIs(list.items, p);
  }

  /** A list without one of its items. */
  function Unlisted<T>(items: seq<Item<T>>, item: Item<T>): seq<Item<T>> {
    if item !in items then items else var p := Position(items, item); items[..p] + items[p + 1..]
  }

  /** A query for the maps of signals finds the live maps that have one as a source or as destination, and a
      query for the maps of links those with such a link. */
  lemma QueriedMaps(ss: set<Item<Sig>>, ids: set<nat>, m: Map)
    ensures SigMaps(ss)(m) <==> !m.removed && ((exists s :: s in ss && s in m.srcs) || m.dst in ss)
    ensures LinkMaps(ids)(m) <==> exists id :: id in ids && id in m.links
  {
    if id :| id in ids && id in m.links {
      var i :| 0 <= i < |m.links| && m.links[i] == id;
    }
    if s :| s in ss && s in m.srcs {
      var i :| 0 <= i < |m.srcs| && m.srcs[i] == s;
    }
  }

  /** What a removal leaves keeps its order. */
  lemma {:induction false} KeepInOrder<T>(items: seq<Item<T>>, test: T -> bool)
    ensures InOrder(Keep(items, test), items)
  {
    hide InOrder;
    if items == [] {
      NoneInOrder(items);
    } else {
      KeepInOrder(items[1..], test);
      OrderKeptBehind(Keep(items[1..], test), items);
    }
  }

  lemma NoneInOrder<T>(items: seq<Item<T>>)
    ensures InOrder([], items)
  {
    assert At([], items, []);
  }

  /** After the removal of signals no live map uses one as a source or destination; every map that is flagged
      as removed or uses none stays, and what stays keeps its order. */
  lemma SigMapsGone(maps: seq<Item<Map>>, ss: set<Item<Sig>>)
    ensures var kept := Keep(maps, SigMaps(ss));
            && (forall m :: m in kept <==>
                  m in maps && (m.data.removed || forall s :: s in ss ==> s !in m.data.srcs && s != m.data.dst))
            && InOrder(kept, maps)
  {
    KeepInOrder(maps, SigMaps(ss));
    forall m ensures m in Keep(maps, SigMaps(ss)) <==> m in maps && !SigMaps(ss)(m.data) {
      KeepMembers(maps, SigMaps(ss), m);
    }
    forall m: Item<Map> ensures SigMaps(ss)(m.data) <==>
                     !m.data.removed && ((exists s :: s in ss && s in m.data.srcs) || m.data.dst in ss)
    {
      QueriedMaps(ss, {}, m.data);
    }
    hide SigMaps, Keep, InOrder;
  }

  lemma OneSigGone(maps: seq<Item<Map>>, sig: Item<Sig>)
    ensures var kept := Keep(maps, SigMaps({sig}));
            && (forall m :: m in kept <==> m in maps && (m.data.removed || (sig !in m.data.srcs && sig != m.data.dst)))
            && InOrder(kept, maps)
  {
    SigMapsGone(maps, {sig});
    hide Keep, SigMaps, InOrder;
  }

  lemma MatchingSigsGone(maps: seq<Item<Map>>, sigs: seq<Item<Sig>>, test: Sig -> bool)
    ensures var kept := Keep(maps, SigMaps(Matching(sigs, test)));
            && (forall m :: m in kept <==>
                  m in maps &&
                  (m.data.removed || forall s :: s in sigs && test(s.data) ==> s !in m.data.srcs && s != m.data.dst))
            && InOrder(kept, maps)
  {
    SigMapsGone(maps, Matching(sigs, test));
    hide Keep, SigMaps, InOrder;
  }

  /** The same for links: every map of such a link goes, flagged or not. */
  lemma LinkMapsGone(maps: seq<Item<Map>>, ids: set<nat>)
    ensures var kept := Keep(maps, LinkMaps(ids));
            && (forall m :: m in kept <==> m in maps && forall id :: id in ids ==> id !in m.data.links)
            && InOrder(kept, maps)
  {
    KeepInOrder(maps, LinkMaps(ids));
    forall m ensures m in Keep(maps, LinkMaps(ids)) <==> m in maps && !LinkMaps(ids)(m.data) {
      KeepMembers(maps, LinkMaps(ids), m);
    }
    forall m: Item<Map> ensures LinkMaps(ids)(m.data) <==> exists id :: id in ids && id in m.data.links {
      QueriedMaps({}, ids, m.data);
    }
    hide LinkMaps, Keep, InOrder;
  }

  /** The device's own record is gone, and no other. */
  lemma UnlistedMembers<T>(items: seq<Item<T>>, item: Item<T>)
    requires forall i, j :: 0 <= i < j < |items| ==> items[i] != items[j]
    ensures forall x :: x in Unlisted(items, item) <==> x in items && x != item
  {
    if item in items {
      var p := Position(items, item);
      assert items == items[..p] + [item] + items[p + 1..];
    }
  }

  class Graph {
    const devs: ItemList<Dev>
    const sigs: ItemList<Sig>
    const links: ItemList<Link>
    const maps: ItemList<Map>

    ghost predicate Valid()
      reads devs, devs.items, sigs, sigs.items, links, links.items, maps, maps.items
    {
      devs.Valid() && sigs.Valid() && links.Valid() && maps.Valid()
    }

    constructor ()
      ensures Valid() && fresh(devs) && fresh(sigs) && fresh(links) && fresh(maps)
      ensures devs.items == [] && sigs.items == [] && links.items == [] && maps.items == []
    {
      devs := new ItemList();
      sigs := new ItemList();
      links := new ItemList();
      maps := new ItemList();
    }

    method RemoveMap(m: Item<Map>, ghost p: nat)
      requires Valid() && p < |maps.items| && m == maps.items[p]
      modifies maps, maps.items
      ensures Valid() && maps.items == old(maps.items)[..p] + old(maps.items)[p + 1..]
      ensures forall x :: x in maps.items ==> x in old(maps.items)
    {
      hide ItemList.Valid;
      PositionInList(maps, p);
      maps.Remove(m);
    }

    /** Remove the maps that match. */
    method RemoveMaps(test: Map -> bool)
      requires Valid()
      modifies maps, maps.items
      ensures Valid() && maps.items == Keep(old(maps.items), test)
      ensures forall x :: x in maps.items ==> x in old(maps.items)
    {
      hide Keep, Filtering, ItemList.Valid, Sweeping;
      ghost var all := maps.items;
      var query, p := NewQuery(maps, test);
      ghost var done, left := all[..p], all[p..];
      SweepStarts(all, p, test);
      var more := query != null;
      while more
        invariant Valid() && (more ==> query != null && fresh(query))
        invariant more ==> Filtering(query, maps, test) && Sweeping(all, done, left, maps.items, p, test)
        invariant more ==> left != [] && p < |maps.items| && query.self == maps.items[p]
        invariant forall x :: x in maps.items ==> x in all
        invariant !more ==> maps.items == Keep(all, test)
        decreases |left|, more
      {
        var m: Item<Map> := query.self;
        ghost var items, n := maps.items, p;
        more, n := NextMatch(query, maps, test, p);
        SweepSteps(all, done, left, items, p, n, test);
        assert forall i :: 0 <= i < |maps.items| ==> maps.items[i] in all;
        RemoveMap(m, p);
        done, left, p := done + left[..n - p], left[n - p..], n - 1;
      }
    }

    method RemoveLink(link: Item<Link>, ghost p: nat)
      requires Valid() && p < |links.items| && link == links.items[p]
      modifies links, links.items, maps, maps.items
      ensures Valid() && links.items == old(links.items)[..p] + old(links.items)[p + 1..]
      ensures forall x :: x in links.items ==> x in old(links.items)
      ensures forall x :: x in maps.items ==> x in old(maps.items)
      ensures maps.items == Keep(old(maps.items), LinkMaps(Ids({link})))
    {
      hide ItemList.Valid, Keep, LinkMaps;
      RemoveMaps(LinkMaps({link.data.id}));
      assert Ids({link}) == {link.data.id};
      PositionInList(links, p);
      links.Remove(link);
    }

    method RemoveLinks(test: Link -> bool)
      requires Valid()
      modifies links, links.items, maps, maps.items
      ensures Valid() && links.items == Keep(old(links.items), test)
      ensures maps.items == Keep(old(maps.items), LinkMaps(Ids(Matching(old(links.items), test))))
      ensures forall x :: x in maps.items ==> x in old(maps.items)
    {
      hide Keep, Filtering, ItemList.Valid, Sweeping, Matching, LinkMaps;
      ghost var all, maps0 := links.items, maps.items;
      var query, p := NewQuery(links, test);
      ghost var done, left := all[..p], all[p..];
      SweepStarts(all, p, test);
      LinkMapsStart(maps0, all[..p], test);
      assert all[..|all|] == all;
      var more := query != null;
      while more
        invariant Valid() && (more ==> query != null && fresh(query))
        invariant more ==> Filtering(query, links, test) && Sweeping(all, done, left, links.items, p, test)
        invariant more ==> left != [] && p < |links.items| && query.self == links.items[p]
        invariant forall x :: x in links.items ==> x in all
        invariant forall x :: x in maps.items ==> x in maps0
        invariant !more ==> links.items == Keep(all, test)
        invariant more ==> maps.items == Keep(maps0, LinkMaps(Ids(Matching(done, test))))
        invariant !more ==> maps.items == Keep(maps0, LinkMaps(Ids(Matching(all, test))))
        decreases |left|, more
      {
        var link: Item<Link> := query.self;
        ghost var items, n := links.items, p;
        more, n := NextMatch(query, links, test, p);
        SweepSteps(all, done, left, items, p, n, test);
        LinkMapsStep(maps0, all, done, left, items, p, n, test);
        assert forall i :: 0 <= i < |links.items| ==> links.items[i] in all;
        assert forall i :: 0 <= i < |maps.items| ==> maps.items[i] in maps0;
        RemoveLink(link, p);
        done, left, p := done + left[..n - p], left[n - p..], n - 1;
      }
    }

    method RemoveSig(sig: Item<Sig>, ghost p: nat)
      requires Valid() && p < |sigs.items| && sig == sigs.items[p]
      modifies sigs, sigs.items, maps, maps.items
      ensures Valid() && sigs.items == old(sigs.items)[..p] + old(sigs.items)[p + 1..]
      ensures forall x :: x in sigs.items ==> x in old(sigs.items)
      ensures forall x :: x in maps.items ==> x in old(maps.items)
      ensures maps.items == Keep(old(maps.items), SigMaps({sig}))
      ensures forall m :: m in maps.items <==>
                m in old(maps.items) && (m.data.removed || (sig !in m.data.srcs && sig != m.data.dst))
      ensures InOrder(maps.items, old(maps.items))
    {
      hide ItemList.Valid, Keep, SigMaps, InOrder;
      OneSigGone(maps.items, sig);
      RemoveMaps(SigMaps({sig}));
      PositionInList(sigs, p);
      sigs.Remove(sig);
    }

    method RemoveSigs(test: Sig -> bool)
      requires Valid()
      modifies sigs, sigs.items, maps, maps.items
      ensures Valid() && sigs.items == Keep(old(sigs.items), test)
      ensures maps.items == Keep(old(maps.items), SigMaps(Matching(old(sigs.items), test)))
      ensures forall m :: m in maps.items <==>
                m in old(maps.items) &&
                (m.data.removed ||
                 forall s :: s in old(sigs.items) && test(s.data) ==> s !in m.data.srcs && s != m.data.dst)
      ensures InOrder(maps.items, old(maps.items))
    {
      hide Keep, Filtering, ItemList.Valid, Sweeping, Matching, SigMaps, InOrder;
      ghost var all, maps0 := sigs.items, maps.items;
      var query, p := NewQuery(sigs, test);
      ghost var done, left := all[..p], all[p..];
      SweepStarts(all, p, test);
      SigMapsStart(maps0, all[..p], test);
      assert all[..|all|] == all;
      var more := query != null;
      while more
        invariant Valid() && (more ==> query != null && fresh(query))
        invariant more ==> Filtering(query, sigs, test) && Sweeping(all, done, left, sigs.items, p, test)
        invariant more ==> left != [] && p < |sigs.items| && query.self == sigs.items[p]
        invariant forall x :: x in sigs.items ==> x in all
        invariant forall x :: x in maps.items ==> x in maps0
        invariant !more ==> sigs.items == Keep(all, test)
        invariant more ==> maps.items == Keep(maps0, SigMaps(Matching(done, test)))
        invariant !more ==> maps.items == Keep(maps0, SigMaps(Matching(all, test)))
        decreases |left|, more
      {
        var sig: Item<Sig> := query.self;
        ghost var items, n := sigs.items, p;
        more, n := NextMatch(query, sigs, test, p);
        SweepSteps(all, done, left, items, p, n, test);
        SigMapsStep(maps0, all, done, left, items, p, n, test);
        assert forall i :: 0 <= i < |sigs.items| ==> sigs.items[i] in all;
        assert forall i :: 0 <= i < |maps.items| ==> maps.items[i] in maps0;
        RemoveSig(sig, p);
        done, left, p := done + left[..n - p], left[n - p..], n - 1;
      }
      MatchingSigsGone(maps0, all, test);
    }

    /** Remove a device with everything that refers to it. */
    method RemoveDev(dev: Item<Dev>)
      requires Valid()
      modifies devs, devs.items, sigs, sigs.items, links, links.items, maps, maps.items
      ensures Valid() && devs.items == Unlisted(old(devs.items), dev)
      ensures forall x :: x in devs.items <==> x in old(devs.items) && x != dev
      ensures sigs.items == Keep(old(sigs.items), DevSigs(dev.data.id))
      ensures links.items == Keep(old(links.items), DevLinks(dev.data.id))
      ensures maps.items == Keep(old(maps.items),
                                 Orphans(dev.data.id, Ids(Matching(old(links.items), DevLinks(dev.data.id)))))
    {
      hide Keep, ItemList.Valid, Ids, SigMaps, DevMaps, LinkMaps, Orphans, Matching, InOrder, Unlisted;
      var d := dev.data.id;
      ghost var maps0, sigs0 := maps.items, sigs.items;
      ghost var ids := Ids(Matching(links.items, DevLinks(d)));
      RemoveMaps(DevMaps(d));
      assert forall i :: 0 <= i < |maps.items| ==> maps.items[i] in maps0;
      RemoveLinks(DevLinks(d));
      assert forall i :: 0 <= i < |maps.items| ==> maps.items[i] in maps0;
      OrphansGo(maps0, d, ids, sigs0);
      RemoveSigs(DevSigs(d));
      Unlist(dev);
    }

    method Unlist(dev: Item<Dev>)
      requires Valid()
      modifies devs, devs.items
      ensures Valid() && devs.items == Unlisted(old(devs.items), dev)
      ensures forall x :: x in devs.items <==> x in old(devs.items) && x != dev
    {
      UnlistedMembers(devs.items, dev);
      hide ItemList.Valid;
      devs.Remove(dev);
    }
  }

  /** After the pass over the device's maps and the maps of its links, the removal of its signals finds no
      further map. */
  lemma OrphansGo(maps: seq<Item<Map>>, d: nat, ids: set<nat>, sigs: seq<Item<Sig>>)
    ensures Keep(Keep(Keep(maps, DevMaps(d)), LinkMaps(ids)), SigMaps(Matching(sigs, DevSigs(d))))
            == Keep(maps, Orphans(d, ids))
  {
    var ss := Matching(sigs, DevSigs(d));
    KeepTwice(maps, DevMaps(d), LinkMaps(ids), Orphans(d, ids));
    forall i | 0 <= i < |maps| && SigMaps(ss)(maps[i].data) ensures DevMaps(d)(maps[i].data) {
      var m := maps[i].data;
      if m.dst !in ss {
        var j :| 0 <= j < |m.srcs| && m.srcs[j] in ss;
        assert m.srcs[j].data.dev == d;
      }
    }
    KeepTwice(maps, Orphans(d, ids), SigMaps(ss), Orphans(d, ids));
  }

  /** What the removal of device d leaves of the three lists does not refer to d, nor to a link or, unless
      flagged as removed, to a signal that went with it. */
  lemma NothingRefers(maps: seq<Item<Map>>, links: seq<Item<Link>>, sigs: seq<Item<Sig>>, d: nat)
    ensures var gone := Matching(links, DevLinks(d));
            var maps' := Keep(maps, Orphans(d, Ids(gone)));
            && (forall s :: s in Keep(sigs, DevSigs(d)) ==> s.data.removed || s.data.dev != d)
            && (forall l :: l in Keep(links, DevLinks(d)) ==> l.data.dev0 != d && l.data.dev1 != d)
            && (forall m :: m in maps' ==>
                  && (m.data.removed || !HasDev(m.data, d))
                  && (forall l :: l in gone ==> l.data.id !in m.data.links)
                  && (forall s :: s in Matching(sigs, DevSigs(d)) && !m.data.removed ==>
                        s !in m.data.srcs && s != m.data.dst))
  {
    var gone := Matching(links, DevLinks(d));
    forall s | s in Keep(sigs, DevSigs(d)) ensures s.data.removed || s.data.dev != d {
      KeepMembers(sigs, DevSigs(d), s);
    }
    forall l | l in Keep(links, DevLinks(d)) ensures l.data.dev0 != d && l.data.dev1 != d {
      KeepMembers(links, DevLinks(d), l);
    }
    forall m | m in Keep(maps, Orphans(d, Ids(gone)))
      ensures m.data.removed || !HasDev(m.data, d)
      ensures forall l :: l in gone ==> l.data.id !in m.data.links
      ensures forall s :: s in Matching(sigs, DevSigs(d)) && !m.data.removed ==> s !in m.data.srcs && s != m.data.dst
    {
      KeepMembers(maps, Orphans(d, Ids(gone)), m);
      assert !DevMaps(d)(m.data) && !LinkMaps(Ids(gone))(m.data);
      forall l | l in gone ensures l.data.id !in m.data.links {
        assert l.data.id in Ids(gone);
      }
    }
  }

  /** Nothing else goes: what does not refer to d, and no map without a link to it, stays in the lists. */
  lemma OthersStay(maps: seq<Item<Map>>, links: seq<Item<Link>>, sigs: seq<Item<Sig>>, d: nat)
    ensures forall s :: s in sigs && s.data.dev != d ==> s in Keep(sigs, DevSigs(d))
    ensures forall l :: l in links && l.data.dev0 != d && l.data.dev1 != d ==> l in Keep(links, DevLinks(d))
    ensures var gone := Matching(links, DevLinks(d));
            forall m :: m in maps && !HasDev(m.data, d) && (forall l :: l in gone ==> l.data.id !in m.data.links)
                        ==> m in Keep(maps, Orphans(d, Ids(gone)))
  {
    forall s | s in sigs && s.data.dev != d ensures s in Keep(sigs, DevSigs(d)) {
      KeepMembers(sigs, DevSigs(d), s);
    }
    forall l | l in links && l.data.dev0 != d && l.data.dev1 != d ensures l in Keep(links, DevLinks(d)) {
      KeepMembers(links, DevLinks(d), l);
    }
    var gone := Matching(links, DevLinks(d));
    forall m | m in maps && !HasDev(m.data, d) && (forall l :: l in gone ==> l.data.id !in m.data.links)
      ensures m in Keep(maps, Orphans(d, Ids(gone)))
    {
      KeepMembers(maps, Orphans(d, Ids(gone)), m);
      assert !DevMaps(d)(m.data) && !LinkMaps(Ids(gone))(m.data);
    }
  }

  predicate NoneLinks(gone: set<Item<Link>>, m: Map) {
    forall l :: l in gone ==> l.data.id !in m.links
  }

  /** Exactly when a record of the device lingers: a map flagged as removed is skipped by the query for the
      device's maps and goes only with one of its links; a signal flagged as removed is skipped too. */
  lemma LingersIff(maps: seq<Item<Map>>, links: seq<Item<Link>>, sigs: seq<Item<Sig>>, d: nat)
    ensures var gone := Matching(links, DevLinks(d));
            && (forall m :: m in Keep(maps, Orphans(d, Ids(gone))) && HasDev(m.data, d) <==>
                            m in maps && HasDev(m.data, d) && m.data.removed && NoneLinks(gone, m.data))
            && (forall s :: s in Keep(sigs, DevSigs(d)) && s.data.dev == d <==>
                            s in sigs && s.data.dev == d && s.data.removed)
  {
    var gone := Matching(links, DevLinks(d));
    var orphan := Orphans(d, Ids(gone));
    forall m ensures m in Keep(maps, orphan) && HasDev(m.data, d) <==>
                     m in maps && HasDev(m.data, d) && m.data.removed && NoneLinks(gone, m.data)
    {
      KeepMembers(maps, orphan, m);
      LinkMapsIff(gone, m.data);
      assert orphan(m.data) <==> DevMaps(d)(m.data) || LinkMaps(Ids(gone))(m.data);
    }
    forall s ensures s in Keep(sigs, DevSigs(d)) <==> s in sigs && !DevSigs(d)(s.data) {
      KeepMembers(sigs, DevSigs(d), s);
    }
  }

  lemma LinkMapsIff(gone: set<Item<Link>>, m: Map)
    ensures LinkMaps(Ids(gone))(m) <==> exists l :: l in gone && l.data.id in m.links
  {
    forall l | l in gone && l.data.id in m.links ensures LinkMaps(Ids(gone))(m) {
      assert l.data.id in Ids(gone);
      var i :| 0 <= i < |m.links| && m.links[i] == l.data.id;
    }
  }
}
