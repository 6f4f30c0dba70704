/**
 Lazy queries over a list: a cursor whose context is a tree of filters combined by union, intersection
 and difference, or an ordered lookup that restarts the scan after each hit.
 */
module Queries {
  import opened ItemLists
  import opened Wrappers

  datatype Op = Union | Intersection | Difference

  /** What a query asks, and how far it has got.  `Ordered` looks up the sources of a map one after the
      other, `next` first, and, if asked to, reports its destination on the way. */
  datatype Tree<!T(==)> =
    | Filter(test: T -> bool)
    | Ordered(sources: seq<T>, dst: T, wantSrc: bool, wantDst: bool, next: nat)
    | Parallel(op: Op, left: Tree<T>, right: Tree<T>)

  predicate Combine(op: Op, a: bool, b: bool) {
    match op
    case Union => a || b
    case Intersection => a && b
    case Difference => a && !b
  }

  /** Result of comparing an item: 0 no match, 1 match, 2 match and restart the scan.  Both sides of a
      combination are compared and may move on to their next source. */
  function Compared<T(==)>(t: Tree<T>, x: T): (nat, Tree<T>) {
    match t
    case Filter(test) => (if test(x) then 1 else 0, t)
    case Ordered(sources, dst, wantSrc, wantDst, next) =>
      if wantSrc && next < |sources| && x == sources[next] then (2, t.(next := next + 1))
      else (if wantDst && x == dst then 1 else 0, t)
    case Parallel(op, l, r) =>
      var (res1, l') := Compared(l, x);
      var (res2, r') := Compared(r, x);
      (if Combine(op, res1 != 0, res2 != 0) then 1 else 0, Parallel(op, l', r'))
  }

  /** Sources not yet reported. */
  function SourcesLeft<T(==)>(t: Tree<T>): nat {
    match t
    case Filter(_) => 0
    case Ordered(sources, _, _, _, next) => if next < |sources| then |sources| - next else 0
    case Parallel(_, l, r) => SourcesLeft(l) + SourcesLeft(r)
  }

  lemma {:induction false} ComparedProgress<T>(t: Tree<T>, x: T)
    ensures var (res, t') := Compared(t, x);
            SourcesLeft(t') <= SourcesLeft(t) && (res == 2 ==> t.Ordered? && SourcesLeft(t') < SourcesLeft(t))
  {
    if t.Parallel? {
      ComparedProgress(t.left, x);
      ComparedProgress(t.right, x);
    }
  }

  /** Position of the next match from `from` on, or the length of the list; the result of its comparison,
      and what has become of the query. */
  function NextHit<T(==)>(t: Tree<T>, s: seq<T>, from: nat): (r: (nat, nat, Tree<T>))
    ensures from <= |s| ==> from <= r.0 <= |s|
    ensures r.0 < |s| ==> r.1 != 0
    decreases |s| - from
  {
    if from >= |s| then (from, 0, t) else
    var (res, t') := Compared(t, s[from]);
    if res != 0 then (from, res, t') else NextHit(t', s, from + 1)
  }

  lemma {:induction false} NextHitProgress<T>(t: Tree<T>, s: seq<T>, from: nat)
    ensures var (n, res, t') := NextHit(t, s, from);
            SourcesLeft(t') <= SourcesLeft(t) && (n < |s| && res == 2 ==> SourcesLeft(t') < SourcesLeft(t))
    decreases |s| - from
  {
    if from < |s| {
      ComparedProgress(t, s[from]);
      NextHitProgress(Compared(t, s[from]).1, s, from + 1);
    }
  }

  /** Everything a cursor reports when it scans `s` from position `from`. */
  function Walk<T(==)>(t: Tree<T>, s: seq<T>, from: nat): seq<T>
    decreases SourcesLeft(t), |s| - from
  {
    NextHitProgress(t, s, from);
    var (n, res, t') := NextHit(t, s, from);
    if n >= |s| then [] else [s[n]] + if res == 2 then Walk(t', s, 0) else Walk(t', s, n + 1)
  }

  lemma Unfold<T>(t: Tree<T>, s: seq<T>, from: nat)
    ensures var (n, res, t') := NextHit(t, s, from);
            Walk(t, s, from) ==
            if n >= |s| then [] else [s[n]] + Walk(t', s, if res == 2 then 0 else n + 1)
  {
    hide NextHit, Compared, SourcesLeft;
  }

  lemma NoHitAtEnd<T>(t: Tree<T>, s: seq<T>)
    ensures NextHit(t, s, |s|) == (|s|, 0, t)
  {
  }

  lemma HitStep<T>(t: Tree<T>, s: seq<T>, from: nat)
    requires from < |s|
    ensures var (res, t') := Compared(t, s[from]);
            NextHit(t, s, from) == if res != 0 then (from, res, t') else NextHit(t', s, from + 1)
  {
    hide Compared;
  }

  /** A fresh start puts an ordered query back to its first source, but not the parts of a combination. */
  function Restarted<T(==)>(t: Tree<T>): Tree<T> {
    if t.Ordered? then t.(next := 0) else t
  }

  /** A lookup by position: the item, none, or what the code does when the query matches nothing from its
      start on, namely go on with the memory of the freed query. */
  datatype Lookup<+T> = Found(value: T) | NotFound | Dangling

  class Query<T(==)> {
    const start: ItemList<T>
    const kind: Tree<T>
    const left: Query?<T>
    const right: Query?<T>
    ghost const repr: set<Query<T>>
    var self: Item?<T>
    var reset: bool
    var idx: nat

    /** Only constants are involved, so a query stays valid whatever happens to its cursor. */
    ghost predicate Valid()
      decreases repr
    {
      && this in repr
      && (kind.Parallel? ==>
            && left != null && right != null && left in repr && right in repr
            && left.repr < repr && right.repr < repr && this !in left.repr && this !in right.repr
            && left.repr !! right.repr && left.Valid() && right.Valid())
      && (!kind.Parallel? ==> repr == {this})
    }

    /** The query as it stands. */
    ghost function Tree(): Tree<T>
      reads repr`idx
      requires Valid()
      decreases repr
    {
      match kind
      case Filter(_) => kind
      case Ordered(_, _, _, _, _) => kind.(next := idx)
      case Parallel(op, _, _) => Parallel(op, left.Tree(), right.Tree())
    }

    constructor Leaf(start: ItemList<T>, kind: Tree<T>)
      requires !kind.Parallel?
      ensures Valid() && fresh(repr) && repr == {this} && this.start == start && self == start.head && !reset
      ensures this.kind == kind && Tree() == if kind.Ordered? then kind.(next := 0) else kind
    {
      this.start, this.kind, left, right := start, kind, null, null;
      repr := {this};
      self, reset, idx := start.head, false, 0;
    }

    constructor Pair(start: ItemList<T>, op: Op, left: Query<T>, right: Query<T>)
      requires left.Valid() && right.Valid() && left.repr !! right.repr
      ensures Valid() && fresh(this) && repr == {this} + left.repr + right.repr
      ensures this.start == start && self == start.head && !reset
      ensures kind.Parallel? && Tree() == Parallel(op, left.Tree(), right.Tree())
    {
      this.start, this.left, this.right := start, left, right;
      kind := Parallel(op, left.kind, right.kind);
      repr := {this} + left.repr + right.repr;
      self, reset, idx := start.head, false, 0;
    }

    /** Compare one item; an ordered query moves on to its next source when it hits. */
    method Compare(x: T) returns (res: nat)
      requires Valid()
      modifies repr
      ensures forall q :: q in repr ==> q.self == old(q.self)
      ensures reset == old(reset) && (res, Tree()) == Compared(old(Tree()), x)
      decreases repr
    {
      match kind {
        case Filter(test) =>
          res := if test(x) then 1 else 0;
        case Ordered(sources, dst, wantSrc, wantDst, _) =>
          if wantSrc && idx < |sources| && x == sources[idx] {
            idx := idx + 1;
            return 2;
          }
          res := if wantDst && x == dst then 1 else 0;
        case Parallel(op, _, _) =>
          var res1 := left.Compare(x);
          var res2 := right.Compare(x);
          if res1 == 2 {
            left.reset := true;
          }
          if res2 == 2 {
            right.reset := true;
          }
          res := if Combine(op, res1 != 0, res2 != 0) then 1 else 0;
      }
    }

    /** Scan from an item at position `from` for the next match. */
    method Scan(first: Item?<T>, ghost from: nat) returns (item: Item?<T>, res: nat, ghost n: nat)
      requires Valid() && start.Valid() && from <= |start.items| && first == Link(start.items, from)
      modifies repr
      ensures n <= |start.items| && item == Link(start.items, n)
      ensures forall q :: q in repr ==> q.self == old(q.self)
      ensures reset == old(reset) && (n, res, Tree()) == NextHit(old(Tree()), Data(start.items), from)
    {
      hide *;
      ghost var s, goal := Data(start.items), NextHit(Tree(), Data(start.items), from);
      AtItem(start, from);
      item, res, n := first, 0, from;
      while item != null
        invariant from <= n <= |start.items| && item == Link(start.items, n) && res == 0
        invariant forall q :: q in repr ==> q.self == old(q.self)
        invariant reset == old(reset) && goal == NextHit(Tree(), s, n)
        decreases |start.items| - n
      {
        AtItem(start, n);
        HitStep(Tree(), s, n);
        res := Compare(item.data);
        if res != 0 {
          return;
        }
        item := item.next;
        n := n + 1;
      }
      AtItem(start, n);
      NoHitAtEnd(Tree(), s);
    }

    /** Move on to the next match; p is the current position.  False when there is none. */
    method Continue(ghost p: nat) returns (more: bool, ghost n: nat)
      requires Valid() && start.Valid()
      requires p < |start.items| && self == start.items[p]
      modifies repr
      ensures n <= |start.items| && (more <==> n < |start.items|) && (more ==> self == start.items[n])
      ensures var (m, res, t) := NextHit(old(Tree()), Data(start.items), if old(reset) then 0 else p + 1);
              n == m && Tree() == t && (more ==> (reset <==> res == 2))
    {
      hide *;
      Member();
      var first, item, res;
      ghost var from;
      first, from := Resume(p);
      item, res, n := Scan(first, from);
      AtItem(start, n);
      more := item != null;
      if more {
        Settle(item, res);
      }
    }

    lemma Member()
      requires Valid()
      ensures this in repr
    {
    }

    /** Where to go on: after the current item, or from the start of the list. */
    method Resume(ghost p: nat) returns (first: Item?<T>, ghost from: nat)
      requires Valid() && start.Valid() && p < |start.items| && self == start.items[p]
      modifies this`reset
      ensures !reset && Tree() == old(Tree()) && from == if old(reset) then 0 else p + 1
      ensures first == Link(start.items, from)
    {
      first := if reset then start.head else self.next;
      from := if reset then 0 else p + 1;
      reset := false;
    }

    /** Leave the cursor on a match. */
    method Settle(item: Item<T>, res: nat)
      requires Valid() && !reset
      modifies this`self, this`reset
      ensures Tree() == old(Tree()) && self == item && (reset <==> res == 2)
    {
      if res == 2 {
        reset := true;
      }
      self := item;
    }

    /** Go to the first match. */
    method Start() returns (more: bool, ghost n: nat)
      requires Valid() && start.Valid()
      modifies repr
      ensures n <= |start.items| && (more <==> n < |start.items|) && (more ==> self == start.items[n])
      ensures var (m, res, t) := NextHit(Restarted(old(Tree())), Data(start.items), 0);
              n == m && Tree() == t && (more ==> (reset <==> res == 2))
    {
      assert this in repr;
      ghost var t := Restarted(Tree());
      self := start.head;
      if kind.Ordered? {
        idx := 0;
      }
      assert Tree() == t;
      hide Query.Valid, Query.Tree, Compared, SourcesLeft;
      reset := false;
      if self == null {
        return false, 0;
      }
      var res := Compare(self.data);
      t := Tree();
      if res == 2 {
        reset := true;
      }
      assert Tree() == t;
      if res != 0 {
        return true, 0;
      }
      more, n := Continue(0);
    }

    /** What the cursor will still report, the current item included. */
    ghost function Remaining(p: nat): seq<T>
      reads this, repr`idx, start
      requires Valid() && p < |start.items|
    {
      [start.items[p].data] + Walk(Tree(), Data(start.items), if reset then 0 else p + 1)
    }

    /** Move on, in terms of what is left to report. */
    method Next(ghost p: nat) returns (more: bool, ghost n: nat)
      requires Valid() && start.Valid() && p < |start.items| && self == start.items[p]
      modifies repr
      ensures n <= |start.items| && (more ==> n < |start.items| && self == start.items[n])
      ensures more <==> |old(Remaining(p))| > 1
      ensures more ==> old(Remaining(p)) == [start.items[p].data] + Remaining(n)
    {
      hide Compared, NextHit, Walk, SourcesLeft, Query.Valid, Query.Tree, ItemList.Valid;
      ghost var s, from := Data(start.items), if reset then 0 else p + 1;
      Unfold(Tree(), s, from);
      more, n := Continue(p);
      if more {
        assert s[n] == start.items[n].data;
      }
    }

    /** A copy with its own context at every level, at the same place. */
    method Copy() returns (c: Query<T>)
      requires Valid()
      ensures c.Valid() && fresh(c.repr) && c.start == start && c.Tree() == Tree()
      ensures c.self == self && c.reset == reset
      decreases repr, 1
    {
      hide *;
      if kind.Parallel? {
        c := CopyPair();
      } else {
        c := CopyLeaf();
      }
      c.self, c.reset := self, reset;
    }

    lemma Parts()
      requires Valid() && kind.Parallel?
      ensures left != null && right != null && left.Valid() && right.Valid() && left.repr < repr && right.repr < repr
      ensures Tree() == Parallel(kind.op, left.Tree(), right.Tree())
    {
    }

    method CopyPair() returns (c: Query<T>)
      requires Valid() && kind.Parallel?
      ensures c.Valid() && fresh(c.repr) && c in c.repr && c.start == start && c.Tree() == Tree()
      decreases repr, 0
    {
      hide *;
      Parts();
      var l := left.Copy();
      var r := right.Copy();
      c := new Query<T>.Pair(start, kind.op, l, r);
    }

    method CopyLeaf() returns (c: Query<T>)
      requires Valid() && !kind.Parallel?
      ensures c.Valid() && c.repr == {c} && fresh(c) && c.start == start && c.Tree() == Tree()
    {
      c := new Query<T>.Leaf(start, kind);
      c.idx := idx;
    }

    /** Number of items still to be reported, counted on a copy: the cursor itself does not move. */
    method GetSize(ghost p: nat) returns (count: nat)
      requires Valid() && start.Valid() && p < |start.items| && self == start.items[p]
      ensures count == |Remaining(p)|
    {
      hide Compared, NextHit, Walk, SourcesLeft, Query.Valid, Query.Tree, ItemList.Valid;
      count := 1;
      var c := Copy();
      ghost var q: nat := p;
      var more := true;
      while more
        invariant c.Valid() && fresh(c.repr) && c.start == start
        invariant more ==> q < |start.items| && c.self == start.items[q]
        invariant more ==> count + |c.Remaining(q)| == |Remaining(p)| + 1
        invariant !more ==> count == |Remaining(p)|
        decreases more, if more then |c.Remaining(q)| else 0
      {
        more, q := c.Next(q);
        if more {
          count := count + 1;
        }
      }
    }

    /** The k-th item that the query reports from a fresh start. */
    method GetIdx(k: nat) returns (r: Lookup<T>)
      requires Valid() && start.Valid()
      modifies repr
      ensures var all := Walk(Restarted(old(Tree())), Data(start.items), 0);
              r == if k < |all| then Found(all[k]) else if all == [] && start.items != [] then Dangling else NotFound
    {
      hide Compared, NextHit, Walk, SourcesLeft, Query.Valid, Query.Tree, ItemList.Valid, Restarted;
      Unfold(Restarted(Tree()), Data(start.items), 0);
      HeadOf(start);
      var more, p := Start();
      if !more {
        return if start.head == null then NotFound else Dangling;
      }
      r := Forward(p, k);
    }

    /** The k-th item from the present one on. */
    method Forward(ghost at: nat, k: nat) returns (r: Lookup<T>)
      requires Valid() && start.Valid() && at < |start.items| && self == start.items[at]
      modifies repr
      ensures old(Remaining(at)) != []
      ensures r == if k < |old(Remaining(at))| then Found(old(Remaining(at))[k]) else NotFound
    {
      hide Compared, NextHit, Walk, SourcesLeft, Query.Valid, Query.Tree, ItemList.Valid;
      ghost var all := Remaining(at);
      ghost var p: nat := at;
      var i, more := 0, true;
      while more
        invariant Valid() && i <= k && i <= |all|
        invariant more ==> p < |start.items| && self == start.items[p] && Remaining(p) == all[i..]
        invariant !more ==> i == |all|
        decreases |all| - i, more
      {
        if i == k {
          return Found(self.data);
        }
        more, p := Next(p);
        i := i + 1;
      }
      r := NotFound;
    }
  }

  lemma AtItem<T>(list: ItemList<T>, n: nat)
    requires list.Valid() && n <= |list.items|
    ensures |Data(list.items)| == |list.items| && (Link(list.items, n) == null <==> n == |list.items|)
    ensures n < |list.items| ==>
              && Link(list.items, n) == list.items[n] && Data(list.items)[n] == list.items[n].data
              && list.items[n].next == Link(list.items, n + 1)
  {
  }

  lemma HeadOf<T>(list: ItemList<T>)
    requires list.Valid()
    ensures list.head == Link(list.items, 0) && (list.head == null <==> list.items == [])
  {
  }

  // ---------- what a walk reports ----------

  predicate Stateless<T(==)>(t: Tree<T>) {
    match t
    case Filter(_) => true
    case Ordered(_, _, _, _, _) => false
    case Parallel(_, l, r) => Stateless(l) && Stateless(r)
  }

  /** The boolean combination a stateless query stands for. */
  predicate Sat<T(==)>(t: Tree<T>, x: T)
    requires Stateless(t)
  {
    match t
    case Filter(test) => test(x)
    case Parallel(op, l, r) => Combine(op, Sat(l, x), Sat(r, x))
  }

  /** The elements that satisfy a stateless query, in order. */
  function Select<T(==)>(t: Tree<T>, s: seq<T>): seq<T>
    requires Stateless(t)
  {
    if s == [] then [] else (if Sat(t, s[0]) then [s[0]] else []) + Select(t, s[1..])
  }

  lemma {:induction false} StatelessCompared<T>(t: Tree<T>, x: T)
    requires Stateless(t)
    ensures Compared(t, x) == (if Sat(t, x) then 1 else 0, t)
  {
    if t.Parallel? {
      StatelessCompared(t.left, x);
      StatelessCompared(t.right, x);
    }
  }

  lemma {:induction false} StatelessHit<T>(t: Tree<T>, s: seq<T>, from: nat)
    requires Stateless(t) && from <= |s|
    ensures var (n, res, t') := NextHit(t, s, from);
            && t' == t && res != 2 && Select(t, s[from..]) == if n < |s| then [s[n]] + Select(t, s[n + 1..]) else []
    decreases |s| - from
  {
    hide NextHit, Compared, Sat, Stateless;
    if from < |s| {
      StatelessCompared(t, s[from]);
      HitStep(t, s, from);
      assert s[from..][0] == s[from] && s[from..][1..] == s[from + 1..];
      StatelessHit(t, s, from + 1);
    } else {
      NoHitAtEnd(t, s);
    }
  }

  /** Exactness: a stateless query reports exactly the elements that satisfy its boolean combination, in
      the order of the list. */
  lemma {:induction false} WalkIsSelect<T>(t: Tree<T>, s: seq<T>, from: nat)
    requires Stateless(t) && from <= |s|
    ensures Walk(t, s, from) == Select(t, s[from..])
    decreases |s| - from
  {
    hide NextHit, Compared, SourcesLeft, Walk, Select, Sat;
    StatelessHit(t, s, from);
    Unfold(t, s, from);
    var n := NextHit(t, s, from).0;
    if n < |s| {
      WalkIsSelect(t, s, n + 1);
    }
  }

  /** An ordered query changes only when it hits a source. */
  lemma {:induction false} HitAt<T>(t: Tree<T>, s: seq<T>, from: nat, n: nat)
    requires t.Ordered? && from <= n <= |s|
    requires forall i :: from <= i < n ==> Compared(t, s[i]).0 == 0
    requires n < |s| ==> Compared(t, s[n]).0 != 0
    ensures NextHit(t, s, from) == if n < |s| then (n, Compared(t, s[n]).0, Compared(t, s[n]).1) else (n, 0, t)
    decreases n - from
  {
    if from < n {
      assert Compared(t, s[from]).1 == t;
      HitAt(t, s, from + 1, n);
    }
  }

  /** How many of the sources, from `next` on, are in the list before one is missing. */
  function Present<T(==)>(sources: seq<T>, s: seq<T>, next: nat): (k: nat)
    requires next <= |sources|
    ensures next <= k <= |sources| && (forall i :: next <= i < k ==> sources[i] in s)
    ensures k < |sources| ==> sources[k] !in s
    decreases |sources| - next
  {
    if next == |sources| || sources[next] !in s then next else Present(sources, s, next + 1)
  }

  function IndexOf<T(==)>(x: T, s: seq<T>): (i: nat)
    requires x in s
    ensures i < |s| && s[i] == x && x !in s[..i]
  {
    if s[0] == x then 0 else 1 + IndexOf(x, s[1..])
  }

  /** An ordered query for the sources alone reports them in slot order, however the list is ordered, up
      to the first one that the list lacks. */
  lemma {:induction false} WalkIsSlotOrder<T>(sources: seq<T>, dst: T, next: nat, s: seq<T>)
    requires next <= |sources|
    ensures Walk(Ordered(sources, dst, true, false, next), s, 0) == sources[next..Present(sources, s, next)]
    decreases |sources| - next
  {
    var t := Ordered(sources, dst, true, false, next);
    hide NextHit, Walk, SourcesLeft, IndexOf;
    Unfold(t, s, 0);
    if next < |sources| && sources[next] in s {
      HitAt(t, s, 0, IndexOf(sources[next], s));
      WalkIsSlotOrder(sources, dst, next + 1, s);
    } else {
      HitAt(t, s, 0, |s|);
    }
  }

  /** Started over, such a query reports them from the first one on, wherever it was; a combination goes on
      from where its parts are. */
  lemma RestartReportsAll<T>(sources: seq<T>, dst: T, next: nat, s: seq<T>, op: Op, a: Tree<T>, b: Tree<T>)
    ensures Walk(Restarted(Ordered(sources, dst, true, false, next)), s, 0) == sources[..Present(sources, s, 0)]
    ensures Walk(Restarted(Parallel(op, a, b)), s, 0) == Walk(Parallel(op, a, b), s, 0)
  {
    WalkIsSlotOrder(sources, dst, 0, s);
  }

  /** Asked for the destination alone, it reports that like a filter, and no source; asked for neither,
      nothing. */
  lemma {:induction false} WithoutSources<T>(sources: seq<T>, dst: T, wantDst: bool, next: nat,
                                             test: T -> bool, s: seq<T>, from: nat)
    requires from <= |s| && forall x :: test(x) <==> wantDst && x == dst
    ensures Walk(Ordered(sources, dst, false, wantDst, next), s, from) == Walk(Filter(test), s, from)
    decreases |s| - from
  {
    var t := Ordered(sources, dst, false, wantDst, next);
    hide Walk, NextHit, SourcesLeft;
    if from < |s| {
      WithoutSources(sources, dst, wantDst, next, test, s, from + 1);
      WalkStep(t, s, from);
      WalkStep(Filter(test), s, from);
    } else {
      Unfold(t, s, from);
      Unfold(Filter(test), s, from);
      NoHitAtEnd(t, s);
      NoHitAtEnd(Filter(test), s);
    }
  }

  lemma WalkStep<T>(t: Tree<T>, s: seq<T>, from: nat)
    requires from < |s|
    ensures var (res, t') := Compared(t, s[from]);
            Walk(t, s, from) ==
            if res == 0 then Walk(t', s, from + 1) else [s[from]] + Walk(t', s, if res == 2 then 0 else from + 1)
  {
    hide Walk, NextHit, Compared, SourcesLeft;
    HitStep(t, s, from);
    Unfold(t, s, from);
    Unfold(Compared(t, s[from]).1, s, from + 1);
  }

  function Count<T(==)>(x: T, s: seq<T>): nat {
    if s == [] then 0 else (if s[0] == x then 1 else 0) + Count(x, s[1..])
  }

  /** Sources, from `next` on, that come after the destination in the list. */
  function Behind<T(==)>(sources: seq<T>, dst: T, next: nat, s: seq<T>): nat
    requires next <= |sources| && dst in s && forall x :: x in sources ==> x in s
    decreases |sources| - next
  {
    if next == |sources| then 0
    else (if IndexOf(dst, s) < IndexOf(sources[next], s) then 1 else 0) + Behind(sources, dst, next + 1, s)
  }

  lemma SourceHit<T>(sources: seq<T>, dst: T, next: nat, s: seq<T>, from: nat, b: nat)
    requires next < |sources| && from <= b < |s| && s[b] == sources[next]
    requires forall i :: from <= i < b ==> s[i] != s[b] && s[i] != dst
    ensures Walk(Ordered(sources, dst, true, true, next), s, from) ==
            [s[b]] + Walk(Ordered(sources, dst, true, true, next + 1), s, 0)
  {
    hide NextHit, Walk, SourcesLeft;
    Unfold(Ordered(sources, dst, true, true, next), s, from);
    HitAt(Ordered(sources, dst, true, true, next), s, from, b);
  }

  lemma DestinationHit<T>(sources: seq<T>, dst: T, next: nat, s: seq<T>, from: nat, d: nat)
    requires next <= |sources| && from <= d < |s| && s[d] == dst
    requires forall i :: from <= i < d ==> s[i] != dst
    requires next < |sources| ==> forall i :: from <= i <= d ==> s[i] != sources[next]
    ensures Walk(Ordered(sources, dst, true, true, next), s, from) ==
            [dst] + Walk(Ordered(sources, dst, true, true, next), s, d + 1)
  {
    hide NextHit, Walk, SourcesLeft;
    Unfold(Ordered(sources, dst, true, true, next), s, from);
    HitAt(Ordered(sources, dst, true, true, next), s, from, d);
  }

  /** Up to its next source such a query reports that source, and before it the destination if that is met
      first. */
  lemma UpToNextSource<T>(sources: seq<T>, dst: T, next: nat, s: seq<T>)
    requires next < |sources| && dst in s && sources[next] in s
    requires forall i, j :: 0 <= i < j < |s| ==> s[i] != s[j]
    ensures Walk(Ordered(sources, dst, true, true, next), s, 0) ==
            (if IndexOf(dst, s) < IndexOf(sources[next], s) then [dst] else []) +
            ([sources[next]] + Walk(Ordered(sources, dst, true, true, next + 1), s, 0))
  {
    var d, b := IndexOf(dst, s), IndexOf(sources[next], s);
    hide *;
    if b <= d {
      SourceHit(sources, dst, next, s, 0, b);
    } else {
      DestinationHit(sources, dst, next, s, 0, d);
      SourceHit(sources, dst, next, s, d + 1, b);
    }
  }

  lemma BehindLastSource<T>(sources: seq<T>, dst: T, s: seq<T>)
    requires dst in s && forall i, j :: 0 <= i < j < |s| ==> s[i] != s[j]
    ensures Walk(Ordered(sources, dst, true, true, |sources|), s, 0) == [dst]
  {
    hide NextHit, Walk, SourcesLeft, IndexOf;
    var t, d := Ordered(sources, dst, true, true, |sources|), IndexOf(dst, s);
    DestinationHit(sources, dst, |sources|, s, 0, d);
    Unfold(t, s, d + 1);
    HitAt(t, s, d + 1, |s|);
  }

  /** Asked for sources and destination together, an ordered query reports the destination once more for
      every source that the list holds behind it, and once for each time it is itself a source. */
  lemma {:induction false} DestinationReports<T>(sources: seq<T>, dst: T, next: nat, s: seq<T>)
    requires next <= |sources| && dst in s && forall x :: x in sources ==> x in s
    requires forall i, j :: 0 <= i < j < |s| ==> s[i] != s[j]
    ensures Count(dst, Walk(Ordered(sources, dst, true, true, next), s, 0)) ==
            1 + Behind(sources, dst, next, s) + Count(dst, sources[next..])
    decreases |sources| - next
  {
    hide Walk, IndexOf, Behind, Count;
    BehindStep(sources, dst, next, s);
    if next == |sources| {
      BehindLastSource(sources, dst, s);
      CountStep(dst, dst, []);
      assert [dst] + [] == [dst] && sources[next..] == [];
    } else {
      var x, rest := sources[next], Walk(Ordered(sources, dst, true, true, next + 1), s, 0);
      UpToNextSource(sources, dst, next, s);
      DestinationReports(sources, dst, next + 1, s);
      CountStep(dst, x, rest);
      CountStep(dst, x, sources[next + 1..]);
      CountStep(dst, dst, [x] + rest);
      assert sources[next..] == [x] + sources[next + 1..] && [] + ([x] + rest) == [x] + rest;
    }
  }

  lemma CountStep<T>(x: T, y: T, s: seq<T>)
    ensures Count(x, [y] + s) == (if x == y then 1 else 0) + Count(x, s) && Count(x, []) == 0
  {
    assert ([y] + s)[1..] == s;
  }

  lemma BehindStep<T>(sources: seq<T>, dst: T, next: nat, s: seq<T>)
    requires next <= |sources| && dst in s && forall x :: x in sources ==> x in s
    ensures Behind(sources, dst, next, s) ==
            if next == |sources| then 0
            else (if IndexOf(dst, s) < IndexOf(sources[next], s) then 1 else 0) + Behind(sources, dst, next + 1, s)
  {
  }

  // ---------- combinations ----------

  /** Union, intersection or difference of two lists: a query over the first one's items, or null when
      it has no result.  The operands go on from where they are. */
  method Join<T(==)>(op: Op, a: Query?<T>, b: Query?<T>) returns (q: Query?<T>, ghost n: nat)
    requires a != null ==> a.Valid() && a.start.Valid()
    requires b != null ==> b.Valid()
    requires a != null && b != null ==> a.repr !! b.repr
    modifies if a != null then a.repr else {}, if b != null then b.repr else {}
    ensures a == null ==> q == if op.Union? then b else null
    ensures a != null && b == null ==> q == if op.Intersection? then null else a
    ensures a != null && b != null ==>
              var all := Walk(Parallel(op, old(a.Tree()), old(b.Tree())), Data(a.start.items), 0);
              (q == null <==> all == [])
              && (q != null ==> q.Valid() && q.start == a.start && n < |a.start.items|
                                && q.self == a.start.items[n] && q.Remaining(n) == all)
  {
    hide Compared, NextHit, Walk, SourcesLeft, Query.Valid, Query.Tree, ItemList.Valid;
    n := 0;
    if a == null {
      return if op.Union? then b else null, 0;
    }
    if b == null {
      return if op.Intersection? then null else a, 0;
    }
    var c := new Query<T>.Pair(a.start, op, a, b);
    Unfold(c.Tree(), Data(a.start.items), 0);
    var more;
    more, n := c.Start();
    q := if more then c else null;
  }

  /** Joined, stateless operands: a union has the elements that either one stands for, an intersection those
      of both, and a difference those of the first that are not of the second. */
  lemma JoinIsCombination<T>(a: Tree<T>, b: Tree<T>, s: seq<T>, x: T)
    requires Stateless(a) && Stateless(b)
    ensures x in Walk(Parallel(Union, a, b), s, 0) <==> x in s && (Sat(a, x) || Sat(b, x))
    ensures x in Walk(Parallel(Intersection, a, b), s, 0) <==> x in s && Sat(a, x) && Sat(b, x)
    ensures x in Walk(Parallel(Difference, a, b), s, 0) <==> x in s && Sat(a, x) && !Sat(b, x)
  {
    WalkMembers(Parallel(Union, a, b), s, x);
    WalkMembers(Parallel(Intersection, a, b), s, x);
    WalkMembers(Parallel(Difference, a, b), s, x);
  }

  lemma WalkMembers<T>(t: Tree<T>, s: seq<T>, x: T)
    requires Stateless(t)
    ensures x in Walk(t, s, 0) <==> x in s && Sat(t, x)
  {
    WalkIsSelect(t, s, 0);
    assert s[0..] == s;
    SelectMembers(t, s, x);
  }

  /** Of single filters: the elements that pass the tests accordingly. */
  lemma JoinOfFilters<T>(p: T -> bool, q: T -> bool, s: seq<T>, x: T)
    ensures x in Walk(Filter(p), s, 0) <==> x in s && p(x)
    ensures x in Walk(Parallel(Union, Filter(p), Filter(q)), s, 0) <==> x in s && (p(x) || q(x))
    ensures x in Walk(Parallel(Intersection, Filter(p), Filter(q)), s, 0) <==> x in s && p(x) && q(x)
    ensures x in Walk(Parallel(Difference, Filter(p), Filter(q)), s, 0) <==> x in s && p(x) && !q(x)
  {
    WalkMembers(Filter(p), s, x);
    JoinIsCombination(Filter(p), Filter(q), s, x);
  }

  lemma {:induction false} SelectMembers<T>(t: Tree<T>, s: seq<T>, x: T)
    requires Stateless(t)
    ensures x in Select(t, s) <==> x in s && Sat(t, x)
  {
    if s != [] {
      assert s == [s[0]] + s[1..];
      SelectMembers(t, s[1..], x);
    }
  }

  /** What one pass over the list finds of the sources, taken in slot order. */
  function OnePass<T(==)>(sources: seq<T>, s: seq<T>): seq<T> {
    if sources == [] || s == [] then []
    else if s[0] == sources[0] then [s[0]] + OnePass(sources[1..], s[1..])
    else OnePass(sources, s[1..])
  }

  /** Inside an intersection an ordered query does not restart: of its sources, from the next one on, only
      those are reported that one pass over the list finds in slot order. */
  lemma {:induction false} IntersectedIsOnePass<T>(sources: seq<T>, dst: T, next: nat, test: T -> bool, s: seq<T>,
                                                   from: nat)
    requires next <= |sources| && from <= |s|
    ensures Walk(Parallel(Intersection, Ordered(sources, dst, true, false, next), Filter(test)), s, from) ==
            Select(Filter(test), OnePass(sources[next..], s[from..]))
    decreases |s| - from
  {
    var t := Parallel(Intersection, Ordered(sources, dst, true, false, next), Filter(test));
    var rest := s[from..];
    if from < |s| {
      assert rest[1..] == s[from + 1..];
      var hit := next < |sources| && s[from] == sources[next];
      if hit {
        assert sources[next..][1..] == sources[next + 1..];
        IntersectedIsOnePass(sources, dst, next + 1, test, s, from + 1);
        var found := OnePass(sources[next + 1..], s[from + 1..]);
        assert ([s[from]] + found)[1..] == found;
      } else {
        IntersectedIsOnePass(sources, dst, next, test, s, from + 1);
      }
      Advance(t, s, from);
    }
  }

  /** A step of the walk, for an item that matches or not, when no restart is due. */
  lemma Advance<T>(t: Tree<T>, s: seq<T>, from: nat)
    requires from < |s| && t.Parallel?
    ensures var (res, t') := Compared(t, s[from]);
            Walk(t, s, from) == (if res != 0 then [s[from]] else []) + Walk(t', s, from + 1)
  {
    hide Compared, NextHit, Walk, SourcesLeft;
    var (res, t') := Compared(t, s[from]);
    NoRestart(t, s[from]);
    HitStep(t, s, from);
    Unfold(t, s, from);
    Unfold(t', s, from + 1);
  }

  lemma NoRestart<T>(t: Tree<T>, x: T)
    ensures !t.Ordered? ==> Compared(t, x).0 != 2
  {
    ComparedProgress(t, x);
  }

  /** Positions at which `sources` occur in `s`, one after the other. */
  ghost predicate At<T>(sources: seq<T>, s: seq<T>, at: seq<nat>) {
    && |at| == |sources|
    && (forall i :: 0 <= i < |at| ==> at[i] < |s| && s[at[i]] == sources[i])
    && (forall i, j :: 0 <= i < j < |at| ==> at[i] < at[j])
  }

  /** The elements of `sources` occur in `s` one after the other. */
  ghost predicate InOrder<T>(sources: seq<T>, s: seq<T>) {
    exists at :: At(sources, s, at)
  }

  lemma OrderKeptBehind<T>(sources: seq<T>, s: seq<T>)
    requires s != [] && InOrder(sources, s[1..])
    ensures InOrder(sources, s)
    ensures InOrder([s[0]] + sources, s)
  {
    var at :| At(sources, s[1..], at);
    var up := seq(|at|, i requires 0 <= i < |at| => at[i] + 1);
    assert At(sources, s, up);
    assert At([s[0]] + sources, s, [0] + up);
  }

  lemma OrderWithoutFirst<T>(sources: seq<T>, s: seq<T>)
    requires sources != [] && s != [] && InOrder(sources, s)
    ensures s[0] != sources[0] ==> InOrder(sources, s[1..])
    ensures InOrder(sources[1..], s[1..])
  {
    var at :| At(sources, s, at);
    assert forall i :: 0 < i < |at| ==> at[0] < at[i];
    var tail := seq(|at| - 1, i requires 0 <= i < |at| - 1 => at[i + 1] - 1);
    forall i | 0 <= i < |tail| ensures tail[i] < |s[1..]| && s[1..][tail[i]] == sources[1..][i] {
      assert s[at[i + 1]] == sources[i + 1];
    }
    assert At(sources[1..], s[1..], tail);
    if s[0] != sources[0] {
      assert at[0] > 0;
      assert At(sources, s[1..], seq(|at|, i requires 0 <= i < |at| => at[i] - 1));
    }
  }

  /** One pass finds all sources exactly when the list holds them in slot order. */
  lemma {:induction false} OnePassFindsAllIff<T>(sources: seq<T>, s: seq<T>)
    ensures OnePass(sources, s) == sources <==> InOrder(sources, s)
  {
    if sources == [] {
      assert At(sources, s, []);
    } else if s != [] {
      OnePassFindsAllIff(if s[0] == sources[0] then sources[1..] else sources, s[1..]);
      if InOrder(sources, s) { OrderWithoutFirst(sources, s); }
      hide InOrder;
      var tail := if s[0] == sources[0] then sources[1..] else sources;
      if InOrder(tail, s[1..]) { OrderKeptBehind(tail, s); }
      if s[0] == sources[0] {
        assert sources == [s[0]] + tail;
        assert ([s[0]] + OnePass(tail, s[1..]))[1..] == OnePass(tail, s[1..]);
      }
    } else {
      forall at: seq<nat> ensures !At(sources, s, at) {
        if |at| > 0 { assert !(at[0] < |s|); }
      }
    }
  }

  /** A query for the sources is handed out after its first hit, so intersecting it never reports the first
      source again. */
  lemma FirstSourceIsLost<T>(sources: seq<T>, dst: T, test: T -> bool, s: seq<T>)
    requires sources != [] && sources[0] in s && sources[0] !in sources[1..]
    ensures var (n, res, t) := NextHit(Ordered(sources, dst, true, false, 0), s, 0);
            && n < |s| && s[n] == sources[0] && t.Ordered? && t.next == 1
            && sources[0] !in Walk(Parallel(Intersection, t, Filter(test)), s, 0)
  {
    HitAt(Ordered(sources, dst, true, false, 0), s, 0, IndexOf(sources[0], s));
    IntersectedIsOnePass(sources, dst, 1, test, s, 0);
    SelectMembers(Filter(test), OnePass(sources[1..], s[0..]), sources[0]);
    OnePassMembers(sources[1..], s[0..], sources[0]);
  }

  lemma {:induction false} OnePassMembers<T>(sources: seq<T>, s: seq<T>, x: T)
    ensures x in OnePass(sources, s) ==> x in sources
  {
    if sources != [] && s != [] {
      OnePassMembers(sources[1..], s[1..], x);
      OnePassMembers(sources, s[1..], x);
    }
  }
}
