/**
 How a map with several sources is announced to its peers: one call of the sender covers a run of
 sources that share a network link and returns the position of the last one, and the caller goes on
 from there.
 */
module FanOut {
  import opened Wrappers

  type Link = nat

  /** A source slot: the ranks of its device and signal names in the sort order, and the link it is
      reached through. */
  datatype Slot = Slot(device: nat, signal: nat, link: Option<Link>)

  datatype Message = Message(link: Option<Link>, sources: seq<Slot>)

  /** First position after `i` whose link differs from `link`; with no link nothing differs. */
  function RunEnd(src: seq<Slot>, i: nat, link: Option<Link>): (e: nat)
    requires i <= |src|
    ensures i <= e <= |src|
    ensures forall j :: i <= j < e ==> link.None? || src[j].link == link
    ensures e < |src| ==> link.Some? && src[e].link != link
    decreases |src| - i
  {
    if i == |src| || (link.Some? && src[i].link != link) then i else RunEnd(src, i + 1, link)
  }

  /** The successive runs of equal links, in order. */
  function Runs(src: seq<Slot>, i: nat := 0): seq<Message>
    requires i <= |src|
    decreases |src| - i
  {
    if i == |src| then [] else
    var e := RunEnd(src, i + 1, src[i].link);
    [Message(src[i].link, src[i..e])] + Runs(src, e)
  }

  /** One call of the sender.  A negative `idx`, or a map all of whose sources share a link, names
      every source. */
  method SendState(src: seq<Slot>, idx: int, oneSrc: bool) returns (last: int, sources: seq<Slot>)
    requires src != [] && -1 <= idx < |src|
    ensures var start := if oneSrc || idx < 0 then 0 else idx;
            var end := if oneSrc || idx < 0 then |src| else RunEnd(src, idx + 1, src[idx].link);
            last == end - 1 && sources == src[start..end]
  {
    var slot := if oneSrc then -1 else idx;
    var i := if slot >= 0 then slot else 0;
    var link := src[i].link;
    var start := i;
    sources := [];
    while i < |src|
      invariant start <= i <= |src| && sources == src[start..i]
      invariant slot < 0 || i == start || RunEnd(src, i, link) == RunEnd(src, start + 1, link)
    {
      if slot >= 0 && link.Some? && link != src[i].link {
        break;
      }
      sources := sources + [src[i]];
      i := i + 1;
    }
    last := i - 1;
  }

  ghost predicate SameLink(src: seq<Slot>) {
    forall i, j :: 0 <= i < j < |src| ==> src[i].link == src[j].link
  }

  /** The announcing loop of a READY map: every source's link is known. */
  method Announce(src: seq<Slot>, oneSrc: bool) returns (out: seq<Message>)
    requires src != [] && (oneSrc <==> SameLink(src))
    requires forall s :: s in src ==> s.link.Some?
    ensures out == Runs(src)
  {
    out := [];
    var i := 0;
    while i < |src|
      invariant 0 <= i <= |src| && (oneSrc ==> i == 0 || i == |src|)
      invariant out + Runs(src, i) == Runs(src)
    {
      ghost var first := i;
      var link := src[i].link;
      var last, sources := SendState(src, i, oneSrc);
      if oneSrc {
        assert RunEnd(src, first + 1, link) == |src|;
      }
      out := out + [Message(link, sources)];
      i := last + 1;
      assert Runs(src, first) == [Message(link, sources)] + Runs(src, i);
    }
  }

  function Covered(out: seq<Message>): seq<Slot> {
    if out == [] then [] else out[0].sources + Covered(out[1..])
  }

  /** Every source is covered exactly once, in order, by a non-empty message for its own link. */
  lemma {:induction false} RunsPartition(src: seq<Slot>, i: nat)
    requires i <= |src| && forall s :: s in src ==> s.link.Some?
    ensures Covered(Runs(src, i)) == src[i..]
    ensures forall m, s :: m in Runs(src, i) && s in m.sources ==> s.link == m.link
    ensures forall m :: m in Runs(src, i) ==> m.sources != [] && m.link.Some?
    decreases |src| - i
  {
    if i < |src| {
      var e := RunEnd(src, i + 1, src[i].link);
      RunsPartition(src, e);
      assert src[i] in src && src[i..e] + src[e..] == src[i..];
      var out, rest := Runs(src, i), Runs(src, e);
      assert out == [Message(src[i].link, src[i..e])] + rest && out[1..] == rest;
      hide Runs, RunEnd, Covered;
      forall m | m in out ensures m == out[0] || m in rest { }
    }
  }

  /** From position `from` on, sources reached through one link stand next to each other. */
  ghost predicate Grouped(src: seq<Slot>, from: nat := 0) {
    forall i, j, k :: from <= i < j < k < |src| && src[i].link == src[k].link ==> src[j].link == src[i].link
  }

  ghost predicate OnePerLink(out: seq<Message>) {
    forall i, j :: 0 <= i < j < |out| ==> out[i].link != out[j].link
  }

  ghost predicate HasLink(out: seq<Message>, link: Option<Link>) {
    exists k :: 0 <= k < |out| && out[k].link == link
  }

  lemma OnePerLinkCons(m: Message, rest: seq<Message>)
    ensures OnePerLink([m] + rest) <==> OnePerLink(rest) && !HasLink(rest, m.link)
  {
    var all := [m] + rest;
    assert forall k :: 0 <= k < |rest| ==> all[k + 1] == rest[k];
    if OnePerLink(all) {
      forall x, y | 0 <= x < y < |rest| ensures rest[x].link != rest[y].link {
        assert all[x + 1].link != all[y + 1].link;
      }
      forall k | 0 <= k < |rest| ensures rest[k].link != m.link {
        assert all[0].link != all[k + 1].link;
      }
    }
  }

  lemma HasLinkCons(m: Message, rest: seq<Message>, link: Option<Link>)
    ensures HasLink([m] + rest, link) <==> m.link == link || HasLink(rest, link)
  {
    var all := [m] + rest;
    assert all[0] == m && forall k :: 0 <= k < |rest| ==> all[k + 1] == rest[k];
  }

  ghost predicate Reaches(src: seq<Slot>, from: nat, link: Option<Link>) {
    exists j :: from <= j < |src| && src[j].link == link
  }

  /** The links of the runs are the links of the sources. */
  lemma {:induction false} RunsHaveLink(src: seq<Slot>, i: nat, link: Option<Link>)
    requires i <= |src| && forall s :: s in src ==> s.link.Some?
    ensures HasLink(Runs(src, i), link) <==> Reaches(src, i, link)
    decreases |src| - i
  {
    if i < |src| {
      assert src[i] in src;
      var e := RunEnd(src, i + 1, src[i].link);
      RunsHaveLink(src, e, link);
      HasLinkCons(Message(src[i].link, src[i..e]), Runs(src, e), link);
    }
  }

  lemma GroupedCons(src: seq<Slot>, i: nat, e: nat)
    requires i < |src| && src[i].link.Some? && e == RunEnd(src, i + 1, src[i].link)
    ensures Grouped(src, i) <==>
            Grouped(src, e) && !Reaches(src, e, src[i].link)
  {
    if Grouped(src, i) {
      forall j | e <= j < |src| ensures src[j].link != src[i].link {
        if j > e {
          assert i < e < j;
        }
      }
    }
  }

  /** The announcing loop reaches every link once exactly when the sources are grouped by link. */
  lemma {:induction false} OnePerLinkIffGrouped(src: seq<Slot>, i: nat)
    requires i <= |src|
    requires forall s :: s in src ==> s.link.Some?
    ensures OnePerLink(Runs(src, i)) <==> Grouped(src, i)
    decreases |src| - i
  {
    if i < |src| {
      assert src[i] in src;
      var e := RunEnd(src, i + 1, src[i].link);
      OnePerLinkIffGrouped(src, e);
      OnePerLinkCons(Message(src[i].link, src[i..e]), Runs(src, e));
      RunsHaveLink(src, e, src[i].link);
      GroupedCons(src, i, e);
    }
  }

  /** Sources in name order, one link per device. */
  ghost predicate SortedByName(src: seq<Slot>) {
    && (forall i, j :: 0 <= i < j < |src| ==>
          src[i].device < src[j].device || (src[i].device == src[j].device && src[i].signal < src[j].signal))
    && (forall i, j :: 0 <= i < |src| && 0 <= j < |src| ==>
          (src[i].link == src[j].link <==> src[i].device == src[j].device))
  }

  /** A READY map whose sources are in name order sends each distinct link exactly one message, and
      together these messages name every source once. */
  lemma SortedSourcesOneMessagePerLink(src: seq<Slot>)
    requires SortedByName(src) && forall s :: s in src ==> s.link.Some?
    ensures var out := Runs(src);
            && Covered(out) == src && OnePerLink(out)
            && (forall m, s :: m in out && s in m.sources ==> s.link == m.link)
            && (forall s :: s in src ==> HasLink(out, s.link))
  {
    RunsPartition(src, 0);
    OnePerLinkIffGrouped(src, 0);
    forall s | s in src ensures HasLink(Runs(src), s.link) {
      RunsHaveLink(src, 0, s.link);
      var j :| 0 <= j < |src| && src[j] == s;
      assert Reaches(src, 0, s.link);
    }
  }
}
