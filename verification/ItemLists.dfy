/**
 Intrusive singly linked lists: every item carries its own link.
 */
module ItemLists {
  class Item<T> {
    const data: T
    var next: Item?<T>

    constructor (data: T)
      ensures this.data == data && next == null
    {
      this.data := data;
      next := null;
    }
  }

  function Data<T>(items: seq<Item<T>>): (s: seq<T>)
    ensures |s| == |items| && forall i :: 0 <= i < |s| ==> s[i] == items[i].data
  {
    seq(|items|, i requires 0 <= i < |items| => items[i].data)
  }

  /** The item after position i - 1, or null. */
  function Link<T>(items: seq<Item<T>>, i: nat): Item?<T> {
    if i < |items| then items[i] else null
  }

  function Position<T>(items: seq<Item<T>>, item: Item<T>): (p: nat)
    requires item in items
    ensures p < |items| && items[p] == item
  {
    if items[0] == item then 0 else 1 + Position(items[1..], item)
  }

  lemma DropAt<T>(items: seq<Item<T>>, i: nat)
    requires i < |items|
    ensures var rest := items[..i] + items[i + 1..];
            && |rest| == |items| - 1
            && (forall k :: 0 <= k < i ==> rest[k] == items[k])
            && (forall k :: i <= k < |rest| ==> rest[k] == items[k + 1])
  {
  }

  class ItemList<T> {
    var head: Item?<T>
    ghost var items: seq<Item<T>>

    ghost predicate Valid()
      reads this, items
    {
      && head == Link(items, 0)
      && (forall i :: 0 <= i < |items| ==> items[i].next == Link(items, i + 1))
      && (forall i, j :: 0 <= i < j < |items| ==> items[i] != items[j])
    }

    constructor ()
      ensures Valid() && items == []
    {
      head := null;
      items := [];
    }

    method Prepend(item: Item<T>)
      requires Valid() && item !in items
      modifies this, item
      ensures Valid() && items == [item] + old(items)
    {
      item.next := head;
      head := item;
      items := [item] + items;
    }

    method Append(item: Item<T>)
      requires Valid() && item !in items && item.next == null
      modifies this, items
      ensures Valid() && items == old(items) + [item]
    {
      if head == null {
        head := item;
      } else {
        var last: Item<T> := head;
        var node := last.next;
        ghost var i := 0;
        while node != null
          invariant i < |items| && last == items[i] && node == Link(items, i + 1)
          decreases |items| - i
        {
          last := node;
          node := node.next;
          i := i + 1;
        }
        last.next := item;
      }
      items := items + [item];
    }

    /** An item in the list with the item before it; null when it is not in the list. */
    method Locate(item: Item<T>) returns (prev: Item?<T>, node: Item?<T>, ghost i: nat)
      requires Valid()
      ensures i <= |items| && item !in items[..i] && node == Link(items, i) && (node != null ==> node == item)
      ensures prev == if i == 0 then null else items[i - 1]
    {
      prev, node, i := null, head, 0;
      while node != null && node != item
        invariant i <= |items| && node == Link(items, i) && item !in items[..i]
        invariant prev == if i == 0 then null else items[i - 1]
        decreases |items| - i
      {
        prev := node;
        node := node.next;
        i := i + 1;
      }
    }

    /** Unlink the item at position i. */
    method Unlink(prev: Item?<T>, node: Item<T>, ghost i: nat)
      requires Valid() && i < |items| && node == items[i] && prev == if i == 0 then null else items[i - 1]
      modifies this, items
      ensures Valid() && items == old(items)[..i] + old(items)[i + 1..] && node.next == old(node.next)
    {
      ghost var was, rest := items, items[..i] + items[i + 1..];
      DropAt(items, i);
      if prev != null {
        prev.next := node.next;
      } else {
        head := node.next;
      }
      items := rest;
      forall k | 0 <= k < |rest| ensures rest[k].next == Link(rest, k + 1) {
        assert k < i ==> rest[k] == was[k];
        assert k >= i ==> rest[k] == was[k + 1];
      }
    }

    /** Unlink an item, if it is in the list. */
    method Remove(item: Item<T>)
      requires Valid()
      modifies this, items
      ensures Valid() && item.next == old(item.next)
      ensures item !in old(items) ==> items == old(items)
      ensures item in old(items) ==> var p := Position(old(items), item);
                                     items == old(items)[..p] + old(items)[p + 1..]
    {
      var prev, node, i := Locate(item);
      if node == null {
        assert items[..i] == items;
        return;
      }
      PositionIs(items, i);
      Unlink(prev, node, i);
    }
  }

  lemma {:induction false} PositionIs<T>(items: seq<Item<T>>, i: nat)
    requires i < |items| && items[i] !in items[..i]
    ensures Position(items, items[i]) == i
    decreases i
  {
    if i > 0 {
      assert items[..i][0] == items[0] && items[1..][..i - 1] == items[..i][1..];
      PositionIs(items[1..], i - 1);
    }
  }
}
