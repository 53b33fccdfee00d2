/** The intrusive doubly linked lists that tasks are chained into. */
module KernelLists {
  import opened Sequences

  /** One node; `owner` is the task it is embedded in, by its place in the task pool. */
  class ListItem {
    var next: ListItem?
    var prev: ListItem?
    var container: List?
    const owner: nat

    constructor (owner: nat)
      ensures this.owner == owner && container == null
    {
      this.owner := owner;
      next, prev, container := null, null, null;
    }
  }

  function At(items: seq<ListItem>, i: int): ListItem? { if 0 <= i < |items| then items[i] else null }

  class List {
    var head: ListItem?
    var index: ListItem?
    var listEnd: ListItem?
    var num: nat
    ghost var items: seq<ListItem>

    /** An acyclic chain through `items` in both directions, with ends, length, container and
        cursor in agreement. */
    ghost predicate Chain()
      reads this, items
    {
      && Distinct(items)
      && num == |items|
      && head == At(items, 0)
      && listEnd == At(items, |items| - 1)
      && (forall i | 0 <= i < |items| ::
            items[i].container == this && items[i].prev == At(items, i - 1) && items[i].next == At(items, i + 1))
      && (index != null ==> index in items)
    }

    lemma InList(x: ListItem)
      requires Chain() && x in items
      ensures x.container == this
    {
      hide At;
      var i :| 0 <= i < |items| && items[i] == x;
    }

    constructor ()
      ensures Chain() && items == [] && index == null
    {
      head, index, listEnd, num, items := null, null, null, 0, [];
    }

    /** Links `item` in at the end; where there is a cursor, it starts at the first item. */
    method Append(item: ListItem, cursor: bool)
      requires Chain() && item.container == null
      modifies this, items, item
      ensures Chain() && items == old(items) + [item]
      ensures index == if old(items) == [] && cursor then item else old(index)
    {
      hide At;
      ghost var s := items;
      AppendAt(s, item);
      item.container := this;
      item.next := null;
      item.prev := listEnd;
      if listEnd != null {
        listEnd.next := item;
      } else {
        head := item;
        if cursor {
          index := item;
        }
      }
      listEnd := item;
      num := num + 1;
      items := items + [item];
    }

    /** The cursor goes on to the next item, around the end. */
    method Advance()
      requires Chain() && index != null
      modifies this`index
      ensures Chain() && old(index) in items
      ensures index == var i := IndexOf(items, old(index)); if i + 1 < |items| then items[i + 1] else items[0]
    {
      hide At, IndexOf;
      ghost var i: int := IndexOf(items, index);
      AtIs(items, i + 1);
      AtIs(items, 0);
      index := if index.next != null then index.next else head;
    }

    /** Links `item` in before the head. */
    method Prepend(item: ListItem)
      requires Chain() && item.container == null
      modifies this, items, item
      ensures Chain() && items == InsertAt(old(items), 0, item) && index == old(index)
    {
      hide At, InsertAt;
      ghost var s := items;
      InsertItemAt(s, 0, item);
      AtIs(s, 0);
      item.container := this;
      item.next := head;
      item.prev := null;
      if head != null {
        head.prev := item;
      } else {
        listEnd := item;
      }
      head := item;
      num := num + 1;
      items := InsertAt(s, 0, item);
      AtIs(items, 0);
    }

    /** Links `item` in behind `iter`, which is at place `i`. */
    method InsertAfter(iter: ListItem, item: ListItem, ghost i: int)
      requires Chain() && item.container == null && 0 <= i < |items| && items[i] == iter
      modifies this, items, item
      ensures Chain() && items == InsertAt(old(items), i + 1, item) && index == old(index)
    {
      hide At, InsertAt;
      ghost var s := items;
      InsertItemAt(s, i + 1, item);
      AtIs(s, i);
      AtIs(s, i + 1);
      item.container := this;
      item.next := iter.next;
      item.prev := iter;
      if iter.next != null {
        iter.next.prev := item;
      } else {
        listEnd := item;
      }
      iter.next := item;
      num := num + 1;
      items := InsertAt(s, i + 1, item);
      forall j | 0 <= j < |items|
        ensures items[j].container == this && items[j].prev == At(items, j - 1) && items[j].next == At(items, j + 1)
      {
        if j != i + 1 { assert items[j] == s[if j < i + 1 then j else j - 1]; }
      }
    }

    /** Its neighbours are linked past the item at place `i`, whose own links still stand. */
    ghost predicate Stitched(i: int)
      reads this, items
    {
      && Distinct(items) && num == |items| && 0 <= i < |items|
      && head == (if i == 0 then At(items, 1) else At(items, 0))
      && listEnd == (if i == |items| - 1 then At(items, i - 1) else At(items, |items| - 1))
      && (forall j | 0 <= j < |items| ::
            && items[j].container == this
            && items[j].prev == (if j == i + 1 then At(items, i - 1) else At(items, j - 1))
            && items[j].next == (if j == i - 1 then At(items, i + 1) else At(items, j + 1)))
    }

    method Stitch(item: ListItem, ghost i: int)
      requires Chain() && 0 <= i < |items| && items[i] == item
      modifies this`head, this`listEnd, items
      ensures Stitched(i)
    {
      hide At;
      AtIs(items, i - 1);
      AtIs(items, i + 1);
      if item.prev != null {
        item.prev.next := item.next;
      } else {
        head := item.next;
      }
      if item.next != null {
        item.next.prev := item.prev;
      } else {
        listEnd := item.prev;
      }
    }

    /** Unlinks `item`, wherever in the chain it is; a cursor on it moves to its successor, or else
        to the head. */
    method Unlink(item: ListItem)
      requires Chain() && item in items
      modifies this, items
      ensures items == Without(old(items), item) && item.container == null
      ensures index == (if old(index) != item then old(index)
                        else var i := IndexOf(old(items), item); if i + 1 < |old(items)| then old(items)[i + 1] else At(items, 0))
      ensures Chain()
    {
      hide At, IndexOf, Without;
      ghost var i: int := IndexOf(items, item);
      ghost var s := items;
      Stitch(item, i);
      WithoutAt(s, item);
      AtIs(s, i + 1);
      if index == item {
        index := if item.next != null then item.next else head;
      }
      num := num - 1;
      item.next := null;
      item.prev := null;
      item.container := null;
      items := Without(items, item);
      hide Distinct;
      AtIs(items, 0);
      forall j | 0 <= j < |items|
        ensures items[j].container == this && items[j].prev == At(items, j - 1) && items[j].next == At(items, j + 1)
      {
        assert items[j] == s[if j < i then j else j + 1];
        assert items[j] != item;
        assert At(items, j - 1) == if j - 1 < i then At(s, j - 1) else At(s, j);
        assert At(items, j + 1) == if j + 1 < i then At(s, j + 1) else At(s, j + 2);
      }
    }
  }

  lemma AtIs(items: seq<ListItem>, i: int)
    ensures 0 <= i < |items| ==> At(items, i) == items[i]
    ensures !(0 <= i < |items|) ==> At(items, i) == null
  {
  }

  /** What is at each place once `item` is gone. */
  lemma {:induction false} WithoutAt(s: seq<ListItem>, item: ListItem)
    requires Distinct(s) && item in s
    ensures var i := IndexOf(s, item); var w := Without(s, item);
      && |w| == |s| - 1 && Distinct(w) && item !in w
      && (forall x | x in s && x != item :: x in w)
      && (forall j | 0 <= j < |w| :: w[j] == s[if j < i then j else j + 1])
      && (forall j {:trigger At(w, j)} | -1 <= j <= |w| :: At(w, j) == if j < i then At(s, j) else At(s, j + 1))
  {
    WithoutMembers(s, item);
  }

  lemma AppendAt(s: seq<ListItem>, item: ListItem)
    requires Distinct(s) && item !in s
    ensures var w := s + [item];
      && Distinct(w) && (forall x :: x in w <==> x in s || x == item)
      && (forall j {:trigger At(w, j)} :: At(w, j) == if j == |s| then item else At(s, j))
      && (forall j {:trigger At(s, j)} | j < 0 || |s| <= j :: At(s, j) == null) && (|s| > 0 ==> At(s, 0) == s[0] && At(s, |s| - 1) == s[|s| - 1])
  {
    AppendMembers(s, item);
  }

  /** What is at each place once `item` is in. */
  lemma InsertItemAt(s: seq<ListItem>, i: int, item: ListItem)
    requires Distinct(s) && item !in s && 0 <= i <= |s|
    ensures var w := InsertAt(s, i, item);
      && |w| == |s| + 1 && Distinct(w) && w[i] == item && (forall x | x in s :: x in w)
      && (forall j | 0 <= j < |w| && j != i :: w[j] == s[if j < i then j else j - 1])
      && (forall j {:trigger At(w, j)} :: At(w, j) == if j < i then At(s, j) else if j == i then item else At(s, j - 1))
      && (forall j {:trigger At(s, j)} | j < 0 || |s| <= j :: At(s, j) == null) && (|s| > 0 ==> At(s, 0) == s[0] && At(s, |s| - 1) == s[|s| - 1])
  {
    InsertAtMembers(s, i, item);
  }
}
