/** The intrusive doubly linked list: a sequence of items, kept in their links. */
module DlList {

  /** Where the first x is in s, or the length of s. */
  ghost function Position<T>(s: seq<T>, x: T): (r: nat)
    ensures r <= |s| && (x in s <==> r < |s|)
    ensures r < |s| ==> s[r] == x
    ensures forall i :: 0 <= i < r ==> s[i] != x
  {
    if s == [] || s[0] == x then 0 else 1 + Position(s[1..], x)
  }

  ghost predicate NoDuplicates<T>(s: seq<T>) { forall i, j :: 0 <= i < j < |s| ==> s[i] != s[j] }

  /** What dl_index answers: a position that starts at one, or zero. */
  ghost function Index<T>(s: seq<T>, x: T): nat { if x in s then Position(s, x) + 1 else 0 }

  ghost function Inserted<T>(s: seq<T>, k: nat, x: T): seq<T>
    requires k <= |s|
  {
    s[..k] + [x] + s[k..]
  }

  ghost function Removed<T>(s: seq<T>, k: nat): seq<T>
    requires k < |s|
  {
    s[..k] + s[k + 1..]
  }

  /** DL_ITEM_FIELDS. */
  class Item {
    var dl: List?
    var next: Item?
    var prev: Item?
    var id: nat

    constructor ()
      ensures dl == null && next == null && prev == null
    {
      dl, next, prev, id := null, null, null, 0;
    }

    /** check_links: whether the item has any link. */
    predicate HasLinks()
      reads this
    {
      prev != null || next != null || dl != null
    }
  }

  /** The item at a place of s, or none outside of it. */
  function At(s: seq<Item>, i: int): (r: Item?) { if 0 <= i < |s| then s[i] else null }

  class List {
    var head: Item?
    var tail: Item?
    var count: nat
    var lastId: nat
    ghost var items: seq<Item>

    /** Item i of s belongs to this list, and its links are to its neighbours. */
    ghost predicate Linked(s: seq<Item>, i: nat)
      requires i < |s|
      reads s
    {
      s[i].dl == this && s[i].next == At(s, i + 1) && s[i].prev == At(s, i - 1)
    }

    ghost predicate Links(s: seq<Item>)
      reads s
    {
      forall i :: 0 <= i < |s| ==> Linked(s, i)
    }

    ghost predicate Ids(s: seq<Item>, last: nat)
      reads s`id
    {
      && (forall i :: 0 <= i < |s| ==> 0 < s[i].id <= last)
      && (forall i, j :: 0 <= i < j < |s| ==> s[i].id != s[j].id)
    }

    /** Forward and backward links run through the same items in opposite orders, the count is their number, and
        their ids are distinct and were all given out. */
    ghost predicate Valid()
      reads this, items
    {
      && NoDuplicates(items) && Links(items) && Ids(items, lastId)
      && head == At(items, 0) && tail == At(items, |items| - 1) && count == |items|
    }

    /** A new item at place k, with the id after the last one. */
    ghost predicate Took(was: seq<Item>, last: nat, k: nat, item: Item)
      requires k <= |was|
      reads this, item
    {
      items == Inserted(was, k, item) && item.id == lastId == last + 1
    }

    constructor ()
      ensures Valid() && items == [] && lastId == 0
    {
      head, tail, count, lastId, items := null, null, 0, 0, [];
    }

    lemma Unlinked(item: Item)
      requires Valid() && item.dl == null
      ensures item !in items
    {
      assert item in items ==> Linked(items, Position(items, item));
    }

    /** The links of s with x put in front of place k. */
    ghost predicate Spliced(s: seq<Item>, k: nat, x: Item)
      reads s, x
    {
      && x.dl == this && x.next == At(s, k) && x.prev == At(s, k - 1)
      && forall i :: 0 <= i < |s| ==>
           && s[i].dl == this
           && s[i].next == (if i + 1 == k then x else At(s, i + 1))
           && s[i].prev == (if i == k then x else At(s, i - 1))
    }

    lemma SplicedLinks(s: seq<Item>, k: nat, x: Item)
      requires k <= |s| && Spliced(s, k, x)
      ensures Links(Inserted(s, k, x))
    {
      var t := Inserted(s, k, x);
      forall i | 0 <= i < |t|
        ensures Linked(t, i)
      {
        if i < k {
          assert t[i] == s[i];
        } else if i > k {
          assert t[i] == s[i - 1];
        }
      }
    }

    lemma InsertedIds(s: seq<Item>, k: nat, x: Item, last: nat)
      requires k <= |s| && Ids(s, last) && x.id == last + 1
      ensures Ids(Inserted(s, k, x), last + 1)
    {
      var t := Inserted(s, k, x);
      forall i | 0 <= i < |t|
        ensures t[i] == if i < k then s[i] else if i == k then x else s[i - 1]
      {
      }
    }

    lemma InsertedDistinct(s: seq<Item>, k: nat, x: Item)
      requires k <= |s| && NoDuplicates(s) && x !in s
      ensures NoDuplicates(Inserted(s, k, x))
    {
      var t := Inserted(s, k, x);
      forall i | 0 <= i < |t|
        ensures t[i] == if i < k then s[i] else if i == k then x else s[i - 1]
      {
      }
    }

    lemma InsertedEnds(s: seq<Item>, k: nat, x: Item)
      requires k <= |s|
      ensures var t := Inserted(s, k, x);
              && |t| == |s| + 1
              && At(t, 0) == (if k == 0 then x else At(s, 0))
              && At(t, |s|) == (if k == |s| then x else At(s, |s| - 1))
    {
    }

    /** Once the links are right around it, a new item is counted, numbered and owned. */
    method Admit(item: Item, ghost k: nat)
      requires k <= |items| && count == |items| && NoDuplicates(items) && Ids(items, lastId) && item !in items
      requires head == (if k == 0 then item else At(items, 0))
      requires tail == (if k == |items| then item else At(items, |items| - 1))
      requires Around(items, k, item)
      modifies this`count, this`lastId, this`items, item`id, item`dl
      ensures Valid() && Took(old(items), old(lastId), k, item)
    {
      hide Inserted, NoDuplicates, Ids, Links, At;
      ghost var s := items;
      InsertedEnds(s, k, item);
      InsertedDistinct(s, k, item);
      count, lastId := count + 1, lastId + 1;
      item.id, item.dl := lastId, this;
      assert forall i :: 0 <= i < |s| ==> s[i] in s;
      assert Spliced(s, k, item);
      SplicedLinks(s, k, item);
      InsertedIds(s, k, item, lastId - 1);
      items := Inserted(s, k, item);
    }

    /** Spliced, but for the owner of the new item. */
    ghost predicate Around(s: seq<Item>, k: nat, x: Item)
      reads s, x
    {
      && x.next == At(s, k) && x.prev == At(s, k - 1)
      && forall i :: 0 <= i < |s| ==>
           && s[i].dl == this
           && s[i].next == (if i + 1 == k then x else At(s, i + 1))
           && s[i].prev == (if i == k then x else At(s, i - 1))
    }

    lemma LinksAre()
      requires Valid()
      ensures forall i :: 0 <= i < |items| ==>
                && items[i].dl == this
                && items[i].next == At(items, i + 1)
                && items[i].prev == At(items, i - 1)
    {
      hide At;
      forall i | 0 <= i < |items|
        ensures items[i].dl == this && items[i].next == At(items, i + 1) && items[i].prev == At(items, i - 1)
      {
        assert Linked(items, i);
      }
    }

    /** The links of a new last item. */
    method LinkLast(item: Item)
      requires Valid() && item.dl == null
      modifies this`head, this`tail, item`prev, item`next, items`next
      ensures head == (if items == [] then item else old(head)) && tail == item
      ensures Around(items, |items|, item)
    {
      hide Links, Linked, At, NoDuplicates, Ids;
      Unlinked(item);
      LinksAre();
      Place(items, |items| - 1);
      Place(items, |items|);
      if tail == null {
        item.prev, item.next := null, null;
        head, tail := item, item;
      } else {
        item.prev, item.next := tail, null;
        tail.next := item;
        tail := item;
      }
    }

    /** The links of a new first item. */
    method LinkFirst(item: Item)
      requires Valid() && item.dl == null
      modifies this`head, this`tail, item`prev, item`next, items`prev
      ensures head == item && tail == (if items == [] then item else old(tail))
      ensures Around(items, 0, item)
    {
      hide Links, Linked, At, NoDuplicates, Ids;
      Unlinked(item);
      LinksAre();
      Place(items, -1);
      Place(items, 0);
      if head == null {
        item.prev, item.next := null, null;
        head, tail := item, item;
      } else {
        item.prev, item.next := null, head;
        head.prev := item;
        head := item;
      }
    }

    /** The links of a new item between the items of places k - 1 and k. */
    method LinkBetween(item: Item, before: Item, after: Item, ghost k: nat)
      requires Valid() && item.dl == null && 0 < k < |items| && before == items[k - 1] && after == items[k]
      modifies item`prev, item`next, before`next, after`prev
      ensures Around(items, k, item)
    {
      hide Links, Linked, At, NoDuplicates, Ids;
      Unlinked(item);
      LinksAre();
      Place(items, k - 1);
      Place(items, k);
      before.next := item;
      item.next := after;
      item.prev := before;
      after.prev := item;
    }

    /** dl_add. */
    method Add(item: Item) returns (r: int)
      requires Valid()
      modifies this, item, items`next
      ensures Valid()
      ensures if old(item.HasLinks()) then r == -1 && unchanged(this) && unchanged(item) && unchanged(old(items))
              else r == 0 && Took(old(items), old(lastId), |old(items)|, item)
    {
      hide Links, NoDuplicates, Ids, Inserted, At, Around;
      if item.HasLinks() {
        return -1;
      }
      Unlinked(item);
      LinkLast(item);
      Admit(item, |items|);
      return 0;
    }

    /** dl_insert. */
    method Insert(item: Item) returns (r: int)
      requires Valid()
      modifies this, item, items`prev
      ensures Valid()
      ensures if old(item.HasLinks()) then r == -1 && unchanged(this) && unchanged(item) && unchanged(old(items))
              else r == 0 && Took(old(items), old(lastId), 0, item)
    {
      hide Links, NoDuplicates, Ids, Inserted, At, Around;
      if item.HasLinks() {
        return -1;
      }
      Unlinked(item);
      LinkFirst(item);
      Admit(item, 0);
      return 0;
    }

    lemma Neighbours(curr: Item)
      requires Valid() && curr in items
      ensures var k := Position(items, curr);
              curr.dl == this && curr.prev == At(items, k - 1) && curr.next == At(items, k + 1)
    {
      hide At;
      assert Linked(items, Position(items, curr));
    }

    /** dl_insert_before: a null `curr` stands for the first item. */
    method InsertBefore(curr: Item?, item: Item) returns (r: int)
      requires Valid() && (curr != null ==> curr in items)
      modifies this, item, items`prev, items`next
      ensures Valid()
      ensures if old(item.HasLinks()) then r == -1 && unchanged(this) && unchanged(item) && unchanged(old(items))
              else r == 0 && Took(old(items), old(lastId), if curr == null then 0 else Position(old(items), curr), item)
    {
      hide Links, NoDuplicates, Ids, Inserted, At, Around, Position;
      if item.HasLinks() {
        return -1;
      }
      Unlinked(item);
      ghost var k := if curr == null then 0 else Position(items, curr);
      if curr != null {
        Neighbours(curr);
      }
      Place(items, 0);
      Place(items, k);
      Place(items, k - 1);
      if head == null || curr == null || curr.prev == null {
        LinkFirst(item);
      } else {
        LinkBetween(item, curr.prev, curr, k);
      }
      Admit(item, k);
      return 0;
    }

    /** dl_insert_after: a null `curr` stands for the last item. */
    method InsertAfter(curr: Item?, item: Item) returns (r: int)
      requires Valid() && (curr != null ==> curr in items)
      modifies this, item, items`prev, items`next
      ensures Valid()
      ensures if old(item.HasLinks()) then r == -1 && unchanged(this) && unchanged(item) && unchanged(old(items))
              else r == 0 && Took(old(items), old(lastId),
                                  if curr == null then |old(items)| else Position(old(items), curr) + 1, item)
    {
      hide Links, NoDuplicates, Ids, Inserted, At, Around, Position;
      if item.HasLinks() {
        return -1;
      }
      Unlinked(item);
      ghost var k := if curr == null then |items| else Position(items, curr) + 1;
      if curr != null {
        Neighbours(curr);
      }
      Place(items, 0);
      Place(items, k);
      Place(items, k - 1);
      if head == null || curr == null || curr.next == null {
        LinkLast(item);
      } else {
        LinkBetween(item, curr, curr.next, k);
      }
      Admit(item, k);
      return 0;
    }

    /** The links of s with its item k left out. */
    ghost predicate Skipped(s: seq<Item>, k: nat)
      requires k < |s|
      reads s
    {
      forall i :: 0 <= i < |s| && i != k ==>
        && s[i].dl == this
        && s[i].next == At(s, if i + 1 == k then k + 1 else i + 1)
        && s[i].prev == At(s, if i == k + 1 then k - 1 else i - 1)
    }

    lemma SkippedLinks(s: seq<Item>, k: nat)
      requires k < |s| && Skipped(s, k)
      ensures Links(Removed(s, k))
    {
      var t := Removed(s, k);
      forall i | 0 <= i < |t|
        ensures Linked(t, i)
      {
        assert t[i] == s[if i < k then i else i + 1];
      }
    }

    lemma RemovedIds(s: seq<Item>, k: nat, last: nat)
      requires k < |s| && Ids(s, last)
      ensures Ids(Removed(s, k), last)
    {
      var t := Removed(s, k);
      forall i | 0 <= i < |t|
        ensures t[i] == s[if i < k then i else i + 1]
      {
      }
    }

    lemma RemovedDistinct(s: seq<Item>, k: nat)
      requires k < |s| && NoDuplicates(s)
      ensures NoDuplicates(Removed(s, k)) && s[k] !in Removed(s, k)
      ensures |Removed(s, k)| == |s| - 1
      ensures At(Removed(s, k), 0) == At(s, if k == 0 then 1 else 0)
      ensures At(Removed(s, k), |s| - 2) == At(s, if k == |s| - 1 then k - 1 else |s| - 1)
    {
      var t := Removed(s, k);
      forall i | 0 <= i < |t|
        ensures t[i] == s[if i < k then i else i + 1]
      {
      }
    }

    /** Takes item k out of the links of the others. */
    method Unlink(curr: Item, ghost k: nat)
      requires Valid() && k < |items| && curr == items[k]
      modifies this`head, this`tail, items`prev, items`next
      ensures Skipped(items, k)
      ensures head == At(items, if k == 0 then 1 else 0)
      ensures tail == At(items, if k == |items| - 1 then k - 1 else |items| - 1)
    {
      hide Links, Linked, At, NoDuplicates, Ids;
      LinksAre();
      Place(items, k);
      Place(items, k - 1);
      Place(items, k + 1);
      Place(items, 0);
      if curr.prev == null {
        head := head.next;
        if head != null {
          head.prev := null;
        } else {
          tail := null;
        }
      } else {
        curr.prev.next := curr.next;
        if curr.next != null {
          curr.next.prev := curr.prev;
        } else {
          tail := curr.prev;
        }
      }
    }

    /** dl_delete: the owner of an item is the list it is in. */
    method Delete(curr: Item?) returns (r: int)
      requires Valid() && (curr != null && curr.dl == this ==> curr in items)
      modifies this`head, this`tail, this`count, this`items, items`prev, items`next, items`dl
      ensures Valid()
      ensures if curr == null || old(curr.dl) != this then r == -1 && unchanged(this) && unchanged(old(items))
              else
                && r == 0 && old(curr in items) && items == Removed(old(items), Position(old(items), curr))
                && !curr.HasLinks()
    {
      hide Links, NoDuplicates, Ids, Removed, At, Position;
      hide Skipped;
      if curr == null {
        return -1;
      }
      if curr.dl == null {
        return -1;
      }
      if curr.dl != this {
        return -1;
      }
      Place(items, 0);
      Place(items, |items| - 1);
      if head == null || tail == null || count == 0 {
        return -1;
      }
      ghost var s, k := items, Position(items, curr);
      RemovedDistinct(s, k);
      Unlink(curr, k);
      SkippedLinks(s, k);
      count := count - 1;
      items := Removed(s, k);
      curr.prev, curr.next, curr.dl := null, null, null;
      RemovedIds(s, k, lastId);
      return 0;
    }

    /** dl_flush: every item leaves, unlinked, and the ids go on from where they were. */
    method Flush()
      requires Valid()
      modifies this`head, this`tail, this`count, this`items, items`prev, items`next, items`dl
      ensures Valid() && items == []
      ensures forall x <- old(items) :: !x.HasLinks()
    {
      hide Links, Ids, NoDuplicates, Removed, Position, At;
      ghost var s, k := items, 0;
      var first := head;
      Place(items, 0);
      while first != null
        invariant Valid() && first == head && first == At(items, 0) && NoDuplicates(s)
        invariant k <= |s| && items == s[k..]
        invariant forall i :: 0 <= i < k ==> !s[i].HasLinks()
        decreases |s| - k
      {
        Place(items, 0);
        Owned(0);
        FirstRemoved(s, k);
        var _ := Delete(first);
        k := k + 1;
        first := head;
      }
      Place(items, 0);
    }

    lemma Owned(i: nat)
      requires Valid() && i < |items|
      ensures items[i].dl == this && items[i].next == At(items, i + 1) && items[i].prev == At(items, i - 1)
    {
      hide At;
      assert Linked(items, i);
    }

    /** dl_find, from the head: the item if it is in the list. */
    method Find(item: Item) returns (r: Item?)
      requires Valid()
      ensures r == if item in items then item else null
    {
      hide Links, Ids, NoDuplicates;
      var curr := head;
      ghost var i := 0;
      while curr != null
        invariant i <= |items| && curr == At(items, i) && item !in items[..i]
        decreases |items| - i
      {
        if curr == item {
          return item;
        }
        Owned(i);
        curr := curr.next;
        i := i + 1;
      }
      return null;
    }

    /** dl_find_back, from the tail: the backward links pass through every item too. */
    method FindBack(item: Item) returns (r: Item?)
      requires Valid()
      ensures r == if item in items then item else null
    {
      hide Links, Ids, NoDuplicates;
      var curr := tail;
      ghost var i := |items|;
      while curr != null
        invariant 0 <= i <= |items| && curr == At(items, i - 1) && item !in items[i..]
        decreases i
      {
        if curr == item {
          return item;
        }
        Owned(i - 1);
        curr := curr.prev;
        i := i - 1;
      }
      return null;
    }

    /** dl_nfind: the item at a position that starts at one. */
    method Nfind(nitem: nat) returns (r: Item?)
      requires Valid()
      ensures r == At(items, nitem - 1)
    {
      hide Links, Ids, NoDuplicates;
      if nitem == 0 || nitem > count {
        return null;
      }
      var curr := head;
      var n, i := nitem - 1, 0;
      while curr != null
        invariant i <= n < |items| && curr == At(items, i)
        decreases |items| - i
      {
        if i == n {
          return curr;
        }
        Owned(i);
        curr := curr.next;
        i := i + 1;
      }
      return null;
    }

    /** dl_index: the position, from one, of an item, or zero. */
    method FindIndex(item: Item) returns (r: nat)
      requires Valid()
      ensures r == Index(items, item)
    {
      hide Links, Ids, NoDuplicates;
      var curr := head;
      var i := 0;
      while curr != null
        invariant i <= |items| && curr == At(items, i)
        invariant forall j :: 0 <= j < i ==> items[j] != item
        decreases |items| - i
      {
        if curr == item {
          FirstAt(items, i, item);
          return i + 1;
        }
        Owned(i);
        curr := curr.next;
        i := i + 1;
      }
      return 0;
    }
  }

  lemma FirstAt<T>(s: seq<T>, i: nat, x: T)
    requires i < |s| && s[i] == x && forall j :: 0 <= j < i ==> s[j] != x
    ensures Position(s, x) == i
  {
  }

  lemma FirstRemoved<T>(s: seq<T>, k: nat)
    requires NoDuplicates(s) && k < |s|
    ensures Removed(s[k..], Position(s[k..], s[k])) == s[k + 1..]
    ensures forall i :: 0 <= i < k ==> s[i] !in s[k..]
  {
    assert s[k..][0] == s[k];
    FirstAt(s[k..], 0, s[k]);
  }

  lemma PositionAt<T>(s: seq<T>, i: nat)
    requires NoDuplicates(s) && i < |s|
    ensures Position(s, s[i]) == i
  {
  }

  /** dl_nfind undoes dl_index and dl_index undoes dl_nfind. */
  lemma IndexInverse(s: seq<Item>, x: Item, n: nat)
    requires NoDuplicates(s)
    ensures x in s ==> 1 <= Index(s, x) <= |s| && At(s, Index(s, x) - 1) == x
    ensures 1 <= n <= |s| ==> Index(s, s[n - 1]) == n
  {
    if 1 <= n <= |s| {
      PositionAt(s, n - 1);
    }
  }

  /** Taking out a new item leaves the list as it was, and putting a removed item back where it was restores it. */
  lemma InsertThenRemove<T>(s: seq<T>, k: nat, x: T)
    requires k <= |s| && x !in s
    ensures Position(Inserted(s, k, x), x) == k && Removed(Inserted(s, k, x), k) == s
  {
    var t := Inserted(s, k, x);
    assert forall j :: 0 <= j < k ==> t[j] == s[j];
    FirstAt(t, k, x);
  }

  lemma RemoveThenInsert<T>(s: seq<T>, k: nat)
    requires k < |s|
    ensures Inserted(Removed(s, k), k, s[k]) == s
  {
  }

  /** What At says of place k, and that no other place of s has the same item. */
  lemma Place(s: seq<Item>, k: int)
    requires NoDuplicates(s)
    ensures At(s, k) == if 0 <= k < |s| then s[k] else null
    ensures 0 <= k < |s| ==> forall i :: 0 <= i < |s| && i != k ==> s[i] != s[k]
  {
  }
}
