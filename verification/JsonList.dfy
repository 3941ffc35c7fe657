// The linked children of a cJSON item: append, insert, detach and replace as pointer
// surgery on the heap, proved to be the matching edits of the sequence that the
// chain reads as.

module JsonList {
  class Item {
    var next: Item?
    var prev: Item?
    var child: Item?

    /** cJSON_New_Item: all pointers null. */
    constructor ()
      ensures next == null && prev == null && child == null
    {
      next, prev, child := null, null, null;
    }
  }

  /** Element k, null outside the sequence. */
  function ElementAt(s: seq<Item>, k: int): Item? {
    if 0 <= k < |s| then s[k] else null
  }

  /** Neighbours in s are linked both ways and both ends are null. */
  ghost predicate Linked(s: seq<Item>)
    reads s
  {
    && (forall k {:trigger s[k].next} :: 0 <= k < |s| ==> s[k].next == ElementAt(s, k + 1))
    && (forall k {:trigger s[k].prev} :: 0 <= k < |s| ==> s[k].prev == ElementAt(s, k - 1))
  }

  predicate Distinct(s: seq<Item>) {
    forall j, k :: 0 <= j < k < |s| ==> s[j] != s[k]
  }

  /** The children of an item, in order. */
  ghost predicate Children(parent: Item, s: seq<Item>)
    reads parent, s
  {
    parent !in s && parent.child == ElementAt(s, 0) && Linked(s) && Distinct(s)
  }

  /** The chain from the child pointer has one reading only, so it has no
      cycle and every child is reached. */
  lemma ChildrenUnique(parent: Item, s: seq<Item>, t: seq<Item>)
    requires Children(parent, s) && Children(parent, t)
    ensures s == t
  {
    if |s| > |t| { SameAt(parent, s, t, |t|); }
    if |t| > |s| { SameAt(parent, t, s, |s|); }
    forall k: nat | k < |s|
      ensures s[k] == t[k]
    {
      SameAt(parent, s, t, k);
    }
  }

  lemma {:induction false} SameAt(parent: Item, s: seq<Item>, t: seq<Item>, k: nat)
    requires Children(parent, s) && Children(parent, t) && k < |s|
    ensures k < |t| && s[k] == t[k]
  {
    hide Distinct;
    if k > 0 {
      SameAt(parent, s, t, k - 1);
      assert s[k - 1].next == ElementAt(s, k) && t[k - 1].next == ElementAt(t, k);
    }
  }

  // The sequence edits.

  /** Where a walk of which steps ends: anything below zero is the start. */
  function Position(which: int, n: nat): nat {
    if which <= 0 then 0 else if which < n then which else n
  }

  function Inserted<T>(s: seq<T>, k: nat, x: T): seq<T>
    requires k <= |s|
  {
    s[..k] + [x] + s[k..]
  }

  function Removed<T>(s: seq<T>, k: nat): seq<T>
    requires k < |s|
  {
    s[..k] + s[k + 1..]
  }

  /** Detaching and inserting undo each other, and replacing is both. */
  lemma EditsUndo<T>(s: seq<T>, k: nat, x: T)
    ensures k <= |s| ==> Removed(Inserted(s, k, x), k) == s
    ensures k < |s| ==> Inserted(Removed(s, k), k, s[k]) == s
    ensures k < |s| ==> Inserted(Removed(s, k), k, x) == s[k := x]
  {
    if k <= |s| {
      assert Inserted(s, k, x)[..k] == s[..k] && Inserted(s, k, x)[k + 1..] == s[k..];
    }
    if k < |s| {
      assert Removed(s, k)[..k] == s[..k] && Removed(s, k)[k..] == s[k + 1..];
    }
  }

  // The code.

  method GetArraySize(parent: Item, ghost s: seq<Item>) returns (i: nat)
    requires Children(parent, s)
    ensures i == |s|
  {
    var c := parent.child;
    i := 0;
    while c != null
      invariant i <= |s| && c == ElementAt(s, i)
      decreases |s| - i
    {
      i := i + 1;
      c := c.next;
    }
  }

  method GetArrayItem(parent: Item, which: int, ghost s: seq<Item>) returns (c: Item?)
    requires Children(parent, s)
    ensures c == ElementAt(s, Position(which, |s|))
    ensures 0 <= which < |s| ==> c == s[which]
    ensures which < 0 && s != [] ==> c == s[0]
    ensures which >= |s| ==> c == null
  {
    c := parent.child;
    var item := which;
    ghost var k := 0;
    while c != null && item > 0
      invariant 0 <= k <= |s| && c == ElementAt(s, k)
      invariant item == which - k && (item < 0 ==> k == 0)
      decreases |s| - k
    {
      item, c, k := item - 1, c.next, k + 1;
    }
  }

  method AddItemToArray(parent: Item, item: Item?, ghost s: seq<Item>)
    requires Children(parent, s)
    requires item != null ==> item != parent && item !in s && item.next == null && item.prev == null
    modifies parent`child, s`next, (if item == null then {} else {item})`prev
    ensures Children(parent, if item == null then s else s + [item])
  {
    if item == null { return; }
    var c := parent.child;
    if c == null {
      parent.child := item;
      assert s + [item] == [item];
    } else {
      ghost var k := 0;
      while c.next != null
        invariant 0 <= k < |s| && c == s[k]
        decreases |s| - k
      {
        c, k := c.next, k + 1;
      }
      c.next := item;
      item.prev := c;
    }
  }

  // What the surgeries leave, and that it is the chain of the edited sequence.

  /** All but element k link as if it were not there. */
  ghost predicate WithoutElement(s: seq<Item>, k: nat)
    reads s
  {
    && (forall j {:trigger s[j].next} :: 0 <= j < |s| && j != k ==>
      s[j].next == ElementAt(s, if j == k - 1 then k + 1 else j + 1))
    && (forall j {:trigger s[j].prev} :: 0 <= j < |s| && j != k ==>
      s[j].prev == ElementAt(s, if j == k + 1 then k - 1 else j - 1))
  }

  lemma RemovedLinked(s: seq<Item>, k: nat)
    requires k < |s| && WithoutElement(s, k) && Distinct(s)
    ensures Linked(Removed(s, k)) && Distinct(Removed(s, k))
  {
    var t := Removed(s, k);
    forall j | 0 <= j < |t|
      ensures t[j].next == ElementAt(t, j + 1) && t[j].prev == ElementAt(t, j - 1)
    {
      assert t[j] == if j < k then s[j] else s[j + 1];
    }
  }

  /** The element x links to its neighbours at k, and they to it. */
  ghost predicate WithElement(s: seq<Item>, k: nat, x: Item)
    reads s, x
  {
    && x.next == ElementAt(s, k) && x.prev == ElementAt(s, k - 1)
    && (forall j {:trigger s[j].next} :: 0 <= j < |s| ==> s[j].next == if j == k - 1 then x else ElementAt(s, j + 1))
    && (forall j {:trigger s[j].prev} :: 0 <= j < |s| ==> s[j].prev == if j == k then x else ElementAt(s, j - 1))
  }

  lemma InsertedLinked(s: seq<Item>, k: nat, x: Item)
    requires k <= |s| && WithElement(s, k, x) && Distinct(s) && x !in s
    ensures Linked(Inserted(s, k, x)) && Distinct(Inserted(s, k, x))
  {
    var t := Inserted(s, k, x);
    assert t[k] == x;
    assert forall j :: 0 <= j < |t| && j != k ==> t[j] == s[if j < k then j else j - 1];
    forall j | 0 <= j < |t|
      ensures t[j].next == ElementAt(t, j + 1) && t[j].prev == ElementAt(t, j - 1)
    {
      if j != k { assert t[j] == s[if j < k then j else j - 1]; }
    }
  }

  /** The element x stands where element k was. */
  ghost predicate InPlaceOf(s: seq<Item>, k: nat, x: Item)
    reads s, x
  {
    && x.next == ElementAt(s, k + 1) && x.prev == ElementAt(s, k - 1)
    && (forall j {:trigger s[j].next} :: 0 <= j < |s| && j != k ==>
      s[j].next == if j == k - 1 then x else ElementAt(s, j + 1))
    && (forall j {:trigger s[j].prev} :: 0 <= j < |s| && j != k ==>
      s[j].prev == if j == k + 1 then x else ElementAt(s, j - 1))
  }

  lemma ReplacedLinked(s: seq<Item>, k: nat, x: Item)
    requires k < |s| && InPlaceOf(s, k, x) && Distinct(s) && x !in s
    ensures Linked(s[k := x]) && Distinct(s[k := x])
  {
  }

  method DetachItemFromArray(parent: Item, which: int, ghost s: seq<Item>) returns (c: Item?)
    requires Children(parent, s)
    modifies parent`child, s`next, s`prev
    ensures c == ElementAt(s, Position(which, |s|))
    ensures c == null ==> Children(parent, s)
    ensures c != null ==> Children(parent, Removed(s, Position(which, |s|))) && c.next == null && c.prev == null
  {
    c := GetArrayItem(parent, which, s);
    if c == null { return; }
    ghost var k := Position(which, |s|);
    if c.prev != null { c.prev.next := c.next; }
    if c.next != null { c.next.prev := c.prev; }
    if c == parent.child { parent.child := c.next; }
    c.prev, c.next := null, null;
    assert WithoutElement(s, k);
    RemovedLinked(s, k);
    hide Linked, Distinct, WithoutElement;
  }

  method InsertItemInArray(parent: Item, which: int, newitem: Item, ghost s: seq<Item>)
    requires Children(parent, s)
    requires newitem != parent && newitem !in s && newitem.next == null && newitem.prev == null
    modifies parent`child, s`next, s`prev, newitem`next, newitem`prev
    ensures Children(parent, Inserted(s, Position(which, |s|), newitem))
  {
    var c := GetArrayItem(parent, which, s);
    if c == null {
      AddItemToArray(parent, newitem, s);
      assert Inserted(s, |s|, newitem) == s + [newitem];
      return;
    }
    ghost var k := Position(which, |s|);
    newitem.next := c;
    newitem.prev := c.prev;
    c.prev := newitem;
    if c == parent.child { parent.child := newitem; } else { newitem.prev.next := newitem; }
    assert WithElement(s, k, newitem);
    InsertedLinked(s, k, newitem);
    hide Linked, Distinct, WithElement;
  }

  method ReplaceItemInArray(parent: Item, which: int, newitem: Item, ghost s: seq<Item>)
    requires Children(parent, s) && newitem != parent && newitem !in s
    modifies parent`child, s`next, s`prev, newitem`next, newitem`prev
    ensures Children(parent, if Position(which, |s|) < |s| then s[Position(which, |s|) := newitem] else s)
    ensures Position(which, |s|) < |s| ==> s[Position(which, |s|)].next == null && s[Position(which, |s|)].prev == null
  {
    var c := GetArrayItem(parent, which, s);
    if c == null { return; }
    ghost var k := Position(which, |s|);
    newitem.next := c.next;
    newitem.prev := c.prev;
    if newitem.next != null { newitem.next.prev := newitem; }
    if c == parent.child { parent.child := newitem; } else { newitem.prev.next := newitem; }
    c.next, c.prev := null, null;
    assert InPlaceOf(s, k, newitem);
    ReplacedLinked(s, k, newitem);
    hide Linked, Distinct, InPlaceOf;
  }
}
