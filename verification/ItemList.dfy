/** The intrusive doubly linked list: root, tail, prev and next pointers that always
    describe one plain sequence of items. */
module ItemList {
  class Item {
    var prev: Item?
    var next: Item?
    var visible: bool
    const id: int

    constructor (id: int)
      ensures prev == null && next == null && visible && this.id == id
    {
      this.id := id;
      prev, next, visible := null, null, true;
    }
  }

  // ----- sequences

  ghost predicate Distinct<T>(s: seq<T>) {
    forall i, j :: 0 <= i < j < |s| ==> s[i] != s[j]
  }

  function Without<T>(s: seq<T>, k: nat): seq<T>
    requires k < |s|
  {
    s[..k] + s[k + 1..]
  }

  function Inserted<T>(s: seq<T>, k: nat, x: T): seq<T>
    requires k <= |s|
  {
    s[..k] + [x] + s[k..]
  }

  /** The first shown position from `i` on, or the length if there is none. */
  function NextShown(shown: seq<bool>, i: nat): (k: nat)
    requires i <= |shown|
    ensures i <= k <= |shown| && (k < |shown| ==> shown[k]) && forall j :: i <= j < k ==> !shown[j]
    decreases |shown| - i
  {
    if i == |shown| || shown[i] then i else NextShown(shown, i + 1)
  }

  /** The last shown position before `i`, plus one, or 0 if there is none. */
  function PrevShown(shown: seq<bool>, i: nat): (k: nat)
    requires i <= |shown|
    ensures k <= i && (k > 0 ==> shown[k - 1]) && forall j :: k <= j < i ==> !shown[j]
  {
    if i == 0 || shown[i - 1] then i else PrevShown(shown, i - 1)
  }

  function Reversed<T>(s: seq<T>): seq<T> {
    if s == [] then [] else Reversed(s[1..]) + [s[0]]
  }

  lemma {:induction false} ReversedAppend<T>(s: seq<T>, x: T)
    ensures Reversed(s + [x]) == [x] + Reversed(s)
  {
    if s == [] {
    } else {
      ReversedAppend(s[1..], x);
      assert (s + [x])[1..] == s[1..] + [x];
    }
  }

  lemma InsertedDistinct<T>(s: seq<T>, k: nat, x: T)
    requires Distinct(s) && k <= |s| && x !in s
    ensures Distinct(Inserted(s, k, x))
  {
  }

  lemma InsertedAt<T>(s: seq<T>, k: nat, x: T)
    requires k <= |s|
    ensures |Inserted(s, k, x)| == |s| + 1
    ensures forall i {:trigger Inserted(s, k, x)[i]} :: 0 <= i <= |s| ==>
      Inserted(s, k, x)[i] == (if i < k then s[i] else if i == k then x else s[i - 1])
  {
  }

  lemma WithoutDistinct<T>(s: seq<T>, k: nat)
    requires Distinct(s) && k < |s|
    ensures Distinct(Without(s, k)) && s[k] !in Without(s, k)
  {
  }

  // ----- the list

  class ItemList {
    var canChange: bool
    var root: Item?
    var tail: Item?
    ghost var items: seq<Item>

    /** The pointers of a list that describe the sequence `s`. */
    ghost predicate Describes(s: seq<Item>)
      reads this, s
    {
      && Distinct(s)
      && root == (if s == [] then null else s[0])
      && tail == (if s == [] then null else s[|s| - 1])
      && (forall i {:trigger s[i].prev} :: 0 <= i < |s| ==> s[i].prev == (if i == 0 then null else s[i - 1]))
      && (forall i {:trigger s[i].next} :: 0 <= i < |s| ==> s[i].next == (if i == |s| - 1 then null else s[i + 1]))
    }

    /** The same, whatever the pointers of `x` itself are. */
    ghost predicate DescribesBut(s: seq<Item>, x: Item)
      reads this, s
    {
      && Distinct(s)
      && root == (if s == [] then null else s[0])
      && tail == (if s == [] then null else s[|s| - 1])
      && (forall i {:trigger s[i].prev} :: 0 <= i < |s| && s[i] != x ==>
            s[i].prev == (if i == 0 then null else s[i - 1]))
      && (forall i {:trigger s[i].next} :: 0 <= i < |s| && s[i] != x ==>
            s[i].next == (if i == |s| - 1 then null else s[i + 1]))
    }

    ghost predicate Valid()
      reads this, items
    {
      Describes(items)
    }

    lemma DescribesAnyway(x: Item)
      requires Valid()
      ensures DescribesBut(items, x)
    {
    }

    constructor ()
      ensures Valid() && items == [] && canChange
    {
      canChange, root, tail, items := true, null, null, [];
    }

    /** From the root, a chain in which item `k` is linked to the front again passes the
        items up to `k` a second time. */
    lemma {:induction false} Cycle(s: seq<Item>, was: seq<Item>, k: nat, j: nat)
      requires Describes(s) && j <= k < |was| && root == was[k] && was[k].next == was[0]
      requires forall i {:trigger was[i].next} :: 0 <= i < k ==> was[i].next == was[i + 1]
      ensures j + 1 < |s| && s[j + 1] == was[j]
      decreases j
    {
      if j == 0 {
        assert s[0].next == (if 0 == |s| - 1 then null else s[1]);
      } else {
        Cycle(s, was, k, j - 1);
        assert s[j].next == (if j == |s| - 1 then null else s[j + 1]);
        assert was[j - 1].next == was[j];
      }
    }

    /** Right for an item that is not in the list yet. One that is closes a cycle: then
        the pointers describe no sequence at all. */
    method AddToRoot(item: Item)
      requires DescribesBut(items, item)
      modifies this`root, this`tail, this`items, items, item
      ensures item !in old(items) ==> Valid() && items == [item] + old(items)
      ensures item in old(items) ==> forall s: seq<Item> :: !Describes(s)
    {
      ghost var was := items;
      item.next, item.prev := null, null;
      if root != null {
        item.next := root;
        root.prev := item;
      }
      if tail == null {
        tail := item;
      }
      root := item;
      if item in was {
        ghost var k :| 0 <= k < |was| && was[k] == item;
        forall s: seq<Item>
          ensures !Describes(s)
        {
          if Describes(s) {
            Cycle(s, was, k, k);
          }
        }
      } else {
        items := [item] + was;
      }
    }

    /** A described sequence starts as the chain does that was linked up to item `k`. */
    lemma {:induction false} SameStart(s: seq<Item>, was: seq<Item>, k: nat, j: nat)
      requires Describes(s) && j <= k < |was| && root == was[0]
      requires forall i {:trigger was[i].next} :: 0 <= i < k ==> was[i].next == was[i + 1]
      ensures j < |s| && s[j] == was[j]
    {
      if j == 0 {
      } else {
        SameStart(s, was, k, j - 1);
        assert s[j - 1].next == (if j - 1 == |s| - 1 then null else s[j]);
        assert was[j - 1].next == was[j];
      }
    }

    /** Item `k` of a chain whose `prev` is an item behind it, or itself: the pointers
        describe nothing. */
    lemma WrongPrev(s: seq<Item>, was: seq<Item>, k: nat, l: nat)
      requires Distinct(was) && k <= l < |was| && root == was[0] && was[k].prev == was[l]
      requires forall i {:trigger was[i].next} :: 0 <= i < k ==> was[i].next == was[i + 1]
      ensures !Describes(s)
    {
      if Describes(s) {
        SameStart(s, was, k, k);
        if k > 0 {
          SameStart(s, was, k, k - 1);
        }
      }
    }

    /** Right for an item that is not in the list yet; for one that is, the pointers
        describe no sequence at all. */
    method AddToTail(item: Item)
      requires DescribesBut(items, item)
      modifies this`root, this`tail, this`items, items, item
      ensures item !in old(items) ==> Valid() && items == old(items) + [item]
      ensures item in old(items) ==> forall s: seq<Item> :: !Describes(s)
    {
      ghost var was := items;
      item.next, item.prev := null, null;
      if tail != null {
        tail.next := item;
      }
      item.prev := tail;
      tail := item;
      if root == null {
        root := item;
      }
      if item in was {
        ghost var k :| 0 <= k < |was| && was[k] == item;
        forall s: seq<Item>
          ensures !Describes(s)
        {
          WrongPrev(s, was, k, |was| - 1);
        }
      } else {
        items := was + [item];
      }
    }

    ghost function IndexOf(x: Item): (k: nat)
      requires x in items
      reads this
      ensures k < |items| && items[k] == x
    {
      var k :| 0 <= k < |items| && items[k] == x;
      k
    }

    /** The pointers after item `l` was linked in again behind item `k`. */
    ghost predicate LinkedTwice(was: seq<Item>, k: nat, l: nat)
      reads this, was
    {
      && Distinct(was) && l < |was| && k < |was| - 1 && root == was[0]
      && was[k].next == was[l] && (l <= k ==> was[l].prev == was[k]) && (l > k ==> was[l].next == was[k + 1])
      && forall i {:trigger was[i].next} :: 0 <= i < |was| - 1 && i != k && i != l ==> was[i].next == was[i + 1]
    }

    /** An item taken from further back is passed twice. */
    lemma {:induction false} PassedAgain(s: seq<Item>, was: seq<Item>, k: nat, l: nat, j: nat)
      requires Describes(s) && LinkedTwice(was, k, l) && k < j <= l
      ensures k + 1 < |s| && s[k + 1] == was[l] && j + 1 < |s| && s[j + 1] == was[j]
      decreases j
    {
      if j == k + 1 {
        SameStart(s, was, k, k);
        assert s[k].next == (if k == |s| - 1 then null else s[k + 1]);
      } else {
        PassedAgain(s, was, k, l, j - 1);
      }
      assert was[j - 1].next == (if j == k + 1 then was[l] else was[j]);
      assert s[j].next == (if j == |s| - 1 then null else s[j + 1]);
    }

    lemma NoneDescribed(s: seq<Item>, was: seq<Item>, k: nat, l: nat)
      requires LinkedTwice(was, k, l)
      ensures !Describes(s)
    {
      if l <= k {
        WrongPrev(s, was, l, k);
      } else if Describes(s) {
        PassedAgain(s, was, k, l, l);
      }
    }

    /** The pointers after a new item was linked in behind item `k`. */
    lemma Spliced(was: seq<Item>, k: nat, item: Item)
      requires Distinct(was) && item !in was && k < |was| - 1 && root == was[0] && tail == was[|was| - 1]
      requires item.prev == was[k] && item.next == was[k + 1] && was[k].next == item && was[k + 1].prev == item
      requires forall i {:trigger was[i].prev} :: 0 <= i < |was| && i != k + 1 ==>
        was[i].prev == (if i == 0 then null else was[i - 1])
      requires forall i {:trigger was[i].next} :: 0 <= i < |was| && i != k ==>
        was[i].next == (if i == |was| - 1 then null else was[i + 1])
      ensures Describes(Inserted(was, k + 1, item))
    {
      InsertedDistinct(was, k + 1, item);
      hide Distinct;
      var s := Inserted(was, k + 1, item);
      InsertedAt(was, k + 1, item);
      hide Inserted;
      forall i | 0 <= i < |s|
        ensures s[i].prev == (if i == 0 then null else s[i - 1])
        ensures s[i].next == (if i == |s| - 1 then null else s[i + 1])
      {
        if i <= k {
          assert s[i] == was[i];
        } else if i > k + 1 {
          assert s[i] == was[i - 1];
        }
      }
    }

    /** Insertion between two items. */
    method LinkAfter(after: Item, item: Item, ghost k: nat)
      requires DescribesBut(items, item) && k < |items| - 1 && items[k] == after
      requires item.next == null && item.prev == null
      modifies this`items, items, item
      ensures item !in old(items) ==> Valid() && items == Inserted(old(items), k + 1, item)
      ensures item in old(items) ==> forall s: seq<Item> :: !Describes(s)
    {
      ghost var was := items;
      item.prev := after;
      item.next := after.next;
      if after.next != null {
        after.next.prev := item;
      }
      after.next := item;
      if item in was {
        ghost var l :| 0 <= l < |was| && was[l] == item;
        assert LinkedTwice(was, k, l);
        forall s: seq<Item>
          ensures !Describes(s)
        {
          NoneDescribed(s, was, k, l);
        }
      } else {
        Spliced(was, k, item);
        items := Inserted(was, k + 1, item);
      }
    }

    /** Without an `after` the item goes first. For one that is in the list already the
        pointers describe no sequence at all. */
    method AddAfter(after: Item?, item: Item)
      requires Valid() && (after != null && root != null ==> after in items)
      modifies this`root, this`tail, this`items, items, item
      ensures item !in old(items) ==> Valid()
      ensures item !in old(items) ==>
        items == Inserted(old(items), if old(items) == [] || after == null then 0 else old(IndexOf(after)) + 1, item)
      ensures item in old(items) ==> forall s: seq<Item> :: !Describes(s)
    {
      ghost var was, k := items, if root == null || after == null then 0 else IndexOf(after);
      item.next, item.prev := null, null;
      if root == null || after == null {
        AddToRoot(item);
        assert [item] + was == Inserted(was, 0, item);
        return;
      }
      if after == tail {
        AddToTail(item);
        assert was + [item] == Inserted(was, k + 1, item);
        return;
      }
      LinkAfter(after, item, k);
    }

    /** The item is linked nowhere. */
    static predicate Single(item: Item)
      reads item
    {
      item.prev == null && item.next == null
    }

    /** The pointers after item `k` was cut out of the chain. */
    lemma CutOut(was: seq<Item>, k: nat)
      requires Distinct(was) && k < |was|
      requires root == (if k > 0 then was[0] else if k == |was| - 1 then null else was[1])
      requires tail == (if k < |was| - 1 then was[|was| - 1] else if k == 0 then null else was[k - 1])
      requires forall i {:trigger was[i].prev} :: 0 <= i < |was| && i != k ==>
        was[i].prev == (if i == 0 || k == 0 == i - 1 then null else if i == k + 1 then was[k - 1] else was[i - 1])
      requires forall i {:trigger was[i].next} :: 0 <= i < |was| && i != k ==>
        was[i].next == (if i == |was| - 1 || k == |was| - 1 == i + 1 then null
                        else if i == k - 1 then was[k + 1] else was[i + 1])
      ensures Describes(Without(was, k)) && was[k] !in Without(was, k)
    {
      WithoutDistinct(was, k);
      hide Distinct;
      var s := Without(was, k);
      forall i | 0 <= i < |s|
        ensures s[i].prev == (if i == 0 then null else s[i - 1])
        ensures s[i].next == (if i == |s| - 1 then null else s[i + 1])
      {
        assert s[i] == was[if i < k then i else i + 1];
      }
    }

    lemma NotInWithout(x: Item)
      requires Valid() && x in items
      ensures x !in Without(items, IndexOf(x))
    {
      WithoutDistinct(items, IndexOf(x));
    }

    /** The pointer changes of `remove`. */
    method Unlink(item: Item)
      requires Valid() && (item in items || Single(item))
      modifies this`root, this`tail, this`items, items
      ensures Valid() && item !in items
      ensures items == if item in old(items) then Without(old(items), old(IndexOf(item))) else []
    {
      ghost var was, k: nat := items, if item in items then IndexOf(item) else 0;
      if item == tail {
        tail := item.prev;
      }
      if item == root {
        root := item.next;
      }
      if item.prev != null {
        item.prev.next := item.next;
      } else {
        root := item.next;
      }
      if item.next != null {
        item.next.prev := item.prev;
      } else {
        tail := item.prev;
      }
      if item in was {
        CutOut(was, k);
        items := Without(was, k);
      } else {
        items := [];
      }
    }

    /** Nothing happens when the list may not change, or without an item. For an item that is
        linked nowhere the whole list is lost: root and tail take its null pointers. */
    method Remove(item: Item?, del: bool)
      requires Valid() && (item != null ==> item in items || Single(item))
      modifies this`root, this`tail, this`items, items, if item == null then {} else {item}
      ensures Valid()
      ensures !canChange || item == null ==> items == old(items)
      ensures canChange && item != null ==>
        items == if item in old(items) then Without(old(items), old(IndexOf(item))) else []
      ensures canChange && item != null && !del ==> Single(item)
    {
      if !canChange || item == null {
        return;
      }
      Unlink(item);
      if !del {
        item.next, item.prev := null, null;
      }
    }

    method RemoveLast()
      requires Valid()
      modifies this`root, this`tail, this`items, items
      ensures Valid()
      ensures items == (if canChange && old(items) != [] then old(items)[..|old(items)| - 1] else old(items))
    {
      Remove(tail, true);
    }

    /** The items have nothing left in the list, and the list nothing of them. */
    method RemoveAll()
      requires Valid()
      modifies this`root, this`tail, this`items, items
      ensures Valid()
      ensures items == (if canChange then [] else old(items))
      ensures canChange ==> forall x :: x in old(items) ==> x.prev == null && x.next == null
    {
      if !canChange {
        return;
      }
      ghost var s, k := items, 0;
      var tmp := root;
      while tmp != null
        invariant k <= |s| && tmp == (if k == |s| then null else s[k])
        invariant forall i :: 0 <= i < k ==> s[i].prev == null && s[i].next == null
        invariant forall i {:trigger s[i].next} :: k <= i < |s| ==>
          s[i].next == (if i == |s| - 1 then null else s[i + 1])
        decreases |s| - k
      {
        var del := tmp;
        tmp := tmp.next;
        del.next := null;
        del.prev := null;
        k := k + 1;
      }
      root, tail := null, null;
      items := [];
    }

    // ----- searching

    ghost function Shown(all: bool): (shown: seq<bool>)
      reads this, items
      ensures |shown| == |items|
    {
      seq(|items|, i requires 0 <= i < |items| reads this, items => all || items[i].visible)
    }

    /** The item at position `k`, or null past the end. */
    ghost function ItemAt(k: nat): Item?
      reads this
    {
      if k < |items| then items[k] else null
    }

    /** The first shown item after `cur`, or of the whole list. */
    method GetNext(cur: Item?, all: bool) returns (r: Item?)
      requires Valid() && (cur != null ==> cur in items)
      ensures r == ItemAt(NextShown(Shown(all), if cur == null then 0 else IndexOf(cur) + 1))
    {
      ghost var k := if cur == null then 0 else IndexOf(cur) + 1;
      r := if cur != null then cur.next else root;
      while r != null
        invariant k <= |items| && r == ItemAt(k)
        invariant NextShown(Shown(all), k) == NextShown(Shown(all), if cur == null then 0 else IndexOf(cur) + 1)
        decreases |items| - k
      {
        if all || r.visible {
          break;
        }
        r := r.next;
        k := k + 1;
      }
    }

    /** The last shown item before `cur`, or of the whole list. */
    method GetPrev(cur: Item?, all: bool) returns (r: Item?)
      requires Valid() && (cur != null ==> cur in items)
      ensures
        var k := PrevShown(Shown(all), if cur == null then |items| else IndexOf(cur));
        r == (if k == 0 then null else items[k - 1])
    {
      ghost var k: int := if cur == null then |items| else IndexOf(cur);
      r := if cur != null then cur.prev else tail;
      while r != null
        invariant 0 <= k <= |items| && r == (if k == 0 then null else items[k - 1])
        invariant PrevShown(Shown(all), k) == PrevShown(Shown(all), if cur == null then |items| else IndexOf(cur))
        decreases k
      {
        if all || r.visible {
          break;
        }
        r := r.prev;
        k := k - 1;
      }
    }

    /** The items a visitor should see, in order. */
    static ghost function Seen(s: seq<Item>, all: bool): seq<Item>
      reads s
    {
      if s == [] then []
      else
        var x := s[|s| - 1];
        Seen(s[..|s| - 1], all) + (if all || x.visible then [x] else [])
    }

    lemma SeenNext(all: bool, k: nat)
      requires k < |items|
      ensures Seen(items[..k + 1], all) == Seen(items[..k], all) + (if Shown(all)[k] then [items[k]] else [])
    {
      assert items[..k + 1][..k] == items[..k];
    }

    /** Hidden items add nothing. */
    lemma {:induction false} SeenSkips(all: bool, i: nat, k: nat)
      requires i <= k <= |items| && forall j :: i <= j < k ==> !Shown(all)[j]
      ensures Seen(items[..k], all) == Seen(items[..i], all)
    {
      if i == k {
      } else {
        SeenSkips(all, i, k - 1);
        SeenNext(all, k - 1);
      }
    }

    /** `cur` is the item at position `k`, which is shown, or there is none. */
    ghost predicate StandsAt(cur: Item?, k: nat, all: bool)
      reads this, items
    {
      k <= |items| && cur == ItemAt(k) && (k < |items| ==> Shown(all)[k])
    }

    lemma StandsInside(cur: Item?, k: nat, all: bool)
      requires StandsAt(cur, k, all)
      ensures k <= |items| && (cur == null ==> k == |items|)
    {
    }

    /** One visit forward. */
    lemma StepForward(all: bool, k: nat)
      requires Valid() && k < |items| && Shown(all)[k]
      ensures IndexOf(items[k]) == k
      ensures Seen(items[..NextShown(Shown(all), k + 1)], all) == Seen(items[..k], all) + [items[k]]
    {
      SeenNext(all, k);
      SeenSkips(all, k + 1, NextShown(Shown(all), k + 1));
      hide Seen, NextShown;
    }

    /** No item is to be seen before the first shown one. */
    lemma NoneSeen(all: bool)
      ensures Seen(items[..NextShown(Shown(all), 0)], all) == []
    {
      SeenSkips(all, 0, NextShown(Shown(all), 0));
      assert items[..0] == [];
    }

    /** One call of `getNext` from an item. */
    method GoForward(cur: Item, ghost k: nat, all: bool) returns (next: Item?, ghost j: nat)
      requires Valid() && StandsAt(cur, k, all)
      ensures k < j <= |items| && StandsAt(next, j, all) && Seen(items[..j], all) == Seen(items[..k], all) + [cur]
    {
      hide Seen, Describes;
      StepForward(all, k);
      next := GetNext(cur, all);
      j := NextShown(Shown(all), k + 1);
    }

    /** The first call of `getNext`. */
    method GoFirst(all: bool) returns (cur: Item?, ghost k: nat)
      requires Valid()
      ensures k <= |items| && StandsAt(cur, k, all) && Seen(items[..k], all) == []
    {
      hide Seen, Describes;
      NoneSeen(all);
      cur := GetNext(null, all);
      k := NextShown(Shown(all), 0);
    }

    /** Calling `getNext` until it gives nothing visits exactly the visible items, in order. */
    method VisitForward(all: bool) returns (xs: seq<Item>)
      requires Valid()
      ensures xs == Seen(items, all)
    {
      hide *;
      xs := [];
      var cur;
      ghost var k;
      cur, k := GoFirst(all);
      while cur != null
        invariant k <= |items| && StandsAt(cur, k, all) && xs == Seen(items[..k], all)
        decreases |items| - k
      {
        ghost var j;
        var next;
        next, j := GoForward(cur, k, all);
        xs := xs + [cur];
        cur, k := next, j;
      }
      StandsInside(cur, k, all);
      assert items[..k] == items;
    }

    /** The items still to be seen before position `k`, the last first. */
    ghost function Behind(k: nat, all: bool): seq<Item>
      requires k <= |items|
      reads this, items
    {
      Reversed(Seen(items[..k], all))
    }

    /** One visit backward: the item before position `k`, and then what lies before it. */
    lemma StepBack(all: bool, k: nat)
      requires Valid() && 0 < k <= |items| && Shown(all)[k - 1]
      ensures IndexOf(items[k - 1]) == k - 1
      ensures Behind(k, all) == [items[k - 1]] + Behind(PrevShown(Shown(all), k - 1), all)
    {
      SeenNext(all, k - 1);
      SeenSkips(all, PrevShown(Shown(all), k - 1), k - 1);
      ReversedAppend(Seen(items[..k - 1], all), items[k - 1]);
      hide Seen, Reversed, PrevShown;
    }

    lemma AllBehind(all: bool)
      requires Valid()
      ensures Behind(PrevShown(Shown(all), |items|), all) == Reversed(Seen(items, all))
    {
      SeenSkips(all, PrevShown(Shown(all), |items|), |items|);
      assert items[..|items|] == items;
    }

    lemma NothingBehind(all: bool)
      ensures Behind(0, all) == []
    {
    }

    lemma Regroup(xs: seq<Item>, x: Item, rest: seq<Item>)
      ensures xs + ([x] + rest) == (xs + [x]) + rest
    {
    }

    /** `cur` is the item before position `k`, which is shown, or there is none. */
    ghost predicate StandsBefore(cur: Item?, k: nat, all: bool)
      reads this, items
    {
      k <= |items| && if k == 0 then cur == null else cur == items[k - 1] && Shown(all)[k - 1]
    }

    lemma StandsBehind(cur: Item?, k: nat, all: bool)
      requires StandsBefore(cur, k, all)
      ensures k <= |items| && (cur == null ==> k == 0)
    {
    }

    /** One call of `getPrev` from an item. */
    method GoBack(cur: Item, ghost k: nat, all: bool) returns (prev: Item?, ghost j: nat)
      requires Valid() && StandsBefore(cur, k, all)
      ensures j < k <= |items| && StandsBefore(prev, j, all) && Behind(k, all) == [cur] + Behind(j, all)
    {
      hide Seen, Reversed, Behind, Describes;
      StepBack(all, k);
      prev := GetPrev(cur, all);
      j := PrevShown(Shown(all), k - 1);
    }

    /** The first call of `getPrev`. */
    method GoLast(all: bool) returns (cur: Item?, ghost k: nat)
      requires Valid()
      ensures k <= |items| && StandsBefore(cur, k, all) && Behind(k, all) == Reversed(Seen(items, all))
    {
      hide Seen, Describes, Behind, Reversed;
      AllBehind(all);
      cur := GetPrev(null, all);
      k := PrevShown(Shown(all), |items|);
    }

    /** Calling `getPrev` until it gives nothing visits them in reverse. */
    method VisitBackward(all: bool) returns (xs: seq<Item>)
      requires Valid()
      ensures xs == Reversed(Seen(items, all))
    {
      hide *;
      xs := [];
      var cur;
      ghost var k: nat, goal := 0, Reversed(Seen(items, all));
      cur, k := GoLast(all);
      while cur != null
        invariant k <= |items| && StandsBefore(cur, k, all) && xs + Behind(k, all) == goal
        decreases k
      {
        ghost var j;
        var prev;
        prev, j := GoBack(cur, k, all);
        Regroup(xs, cur, Behind(j, all));
        xs := xs + [cur];
        cur, k := prev, j;
      }
      StandsBehind(cur, k, all);
      NothingBehind(all);
    }

    method CountVisItems() returns (n: nat)
      requires Valid()
      ensures n == |Seen(items, false)|
    {
      ghost var k := 0;
      var tmp := root;
      n := 0;
      while tmp != null
        invariant k <= |items| && tmp == ItemAt(k) && n == |Seen(items[..k], false)|
        decreases |items| - k
      {
        if tmp.visible {
          n := n + 1;
        }
        SeenNext(false, k);
        tmp := tmp.next;
        k := k + 1;
      }
      assert items[..k] == items;
    }

    /** The first item with this id, if any. */
    method GetById(id: int) returns (r: Item?)
      requires Valid()
      ensures r == null ==> forall x :: x in items ==> x.id != id
      ensures r != null ==> r in items && r.id == id && forall j :: 0 <= j < IndexOf(r) ==> items[j].id != id
    {
      ghost var k := 0;
      r := root;
      while r != null
        invariant k <= |items| && r == ItemAt(k) && forall j :: 0 <= j < k ==> items[j].id != id
        decreases |items| - k
      {
        if r.id == id {
          break;
        }
        r := r.next;
        k := k + 1;
      }
    }

    method RemoveById(id: int)
      requires Valid()
      modifies this`root, this`tail, this`items, items
      ensures Valid()
      ensures (!canChange || forall x :: x in old(items) ==> x.id != id) ==> items == old(items)
      ensures canChange && (exists x :: x in old(items) && x.id == id) ==>
        exists k :: 0 <= k < |old(items)| && old(items)[k].id == id
          && (forall j :: 0 <= j < k ==> old(items)[j].id != id) && items == Without(old(items), k)
    {
      var item := GetById(id);
      if item != null {
        Remove(item, true);
      }
    }

    // ----- moving an item to the front

    /** Moves the item to the front, unless the list may not change: `remove` then leaves
        the item linked and the list is spoiled. An item that is linked nowhere is left alone
        in the list, the others being lost, unless the list may not change: then it is added. */
    method MoveToRoot(item: Item)
      requires Valid() && (item in items || Single(item))
      modifies this`root, this`tail, this`items, items, item
      ensures canChange && item in old(items) ==>
        Valid() && items == [item] + Without(old(items), old(IndexOf(item)))
      ensures !canChange && item in old(items) ==> forall s: seq<Item> :: !Describes(s)
      ensures item !in old(items) ==> Valid() && items == [item] + (if canChange then [] else old(items))
    {
      hide Describes, DescribesBut;
      if item in items {
        NotInWithout(item);
      }
      Remove(item, false);
      DescribesAnyway(item);
      AddToRoot(item);
    }
  }
}
