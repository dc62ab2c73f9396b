/**
 * The order primitives of src/utils/dragAndDrop.ts.
 *
 * `calculateNewOrder` and the destination half of `reorderItemsAcrossColumns`
 * copy the list into a fresh array, splice it in place and renumber it; they
 * are methods over an `array`, each proved equal to a specification function
 * (`NewOrder`, `DestinationAfterMove`). The lemmas about what a reorder means
 * are stated about those functions.
 */
module DragAndDrop {
  import opened Items

  /** The closest edge reported by the hit-box library. */
  datatype Edge = Top | Right | Bottom | Left

  /** `filter((_, index) => index !== i)`: the list without position `i`; an index outside the list removes nothing. */
  function RemoveAt<T>(s: seq<T>, i: int): (r: seq<T>)
    ensures 0 <= i < |s| ==> |r| == |s| - 1
    ensures 0 <= i < |s| ==> forall k {:trigger r[k]} :: 0 <= k < |r| ==> r[k] == if k < i then s[k] else s[k + 1]
    ensures !(0 <= i < |s|) ==> r == s
  {
    if 0 <= i < |s| then s[..i] + s[i + 1..] else s
  }

  /** Filtering out the one row that carries `id` removes its position. */
  lemma {:induction false} FilterOutOnlyAt<F>(s: seq<Item<F>>, at: nat, id: string)
    requires at < |s| && s[at].id == id
    requires forall j :: 0 <= j < |s| && j != at ==> s[j].id != id
    ensures Filter(s, IdIsNot(id)) == RemoveAt(s, at)
  {
    var front, back := s[..at], s[at + 1..];
    calc {
      Filter(s, IdIsNot(id));
    == { assert s == front + [s[at]] + back; }
      Filter(front + [s[at]] + back, IdIsNot(id));
    == { forall j | 0 <= j < |front| ensures IdIsNot(id)(front[j]) {
           assert front[j] == s[j];
         }
         forall j | 0 <= j < |back| ensures IdIsNot(id)(back[j]) {
           assert back[j] == s[at + 1 + j];
         }
         FilterDropsOne(front, s[at], back, IdIsNot(id)); }
      front + back;
    ==
      RemoveAt(s, at);
    }
  }

  /** Ids stay unique when a row whose id nothing else carries is put back where it was removed from. */
  lemma {:induction false} UniqueAroundRemoval<F>(s: seq<Item<F>>, at: nat)
    requires at < |s| && UniqueIds(RemoveAt(s, at))
    requires forall j :: 0 <= j < |s| && j != at ==> s[j].id != s[at].id
    ensures UniqueIds(s)
  {
    var rest := RemoveAt(s, at);
    forall a, b | 0 <= a < b < |s| ensures s[a].id != s[b].id {
      if a != at && b != at {
        var a', b' := if a < at then a else a - 1, if b < at then b else b - 1;
        assert s[a] == rest[a'] && s[b] == rest[b'];
      }
    }
  }

  /** `splice(i, 0, x)` on a copy: an index past the end is clamped to the end, as JavaScript does. */
  function InsertAt<T>(s: seq<T>, i: nat, x: T): (r: seq<T>)
    ensures |r| == |s| + 1
    ensures r[if i <= |s| then i else |s|] == x
    ensures RemoveAt(r, if i <= |s| then i else |s|) == s
  {
    var at := if i <= |s| then i else |s|;
    var r := s[..at] + [x] + s[at..];
    assert r[..at] == s[..at] && r[at + 1..] == s[at..];
    assert RemoveAt(r, at) == r[..at] + r[at + 1..];
    r
  }

  /** Where the removed item is re-inserted: one slot lower when it moves down, because its removal shifted the rest up. */
  function AdjustedIndex(sourceIndex: nat, destinationIndex: nat): (r: nat)
    ensures sourceIndex < destinationIndex ==> r + 1 == destinationIndex
    ensures sourceIndex >= destinationIndex ==> r == destinationIndex
  {
    if sourceIndex < destinationIndex then destinationIndex - 1 else destinationIndex
  }

  /** The list after moving the item at `sourceIndex`, before renumbering. */
  function Moved<T>(s: seq<T>, sourceIndex: nat, destinationIndex: nat): (r: seq<T>)
    requires sourceIndex < |s| && destinationIndex <= |s|
    ensures |r| == |s|
  {
    InsertAt(RemoveAt(s, sourceIndex), AdjustedIndex(sourceIndex, destinationIndex), s[sourceIndex])
  }

  /** Specification of `calculateNewOrder(items, sourceIndex, destinationIndex)`. */
  function NewOrder<F>(items: seq<Item<F>>, sourceIndex: nat, destinationIndex: nat): (r: seq<Item<F>>)
    requires sourceIndex < |items| && destinationIndex <= |items|
    ensures |r| == |items| && Dense(r)
  {
    Renumber(Moved(items, sourceIndex, destinationIndex))
  }

  /** Position `j` of a moved list, spelled out: a rotation of the slots between the source and the adjusted destination. */
  lemma MovedAt<T>(s: seq<T>, sourceIndex: nat, destinationIndex: nat, j: nat)
    requires sourceIndex < |s| && destinationIndex <= |s| && j < |s|
    ensures var a := AdjustedIndex(sourceIndex, destinationIndex);
            Moved(s, sourceIndex, destinationIndex)[j] ==
              if j == a then s[sourceIndex]
              else if j < sourceIndex && j < a then s[j]
              else if j > sourceIndex && j > a then s[j]
              else if sourceIndex < a then s[j + 1]
              else s[j - 1]
  {
    var a := AdjustedIndex(sourceIndex, destinationIndex);
    var removed := RemoveAt(s, sourceIndex);
    var m := Moved(s, sourceIndex, destinationIndex);
    assert m == removed[..a] + [s[sourceIndex]] + removed[a..];
    if j < a {
      assert m[j] == removed[j];
    } else if j > a {
      assert m[j] == removed[j - 1];
    }
  }

  /**
   * calculateNewOrder: copy `items` into an array, splice out the item at
   * `sourceIndex`, splice it back in at the adjusted destination, then give
   * every element its position as display_order.
   */
  method CalculateNewOrder<F>(items: seq<Item<F>>, sourceIndex: nat, destinationIndex: nat) returns (r: seq<Item<F>>)
    requires sourceIndex < |items| && destinationIndex <= |items|
    ensures r == NewOrder(items, sourceIndex, destinationIndex)
  {
    var result := new Item<F>[|items|](i requires 0 <= i < |items| => items[i]);
    assert result[..] == items;
    MoveInPlace(result, sourceIndex, destinationIndex);
    ghost var moved := result[..];
    assert moved == Moved(items, sourceIndex, destinationIndex);
    RenumberInPlace(result);
    r := result[..];
    assert r == Renumber(moved);
  }

  /** The two splices of calculateNewOrder on the copied array: take out `sourceIndex`, put it back at the adjusted destination. */
  method MoveInPlace<T>(a: array<T>, sourceIndex: nat, destinationIndex: nat)
    requires sourceIndex < a.Length && destinationIndex <= a.Length
    modifies a
    ensures a[..] == Moved(old(a[..]), sourceIndex, destinationIndex)
  {
    ghost var items := a[..];
    var removed := a[sourceIndex];
    var adjusted := if sourceIndex < destinationIndex then destinationIndex - 1 else destinationIndex;
    // the slots between the source and the adjusted destination each move by one
    if sourceIndex <= adjusted {
      ShiftDown(a, sourceIndex, adjusted);
    } else {
      ShiftUp(a, adjusted, sourceIndex);
    }
    a[adjusted] := removed;
    ghost var moved := Moved(items, sourceIndex, destinationIndex);
    forall j | 0 <= j < a.Length ensures a[j] == moved[j] {
      MovedAt(items, sourceIndex, destinationIndex, j);
    }
  }

  /** Slots `from + 1 .. to` each move one place down, to `from .. to - 1`. */
  method ShiftDown<T>(a: array<T>, from: nat, to: nat)
    requires from <= to < a.Length
    modifies a
    ensures forall j :: 0 <= j < a.Length ==> a[j] == if from <= j < to then old(a[j + 1]) else old(a[j])
  {
    var k := from;
    while k < to
      invariant from <= k <= to
      invariant forall j :: 0 <= j < a.Length ==> a[j] == if from <= j < k then old(a[j + 1]) else old(a[j])
    {
      a[k] := a[k + 1];
      k := k + 1;
    }
  }

  /** Slots `to .. from - 1` each move one place up, to `to + 1 .. from`. */
  method ShiftUp<T>(a: array<T>, to: nat, from: nat)
    requires to <= from < a.Length
    modifies a
    ensures forall j :: 0 <= j < a.Length ==> a[j] == if to < j <= from then old(a[j - 1]) else old(a[j])
  {
    var k := from;
    while k > to
      invariant to <= k <= from
      invariant forall j :: 0 <= j < a.Length ==> a[j] == if k < j <= from then old(a[j - 1]) else old(a[j])
    {
      a[k] := a[k - 1];
      k := k - 1;
    }
  }

  /** The `map` that renumbers an array: element i gets display_order i. */
  method RenumberInPlace<F>(a: array<Item<F>>)
    modifies a
    ensures a[..] == Renumber(old(a[..]))
  {
    var i := 0;
    while i < a.Length
      invariant 0 <= i <= a.Length
      invariant forall j :: 0 <= j < i ==> a[j] == old(a[j]).(displayOrder := Some(j))
      invariant forall j :: i <= j < a.Length ==> a[j] == old(a[j])
    {
      a[i] := a[i].(displayOrder := Some(i));
      i := i + 1;
    }
  }

  /** The source half of `reorderItemsAcrossColumns`: the source list without `sourceIndex`, renumbered. */
  function SourceAfterMove<F>(sourceItems: seq<Item<F>>, sourceIndex: int): (r: seq<Item<F>>)
    ensures Dense(r)
    ensures 0 <= sourceIndex < |sourceItems| ==> |r| == |sourceItems| - 1
    ensures Unordered(r) == RemoveAt(Unordered(sourceItems), sourceIndex)
  {
    Renumber(RemoveAt(sourceItems, sourceIndex))
  }

  /** The destination half of `reorderItemsAcrossColumns`: `movedItem` spliced in at `destinationIndex`, renumbered. */
  function DestinationAfterMove<F>(destinationItems: seq<Item<F>>, destinationIndex: nat, movedItem: Item<F>): (r: seq<Item<F>>)
    ensures |r| == |destinationItems| + 1 && Dense(r)
    ensures var at := if destinationIndex <= |destinationItems| then destinationIndex else |destinationItems|;
            WithoutOrder(r[at]) == WithoutOrder(movedItem) &&
            RemoveAt(Unordered(r), at) == Unordered(destinationItems)
  {
    var at := if destinationIndex <= |destinationItems| then destinationIndex else |destinationItems|;
    var inserted := InsertAt(destinationItems, destinationIndex, movedItem);
    UnorderedInsertAt(destinationItems, destinationIndex, movedItem);
    Renumber(inserted)
  }

  /**
   * reorderItemsAcrossColumns: the source half filters and renumbers; the
   * destination half copies the list into an array one slot longer, splices
   * `movedItem` in and renumbers.
   */
  method ReorderItemsAcrossColumns<F>(sourceItems: seq<Item<F>>, destinationItems: seq<Item<F>>,
                                      sourceIndex: int, destinationIndex: nat, movedItem: Item<F>)
    returns (updatedSource: seq<Item<F>>, updatedDestination: seq<Item<F>>)
    ensures updatedSource == SourceAfterMove(sourceItems, sourceIndex)
    ensures updatedDestination == DestinationAfterMove(destinationItems, destinationIndex, movedItem)
  {
    updatedSource := Renumber(RemoveAt(sourceItems, sourceIndex));
    var dest := SpliceInto(destinationItems, destinationIndex, movedItem);
    RenumberInPlace(dest);
    updatedDestination := dest[..];
  }

  /** `Array.from(items)` followed by `splice(destinationIndex, 0, movedItem)`, into an array one slot longer. */
  method SpliceInto<F>(items: seq<Item<F>>, destinationIndex: nat, movedItem: Item<F>) returns (dest: array<Item<F>>)
    ensures fresh(dest)
    ensures dest[..] == InsertAt(items, destinationIndex, movedItem)
  {
    var m := |items|;
    var at := if destinationIndex <= m then destinationIndex else m;
    dest := new Item<F>[m + 1](i requires 0 <= i <= m => if i < m then items[i] else movedItem);
    ShiftUp(dest, at, m);
    dest[at] := movedItem;
    ghost var spliced := items[..at] + [movedItem] + items[at..];
    assert dest[..] == spliced by {
      forall j | 0 <= j <= m ensures dest[j] == spliced[j] {
        if j < at {
          assert spliced[j] == items[..at][j];
        } else if j > at {
          assert spliced[j] == items[at..][j - at - 1];
        }
      }
    }
  }

  /** getItemIndex: `findIndex` by id, -1 when absent. */
  function GetItemIndex<F>(items: seq<Item<F>>, itemId: string): (r: int)
    ensures -1 <= r < |items|
    ensures r == -1 <==> forall i :: 0 <= i < |items| ==> items[i].id != itemId
    ensures r >= 0 ==> items[r].id == itemId && forall j :: 0 <= j < r ==> items[j].id != itemId
  {
    if items == [] then -1
    else if items[0].id == itemId then 0
    else
      var k := GetItemIndex(items[1..], itemId);
      assert forall i :: 1 <= i < |items| ==> items[i] == items[1..][i - 1];
      if k == -1 then -1 else k + 1
  }

  /** getReorderDestinationIndex: the target's own slot, or the slot after it for a drop on its bottom edge. */
  function GetReorderDestinationIndex(startIndex: int, indexOfTarget: int, closestEdgeOfTarget: Option<Edge>): (r: int)
    ensures r == indexOfTarget + 1 <==> closestEdgeOfTarget == Some(Bottom)
    ensures r == indexOfTarget <==> closestEdgeOfTarget != Some(Bottom)
  {
    if closestEdgeOfTarget == Some(Bottom) then indexOfTarget + 1 else indexOfTarget
  }

  /** shouldReorder: a move is worth making only between different positions. */
  function ShouldReorder(sourceIndex: int, destinationIndex: int): (r: bool)
    ensures r <==> sourceIndex != destinationIndex
  {
    sourceIndex != destinationIndex
  }

  // ---------------------------------------------------------------------------
  // Properties of the primitives

  /** The moved item lands at the adjusted destination and every other item keeps its relative order. */
  lemma NewOrderPlacement<F>(items: seq<Item<F>>, sourceIndex: nat, destinationIndex: nat)
    requires sourceIndex < |items| && destinationIndex <= |items|
    ensures var r := NewOrder(items, sourceIndex, destinationIndex);
            var a := AdjustedIndex(sourceIndex, destinationIndex);
            a < |r| &&
            WithoutOrder(r[a]) == WithoutOrder(items[sourceIndex]) &&
            RemoveAt(Unordered(r), a) == RemoveAt(Unordered(items), sourceIndex)
  {
    var a := AdjustedIndex(sourceIndex, destinationIndex);
    var removed := RemoveAt(items, sourceIndex);
    UnorderedRemoveAt(items, sourceIndex);
    UnorderedInsertAt(removed, a, items[sourceIndex]);
    assert Unordered(NewOrder(items, sourceIndex, destinationIndex)) ==
           InsertAt(RemoveAt(Unordered(items), sourceIndex), a, WithoutOrder(items[sourceIndex]));
  }

  /** Forgetting display_order commutes with removing a position. */
  lemma UnorderedRemoveAt<F>(s: seq<Item<F>>, i: nat)
    requires i < |s|
    ensures Unordered(RemoveAt(s, i)) == RemoveAt(Unordered(s), i)
  {
    var l, r := Unordered(RemoveAt(s, i)), RemoveAt(Unordered(s), i);
    forall k | 0 <= k < |l| ensures l[k] == r[k] {
    }
  }

  /** Forgetting display_order commutes with a splice. */
  lemma UnorderedInsertAt<F>(s: seq<Item<F>>, i: nat, x: Item<F>)
    ensures Unordered(InsertAt(s, i, x)) == InsertAt(Unordered(s), i, WithoutOrder(x))
  {
    var at := if i <= |s| then i else |s|;
    var l, r := Unordered(InsertAt(s, i, x)), InsertAt(Unordered(s), i, WithoutOrder(x));
    assert InsertAt(s, i, x) == s[..at] + [x] + s[at..];
    assert r == Unordered(s)[..at] + [WithoutOrder(x)] + Unordered(s)[at..];
    forall k | 0 <= k < |l| ensures l[k] == r[k] {
      if k < at {
        assert InsertAt(s, i, x)[k] == s[k];
      } else if k > at {
        assert InsertAt(s, i, x)[k] == s[k - 1];
      }
    }
  }

  /** Only display_order differs: the result is a permutation of the input once orders are forgotten. */
  lemma NewOrderPermutation<F>(items: seq<Item<F>>, sourceIndex: nat, destinationIndex: nat)
    requires sourceIndex < |items| && destinationIndex <= |items|
    ensures multiset(Unordered(NewOrder(items, sourceIndex, destinationIndex))) == multiset(Unordered(items))
  {
    var a := AdjustedIndex(sourceIndex, destinationIndex);
    var u := Unordered(items);
    var r := Unordered(NewOrder(items, sourceIndex, destinationIndex));
    NewOrderPlacement(items, sourceIndex, destinationIndex);
    RemoveAtMultiset(r, a);
    RemoveAtMultiset(u, sourceIndex);
  }

  lemma RemoveAtMultiset<T>(s: seq<T>, i: nat)
    requires i < |s|
    ensures multiset(s) == multiset(RemoveAt(s, i)) + multiset{s[i]}
  {
    assert s == s[..i] + [s[i]] + s[i + 1..];
  }

  /** Dropping an item on its own slot, or on the slot just below it, keeps the item order and only renumbers. */
  lemma NewOrderStationary<F>(items: seq<Item<F>>, i: nat, destinationIndex: nat)
    requires i < |items| && (destinationIndex == i || destinationIndex == i + 1)
    ensures Unordered(NewOrder(items, i, destinationIndex)) == Unordered(items)
  {
    var m := Moved(items, i, destinationIndex);
    forall j | 0 <= j < |items| ensures m[j] == items[j] {
      MovedAt(items, i, destinationIndex, j);
    }
    assert m == items;
  }

  /** On a densely numbered list a stationary move returns the list itself: orders are unchanged too. */
  lemma NewOrderStationaryDense<F>(items: seq<Item<F>>, i: nat, destinationIndex: nat)
    requires Dense(items)
    requires i < |items| && (destinationIndex == i || destinationIndex == i + 1)
    ensures NewOrder(items, i, destinationIndex) == items
  {
    var r := NewOrder(items, i, destinationIndex);
    NewOrderStationary(items, i, destinationIndex);
    forall j | 0 <= j < |items| ensures r[j] == items[j] {
      assert Unordered(r)[j] == Unordered(items)[j];
    }
  }

  /** When shouldReorder says no, calculateNewOrder would keep every item in place and only renumber. */
  lemma ShouldReorderOnlyWhenMoving<F>(items: seq<Item<F>>, sourceIndex: nat, destinationIndex: nat)
    requires sourceIndex < |items| && !ShouldReorder(sourceIndex, destinationIndex)
    ensures Unordered(NewOrder(items, sourceIndex, destinationIndex)) == Unordered(items)
    ensures Dense(items) ==> NewOrder(items, sourceIndex, destinationIndex) == items
  {
    NewOrderStationary(items, sourceIndex, destinationIndex);
    if Dense(items) {
      NewOrderStationaryDense(items, sourceIndex, destinationIndex);
    }
  }

  /**
   * Moving the first of four items to destination index 3 puts it third, not
   * last: the destination is adjusted down by one before the re-insertion.
   */
  lemma {:induction false} DownwardMoveOfFirstOfFour<F>(a: Item<F>, b: Item<F>, c: Item<F>, d: Item<F>)
    ensures Unordered(NewOrder([a, b, c, d], 0, 3)) == Unordered([b, c, a, d])
    ensures NewOrder([a, b, c, d], 0, 3) == Renumber([b, c, a, d])
  {
    var items := [a, b, c, d];
    var m := Moved(items, 0, 3);
    forall j | 0 <= j < 4 ensures m[j] == [b, c, a, d][j] {
      MovedAt(items, 0, 3, j);
    }
    assert m == [b, c, a, d];
  }

  /**
   * The source column after a move is the old column without the moved row,
   * in order, renumbered from 0; its ids stay unique and no longer include the
   * moved row's id when the old column's ids were unique.
   */
  lemma {:induction false} SourceKeepsOthers<F>(sourceItems: seq<Item<F>>, sourceIndex: nat)
    requires sourceIndex < |sourceItems|
    ensures var updated := SourceAfterMove(sourceItems, sourceIndex);
            var rest := RemoveAt(sourceItems, sourceIndex);
            && |updated| == |rest|
            && (forall k :: 0 <= k < |updated| ==>
                  WithoutOrder(updated[k]) == WithoutOrder(rest[k]) && updated[k].displayOrder == Some(k))
            && (UniqueIds(sourceItems) ==>
                  UniqueIds(updated) && forall k :: 0 <= k < |updated| ==> updated[k].id != sourceItems[sourceIndex].id)
  {
    var updated := SourceAfterMove(sourceItems, sourceIndex);
    var rest := RemoveAt(sourceItems, sourceIndex);
    forall k | 0 <= k < |updated| ensures WithoutOrder(updated[k]) == WithoutOrder(rest[k]) {
      assert Unordered(updated)[k] == RemoveAt(Unordered(sourceItems), sourceIndex)[k];
    }
    assert UniqueIds(sourceItems) ==>
             UniqueIds(updated) && forall k :: 0 <= k < |updated| ==> updated[k].id != sourceItems[sourceIndex].id
    by {
      if UniqueIds(sourceItems) {
        forall a, b | 0 <= a < b < |updated| ensures updated[a].id != updated[b].id {
          SourceIdAt(sourceItems, sourceIndex, a);
          SourceIdAt(sourceItems, sourceIndex, b);
        }
        forall k | 0 <= k < |updated| ensures updated[k].id != sourceItems[sourceIndex].id {
          SourceIdAt(sourceItems, sourceIndex, k);
        }
      }
    }
  }

  /** The id at each slot of the source column after a move: the old column's, skipping the moved row. */
  lemma {:induction false} SourceIdAt<F>(sourceItems: seq<Item<F>>, sourceIndex: nat, k: nat)
    requires sourceIndex < |sourceItems| && k < |sourceItems| - 1
    ensures SourceAfterMove(sourceItems, sourceIndex)[k].id == sourceItems[if k < sourceIndex then k else k + 1].id
  {
    var updated := SourceAfterMove(sourceItems, sourceIndex);
    assert Unordered(updated)[k] == RemoveAt(Unordered(sourceItems), sourceIndex)[k];
  }

  /** The row of the new source column at `k` stands for the old column's row it came from, which is not the moved one. */
  lemma {:induction false} SourceRowOrigin<F>(sourceItems: seq<Item<F>>, sourceIndex: nat, k: nat)
    requires UniqueIds(sourceItems) && sourceIndex < |sourceItems| && k < |sourceItems| - 1
    ensures var updated := SourceAfterMove(sourceItems, sourceIndex);
            var row := sourceItems[if k < sourceIndex then k else k + 1];
            && updated[k].id == row.id && updated[k].fields == row.fields
            && row.id != sourceItems[sourceIndex].id
  {
    var updated := SourceAfterMove(sourceItems, sourceIndex);
    var m := if k < sourceIndex then k else k + 1;
    assert WithoutOrder(updated[k]) == WithoutOrder(sourceItems[m]) by {
      assert Unordered(updated)[k] == RemoveAt(Unordered(sourceItems), sourceIndex)[k];
    }
  }

  /** Every row of the old destination column sits, renumbered, just before or just after the inserted slot. */
  lemma {:induction false} DestinationRest<F>(destinationItems: seq<Item<F>>, at: nat, movedItem: Item<F>)
    requires at <= |destinationItems|
    ensures var updated := DestinationAfterMove(destinationItems, at, movedItem);
            forall j :: 0 <= j < |destinationItems| ==>
              WithoutOrder(updated[if j < at then j else j + 1]) == WithoutOrder(destinationItems[j]) &&
              updated[if j < at then j else j + 1].displayOrder == Some(if j < at then j else j + 1)
  {
    var updated := DestinationAfterMove(destinationItems, at, movedItem);
    var unordered := Unordered(updated);
    forall j | 0 <= j < |destinationItems|
      ensures WithoutOrder(updated[if j < at then j else j + 1]) == WithoutOrder(destinationItems[j])
    {
      var q := if j < at then j else j + 1;
      assert RemoveAt(unordered, at)[j] == unordered[q];
      assert Unordered(destinationItems)[j] == WithoutOrder(destinationItems[j]);
    }
  }

  /**
   * Apart from the inserted row, the destination column after a move is the
   * old column in its old order, each row renumbered to its slot: its old
   * position below the insertion point, one more from it on.
   */
  lemma {:induction false} DestinationKeepsOthers<F>(destinationItems: seq<Item<F>>, at: nat, movedItem: Item<F>)
    requires at <= |destinationItems|
    requires forall j :: 0 <= j < |destinationItems| ==> destinationItems[j].id != movedItem.id
    ensures var updated := DestinationAfterMove(destinationItems, at, movedItem);
            var others := Filter(updated, IdIsNot(movedItem.id));
            && others == RemoveAt(updated, at)
            && |others| == |destinationItems|
            && (forall j :: 0 <= j < |others| ==>
                  WithoutOrder(others[j]) == WithoutOrder(destinationItems[j]) &&
                  others[j].displayOrder == Some(if j < at then j else j + 1))
            && (UniqueIds(destinationItems) ==> UniqueIds(updated))
  {
    var updated := DestinationAfterMove(destinationItems, at, movedItem);
    assert Filter(updated, IdIsNot(movedItem.id)) == RemoveAt(updated, at) by {
      DestinationOthersAreRest(destinationItems, at, movedItem);
    }
    var rest := RemoveAt(updated, at);
    forall j | 0 <= j < |rest|
      ensures WithoutOrder(rest[j]) == WithoutOrder(destinationItems[j])
      ensures rest[j].displayOrder == Some(if j < at then j else j + 1)
    {
      DestinationRowAt(destinationItems, at, movedItem, j);
      assert rest[j] == updated[if j < at then j else j + 1];
    }
    assert UniqueIds(destinationItems) ==> UniqueIds(updated) by {
      if UniqueIds(destinationItems) {
        DestinationUniqueAfterMove(destinationItems, at, movedItem);
      }
    }
  }

  /** The row of the old destination column at `j`, renumbered, sits just before or just after the inserted slot. */
  lemma {:induction false} DestinationRowAt<F>(destinationItems: seq<Item<F>>, at: nat, movedItem: Item<F>, j: nat)
    requires at <= |destinationItems| && j < |destinationItems|
    ensures var updated := DestinationAfterMove(destinationItems, at, movedItem);
            var q := if j < at then j else j + 1;
            WithoutOrder(updated[q]) == WithoutOrder(destinationItems[j]) && updated[q].displayOrder == Some(q)
  {
    DestinationRest(destinationItems, at, movedItem);
  }

  /** Filtering the moved id out of the destination column takes out exactly the inserted slot. */
  lemma {:induction false} DestinationOthersAreRest<F>(destinationItems: seq<Item<F>>, at: nat, movedItem: Item<F>)
    requires at <= |destinationItems|
    requires forall j :: 0 <= j < |destinationItems| ==> destinationItems[j].id != movedItem.id
    ensures var updated := DestinationAfterMove(destinationItems, at, movedItem);
            Filter(updated, IdIsNot(movedItem.id)) == RemoveAt(updated, at)
  {
    var updated := DestinationAfterMove(destinationItems, at, movedItem);
    DestinationRest(destinationItems, at, movedItem);
    forall j | 0 <= j < |updated| && j != at
      ensures updated[j].id != movedItem.id
    {
      var k := if j < at then j else j - 1;
      assert WithoutOrder(updated[j]) == WithoutOrder(destinationItems[k]);
    }
    FilterOutOnlyAt(updated, at, movedItem.id);
  }

  /** Moving a row whose id the destination lacks into a column of distinct ids keeps the ids distinct. */
  lemma {:induction false} DestinationUniqueAfterMove<F>(destinationItems: seq<Item<F>>, at: nat, movedItem: Item<F>)
    requires at <= |destinationItems| && UniqueIds(destinationItems)
    requires forall j :: 0 <= j < |destinationItems| ==> destinationItems[j].id != movedItem.id
    ensures UniqueIds(DestinationAfterMove(destinationItems, at, movedItem))
  {
    var updated := DestinationAfterMove(destinationItems, at, movedItem);
    forall a, b | 0 <= a < b < |updated| ensures updated[a].id != updated[b].id {
      DestinationIdAt(destinationItems, at, movedItem, a);
      DestinationIdAt(destinationItems, at, movedItem, b);
    }
  }

  /** The id at each slot of the destination column after a move. */
  lemma {:induction false} DestinationIdAt<F>(destinationItems: seq<Item<F>>, at: nat, movedItem: Item<F>, i: nat)
    requires at <= |destinationItems| && i <= |destinationItems|
    ensures DestinationAfterMove(destinationItems, at, movedItem)[i].id ==
            if i == at then movedItem.id else destinationItems[if i < at then i else i - 1].id
  {
    var updated := DestinationAfterMove(destinationItems, at, movedItem);
    if i == at {
      assert WithoutOrder(updated[at]) == WithoutOrder(movedItem);
    } else {
      var j := if i < at then i else i - 1;
      DestinationRest(destinationItems, at, movedItem);
      assert WithoutOrder(updated[i]) == WithoutOrder(destinationItems[j]);
    }
  }

  /** getItemIndex and `find` by id agree: both pick the first row carrying the id. */
  lemma FindByIdIsIndexed<F>(s: seq<Item<F>>, id: string)
    ensures var k := GetItemIndex(s, id);
            FindById(s, id) == if k == -1 then None else Some(s[k])
  {
    var k := GetItemIndex(s, id);
    var f := FindById(s, id);
    if f.Some? {
      var i :| 0 <= i < |s| && s[i] == f.value && forall j :: 0 <= j < i ==> s[j].id != id;
      assert i == k;
    }
  }
}
