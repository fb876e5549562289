/** The ordered selection list kept by the top-level component (src/App.js). */
module App {
  import opened Wrappers
  import opened GroceryItem

  /** `items.some(selected => selected.id === id)`. */
  function HasId(items: seq<Item>, id: int): (found: bool)
    ensures found <==> exists i :: 0 <= i < |items| && items[i].id == id
    decreases |items|
  {
    if |items| == 0 then false
    else items[0].id == id || HasId(items[1..], id)
  }

  /** The number of entries carrying the given id. */
  function CountId(items: seq<Item>, id: int): (n: nat)
    ensures n <= |items|
    ensures n == 0 <==> !HasId(items, id)
    decreases |items|
  {
    if |items| == 0 then 0
    else (if items[0].id == id then 1 else 0) + CountId(items[1..], id)
  }

  /** `items.filter(selected => selected.id !== id)`. */
  function RemoveId(items: seq<Item>, id: int): (kept: seq<Item>)
    ensures |kept| == |items| - CountId(items, id)
    ensures forall e :: e in kept ==> e in items && e.id != id
    ensures forall i :: 0 <= i < |items| && items[i].id != id ==> items[i] in kept
    decreases |items|
  {
    if |items| == 0 then []
    else (if items[0].id == id then [] else [items[0]]) + RemoveId(items[1..], id)
  }

  /** The filter works element by element: it distributes over concatenation ... */
  lemma {:induction false} RemoveIdAppend(a: seq<Item>, b: seq<Item>, id: int)
    ensures RemoveId(a + b, id) == RemoveId(a, id) + RemoveId(b, id)
    decreases |a|
  {
    if |a| == 0 {
      assert a + b == b;
    } else {
      var head := if a[0].id == id then [] else [a[0]];
      assert (a + b)[0] == a[0];
      assert (a + b)[1..] == a[1..] + b;
      RemoveIdAppend(a[1..], b, id);
      assert RemoveId(a + b, id) == head + (RemoveId(a[1..], id) + RemoveId(b, id));
    }
  }

  /** ... and on one entry keeps it exactly when its id differs, so it keeps the remaining order. */
  lemma RemoveIdSingle(e: Item, id: int)
    ensures RemoveId([e], id) == if e.id == id then [] else [e]
  {
  }

  /** Filtering out an id that is absent changes nothing. */
  lemma {:induction false} RemoveIdAbsent(items: seq<Item>, id: int)
    requires !HasId(items, id)
    ensures RemoveId(items, id) == items
    decreases |items|
  {
    if |items| > 0 {
      assert !HasId(items[1..], id);
      RemoveIdAbsent(items[1..], id);
    }
  }

  /** `handleItemSelect`: remove the item's id if it is present, otherwise append the item. */
  function ToggleSelection(items: seq<Item>, item: Item): (next: seq<Item>)
    ensures HasId(next, item.id) <==> !HasId(items, item.id)
    ensures !HasId(items, item.id) ==> next == items + [item]
    ensures HasId(items, item.id) ==> |next| == |items| - CountId(items, item.id)
    ensures HasId(items, item.id) ==>
      forall i :: 0 <= i < |items| && items[i].id != item.id ==> items[i] in next
    ensures HasId(items, item.id) ==> forall e :: e in next ==> e in items
  {
    if HasId(items, item.id) then RemoveId(items, item.id)
    else
      assert HasId(items + [item], item.id) by { assert (items + [item])[|items|].id == item.id; }
      items + [item]
  }

  /** `handleClearSelection`: the list becomes empty whatever it held. */
  function ClearSelection(items: seq<Item>): (next: seq<Item>)
    ensures |next| == 0
    ensures forall id :: !HasId(next, id)
  {
    []
  }

  /** Presence is decided by id alone: a different record with the same id removes the entry. */
  lemma ToggleMatchesById(items: seq<Item>, stored: Item, clicked: Item)
    requires stored in items && stored.id == clicked.id && stored != clicked
    ensures stored !in ToggleSelection(items, clicked)
    ensures |ToggleSelection(items, clicked)| < |items|
  {
  }

  /** Pairwise-distinct ids, the shape the list keeps when it is only changed by toggling. */
  ghost predicate DistinctIds(items: seq<Item>)
  {
    forall i, j :: 0 <= i < j < |items| ==> items[i].id != items[j].id
  }

  /** The tail of a distinct list is distinct and avoids the head's id. */
  lemma DistinctTail(items: seq<Item>)
    requires |items| > 0 && DistinctIds(items)
    ensures DistinctIds(items[1..])
    ensures forall e :: e in items[1..] ==> e.id != items[0].id
  {
  }

  /** Prepending an entry whose id the rest avoids keeps the list distinct. */
  lemma DistinctCons(x: Item, rest: seq<Item>)
    requires DistinctIds(rest)
    requires forall e :: e in rest ==> e.id != x.id
    ensures DistinctIds([x] + rest)
  {
  }

  lemma {:induction false} RemoveIdKeepsDistinct(items: seq<Item>, id: int)
    requires DistinctIds(items)
    ensures DistinctIds(RemoveId(items, id))
    decreases |items|
  {
    if |items| > 0 {
      DistinctTail(items);
      RemoveIdKeepsDistinct(items[1..], id);
      var rest := RemoveId(items[1..], id);
      if items[0].id != id {
        DistinctCons(items[0], rest);
      } else {
        assert RemoveId(items, id) == rest;
      }
    }
  }

  /** Toggling keeps the ids of the selection pairwise distinct. */
  lemma ToggleKeepsDistinct(items: seq<Item>, item: Item)
    requires DistinctIds(items)
    ensures DistinctIds(ToggleSelection(items, item))
  {
    if HasId(items, item.id) {
      RemoveIdKeepsDistinct(items, item.id);
    } else {
      var next := items + [item];
      forall i, j | 0 <= i < j < |next| ensures next[i].id != next[j].id {
        if j == |items| {
          assert next[i] == items[i];
        } else {
          assert next[i] == items[i] && next[j] == items[j];
        }
      }
    }
  }

  /** Toggling an absent item twice gives back the original list. */
  lemma ToggleTwiceAbsent(items: seq<Item>, item: Item)
    requires !HasId(items, item.id)
    ensures ToggleSelection(ToggleSelection(items, item), item) == items
  {
    var once := ToggleSelection(items, item);
    assert once == items + [item];
    RemoveIdAppend(items, [item], item.id);
    RemoveIdSingle(item, item.id);
    RemoveIdAbsent(items, item.id);
  }

  /** Toggling a present item twice drops every entry with its id and puts the item last. */
  lemma ToggleTwicePresent(items: seq<Item>, item: Item)
    requires HasId(items, item.id)
    ensures ToggleSelection(ToggleSelection(items, item), item) == RemoveId(items, item.id) + [item]
  {
  }

  /** So toggling twice is not the identity in general: a selected first entry moves to the back. */
  lemma ToggleTwiceReorders()
    ensures var a := Item(1, "Milk", "Dairy", "A", None, None);
            var b := Item(2, "Bread", "Bakery", "B", None, None);
            ToggleSelection(ToggleSelection([a, b], a), a) == [b, a]
  {
  }
}
