/**
 * `handleReorder`, the drag-and-drop handler shared by the ordered lists: the
 * dragged item is moved to the position of the item it was dropped on, and
 * the whole list is renumbered 1..n.
 */
module HandleReorder {
  import opened Wrappers
  import opened Lists

  /** An item of a reorderable list: its id, its order and the rest of its fields. */
  datatype Item<D> = Item(id: string, order: int, rest: D)

  /** A drag-end event: the dragged id and the id it was dropped on, if any. */
  datatype DragEnd = DragEnd(active: string, over: Option<string>)

  function Ids<D>(s: seq<Item<D>>): (r: seq<string>)
    ensures |r| == |s| && forall i :: 0 <= i < |s| ==> r[i] == s[i].id
  {
    seq(|s|, i requires 0 <= i < |s| => s[i].id)
  }

  /** The items without their orders. */
  function Contents<D>(s: seq<Item<D>>): (r: seq<(string, D)>)
    ensures |r| == |s| && forall i :: 0 <= i < |s| ==> r[i] == (s[i].id, s[i].rest)
  {
    seq(|s|, i requires 0 <= i < |s| => (s[i].id, s[i].rest))
  }

  /** `.map((it, i) => ({...it, order: i + 1}))`. */
  function Renumber<D>(s: seq<Item<D>>): (r: seq<Item<D>>)
    ensures |r| == |s|
    ensures forall i :: 0 <= i < |s| ==> r[i].order == i + 1
    ensures Contents(r) == Contents(s)
  {
    var r := seq(|s|, i requires 0 <= i < |s| => s[i].(order := i + 1));
    assert forall i :: 0 <= i < |s| ==> Contents(r)[i] == Contents(s)[i];
    r
  }

  function HasId<D>(id: string): Item<D> -> bool {
    (it: Item<D>) => it.id == id
  }

  /** The list passed to `onReorder`, or `None` when the handler returns without calling it. */
  function Reorder<D>(e: DragEnd, items: seq<Item<D>>): (r: Option<seq<Item<D>>>)
    ensures r.Some? <==> e.over.Some? && e.over.value != e.active && e.active in Ids(items) && e.over.value in Ids(items)
    ensures r.Some? ==> |r.value| == |items| && forall i :: 0 <= i < |items| ==> r.value[i].order == i + 1
  {
    if e.over.None? || e.active == e.over.value then None
    else
      var oldIndex := FindIndex(items, HasId(e.active));
      var newIndex := FindIndex(items, HasId(e.over.value));
      FoundIffListed(items, e.active);
      FoundIffListed(items, e.over.value);
      if oldIndex < 0 || newIndex < 0 then None
      else Some(Renumber(ArrayMove(items, oldIndex, newIndex)))
  }

  /** `findIndex` on the id finds an item iff the id is listed. */
  lemma FoundIffListed<D>(items: seq<Item<D>>, id: string)
    ensures FindIndex(items, HasId(id)) >= 0 <==> id in Ids(items)
  {
    var k := FindIndex(items, HasId(id));
    if k >= 0 {
      assert Ids(items)[k] == id;
    } else {
      assert forall i :: 0 <= i < |items| ==> Ids(items)[i] != id;
    }
  }

  lemma ContentsRemoveAt<D>(s: seq<Item<D>>, k: nat)
    requires k < |s|
    ensures Contents(RemoveAt(s, k)) == RemoveAt(Contents(s), k)
  {
    assert |Contents(RemoveAt(s, k))| == |RemoveAt(Contents(s), k)|;
  }

  lemma ContentsArrayMove<D>(items: seq<Item<D>>, from: nat, to: nat)
    requires from < |items| && to < |items|
    ensures Contents(ArrayMove(items, from, to)) == ArrayMove(Contents(items), from, to)
  {
    var m := ArrayMove(items, from, to);
    var c := Contents(items);
    ContentsRemoveAt(m, to);
    ContentsRemoveAt(items, from);
    var cm := ArrayMove(c, from, to);
    forall i | 0 <= i < |items|
      ensures Contents(m)[i] == cm[i]
    {
      if i < to {
        assert RemoveAt(m, to)[i] == m[i] && RemoveAt(cm, to)[i] == cm[i];
      } else if i > to {
        assert RemoveAt(m, to)[i - 1] == m[i] && RemoveAt(cm, to)[i - 1] == cm[i];
      }
    }
  }

  /**
   * A drop onto another listed item moves the dragged item, fields and all,
   * to the drop target's position, keeps every other item in its relative
   * order, and loses or duplicates nothing.
   */
  lemma ReorderMovesDragged<D>(e: DragEnd, items: seq<Item<D>>)
    requires Reorder(e, items).Some?
    ensures var r := Reorder(e, items).value;
            var oldIndex := FindIndex(items, HasId(e.active));
            var newIndex := FindIndex(items, HasId(e.over.value));
            0 <= oldIndex < |items| && 0 <= newIndex < |items| &&
            Contents(r)[newIndex] == Contents(items)[oldIndex] && r[newIndex].id == e.active &&
            RemoveAt(Contents(r), newIndex) == RemoveAt(Contents(items), oldIndex) &&
            multiset(Contents(r)) == multiset(Contents(items))
  {
    var oldIndex := FindIndex(items, HasId(e.active));
    var newIndex := FindIndex(items, HasId(e.over.value));
    ContentsArrayMove(items, oldIndex, newIndex);
  }
}
