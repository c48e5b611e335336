/**
 * The weapons of a build card: the new weapon plan the picker creates, and
 * the drag that renumbers the weapons and sends every new order in one batch.
 */
module BuildWeapons {
  import opened Wrappers
  import opened Lists
  import opened Entities
  import opened HandleReorder

  /** A listed weapon plan: its id, its order and the weapon. */
  type WeaponItem = Item<string>

  /** The fields of a weapon plan the picker creates. */
  datatype WeaponPlan = WeaponPlan(characterPlan: string, weapon: string, levelCurrent: int, levelTarget: int,
                                   refinementCurrent: int, refinementTarget: int, order: int)

  /** The weapons already in the build, which the picker does not list. */
  function IgnoredWeapons(weapons: seq<WeaponItem>): (r: set<string>)
    ensures forall w :: w in r <==> exists i :: 0 <= i < |weapons| && weapons[i].rest == w
  {
    set i | 0 <= i < |weapons| :: weapons[i].rest
  }

  /** The create request: level 0 to 90, refinement 1 to 5, ordered after the listed weapons. */
  function NewWeaponPlan(buildId: string, weaponId: string, weapons: seq<WeaponItem>): (p: WeaponPlan)
    ensures p.characterPlan == buildId && p.weapon == weaponId
    ensures p.levelCurrent == 0 && p.levelTarget == 90 && p.refinementCurrent == 1 && p.refinementTarget == 5
    ensures p.order == |weapons| + 1
  {
    WeaponPlan(buildId, weaponId, 0, 90, 1, 5, |weapons| + 1)
  }

  /**
   * Once the weapons are numbered 1..n, as every drag leaves them, a weapon
   * from the picker is new to the build and is ordered after all of them.
   */
  lemma NewWeaponGoesLast(buildId: string, weaponId: string, weapons: seq<WeaponItem>)
    requires forall i :: 0 <= i < |weapons| ==> weapons[i].order == i + 1
    requires weaponId !in IgnoredWeapons(weapons)
    ensures forall i :: 0 <= i < |weapons| ==>
              weapons[i].order < NewWeaponPlan(buildId, weaponId, weapons).order && weapons[i].rest != weaponId
  {
  }

  /** The list shown and dragged: the one of the reorder in flight, if any, else the stored one. */
  function Displayed(variables: Option<seq<WeaponItem>>, weapons: seq<WeaponItem>): seq<WeaponItem> {
    if variables.Some? then variables.value else weapons
  }

  /** `handleDragEnd`: the shared reorder rule applied to the list shown. */
  function WeaponsDragEnd(e: DragEnd, variables: Option<seq<WeaponItem>>, weapons: seq<WeaponItem>)
    : (r: Option<seq<WeaponItem>>)
    ensures r == Reorder(e, Displayed(variables, weapons))
  {
    var items := Displayed(variables, weapons);
    if e.over.None? || e.active == e.over.value then None
    else
      var oldIndex := FindIndex(items, HasId(e.active));
      var newIndex := FindIndex(items, HasId(e.over.value));
      if oldIndex < 0 || newIndex < 0 then None
      else Some(Renumber(ArrayMove(items, oldIndex, newIndex)))
  }

  /** One `update(id, {order})` per item, in list order. */
  function BatchOf(items: seq<WeaponItem>): (b: seq<OrderUpdate>)
    ensures |b| == |items|
    ensures forall i :: 0 <= i < |items| ==> b[i] == OrderUpdate(items[i].id, items[i].order)
  {
    seq(|items|, i requires 0 <= i < |items| => OrderUpdate(items[i].id, items[i].order))
  }

  /** The reorder mutation's loop adding one update per item to the batch. */
  method ReorderBatch(items: seq<WeaponItem>) returns (batch: seq<OrderUpdate>)
    ensures batch == BatchOf(items)
  {
    batch := [];
    for i := 0 to |items|
      invariant batch == BatchOf(items[..i])
    {
      assert items[..i + 1] == items[..i] + [items[i]];
      batch := batch + [OrderUpdate(items[i].id, items[i].order)];
    }
    assert items[..|items|] == items;
  }

  /**
   * A drag sends an update for every weapon: the orders are 1..n by the new
   * positions, the dragged weapon is at its drop position, and the ids sent
   * are the listed ids.
   */
  lemma DragSendsEveryWeapon(e: DragEnd, variables: Option<seq<WeaponItem>>, weapons: seq<WeaponItem>)
    requires WeaponsDragEnd(e, variables, weapons).Some?
    ensures var items := Displayed(variables, weapons);
            var b := BatchOf(WeaponsDragEnd(e, variables, weapons).value);
            |b| == |items| &&
            (forall i :: 0 <= i < |b| ==> b[i].order == i + 1) &&
            b[FindIndex(items, HasId(e.over.value))].id == e.active &&
            (forall id :: id in Ids(WeaponsDragEnd(e, variables, weapons).value) <==> id in Ids(items))
  {
    var items := Displayed(variables, weapons);
    var r := WeaponsDragEnd(e, variables, weapons).value;
    ReorderMovesDragged(e, items);
    IdsFollowContents(r, items);
  }

  /** Lists with the same contents up to order list the same ids. */
  lemma IdsFollowContents(a: seq<WeaponItem>, b: seq<WeaponItem>)
    requires multiset(Contents(a)) == multiset(Contents(b))
    ensures forall id :: id in Ids(a) <==> id in Ids(b)
  {
    forall id | id in Ids(a)
      ensures id in Ids(b)
    {
      var i :| 0 <= i < |a| && a[i].id == id;
      assert Contents(a)[i] in multiset(Contents(b));
      var j :| 0 <= j < |b| && Contents(b)[j] == Contents(a)[i];
      assert Ids(b)[j] == id;
    }
    forall id | id in Ids(b)
      ensures id in Ids(a)
    {
      var j :| 0 <= j < |b| && b[j].id == id;
      assert Contents(b)[j] in multiset(Contents(a));
      var i :| 0 <= i < |a| && Contents(a)[i] == Contents(b)[j];
      assert Ids(a)[i] == id;
    }
  }
}
