/** The older revision of the drop handling (Code/GameUtils/ItemPlacementManager.swift),
    an extension of the same game scene: `setFoodItemDown` answers whether the food
    stayed where it was dropped, `combine` applies the portion policy without telling
    a tutorial, and the tile handlers act on the food directly. The table handler
    takes the dragged food, not the dish on the table, out of the scene. The scene
    and the food instances are those of the current revision, whose foods follow the
    current recipe tables. */
module LegacyKitchen {
  import opened Wrappers
  import opened Collections
  import opened FoodItems
  import opened Tiles
  import opened TileGrid
  import opened Foods
  import opened Customers
  import opened Placement
  import GameScene = Kitchen

  /** The effect of the older `combine(incomingFood:existingFood:resultingItem:)` on
      the scene `k` whose food was `fs`: the portion policy of `CombineStates`, then
      the incoming food goes back to the drag's origin, stays, or leaves the scene.
      The instance that becomes the result goes through `updateFoodItem`, whose
      highlight hook, when that instance is on screen, writes the tutorial's current
      cook step into every food on screen; no tutorial step is reported. */
  twostate predicate CombinedWithoutTutorial(k: GameScene.Kitchen, incoming: Food, existing: Food, result: FoodItem, fs: seq<Food>)
    reads k, k.tutorial, incoming, existing, fs
  {
    var c := CombineStates(old(incoming.State()), old(existing.State()), result);
    var placed := c.branch != Merged && old(k.touchesBeganLocation).Some?;
    var updated := if c.branch == ExistingKeepsPortions then incoming else existing;
    var t := GameScene.UpdateTarget(updated in fs, old(k.tutorial.State()));
    && k.tutorial.State() == old(k.tutorial.State())
    && k.Snapshot() == GameScene.Regrouped(old(k.Snapshot()), c.branch, incoming)
    && existing.position == old(existing.position)
    && existing.State() == GameScene.Highlight(c.existing, if updated == existing || existing in fs then t else None)
    && incoming.position == (if placed then old(k.touchesBeganLocation).value else old(incoming.position))
    && incoming.State() == GameScene.Highlight(if placed then Stopped(c.incoming) else c.incoming,
         if updated == incoming || incoming in fs then t else None)
    && forall f :: f in fs && f != incoming && f != existing ==>
         f.position == old(f.position) && f.State() == GameScene.Highlight(old(f.State()), t)
  }

  /** `combine`: `portionSingle` on both instances, then one of three branches on the
      portion counts left, which are the branches of the current revision's
      `attemptFoodCombine` after its tutorial report. The debug trap for two
      portioned instances cannot fire for two items that combine. */
  method Combine(k: GameScene.Kitchen, incoming: Food, existing: Food, result: FoodItem)
    requires k.Valid() && incoming.Valid() && existing.Valid() && incoming != existing
    requires CombineIngredients(existing.item, incoming.item) == Some(result)
    modifies k, k.children, incoming, existing
    ensures k.Valid() && incoming.Valid() && existing.Valid()
    ensures !(old(incoming.portion).Some? && old(existing.portion).Some?)
    ensures CombinedWithoutTutorial(k, incoming, existing, result, old(k.children))
  {
    CombineSymmetric(existing.item, incoming.item);
    DebugTrapUnreachable(incoming.State(), existing.State());
    match CombineBranch(Portioned(incoming.State()).portion, Portioned(existing.State()).portion)
    case IncomingKeepsPortions => CombineKeepingIncoming(k, incoming, existing, result);
    case ExistingKeepsPortions => CombineKeepingExisting(k, incoming, existing, result);
    case Merged => CombineMerging(k, incoming, existing, result);
  }

  /** `combine` when, after one portion is taken from each, the incoming food still
      has some: the occupant becomes the result. */
  method CombineKeepingIncoming(k: GameScene.Kitchen, incoming: Food, existing: Food, result: FoodItem)
    requires k.Valid() && incoming.Valid() && existing.Valid() && incoming != existing
    requires CombineBranch(Portioned(incoming.State()).portion, Portioned(existing.State()).portion) == IncomingKeepsPortions
    modifies k, k.children, incoming, existing
    ensures k.Valid() && incoming.Valid() && existing.Valid()
    ensures CombinedWithoutTutorial(k, incoming, existing, result, old(k.children))
  {
    ghost var fs, s0e := k.children, existing.State();
    incoming.PortionSingle();
    existing.PortionSingle();
    k.KeepIncoming(incoming, existing, result);
    assert existing.State() == GameScene.Highlight(Updated(Portioned(s0e), result, false), GameScene.UpdateTarget(existing in fs, k.tutorial.State()));
  }

  /** `combine` when only the occupant still has portions: the incoming food becomes
      the result. */
  method CombineKeepingExisting(k: GameScene.Kitchen, incoming: Food, existing: Food, result: FoodItem)
    requires k.Valid() && incoming.Valid() && existing.Valid() && incoming != existing
    requires CombineBranch(Portioned(incoming.State()).portion, Portioned(existing.State()).portion) == ExistingKeepsPortions
    modifies k, k.children, incoming, existing
    ensures k.Valid() && incoming.Valid() && existing.Valid()
    ensures CombinedWithoutTutorial(k, incoming, existing, result, old(k.children))
  {
    incoming.PortionSingle();
    existing.PortionSingle();
    k.KeepExisting(incoming, existing, result);
  }

  /** `combine` when neither has portions left: the occupant becomes the result and
      the incoming food leaves the scene. */
  method CombineMerging(k: GameScene.Kitchen, incoming: Food, existing: Food, result: FoodItem)
    requires k.Valid() && incoming.Valid() && existing.Valid() && incoming != existing
    requires CombineBranch(Portioned(incoming.State()).portion, Portioned(existing.State()).portion) == Merged
    modifies k, k.children, incoming, existing
    ensures k.Valid() && incoming.Valid() && existing.Valid()
    ensures CombinedWithoutTutorial(k, incoming, existing, result, old(k.children))
  {
    ghost var fs, s0e := k.children, existing.State();
    incoming.PortionSingle();
    existing.PortionSingle();
    k.Merge(incoming, existing, result);
    assert existing.State() == GameScene.Highlight(Updated(Portioned(s0e), result, false), GameScene.UpdateTarget(existing in fs, k.tutorial.State()));
  }

  /** The older `setFoodItemDown`: `true` exactly when the food was placed on the tile
      or combined with the food there. A drop on a tile that does not take food, or on
      a food it does not combine with, sends it back to the drag's origin and leaves
      the food on the tile alone. */
  method SetFoodItemDown(k: GameScene.Kitchen, food: Food, tile: TilePoint) returns (placed: bool)
    requires k.Valid() && food.Valid()
    modifies k, k.children, food
    ensures k.Valid() && food.Valid()
    ensures var occupant := old(GameScene.Occupant(k.children, tile, k.draggedFood));
      match DropCase(TileGroupAt(k.grid, tile), if occupant.Some? then Some(old(occupant.value.item)) else None, old(food.item))
      case Rejected => !placed && k.Returned(food)
      case NoRecipe => !placed && k.Returned(food) && (occupant.value != food ==> unchanged(occupant.value))
      case Place => placed && k.Placed(food, tile)
      case Combines(r) => placed && occupant.value != food && CombinedWithoutTutorial(k, food, occupant.value, r, old(k.children))
    ensures var occupant := old(GameScene.Occupant(k.children, tile, k.draggedFood));
      !DropCase(TileGroupAt(k.grid, tile), if occupant.Some? then Some(old(occupant.value.item)) else None, old(food.item)).Combines? ==>
        forall f :: f in old(k.children) && f != food && Some(f) != occupant ==> unchanged(f)
  {
    ghost var occupied := if GameScene.Occupant(k.children, tile, k.draggedFood).Some?
      then Some(GameScene.Occupant(k.children, tile, k.draggedFood).value.item) else None;
    var kind := TileGroupAt(k.grid, tile);
    if !Placeable(kind) {
      assert DropCase(kind, occupied, food.item) == Rejected;
      k.ReturnFoodToTouchesBegan(food);
      return false;
    }
    var existing := k.GetFoodOnTile(tile);
    if existing.Some? {
      placed := DropOnFood(k, food, existing.value);
      return;
    }
    assert DropCase(kind, occupied, food.item) == Place;
    k.PlaceFoodOnTile(food, tile);
    return true;
  }

  /** `setFoodItemDown` on a placeable tile that `existing` occupies: the two combine
      when a recipe takes them both, and otherwise the dropped food goes back. */
  method DropOnFood(k: GameScene.Kitchen, food: Food, existing: Food) returns (placed: bool)
    requires k.Valid() && food.Valid() && existing in k.children
    modifies k, k.children, food
    ensures k.Valid() && food.Valid()
    ensures var r := CombineIngredients(old(existing.item), old(food.item));
      && placed == r.Some?
      && (r.Some? ==> existing != food && CombinedWithoutTutorial(k, food, existing, r.value, old(k.children)))
      && (r.None? ==> k.Returned(food) && forall f :: f in old(k.children) && f != food ==> unchanged(f))
  {
    var combined := CombineIngredients(existing.item, food.item);
    if combined.Some? {
      CombineIrreflexive(food.item);
      Combine(k, food, existing, combined.value);
      return true;
    }
    k.ReturnFoodToTouchesBegan(food);
    return false;
  }

  /** `placeFoodOnMachineTile`: the food starts cooking. */
  method PlaceFoodOnMachineTile(food: Food, tile: TilePoint)
    requires food.Valid()
    modifies food
    ensures food.Valid() && food.State() == Started(old(food.State())) && food.position == old(food.position)
  {
    food.StartCooking();
  }

  /** `placeFoodOnTrashTile`: the food leaves the scene. */
  method PlaceFoodOnTrashTile(k: GameScene.Kitchen, food: Food, tile: TilePoint)
    requires k.Valid()
    modifies k
    ensures k.Valid() && k.Snapshot() == old(k.Snapshot()).(children := Without(old(k.children), food))
  {
    k.RemoveFromScene(food);
  }

  /** `eventItemPlacedOnSink`: the food's `sinkEvent`, which on a water fill goes
      through `updateFoodItem` and so through the scene's highlight hook when the
      food is on screen. */
  method EventItemPlacedOnSink(k: GameScene.Kitchen, food: Food, tile: TilePoint)
    requires k.Valid() && food.Valid()
    modifies food, k.children
    ensures k.Valid() && food.Valid() && food.position == old(food.position)
    ensures var t := GameScene.UpdateTarget(GameScene.WaterFilled(old(food.item)) && food in k.children, k.tutorial.State());
      && food.State() == GameScene.Highlight(Sunk(old(food.State())), t)
      && forall f :: f in k.children && f != food ==> f.position == old(f.position) && f.State() == GameScene.Highlight(old(f.State()), t)
  {
    k.SinkFood(food);
  }

  /** The effect of serving the customer at index `i` of `cs` in the older table
      handler: their countdown stops, `removeCustomer` takes them out, the dragged
      food (not the dish) leaves the scene, and the score goes up by one; the other
      customers are untouched. */
  twostate predicate ServedAsWritten(k: GameScene.Kitchen, cs: seq<Customer>, i: nat)
    reads k, cs
  {
    && i < |cs|
    && cs[i].State() == Patience(old(cs[i].seconds), false) && cs[i].tableSittingAt == old(cs[i].tableSittingAt)
    && (forall j :: 0 <= j < |cs| && j != i ==> unchanged(cs[j]))
    && k.Snapshot() == old(k.Snapshot()).(customersAtTables := Without(cs, cs[i]),
         children := if old(k.draggedFood).Some? then Without(old(k.children), old(k.draggedFood).value) else old(k.children),
         score := old(k.score) + 1)
  }

  /** `eventItemPlacedOnTable`: the first seated customer at the tile who ordered the
      dish is served; otherwise nothing happens. When the dish is the dragged food, the
      outcome is that of the current revision's `eventTableTile`. */
  method EventItemPlacedOnTable(k: GameScene.Kitchen, food: Food, tile: TilePoint)
    requires k.Valid()
    modifies k, k.customersAtTables
    ensures k.Valid()
    ensures var served := FirstServed(old(GameScene.Seats(k.customersAtTables)), tile, food.item);
      && (served.None? ==> k.Snapshot() == old(k.Snapshot()) && unchanged(old(k.customersAtTables)))
      && (served.Some? ==> ServedAsWritten(k, old(k.customersAtTables), served.value))
      && (served.Some? && old(k.draggedFood) == Some(food) ==> k.Served(old(k.customersAtTables), served.value, food))
  {
    ghost var seats := GameScene.Seats(k.customersAtTables);
    var cs := k.customersAtTables;
    var i := 0;
    while i < |cs|
      invariant 0 <= i <= |cs|
      invariant forall j :: 0 <= j < i ==> !Serves(seats[j], tile, food.item)
    {
      var c := cs[i];
      if c.tableSittingAt == Some(tile) && c.order == food.item {
        assert Serves(seats[i], tile, food.item);
        FirstServedAt(seats, tile, food.item, i);
        ServeAsWritten(k, i, food);
        return;
      }
      i := i + 1;
    }
  }

  /** The matching branch of `eventItemPlacedOnTable`, for the customer at index `i`. */
  method ServeAsWritten(k: GameScene.Kitchen, i: nat, food: Food)
    requires k.Valid() && i < |k.customersAtTables|
    modifies k, k.customersAtTables[i]
    ensures k.Valid() && ServedAsWritten(k, old(k.customersAtTables), i)
    ensures old(k.draggedFood) == Some(food) ==> k.Served(old(k.customersAtTables), i, food)
  {
    DismissCustomer(k, i);
    if k.draggedFood.Some? {
      k.RemoveFromScene(k.draggedFood.value);
    }
    k.score := k.score + 1;
  }

  /** `orderSatisfied` on the customer at index `i`, then `removeCustomer`. */
  method DismissCustomer(k: GameScene.Kitchen, i: nat)
    requires k.Valid() && i < |k.customersAtTables|
    modifies k, k.customersAtTables[i]
    ensures k.Valid()
    ensures var cs := old(k.customersAtTables);
      && cs[i].State() == Patience(old(cs[i].seconds), false) && cs[i].tableSittingAt == old(cs[i].tableSittingAt)
      && (forall j :: 0 <= j < |cs| && j != i ==> unchanged(cs[j]))
      && k.Snapshot() == old(k.Snapshot()).(customersAtTables := Without(cs, cs[i]))
      && Without(cs, cs[i]) == cs[..i] + cs[i + 1..]
  {
    var c := k.customersAtTables[i];
    ghost var cs := k.customersAtTables;
    GameScene.ServedIsUnique(cs, i);
    WithoutUnique(cs, c, i);
    c.OrderSatisfied();
    k.RemoveCustomer(c);
  }
}
