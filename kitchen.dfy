/** The game scene (`GameScene` and its extensions in Code/GameUtils): the tile map,
    the food on the floor, the seated customers, the score, the tutorial cursor and
    the customer generator's countdown, with the operations of FoodOnTileManager.swift,
    EventHandler/ItemPlacementManager.swift and CustomerManager.swift. Sprites are
    reduced to the state the game rules read: a food's tile is `Food.position`, and
    the scene's children are the food instances in `children`, in the order they were
    added. */
module Kitchen {
  import opened Wrappers
  import opened Collections
  import opened FoodItems
  import opened Tiles
  import opened TutorialActions
  import opened Categories
  import opened Tutorial
  import opened TileGrid
  import opened Foods
  import opened Customers
  import opened CustomerRules
  import opened Placement

  /** The scene's own fields, as one value. */
  datatype Scene = Scene(
    children: seq<Food>,
    draggedFood: Option<Food>,
    touchesBeganLocation: Option<TilePoint>,
    customersAtTables: seq<Customer>,
    queuedCustomersOutside: seq<Customer>,
    customersSinceStart: nat,
    score: int,
    customerGeneratorTimer: Option<int>,
    losingScreenShown: bool)

  /** The first food on `tile`, in scene order, other than the one being dragged. */
  function Occupant(fs: seq<Food>, tile: TilePoint, dragged: Option<Food>): (r: Option<Food>)
    reads fs
    ensures r.Some? ==> r.value in fs && r.value.position == tile && Some(r.value) != dragged
    ensures r.None? <==> forall i :: 0 <= i < |fs| ==> fs[i].position != tile || Some(fs[i]) == dragged
    ensures r.Some? ==>
      exists i :: 0 <= i < |fs| && fs[i] == r.value &&
        forall j :: 0 <= j < i ==> fs[j].position != tile || Some(fs[j]) == dragged
    decreases |fs|
  {
    if fs == [] then None
    else if fs[0].position == tile && Some(fs[0]) != dragged then Some(fs[0])
    else
      var r := Occupant(fs[1..], tile, dragged);
      if r.Some? then
        var i :| 0 <= i < |fs[1..]| && fs[1..][i] == r.value &&
          forall j :: 0 <= j < i ==> fs[1..][j].position != tile || Some(fs[1..][j]) == dragged;
        assert fs[i + 1] == r.value;
        assert forall j :: 0 <= j < i + 1 ==> fs[j].position != tile || Some(fs[j]) == dragged;
        r
      else r
  }

  /** The tables the customers hold, in seating order. */
  function Tables(cs: seq<Customer>): (r: seq<Option<TilePoint>>)
    reads cs
    ensures |r| == |cs| && forall i :: 0 <= i < |cs| ==> r[i] == cs[i].tableSittingAt
    decreases |cs|
  {
    if cs == [] then [] else [cs[0].tableSittingAt] + Tables(cs[1..])
  }

  /** The customers as `eventTableTile` sees them. */
  function Seats(cs: seq<Customer>): (r: seq<Seat>)
    reads cs
    ensures |r| == |cs| && forall i :: 0 <= i < |cs| ==> r[i] == Seat(cs[i].tableSittingAt, cs[i].order)
    decreases |cs|
  {
    if cs == [] then [] else [Seat(cs[0].tableSittingAt, cs[0].order)] + Seats(cs[1..])
  }

  /** Each food occurs once and is consistent. */
  ghost predicate SceneFoods(fs: seq<Food>)
    reads fs
  {
    Distinct(fs) && forall f :: f in fs ==> f.Valid()
  }

  /** Every seated customer holds a table, and no two hold the same one. */
  ghost predicate SeatedApart(cs: seq<Customer>)
    reads cs`tableSittingAt
  {
    && (forall i :: 0 <= i < |cs| ==> cs[i].tableSittingAt.Some?)
    && (forall i, j :: 0 <= i < j < |cs| ==> cs[i].tableSittingAt != cs[j].tableSittingAt)
  }

  /** The scene after a tutorial notification: when the tutorial ended,
      `endTutorialPhase` arms the customer generator and clears the food. */
  function AfterNotify(s: Scene, adv: Advanced): Scene {
    if adv.ended then
      s.(children := [], customerGeneratorTimer := Some(TimeIntervalBasedOnDifficulty(s.customersSinceStart)))
    else s
  }

  /** The scene after `loseGame`: nothing dragged, no customers, no generator, no
      food, and the losing screen up. */
  function Lost(s: Scene): Scene {
    s.(draggedFood := None, customersAtTables := [], queuedCustomersOutside := [],
       customerGeneratorTimer := None, children := [], losingScreenShown := true)
  }

  /** The item the tutorial's highlight hook writes into every on-screen food's
      `cookOverride` while the cursor stands on a `cook` step. */
  function CookStep(c: Cursor): Option<FoodItem> {
    if c.current.Some? && c.current.value.Cook? then Some(c.current.value.cooked) else None
  }

  /** The override a notification installs: the highlight hook runs only when the
      cursor moved on to a next step (not when it ignored the action, and not when
      the tutorial ended). */
  function CookTarget(before: Cursor, adv: Advanced): Option<FoodItem> {
    if adv.cursor != before && !adv.ended then CookStep(adv.cursor) else None
  }

  /** A food's state after the highlight hook ran with `target`. */
  function Highlight(s: FoodState, target: Option<FoodItem>): FoodState {
    if target.Some? then s.(cookOverride := target) else s
  }

  /** The target of the highlight hook `updateFoodItem` ends with: it runs only for a
      food on screen, and writes the current cook step. */
  function UpdateTarget(onScreen: bool, c: Cursor): Option<FoodItem> {
    if onScreen then CookStep(c) else None
  }

  /** Whether `sinkEvent` calls `updateFoodItem` on an item: its action is a water fill. */
  predicate WaterFilled(item: FoodItem) {
    ActionFor(item).Some? && ActionFor(item).value.action == WaterFill
  }

  /** What the tutorial cursor does on a `cook` report: the report is made only by a
      food on screen. */
  function CookReport(before: Cursor, cooked: FoodItem, onScreen: bool): Advanced {
    if onScreen then Advance(before, Cook(cooked)) else Advanced(before, false)
  }

  /** The state a food reaches when its countdown runs out in the scene: the `cook`
      report's highlight hook, then `updateFoodItem` with the stove result, cooking on
      unless the item that finished is the override read after the hook, then the
      hook `updateFoodItem` ends with. */
  function ExpiredInScene(s: FoodState, before: Cursor, onScreen: bool): FoodState
    requires s.cooking.Some?
  {
    var hooked := Highlight(s, ReportTarget(before, s.item, onScreen));
    Highlight(Updated(hooked, s.cooking.value.result, Some(s.item) != hooked.cookOverride),
              AfterReportTarget(before, s.item, onScreen))
  }

  /** The target of the highlight hook a `cook` report runs. */
  function ReportTarget(before: Cursor, cooked: FoodItem, onScreen: bool): Option<FoodItem> {
    if onScreen then CookTarget(before, CookReport(before, cooked, onScreen)) else None
  }

  /** The target of the hook `updateFoodItem` runs after a `cook` report: none once the
      report ended the tutorial, which took the food off screen. */
  function AfterReportTarget(before: Cursor, cooked: FoodItem, onScreen: bool): Option<FoodItem> {
    var adv := CookReport(before, cooked, onScreen);
    UpdateTarget(onScreen && !adv.ended, adv.cursor)
  }

  /** The target the highlight hooks of `attemptFoodCombine` leave behind: the
      `combine` report's hook, and then, when the instance that became the result is
      on screen, the hook `updateFoodItem` ends with; none once the report ended the
      tutorial, which cleared the screen. */
  function CombineTarget(before: Cursor, adv: Advanced, updatedOnScreen: bool): Option<FoodItem> {
    if adv.ended then None
    else if updatedOnScreen then CookStep(adv.cursor)
    else CookTarget(before, adv)
  }

  /** The scene's food after the portion policy ran: a merged incoming food leaves the
      scene; otherwise it goes back to the drag's origin, moving to the end of the
      scene, or stays where it is when there is no origin. */
  function Regrouped(s: Scene, branch: Branch, incoming: Food): Scene {
    if branch == Merged then s.(children := Without(s.children, incoming))
    else if s.touchesBeganLocation.Some? then s.(children := Without(s.children, incoming) + [incoming])
    else s
  }

  /** The foods of `fs` went through the highlight hook and nothing else. */
  twostate predicate Highlighted(fs: seq<Food>, target: Option<FoodItem>)
    reads fs
  {
    forall f :: f in fs ==> f.position == old(f.position) && f.State() == Highlight(old(f.State()), target)
  }

  /** A food whose countdown runs out becomes the stove result wherever it is. Off
      screen, or with no tutorial step current, it goes through the plain countdown
      callback `Expired`; on screen, when the `cook` report does not match the current
      step, it goes through `Expired` and then takes the current cook step as its
      override. */
  lemma ExpiredInSceneSpec(s: FoodState, before: Cursor, onScreen: bool)
    requires s.cooking.Some?
    ensures ExpiredInScene(s, before, onScreen).item == s.cooking.value.result
    ensures !onScreen || before.current.None? ==> ExpiredInScene(s, before, onScreen) == Expired(s)
    ensures onScreen && !(before.current.Some? && Matches(Cook(s.item), before.current.value)) ==>
      ExpiredInScene(s, before, onScreen) == Highlight(Expired(s), CookStep(before))
  {
  }

  /** With no tutorial step current, a `combine` report changes no override. */
  lemma CombineTargetIdle(before: Cursor, performed: TutorialAction, updatedOnScreen: bool, s: FoodState)
    requires before.current.None?
    ensures Highlight(s, CombineTarget(before, Advance(before, performed), updatedOnScreen)) == s
  {
  }

  /** Customers at distinct tables are distinct: the one at index `i` occurs nowhere else. */
  lemma ServedIsUnique(cs: seq<Customer>, i: nat)
    requires SeatedApart(cs) && i < |cs|
    ensures cs[i] !in cs[..i] && cs[i] !in cs[i + 1..]
  {
  }

  /** A customer at a table no one else holds can join the seated ones. */
  lemma SeatedApartAppend(cs: seq<Customer>, c: Customer)
    requires SeatedApart(cs) && c.tableSittingAt.Some? && c.tableSittingAt !in Tables(cs)
    ensures SeatedApart(cs + [c])
  {
    forall i | 0 <= i < |cs| ensures cs[i].tableSittingAt != c.tableSittingAt {
      assert Tables(cs)[i] == cs[i].tableSittingAt;
    }
  }

  /** Removing a customer keeps the others at their distinct tables. */
  lemma WithoutKeepsSeatedApart(cs: seq<Customer>, c: Customer)
    requires SeatedApart(cs)
    ensures SeatedApart(Without(cs, c))
  {
    if c in cs {
      var i :| 0 <= i < |cs| && cs[i] == c;
      ServedIsUnique(cs, i);
      WithoutUnique(cs, c, i);
      DropKeepsSeatedApart(cs, i);
    } else {
      WithoutAbsent(cs, c);
    }
  }

  /** Closing the gap left by one customer keeps the others at distinct tables. */
  lemma DropKeepsSeatedApart(cs: seq<Customer>, i: nat)
    requires SeatedApart(cs) && i < |cs|
    ensures SeatedApart(cs[..i] + cs[i + 1..])
  {
    var r := cs[..i] + cs[i + 1..];
    forall k | 0 <= k < |r| ensures r[k] == cs[if k < i then k else k + 1] {
    }
  }

  /** Taking a food out of the scene keeps the rest valid. */
  lemma WithoutKeepsSceneFoods(fs: seq<Food>, x: Food)
    requires SceneFoods(fs)
    ensures SceneFoods(Without(fs, x))
  {
    WithoutKeepsDistinct(fs, x);
    forall f | f in Without(fs, x) ensures f.Valid() {
      assert f in multiset(Without(fs, x));
    }
  }

  /** Moving a valid food to the end of the scene keeps the scene valid. */
  lemma MoveToEndKeepsSceneFoods(fs: seq<Food>, x: Food)
    requires SceneFoods(fs) && x.Valid()
    ensures SceneFoods(Without(fs, x) + [x])
  {
    WithoutKeepsSceneFoods(fs, x);
    var rest := Without(fs, x);
    assert x !in multiset(rest);
    forall i, j | 0 <= i < j < |rest + [x]| ensures (rest + [x])[i] != (rest + [x])[j] {
      assert (rest + [x])[i] == rest[i] && rest[i] in multiset(rest);
    }
  }

  class Kitchen {
    const grid: Grid
    const tutorial: Sequencer
    /** `foodCategory`, the category whose dishes the customers order. */
    const foodCategory: FoodOrderCategory
    var children: seq<Food>
    var draggedFood: Option<Food>
    var touchesBeganLocation: Option<TilePoint>
    var customersAtTables: seq<Customer>
    var queuedCustomersOutside: seq<Customer>
    var customersSinceStart: nat
    var score: int
    var customerGeneratorTimer: Option<int>
    var losingScreenShown: bool

    function Snapshot(): Scene
      reads this
    {
      Scene(children, draggedFood, touchesBeganLocation, customersAtTables, queuedCustomersOutside,
            customersSinceStart, score, customerGeneratorTimer, losingScreenShown)
    }

    /** Each food is in the scene once and consistent, and the seated customers sit
        at distinct tables. */
    ghost predicate Valid()
      reads this, children, customersAtTables
    {
      SceneFoods(children) && SeatedApart(customersAtTables)
    }

    constructor (grid: Grid)
      ensures Valid() && this.grid == grid && foodCategory == Sushi
      ensures fresh(tutorial) && tutorial.State() == Cursor(None, [])
      ensures Snapshot() == Scene([], None, None, [], [], 0, 0, None, false)
    {
      this.grid := grid;
      foodCategory := Sushi;
      tutorial := new Sequencer();
      children := [];
      draggedFood := None;
      touchesBeganLocation := None;
      customersAtTables := [];
      queuedCustomersOutside := [];
      customersSinceStart := 0;
      score := 0;
      customerGeneratorTimer := None;
      losingScreenShown := false;
    }

    // -------------------------------------------------------------------------
    // Scene membership (FoodOnTileManager.swift, LosingHandler.swift)
    // -------------------------------------------------------------------------

    /** `removeFromParent` on a food. */
    method RemoveFromScene(food: Food)
      requires Valid()
      modifies this
      ensures Valid() && Snapshot() == old(Snapshot()).(children := Without(old(children), food))
    {
      WithoutKeepsSceneFoods(children, food);
      children := Without(children, food);
    }

    /** `removeAllFoodItemsFromScene`. */
    method RemoveAllFoodItemsFromScene()
      requires Valid()
      modifies this
      ensures Valid() && Snapshot() == old(Snapshot()).(children := [])
    {
      children := [];
    }

    /** `placeFoodOnTile`: the food ends up on the tile, not cooking, and in the
        scene exactly once, after every other food. */
    method PlaceFoodOnTile(food: Food, tile: TilePoint)
      requires Valid() && food.Valid()
      modifies this, food
      ensures Valid() && Placed(food, tile)
    {
      food.position := tile;
      food.StopCooking();
      MoveToEndKeepsSceneFoods(children, food);
      children := Without(children, food) + [food];
    }

    /** The effect of `placeFoodOnTile(food, tile)`. */
    twostate predicate Placed(food: Food, tile: TilePoint)
      reads this, food
    {
      && Snapshot() == old(Snapshot()).(children := Without(old(children), food) + [food])
      && food.position == tile && food.State() == Stopped(old(food.State()))
    }

    /** `returnFoodToTouchesBegan`: back to the tile the drag started from, or out of
        the scene when there is none. */
    method ReturnFoodToTouchesBegan(food: Food)
      requires Valid() && food.Valid()
      modifies this, food
      ensures Valid() && Returned(food)
    {
      if touchesBeganLocation.None? {
        RemoveFromScene(food);
        return;
      }
      PlaceFoodOnTile(food, touchesBeganLocation.value);
    }

    /** The effect of `returnFoodToTouchesBegan(food)`. */
    twostate predicate Returned(food: Food)
      reads this, food
    {
      match old(touchesBeganLocation)
      case None =>
        && Snapshot() == old(Snapshot()).(children := Without(old(children), food))
        && food.position == old(food.position) && food.State() == old(food.State())
      case Some(origin) => Placed(food, origin)
    }

    /** `getFoodOnTile`. */
    method GetFoodOnTile(tile: TilePoint) returns (found: Option<Food>)
      ensures found == Occupant(children, tile, draggedFood)
    {
      var i := 0;
      while i < |children|
        invariant 0 <= i <= |children|
        invariant Occupant(children[i..], tile, draggedFood) == Occupant(children, tile, draggedFood)
      {
        assert children[i..][0] == children[i] && children[i..][1..] == children[i + 1..];
        if children[i].position == tile && Some(children[i]) != draggedFood {
          return Some(children[i]);
        }
        i := i + 1;
      }
      return None;
    }

    // -------------------------------------------------------------------------
    // The tutorial hooks (GameScene+TutorialSceneControl.swift, Tutorial.swift)
    // -------------------------------------------------------------------------

    /** The part of `highlightFood` that changes game state: while the tutorial's
        current step is `cook(x)`, every food on screen gets `cookOverride = x`. */
    method HighlightCookStep()
      requires Valid()
      modifies children
      ensures Valid() && Highlighted(children, CookStep(tutorial.State()))
    {
      var target := CookStep(tutorial.State());
      if target.None? {
        return;
      }
      var i := 0;
      while i < |children|
        invariant 0 <= i <= |children|
        invariant forall f :: f in children ==> f.Valid() && f.position == old(f.position)
        invariant forall j :: 0 <= j < i ==> children[j].State() == old(children[j].State()).(cookOverride := target)
        invariant forall j :: i <= j < |children| ==> children[j].State() == old(children[j].State())
      {
        children[i].SetCookOverride(target);
        i := i + 1;
      }
    }

    /** `onAction`, with the scene's reaction: the highlight hook when the cursor
        moved on, `endTutorialPhase` when the sequence ran out. */
    method NotifyTutorial(action: TutorialAction) returns (ended: bool)
      requires Valid()
      modifies this, tutorial, children
      ensures Valid()
      ensures var adv := Advance(old(tutorial.State()), action);
        && tutorial.State() == adv.cursor && ended == adv.ended
        && Snapshot() == AfterNotify(old(Snapshot()), adv)
        && Highlighted(old(children), CookTarget(old(tutorial.State()), adv))
    {
      var before := tutorial.State();
      ended := tutorial.OnAction(action);
      if ended {
        EndTutorialPhase();
      } else if tutorial.State() != before {
        HighlightCookStep();
      }
    }

    /** `endTutorialPhase`: the customer generator starts and the food is cleared. */
    method EndTutorialPhase()
      requires Valid()
      modifies this
      ensures Valid()
      ensures Snapshot() == old(Snapshot()).(children := [],
        customerGeneratorTimer := Some(TimeIntervalBasedOnDifficulty(customersSinceStart)))
    {
      StartNewCustomerTimer();
      RemoveAllFoodItemsFromScene();
    }

    /** `startTutorialPhase`: every customer is dismissed and the food is cleared. */
    method StartTutorialPhase()
      requires Valid()
      modifies this, customersAtTables, queuedCustomersOutside
      ensures Valid() && (forall c :: c in old(customersAtTables + queuedCustomersOutside) ==>
               !c.counting && c.seconds == old(c.seconds) && c.tableSittingAt == old(c.tableSittingAt))
      ensures Snapshot() == old(Snapshot()).(children := [], customersAtTables := [],
        queuedCustomersOutside := [], customerGeneratorTimer := None)
    {
      StopAllCustomerTimers();
      RemoveAllFoodItemsFromScene();
    }

    /** `initiateTutorial` for the scene's category. The highlight hook that
        follows finds no food on screen. */
    method InitiateTutorial()
      requires Valid()
      modifies this, tutorial, customersAtTables, queuedCustomersOutside
      ensures Valid() && (forall c :: c in old(customersAtTables + queuedCustomersOutside) ==>
               !c.counting && c.seconds == old(c.seconds) && c.tableSittingAt == old(c.tableSittingAt))
      ensures tutorial.State() == Initiated(TutorialSequence(foodCategory))
      ensures Snapshot() == old(Snapshot()).(children := [], customersAtTables := [],
        queuedCustomersOutside := [], customerGeneratorTimer := None)
    {
      StartTutorialPhase();
      tutorial.InitiateTutorial(foodCategory);
    }

    // -------------------------------------------------------------------------
    // Customers (CustomerManager.swift, LosingHandler.swift)
    // -------------------------------------------------------------------------

    /** `stopAllCustomerTimers`. */
    method StopAllCustomerTimers()
      requires Valid()
      modifies this, customersAtTables, queuedCustomersOutside
      ensures Valid() && (forall c :: c in old(customersAtTables + queuedCustomersOutside) ==>
               !c.counting && c.seconds == old(c.seconds) && c.tableSittingAt == old(c.tableSittingAt))
      ensures Snapshot() == old(Snapshot()).(customersAtTables := [], queuedCustomersOutside := [],
        customerGeneratorTimer := None)
    {
      customerGeneratorTimer := None;
      var all := customersAtTables + queuedCustomersOutside;
      var i := 0;
      while i < |all|
        invariant 0 <= i <= |all|
        invariant Snapshot() == old(Snapshot()).(customerGeneratorTimer := None)
        invariant forall c :: c in all ==> c.seconds == old(c.seconds) && c.tableSittingAt == old(c.tableSittingAt)
        invariant forall j :: 0 <= j < i ==> !all[j].counting
      {
        all[i].StopCountdown();
        i := i + 1;
      }
      customersAtTables := [];
      queuedCustomersOutside := [];
    }

    /** `startNewCustomerTimer`: the one-shot generator is armed with the current
        spawn interval. */
    method StartNewCustomerTimer()
      modifies this
      ensures Snapshot() == old(Snapshot()).(customerGeneratorTimer := Some(TimeIntervalBasedOnDifficulty(customersSinceStart)))
    {
      customerGeneratorTimer := Some(TimeIntervalBasedOnDifficulty(customersSinceStart));
    }

    /** `loseGame`. The cutting and portioning timers are not part of this model. */
    method LoseGame()
      requires Valid()
      modifies this, customersAtTables, queuedCustomersOutside
      ensures Valid() && (forall c :: c in old(customersAtTables + queuedCustomersOutside) ==>
               !c.counting && c.seconds == old(c.seconds) && c.tableSittingAt == old(c.tableSittingAt))
      ensures Snapshot() == Lost(old(Snapshot()))
    {
      draggedFood := None;
      StopAllCustomerTimers();
      RemoveAllFoodItemsFromScene();
      losingScreenShown := true;
    }

    /** `removeCustomer`. */
    method RemoveCustomer(c: Customer)
      requires Valid()
      modifies this
      ensures Valid() && Snapshot() == old(Snapshot()).(customersAtTables := Without(old(customersAtTables), c))
    {
      WithoutKeepsSeatedApart(customersAtTables, c);
      customersAtTables := Without(customersAtTables, c);
    }

    /** `reserveTable`: the first table position, in enumeration order, that no
        seated customer holds is given to `c`; none when every table is held. */
    method ReserveTable(c: Customer) returns (table: Option<TilePoint>)
      modifies c
      ensures table == FirstFree(Positions(grid, Table), old(Tables(customersAtTables)))
      ensures c.State() == old(c.State())
      ensures c.tableSittingAt == if table.Some? then table else old(c.tableSittingAt)
    {
      var positions := GetPositionsOfTileGroup(grid, Table);
      var held := Tables(customersAtTables);
      var i := 0;
      while i < |positions|
        invariant 0 <= i <= |positions|
        invariant FirstFree(positions[i..], held) == FirstFree(positions, held)
      {
        assert positions[i..][0] == positions[i] && positions[i..][1..] == positions[i + 1..];
        if Some(positions[i]) !in held {
          c.tableSittingAt := Some(positions[i]);
          return Some(positions[i]);
        }
        i := i + 1;
      }
      return None;
    }

    /** `addCustomer`: a customer ordering a random dish of the category, with the current
        time limit, takes the first free table, is counted, and the generator is
        re-armed; with every table held, the game is lost. */
    method AddCustomer() returns (customer: Customer)
      requires Valid()
      modifies this, customersAtTables, queuedCustomersOutside
      ensures Valid() && fresh(customer)
      ensures customer.order in OrderableItems(foodCategory)
      ensures customer.State() == Waiting(TimeLimitForCustomer(old(customersSinceStart)))
      ensures match FirstFree(Positions(grid, Table), old(Tables(customersAtTables)))
        case Some(t) =>
          && customer.tableSittingAt == Some(t) && unchanged(old(customersAtTables + queuedCustomersOutside))
          && Snapshot() == old(Snapshot()).(customersAtTables := old(customersAtTables) + [customer],
               customersSinceStart := old(customersSinceStart) + 1,
               customerGeneratorTimer := Some(TimeIntervalBasedOnDifficulty(old(customersSinceStart) + 1)))
        case None =>
          && customer.tableSittingAt.None? && (forall c :: c in old(customersAtTables + queuedCustomersOutside) ==>
               !c.counting && c.seconds == old(c.seconds) && c.tableSittingAt == old(c.tableSittingAt))
          && Snapshot() == Lost(old(Snapshot()))
    {
      ghost var held := Tables(customersAtTables);
      var order := RandomOrderableItem(foodCategory);
      customer := new Customer(order, TimeLimitForCustomer(customersSinceStart));
      assert Tables(customersAtTables) == held && Snapshot() == old(Snapshot());
      assert forall c :: c in customersAtTables + queuedCustomersOutside ==> unchanged(c);
      AdmitCustomer(customer);
    }

    /** The rest of `addCustomer`, once the customer exists: `reserveTable`, then
        either seating or the lost game. */
    method AdmitCustomer(customer: Customer)
      requires Valid() && customer !in customersAtTables && customer !in queuedCustomersOutside
      modifies this, customer, customersAtTables, queuedCustomersOutside
      ensures Valid() && customer.State() == old(customer.State())
      ensures match FirstFree(Positions(grid, Table), old(Tables(customersAtTables)))
        case Some(t) =>
          && customer.tableSittingAt == Some(t) && unchanged(old(customersAtTables + queuedCustomersOutside))
          && Snapshot() == old(Snapshot()).(customersAtTables := old(customersAtTables) + [customer],
               customersSinceStart := old(customersSinceStart) + 1,
               customerGeneratorTimer := Some(TimeIntervalBasedOnDifficulty(old(customersSinceStart) + 1)))
        case None =>
          && customer.tableSittingAt == old(customer.tableSittingAt)
          && (forall c :: c in old(customersAtTables + queuedCustomersOutside) ==>
               !c.counting && c.seconds == old(c.seconds) && c.tableSittingAt == old(c.tableSittingAt))
          && Snapshot() == Lost(old(Snapshot()))
    {
      var table := ReserveTable(customer);
      if table.Some? {
        SeatCustomer(customer);
      } else {
        LoseGame();
      }
    }

    /** The seating branch of `addCustomer`: the customer, holding a table no one
        else holds, joins the seated ones, is counted, and the generator is re-armed
        with the interval for the new count. */
    method SeatCustomer(customer: Customer)
      requires Valid() && customer.tableSittingAt.Some? && customer.tableSittingAt !in Tables(customersAtTables)
      modifies this
      ensures Valid()
      ensures Snapshot() == old(Snapshot()).(customersAtTables := old(customersAtTables) + [customer],
        customersSinceStart := old(customersSinceStart) + 1,
        customerGeneratorTimer := Some(TimeIntervalBasedOnDifficulty(old(customersSinceStart) + 1)))
    {
      SeatedApartAppend(customersAtTables, customer);
      customersAtTables := customersAtTables + [customer];
      customersSinceStart := customersSinceStart + 1;
      StartNewCustomerTimer();
    }

    /** One firing of a customer's countdown; when their patience runs out, the game
        is lost. */
    method CustomerTick(c: Customer) returns (ranOut: bool)
      requires Valid()
      modifies this, c, customersAtTables, queuedCustomersOutside
      ensures Valid() && Waited(c.State(), ranOut) == WaitOneSecond(old(c.State()))
      ensures c.tableSittingAt == old(c.tableSittingAt)
      ensures !ranOut ==> Snapshot() == old(Snapshot())
      ensures !ranOut ==> forall d :: d in old(customersAtTables + queuedCustomersOutside) && d != c ==>
        d.State() == old(d.State()) && d.tableSittingAt == old(d.tableSittingAt)
      ensures ranOut ==> Snapshot() == Lost(old(Snapshot()))
      ensures ranOut ==> forall d :: d in old(customersAtTables + queuedCustomersOutside) && d != c ==>
        d.State() == Patience(old(d.seconds), false) && d.tableSittingAt == old(d.tableSittingAt)
    {
      ranOut := c.Tick();
      if ranOut {
        LoseGame();
      }
    }

    /** `eventTableTile`: a dish on a table serves the first seated customer at that
        table who ordered it; otherwise nothing happens. */
    method EventTableTile(food: Food, tile: TilePoint)
      requires Valid()
      modifies this, customersAtTables
      ensures Valid()
      ensures FirstServed(old(Seats(customersAtTables)), tile, food.item).None? ==>
        Snapshot() == old(Snapshot()) && unchanged(old(customersAtTables))
      ensures FirstServed(old(Seats(customersAtTables)), tile, food.item).Some? ==>
        Served(old(customersAtTables), FirstServed(old(Seats(customersAtTables)), tile, food.item).value, food)
    {
      ghost var seats := Seats(customersAtTables);
      var i := 0;
      while i < |customersAtTables|
        invariant 0 <= i <= |customersAtTables|
        invariant forall j :: 0 <= j < i ==> !Serves(seats[j], tile, food.item)
      {
        var c := customersAtTables[i];
        if c.tableSittingAt == Some(tile) && c.order == food.item {
          assert Serves(seats[i], tile, food.item);
          FirstServedAt(seats, tile, food.item, i);
          ServeCustomer(i, food);
          return;
        }
        i := i + 1;
      }
    }

    /** The matching branch of `eventTableTile`, for the customer at index `i`. */
    method ServeCustomer(i: nat, food: Food)
      requires Valid() && i < |customersAtTables|
      modifies this, customersAtTables[i]
      ensures Valid() && Served(old(customersAtTables), i, food)
    {
      DismissCustomer(i);
      WithoutKeepsSceneFoods(children, food);
      children := Without(children, food);
      score := score + 1;
    }

    /** `orderSatisfied` on the customer at index `i`, who leaves the seated ones. */
    method DismissCustomer(i: nat)
      requires Valid() && i < |customersAtTables|
      modifies this`customersAtTables, customersAtTables[i]
      ensures Valid()
      ensures var cs := old(customersAtTables);
        && cs[i].State() == Patience(old(cs[i].seconds), false) && cs[i].tableSittingAt == old(cs[i].tableSittingAt)
        && (forall j :: 0 <= j < |cs| && j != i ==> unchanged(cs[j]))
        && customersAtTables == cs[..i] + cs[i + 1..]
    {
      var c := customersAtTables[i];
      var cs := customersAtTables;
      ServedIsUnique(cs, i);
      c.OrderSatisfied();
      DropKeepsSeatedApart(cs, i);
      customersAtTables := cs[..i] + cs[i + 1..];
    }

    /** The effect of serving the customer at index `i` with `food`: their countdown
        stops, they leave, the dish leaves the scene and the score goes up by one;
        the other customers are untouched. */
    twostate predicate Served(cs: seq<Customer>, i: nat, food: Food)
      reads this, cs
    {
      && i < |cs|
      && cs[i].State() == Patience(old(cs[i].seconds), false) && cs[i].tableSittingAt == old(cs[i].tableSittingAt)
      && (forall j :: 0 <= j < |cs| && j != i ==> unchanged(cs[j]))
      && Snapshot() == old(Snapshot()).(customersAtTables := cs[..i] + cs[i + 1..],
           children := Without(old(children), food), score := old(score) + 1)
    }

    // -------------------------------------------------------------------------
    // Food changes the scene sees (Food.swift)
    // -------------------------------------------------------------------------

    /** `updateFoodItem` on a food: the item changes, and when the food is on screen
        the highlight hook runs for the tutorial's current step. */
    method UpdateFood(food: Food, x: FoodItem, shouldCook: bool)
      requires Valid() && food.Valid()
      modifies food, children
      ensures Valid() && food.Valid() && food.position == old(food.position)
      ensures food.State() == Highlight(Updated(old(food.State()), x, shouldCook),
        UpdateTarget(food in children, tutorial.State()))
      ensures forall f :: f in children && f != food ==>
        f.position == old(f.position) && f.State() == Highlight(old(f.State()), UpdateTarget(food in children, tutorial.State()))
    {
      food.UpdateFoodItem(x, shouldCook);
      if food in children {
        HighlightCookStep();
      }
    }

    /** `eventSinkTile`: `sinkEvent`, through `updateFoodItem` when the item is
        filled with water. */
    method SinkFood(food: Food)
      requires Valid() && food.Valid()
      modifies food, children
      ensures Valid() && food.Valid() && food.position == old(food.position)
      ensures food.State() == Highlight(Sunk(old(food.State())),
        UpdateTarget(WaterFilled(old(food.item)) && food in children, tutorial.State()))
      ensures forall f :: f in children && f != food ==>
        f.position == old(f.position) &&
        f.State() == Highlight(old(f.State()), UpdateTarget(WaterFilled(old(food.item)) && food in children, tutorial.State()))
    {
      var step := ActionFor(food.item);
      if step.Some? && step.value.action == WaterFill {
        UpdateFood(food, step.value.result, false);
      }
    }

    /** One second of a food's cooking countdown. When it runs out, a food on screen
        first reports the `cook` step to the tutorial, and then takes the stove result
        through `updateFoodItem`; `finished` is the item that finished cooking. */
    method FoodTick(food: Food) returns (finished: Option<FoodItem>)
      requires Valid() && food.Valid()
      modifies this, tutorial, children, food
      ensures Valid() && food.Valid() && food.position == old(food.position)
      ensures finished == OneSecond(old(food.State())).finished
      ensures finished.None? ==> food.State() == OneSecond(old(food.State())).state
      ensures finished.None? ==> Snapshot() == old(Snapshot()) && tutorial.State() == old(tutorial.State())
      ensures finished.None? ==> forall f :: f in old(children) && f != food ==> unchanged(f)
      ensures finished.Some? ==> var adv := CookReport(old(tutorial.State()), old(food.item), food in old(children));
        && tutorial.State() == adv.cursor
        && Snapshot() == AfterNotify(old(Snapshot()), adv)
        && food.State() == ExpiredInScene(old(food.State()), old(tutorial.State()), food in old(children))
      ensures finished.Some? ==> forall f :: f in old(children) && f != food ==>
        && f.position == old(f.position)
        && f.State() == Highlight(Highlight(old(f.State()), ReportTarget(old(tutorial.State()), old(food.item), food in old(children))),
             AfterReportTarget(old(tutorial.State()), old(food.item), food in old(children)))
    {
      if food.cooking.None? || food.cooking.value.remaining > 1 {
        finished := food.Tick();
        return;
      }
      var cooked := food.item;
      var result := food.cooking.value.result;
      if food in children {
        var _ := NotifyTutorial(Cook(cooked));
      }
      UpdateFood(food, result, Some(cooked) != food.cookOverride);
      finished := Some(cooked);
    }

    // -------------------------------------------------------------------------
    // Combining (EventHandler/ItemPlacementManager.swift)
    // -------------------------------------------------------------------------

    /** `attemptFoodCombine`, once `combineIngredients(existing, incoming)` gave
        `result`: one portion is taken from each, the tutorial hears of the combine,
        and the portion policy decides which instance becomes the result. */
    method AttemptFoodCombine(incoming: Food, existing: Food, result: FoodItem)
      requires Valid() && incoming.Valid() && existing.Valid() && incoming != existing && existing in children
      requires CombineIngredients(existing.item, incoming.item) == Some(result)
      modifies this, tutorial, children, incoming, existing
      ensures Valid() && incoming.Valid() && existing.Valid()
      ensures !(old(incoming.portion).Some? && old(existing.portion).Some?)
      ensures CombinedOnScene(incoming, existing, result, old(children))
    {
      DebugTrapUnreachable(existing.State(), incoming.State());
      match CombineBranch(Portioned(incoming.State()).portion, Portioned(existing.State()).portion)
      case IncomingKeepsPortions => CombineKeepingIncoming(incoming, existing, result);
      case ExistingKeepsPortions => CombineKeepingExisting(incoming, existing, result);
      case Merged => CombineMerging(incoming, existing, result);
    }

    /** `attemptFoodCombine` when, after one portion is taken from each, the incoming
        food still has some. */
    method CombineKeepingIncoming(incoming: Food, existing: Food, result: FoodItem)
      requires Valid() && incoming.Valid() && existing.Valid() && incoming != existing && existing in children
      requires CombineBranch(Portioned(incoming.State()).portion, Portioned(existing.State()).portion) == IncomingKeepsPortions
      modifies this, tutorial, children, incoming, existing
      ensures Valid() && incoming.Valid() && existing.Valid()
      ensures CombinedOnScene(incoming, existing, result, old(children))
    {
      ghost var fs, before, s0i, s0e := children, tutorial.State(), incoming.State(), existing.State();
      ghost var adv := Advance(before, Combine(incoming.item, existing.item));
      ghost var c := CombineStates(s0i, s0e, result);
      ghost var t := CombineTarget(before, adv, true);
      PortionAndReport(incoming, existing);
      ghost var s1i, s1e, mid := incoming.State(), existing.State(), children;
      assert existing in mid <==> !adv.ended;
      KeepIncoming(incoming, existing, result);
      assert UpdateTarget(existing in mid, tutorial.State()) == t;
      assert existing.State() == Highlight(c.existing, t);
    }

    /** `attemptFoodCombine` when, after one portion is taken from each, only the
        occupant still has some. */
    method CombineKeepingExisting(incoming: Food, existing: Food, result: FoodItem)
      requires Valid() && incoming.Valid() && existing.Valid() && incoming != existing && existing in children
      requires CombineBranch(Portioned(incoming.State()).portion, Portioned(existing.State()).portion) == ExistingKeepsPortions
      modifies this, tutorial, children, incoming, existing
      ensures Valid() && incoming.Valid() && existing.Valid()
      ensures CombinedOnScene(incoming, existing, result, old(children))
    {
      ghost var fs, before, s0i, s0e := children, tutorial.State(), incoming.State(), existing.State();
      ghost var adv := Advance(before, Combine(incoming.item, existing.item));
      ghost var c := CombineStates(s0i, s0e, result);
      ghost var t := CombineTarget(before, adv, incoming in fs);
      PortionAndReport(incoming, existing);
      ghost var mid := children;
      assert incoming in mid <==> incoming in fs && !adv.ended;
      assert existing in mid <==> !adv.ended;
      KeepExisting(incoming, existing, result);
      assert UpdateTarget(incoming in mid, tutorial.State()) == (if incoming in fs then t else None);
    }

    /** `attemptFoodCombine` when, after one portion is taken from each, neither has
        any left. */
    method CombineMerging(incoming: Food, existing: Food, result: FoodItem)
      requires Valid() && incoming.Valid() && existing.Valid() && incoming != existing && existing in children
      requires CombineBranch(Portioned(incoming.State()).portion, Portioned(existing.State()).portion) == Merged
      modifies this, tutorial, children, incoming, existing
      ensures Valid() && incoming.Valid() && existing.Valid()
      ensures CombinedOnScene(incoming, existing, result, old(children))
    {
      ghost var fs, before, s0i, s0e := children, tutorial.State(), incoming.State(), existing.State();
      ghost var adv := Advance(before, Combine(incoming.item, existing.item));
      ghost var c := CombineStates(s0i, s0e, result);
      ghost var t := CombineTarget(before, adv, true);
      PortionAndReport(incoming, existing);
      ghost var mid := children;
      assert existing in mid <==> !adv.ended;
      Merge(incoming, existing, result);
      assert UpdateTarget(existing in mid, tutorial.State()) == t;
      assert existing.State() == Highlight(c.existing, t);
    }

    /** The first branch of the portion policy: the occupant becomes the result, and
        the incoming food goes back to the drag's origin, if any. */
    method KeepIncoming(incoming: Food, existing: Food, result: FoodItem)
      requires Valid() && incoming.Valid() && existing.Valid() && incoming != existing
      modifies this, children, incoming, existing
      ensures Valid() && incoming.Valid() && existing.Valid()
      ensures var t := UpdateTarget(existing in old(children), tutorial.State());
        var placed := old(touchesBeganLocation).Some?;
        var hooked := Highlight(old(incoming.State()), if incoming in old(children) then t else None);
        && Snapshot() == Regrouped(old(Snapshot()), IncomingKeepsPortions, incoming)
        && existing.position == old(existing.position)
        && existing.State() == Highlight(Updated(old(existing.State()), result, false), t)
        && incoming.position == (if placed then old(touchesBeganLocation).value else old(incoming.position))
        && incoming.State() == (if placed then Stopped(hooked) else hooked)
        && forall f :: f in old(children) && f != incoming && f != existing ==>
             f.position == old(f.position) && f.State() == Highlight(old(f.State()), t)
    {
      UpdateFood(existing, result, false);
      if touchesBeganLocation.Some? {
        PlaceFoodOnTile(incoming, touchesBeganLocation.value);
      }
    }

    /** The second branch: the incoming food becomes the result and goes back to the
        drag's origin, if any; the occupant keeps its item. */
    method KeepExisting(incoming: Food, existing: Food, result: FoodItem)
      requires Valid() && incoming.Valid() && existing.Valid() && incoming != existing
      modifies this, children, incoming, existing
      ensures Valid() && incoming.Valid() && existing.Valid()
      ensures var t := UpdateTarget(incoming in old(children), tutorial.State());
        var placed := old(touchesBeganLocation).Some?;
        var updated := Highlight(Updated(old(incoming.State()), result, false), t);
        && Snapshot() == Regrouped(old(Snapshot()), ExistingKeepsPortions, incoming)
        && existing.position == old(existing.position)
        && existing.State() == Highlight(old(existing.State()), if existing in old(children) then t else None)
        && incoming.position == (if placed then old(touchesBeganLocation).value else old(incoming.position))
        && incoming.State() == (if placed then Stopped(updated) else updated)
        && forall f :: f in old(children) && f != incoming && f != existing ==>
             f.position == old(f.position) && f.State() == Highlight(old(f.State()), t)
    {
      UpdateFood(incoming, result, false);
      if touchesBeganLocation.Some? {
        PlaceFoodOnTile(incoming, touchesBeganLocation.value);
      }
    }

    /** The third branch: the occupant becomes the result and the incoming food leaves
        the scene. */
    method Merge(incoming: Food, existing: Food, result: FoodItem)
      requires Valid() && incoming.Valid() && existing.Valid() && incoming != existing
      modifies this, children, incoming, existing
      ensures Valid() && incoming.Valid() && existing.Valid()
      ensures var t := UpdateTarget(existing in old(children), tutorial.State());
        && Snapshot() == Regrouped(old(Snapshot()), Merged, incoming)
        && existing.position == old(existing.position)
        && existing.State() == Highlight(Updated(old(existing.State()), result, false), t)
        && incoming.position == old(incoming.position)
        && incoming.State() == Highlight(old(incoming.State()), if incoming in old(children) then t else None)
        && forall f :: f in old(children) && f != incoming && f != existing ==>
             f.position == old(f.position) && f.State() == Highlight(old(f.State()), t)
    {
      UpdateFood(existing, result, false);
      RemoveFromScene(incoming);
    }

    /** The first half of `attemptFoodCombine`: `portionSingle` on both instances,
        then the `combine` report to the tutorial. */
    method PortionAndReport(incoming: Food, existing: Food)
      requires Valid() && incoming.Valid() && existing.Valid() && incoming != existing && existing in children
      modifies this, tutorial, children, incoming, existing
      ensures Valid() && incoming.Valid() && existing.Valid()
      ensures var adv := Advance(old(tutorial.State()), Combine(old(incoming.item), old(existing.item)));
        var t := CookTarget(old(tutorial.State()), adv);
        && tutorial.State() == adv.cursor && Snapshot() == AfterNotify(old(Snapshot()), adv)
        && incoming.position == old(incoming.position) && existing.position == old(existing.position)
        && existing.State() == Highlight(Portioned(old(existing.State())), t)
        && incoming.State() == Highlight(Portioned(old(incoming.State())), if incoming in old(children) then t else None)
        && forall f :: f in old(children) && f != incoming && f != existing ==>
             f.position == old(f.position) && f.State() == Highlight(old(f.State()), t)
    {
      incoming.PortionSingle();
      existing.PortionSingle();
      var _ := NotifyTutorial(Combine(incoming.item, existing.item));
    }

    /** The effect of `attemptFoodCombine(incoming, existing, result)` on a scene whose
        food was `fs`. */
    twostate predicate CombinedOnScene(incoming: Food, existing: Food, result: FoodItem, fs: seq<Food>)
      reads this, tutorial, incoming, existing, fs
    {
      var adv := Advance(old(tutorial.State()), Combine(old(incoming.item), old(existing.item)));
      var c := CombineStates(old(incoming.State()), old(existing.State()), result);
      var placed := c.branch != Merged && old(touchesBeganLocation).Some?;
      var t := CombineTarget(old(tutorial.State()), adv, c.branch != ExistingKeepsPortions || incoming in fs);
      && tutorial.State() == adv.cursor
      && Snapshot() == Regrouped(AfterNotify(old(Snapshot()), adv), c.branch, incoming)
      && existing.position == old(existing.position)
      && existing.State() == Highlight(c.existing, t)
      && incoming.position == (if placed then old(touchesBeganLocation).value else old(incoming.position))
      && incoming.State() == Highlight(if placed then Stopped(c.incoming) else c.incoming, if incoming in fs then t else None)
      && forall f :: f in fs && f != incoming && f != existing ==>
           f.position == old(f.position) && f.State() == Highlight(old(f.State()), t)
    }

    // -------------------------------------------------------------------------
    // Dropping and tile events (EventHandler/ItemPlacementManager.swift)
    // -------------------------------------------------------------------------

    /** `setFoodItemDown`: a drop on a tile that does not take food, or on a food it
        does not combine with, goes back to the drag's origin; a drop on a food it
        combines with runs `attemptFoodCombine`; a drop on a free tile places the food
        and reports the action to the tutorial. `fire` lists the foods whose tile
        events are to fire next. */
    method SetFoodItemDown(food: Food, tile: TilePoint) returns (fire: seq<Food>)
      requires Valid() && food.Valid()
      modifies this, tutorial, children, food
      ensures Valid() && food.Valid()
      ensures var occupant := old(Occupant(children, tile, draggedFood));
        match DropCase(TileGroupAt(grid, tile), if occupant.Some? then Some(old(occupant.value.item)) else None, old(food.item))
        case Rejected => fire == [food] && SentBack(food, old(children))
        case NoRecipe => fire == [food] && SentBack(food, old(children))
        case Place => fire == [food] && PlacedAndReported(food, tile, TileGroupAt(grid, tile), old(children))
        case Combines(r) => fire == [food, occupant.value] && CombinedOnScene(food, occupant.value, r, old(children))
    {
      ghost var occupied := if Occupant(children, tile, draggedFood).Some? then Some(Occupant(children, tile, draggedFood).value.item) else None;
      var kind := TileGroupAt(grid, tile);
      if !Placeable(kind) {
        SendBack(food);
        return [food];
      }
      var existing := GetFoodOnTile(tile);
      if existing.None? {
        PlaceAndReport(food, tile, kind);
        return [food];
      }
      var combined := CombineIngredients(existing.value.item, food.item);
      if combined.None? {
        assert DropCase(kind, occupied, food.item) == NoRecipe;
        SendBack(food);
        return [food];
      }
      CombineIrreflexive(food.item);
      assert DropCase(kind, occupied, food.item) == Combines(combined.value);
      AttemptFoodCombine(food, existing.value, combined.value);
      return [food, existing.value];
    }

    /** `returnFoodToTouchesBegan` as `setFoodItemDown` uses it. */
    method SendBack(food: Food)
      requires Valid() && food.Valid()
      modifies this, food
      ensures Valid() && food.Valid() && SentBack(food, old(children))
    {
      ReturnFoodToTouchesBegan(food);
    }

    /** The drop sent `food` back, and no other food changed. */
    twostate predicate SentBack(food: Food, fs: seq<Food>)
      reads this, tutorial, food, fs
    {
      && Returned(food) && tutorial.State() == old(tutorial.State())
      && forall f :: f in fs && f != food ==> f.position == old(f.position) && f.State() == old(f.State())
    }

    /** The free-tile branch of `setFoodItemDown`: `placeFoodOnTile`, then the
        `action` report for the tile's kind. */
    method PlaceAndReport(food: Food, tile: TilePoint, kind: TileType)
      requires Valid() && food.Valid()
      modifies this, tutorial, children, food
      ensures Valid() && food.Valid()
      ensures PlacedAndReported(food, tile, kind, old(children))
    {
      PlaceFoodOnTile(food, tile);
      WithoutMembers(old(children), food);
      assert forall i :: 0 <= i < |children| ==> children[i] in old(children) || children[i] == food;
      var _ := NotifyTutorial(ActionOn(food.item, kind));
    }

    /** The effect of placing `food` on `tile` of kind `kind` and reporting it, on a
        scene whose food was `fs`: the food ends up at the end of the scene, not
        cooking; the tutorial hears of the action; the highlight hook runs if the
        cursor moved on. */
    twostate predicate PlacedAndReported(food: Food, tile: TilePoint, kind: TileType, fs: seq<Food>)
      reads this, tutorial, food, fs
    {
      var adv := Advance(old(tutorial.State()), ActionOn(old(food.item), kind));
      var t := CookTarget(old(tutorial.State()), adv);
      && tutorial.State() == adv.cursor
      && Snapshot() == AfterNotify(old(Snapshot()).(children := Without(old(children), food) + [food]), adv)
      && food.position == tile && food.State() == Highlight(Stopped(old(food.State())), t)
      && forall f :: f in fs && f != food ==> f.position == old(f.position) && f.State() == Highlight(old(f.State()), t)
    }

    /** `fireTileEvent`: what the tile under a placed food does to it. A stove starts
        cooking it, a counter does nothing, a sink runs `sinkEvent`, a table may serve
        a customer, a trash can removes it, and any other tile sends it back. */
    method FireTileEvent(food: Food)
      requires Valid() && food.Valid()
      modifies this, children, customersAtTables, food
      ensures Valid() && food.Valid()
      ensures var event := EventFor(TileGroupAt(grid, old(food.position)));
        && (event != OnTable ==> unchanged(old(customersAtTables)))
        && (event != OnSink && event != BackToOrigin ==> food.position == old(food.position))
        && (event == OnMachine ==> Snapshot() == old(Snapshot()) && food.State() == Started(old(food.State())))
        && (event == OnCounter ==> Snapshot() == old(Snapshot()) && food.State() == old(food.State()))
        && (event == OnTrashcan ==>
              Snapshot() == old(Snapshot()).(children := Without(old(children), food)) && food.State() == old(food.State()))
        && (event == BackToOrigin ==> Returned(food))
        && (event == OnTable ==> food.State() == old(food.State()))
        && (event == OnSink ==> Snapshot() == old(Snapshot()))
        && (event != OnSink ==> forall f :: f in old(children) && f != food ==> unchanged(f))
      ensures var served := FirstServed(old(Seats(customersAtTables)), old(food.position), old(food.item));
        && (EventFor(TileGroupAt(grid, old(food.position))) == OnTable && served.None? ==>
              Snapshot() == old(Snapshot()) && unchanged(old(customersAtTables)))
        && (EventFor(TileGroupAt(grid, old(food.position))) == OnTable && served.Some? ==>
              Served(old(customersAtTables), served.value, food))
      ensures var t := UpdateTarget(WaterFilled(old(food.item)) && food in children, tutorial.State());
        && (EventFor(TileGroupAt(grid, old(food.position))) == OnSink ==>
              food.position == old(food.position) && food.State() == Highlight(Sunk(old(food.State())), t))
        && (EventFor(TileGroupAt(grid, old(food.position))) == OnSink ==> forall f :: f in old(children) && f != food ==>
              f.position == old(f.position) && f.State() == Highlight(old(f.State()), t))
    {
      match EventFor(TileGroupAt(grid, food.position))
      case OnMachine => food.StartCooking();
      case OnCounter =>
      case OnSink => SinkFood(food);
      case OnTable => EventTableTile(food, food.position);
      case OnTrashcan => RemoveFromScene(food);
      case BackToOrigin => ReturnFoodToTouchesBegan(food);
    }
  }
}
