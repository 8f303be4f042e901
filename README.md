# DishDash game rules in Dafny

DishDash is a SpriteKit kitchen game. The player drags ingredients from food
sources onto the tiles of a kitchen grid. There they are cooked on machines,
filled with water at sinks and combined with one another, and the dishes are
served to customers seated at tables. This project models the game rules of
that code and proves properties of them. The sprites, textures, labels and
glow effects are not modelled.

The modules follow the source files:

- `FoodItems` (`food_items.dfy`) and `Categories` (`categories.dfy`) hold the
  recipe tables of Code/DataTypes/FoodItems.swift:
  - item identifiers and their raw values;
  - stove operations and their times;
  - single-input actions;
  - the unordered combine table and portion counts;
  - order categories, their sources, orderable dishes and tutorial sequences.

  The file is split into two modules because the tutorial sequences need the
  tutorial actions, which in turn need the items.
- `Tiles` (`tiles.dfy`) models `TileType` and `TilePoint`.
- `TileGrid` (`grid.dfy`) models the tile-map lookups of FoodOnTileManager.swift.
- `TutorialActions` (`tutorial_actions.dfy`) and `Tutorial` (`tutorial.dfy`)
  model the tutorial steps, their equality and the sequencer's cursor.
- `Foods` (`food.dfy`) is the food state machine of Code/Nodes/Food.swift:
  - a `FoodState` value with transition functions, proved against one another;
  - the `Food` class whose methods carry them out.
- `Customers` (`customer.dfy`) models a customer's patience countdown.
- `CustomerRules` (`customer_rules.dfy`) holds the difficulty formulas and the
  table choice of CustomerManager.swift.
- `Placement` (`placement.dfy`) holds the placement rules as functions:
  - how a drop is classified;
  - the portion policy of a combine;
  - the tile-event dispatch;
  - which customer a dish serves.
- `Kitchen` (`kitchen.dfy`) is the game scene as a class. It owns the food on
  the floor, the seated customers, the score, the tutorial cursor and the
  customer generator. It carries out:
  - FoodOnTileManager.swift;
  - EventHandler/ItemPlacementManager.swift;
  - CustomerManager.swift;
  - the tutorial hooks of GameScene+TutorialSceneControl.swift;
  - the parts of LosingHandler.swift those call.
- `LegacyFoodItems` (`legacy_food_items.dfy`) and `LegacyKitchen`
  (`legacy_kitchen.dfy`) model the older revision: Code/Nodes/FoodItems.swift
  and Code/GameUtils/ItemPlacementManager.swift.

Modelling choices:

- Timers become explicit ticks, one per second:
  - `Food.Tick` and `Kitchen.FoodTick` for cooking;
  - `Customer.Tick` and `Kitchen.CustomerTick` for patience.

  The generator timer is the number of seconds it was armed with.
- The scene's children are the food instances, in the order they were added.
  A food's tile is its `position`.
- A random choice is left open (`:|`) or becomes a parameter.
- `Matches`, the equality the sequencer uses, differs from the source: it
  compares the two `grabSource…` steps argument by argument. This is the
  corrected half of the finding below; `LiteralEquals` is the `==` exactly as
  written.

Where the code and its surrounding documentation disagree, the model follows
the code. The tutorial sequences in Code/DataTypes/FoodItems.swift use two
steps, `grabSourceToTile` and `grabSourceToFoodItem`, that the `TutorialAction`
enum of Code/DataTypes/Tutorial.swift does not declare. The model adds them
with the arguments they are used with (see Findings).

## Model

| member | source | states |
|---|---|---|
| FoodItems.RawValueInjective | Code/DataTypes/FoodItems.swift:82-107 | no two items share a raw value, so `FoodItem(rawValue:)` is well defined |
| FoodItems.TimeNeededPositiveAndIncreasing | Code/DataTypes/FoodItems.swift:246-263 | every stove operation takes a positive time, strictly longer for a higher-ranked operation |
| FoodItems.CombineSymmetric | Code/DataTypes/FoodItems.swift:307-312 | trying the ordered table both ways makes combining order-insensitive |
| FoodItems.CombineExactlyTheRules | Code/DataTypes/FoodItems.swift:314-327 | a pair combines to `r` iff it is one of the four listed rules, read in either order |
| FoodItems.CombineIrreflexive | Code/DataTypes/FoodItems.swift:314-327 | no item combines with itself |
| FoodItems.ActionDomain | Code/DataTypes/FoodItems.swift:288-304 | `action(for:)` is defined exactly for Pot and PotRawRice, both water fills, with their results |
| FoodItems.PortionDomain | Code/DataTypes/FoodItems.swift:329-338 | only PotCookedRice is portioned, into 5 portions |
| FoodItems.CookChain | Code/DataTypes/FoodItems.swift:271-286 | following stove results from an item ends within four steps at an item with no stove operation; it is empty iff the item does not cook |
| FoodItems.CookChainAcyclic | Code/DataTypes/FoodItems.swift:271-286 | no item is reached again by cooking it |
| FoodItems.SteakChain | Code/DataTypes/FoodItems.swift:273-280 | a raw steak goes Rare, Medium, Burnt, then BurntBlock, which does not cook |
| Categories.RandomOrderableItem | Code/DataTypes/FoodItems.swift:77-79 | the item drawn is one of the category's orderable items, with a raw value below 1000, and the force-unwrap cannot fail |
| Categories.AllIsSteakThenSushi | Code/DataTypes/FoodItems.swift:19-75 | for sources, orderables and tutorial, `All` is the Steak list followed by the Sushi list |
| Categories.OrderablesNonEmptyAndBelowThousand | Code/DataTypes/FoodItems.swift:30-39 | every category has an orderable item, and every orderable item is in the "orderable" raw-value band |
| Categories.RawValueBands | Code/DataTypes/FoodItems.swift:82-107 | the raw-value bands of the enum's doc comments hold both ways: the orderables of `All` are exactly the items below 1000, and the cooking assets and misc items are the listed ones |
| Categories.TutorialSequencesNonEmpty | Code/DataTypes/FoodItems.swift:41-75 | every category's tutorial has a first step |
| Categories.ItemTutorialEndsWithServe | Code/DataTypes/FoodItems.swift:187-230 | a dish has a tutorial iff it is orderable, and that tutorial ends by serving the dish |
| Tiles.RawValueRoundTrip | Code/DataTypes/TileType.swift:11-18 | `TileType(rawValue:)` inverts `rawValue`, and a recognised name is the raw value of its kind |
| Tiles.RawValuesDistinct | Code/DataTypes/TileType.swift:11-18 | distinct kinds have distinct raw values |
| Tiles.PlaceableExceptFloorAndUnknown | Code/DataTypes/TileType.swift:39-46 | a kind takes food iff it is neither Floor nor Unknown |
| Tiles.PointAt | Code/DataTypes/TilePoint.swift:20-26 | `init(column:row:)` gives back its column and row through the accessors |
| Tiles.InitialisersAgree | Code/DataTypes/TilePoint.swift:15-23 | the deprecated `init(x:y:)` and `init(column:row:)` build the same point, with `x` the column and `y` the row |
| Tiles.EqualityAndHash | Code/DataTypes/TilePoint.swift:28-31 | equality and the hashed fields agree: two points are equal iff their `x` and `y` are |
| TileGrid.TileGroupAt | Code/GameUtils/FoodOnTileManager.swift:26-29 | `tileGroup(at:)` is the kind whose raw value the cell's group names, exactly that kind whenever the name is one, and Unknown for a cell without a group or an unrecognised name |
| TileGrid.GetPositionsOfTileGroup | Code/GameUtils/FoodOnTileManager.swift:12-24 | the nested column/row loops collect exactly `Positions(g, t)` |
| TileGrid.ColumnCellsSpec | Code/GameUtils/FoodOnTileManager.swift:16-20 | the inner loop collects the matching cells of one column, in row order |
| TileGrid.GridCellsSpec | Code/GameUtils/FoodOnTileManager.swift:15-21 | the outer loop collects the matching cells of the first columns, column after column |
| TileGrid.PositionsSpec | Code/GameUtils/FoodOnTileManager.swift:12-24 | the positions are exactly the in-bounds cells whose group is the kind, in column-major order, each once |
| TileGrid.PositionsAreCellsOfKind | Code/GameUtils/FoodOnTileManager.swift:12-29 | for every kind but Unknown, the enumeration agrees with `tileGroup(at:)`; cells without a group read as Unknown but are never enumerated |
| TutorialActions.CombineOrderInsensitive | Code/DataTypes/Tutorial.swift:18-19 | combine(a, b) equals combine(b, a) |
| TutorialActions.MatchesIsEqualityUpToCombineOrder | Code/DataTypes/Tutorial.swift:16-29 | the corrected equality is syntactic equality up to swapping a combine's operands |
| TutorialActions.MatchesReflexiveSymmetric | Code/DataTypes/Tutorial.swift:16-29 | the corrected equality is reflexive and symmetric, and never relates different cases |
| TutorialActions.MatchesAgreesOnDeclared | Code/DataTypes/Tutorial.swift:16-29 | on the four declared cases the corrected equality is the written `==`, which is reflexive and symmetric there |
| TutorialActions.GrabStepsNeverEqualAsWritten | Code/DataTypes/Tutorial.swift:26-27 | under the written `==`, a grab-source step equals nothing, itself included |
| Tutorial.Initiated | Code/DataTypes/Tutorial.swift:49-58 | `initiateTutorial` makes the first step current and keeps the rest, in order |
| Tutorial.AdvanceCases | Code/DataTypes/Tutorial.swift:85-98 | a non-matching action leaves the cursor alone; a matching one moves it on by exactly one step, or ends the tutorial when nothing remains |
| Tutorial.FinishedStaysFinished | Code/DataTypes/Tutorial.swift:85-98 | once no step is current, no action changes the cursor or ends the tutorial again |
| Tutorial.ReplayExpectedSteps | Code/DataTypes/Tutorial.swift:85-98 | performing the expected steps in order ends the tutorial exactly once |
| Tutorial.CategoryTutorialCompletes | Code/DataTypes/Tutorial.swift:49-98 | every category's tutorial, performed as listed, runs to completion |
| Tutorial.OutOfOrderAndRepeatIgnored | Code/DataTypes/Tutorial.swift:85-98 | an out-of-order step does not move the cursor, and a repeated step moves it only once |
| Tutorial.SushiTutorialStuckAsWritten | Code/DataTypes/Tutorial.swift:26-27 | with the written `==`, no action ever advances the Sushi tutorial past its first step, while the corrected equality does |
| Tutorial.Sequencer.constructor | Code/DataTypes/Tutorial.swift:34-35 | a scene starts with no current step and nothing queued |
| Tutorial.Sequencer.InitiateTutorial | Code/DataTypes/Tutorial.swift:49-58 | the cursor becomes `Initiated` of the category's sequence, which is never empty |
| Tutorial.Sequencer.OnAction | Code/DataTypes/Tutorial.swift:85-98 | the new cursor and the end-of-tutorial report are those of `Advance` |
| Foods.TransitionsKeepConsistent | Code/Nodes/Food.swift:41-95 | every transition keeps the portion count and the cooking countdown consistent with the recipe tables |
| Foods.UpdateSpec | Code/Nodes/Food.swift:54-73 | `updateFoodItem` installs the item and its table portion count, cancels the countdown, and re-arms one exactly when asked and the item cooks |
| Foods.StartSpec | Code/Nodes/Food.swift:41-52 | `startCooking` does nothing for an item that does not cook; otherwise it arms a countdown of exactly the operation's `timeNeeded` seconds towards the stove result and changes nothing else |
| Foods.ExpirySpec | Code/Nodes/Food.swift:43-49 | when the countdown runs out the item becomes the stove result, and cooking goes on iff the finished item is not the override and the result cooks |
| Foods.SinkSpec | Code/Nodes/Food.swift:81-86 | `sinkEvent` changes the food only for a water-fill action, and then installs its result without cooking |
| Foods.PortionSpec | Code/Nodes/Food.swift:88-95 | `portionSingle` leaves an item without a portion count unchanged, and otherwise takes one portion and changes nothing else |
| Foods.PortionCountdown | Code/Nodes/Food.swift:88-95 | `k` calls of `portionSingle` take exactly `k` portions, with no floor at zero |
| Foods.RunSplit | Code/Nodes/Food.swift:41-52 | cooking for `a + b` seconds is cooking for `a` and then `b`, and the finished items concatenate |
| Foods.RunCountdown | Code/Nodes/Food.swift:43-49 | an armed countdown of `k` seconds fires once, on second `k` |
| Foods.RunThroughExpiry | Code/Nodes/Food.swift:43-49 | after its countdown a food goes on from the callback's state |
| Foods.ChainLink | Code/Nodes/Food.swift:41-52 | a food's cook chain is its next stove result followed by that result's chain |
| Foods.ExpiredWithoutOverride | Code/Nodes/Food.swift:43-60 | with no override, the callback installs the result and arms the result's own stove step |
| Foods.RunToChainEnd | Code/Nodes/Food.swift:41-73 | left on the stove with no override, a food cooks through its whole chain and stops at its end, reporting each finished stage in order |
| Foods.RunAfterExpiry | Code/Nodes/Food.swift:41-73 | the rest of the chain after the first expiry (the inductive step of `RunToChainEnd`) |
| Foods.SteakBurnsToBlock | Code/Nodes/Food.swift:41-73 | a raw steak on the stove is a BurntBlock after 14 seconds, having reported Raw, Rare, Medium and Burnt |
| Foods.OverrideStopsChain | Code/Nodes/Food.swift:48 | with the override set to the item cooking, it cooks once and stops |
| Foods.Food.constructor | Code/Nodes/Food.swift:27-35 | a new food has no portion count, no countdown and no override |
| Foods.Food.StartCooking | Code/Nodes/Food.swift:41-52 | the food's new state is `Started` of the old one, and it stays consistent |
| Foods.Food.StopCooking | Code/Nodes/Food.swift:75-79 | the countdown is cancelled and nothing else changes |
| Foods.Food.UpdateFoodItem | Code/Nodes/Food.swift:54-73 | the food's new state is `Updated` of the old one, and it stays consistent |
| Foods.Food.Expire | Code/Nodes/Food.swift:43-49 | the callback leaves the food in state `Expired` and reports the item that finished |
| Foods.Food.Tick | Code/Nodes/Food.swift:43-49 | one second of the countdown is `OneSecond` of the old state |
| Foods.Food.SinkEvent | Code/Nodes/Food.swift:81-86 | the food's new state is `Sunk` of the old one |
| Foods.Food.PortionSingle | Code/Nodes/Food.swift:88-95 | the food's new state is `Portioned` of the old one |
| Foods.Food.SetCookOverride | Code/Nodes/Food.swift:24-25 | only the override changes |
| Customers.TickSpec | Code/Nodes/Customer.swift:54-66 | a running countdown loses one second per firing and calls the callback exactly when it reaches zero or below, stopping the timer; a stopped one does nothing |
| Customers.StoppedNeverFires | Code/Nodes/Customer.swift:68-71 | a served customer's countdown never fires again |
| Customers.FiresOnceOnTick | Code/Nodes/Customer.swift:54-66 | a new customer runs out of patience exactly once, on tick `max(timeLimit, 1)` |
| Customers.FiresOnTickT | Code/Nodes/Customer.swift:54-66 | with a time limit `T >= 1`, nothing has fired after `T - 1` ticks, and the callback has fired once after `T` |
| Customers.Customer.constructor | Code/Nodes/Customer.swift:18-32 | the countdown starts at `timeLimit`, running, and no table is held yet |
| Customers.Customer.Tick | Code/Nodes/Customer.swift:55-65 | one firing is `WaitOneSecond` of the old countdown; the table is kept |
| Customers.Customer.OrderSatisfied | Code/Nodes/Customer.swift:34-40 | the countdown is stopped with its seconds kept |
| Customers.Customer.StopCountdown | Code/GameUtils/CustomerManager.swift:24 | the countdown is stopped with its seconds kept |
| CustomerRules.TimeLimitForCustomer | Code/GameUtils/CustomerManager.swift:64-69 | a new customer waits between 7 and 20 seconds |
| CustomerRules.TimeIntervalBasedOnDifficulty | Code/GameUtils/CustomerManager.swift:89-94 | the next customer comes in between 2 and 10 seconds |
| CustomerRules.DifficultyNonIncreasing | Code/GameUtils/CustomerManager.swift:64-94 | both times only shrink as more customers have come |
| CustomerRules.DifficultyFloors | Code/GameUtils/CustomerManager.swift:11-18 | the limit reaches its floor of 7 exactly from customer 26 and the interval its floor of 2 exactly from customer 16; before that each drops by one every two customers |
| CustomerRules.FirstFree | Code/GameUtils/CustomerManager.swift:72-85 | a table chosen is a table position no seated customer holds |
| CustomerRules.FirstFreeSpec | Code/GameUtils/CustomerManager.swift:72-85 | the table chosen is the first free one in enumeration order, and none is chosen exactly when every table is held |
| Collections.Without | Code/GameUtils/CustomerManager.swift:97 | `removeAll { $0 == x }` removes every occurrence of `x` and keeps the other elements |
| Collections.WithoutMembers | Code/GameUtils/CustomerManager.swift:97 | after `removeAll { $0 == x }`, the elements left are exactly those other than `x` |
| Collections.WithoutAbsent | Code/GameUtils/CustomerManager.swift:97 | removing an absent element changes nothing |
| Collections.WithoutUnique | Code/GameUtils/CustomerManager.swift:97 | removing an element that occurs once at `i` closes the gap at `i` |
| Collections.WithoutKeepsDistinct | Code/GameUtils/CustomerManager.swift:97 | removing keeps a list without repetitions without repetitions |
| Placement.DropCaseSpec | Code/GameUtils/EventHandler/ItemPlacementManager.swift:37-60 | a drop combines iff the tile takes food, is occupied and the two items have a rule; it places iff the tile takes food and is free; a food never combines with its own item |
| Placement.DebugTrapUnreachable | Code/GameUtils/EventHandler/ItemPlacementManager.swift:65-69 | the debug trap for two portioned foods cannot fire for two items that combine |
| Placement.CombineSpec | Code/GameUtils/EventHandler/ItemPlacementManager.swift:71-92 | exactly one of the two foods becomes the result: the incoming food keeps its portions iff it had more than one, else the occupant iff it had more than one, else they merge into the occupant; the result stops cooking |
| Placement.RicePotServes | Code/GameUtils/EventHandler/ItemPlacementManager.swift:71-92 | a rice pot with `n` portions serves exactly `n` Nigiri: `n - 1` fish come back as Nigiri while the pot counts down, and the last one turns the pot into Nigiri |
| Placement.FiveFishOnFreshRicePot | Code/GameUtils/EventHandler/ItemPlacementManager.swift:71-92 | a freshly cooked pot holds 5 portions: four fish come back as Nigiri as the pot goes 4, 3, 2, 1, and the fifth fish merges |
| Placement.EventForSpec | Code/GameUtils/EventHandler/ItemPlacementManager.swift:16-34 | each kind that takes food has its own handler, and exactly the kinds that do not take food send it back |
| Placement.FirstServed | Code/GameUtils/EventHandler/ItemPlacementManager.swift:102-114 | the customer served is the first, in seating order, at that table who ordered the dish; none iff there is none |
| Placement.FirstServedAt | Code/GameUtils/EventHandler/ItemPlacementManager.swift:103-110 | a front-to-back scan that stops at the first match finds `FirstServed` |
| Placement.AtMostOneServable | Code/GameUtils/EventHandler/ItemPlacementManager.swift:102-114 | with customers at distinct tables, at most one can be served by a dish on a tile |
| Kitchen.Occupant | Code/GameUtils/FoodOnTileManager.swift:37-48 | the food found is the first in scene order that is on the tile and not dragged; none iff no such food exists |
| Kitchen.Tables | Code/GameUtils/CustomerManager.swift:75-77 | the tables the seated customers hold, index by index |
| Kitchen.Seats | Code/GameUtils/EventHandler/ItemPlacementManager.swift:103-105 | the seated customers' tables and orders, index by index |
| Kitchen.ExpiredInSceneSpec | Code/Nodes/Food.swift:43-73 | a countdown that runs out in the scene installs the stove result; off screen or with no tutorial it is the plain callback, and on screen a non-matching report only adds the current cook override |
| Kitchen.CombineTargetIdle | Code/GameUtils/EventHandler/ItemPlacementManager.swift:75 | with no tutorial step current, a combine report changes no food's override |
| Kitchen.ServedIsUnique | Code/GameUtils/CustomerManager.swift:96-99 | customers at distinct tables are distinct, so removing the served one removes only them |
| Kitchen.SeatedApartAppend | Code/GameUtils/CustomerManager.swift:49-54 | seating a customer at a free table keeps all tables distinct |
| Kitchen.WithoutKeepsSeatedApart | Code/GameUtils/CustomerManager.swift:96-99 | removing a customer keeps the tables distinct |
| Kitchen.DropKeepsSeatedApart | Code/GameUtils/CustomerManager.swift:96-99 | closing the gap left by one customer keeps the tables distinct |
| Kitchen.WithoutKeepsSceneFoods | Code/GameUtils/LosingHandler.swift:41-47 | taking a food out of the scene keeps the others distinct and consistent |
| Kitchen.MoveToEndKeepsSceneFoods | Code/GameUtils/FoodOnTileManager.swift:65-70 | re-adding a food at the end of the scene keeps every food there once |
| Kitchen.Kitchen.constructor | Code/GameUtils/GameScene+TutorialSceneControl.swift:12-14 | an empty scene with the Sushi category, no tutorial step, score 0 and no generator |
| Kitchen.Kitchen.RemoveFromScene | Code/GameUtils/FoodOnTileManager.swift:53 | the food leaves the scene and nothing else changes |
| Kitchen.Kitchen.RemoveAllFoodItemsFromScene | Code/GameUtils/LosingHandler.swift:41-47 | the scene holds no food afterwards, and nothing else changes |
| Kitchen.Kitchen.PlaceFoodOnTile | Code/GameUtils/FoodOnTileManager.swift:59-71 | the food is on the tile, not cooking, and in the scene exactly once, after every other food |
| Kitchen.Kitchen.ReturnFoodToTouchesBegan | Code/GameUtils/FoodOnTileManager.swift:51-57 | the food goes back to the drag's origin, or leaves the scene when there is none |
| Kitchen.Kitchen.GetFoodOnTile | Code/GameUtils/FoodOnTileManager.swift:37-48 | the scan returns `Occupant`: the first food on the tile in scene order that is not being dragged |
| Kitchen.Kitchen.HighlightCookStep | Code/GameUtils/GameScene+TutorialSceneControl.swift:39-48 | while the current step is `cook(x)`, every food on screen gets override `x`; nothing else changes |
| Kitchen.Kitchen.NotifyTutorial | Code/DataTypes/Tutorial.swift:85-98 | the cursor advances as `Advance` says; the highlight hook runs when it moved on, and the end of the tutorial clears the food and arms the generator |
| Kitchen.Kitchen.EndTutorialPhase | Code/GameUtils/GameScene+TutorialSceneControl.swift:22-37 | the generator is armed with the current interval and the food is cleared |
| Kitchen.Kitchen.StartTutorialPhase | Code/GameUtils/GameScene+TutorialSceneControl.swift:16-20 | every customer is stopped and dismissed, the generator is stopped, and the food is cleared |
| Kitchen.Kitchen.InitiateTutorial | Code/DataTypes/Tutorial.swift:49-58 | the scene is cleared, then the cursor is `Initiated` on the scene's category |
| Kitchen.Kitchen.StopAllCustomerTimers | Code/GameUtils/CustomerManager.swift:21-35 | the generator and every customer's countdown stop, and both customer lists are emptied |
| Kitchen.Kitchen.StartNewCustomerTimer | Code/GameUtils/CustomerManager.swift:37-41 | the generator is armed with the interval for the current count |
| Kitchen.Kitchen.LoseGame | Code/GameUtils/LosingHandler.swift:49-63 | nothing is dragged, customers and generator are stopped and gone, the food is cleared, and the losing screen is up |
| Kitchen.Kitchen.RemoveCustomer | Code/GameUtils/CustomerManager.swift:96-99 | the customer leaves the seated list and the other tables stay distinct |
| Kitchen.Kitchen.ReserveTable | Code/GameUtils/CustomerManager.swift:72-85 | the customer gets `FirstFree` of the table positions and the held tables; nothing when every table is held |
| Kitchen.Kitchen.AddCustomer | Code/GameUtils/CustomerManager.swift:43-61 | a new customer orders one of the category's dishes and waits the current limit; they are seated at the first free table, counted, and the generator re-armed, or the game is lost when every table is held |
| Kitchen.Kitchen.AdmitCustomer | Code/GameUtils/CustomerManager.swift:49-60 | the seating or losing branch of `addCustomer`, chosen by `reserveTable` |
| Kitchen.Kitchen.SeatCustomer | Code/GameUtils/CustomerManager.swift:50-56 | the customer joins the seated ones, the count goes up by one, and the generator is re-armed for the new count |
| Kitchen.Kitchen.CustomerTick | Code/Nodes/Customer.swift:55-65 | one countdown firing; when patience runs out the game is lost, and otherwise nothing else changes |
| Kitchen.Kitchen.EventTableTile | Code/GameUtils/EventHandler/ItemPlacementManager.swift:102-114 | the `FirstServed` customer, if any, is served; otherwise nothing changes |
| Kitchen.Kitchen.ServeCustomer | Code/GameUtils/EventHandler/ItemPlacementManager.swift:106-110 | the customer's countdown stops and they leave, the dish leaves the scene, the score goes up by one, and the other customers are untouched |
| Kitchen.Kitchen.DismissCustomer | Code/GameUtils/EventHandler/ItemPlacementManager.swift:106-107 | the customer's countdown stops and the gap they leave in the seated list closes |
| Kitchen.Kitchen.UpdateFood | Code/Nodes/Food.swift:54-73 | the food becomes `Updated`, and when it is on screen the highlight hook re-applies the current cook override to every food |
| Kitchen.Kitchen.SinkFood | Code/GameUtils/EventHandler/ItemPlacementManager.swift:120-122 | the food becomes `Sunk`; the highlight hook runs only when the sink filled it with water |
| Kitchen.Kitchen.FoodTick | Code/Nodes/Food.swift:43-49 | one second of cooking; on expiry a food on screen reports `cook` first, and it ends in `ExpiredInScene` with the tutorial advanced by the report |
| Kitchen.Kitchen.AttemptFoodCombine | Code/GameUtils/EventHandler/ItemPlacementManager.swift:62-93 | the two foods end up as `CombineStates` says, the tutorial hears the combine, and the incoming food goes back, stays or leaves as the branch says |
| Kitchen.Kitchen.CombineKeepingIncoming | Code/GameUtils/EventHandler/ItemPlacementManager.swift:77-82 | `attemptFoodCombine` when the incoming food keeps portions |
| Kitchen.Kitchen.CombineKeepingExisting | Code/GameUtils/EventHandler/ItemPlacementManager.swift:83-88 | `attemptFoodCombine` when only the occupant keeps portions |
| Kitchen.Kitchen.CombineMerging | Code/GameUtils/EventHandler/ItemPlacementManager.swift:89-92 | `attemptFoodCombine` when neither keeps portions |
| Kitchen.Kitchen.KeepIncoming | Code/GameUtils/EventHandler/ItemPlacementManager.swift:77-82 | the occupant becomes the result in place, and the incoming food goes back to the origin if there is one |
| Kitchen.Kitchen.KeepExisting | Code/GameUtils/EventHandler/ItemPlacementManager.swift:83-88 | the incoming food becomes the result and goes back to the origin if there is one; the occupant keeps its item |
| Kitchen.Kitchen.Merge | Code/GameUtils/EventHandler/ItemPlacementManager.swift:89-92 | the occupant becomes the result and the incoming food leaves the scene |
| Kitchen.Kitchen.PortionAndReport | Code/GameUtils/EventHandler/ItemPlacementManager.swift:71-75 | one portion is taken from each food, then the tutorial hears the combine |
| Kitchen.Kitchen.SetFoodItemDown | Code/GameUtils/EventHandler/ItemPlacementManager.swift:37-60 | by `DropCase`: a rejected or unmatched drop goes back; a free tile takes the food and the tutorial hears the action; a matching occupant combines. The foods to fire events for are returned |
| Kitchen.Kitchen.SendBack | Code/GameUtils/EventHandler/ItemPlacementManager.swift:38-51 | the dropped food goes back and no other food or tutorial state changes |
| Kitchen.Kitchen.PlaceAndReport | Code/GameUtils/EventHandler/ItemPlacementManager.swift:55-58 | the food is placed on the tile, then the tutorial hears `action(item, kind)` |
| Kitchen.Kitchen.FireTileEvent | Code/GameUtils/EventHandler/ItemPlacementManager.swift:16-34 | by the tile under the food: a machine starts cooking it, a counter does nothing, a sink runs `sinkEvent`, a table may serve a customer, a trash can removes it, and any other tile sends it back |
| LegacyFoodItems.RawValueInjective | Code/Nodes/FoodItems.swift:48-71 | raw values identify the older items, and `allCases` lists them all |
| LegacyFoodItems.SourcesAreCookingAssets | Code/Nodes/FoodItems.swift:38-45 | every food source has a raw value in 1000..4999 |
| LegacyFoodItems.CandidatesMembers | Code/Nodes/FoodItems.swift:146-150 | the candidates are exactly the items whose raw value lies in the range |
| LegacyFoodItems.OrderableNonEmpty | Code/Nodes/FoodItems.swift:22-31 | every option set yields a non-empty list: `.steak` gives the three cooked steaks, and `.sushi` the sashimi and the nigiri |
| LegacyFoodItems.RandomOrderableItem | Code/Nodes/FoodItems.swift:143-153 | the loop collects exactly the in-range items, and the item drawn is one of them, with a raw value in the option set's range |
| LegacyFoodItems.CombineExactlyTheRules | Code/Nodes/FoodItems.swift:227-245 | combining is order-insensitive, and a pair combines to `r` iff it is one of the three older rules |
| LegacyFoodItems.ActionDomain | Code/Nodes/FoodItems.swift:211-224 | the older `action` covers the two water fills, the cut of a whole fish and the portioning of sliced fish, and nothing else |
| LegacyFoodItems.PortionDomain | Code/Nodes/FoodItems.swift:246-255 | sliced fish has 5 portions and cooked rice 10; nothing else is portioned |
| LegacyFoodItems.CookChain | Code/Nodes/FoodItems.swift:194-209 | the older stove chain ends within four steps at an item that does not cook |
| LegacyFoodItems.SteakChain | Code/Nodes/FoodItems.swift:196-203 | the older steak chain is Rare, Medium, Burnt, BurntBlock, and no item comes back to itself |
| LegacyKitchen.Combine | Code/GameUtils/ItemPlacementManager.swift:37-65 | the older combine applies the portion policy of `CombineStates` without any tutorial report, and the incoming food goes back, stays or leaves; when the instance that became the result is on screen, `updateFoodItem`'s highlight hook writes the current cook step into every food on screen, and no other food changes; the debug trap cannot fire |
| LegacyKitchen.CombineKeepingIncoming | Code/GameUtils/ItemPlacementManager.swift:49-54 | after one portion is taken from each, the occupant becomes the result through `updateFoodItem` and its hook, and the incoming food goes back to the origin if there is one |
| LegacyKitchen.CombineKeepingExisting | Code/GameUtils/ItemPlacementManager.swift:55-60 | after one portion is taken from each, the incoming food becomes the result through `updateFoodItem` and its hook, and goes back to the origin if there is one |
| LegacyKitchen.CombineMerging | Code/GameUtils/ItemPlacementManager.swift:61-64 | after one portion is taken from each, the occupant becomes the result through `updateFoodItem` and its hook, and the incoming food leaves the scene |
| LegacyKitchen.SetFoodItemDown | Code/GameUtils/ItemPlacementManager.swift:15-35 | the result is true exactly when the food was placed or combined; a sent-back drop leaves the occupant alone, and outside a combine no other food changes; a combine has the effect `CombinedWithoutTutorial` states, highlight hook included |
| LegacyKitchen.DropOnFood | Code/GameUtils/ItemPlacementManager.swift:21-30 | on an occupied tile the result is true exactly when a recipe combines the two, which then combine as `CombinedWithoutTutorial` states; otherwise the food goes back and no other food changes |
| LegacyKitchen.PlaceFoodOnMachineTile | Code/GameUtils/ItemPlacementManager.swift:67-69 | the food starts cooking |
| LegacyKitchen.PlaceFoodOnTrashTile | Code/GameUtils/ItemPlacementManager.swift:88-90 | the food leaves the scene |
| LegacyKitchen.EventItemPlacedOnSink | Code/GameUtils/ItemPlacementManager.swift:92-94 | the food's `sinkEvent` runs; on a water fill of a food on screen, `updateFoodItem`'s highlight hook writes the current cook step into every food on screen |
| LegacyKitchen.EventItemPlacedOnTable | Code/GameUtils/ItemPlacementManager.swift:74-86 | the `FirstServed` customer is served and the dragged food, not the dish, leaves the scene; when the dish is the dragged food this is the current revision's serve |
| LegacyKitchen.ServeAsWritten | Code/GameUtils/ItemPlacementManager.swift:78-81 | the customer's countdown stops and they leave, the dragged food leaves the scene, and the score goes up by one |
| LegacyKitchen.DismissCustomer | Code/GameUtils/ItemPlacementManager.swift:78-79 | `orderSatisfied`, then `removeCustomer`, removes exactly the served customer |

## Left out

- Rendering is not modelled: textures, labels, glow effects, tile highlights, the
  "Tutorial Complete!" message and the losing screen's nodes. `updatePortionLabel`,
  `createPortionLabel` and `createTimerGuage` change only what is drawn.
- Sprite coordinates are not modelled. `convertTilePointToGameSceneCoords` and
  the point that `reserveTable` returns (with its `x - 1` placeholder column) are
  not computed; a food's tile is its `position`.
- `nodes(at:)` becomes the scene's children in the order they were added; SpriteKit's
  own ordering of nodes at a point is not modelled.
- Kitchen.Kitchen.AddCustomer: the random order is chosen with `:|`, so the model
  promises only that it is an orderable item of the scene's category. The
  category is `foodCategory` (Sushi), which is also what the source passes.
- Timers, `GameTime`, `PausableTimer` and pausing are not modelled. A countdown
  advances one whole second per explicit tick, and the generator timer is the
  interval it was armed with. Firing the generator is a call to `AddCustomer`.
- Kitchen.Kitchen.LoseGame: the cutting and portion timers that `loseGame`
  invalidates are not part of this model.
- `removeFromParent` on a food does not stop its cooking countdown, in the source as
  in the model; a removed food is no longer in `children`, and a `cook` report
  made from one is not sent to the tutorial.
- A food carries at most one countdown. The source can schedule a second timer on a
  food already cooking; `startCooking` here replaces the armed one.
- `stopCountdown`, which `stopAllCustomerTimers` calls, is not defined in
  Customer.swift. It is modelled as invalidating the countdown, like `served`.
- `queuedCustomersOutside` is never filled by the modelled code. It is only
  emptied, and its customers are stopped.
- `highlightCustomers(ordering:)` is left out. It adds a customer with time limit -1
  through an `addCustomer(_:)` overload that CustomerManager.swift does not define.
  Its other effects are only glow and tile highlights.
- `highlightTile`, `clearHighlights` and the glow parts of `highlightFood` change
  only what is drawn. The part of `highlightFood` that writes `cookOverride` is
  `HighlightCookStep`.
- Kitchen.Kitchen.AttemptFoodCombine: when the `combine` report ends the tutorial,
  the scene is cleared, and `placeFoodOnTile` in the first two branches then adds
  the incoming food back. The model does this too.
- `eventPlaceableTile` and `placeFoodOnNonMachineTile` do nothing, and so does the
  counter case of `FireTileEvent`.
- `incrementScore(by:)` is not defined in the Swift files this model covers. It is
  modelled as adding to `score`.
- The legacy modules run over the current `Food` class and the current recipe tables.
  The older Food.swift is not part of this model. The older handlers call
  `updateFoodItem` through the scene, with its highlight hook, exactly as the current
  ones do. The older `Action` and
  `StoveOperation` enums are identical to the current ones and are reused.
- `touchesBegan`, `touchesMoved` and `touchesEnded` are not modelled. They decide the
  drag, `draggedFood` and `touchesBeganLocation`, which the model takes as given.
  No modelled file reports a grab-source step to the tutorial; `NotifyTutorial`
  accepts one from any caller.
- `assetName` and `description` are display strings and are not modelled.

## Findings

| source | as written | input that shows it | evidently intended | confidence | as-written member | corrected member |
|---|---|---|---|---|---|---|
| Code/DataTypes/Tutorial.swift:26-27 | `==` on `TutorialAction` sends every pair not listed to `default: return false`, including a `grabSourceToTile` or `grabSourceToFoodItem` step compared with itself | the Sushi tutorial's first step, `grabSourceToTile(WholeFish, counter)`, performed exactly as asked | the two grab-source steps equal themselves argument by argument, so the Sushi tutorial can advance | not executed; the enum in this file does not declare the two steps, so the file may predate them | Tutorial.SushiTutorialStuckAsWritten | Tutorial.CategoryTutorialCompletes |
