/** The rules the placement engine of Code/GameUtils/EventHandler/ItemPlacementManager.swift
    applies, as functions of the instances' states: how a drop is classified, the
    three-branch portion policy of `attemptFoodCombine`, the dispatch of
    `fireTileEvent`, and which customer a dish on a table serves. The `Kitchen` class
    carries them out on the scene. */
module Placement {
  import opened Wrappers
  import opened FoodItems
  import opened Tiles
  import opened Foods

  // ---------------------------------------------------------------------------
  // setFoodItemDown
  // ---------------------------------------------------------------------------

  /** The four outcomes of `setFoodItemDown`. */
  datatype Drop =
    | Rejected            // the tile does not take food: back to the origin
    | NoRecipe            // an occupant with no combine rule: back to the origin
    | Combines(result: FoodItem)
    | Place               // an empty tile that takes food

  /** Which outcome a drop of `incoming` on a tile of kind `kind` has, given the item
      of the food already there, if any. The existing item is the first operand. */
  function DropCase(kind: TileType, occupant: Option<FoodItem>, incoming: FoodItem): Drop {
    if !Placeable(kind) then Rejected
    else match occupant
      case None => Place
      case Some(existing) =>
        match CombineIngredients(existing, incoming)
        case None => NoRecipe
        case Some(r) => Combines(r)
  }

  /** A drop combines exactly when the tile takes food, is occupied, and the two items
      have a rule in either order; it places exactly on an empty tile that takes food;
      and nothing is ever combined with itself. */
  lemma DropCaseSpec(kind: TileType, occupant: Option<FoodItem>, incoming: FoodItem)
    ensures DropCase(kind, occupant, incoming).Combines? <==>
      Placeable(kind) && occupant.Some? && CombineIngredients(incoming, occupant.value).Some?
    ensures DropCase(kind, occupant, incoming) == Place <==> Placeable(kind) && occupant.None?
    ensures DropCase(kind, Some(incoming), incoming) != Place && !DropCase(kind, Some(incoming), incoming).Combines?
  {
    if occupant.Some? {
      CombineSymmetric(incoming, occupant.value);
    }
    CombineIrreflexive(incoming);
  }

  // ---------------------------------------------------------------------------
  // attemptFoodCombine
  // ---------------------------------------------------------------------------

  /** The three branches of `attemptFoodCombine`, chosen on the portion counts left
      after one portion is taken from each instance. */
  datatype Branch =
    | IncomingKeepsPortions   // the occupant becomes the result; the incoming goes back
    | ExistingKeepsPortions   // the incoming becomes the result and goes back
    | Merged                  // the occupant becomes the result; the incoming is removed

  function CombineBranch(incomingPortion: Option<int>, existingPortion: Option<int>): Branch {
    if incomingPortion.Some? && incomingPortion.value > 0 then IncomingKeepsPortions
    else if existingPortion.Some? && existingPortion.value > 0 then ExistingKeepsPortions
    else Merged
  }

  /** The two instances' states after `attemptFoodCombine`, and the branch taken. */
  datatype Combined = Combined(incoming: FoodState, existing: FoodState, branch: Branch)

  function CombineStates(incoming: FoodState, existing: FoodState, result: FoodItem): Combined {
    var i := Portioned(incoming);
    var e := Portioned(existing);
    match CombineBranch(i.portion, e.portion)
    case IncomingKeepsPortions => Combined(i, Updated(e, result, false), IncomingKeepsPortions)
    case ExistingKeepsPortions => Combined(Updated(i, result, false), e, ExistingKeepsPortions)
    case Merged => Combined(i, Updated(e, result, false), Merged)
  }

  /** The debug trap of `attemptFoodCombine` (both instances portionable) cannot be
      reached from consistent instances: only PotCookedRice carries portions, and
      nothing combines with itself. */
  lemma DebugTrapUnreachable(a: FoodState, b: FoodState)
    requires Consistent(a) && Consistent(b)
    requires CombineIngredients(a.item, b.item).Some?
    ensures !(a.portion.Some? && b.portion.Some?)
  {
    PortionDomain(a.item);
    PortionDomain(b.item);
    CombineIrreflexive(a.item);
  }

  /** The portion policy: exactly one of the two instances becomes the result, and the
      other keeps its item with one portion fewer. The incoming keeps its portions
      exactly when it had more than one; otherwise the occupant keeps its portions
      exactly when it had more than one; otherwise the two merge into the occupant.
      Cooking is stopped on whichever instance becomes the result. */
  lemma CombineSpec(incoming: FoodState, existing: FoodState, result: FoodItem)
    requires Consistent(incoming) && Consistent(existing)
    requires !(incoming.portion.Some? && existing.portion.Some?)
    ensures var c := CombineStates(incoming, existing, result);
      && (c.branch == IncomingKeepsPortions <==> incoming.portion.Some? && incoming.portion.value > 1)
      && (c.branch == ExistingKeepsPortions <==> existing.portion.Some? && existing.portion.value > 1)
      && (c.branch == ExistingKeepsPortions ==>
            c.incoming.item == result && c.incoming.cooking.None? && c.existing == Portioned(existing))
      && (c.branch != ExistingKeepsPortions ==>
            c.existing.item == result && c.existing.cooking.None? && c.incoming == Portioned(incoming))
      && Consistent(c.incoming) && Consistent(c.existing)
  {
    TransitionsKeepConsistent(incoming, result, false);
    TransitionsKeepConsistent(existing, result, false);
    TransitionsKeepConsistent(Portioned(incoming), result, false);
    TransitionsKeepConsistent(Portioned(existing), result, false);
  }

  /** A fresh SlicedFish, as taken from the food source. */
  const Fish := FoodState(SlicedFish, None, None, None)

  /** `k` fresh fish dropped in turn on a food, for as long as the two combine: the
      final state of that food and what each drop did. */
  function FishDrops(pot: FoodState, k: nat): (FoodState, seq<Combined>)
    decreases k
  {
    if k == 0 || CombineIngredients(pot.item, SlicedFish).None? then (pot, [])
    else
      var c := CombineStates(Fish, pot, CombineIngredients(pot.item, SlicedFish).value);
      var rest := FishDrops(c.existing, k - 1);
      (rest.0, [c] + rest.1)
  }

  /** A PotCookedRice with `n >= 1` portions serves exactly `n` Nigiri: the first
      `n - 1` fish each turn into Nigiri and go back while the pot loses a portion,
      and the last turns the pot itself into Nigiri, after which no fish combines. */
  lemma {:induction false} RicePotServes(pot: FoodState, n: nat, k: nat)
    requires pot.item == PotCookedRice && pot.portion == Some(n) && n >= 1 && k >= n
    ensures var r := FishDrops(pot, k);
      && |r.1| == n
      && (forall i :: 0 <= i < n - 1 ==>
            r.1[i].branch == ExistingKeepsPortions && r.1[i].incoming.item == Nigiri
            && r.1[i].existing.item == PotCookedRice && r.1[i].existing.portion == Some(n - 1 - i))
      && r.1[n - 1].branch == Merged && r.1[n - 1].existing.item == Nigiri
      && r.0.item == Nigiri
    decreases n
  {
    var c := CombineStates(Fish, pot, Nigiri);
    assert CombineIngredients(PotCookedRice, SlicedFish) == Some(Nigiri);
    var rest := FishDrops(c.existing, k - 1);
    assert FishDrops(pot, k) == (rest.0, [c] + rest.1);
    if n == 1 {
      assert c.branch == Merged && c.existing.item == Nigiri;
      assert CombineIngredients(Nigiri, SlicedFish).None?;
      assert rest == (c.existing, []);
    } else {
      assert c.branch == ExistingKeepsPortions && c.existing == pot.(portion := Some(n - 1));
      RicePotServes(c.existing, n - 1, k - 1);
      forall i | 0 <= i < n - 1
        ensures ([c] + rest.1)[i].branch == ExistingKeepsPortions && ([c] + rest.1)[i].incoming.item == Nigiri
          && ([c] + rest.1)[i].existing.item == PotCookedRice && ([c] + rest.1)[i].existing.portion == Some(n - 1 - i)
      {
        if i > 0 {
          assert ([c] + rest.1)[i] == rest.1[i - 1];
        }
      }
    }
  }

  /** The worked case: a freshly cooked rice pot holds five portions, so five fish
      dropped on it give four Nigiri that go back to their origins while the pot goes
      5, 4, 3, 2, 1, and the fifth turns the pot into Nigiri. */
  lemma FiveFishOnFreshRicePot()
    ensures var pot := Updated(FoodState(PotRawRiceWater, None, None, None), PotCookedRice, false);
      var r := FishDrops(pot, 5);
      && pot.portion == Some(5)
      && |r.1| == 5
      && (forall i :: 0 <= i < 4 ==> r.1[i].branch == ExistingKeepsPortions && r.1[i].incoming.item == Nigiri)
      && [r.1[0].existing.portion, r.1[1].existing.portion, r.1[2].existing.portion, r.1[3].existing.portion]
           == [Some(4), Some(3), Some(2), Some(1)]
      && r.1[4].branch == Merged && r.0.item == Nigiri
  {
    var pot := Updated(FoodState(PotRawRiceWater, None, None, None), PotCookedRice, false);
    RicePotServes(pot, 5, 5);
  }

  // ---------------------------------------------------------------------------
  // fireTileEvent
  // ---------------------------------------------------------------------------

  /** What `fireTileEvent` does to a food on a tile of each kind. */
  datatype TileEvent = OnMachine | OnCounter | OnSink | OnTable | OnTrashcan | BackToOrigin

  function EventFor(kind: TileType): TileEvent {
    match kind
    case Machine => OnMachine
    case Counter => OnCounter
    case Sink => OnSink
    case Table => OnTable
    case Trashcan => OnTrashcan
    case _ => BackToOrigin
  }

  /** Every kind that takes food has its own handler, and exactly the kinds that do not
      take food send the food back to its origin. */
  lemma EventForSpec(kind: TileType)
    ensures EventFor(kind) == BackToOrigin <==> !Placeable(kind)
    ensures forall k: TileType :: Placeable(k) && Placeable(kind) && EventFor(k) == EventFor(kind) ==> k == kind
  {
  }

  // ---------------------------------------------------------------------------
  // eventTableTile
  // ---------------------------------------------------------------------------

  /** A seated customer as `eventTableTile` sees them: their table and order. */
  datatype Seat = Seat(table: Option<TilePoint>, order: FoodItem)

  predicate Serves(s: Seat, tile: TilePoint, item: FoodItem) {
    s.table == Some(tile) && s.order == item
  }

  /** The customer a dish of `item` on `tile` serves: the first, in seating order,
      sitting at that table and waiting for that item; none when there is none. */
  function FirstServed(seats: seq<Seat>, tile: TilePoint, item: FoodItem): (r: Option<nat>)
    ensures r.Some? ==> r.value < |seats| && Serves(seats[r.value], tile, item)
    ensures r.Some? ==> forall j :: 0 <= j < r.value ==> !Serves(seats[j], tile, item)
    ensures r.None? <==> forall j :: 0 <= j < |seats| ==> !Serves(seats[j], tile, item)
    decreases |seats|
  {
    if seats == [] then None
    else if Serves(seats[0], tile, item) then Some(0)
    else match FirstServed(seats[1..], tile, item)
      case None => None
      case Some(i) => Some(i + 1)
  }

  /** A scan from the front that stops at the first serving seat finds `FirstServed`. */
  lemma FirstServedAt(seats: seq<Seat>, tile: TilePoint, item: FoodItem, i: nat)
    requires i < |seats| && Serves(seats[i], tile, item)
    requires forall j :: 0 <= j < i ==> !Serves(seats[j], tile, item)
    ensures FirstServed(seats, tile, item) == Some(i)
  {
  }

  /** When seated customers hold distinct tables, at most one of them can be served
      by a dish on a given tile. */
  lemma AtMostOneServable(seats: seq<Seat>, tile: TilePoint, item: FoodItem, i: nat, j: nat)
    requires forall a, b :: 0 <= a < b < |seats| ==> seats[a].table != seats[b].table
    requires i < |seats| && j < |seats|
    requires Serves(seats[i], tile, item) && Serves(seats[j], tile, item)
    ensures i == j
  {
  }
}
