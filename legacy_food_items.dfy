/** The older revision of the food catalogue (Code/Nodes/FoodItems.swift): its own
    item identifiers and raw values, its recipe tables (one more cutting chain, a
    different combine table and different portion counts), the two food order
    categories with their sources, and the deprecated random order selection by
    raw-value range. The stove operations and actions are those of the current
    revision. */
module LegacyFoodItems {
  import opened Wrappers
  import Recipes = FoodItems

  /** `enum FoodItem: Int, CaseIterable` of the older revision, cases in declaration order. */
  datatype FoodItem =
    | SteakRaw | SteakRare | SteakMedium | SteakBurnt
    | Pot | PotWater | PotRawRice | PotRawRiceWater | PotCookedRice
    | Rice
    | WholeFish | SlicedFish | Sashimi | Nigiri
    | BurntBlock
  {
    /** The integer raw value of each case. */
    function RawValue(): int {
      match this
      case SteakRaw => 2000
      case SteakRare => 0
      case SteakMedium => 1
      case SteakBurnt => 2
      case Pot => 1000
      case PotWater => 1001
      case PotRawRice => 1002
      case PotRawRiceWater => 1003
      case PotCookedRice => 1004
      case Rice => 1005
      case WholeFish => 1006
      case SlicedFish => 1007
      case Sashimi => 1008
      case Nigiri => 1009
      case BurntBlock => 5000
    }
  }

  /** `FoodItem.allCases`. */
  const AllCases: seq<FoodItem> := [
    SteakRaw, SteakRare, SteakMedium, SteakBurnt,
    Pot, PotWater, PotRawRice, PotRawRiceWater, PotCookedRice,
    Rice, WholeFish, SlicedFish, Sashimi, Nigiri, BurntBlock]

  /** Raw values identify items, and `allCases` lists every item once. */
  lemma RawValueInjective(a: FoodItem, b: FoodItem)
    requires a.RawValue() == b.RawValue()
    ensures a == b
    ensures a in AllCases
  {
  }

  /** `enum FoodOrderCategory: Int` of the older revision: no `All` case. */
  datatype FoodOrderCategory = Steak | Sushi

  /** `foodSources`. */
  function FoodSources(c: FoodOrderCategory): seq<FoodItem> {
    match c
    case Steak => [SteakRaw]
    case Sushi => [WholeFish, Rice, Pot]
  }

  /** No food source is something a customer can order: every source has a raw value
      in the cooking-asset band 1000..4999. */
  lemma SourcesAreCookingAssets(c: FoodOrderCategory)
    ensures forall x :: x in FoodSources(c) ==> 1000 <= x.RawValue() < 5000
  {
  }

  // ---------------------------------------------------------------------------
  // The deprecated random order selection
  // ---------------------------------------------------------------------------

  /** `OrderableFoodRandomSelectionOptions`, an option set over its raw value. */
  datatype SelectionOptions = SelectionOptions(rawValue: int)

  /** `.steak` (bit 0) and `.sushi` (bit 1). */
  const SteakOption := SelectionOptions(1)
  const SushiOption := SelectionOptions(2)

  /** Swift's `ClosedRange<Int>`, `lower...upper`. */
  datatype ClosedRange = ClosedRange(lower: int, upper: int) {
    predicate Contains(x: int) {
      lower <= x <= upper
    }
  }

  /** `idRange()`: the switch compares the whole option set, so only exactly `.steak`
      and exactly `.sushi` get their own ranges; every other set gets `0...999`. */
  function IdRange(options: SelectionOptions): ClosedRange {
    if options == SteakOption then ClosedRange(0, 2)
    else if options == SushiOption then ClosedRange(1008, 1009)
    else ClosedRange(0, 999)
  }

  /** The items of `items` whose raw value lies in `range`, in their order: what the
      `for ... where` loop of `randomOrderableItem` appends. */
  function Candidates(items: seq<FoodItem>, range: ClosedRange): seq<FoodItem>
    decreases |items|
  {
    if items == [] then []
    else
      var last := items[|items| - 1];
      Candidates(items[..|items| - 1], range) + (if range.Contains(last.RawValue()) then [last] else [])
  }

  /** The candidates are exactly the listed items in range. */
  lemma {:induction false} CandidatesMembers(items: seq<FoodItem>, range: ClosedRange)
    ensures forall x :: x in Candidates(items, range) <==> x in items && range.Contains(x.RawValue())
    decreases |items|
  {
    if items != [] {
      var init := items[..|items| - 1];
      CandidatesMembers(init, range);
      assert items == init + [items[|items| - 1]];
    }
  }

  /** The items `randomOrderableItem(options:)` picks from. */
  function Orderable(options: SelectionOptions): seq<FoodItem> {
    Candidates(AllCases, IdRange(options))
  }

  /** Every option set yields a non-empty list, so the force-unwrapped `randomElement()`
      never fails; `.steak` selects the three cooked steaks and `.sushi` the sashimi
      and the nigiri. */
  lemma OrderableNonEmpty(options: SelectionOptions)
    ensures |Orderable(options)| > 0
    ensures forall x :: x in Orderable(SteakOption) <==> x == SteakRare || x == SteakMedium || x == SteakBurnt
    ensures forall x :: x in Orderable(SushiOption) <==> x == Sashimi || x == Nigiri
  {
    CandidatesMembers(AllCases, IdRange(options));
    CandidatesMembers(AllCases, IdRange(SteakOption));
    CandidatesMembers(AllCases, IdRange(SushiOption));
    if options == SushiOption {
      assert Sashimi in Orderable(options);
    } else {
      assert SteakRare in Orderable(options);
    }
  }

  /** `randomOrderableItem(options:)`. The random draw is the parameter `choice`: the
      item at `choice` modulo the number of candidates. The result's raw value lies
      in the option set's range. */
  method RandomOrderableItem(options: SelectionOptions, choice: nat) returns (item: FoodItem)
    ensures |Orderable(options)| > 0 && item == Orderable(options)[choice % |Orderable(options)|]
    ensures IdRange(options).Contains(item.RawValue())
  {
    var range := IdRange(options);
    var orderableItems: seq<FoodItem> := [];
    for k := 0 to |AllCases|
      invariant orderableItems == Candidates(AllCases[..k], range)
    {
      assert AllCases[..k + 1][..k] == AllCases[..k];
      if range.Contains(AllCases[k].RawValue()) {
        orderableItems := orderableItems + [AllCases[k]];
      }
    }
    assert AllCases[..|AllCases|] == AllCases;
    OrderableNonEmpty(options);
    item := orderableItems[choice % |orderableItems|];
    CandidatesMembers(AllCases, range);
  }

  // ---------------------------------------------------------------------------
  // The recipe tables of the older revision
  // ---------------------------------------------------------------------------

  /** The `(operation, result)` tuple of `Recipe.stoveOperation`. */
  datatype StoveStep = StoveStep(operation: Recipes.StoveOperation, result: FoodItem)

  /** The `(action, result)` tuple of `Recipe.action`. */
  datatype ActionStep = ActionStep(action: Recipes.Action, result: FoodItem)

  /** `Recipe.stoveOperation(for:)`. */
  function StoveOperationFor(item: FoodItem): Option<StoveStep> {
    match item
    case SteakRaw => Some(StoveStep(Recipes.CookShort, SteakRare))
    case SteakRare => Some(StoveStep(Recipes.CookShort, SteakMedium))
    case SteakMedium => Some(StoveStep(Recipes.CookShort, SteakBurnt))
    case SteakBurnt => Some(StoveStep(Recipes.CookMedium, BurntBlock))
    case PotRawRiceWater => Some(StoveStep(Recipes.CookMedium, PotCookedRice))
    case _ => None
  }

  /** `Recipe.action(for:)`. */
  function ActionFor(item: FoodItem): Option<ActionStep> {
    match item
    case Pot => Some(ActionStep(Recipes.WaterFill, PotWater))
    case PotRawRice => Some(ActionStep(Recipes.WaterFill, PotRawRiceWater))
    case WholeFish => Some(ActionStep(Recipes.Cut, SlicedFish))
    case SlicedFish => Some(ActionStep(Recipes.Portion, Sashimi))
    case _ => None
  }

  /** `Recipe.combineIngredientsInternal`: the ordered rule table. */
  function CombineOrdered(first: FoodItem, second: FoodItem): Option<FoodItem> {
    match (first, second)
    case (PotWater, Rice) => Some(PotRawRiceWater)
    case (Pot, Rice) => Some(PotRawRice)
    case (Sashimi, PotCookedRice) => Some(Nigiri)
    case _ => None
  }

  /** `Recipe.combineIngredients`: the ordered lookup as given, else swapped. */
  function CombineIngredients(a: FoodItem, b: FoodItem): Option<FoodItem> {
    CombineOrdered(a, b).OrElse(CombineOrdered(b, a))
  }

  /** `Recipe.portionNum(for:)`. */
  function PortionNum(item: FoodItem): Option<int> {
    match item
    case SlicedFish => Some(5)
    case PotCookedRice => Some(10)
    case _ => None
  }

  /** The combine rules of the older revision, as unordered pairs with their results. */
  const CombineRules: set<(FoodItem, FoodItem, FoodItem)> := {
    (PotWater, Rice, PotRawRiceWater),
    (Pot, Rice, PotRawRice),
    (Sashimi, PotCookedRice, Nigiri)
  }

  /** The two-order lookup makes combining order-insensitive, and the table holds
      exactly the three rules, read in either order. */
  lemma CombineExactlyTheRules(a: FoodItem, b: FoodItem, r: FoodItem)
    ensures CombineIngredients(a, b) == CombineIngredients(b, a)
    ensures |CombineRules| == 3
    ensures CombineIngredients(a, b) == Some(r) <==> (a, b, r) in CombineRules || (b, a, r) in CombineRules
  {
    assert (PotWater, Rice, PotRawRiceWater) != (Pot, Rice, PotRawRice);
  }

  /** `action` is defined for the two pots (water fills) and the two fish stages (a cut,
      then portioning into sashimi), and for nothing else. */
  lemma ActionDomain(item: FoodItem)
    ensures ActionFor(item).Some? <==> item in {Pot, PotRawRice, WholeFish, SlicedFish}
    ensures ActionFor(item).Some? && ActionFor(item).value.action == Recipes.WaterFill <==>
      item == Pot || item == PotRawRice
    ensures ActionFor(WholeFish) == Some(ActionStep(Recipes.Cut, SlicedFish))
    ensures ActionFor(SlicedFish) == Some(ActionStep(Recipes.Portion, Sashimi))
  {
  }

  /** Sliced fish comes in five portions and a pot of cooked rice in ten; nothing else
      is portioned. */
  lemma PortionDomain(item: FoodItem)
    ensures PortionNum(item).Some? <==> item == SlicedFish || item == PotCookedRice
    ensures PortionNum(item).Some? ==> PortionNum(item).value > 0
    ensures PortionNum(SlicedFish) == Some(5) && PortionNum(PotCookedRice) == Some(10)
  {
  }

  /** How many stove steps are left before an item stops cooking. */
  function Doneness(item: FoodItem): nat {
    match item
    case SteakRaw => 4
    case SteakRare => 3
    case SteakMedium => 2
    case SteakBurnt => 1
    case PotRawRiceWater => 1
    case _ => 0
  }

  /** The items a food passes through on the stove, until one with no stove step; every
      step strictly lowers `Doneness`, so the chain has at most four items and ends at
      an item that does not cook. */
  function CookChain(item: FoodItem): (chain: seq<FoodItem>)
    ensures |chain| == Doneness(item) <= 4
    ensures forall i :: 0 <= i < |chain| ==> Doneness(chain[i]) < Doneness(item)
    ensures chain == [] <==> StoveOperationFor(item).None?
    ensures chain != [] ==> StoveOperationFor(chain[|chain| - 1]).None?
    decreases Doneness(item)
  {
    match StoveOperationFor(item)
    case None => []
    case Some(step) => [step.result] + CookChain(step.result)
  }

  /** The steak chain of the older revision is that of the current one: Raw, Rare,
      Medium, Burnt, stopping at BurntBlock; and no item comes back to itself. */
  lemma SteakChain(item: FoodItem)
    ensures CookChain(SteakRaw) == [SteakRare, SteakMedium, SteakBurnt, BurntBlock]
    ensures item !in CookChain(item)
  {
  }
}
