/** The food catalogue and the recipe rule table of the current revision
    (Code/DataTypes/FoodItems.swift): item identifiers with their raw values,
    the stove chain, the single-input actions, the unordered combine table and
    the bulk portion counts. Everything here is a pure, finite table. */
module FoodItems {
  import opened Wrappers

  /** `enum FoodItem: Int`, cases in declaration order. */
  datatype FoodItem =
    | SteakRare | SteakMedium | SteakBurnt
    | SlicedFish | Nigiri
    | SteakRaw
    | Pot | PotWater | PotRawRice | PotRawRiceWater | PotCookedRice
    | Riceball | WholeFish | Rice
    | BurntBlock | Knife
  {
    /** The integer raw value of each case. */
    function RawValue(): int {
      match this
      case SteakRare => 0
      case SteakMedium => 1
      case SteakBurnt => 2
      case SlicedFish => 3
      case Nigiri => 5
      case SteakRaw => 2000
      case Pot => 1000
      case PotWater => 1001
      case PotRawRice => 1002
      case PotRawRiceWater => 1003
      case PotCookedRice => 1004
      case Riceball => 1006
      case WholeFish => 1007
      case Rice => 1005
      case BurntBlock => 5000
      case Knife => 5001
    }
  }

  /** The three bands the doc comments of the enum name. */
  predicate IsOrderableId(raw: int) { raw < 1000 }
  predicate IsCookingAssetId(raw: int) { 1000 <= raw < 5000 }
  predicate IsMiscId(raw: int) { raw >= 5000 }

  /** Raw values identify items: `FoodItem(rawValue:)` is well defined. */
  lemma RawValueInjective(a: FoodItem, b: FoodItem)
    requires a.RawValue() == b.RawValue()
    ensures a == b
  {
  }

  /** `enum Action: Int` (single-input transforms). */
  datatype Action = Knead | Mix | Cut | Puree | Portion | WaterFill

  /** `enum StoveOperation: Int`; `Rank` is its raw value. */
  datatype StoveOperation = CookShort | CookMedium | CookLong | SlowCook {
    function Rank(): nat {
      match this
      case CookShort => 0
      case CookMedium => 1
      case CookLong => 2
      case SlowCook => 3
    }
  }

  /** `StoveOperation.timeNeeded`, in whole seconds. */
  function TimeNeeded(op: StoveOperation): int {
    match op
    case CookShort => 3
    case CookMedium => 5
    case CookLong => 7
    case SlowCook => 10
  }

  /** Every stove operation takes time, and a longer operation takes strictly longer. */
  lemma TimeNeededPositiveAndIncreasing(a: StoveOperation, b: StoveOperation)
    ensures TimeNeeded(a) > 0
    ensures a.Rank() < b.Rank() ==> TimeNeeded(a) < TimeNeeded(b)
  {
  }

  /** The `(operation, result)` tuple that `Recipe.stoveOperation` returns. */
  datatype StoveStep = StoveStep(operation: StoveOperation, result: FoodItem)

  /** The `(action, result)` tuple that `Recipe.action` returns. */
  datatype ActionStep = ActionStep(action: Action, result: FoodItem)

  /** `Recipe.stoveOperation(for:)`. */
  function StoveOperationFor(item: FoodItem): Option<StoveStep> {
    match item
    case SteakRaw => Some(StoveStep(CookShort, SteakRare))
    case SteakRare => Some(StoveStep(CookShort, SteakMedium))
    case SteakMedium => Some(StoveStep(CookShort, SteakBurnt))
    case SteakBurnt => Some(StoveStep(CookMedium, BurntBlock))
    case PotRawRiceWater => Some(StoveStep(CookMedium, PotCookedRice))
    case _ => None
  }

  /** `Recipe.action(for:)`. */
  function ActionFor(item: FoodItem): Option<ActionStep> {
    match item
    case Pot => Some(ActionStep(WaterFill, PotWater))
    case PotRawRice => Some(ActionStep(WaterFill, PotRawRiceWater))
    case _ => None
  }

  /** `Recipe.combineIngredientsInternal`: the ordered rule table. */
  function CombineOrdered(first: FoodItem, second: FoodItem): Option<FoodItem> {
    match (first, second)
    case (PotWater, Rice) => Some(PotRawRiceWater)
    case (Pot, Rice) => Some(PotRawRice)
    case (SlicedFish, PotCookedRice) => Some(Nigiri)
    case (Knife, WholeFish) => Some(SlicedFish)
    case _ => None
  }

  /** `Recipe.combineIngredients`: the ordered lookup is tried as given, then swapped. */
  function CombineIngredients(a: FoodItem, b: FoodItem): Option<FoodItem> {
    CombineOrdered(a, b).OrElse(CombineOrdered(b, a))
  }

  /** `Recipe.portionNum(for:)`. */
  function PortionNum(item: FoodItem): Option<int> {
    match item
    case PotCookedRice => Some(5)
    case _ => None
  }

  // ---------------------------------------------------------------------------
  // Properties of the tables
  // ---------------------------------------------------------------------------

  /** The combine rules as an independent list of unordered pairs with their results. */
  const CombineRules: set<(FoodItem, FoodItem, FoodItem)> := {
    (PotWater, Rice, PotRawRiceWater),
    (Pot, Rice, PotRawRice),
    (SlicedFish, PotCookedRice, Nigiri),
    (Knife, WholeFish, SlicedFish)
  }

  /** Combining is order-insensitive for every pair of items. */
  lemma CombineSymmetric(a: FoodItem, b: FoodItem)
    ensures CombineIngredients(a, b) == CombineIngredients(b, a)
  {
  }

  /** The combine table holds exactly the four rules, read in either order; every
      other pair combines to nothing. */
  lemma CombineExactlyTheRules(a: FoodItem, b: FoodItem, r: FoodItem)
    ensures |CombineRules| == 4
    ensures CombineIngredients(a, b) == Some(r) <==> (a, b, r) in CombineRules || (b, a, r) in CombineRules
  {
    assert (PotWater, Rice, PotRawRiceWater) != (Pot, Rice, PotRawRice);
  }

  /** No item combines with itself, so a combination always involves two instances
      holding different items. */
  lemma CombineIrreflexive(a: FoodItem)
    ensures CombineIngredients(a, a) == None
  {
  }

  /** `action` is defined only for Pot and PotRawRice; both are water fills. */
  lemma ActionDomain(item: FoodItem)
    ensures ActionFor(item).Some? <==> item == Pot || item == PotRawRice
    ensures item == Pot ==> ActionFor(item) == Some(ActionStep(WaterFill, PotWater))
    ensures item == PotRawRice ==> ActionFor(item) == Some(ActionStep(WaterFill, PotRawRiceWater))
  {
  }

  /** Only a pot of cooked rice is portioned, into five (a positive number of) portions. */
  lemma PortionDomain(item: FoodItem)
    ensures PortionNum(item).Some? <==> item == PotCookedRice
    ensures PortionNum(item).Some? ==> PortionNum(item).value == 5 > 0
  {
  }

  /** How many stove steps are left before an item stops cooking; every stove step
      strictly lowers it, which is what makes the chain finite. */
  function Doneness(item: FoodItem): nat {
    match item
    case SteakRaw => 4
    case SteakRare => 3
    case SteakMedium => 2
    case SteakBurnt => 1
    case PotRawRiceWater => 1
    case _ => 0
  }

  /** The items a food passes through when it is left on the stove: each stove
      result in turn, until an item with no stove operation. */
  function CookChain(item: FoodItem): (chain: seq<FoodItem>)
    ensures |chain| == Doneness(item) <= 4
    ensures forall i :: 0 <= i < |chain| ==> Doneness(chain[i]) < Doneness(item)
    ensures chain == [] <==> StoveOperationFor(item).None?
    ensures chain != [] ==> StoveOperationFor(chain[|chain| - 1]).None?
    decreases Doneness(item)
  {
    match StoveOperationFor(item)
    case None => []
    case Some(step) => [step.result] + CookChain(step.result)
  }

  /** Cooking never cycles: an item is never reached again from itself. */
  lemma CookChainAcyclic(item: FoodItem)
    ensures item !in CookChain(item)
  {
  }

  /** The steak chain: Raw, Rare, Medium, Burnt, and it stops at BurntBlock. */
  lemma SteakChain()
    ensures CookChain(SteakRaw) == [SteakRare, SteakMedium, SteakBurnt, BurntBlock]
    ensures StoveOperationFor(BurntBlock).None?
  {
  }
}
