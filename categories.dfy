/** Food order categories and their lists (Code/DataTypes/FoodItems.swift):
    the sources a player can pull from, the dishes customers order, and the
    tutorial sequences shown for a category or a single dish. */
module Categories {
  import opened FoodItems
  import opened Tiles
  import opened TutorialActions

  /** `enum FoodOrderCategory: Int, CaseIterable`. */
  datatype FoodOrderCategory = Steak | Sushi | All

  /** The raw values 0, 1 and 10. */
  function CategoryRawValue(c: FoodOrderCategory): int {
    match c
    case Steak => 0
    case Sushi => 1
    case All => 10
  }

  /** `FoodOrderCategory.allCases`, in declaration order. */
  const AllCategories: seq<FoodOrderCategory> := [Steak, Sushi, All]

  /** `allCases.flatMap { $0 == .All ? [] : f($0) }`: the lists of every category
      except `All`, concatenated in declaration order. */
  function JoinCategories<T>(cs: seq<FoodOrderCategory>, f: FoodOrderCategory --> seq<T>): seq<T>
    requires forall c :: c != All ==> f.requires(c)
  {
    if cs == [] then []
    else (if cs[0] == All then [] else f(cs[0])) + JoinCategories(cs[1..], f)
  }

  function BaseSources(c: FoodOrderCategory): seq<FoodItem>
    requires c != All
  {
    match c
    case Steak => [SteakRaw]
    case Sushi => [WholeFish, Rice, Pot, Knife]
  }

  /** `foodSources`. */
  function FoodSources(c: FoodOrderCategory): seq<FoodItem> {
    if c == All then JoinCategories(AllCategories, BaseSources) else BaseSources(c)
  }

  function BaseOrderables(c: FoodOrderCategory): seq<FoodItem>
    requires c != All
  {
    match c
    case Steak => [SteakRare, SteakMedium, SteakBurnt]
    case Sushi => [SlicedFish, Nigiri]
  }

  /** `orderableItems`. */
  function OrderableItems(c: FoodOrderCategory): seq<FoodItem> {
    if c == All then JoinCategories(AllCategories, BaseOrderables) else BaseOrderables(c)
  }

  function BaseTutorial(c: FoodOrderCategory): seq<TutorialAction>
    requires c != All
  {
    match c
    case Steak => [
      ActionOn(SteakRaw, Machine),
      Cook(SteakRaw),
      Serve(SteakRare),
      ActionOn(SteakRaw, Machine),
      Cook(SteakRaw),
      Cook(SteakRare),
      Serve(SteakMedium),
      ActionOn(SteakRaw, Machine),
      Cook(SteakRaw),
      Cook(SteakRare),
      Cook(SteakMedium),
      Serve(SteakBurnt)
    ]
    case Sushi => [
      GrabSourceToTile(WholeFish, Counter),
      GrabSourceToFoodItem(Knife, WholeFish),
      Serve(SlicedFish),
      GrabSourceToTile(WholeFish, Counter),
      GrabSourceToFoodItem(Knife, WholeFish),
      GrabSourceToTile(Pot, Sink),
      GrabSourceToFoodItem(Rice, PotWater),
      ActionOn(PotRawRiceWater, Machine),
      Cook(PotRawRiceWater),
      Combine(PotCookedRice, SlicedFish),
      Serve(Nigiri)
    ]
  }

  /** `FoodOrderCategory.tutorialSequence`. */
  function TutorialSequence(c: FoodOrderCategory): seq<TutorialAction> {
    if c == All then JoinCategories(AllCategories, BaseTutorial) else BaseTutorial(c)
  }

  /** `FoodItem.tutorialSequence`: the steps that teach one dish. */
  function ItemTutorialSequence(item: FoodItem): seq<TutorialAction> {
    match item
    case SteakRare => [GrabSourceToTile(SteakRaw, Machine), Cook(SteakRaw), Serve(SteakRare)]
    case SteakMedium => [GrabSourceToTile(SteakRaw, Machine), Cook(SteakRaw), Cook(SteakRare), Serve(SteakMedium)]
    case SteakBurnt => [GrabSourceToTile(SteakRaw, Machine), Cook(SteakRaw), Cook(SteakRare), Cook(SteakMedium), Serve(SteakBurnt)]
    case SlicedFish => [GrabSourceToTile(WholeFish, Counter), GrabSourceToFoodItem(Knife, WholeFish), Serve(SlicedFish)]
    case Nigiri => [
      GrabSourceToTile(WholeFish, Counter),
      GrabSourceToFoodItem(Knife, WholeFish),
      GrabSourceToTile(Pot, Sink),
      GrabSourceToFoodItem(Rice, PotWater),
      ActionOn(PotRawRiceWater, Machine),
      Cook(PotRawRiceWater),
      Combine(PotCookedRice, SlicedFish),
      Serve(Nigiri)
    ]
    case _ => []
  }

  /** Chooses among the category's orderable items (`randomElement()!`); the
      generator's choice is left open. The list is never empty, so the force-unwrap
      cannot fail. */
  method RandomOrderableItem(c: FoodOrderCategory) returns (item: FoodItem)
    ensures item in OrderableItems(c)
    ensures IsOrderableId(item.RawValue())
  {
    OrderablesNonEmptyAndBelowThousand(c);
    item :| item in OrderableItems(c);
  }

  // ---------------------------------------------------------------------------
  // Properties of the lists
  // ---------------------------------------------------------------------------

  /** `All` is the Steak list followed by the Sushi list, for all three lists. */
  lemma AllIsSteakThenSushi()
    ensures FoodSources(All) == FoodSources(Steak) + FoodSources(Sushi)
    ensures OrderableItems(All) == OrderableItems(Steak) + OrderableItems(Sushi)
    ensures TutorialSequence(All) == TutorialSequence(Steak) + TutorialSequence(Sushi)
  {
    assert AllCategories[1..][1..][1..] == [];
  }

  /** Every category has something to order, and every orderable item has a raw
      value below 1000. */
  lemma OrderablesNonEmptyAndBelowThousand(c: FoodOrderCategory)
    ensures |OrderableItems(c)| > 0
    ensures forall x :: x in OrderableItems(c) ==> IsOrderableId(x.RawValue())
  {
    AllIsSteakThenSushi();
  }

  /** The raw-value bands of the enum's doc comments: sources and intermediate
      stages are cooking assets, burnt leftovers and the knife are misc items. */
  lemma RawValueBands(x: FoodItem)
    ensures IsCookingAssetId(x.RawValue()) <==>
              x in [SteakRaw, Pot, PotWater, PotRawRice, PotRawRiceWater, PotCookedRice, Riceball, WholeFish, Rice]
    ensures x in [BurntBlock, Knife] <==> IsMiscId(x.RawValue())
    ensures x in OrderableItems(All) <==> IsOrderableId(x.RawValue())
  {
    AllIsSteakThenSushi();
    assert OrderableItems(All) == [SteakRare, SteakMedium, SteakBurnt, SlicedFish, Nigiri];
  }

  /** Every category starts its tutorial somewhere: `initiateTutorial` never meets an
      empty list. */
  lemma TutorialSequencesNonEmpty(c: FoodOrderCategory)
    ensures |TutorialSequence(c)| > 0
  {
    AllIsSteakThenSushi();
  }

  /** A dish's tutorial ends by serving that dish, and only orderable dishes have one. */
  lemma ItemTutorialEndsWithServe(x: FoodItem)
    ensures ItemTutorialSequence(x) != [] <==> x in OrderableItems(All)
    ensures ItemTutorialSequence(x) != [] ==> ItemTutorialSequence(x)[|ItemTutorialSequence(x)| - 1] == Serve(x)
  {
    AllIsSteakThenSushi();
  }
}
