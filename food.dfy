/** A food instance on the kitchen floor (Code/Nodes/Food.swift): its item, its
    optional portion count, its cooking countdown and the item at which chained
    cooking should stop. The countdown is a whole number of seconds, advanced by
    explicit ticks in place of a Foundation timer. */
module Foods {
  import opened Wrappers
  import opened FoodItems
  import opened Tiles

  /** An armed cooking countdown (`cookingTimer`): seconds left and the stove result
      the callback will install. */
  datatype CookTimer = CookTimer(remaining: int, result: FoodItem)

  /** A snapshot of a food instance's game state. */
  datatype FoodState = FoodState(
    item: FoodItem,
    portion: Option<int>,
    cooking: Option<CookTimer>,
    cookOverride: Option<FoodItem>)

  /** What one second of cooking did: the new state and, when the countdown ran out,
      the item that finished cooking. */
  datatype Ticked = Ticked(state: FoodState, finished: Option<FoodItem>)

  /** What every reachable instance satisfies: only a portioned item carries a portion
      count, and an armed countdown belongs to the item's own stove step and has
      between 1 second and that step's full time left. */
  predicate Consistent(s: FoodState) {
    && (s.portion.Some? ==> PortionNum(s.item).Some?)
    && (s.cooking.Some? ==>
          && StoveOperationFor(s.item).Some?
          && s.cooking.value.result == StoveOperationFor(s.item).value.result
          && 0 < s.cooking.value.remaining <= TimeNeeded(StoveOperationFor(s.item).value.operation))
  }

  /** `stopCooking`: the countdown is cancelled. */
  function Stopped(s: FoodState): FoodState {
    s.(cooking := None)
  }

  /** `startCooking`: arm one countdown of the stove step's time, or nothing when the
      item has no stove step. */
  function Started(s: FoodState): FoodState {
    match StoveOperationFor(s.item)
    case None => s
    case Some(step) => s.(cooking := Some(CookTimer(TimeNeeded(step.operation), step.result)))
  }

  /** `updateFoodItem(foodItem:shouldCook:)`: install the item, stop cooking, restart it
      when asked, and take the portion count from the table. */
  function Updated(s: FoodState, x: FoodItem, shouldCook: bool): FoodState {
    var stopped := Stopped(s.(item := x));
    var cooked := if shouldCook then Started(stopped) else stopped;
    cooked.(portion := PortionNum(x))
  }

  /** The countdown's callback: the item becomes the stove result, and cooking goes on
      unless the item that just finished is the override. */
  function Expired(s: FoodState): FoodState
    requires s.cooking.Some?
  {
    Updated(s, s.cooking.value.result, Some(s.item) != s.cookOverride)
  }

  /** One second of the countdown. */
  function OneSecond(s: FoodState): Ticked {
    match s.cooking
    case None => Ticked(s, None)
    case Some(timer) =>
      if timer.remaining > 1 then Ticked(s.(cooking := Some(timer.(remaining := timer.remaining - 1))), None)
      else Ticked(Expired(s), Some(s.item))
  }

  /** `sinkEvent`: a water-fill action is applied; any other item is left alone. */
  function Sunk(s: FoodState): FoodState {
    match ActionFor(s.item)
    case Some(step) => if step.action == WaterFill then Updated(s, step.result, false) else s
    case None => s
  }

  /** `portionSingle`: one portion is taken; an item without portions is left alone. */
  function Portioned(s: FoodState): FoodState {
    match s.portion
    case None => s
    case Some(n) => s.(portion := Some(n - 1))
  }

  // ---------------------------------------------------------------------------
  // Properties of single transitions
  // ---------------------------------------------------------------------------

  /** Every transition keeps an instance consistent. */
  lemma TransitionsKeepConsistent(s: FoodState, x: FoodItem, shouldCook: bool)
    requires Consistent(s)
    ensures Consistent(Stopped(s)) && Consistent(Started(s)) && Consistent(Updated(s, x, shouldCook))
    ensures Consistent(OneSecond(s).state) && Consistent(Sunk(s)) && Consistent(Portioned(s))
    ensures s.cooking.Some? ==> Consistent(Expired(s))
  {
  }

  /** `updateFoodItem` installs the item and its table portion count (nil when it has
      none), always cancels a running countdown, and arms a new one exactly when
      asked to and the new item has a stove step. */
  lemma UpdateSpec(s: FoodState, x: FoodItem, shouldCook: bool)
    ensures var r := Updated(s, x, shouldCook);
      && r.item == x && r.portion == PortionNum(x) && r.cookOverride == s.cookOverride
      && (r.cooking.Some? <==> shouldCook && StoveOperationFor(x).Some?)
      && (r.cooking.Some? ==> r.cooking.value.remaining == TimeNeeded(StoveOperationFor(x).value.operation))
  {
  }

  /** `startCooking` changes nothing for an item without a stove step; otherwise it arms
      a single countdown of a positive number of seconds and touches nothing else. */
  lemma StartSpec(s: FoodState)
    ensures StoveOperationFor(s.item).None? ==> Started(s) == s
    ensures StoveOperationFor(s.item).Some? ==>
      && Started(s).cooking.Some? && Started(s).cooking.value.remaining > 0
      && Started(s).cooking.value.result == StoveOperationFor(s.item).value.result
      && Stopped(Started(s)) == Stopped(s)
    ensures StoveOperationFor(s.item).Some? ==>
      Started(s).cooking == Some(CookTimer(TimeNeeded(StoveOperationFor(s.item).value.operation), StoveOperationFor(s.item).value.result))
  {
  }

  /** When the countdown runs out the item becomes the stove result, and cooking
      continues exactly when the item that finished is not the override and the
      result can itself be cooked. */
  lemma ExpirySpec(s: FoodState)
    requires Consistent(s) && s.cooking.Some?
    ensures Expired(s).item == StoveOperationFor(s.item).value.result
    ensures Expired(s).cooking.Some? <==>
      Some(s.item) != s.cookOverride && StoveOperationFor(Expired(s).item).Some?
  {
  }

  /** `sinkEvent` changes the instance only when the item's action is a water fill. */
  lemma SinkSpec(s: FoodState)
    ensures Sunk(s) != s ==> ActionFor(s.item).Some? && ActionFor(s.item).value.action == WaterFill
    ensures ActionFor(s.item).Some? && ActionFor(s.item).value.action == WaterFill ==>
      Sunk(s).item == ActionFor(s.item).value.result && Sunk(s).cooking.None?
  {
  }

  /** `portionSingle` leaves an item without a portion count alone, and otherwise
      takes one portion and changes nothing else. */
  lemma PortionSpec(s: FoodState)
    ensures s.portion.None? ==> Portioned(s) == s
    ensures s.portion.Some? ==> Portioned(s).portion == Some(s.portion.value - 1)
    ensures Portioned(s).(portion := s.portion) == s
  {
  }

  /** `portionSingle` takes exactly one portion each time, with no clamp at zero. */
  lemma {:induction false} PortionCountdown(s: FoodState, n: nat, k: nat)
    requires s.portion == Some(n)
    ensures Repeat(Portioned, s, k) == s.(portion := Some(n - k))
    decreases k
  {
    if k > 0 {
      PortionCountdown(s, n, k - 1);
    }
  }

  /** `f` applied `k` times. */
  function Repeat(f: FoodState -> FoodState, s: FoodState, k: nat): FoodState
    decreases k
  {
    if k == 0 then s else f(Repeat(f, s, k - 1))
  }

  // ---------------------------------------------------------------------------
  // Cooking over time
  // ---------------------------------------------------------------------------

  /** `seconds` ticks in a row: the final state and, in order, the items that finished
      cooking (each reported to the tutorial as a `cook` step). */
  function Run(s: FoodState, seconds: nat): (FoodState, seq<FoodItem>)
    decreases seconds
  {
    if seconds == 0 then (s, [])
    else
      var t := OneSecond(s);
      var rest := Run(t.state, seconds - 1);
      (rest.0, (if t.finished.Some? then [t.finished.value] else []) + rest.1)
  }

  /** The seconds a stove takes to carry an item to the end of its chain. */
  function TotalCookTime(item: FoodItem): nat
    decreases Doneness(item)
  {
    match StoveOperationFor(item)
    case None => 0
    case Some(step) => TimeNeeded(step.operation) + TotalCookTime(step.result)
  }

  /** The item at the end of the stove chain. */
  function ChainEnd(item: FoodItem): FoodItem {
    var chain := CookChain(item);
    if chain == [] then item else chain[|chain| - 1]
  }

  lemma {:induction false} RunSplit(s: FoodState, a: nat, b: nat)
    ensures Run(s, a + b) == (Run(Run(s, a).0, b).0, Run(s, a).1 + Run(Run(s, a).0, b).1)
    decreases a
  {
    if a > 0 {
      var t := OneSecond(s);
      var head := if t.finished.Some? then [t.finished.value] else [];
      RunSplit(t.state, a - 1, b);
      assert a + b - 1 == (a - 1) + b;
      assert Run(s, a) == (Run(t.state, a - 1).0, head + Run(t.state, a - 1).1);
      assert Run(s, a + b) == (Run(t.state, (a - 1) + b).0, head + Run(t.state, (a - 1) + b).1);
      var mid := Run(t.state, a - 1);
      assert head + (mid.1 + Run(mid.0, b).1) == (head + mid.1) + Run(mid.0, b).1;
    } else {
      assert [] + Run(s, b).1 == Run(s, b).1;
    }
  }

  /** An armed countdown of `k` seconds reports nothing for `k - 1` seconds and expires
      on second `k`. */
  lemma {:induction false} RunCountdown(s: FoodState, k: int, r: FoodItem)
    requires s.cooking == Some(CookTimer(k, r)) && k >= 1
    ensures Run(s, k) == (Expired(s), [s.item])
    decreases k
  {
    if k > 1 {
      var t := s.(cooking := Some(CookTimer(k - 1, r)));
      assert OneSecond(s) == Ticked(t, None);
      RunCountdown(t, k - 1, r);
      assert Expired(t) == Expired(s);
      assert Run(s, k) == (Run(t, k - 1).0, [] + Run(t, k - 1).1);
      assert [] + Run(t, k - 1).1 == Run(t, k - 1).1;
    } else {
      assert OneSecond(s) == Ticked(Expired(s), Some(s.item));
      assert Run(Expired(s), 0) == (Expired(s), []);
      assert k == 1;
      assert Run(s, 1) == (Run(Expired(s), 0).0, [s.item] + Run(Expired(s), 0).1);
      assert [s.item] + [] == [s.item];
    }
  }

  /** The seconds until a food on the stove reaches the end of its chain: the armed
      countdown plus the rest of the chain. */
  function StoveTime(s: FoodState): nat
    requires s.cooking.Some? && s.cooking.value.remaining >= 1
  {
    s.cooking.value.remaining + TotalCookTime(s.cooking.value.result)
  }

  /** After its countdown expires, a food goes on from the callback's state: `total`
      seconds are the countdown and then `n` more. */
  lemma RunThroughExpiry(s: FoodState, n: nat, total: nat)
    requires s.cooking.Some? && s.cooking.value.remaining >= 1
    requires total == s.cooking.value.remaining + n
    ensures Run(s, total) == (Run(Expired(s), n).0, [s.item] + Run(Expired(s), n).1)
  {
    RunCountdown(s, s.cooking.value.remaining, s.cooking.value.result);
    RunSplit(s, s.cooking.value.remaining, n);
  }

  /** The chain's first link: cooking `item` gives `r`, then `r`'s own chain. */
  lemma ChainLink(item: FoodItem, r: FoodItem)
    requires StoveOperationFor(item).Some? && StoveOperationFor(item).value.result == r
    ensures CookChain(item) == [r] + CookChain(r)
    ensures ChainEnd(item) == ChainEnd(r)
    ensures StoveOperationFor(r).None? ==> ChainEnd(item) == r && CookChain(item)[..|CookChain(item)| - 1] == []
    ensures StoveOperationFor(r).Some? ==>
      CookChain(item)[..|CookChain(item)| - 1] == [r] + CookChain(r)[..|CookChain(r)| - 1]
  {
    var c := CookChain(r);
    assert CookChain(item) == [r] + c;
    if c != [] {
      assert ([r] + c)[..|[r] + c| - 1] == [r] + c[..|c| - 1];
    }
  }

  /** With no override, the callback installs the result and arms the result's own
      stove step, if it has one. */
  lemma ExpiredWithoutOverride(s: FoodState)
    requires Consistent(s) && s.cookOverride.None? && s.cooking.Some?
    ensures var e := Expired(s); var r := s.cooking.value.result;
      && Consistent(e) && e.cookOverride.None? && e.item == r
      && Doneness(r) < Doneness(s.item)
      && (StoveOperationFor(r).None? ==> e.cooking.None?)
      && (StoveOperationFor(r).Some? ==>
            e.cooking == Some(CookTimer(TimeNeeded(StoveOperationFor(r).value.operation), StoveOperationFor(r).value.result)))
  {
  }

  /** Left on the stove with no override, a food runs its whole chain and stops: after
      the countdown already armed plus the rest of the chain's time, the item is the
      end of the chain, nothing is cooking, and the items that finished are the
      instance's item followed by every chain item but the last. */
  lemma {:induction false} RunToChainEnd(s: FoodState)
    requires Consistent(s) && s.cookOverride.None? && s.cooking.Some?
    ensures Run(s, StoveTime(s)).0.item == ChainEnd(s.item)
    ensures Run(s, StoveTime(s)).0.cooking.None?
    ensures Run(s, StoveTime(s)).1 == [s.item] + CookChain(s.item)[..|CookChain(s.item)| - 1]
    decreases Doneness(s.item), 1
  {
    var r := s.cooking.value.result;
    RunThroughExpiry(s, TotalCookTime(r), StoveTime(s));
    ExpiredWithoutOverride(s);
    ChainLink(s.item, r);
    var tail := Run(Expired(s), TotalCookTime(r));
    if StoveOperationFor(r).None? {
      assert tail == (Expired(s), []);
    } else {
      RunAfterExpiry(s);
    }
    assert tail.0.item == ChainEnd(s.item) && tail.0.cooking.None?;
    assert tail.1 == CookChain(s.item)[..|CookChain(s.item)| - 1];
  }

  /** The inductive step of `RunToChainEnd`: the chain after the first expiry. */
  lemma {:induction false} RunAfterExpiry(s: FoodState)
    requires Consistent(s) && s.cookOverride.None? && s.cooking.Some?
    requires StoveOperationFor(s.cooking.value.result).Some?
    ensures var tail := Run(Expired(s), TotalCookTime(s.cooking.value.result));
      && tail.0.item == ChainEnd(s.cooking.value.result) && tail.0.cooking.None?
      && tail.1 == [s.cooking.value.result] + CookChain(s.cooking.value.result)[..|CookChain(s.cooking.value.result)| - 1]
    decreases Doneness(s.item), 0
  {
    var e := Expired(s);
    ExpiredWithoutOverride(s);
    assert StoveTime(e) == TotalCookTime(s.cooking.value.result);
    RunToChainEnd(e);
  }

  /** A raw steak put on the stove with no override is burnt to a block after
      3 + 3 + 3 + 5 = 14 seconds, reporting each of its four stages as it finishes. */
  lemma SteakBurnsToBlock(s: FoodState)
    requires s == Started(FoodState(SteakRaw, None, None, None))
    ensures StoveTime(s) == 14
    ensures Run(s, StoveTime(s)).0.item == BurntBlock && Run(s, StoveTime(s)).0.cooking.None?
    ensures Run(s, StoveTime(s)).1 == [SteakRaw, SteakRare, SteakMedium, SteakBurnt]
  {
    SteakChain();
    var chain := CookChain(SteakRaw);
    assert chain[..|chain| - 1] == [SteakRare, SteakMedium, SteakBurnt];
    RunToChainEnd(s);
  }

  /** With the override set to the item on the stove, its countdown runs out into the
      next item and cooking stops there. */
  lemma OverrideStopsChain(s: FoodState)
    requires Consistent(s) && s.cooking.Some? && s.cookOverride == Some(s.item)
    ensures Run(s, s.cooking.value.remaining).0.cooking.None?
    ensures Run(s, s.cooking.value.remaining).0.item == StoveOperationFor(s.item).value.result
  {
    RunCountdown(s, s.cooking.value.remaining, s.cooking.value.result);
  }

  /** A food instance (`class Food`). `position` is the tile under the sprite. */
  class Food {
    var item: FoodItem
    var portion: Option<int>
    var cooking: Option<CookTimer>
    var cookOverride: Option<FoodItem>
    var position: TilePoint

    function State(): FoodState
      reads this
    {
      FoodState(item, portion, cooking, cookOverride)
    }

    ghost predicate Valid()
      reads this
    {
      Consistent(State())
    }

    /** `init(name:size:)`: no portion count, not cooking, no override. */
    constructor (name: FoodItem, at: TilePoint)
      ensures Valid() && State() == FoodState(name, None, None, None) && position == at
    {
      item := name;
      portion := None;
      cooking := None;
      cookOverride := None;
      position := at;
    }

    method StartCooking()
      requires Valid()
      modifies this`cooking
      ensures Valid() && State() == Started(old(State())) && position == old(position)
    {
      var step := StoveOperationFor(item);
      if step.Some? {
        cooking := Some(CookTimer(TimeNeeded(step.value.operation), step.value.result));
      }
    }

    method StopCooking()
      modifies this`cooking
      ensures State() == Stopped(old(State())) && position == old(position)
      ensures old(Valid()) ==> Valid()
    {
      cooking := None;
    }

    method UpdateFoodItem(x: FoodItem, shouldCook: bool)
      requires Valid()
      modifies this`item, this`portion, this`cooking
      ensures Valid() && State() == Updated(old(State()), x, shouldCook) && position == old(position)
    {
      // The portion count does not affect cooking, so it is installed first, which
      // keeps the instance consistent between the steps.
      item := x;
      portion := PortionNum(x);
      StopCooking();
      if shouldCook {
        StartCooking();
      }
    }

    /** The countdown's callback; `finished` is the item reported as cooked. */
    method Expire() returns (finished: FoodItem)
      requires Valid() && cooking.Some?
      modifies this`item, this`portion, this`cooking
      ensures Valid() && State() == Expired(old(State())) && position == old(position)
      ensures finished == old(item)
    {
      finished := item;
      UpdateFoodItem(cooking.value.result, Some(item) != cookOverride);
    }

    /** One second passes on the cooking countdown. */
    method Tick() returns (finished: Option<FoodItem>)
      requires Valid()
      modifies this`item, this`portion, this`cooking
      ensures Valid() && Ticked(State(), finished) == OneSecond(old(State())) && position == old(position)
    {
      finished := None;
      if cooking.Some? {
        if cooking.value.remaining > 1 {
          cooking := Some(cooking.value.(remaining := cooking.value.remaining - 1));
        } else {
          var done := Expire();
          finished := Some(done);
        }
      }
    }

    method SinkEvent()
      requires Valid()
      modifies this`item, this`portion, this`cooking
      ensures Valid() && State() == Sunk(old(State())) && position == old(position)
    {
      var step := ActionFor(item);
      if step.Some? && step.value.action == WaterFill {
        UpdateFoodItem(step.value.result, false);
      }
    }

    method PortionSingle()
      requires Valid()
      modifies this`portion
      ensures Valid() && State() == Portioned(old(State())) && position == old(position)
    {
      if portion.None? {
        return;
      }
      portion := Some(portion.value - 1);
    }

    /** What the tutorial's highlight hook does while the current step is a `cook`
        step: name the item at which chained cooking must stop. */
    method SetCookOverride(target: Option<FoodItem>)
      requires Valid()
      modifies this`cookOverride
      ensures Valid() && State() == old(State()).(cookOverride := target) && position == old(position)
    {
      cookOverride := target;
    }
  }
}
