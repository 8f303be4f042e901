/** The difficulty formulas and the table choice of Code/GameUtils/CustomerManager.swift,
    as functions of the number of customers seated since the start. */
module CustomerRules {
  import opened Wrappers
  import opened Tiles

  const BaseCustomerSpawnRate := 10
  const NumCustomersBeforeDifficultySpike := 2
  const MinimumSpawnRate := 2
  const BaseCustomerTimeLimit := 20
  const NumCustomersBeforeTimeLimitSpike := 2
  const MinimumTimeLimit := 7

  function Max(a: int, b: int): int {
    if a >= b then a else b
  }

  /** `timeLimitForCustomer`: the seconds a new customer waits, twenty at the start,
      one less every two customers, never below seven. The counter never goes
      negative, so Swift's truncating division agrees with Dafny's here. */
  function TimeLimitForCustomer(customersSinceStart: nat): (seconds: int)
    ensures MinimumTimeLimit <= seconds <= BaseCustomerTimeLimit
  {
    Max(BaseCustomerTimeLimit - customersSinceStart / NumCustomersBeforeTimeLimitSpike, MinimumTimeLimit)
  }

  /** `timeIntervalBasedOnDifficulty`: the seconds until the next customer, ten at the
      start, one less every two customers, never below two. */
  function TimeIntervalBasedOnDifficulty(customersSinceStart: nat): (seconds: int)
    ensures MinimumSpawnRate <= seconds <= BaseCustomerSpawnRate
  {
    Max(BaseCustomerSpawnRate - customersSinceStart / NumCustomersBeforeDifficultySpike, MinimumSpawnRate)
  }

  /** The game only gets harder: both times are non-increasing in the counter. */
  lemma DifficultyNonIncreasing(m: nat, n: nat)
    requires m <= n
    ensures TimeLimitForCustomer(n) <= TimeLimitForCustomer(m)
    ensures TimeIntervalBasedOnDifficulty(n) <= TimeIntervalBasedOnDifficulty(m)
  {
  }

  /** Where the floors are reached: the time limit is at its minimum of seven exactly
      from the 26th customer on, the spawn interval at its minimum of two exactly from
      the 16th on; before that each drops by one every two customers. */
  lemma DifficultyFloors(n: nat)
    ensures TimeLimitForCustomer(n) == MinimumTimeLimit <==> n >= 26
    ensures TimeIntervalBasedOnDifficulty(n) == MinimumSpawnRate <==> n >= 16
    ensures n + 2 <= 26 ==> TimeLimitForCustomer(n + 2) == TimeLimitForCustomer(n) - 1
    ensures n + 2 <= 16 ==> TimeIntervalBasedOnDifficulty(n + 2) == TimeIntervalBasedOnDifficulty(n) - 1
  {
  }

  /** The table `reserveTable` picks: the first position, in enumeration order, that
      no seated customer holds. */
  function FirstFree(positions: seq<TilePoint>, held: seq<Option<TilePoint>>): (r: Option<TilePoint>)
    ensures r.Some? ==> r.value in positions && Some(r.value) !in held
    decreases |positions|
  {
    if positions == [] then None
    else if Some(positions[0]) in held then FirstFree(positions[1..], held)
    else Some(positions[0])
  }

  /** `FirstFree` returns a free position with every earlier one held, and returns
      nothing exactly when every position is held. */
  lemma {:induction false} FirstFreeSpec(positions: seq<TilePoint>, held: seq<Option<TilePoint>>)
    ensures var r := FirstFree(positions, held);
      && (r.None? <==> forall i :: 0 <= i < |positions| ==> Some(positions[i]) in held)
      && (r.Some? ==>
            exists k :: 0 <= k < |positions| && positions[k] == r.value && Some(r.value) !in held &&
              forall i :: 0 <= i < k ==> Some(positions[i]) in held)
    decreases |positions|
  {
    if positions != [] && Some(positions[0]) in held {
      FirstFreeSpec(positions[1..], held);
      var r := FirstFree(positions, held);
      if r.Some? {
        var k :| 0 <= k < |positions[1..]| && positions[1..][k] == r.value && Some(r.value) !in held &&
          forall i :: 0 <= i < k ==> Some(positions[1..][i]) in held;
        assert positions[k + 1] == r.value;
        forall i | 0 <= i < k + 1
          ensures Some(positions[i]) in held
        {
          if i > 0 {
            assert positions[i] == positions[1..][i - 1];
          }
        }
      } else {
        forall i | 0 <= i < |positions|
          ensures Some(positions[i]) in held
        {
          if i > 0 {
            assert positions[i] == positions[1..][i - 1];
          }
        }
      }
    }
  }
}
