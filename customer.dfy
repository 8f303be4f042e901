/** A seated customer (Code/Nodes/Customer.swift): the ordered item, the patience
    countdown and the table the customer sits at. The repeating one-second timer is
    replaced by explicit ticks. */
module Customers {
  import opened Wrappers
  import opened FoodItems
  import opened Tiles

  /** The patience countdown: seconds left and whether the timer is still running
      (`waitingTimer` is scheduled and not invalidated). */
  datatype Patience = Patience(seconds: int, counting: bool)

  /** A fresh countdown of `timeLimit` seconds. */
  function Waiting(timeLimit: int): Patience {
    Patience(timeLimit, true)
  }

  /** What one firing of the timer did: the new countdown and whether
      `onPatienceRunOut` was called. */
  datatype Waited = Waited(patience: Patience, ranOut: bool)

  /** One firing of the repeating timer: a second is taken off; at zero or below the
      callback fires and the timer is invalidated. A stopped timer does nothing. */
  function WaitOneSecond(p: Patience): Waited {
    if !p.counting then Waited(p, false)
    else if p.seconds - 1 <= 0 then Waited(Patience(p.seconds - 1, false), true)
    else Waited(Patience(p.seconds - 1, true), false)
  }

  /** `n` seconds of the timer: the final countdown and how many times the callback
      fired. */
  function Wait(p: Patience, n: nat): (Patience, nat)
    decreases n
  {
    if n == 0 then (p, 0)
    else
      var t := WaitOneSecond(p);
      var rest := Wait(t.patience, n - 1);
      (rest.0, rest.1 + if t.ranOut then 1 else 0)
  }

  /** The tick on which a countdown of `timeLimit` seconds runs out. */
  function FiringTick(timeLimit: int): int {
    if timeLimit >= 1 then timeLimit else 1
  }

  /** Each running tick takes exactly one second off, and the callback fires exactly
      when the countdown reaches zero or below, stopping the timer. */
  lemma TickSpec(p: Patience)
    ensures p.counting ==> WaitOneSecond(p).patience.seconds == p.seconds - 1
    ensures WaitOneSecond(p).ranOut <==> p.counting && p.seconds - 1 <= 0
    ensures WaitOneSecond(p).ranOut ==> !WaitOneSecond(p).patience.counting
    ensures !p.counting ==> WaitOneSecond(p).patience == p
  {
  }

  /** A stopped countdown (after `served`) never fires and never changes. */
  lemma {:induction false} StoppedNeverFires(p: Patience, n: nat)
    requires !p.counting
    ensures Wait(p, n) == (p, 0)
    decreases n
  {
    if n > 0 {
      StoppedNeverFires(p, n - 1);
    }
  }

  /** A customer waiting with limit `timeLimit` runs out of patience exactly once, on
      tick `max(timeLimit, 1)`: not before, and never again after. */
  lemma {:induction false} FiresOnceOnTick(timeLimit: int, n: nat)
    ensures Wait(Waiting(timeLimit), n).1 == if n >= FiringTick(timeLimit) then 1 else 0
    decreases n
  {
    if n > 0 {
      var t := WaitOneSecond(Waiting(timeLimit));
      if timeLimit - 1 <= 0 {
        StoppedNeverFires(t.patience, n - 1);
      } else {
        FiresOnceOnTick(timeLimit - 1, n - 1);
      }
    }
  }

  /** With a time limit `T >= 1` the callback has not fired after `T - 1` ticks and has
      fired after `T`. */
  lemma FiresOnTickT(timeLimit: int)
    requires timeLimit >= 1
    ensures Wait(Waiting(timeLimit), timeLimit - 1).1 == 0
    ensures Wait(Waiting(timeLimit), timeLimit).1 == 1
  {
    FiresOnceOnTick(timeLimit, timeLimit - 1);
    FiresOnceOnTick(timeLimit, timeLimit);
  }

  /** A customer (`class Customer`). */
  class Customer {
    const order: FoodItem
    var seconds: int
    var counting: bool
    var tableSittingAt: Option<TilePoint>

    function State(): Patience
      reads this
    {
      Patience(seconds, counting)
    }

    /** `init(order:timeLimit:size:onPatienceRunOut:)`: the countdown starts at once. */
    constructor (order: FoodItem, timeLimit: int)
      ensures this.order == order && State() == Waiting(timeLimit) && tableSittingAt.None?
    {
      this.order := order;
      seconds := timeLimit;
      counting := true;
      tableSittingAt := None;
    }

    /** One firing of the countdown timer; `ranOut` reports the call to
        `onPatienceRunOut`. */
    method Tick() returns (ranOut: bool)
      modifies this`seconds, this`counting
      ensures Waited(State(), ranOut) == WaitOneSecond(old(State()))
      ensures tableSittingAt == old(tableSittingAt)
    {
      ranOut := false;
      if !counting {
        return;
      }
      seconds := seconds - 1;
      if seconds <= 0 {
        ranOut := true;
        counting := false;
      }
    }

    /** `orderSatisfied`, through `served`: the countdown is invalidated. */
    method OrderSatisfied()
      modifies this`counting
      ensures State() == Patience(old(seconds), false)
      ensures tableSittingAt == old(tableSittingAt)
    {
      counting := false;
    }

    /** `stopCountdown`, as the scene calls it when it dismisses every customer: the
        countdown is invalidated and never fires. */
    method StopCountdown()
      modifies this`counting
      ensures State() == Patience(old(seconds), false)
      ensures tableSittingAt == old(tableSittingAt)
    {
      counting := false;
    }
  }
}
