/** The tutorial sequencer (`initiateTutorial` and `onAction` in
    Code/DataTypes/Tutorial.swift): a cursor over a finite list of expected steps
    that advances only when the step at the cursor is performed. The highlight
    hooks it calls are presentation and are not modelled; `endTutorialPhase` is
    reported to the caller, which implements it. */
module Tutorial {
  import opened Wrappers
  import opened FoodItems
  import opened Tiles
  import opened TutorialActions
  import opened Categories

  /** `currentTutorialPhase` and `tutorialActionSequence`: the step expected now and
      the steps after it. */
  datatype Cursor = Cursor(current: Option<TutorialAction>, remaining: seq<TutorialAction>)

  /** The cursor after one `onAction` call, and whether that call ended the tutorial
      (called `endTutorialPhase`). */
  datatype Advanced = Advanced(cursor: Cursor, ended: bool)

  /** `initiateTutorial`: the first step becomes current, the rest remain. */
  function Initiated(sequence: seq<TutorialAction>): (c: Cursor)
    requires |sequence| > 0
    ensures c.current.Some? && [c.current.value] + c.remaining == sequence
  {
    Cursor(Some(sequence[0]), sequence[1..])
  }

  /** `onAction` under a given notion of step equality `same`. */
  function Step(c: Cursor, performed: TutorialAction, same: (TutorialAction, TutorialAction) -> bool): Advanced {
    if c.current.Some? && same(performed, c.current.value) then
      if c.remaining != [] then Advanced(Cursor(Some(c.remaining[0]), c.remaining[1..]), false)
      else Advanced(Cursor(None, []), true)
    else Advanced(c, false)
  }

  /** `onAction` as the sequencer runs it, with `Matches`. */
  function Advance(c: Cursor, performed: TutorialAction): Advanced {
    Step(c, performed, Matches)
  }

  /** `onAction` with the `==` exactly as written in Tutorial.swift. */
  function AdvanceAsWritten(c: Cursor, performed: TutorialAction): Advanced {
    Step(c, performed, LiteralEquals)
  }

  /** A run of `onAction` calls: the final cursor and how many of them ended the tutorial. */
  function Replay(c: Cursor, performed: seq<TutorialAction>): (r: (Cursor, nat))
    decreases |performed|
  {
    if performed == [] then (c, 0)
    else
      var step := Advance(c, performed[0]);
      var rest := Replay(step.cursor, performed[1..]);
      (rest.0, rest.1 + (if step.ended then 1 else 0))
  }

  // ---------------------------------------------------------------------------
  // Properties of the cursor
  // ---------------------------------------------------------------------------

  /** A performed step that does not match the current one (or arrives when there is
      none) leaves the cursor alone; a matching one moves it forward by exactly one
      step, ending the tutorial when nothing remains. */
  lemma {:induction false} AdvanceCases(c: Cursor, performed: TutorialAction)
    ensures var r := Advance(c, performed);
      && (!(c.current.Some? && Matches(performed, c.current.value)) ==> r == Advanced(c, false))
      && (c.current.Some? && Matches(performed, c.current.value) && c.remaining != [] ==>
            !r.ended && [r.cursor.current.value] + r.cursor.remaining == c.remaining
            && |r.cursor.remaining| == |c.remaining| - 1)
      && (c.current.Some? && Matches(performed, c.current.value) && c.remaining == [] ==>
            r.ended && r.cursor.current.None?)
  {
    if c.current.Some? && Matches(performed, c.current.value) && c.remaining != [] {
      var r := Advance(c, performed);
      assert r.cursor.remaining == c.remaining[1..];
    }
  }

  /** Once the tutorial is over, no further action advances it or ends it again. */
  lemma {:induction false} FinishedStaysFinished(c: Cursor, performed: seq<TutorialAction>)
    requires c.current.None?
    ensures Replay(c, performed) == (c, 0)
    decreases |performed|
  {
    if performed != [] {
      FinishedStaysFinished(c, performed[1..]);
    }
  }

  /** Performing exactly the remaining steps, in order, walks the cursor to the end
      and ends the tutorial exactly once. */
  lemma {:induction false} ReplayExpectedSteps(c: Cursor)
    requires c.current.Some?
    ensures Replay(c, [c.current.value] + c.remaining) == (Cursor(None, []), 1)
    decreases |c.remaining|
  {
    var steps := [c.current.value] + c.remaining;
    MatchesReflexiveSymmetric(c.current.value, c.current.value);
    var first := Advance(c, steps[0]);
    assert steps[1..] == c.remaining;
    if c.remaining == [] {
      assert first == Advanced(Cursor(None, []), true);
    } else {
      assert first == Advanced(Cursor(Some(c.remaining[0]), c.remaining[1..]), false);
      ReplayExpectedSteps(first.cursor);
    }
  }

  /** Every category's whole tutorial, performed step by step, runs to completion. */
  lemma CategoryTutorialCompletes(category: FoodOrderCategory)
    ensures |TutorialSequence(category)| > 0
    ensures Replay(Initiated(TutorialSequence(category)), TutorialSequence(category)) == (Cursor(None, []), 1)
  {
    TutorialSequencesNonEmpty(category);
    var start := Initiated(TutorialSequence(category));
    ReplayExpectedSteps(start);
  }

  /** With steps A, B, C and B different from A: performing B first does not move the
      cursor; performing A twice moves it once and ignores the repeat. */
  lemma {:induction false} OutOfOrderAndRepeatIgnored(a: TutorialAction, b: TutorialAction, c: TutorialAction)
    requires !Matches(b, a) && !Matches(a, b)
    ensures Advance(Initiated([a, b, c]), b) == Advanced(Initiated([a, b, c]), false)
    ensures Replay(Initiated([a, b, c]), [a, a]) == (Cursor(Some(b), [c]), 0)
  {
    MatchesReflexiveSymmetric(a, a);
    var start := Initiated([a, b, c]);
    assert start == Cursor(Some(a), [b, c]);
    var once := Advance(start, a);
    assert once == Advanced(Cursor(Some(b), [c]), false);
    assert Advance(once.cursor, a) == Advanced(once.cursor, false);
    assert [a, a][1..] == [a];
    assert Replay(once.cursor, [a]) == (once.cursor, 0);
  }

  /** With the `==` as written, the Sushi tutorial can never leave its first step: that
      step is a `GrabSourceToTile`, which equals nothing. The corrected equality lets
      the very step it asks for advance it. */
  lemma SushiTutorialStuckAsWritten(performed: TutorialAction)
    ensures TutorialSequence(Sushi)[0] == GrabSourceToTile(WholeFish, Counter)
    ensures var start := Initiated(TutorialSequence(Sushi));
      AdvanceAsWritten(start, performed) == Advanced(start, false)
    ensures var start := Initiated(TutorialSequence(Sushi));
      Advance(start, GrabSourceToTile(WholeFish, Counter)).cursor.current == Some(GrabSourceToFoodItem(Knife, WholeFish))
  {
    GrabStepsNeverEqualAsWritten(GrabSourceToTile(WholeFish, Counter), performed);
  }

  /** The cursor state of the scene that adopts `TutorialSceneControl`. */
  class Sequencer {
    var current: Option<TutorialAction>
    var remaining: seq<TutorialAction>

    function State(): Cursor
      reads this
    {
      Cursor(current, remaining)
    }

    constructor ()
      ensures State() == Cursor(None, [])
    {
      current := None;
      remaining := [];
    }

    /** `initiateTutorial` for the scene's category: load the list, make its first
        step current and drop it from the list. */
    method InitiateTutorial(category: FoodOrderCategory)
      modifies this
      ensures |TutorialSequence(category)| > 0
      ensures State() == Initiated(TutorialSequence(category))
    {
      TutorialSequencesNonEmpty(category);
      remaining := TutorialSequence(category);
      current := Some(remaining[0]);
      remaining := remaining[1..];
    }

    /** `onAction`; `ended` reports the one call to `endTutorialPhase`. */
    method OnAction(performed: TutorialAction) returns (ended: bool)
      modifies this
      ensures Advanced(State(), ended) == Advance(old(State()), performed)
    {
      ended := false;
      if current.Some? && Matches(performed, current.value) {
        if remaining != [] {
          var next := remaining[0];
          current := Some(next);
          remaining := remaining[1..];
        } else {
          current := None;
          ended := true;
        }
      }
    }
  }
}
