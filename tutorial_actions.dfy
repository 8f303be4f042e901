/** Tutorial steps and when two of them count as the same (Code/DataTypes/Tutorial.swift). */
module TutorialActions {
  import opened FoodItems
  import opened Tiles

  /** `enum TutorialAction`. The two `GrabSource…` cases are used by the tutorial
      sequences of Code/DataTypes/FoodItems.swift but are not declared in
      Tutorial.swift; they are added here with their arguments as used there. */
  datatype TutorialAction =
    | Combine(first: FoodItem, second: FoodItem)
    | GrabSourceToTile(source: FoodItem, tile: TileType)
    | GrabSourceToFoodItem(source: FoodItem, target: FoodItem)
    | ActionOn(item: FoodItem, tileKind: TileType)
    | Cook(cooked: FoodItem)
    | Serve(served: FoodItem)

  /** `==` as written: combine ignores operand order, the other declared cases compare
      their arguments, and every other pair of actions (the `default` arm) is unequal.
      The two undeclared `GrabSource…` cases fall into that arm, even against themselves. */
  predicate LiteralEquals(l: TutorialAction, r: TutorialAction) {
    match (l, r)
    case (Combine(a, b), Combine(c, d)) => (a == c && b == d) || (a == d && b == c)
    case (ActionOn(a, s), ActionOn(b, t)) => a == b && s == t
    case (Cook(a), Cook(b)) => a == b
    case (Serve(a), Serve(b)) => a == b
    case _ => false
  }

  /** The equality the tutorial needs: as written for the declared cases, and argument
      by argument for the two `GrabSource…` cases (the grabbed source and its
      destination play different roles, so their order is kept). */
  predicate Matches(l: TutorialAction, r: TutorialAction) {
    match (l, r)
    case (GrabSourceToTile(a, s), GrabSourceToTile(b, t)) => a == b && s == t
    case (GrabSourceToFoodItem(a, x), GrabSourceToFoodItem(b, y)) => a == b && x == y
    case _ => LiteralEquals(l, r)
  }

  /** The four cases declared in Tutorial.swift. */
  predicate Declared(a: TutorialAction) {
    !a.GrabSourceToTile? && !a.GrabSourceToFoodItem?
  }

  /** Which case an action is. */
  function Variant(a: TutorialAction): nat {
    match a
    case Combine(_, _) => 0
    case GrabSourceToTile(_, _) => 1
    case GrabSourceToFoodItem(_, _) => 2
    case ActionOn(_, _) => 3
    case Cook(_) => 4
    case Serve(_) => 5
  }

  /** Combining a with b is the same tutorial step as combining b with a. */
  lemma CombineOrderInsensitive(a: FoodItem, b: FoodItem)
    ensures LiteralEquals(Combine(a, b), Combine(b, a))
    ensures Matches(Combine(a, b), Combine(b, a))
  {
  }

  /** `Matches` is syntactic equality up to swapping the operands of a combine. */
  lemma MatchesIsEqualityUpToCombineOrder(l: TutorialAction, r: TutorialAction)
    ensures Matches(l, r) <==> l == r || (l.Combine? && r.Combine? && l == Combine(r.second, r.first))
  {
  }

  /** `Matches` is reflexive and symmetric, and actions of different cases never match. */
  lemma MatchesReflexiveSymmetric(l: TutorialAction, r: TutorialAction)
    ensures Matches(l, l)
    ensures Matches(l, r) <==> Matches(r, l)
    ensures Variant(l) != Variant(r) ==> !Matches(l, r)
  {
  }

  /** On the cases Tutorial.swift declares, `Matches` is the written `==`; there the
      written `==` is reflexive and symmetric too. */
  lemma MatchesAgreesOnDeclared(l: TutorialAction, r: TutorialAction)
    requires Declared(l) && Declared(r)
    ensures Matches(l, r) <==> LiteralEquals(l, r)
    ensures LiteralEquals(l, l)
    ensures LiteralEquals(l, r) <==> LiteralEquals(r, l)
  {
  }

  /** Under the written `==`, a `GrabSource…` step equals nothing, not even itself. */
  lemma GrabStepsNeverEqualAsWritten(step: TutorialAction, any: TutorialAction)
    requires !Declared(step)
    ensures !LiteralEquals(any, step) && !LiteralEquals(step, any)
  {
  }
}
