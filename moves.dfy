/**
 * The Move record of backend/models/poker_game.py and its construction-time validation.
 *
 * A `Move` value can only hold one of the four actions and a non-negative amount;
 * `MakeMove` is the checked constructor that turns the raw action text and amount
 * into a Move or into the ValueError message the source raises.
 */
module Moves {
  import opened Util

  datatype Action = Call | Raise | Fold | Check

  /** The amount only matters for a raise. */
  datatype Move = Move(action: Action, amount: nat)

  const BAD_ACTION := "Action must be 'call', 'raise', 'fold', or 'check'"
  const NEGATIVE_AMOUNT := "Amount must be positive"

  function ActionName(a: Action): string {
    match a
    case Call => "call"
    case Raise => "raise"
    case Fold => "fold"
    case Check => "check"
  }

  function ParseAction(s: string): (r: Option<Action>)
    ensures r.Some? ==> ActionName(r.value) == s
    ensures r.None? ==> forall a: Action :: ActionName(a) != s
  {
    if s == "call" then Some(Call)
    else if s == "raise" then Some(Raise)
    else if s == "fold" then Some(Fold)
    else if s == "check" then Some(Check)
    else None
  }

  /** Move.__post_init__: the action is checked first, then the sign of the amount. */
  function MakeMove(action: string, amount: int): (r: Result<Move, string>)
    ensures r.Ok? <==> action in ["call", "raise", "fold", "check"] && amount >= 0
    ensures r.Ok? ==> ActionName(r.value.action) == action && r.value.amount == amount
    ensures action !in ["call", "raise", "fold", "check"] ==> r == Err(BAD_ACTION)
    ensures action in ["call", "raise", "fold", "check"] && amount < 0 ==> r == Err(NEGATIVE_AMOUNT)
  {
    match ParseAction(action)
    case None => Err(BAD_ACTION)
    case Some(a) => if amount < 0 then Err(NEGATIVE_AMOUNT) else Ok(Move(a, amount))
  }

  /** Every Move value is one that the checked constructor accepts. */
  lemma MakeMoveComplete(m: Move)
    ensures MakeMove(ActionName(m.action), m.amount) == Ok(m)
  {
  }
}
