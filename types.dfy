/** The value types the round engine shares with the presentation layer
    (types.ts). Random string ids are left out: nothing in the engine reads them. */
module Types {

  datatype Option<+T> = None | Some(value: T)

  /** Phase of a round. The enum's IDLE member is never used by the engine. */
  datatype GameStatus = Waiting | Flying | Crashed

  /** A logged-in session: the name shown on the player's bet and its opening balance. */
  datatype User = User(username: string, balance: real)

  /** A player or opponent stake; `multiplier` is the cash-out multiplier, once there is one. */
  datatype Bet = Bet(amount: real, multiplier: Option<real>, cashedOut: bool, playerName: string)

  /** One entry of the recent-crash strip: the crash point and when it happened. */
  datatype GameHistory = GameHistory(multiplier: real, timestamp: int)

  /** The win banner (`lastWin`): the amount credited and the multiplier it was taken at. */
  datatype Win = Win(amount: real, mult: real)

  /** A bet carries a cash-out multiplier exactly when it has been cashed out. */
  predicate WellFormed(b: Bet)
  {
    b.cashedOut <==> b.multiplier.Some?
  }
}

/** Every call of `Math.random()` is an input of the model, a real in [0, 1). */
module Random {

  predicate IsDraw(x: real)
  {
    0.0 <= x < 1.0
  }

  predicate AreDraws(xs: seq<real>)
  {
    forall i :: 0 <= i < |xs| ==> IsDraw(xs[i])
  }
}
