/** The `play-scratch` edge function: one scratch card at a fixed price of 20; the server
    draws the outcome (40% win rate, payout 30 to 110). The request carries no game data. */
module PlayScratch {
  import opened Wrappers
  import opened Ledger
  import Arith

  const CardPrice := 20.0
  const GameType := "scratch"

  /** The outcome of one card: `draw1` decides win or loss, `draw2` the payout. */
  function Draw(draw1: real, draw2: real): (o: Outcome)
    requires 0.0 <= draw1 < 1.0 && 0.0 <= draw2 < 1.0
    ensures o.won <==> 0.6 < draw1
    ensures !o.won ==> o.payout == 0.0
    ensures o.won ==> o.payout == CardPrice * (1.5 + draw2 * 4.0) && 30.0 <= o.payout < 110.0
  {
    var won := draw1 > 0.6;
    Outcome(won, if won then CardPrice * (1.5 + draw2 * 4.0) else 0.0)
  }

  /** Every amount in [30, 110) is the payout of exactly the draw `(p / 20 - 1.5) / 4`:
      a win pays the price times a uniform factor in [1.5, 5.5). */
  lemma PayoutCoversRange(draw1: real, p: real)
    requires 0.6 < draw1 < 1.0 && 30.0 <= p < 110.0
    ensures var d := (p / CardPrice - 1.5) / 4.0; 0.0 <= d < 1.0 && Draw(draw1, d).payout == p
  {
  }

  /** A won card always pays more than it cost; a lost one pays nothing. */
  lemma WinPaysMoreThanPrice(draw1: real, draw2: real)
    requires 0.0 <= draw1 < 1.0 && 0.0 <= draw2 < 1.0
    ensures Draw(draw1, draw2).won <==> Draw(draw1, draw2).payout > CardPrice
  {
  }

  function RoundFor(user: UserId, o: Outcome): Round {
    Round(user, GameType, CardPrice, o.payout, ScratchResult(o.payout))
  }

  /** What the client is told, read back from the recorded round alone: the round stores
      only the prize, and a card was won exactly when the prize is positive. */
  function Reported(r: Round): Outcome {
    Outcome(r.payout > 0.0, r.payout)
  }

  /** The reply can be read back from the recorded round, although the round stores only
      the prize: a drawn card is won exactly when its prize is positive. */
  lemma ReportedRoundFor(user: UserId, draw1: real, draw2: real)
    requires 0.0 <= draw1 < 1.0 && 0.0 <= draw2 < 1.0
    ensures var r := RoundFor(user, Draw(draw1, draw2));
      && Reported(r) == Draw(draw1, draw2)
      && r.user == user && r.gameType == GameType && r.bet == CardPrice
  {
  }

  /** The request handler; `draw1` and `draw2` are the two `Math.random()` values and
      `rpcError` the error `play_game` reports, if any. */
  method Handle(store: Store, user: Option<UserId>, draw1: real, draw2: real, rpcError: Option<string>)
    returns (reply: Reply<Outcome>)
    requires store.Valid()
    requires 0.0 <= draw1 < 1.0 && 0.0 <= draw2 < 1.0
    modifies store
    ensures store.Valid() && store.opening == old(store.opening)
    ensures user.None? ==> reply == Error(401, Unauthorized)
    ensures user.Some? ==>
      var round := RoundFor(user.value, Draw(draw1, draw2));
      if !CanAfford(old(store.balance), user.value, CardPrice) then
        reply == Error(400, InsufficientBalance)
      else if rpcError.Some? then
        reply == Error(500, rpcError.value)
      else
        reply == Ok(Reported(round)) && reply.body == Draw(draw1, draw2) &&
        store.rounds == old(store.rounds) + [round] &&
        store.balance == Apply(old(store.balance), round)
    ensures !reply.Ok? ==> store.balance == old(store.balance) && store.rounds == old(store.rounds)
    ensures old(store.Sound()) ==> store.Sound()
  {
    if user.None? {
      return Error(401, Unauthorized);
    }
    if user.value !in store.balance || store.balance[user.value] < CardPrice {
      return Error(400, InsufficientBalance);
    }
    var o := Draw(draw1, draw2);
    var err := store.PlayGame(user.value, GameType, CardPrice, o.payout, ScratchResult(o.payout), rpcError);
    if err.Some? {
      return Error(500, err.value);
    }
    return Ok(o);
  }
}
