/** The `play-lottery` edge function: buy 1 to 100 tickets at 10 each; the server draws
    the outcome (30% win rate, payout 2x to 5x the stake) and records the round. */
module PlayLottery {
  import opened Wrappers
  import opened Ledger
  import Arith

  const InvalidTicketCount := "Invalid ticket count. Must be between 1 and 100"
  const TicketPrice := 10.0
  const GameType := "lottery"

  /** The negation of `!ticketCount || ticketCount < 1 || ticketCount > 100`. */
  function ValidTicketCount(ticketCount: Option<real>): (ok: bool)
    ensures ok <==> ticketCount.Some? && 1.0 <= ticketCount.value <= 100.0
  {
    !(Falsy(ticketCount) || ticketCount.value < 1.0 || ticketCount.value > 100.0)
  }

  /** The stake, computed on the server from the ticket count alone. */
  function BetAmount(tickets: real): (bet: real)
    requires 1.0 <= tickets <= 100.0
    ensures 10.0 <= bet <= 1000.0
    ensures bet / TicketPrice == tickets
  {
    tickets * TicketPrice
  }

  /** The outcome for stake `bet`: `draw1` decides win or loss, `draw2` the payout. */
  function Draw(bet: real, draw1: real, draw2: real): (o: Outcome)
    requires bet > 0.0 && 0.0 <= draw1 < 1.0 && 0.0 <= draw2 < 1.0
    ensures o.won <==> 0.7 < draw1
    ensures !o.won ==> o.payout == 0.0
    ensures o.won ==> o.payout == WinPayout(bet, draw2) && 2.0 * bet <= o.payout < 5.0 * bet
  {
    var won := draw1 > 0.7;
    if won then
      WinPayoutRange(bet, draw2);
      Outcome(true, WinPayout(bet, draw2))
    else
      Outcome(false, 0.0)
  }

  /** `betAmount * (2 + Math.random() * 3)`. */
  function WinPayout(bet: real, draw2: real): real {
    bet * (2.0 + draw2 * 3.0)
  }

  /** A win pays between two and five times the stake. */
  lemma WinPayoutRange(bet: real, draw2: real)
    requires bet > 0.0 && 0.0 <= draw2 < 1.0
    ensures 2.0 * bet <= WinPayout(bet, draw2) < 5.0 * bet
  {
    Arith.AffineLess(2.0, draw2 * 3.0, 3.0, bet);
    Arith.MulLeq(2.0, 2.0 + draw2 * 3.0, bet);
  }

  /** A larger second draw never pays less: the payout is increasing in `draw2`. */
  lemma PayoutIncreasing(bet: real, d: real, d': real)
    requires bet > 0.0 && 0.0 <= d < d' < 1.0
    ensures WinPayout(bet, d) < WinPayout(bet, d')
  {
    Arith.AffineLess(2.0, d * 3.0, d' * 3.0, bet);
  }

  /** Every amount in [2 * bet, 5 * bet) is the payout of exactly the draw
      `(p / bet - 2) / 3`, so a win pays stake times a uniform factor in [2, 5). */
  lemma PayoutCoversRange(bet: real, p: real)
    requires bet > 0.0 && 2.0 * bet <= p < 5.0 * bet
    ensures var d := (p / bet - 2.0) / 3.0; 0.0 <= d < 1.0 && WinPayout(bet, d) == p
  {
    assert (p / bet) * bet == p;
    Arith.DivBounds(p, bet, 2.0, 5.0);
  }

  /** The round that records a settled lottery game. */
  function RoundFor(user: UserId, tickets: real, o: Outcome): (r: Round)
    requires 1.0 <= tickets <= 100.0
  {
    Round(user, GameType, BetAmount(tickets), o.payout, LotteryResult(tickets, o.won))
  }

  /** What the client is told, read back from the recorded round alone. */
  function Reported(r: Round): Outcome
    requires r.result.LotteryResult?
  {
    Outcome(r.result.won, r.payout)
  }

  /** The reply can be read back from the recorded round: the response body is the drawn
      outcome, and the round records the server-computed stake, the payout and the tickets. */
  lemma ReportedRoundFor(user: UserId, tickets: real, o: Outcome)
    requires 1.0 <= tickets <= 100.0
    ensures var r := RoundFor(user, tickets, o);
      && Reported(r) == o
      && r.user == user && r.gameType == GameType && r.bet / TicketPrice == tickets && r.payout == o.payout
  {
  }

  /** The request handler. `user` is the identity the bearer token resolved to (or none),
      `ticketCount` the JSON field, `draw1` and `draw2` the two `Math.random()` values,
      `rpcError` the error `play_game` reports, if any. */
  method Handle(store: Store, user: Option<UserId>, ticketCount: Option<real>,
                draw1: real, draw2: real, rpcError: Option<string>)
    returns (reply: Reply<Outcome>)
    requires store.Valid()
    requires 0.0 <= draw1 < 1.0 && 0.0 <= draw2 < 1.0
    modifies store
    ensures store.Valid() && store.opening == old(store.opening)
    ensures user.None? ==> reply == Error(401, Unauthorized)
    ensures user.Some? && !ValidTicketCount(ticketCount) ==> reply == Error(400, InvalidTicketCount)
    ensures user.Some? && ValidTicketCount(ticketCount) ==>
      var bet := BetAmount(ticketCount.value);
      var round := RoundFor(user.value, ticketCount.value, Draw(bet, draw1, draw2));
      if !CanAfford(old(store.balance), user.value, bet) then
        reply == Error(400, InsufficientBalance)
      else if rpcError.Some? then
        reply == Error(500, rpcError.value)
      else
        reply == Ok(Reported(round)) &&
        store.rounds == old(store.rounds) + [round] &&
        store.balance == Apply(old(store.balance), round)
    ensures !reply.Ok? ==> store.balance == old(store.balance) && store.rounds == old(store.rounds)
    ensures old(store.Sound()) ==> store.Sound()
  {
    if user.None? {
      return Error(401, Unauthorized);
    }
    if !ValidTicketCount(ticketCount) {
      return Error(400, InvalidTicketCount);
    }
    var bet := BetAmount(ticketCount.value);
    if user.value !in store.balance || store.balance[user.value] < bet {
      return Error(400, InsufficientBalance);
    }
    var o := Draw(bet, draw1, draw2);
    var err := store.PlayGame(user.value, GameType, bet, o.payout, LotteryResult(ticketCount.value, o.won), rpcError);
    if err.Some? {
      return Error(500, err.value);
    }
    return Ok(o);
  }
}
