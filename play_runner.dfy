/** The `play-runner` edge function: the client reports a session's play time and score;
    the stake is 1 per second played and the payout a tenth of the score. Nothing is drawn
    at random; the server cannot check the reported score. */
module PlayRunner {
  import opened Wrappers
  import opened Ledger

  const InvalidGameData := "Invalid game data"
  const CostPerSecond := 1.0
  const GameType := "runner"

  /** The negation of `!timePlayed || timePlayed < 0 || timePlayed > 60 || !score || score < 0`:
      because of the falsy tests a zero time or a zero score is rejected as well. */
  function ValidGameData(timePlayed: Option<real>, score: Option<real>): (ok: bool)
    ensures ok <==> timePlayed.Some? && 0.0 < timePlayed.value <= 60.0 && score.Some? && 0.0 < score.value
  {
    !(Falsy(timePlayed) || timePlayed.value < 0.0 || timePlayed.value > 60.0 ||
      Falsy(score) || score.value < 0.0)
  }

  function TotalCost(timePlayed: real): (cost: real)
    requires 0.0 < timePlayed <= 60.0
    ensures 0.0 < cost <= 60.0
    ensures cost == timePlayed
  {
    timePlayed * CostPerSecond
  }

  /** "Convert score to money". */
  function Payout(score: real): (p: real)
    requires score > 0.0
    ensures p > 0.0 && p * 10.0 == score
  {
    score / 10.0
  }

  /** The session was a win exactly when the payout exceeds the cost. */
  predicate Won(payout: real, totalCost: real) {
    payout > totalCost
  }

  /** The worked example: 30 seconds and a score of 400 cost 30, pay 40 and win. */
  lemma ExampleSession()
    ensures TotalCost(30.0) == 30.0 && Payout(400.0) == 40.0 && Won(Payout(400.0), TotalCost(30.0))
  {
  }

  /** Since the score is the client's word, an accepted session can pay any amount:
      for every time and every target there is a score whose payout beats it. */
  lemma PayoutUnbounded(timePlayed: real, target: real)
    requires 0.0 < timePlayed <= 60.0
    ensures exists score :: score > 0.0 && Payout(score) - TotalCost(timePlayed) > target
  {
    var score := 10.0 * (if target > 0.0 then target else 0.0) + 10.0 * timePlayed + 10.0;
    assert Payout(score) - TotalCost(timePlayed) > target;
  }

  datatype Session = Session(won: bool, payout: real, totalCost: real)

  function RoundFor(user: UserId, timePlayed: real, score: real): Round
    requires 0.0 < timePlayed <= 60.0 && score > 0.0
  {
    Round(user, GameType, TotalCost(timePlayed), Payout(score), RunnerResult(score, timePlayed))
  }

  /** What the client is told, read back from the recorded round alone. */
  function Reported(r: Round): Session {
    Session(Won(r.payout, r.bet), r.payout, r.bet)
  }

  /** The reply can be read back from the recorded round: its cost is the stake, its payout
      a tenth of the score, and it is a win exactly when the score exceeds ten times the
      seconds played. */
  lemma ReportedRoundFor(user: UserId, timePlayed: real, score: real)
    requires 0.0 < timePlayed <= 60.0 && score > 0.0
    ensures var s := Reported(RoundFor(user, timePlayed, score));
      && s.totalCost == timePlayed && s.payout * 10.0 == score
      && (s.won <==> score > 10.0 * timePlayed)
  {
  }

  /** The request handler; `rpcError` is the error `play_game` reports, if any. `won` is
      only computed once the round has been recorded. */
  method Handle(store: Store, user: Option<UserId>, timePlayed: Option<real>, score: Option<real>,
                rpcError: Option<string>)
    returns (reply: Reply<Session>)
    requires store.Valid()
    modifies store
    ensures store.Valid() && store.opening == old(store.opening)
    ensures user.None? ==> reply == Error(401, Unauthorized)
    ensures user.Some? && !ValidGameData(timePlayed, score) ==> reply == Error(400, InvalidGameData)
    ensures user.Some? && ValidGameData(timePlayed, score) ==>
      var round := RoundFor(user.value, timePlayed.value, score.value);
      if !CanAfford(old(store.balance), user.value, TotalCost(timePlayed.value)) then
        reply == Error(400, InsufficientBalance)
      else if rpcError.Some? then
        reply == Error(500, rpcError.value)
      else
        reply == Ok(Reported(round)) &&
        store.rounds == old(store.rounds) + [round] &&
        store.balance == Apply(old(store.balance), round)
    ensures !reply.Ok? ==> store.balance == old(store.balance) && store.rounds == old(store.rounds)
    ensures old(store.Sound()) ==> store.Sound()
  {
    if user.None? {
      return Error(401, Unauthorized);
    }
    if !ValidGameData(timePlayed, score) {
      return Error(400, InvalidGameData);
    }
    var totalCost := TotalCost(timePlayed.value);
    var payout := Payout(score.value);
    if user.value !in store.balance || store.balance[user.value] < totalCost {
      return Error(400, InsufficientBalance);
    }
    var err := store.PlayGame(user.value, GameType, totalCost, payout, RunnerResult(score.value, timePlayed.value), rpcError);
    if err.Some? {
      return Error(500, err.value);
    }
    var won := Won(payout, totalCost);
    return Ok(Session(won, payout, totalCost));
  }
}
