/** The balance store and the settlement recorder behind the four game handlers.

    `play_game` is a database function whose body is not part of this model; it is
    specified here as one atomic step: debit the stake, credit the payout, append one
    game round, or, when the storage rejects the call, change nothing. */
module Ledger {
  import opened Wrappers

  type UserId = string

  /** The `_result` payload of each game type. */
  datatype RoundResult =
    | LotteryResult(tickets: real, won: bool)
    | ChestResult(chestType: string, prize: string, prizeType: string)
    | ScratchResult(amount: real)      // `{ prize: payout }`
    | RunnerResult(score: real, timePlayed: real)

  /** One recorded game round (`_game_type`, `_bet_amount`, `_payout`, `_result`). */
  datatype Round = Round(user: UserId, gameType: string, bet: real, payout: real, result: RoundResult)

  /** The body every game handler answers with on success. */
  datatype Outcome = Outcome(won: bool, payout: real)

  /** An HTTP answer: a JSON body with status 200, or `{error: message}` with a status code. */
  datatype Reply<+B> = Ok(body: B) | Error(status: nat, message: string)

  const Unauthorized := "Unauthorized"
  const InsufficientBalance := "Insufficient balance"

  /** The negation of `!profile || Number(profile.balance) < stake`. */
  predicate CanAfford(balance: map<UserId, real>, user: UserId, stake: real) {
    user in balance && balance[user] >= stake
  }

  /** The balance change of one round: debit the bet and credit the payout of its user;
      every other account is left alone. */
  function Apply(balance: map<UserId, real>, r: Round): (b: map<UserId, real>)
    ensures b.Keys == balance.Keys
    ensures forall u :: u in b && u != r.user ==> b[u] == balance[u]
    ensures r.user in balance ==> b[r.user] == balance[r.user] - r.bet + r.payout
  {
    if r.user in balance then balance[r.user := balance[r.user] - r.bet + r.payout] else balance
  }

  /** The balances after settling `rounds`, in order, starting from `opening`. */
  function Replay(opening: map<UserId, real>, rounds: seq<Round>): map<UserId, real>
    decreases |rounds|
  {
    if rounds == [] then opening
    else Apply(Replay(opening, rounds[..|rounds| - 1]), rounds[|rounds| - 1])
  }

  /** Total of the bets `u` placed in `rounds`. */
  function Staked(rounds: seq<Round>, u: UserId): real
    decreases |rounds|
  {
    if rounds == [] then 0.0
    else
      var last := rounds[|rounds| - 1];
      Staked(rounds[..|rounds| - 1], u) + (if last.user == u then last.bet else 0.0)
  }

  /** Total of the payouts `u` received in `rounds`. */
  function PaidOut(rounds: seq<Round>, u: UserId): real
    decreases |rounds|
  {
    if rounds == [] then 0.0
    else
      var last := rounds[|rounds| - 1];
      PaidOut(rounds[..|rounds| - 1], u) + (if last.user == u then last.payout else 0.0)
  }

  predicate Solvent(balance: map<UserId, real>) {
    forall u :: u in balance ==> balance[u] >= 0.0
  }

  /** Every round in `rounds` was settled only after its user's balance at that moment was
      found to cover the bet, and paid a non-negative amount: what the handlers guarantee. */
  ghost predicate Affordable(opening: map<UserId, real>, rounds: seq<Round>)
    decreases |rounds|
  {
    rounds == [] ||
    var prefix, last := rounds[..|rounds| - 1], rounds[|rounds| - 1];
    Affordable(opening, prefix) && CanAfford(Replay(opening, prefix), last.user, last.bet) && last.payout >= 0.0
  }

  /** Settlement creates no accounts and removes none. */
  lemma {:induction false} ReplayKeys(opening: map<UserId, real>, rounds: seq<Round>)
    ensures Replay(opening, rounds).Keys == opening.Keys
    decreases |rounds|
  {
    if rounds != [] {
      ReplayKeys(opening, rounds[..|rounds| - 1]);
    }
  }

  /** An account's balance is its opening balance minus everything it staked plus
      everything it was paid, whatever the order of the rounds of other accounts. */
  lemma {:induction false} ReplayBalance(opening: map<UserId, real>, rounds: seq<Round>, u: UserId)
    requires u in opening
    ensures u in Replay(opening, rounds)
    ensures Replay(opening, rounds)[u] == opening[u] - Staked(rounds, u) + PaidOut(rounds, u)
    decreases |rounds|
  {
    if rounds != [] {
      ReplayBalance(opening, rounds[..|rounds| - 1], u);
    }
  }

  /** Settling only affordable rounds never drives a balance below zero. */
  lemma {:induction false} AffordableStaysSolvent(opening: map<UserId, real>, rounds: seq<Round>)
    requires Solvent(opening) && Affordable(opening, rounds)
    ensures Solvent(Replay(opening, rounds))
    decreases |rounds|
  {
    if rounds != [] {
      AffordableStaysSolvent(opening, rounds[..|rounds| - 1]);
    }
  }

  /** Over any sequence of affordable rounds, an account never stakes more in total than
      its opening balance plus what it won along the way. */
  lemma StakesCovered(opening: map<UserId, real>, rounds: seq<Round>, u: UserId)
    requires Solvent(opening) && Affordable(opening, rounds) && u in opening
    ensures Staked(rounds, u) <= opening[u] + PaidOut(rounds, u)
  {
    AffordableStaysSolvent(opening, rounds);
    ReplayBalance(opening, rounds, u);
  }

  /** The settlement store: the `profiles.balance` column and the game-round log. */
  class Store {
    var balance: map<UserId, real>
    var rounds: seq<Round>
    /** The balances before the first round in `rounds` was settled. */
    ghost var opening: map<UserId, real>

    /** The balances are exactly the opening balances with every recorded round applied. */
    ghost predicate Valid()
      reads this
    {
      balance == Replay(opening, rounds)
    }

    /** In addition, every recorded round was affordable when it was settled and the
        opening balances were non-negative. */
    ghost predicate Sound()
      reads this
    {
      Valid() && Solvent(opening) && Affordable(opening, rounds)
    }

    constructor (initial: map<UserId, real>)
      ensures Valid() && balance == initial && rounds == [] && opening == initial
      ensures Solvent(initial) ==> Sound()
    {
      balance, rounds := initial, [];
      opening := initial;
    }

    /** The `play_game` call: settle one round for `user` atomically. `failure` is the
        storage error, if the database rejects the call. */
    method PlayGame(user: UserId, gameType: string, bet: real, payout: real, result: RoundResult,
                    failure: Option<string>)
      returns (error: Option<string>)
      requires Valid() && user in balance
      modifies this
      ensures Valid() && opening == old(opening) && error == failure
      ensures failure.Some? ==> balance == old(balance) && rounds == old(rounds)
      ensures failure.None? ==>
        var r := Round(user, gameType, bet, payout, result);
        rounds == old(rounds) + [r] && balance == Apply(old(balance), r)
      ensures old(Sound()) && failure.None? && CanAfford(old(balance), user, bet) && payout >= 0.0 ==> Sound()
    {
      error := failure;
      if failure.None? {
        var r := Round(user, gameType, bet, payout, result);
        ghost var before := rounds;
        rounds := rounds + [r];
        balance := Apply(balance, r);
        assert rounds[..|rounds| - 1] == before;
      }
    }
  }
}
