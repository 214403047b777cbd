/** The `play-chest` edge function: open a chest of one of four fixed tiers. The client
    names the tier and repeats its price and maximum multiplier, which must agree with the
    server's table; the server draws the outcome (50% win rate) and the prize. */
module PlayChest {
  import opened Wrappers
  import opened Ledger
  import Arith

  const InvalidTierData := "Invalid tier data"
  const Nothing := "Nothing"

  datatype Tier = Tier(price: real, maxMultiplier: real)

  /** The `validTiers` table. */
  function TierOf(name: string): (t: Option<Tier>)
    ensures t.Some? ==> t.value.price >= 100.0 && t.value.maxMultiplier >= 3.0
  {
    if name == "Bronze Chest" then Some(Tier(100.0, 3.0))
    else if name == "Silver Chest" then Some(Tier(500.0, 5.0))
    else if name == "Gold Chest" then Some(Tier(1000.0, 8.0))
    else if name == "Diamond Chest" then Some(Tier(5000.0, 15.0))
    else None
  }

  /** The members every object literal inherits from `Object.prototype`. Looking one of
      them up in `validTiers` yields a function (or, for `__proto__`, an object): a truthy
      value with neither a `price` nor a `maxMultiplier`. */
  const InheritedMembers: set<string> := {
    "constructor", "hasOwnProperty", "isPrototypeOf", "propertyIsEnumerable",
    "toLocaleString", "toString", "valueOf", "__proto__",
    "__defineGetter__", "__defineSetter__", "__lookupGetter__", "__lookupSetter__" }

  /** What `validTiers[tierName]` yields: an own entry, an inherited member, or `undefined`. */
  datatype Lookup = Own(tier: Tier) | Inherited | Absent

  function LookupTier(name: string): (l: Lookup)
    ensures l.Own? <==> TierOf(name).Some?
    ensures l.Own? ==> l.tier == TierOf(name).value
    ensures l.Inherited? <==> name in InheritedMembers
  {
    match TierOf(name)
    case Some(tier) => Own(tier)
    case None => if name in InheritedMembers then Inherited else Absent
  }

  /** The tier check at the source as written: `!validTier || tierPrice !== validTier.price ||
      maxMultiplier !== validTier.maxMultiplier` is false. An inherited member's `price` and
      `maxMultiplier` are `undefined`, which a field the client left out equals. It passes the
      four own entries with their exact numbers, and every inherited member name sent with
      neither number. */
  function PassesTierCheckAsWritten(tierName: Option<string>, tierPrice: Option<real>, maxMultiplier: Option<real>)
    : (ok: bool)
    ensures ok <==>
      || CheckTier(tierName, tierPrice, maxMultiplier).Some?
      || (tierName.Some? && tierName.value in InheritedMembers && tierPrice.None? && maxMultiplier.None?)
  {
    // `validTiers[undefined]` looks up the key "undefined", which is absent.
    tierName.Some? &&
    match LookupTier(tierName.value)
    case Absent => false
    case Inherited => tierPrice.None? && maxMultiplier.None?
    case Own(tier) => tierPrice == Some(tier.price) && maxMultiplier == Some(tier.maxMultiplier)
  }

  /** A request naming `"constructor"` and sending neither number passes the check as
      written, and so does `"__proto__"`, while the own-entry check refuses both. */
  lemma InheritedNamePassesCheck()
    ensures PassesTierCheckAsWritten(Some("constructor"), None, None)
    ensures PassesTierCheckAsWritten(Some("__proto__"), None, None)
    ensures CheckTier(Some("constructor"), None, None).None?
    ensures CheckTier(Some("__proto__"), None, None).None?
  {
  }

  /** The tier check as evidently intended, consulting the table's own entries only: the
      named tier must be one of the four and the client's `tierPrice` and `maxMultiplier`
      must equal its entry (`!==` fails on a missing field too). Exactly four requests pass it. */
  function CheckTier(tierName: Option<string>, tierPrice: Option<real>, maxMultiplier: Option<real>)
    : (t: Option<Tier>)
    ensures t.Some? <==> (tierName, tierPrice, maxMultiplier) in {
      (Some("Bronze Chest"), Some(100.0), Some(3.0)),
      (Some("Silver Chest"), Some(500.0), Some(5.0)),
      (Some("Gold Chest"), Some(1000.0), Some(8.0)),
      (Some("Diamond Chest"), Some(5000.0), Some(15.0)) }
    ensures t.Some? ==> tierPrice == Some(t.value.price) && maxMultiplier == Some(t.value.maxMultiplier)
  {
    if tierName.None? then None
    else
      match TierOf(tierName.value)
      case None => None
      case Some(tier) =>
        if tierPrice != Some(tier.price) || maxMultiplier != Some(tier.maxMultiplier) then None
        else Some(tier)
  }

  /** `0.5 + Math.random() * maxMultiplier`. */
  function Multiplier(maxMultiplier: real, draw: real): real {
    0.5 + draw * maxMultiplier
  }

  /** The multiplier lies in [0.5, 0.5 + max). */
  lemma MultiplierRange(maxMultiplier: real, draw: real)
    requires maxMultiplier > 0.0 && 0.0 <= draw < 1.0
    ensures 0.5 <= Multiplier(maxMultiplier, draw) < 0.5 + maxMultiplier
  {
    Arith.MulLess(draw, 1.0, maxMultiplier);
  }

  /** The prize label of a winning multiplier. */
  function PrizeType(multiplier: real, maxMultiplier: real): (kind: string)
    ensures kind in {"USDT", "BTC", "Bonus Coins"} && kind != Nothing
  {
    if multiplier > maxMultiplier * 0.8 then "USDT"
    else if multiplier > maxMultiplier * 0.5 then "BTC"
    else "Bonus Coins"
  }

  /** Labels ordered by value, for the monotonicity lemma. */
  function Rank(prizeType: string): nat {
    if prizeType == "USDT" then 2 else if prizeType == "BTC" then 1 else 0
  }

  datatype Prize = Prize(won: bool, prizeAmount: real, prizeType: string)

  /** The outcome of opening `tier`: `draw1` decides win or loss, `draw2` the multiplier. */
  function Open(tier: Tier, draw1: real, draw2: real): (p: Prize)
    requires tier.price > 0.0 && tier.maxMultiplier > 0.0
    requires 0.0 <= draw1 < 1.0 && 0.0 <= draw2 < 1.0
    ensures p.won <==> 0.5 < draw1
    ensures !p.won ==> p.prizeAmount == 0.0 && p.prizeType == Nothing
    ensures p.won ==> tier.price * 0.5 <= p.prizeAmount < tier.price * (0.5 + tier.maxMultiplier)
    ensures p.won ==> p.prizeType in {"USDT", "BTC", "Bonus Coins"}
    ensures p.won ==> p.prizeAmount == PrizeAmount(tier, draw2)
    ensures p.won ==> p.prizeType == PrizeType(Multiplier(tier.maxMultiplier, draw2), tier.maxMultiplier)
  {
    var won := draw1 > 0.5;
    if won then
      var m := Multiplier(tier.maxMultiplier, draw2);
      PrizeAmountRange(tier, draw2);
      Prize(true, PrizeAmount(tier, draw2), PrizeType(m, tier.maxMultiplier))
    else
      Prize(false, 0.0, Nothing)
  }

  /** `prizeAmount = tierPrice * multiplier`. */
  function PrizeAmount(tier: Tier, draw2: real): real {
    tier.price * Multiplier(tier.maxMultiplier, draw2)
  }

  /** A winning chest pays between half its price and its price times (0.5 + max). */
  lemma PrizeAmountRange(tier: Tier, draw2: real)
    requires tier.price > 0.0 && tier.maxMultiplier > 0.0 && 0.0 <= draw2 < 1.0
    ensures tier.price * 0.5 <= PrizeAmount(tier, draw2) < tier.price * (0.5 + tier.maxMultiplier)
  {
    var m := Multiplier(tier.maxMultiplier, draw2);
    MultiplierRange(tier.maxMultiplier, draw2);
    Arith.MulLeq(0.5, m, tier.price);
    Arith.MulLess(m, 0.5 + tier.maxMultiplier, tier.price);
  }

  /** Which label a winning second draw earns, stated on the draw itself:
      "USDT" above `0.8 - 0.5 / max`, "BTC" above `0.5 - 0.5 / max`, "Bonus Coins" below. */
  lemma PrizeTypeByDraw(maxMultiplier: real, draw: real)
    requires maxMultiplier > 0.0 && 0.0 <= draw < 1.0
    ensures var kind := PrizeType(Multiplier(maxMultiplier, draw), maxMultiplier);
      && (kind == "USDT" <==> draw > 0.8 - 0.5 / maxMultiplier)
      && (kind == "BTC" <==> 0.5 - 0.5 / maxMultiplier < draw <= 0.8 - 0.5 / maxMultiplier)
      && (kind == "Bonus Coins" <==> draw <= 0.5 - 0.5 / maxMultiplier)
  {
    var m := maxMultiplier;
    assert (0.5 / m) * m == 0.5;
    ThresholdByDraw(m, draw, 0.8);
    ThresholdByDraw(m, draw, 0.5);
  }

  lemma ThresholdByDraw(m: real, draw: real, f: real)
    requires m > 0.0
    ensures 0.5 + draw * m > m * f <==> draw > f - 0.5 / m
  {
    var t := f - 0.5 / m;
    assert (0.5 / m) * m == 0.5;
    assert t * m == m * f - 0.5;
    if draw > t { Arith.MulLess(t, draw, m); }
    if draw <= t { Arith.MulLeq(draw, t, m); }
  }

  lemma MultiplierMonotone(maxMultiplier: real, d: real, d': real)
    requires maxMultiplier > 0.0 && 0.0 <= d <= d' < 1.0
    ensures Multiplier(maxMultiplier, d) <= Multiplier(maxMultiplier, d')
  {
    Arith.AffineLeq(0.5, d, d', maxMultiplier);
  }

  /** A larger second draw never earns a lower label. */
  lemma PrizeTypeMonotone(maxMultiplier: real, d: real, d': real)
    requires maxMultiplier > 0.0 && 0.0 <= d <= d' < 1.0
    ensures Rank(PrizeType(Multiplier(maxMultiplier, d), maxMultiplier))
         <= Rank(PrizeType(Multiplier(maxMultiplier, d'), maxMultiplier))
  {
    var m, m' := Multiplier(maxMultiplier, d), Multiplier(maxMultiplier, d');
    MultiplierMonotone(maxMultiplier, d, d');
    if m > maxMultiplier * 0.8 {
      assert PrizeType(m', maxMultiplier) == "USDT";
    } else if m > maxMultiplier * 0.5 {
      assert Rank(PrizeType(m', maxMultiplier)) >= 1;
    }
  }

  /** The worked example: a Silver chest (price 500, max 5) with draws 0.9 and 0.9 wins
      500 * (0.5 + 0.9 * 5) = 2500 in USDT; with a first draw of 0.1 it loses and pays 0. */
  lemma SilverChestExample()
    ensures Open(Tier(500.0, 5.0), 0.9, 0.9) == Prize(true, 2500.0, "USDT")
    ensures Open(Tier(500.0, 5.0), 0.1, 0.9) == Prize(false, 0.0, Nothing)
  {
  }

  /** A "win" can pay back less than the price: a Bronze chest with second draw 0.1 has
      multiplier 0.8 and pays 80 for a stake of 100. */
  lemma WinBelowStake()
    ensures var p := Open(Tier(100.0, 3.0), 0.9, 0.1); p.won && p.prizeAmount == 80.0 && p.prizeAmount < 100.0
  {
  }

  /** `chest_${tierName}`. */
  function GameType(tierName: string): (g: string)
    ensures |g| == 6 + |tierName| && g[..6] == "chest_" && g[6..] == tierName
  {
    "chest_" + tierName
  }

  function RoundFor(user: UserId, tierName: string, tier: Tier, p: Prize): Round {
    Round(user, GameType(tierName), tier.price, p.prizeAmount,
          ChestResult(tierName, if p.won then "win" else "lose", p.prizeType))
  }

  /** What the client is told, read back from the recorded round alone. */
  function Reported(r: Round): Prize
    requires r.result.ChestResult?
  {
    Prize(r.result.prize == "win", r.payout, r.result.prizeType)
  }

  /** The reply can be read back from the recorded round: the round stores the win as
      "win" or "lose", the prize amount as the payout and the prize label. */
  lemma ReportedRoundFor(user: UserId, tierName: string, tier: Tier, p: Prize)
    ensures var r := RoundFor(user, tierName, tier, p);
      && Reported(r) == p
      && r.user == user && r.gameType == GameType(tierName) && r.bet == tier.price
      && r.result.chestType == tierName
  {
  }

  /** The request handler; the parameters are as for the lottery, with the three JSON
      fields `tierName`, `tierPrice` and `maxMultiplier`. It uses the own-entry tier check
      `CheckTier`, not the check as written (`PassesTierCheckAsWritten`). */
  method Handle(store: Store, user: Option<UserId>, tierName: Option<string>,
                tierPrice: Option<real>, maxMultiplier: Option<real>,
                draw1: real, draw2: real, rpcError: Option<string>)
    returns (reply: Reply<Prize>)
    requires store.Valid()
    requires 0.0 <= draw1 < 1.0 && 0.0 <= draw2 < 1.0
    modifies store
    ensures store.Valid() && store.opening == old(store.opening)
    ensures user.None? ==> reply == Error(401, Unauthorized)
    ensures user.Some? && CheckTier(tierName, tierPrice, maxMultiplier).None? ==>
      reply == Error(400, InvalidTierData)
    ensures user.Some? && CheckTier(tierName, tierPrice, maxMultiplier).Some? ==>
      var tier := CheckTier(tierName, tierPrice, maxMultiplier).value;
      var round := RoundFor(user.value, tierName.value, tier, Open(tier, draw1, draw2));
      if !CanAfford(old(store.balance), user.value, tier.price) then
        reply == Error(400, InsufficientBalance)
      else if rpcError.Some? then
        reply == Error(500, rpcError.value)
      else
        reply == Ok(Reported(round)) &&
        store.rounds == old(store.rounds) + [round] &&
        store.balance == Apply(old(store.balance), round)
    ensures !reply.Ok? ==> store.balance == old(store.balance) && store.rounds == old(store.rounds)
    ensures old(store.Sound()) ==> store.Sound()
  {
    if user.None? {
      return Error(401, Unauthorized);
    }
    var validTier := CheckTier(tierName, tierPrice, maxMultiplier);
    if validTier.None? {
      return Error(400, InvalidTierData);
    }
    // From here on the client's values equal the server's table entry.
    var price, max := tierPrice.value, maxMultiplier.value;
    if user.value !in store.balance || store.balance[user.value] < price {
      return Error(400, InsufficientBalance);
    }
    var p := Open(Tier(price, max), draw1, draw2);
    var err := store.PlayGame(user.value, GameType(tierName.value), price, p.prizeAmount,
                              ChestResult(tierName.value, if p.won then "win" else "lose", p.prizeType),
                              rpcError);
    if err.Some? {
      return Error(500, err.value);
    }
    return Ok(p);
  }
}
