/**
 The chronological betting walk. What the simulator decides for a match is an input here;
 floating-point amounts are reals.
 */
module Backtest {
  import opened Wrappers
  import opened Decimals
  import opened Risk

  datatype BetSide = SideNone | SideA | SideB

  datatype Surface = Hard | Clay | Grass

  datatype SurfaceStats = SurfaceStats(wins: int, bets: int)

  /** The values of a `BacktestStats`. */
  datatype Stats = Stats(
    finalBalance: real,
    grossProfit: real,
    grossLoss: real,
    totalWagered: real,
    bets: int,
    wins: int,
    losses: int,
    skipped: int,
    parlayLegs: int,
    hard: SurfaceStats,
    clay: SurfaceStats,
    grass: SurfaceStats)
  {
    function On(surface: Surface): SurfaceStats {
      match surface
      case Hard => hard
      case Clay => clay
      case Grass => grass
    }

    function With(surface: Surface, s: SurfaceStats): Stats {
      match surface
      case Hard => this.(hard := s)
      case Clay => this.(clay := s)
      case Grass => this.(grass := s)
    }

    function Skip(): Stats {
      this.(skipped := skipped + 1)
    }
  }

  const NO_STATS := Stats(0.0, 0.0, 0.0, 0.0, 0, 0, 0, 0, 0, SurfaceStats(0, 0), SurfaceStats(0, 0), SurfaceStats(0, 0))

  function SettleBet(picked: BetSide, actualWinner: BetSide, odds: real, stake: real): real {
    if picked == actualWinner then stake * (odds - 1.0) else -stake
  }

  /** The stats after a bet of `legs` legs that returned `pnl`. */
  function Settled(st: Stats, surface: Surface, legs: nat, stake: real, pnl: real): Stats {
    var surf := st.On(surface);
    var won := pnl > 0.0;
    var st' := st.(
      bets := st.bets + 1, parlayLegs := st.parlayLegs + legs,
      totalWagered := st.totalWagered + stake, finalBalance := st.finalBalance + pnl);
    if won then
      st'.(wins := st.wins + 1, grossProfit := st.grossProfit + pnl)
         .With(surface, SurfaceStats(surf.wins + 1, surf.bets + 1))
    else
      st'.(losses := st.losses + 1, grossLoss := st.grossLoss + -pnl)
         .With(surface, SurfaceStats(surf.wins, surf.bets + 1))
  }

  /** The books balance. */
  predicate Balanced(st: Stats) {
    && st.bets == st.wins + st.losses
    && st.finalBalance == st.grossProfit - st.grossLoss
    && st.hard.bets + st.clay.bets + st.grass.bets == st.bets
    && st.hard.wins + st.clay.wins + st.grass.wins == st.wins
    && st.grossProfit >= 0.0 && st.grossLoss >= 0.0
    && st.wins >= 0 && st.losses >= 0 && st.skipped >= 0 && st.parlayLegs >= 0
  }

  lemma SettledIsBalanced(st: Stats, surface: Surface, legs: nat, stake: real, pnl: real)
    requires Balanced(st)
    ensures Balanced(Settled(st, surface, legs, stake, pnl))
  {
  }

  class BacktestStats {
    var finalBalance: real
    var grossProfit: real
    var grossLoss: real
    var totalWagered: real
    var bets: int
    var wins: int
    var losses: int
    var skipped: int
    var parlayLegs: int
    var hard: SurfaceStats
    var clay: SurfaceStats
    var grass: SurfaceStats

    ghost function View(): Stats
      reads this
    {
      Stats(finalBalance, grossProfit, grossLoss, totalWagered, bets, wins, losses, skipped, parlayLegs, hard, clay, grass)
    }

    constructor ()
      ensures View() == NO_STATS
    {
      finalBalance, grossProfit, grossLoss, totalWagered := 0.0, 0.0, 0.0, 0.0;
      bets, wins, losses, skipped, parlayLegs := 0, 0, 0, 0, 0;
      hard, clay, grass := SurfaceStats(0, 0), SurfaceStats(0, 0), SurfaceStats(0, 0);
    }

    method CountSkip()
      modifies this
      ensures View() == old(View()).Skip()
    {
      skipped := skipped + 1;
    }

    method SurfaceStatsOf(surface: Surface) returns (s: SurfaceStats)
      ensures s == View().On(surface)
    {
      match surface {
        case Hard => s := hard;
        case Clay => s := clay;
        case Grass => s := grass;
      }
    }

    method SetSurfaceStats(surface: Surface, s: SurfaceStats)
      modifies this
      ensures View() == old(View()).With(surface, s)
    {
      match surface {
        case Hard => hard := s;
        case Clay => clay := s;
        case Grass => grass := s;
      }
    }

    /** Books one bet: a single has no legs, a parlay its number of legs. */
    method Settle(surface: Surface, legs: nat, stake: real, pnl: real)
      modifies this
      ensures View() == Settled(old(View()), surface, legs, stake, pnl)
    {
      hide Stats.With;
      bets := bets + 1;
      parlayLegs := parlayLegs + legs;
      totalWagered := totalWagered + stake;
      var surf := SurfaceStatsOf(surface);
      surf := surf.(bets := surf.bets + 1);
      finalBalance := finalBalance + pnl;
      if pnl > 0.0 {
        wins := wins + 1;
        surf := surf.(wins := surf.wins + 1);
        grossProfit := grossProfit + pnl;
      } else {
        losses := losses + 1;
        grossLoss := grossLoss + -pnl;
      }
      SetSurfaceStats(surface, surf);
    }
  }

  // The simulated bankroll.

  datatype MoneyManager = MoneyManager(initial: real, risk: RiskConfig)

  /** The balance in millionths that the allocator sees: never negative. */
  function UsdcTotal(initial: real, finalBalance: real): int {
    var available := initial + finalBalance;
    RoundHalfAway((if available < 0.0 then 0.0 else available) * MICRO)
  }

  /** The stake at these odds, or None when the allocator declines. */
  function AllocateStake(mm: MoneyManager, finalBalance: real, odds: real): Option<real>
    requires odds != 0.0
  {
    var price := Div(1.0, odds);
    match Allocation(Some(UsdcTotal(mm.initial, finalBalance)), mm.risk, Buy, price)
    case Err(_) => None
    case Ok(size) => Some(size * price)
  }

  lemma UsdcTotalBounds(initial: real, finalBalance: real)
    ensures UsdcTotal(initial, finalBalance) >= 0
    ensures Available(UsdcTotal(initial, finalBalance)) > 0.0 ==>
              initial + finalBalance > 0.0
    ensures initial + finalBalance > 0.0 ==>
              Available(UsdcTotal(initial, finalBalance)) <= initial + finalBalance + 0.0000005
    ensures initial + finalBalance >= 0.0 ==>
              (initial + finalBalance) * 1000000.0 - 0.5 <= UsdcTotal(initial, finalBalance) as real
              <= (initial + finalBalance) * 1000000.0 + 0.5
    ensures initial + finalBalance <= 0.0 ==> UsdcTotal(initial, finalBalance) == 0
  {
    var available := initial + finalBalance;
    RoundBounds((if available < 0.0 then 0.0 else available) * MICRO);
  }

  /** The slack of a bankroll: half a millionth each for the balance and for the quotient. */
  const SLACK := 0.000001

  /** Below this share price the error of the quotient stays within its half. */
  const PRICE_LIMIT := 10000000000.0

  /** A stake exceeds a positive bankroll by less than a millionth; a bankroll at or below zero gets none. */
  lemma StakeWithinBankroll(mm: MoneyManager, finalBalance: real, odds: real)
    requires odds != 0.0
    ensures var stake := AllocateStake(mm, finalBalance, odds);
            stake.Some? ==>
              && odds > 0.0 && mm.initial + finalBalance > 0.0 && stake.value >= 0.0
              && (Div(1.0, odds) < PRICE_LIMIT ==> stake.value < mm.initial + finalBalance + SLACK)
  {
    hide *;
    var price, raw := Div(1.0, odds), UsdcTotal(mm.initial, finalBalance);
    if AllocateStake(mm, finalBalance, odds).Some? {
      StakeIsPricedSize(mm, finalBalance, odds);
      var size := Allocation(Some(raw), mm.risk, Buy, price).value;
      AllocationSucceeded(raw, mm.risk, price);
      UsdcTotalBounds(mm.initial, finalBalance);
      var budget := Allocated(Available(raw), mm.risk);
      SizeOfAllocation(budget, price);
      PositiveOdds(odds);
      NonNegative(size, price);
      AddSlack(size * price, budget, price, mm.initial + finalBalance);
    }
  }

  lemma AddSlack(stake: real, budget: real, price: real, bankroll: real)
    requires stake <= budget + DIV_ERROR * price && budget <= bankroll + 0.0000005
    ensures price < PRICE_LIMIT ==> stake < bankroll + SLACK
  {
  }

  lemma StakeIsPricedSize(mm: MoneyManager, finalBalance: real, odds: real)
    requires odds != 0.0
    ensures var stake, price := AllocateStake(mm, finalBalance, odds), Div(1.0, odds);
            var size := Allocation(Some(UsdcTotal(mm.initial, finalBalance)), mm.risk, Buy, price);
            if stake.Some? then size.Ok? && stake.value == size.value * price else size.Err?
  {
    hide Div, Allocation, UsdcTotal;
  }

  /**
   When there is a stake and how large: hundredths of shares, no fewer than the minimum, at the price of the odds,
   worth all that may be set aside but for less than a hundredth of a share; none only if that is too little.
   */
  lemma StakeMeaning(mm: MoneyManager, finalBalance: real, odds: real, l: real)
    requires odds != 0.0 && LeastAllowance(UsdcTotal(mm.initial, finalBalance), mm.risk, l)
    ensures var stake, price, raw := AllocateStake(mm, finalBalance, odds), Div(1.0, odds), UsdcTotal(mm.initial, finalBalance);
            && (stake.Some? ==>
                  && (exists size :: Hundredths(size) && size >= mm.risk.minShareSize && stake.value == size * price)
                  && stake.value <= l + DIV_ERROR * price && l - stake.value < (0.01 + DIV_ERROR) * price)
            && (stake.None? && price > 0.0 && raw > 0 && mm.risk.maxPct > 0.0 ==>
                  l - mm.risk.minShareSize * price < (0.01 + DIV_ERROR) * price)
  {
    hide *;
    var price, raw := Div(1.0, odds), UsdcTotal(mm.initial, finalBalance);
    StakeIsPricedSize(mm, finalBalance, odds);
    AllocationMeaning(raw, mm.risk, price, l);
    RefusalMeaning(Some(raw), mm.risk, Buy, price);
    ErrorOfRefused(Allocation(Some(raw), mm.risk, Buy, price));
  }

  lemma ErrorOfRefused(r: Result<real, AllocError>)
    ensures ErrorOf(r) == if r.Ok? then None else Some(r.error)
  {
  }

  lemma PositiveOdds(odds: real)
    requires odds != 0.0
    ensures Div(1.0, odds) > 0.0 ==> odds > 0.0
  {
    if odds < 0.0 {
      NegativeQuotient(odds);
    }
  }

  lemma NegativeQuotient(y: real)
    requires y < 0.0
    ensures Div(1.0, y) <= 0.0
  {
    assert 1.0 / y * y == 1.0;
    assert 1.0 / y < 0.0;
  }

  lemma NonNegative(x: real, y: real)
    requires x >= 0.0 && y >= 0.0
    ensures x * y >= 0.0
  {
  }

  /** Winning never costs more than the stake. */
  lemma WinAboveLoss(stake: real, odds: real)
    requires stake >= 0.0 && odds > 0.0
    ensures stake * (odds - 1.0) >= -stake
  {
    NonNegative(stake, odds);
    assert stake * (odds - 1.0) == stake * odds - stake;
  }

  // One track of a singles walk.

  datatype Config = Config(
    minOdds: real,
    requirePositiveEV: bool,
    fixedStake: real,
    moneyManager: Option<MoneyManager>)

  function OddsAllowed(cfg: Config, odds: real): bool {
    cfg.minOdds <= 0.0 || odds >= cfg.minOdds
  }

  function PositiveEVAllowed(cfg: Config, winProb: real, odds: real): bool {
    !cfg.requirePositiveEV || winProb * odds - 1.0 > 0.0
  }

  /** What a bet returns on average, when its chance is `winProb`. */
  function ExpectedSettlement(odds: real, winProb: real, stake: real): real {
    winProb * SettleBet(SideA, SideA, odds, stake) + (1.0 - winProb) * SettleBet(SideA, SideB, odds, stake)
  }

  /** The filter, when on, admits exactly the bets that are expected to make a profit, whatever the stake. */
  lemma FilterMeansExpectedProfit(cfg: Config, winProb: real, odds: real, stake: real)
    requires stake > 0.0
    ensures PositiveEVAllowed(cfg, winProb, odds) <==>
            (cfg.requirePositiveEV ==> ExpectedSettlement(odds, winProb, stake) > 0.0)
  {
    var edge := winProb * odds - 1.0;
    assert winProb * (stake * (odds - 1.0)) + (1.0 - winProb) * -stake == stake * edge;
    SameSign(stake, edge);
  }

  lemma SameSign(x: real, y: real)
    requires x > 0.0
    ensures x * y > 0.0 <==> y > 0.0
  {
    if y > 0.0 {
      Positive(x, y);
    } else {
      NonNegative(x, -y);
      assert x * -y == -(x * y);
    }
  }

  /** What a strategy makes of a match; the odds of a bet are not zero. */
  datatype Decision = NoBet | Bet(side: BetSide, odds: real, winProb: real)

  datatype Placement = Placement(surface: Surface, decision: Decision)

  predicate ValidPlacement(p: Placement) {
    p.decision.Bet? ==> p.decision.odds != 0.0
  }

  /** What one match leaves in the books. */
  datatype Entry = Skipped | Booked(surface: Surface, legs: nat, stake: real, pnl: real)

  function Apply(st: Stats, e: Entry): Stats {
    match e
    case Skipped => st.Skip()
    case Booked(surface, legs, stake, pnl) => Settled(st, surface, legs, stake, pnl)
  }

  /** The entry of a single; the winner of every row is side A. */
  function EntryOf(cfg: Config, st: Stats, p: Placement): Entry
    requires ValidPlacement(p)
  {
    match p.decision
    case NoBet => Skipped
    case Bet(side, odds, winProb) =>
      if !PositiveEVAllowed(cfg, winProb, odds) || !OddsAllowed(cfg, odds) then Skipped
      else
        match cfg.moneyManager
        case None => Booked(p.surface, 0, cfg.fixedStake, SettleBet(side, SideA, odds, cfg.fixedStake))
        case Some(mm) =>
          match AllocateStake(mm, st.finalBalance, odds)
          case None => Skipped
          case Some(stake) => Booked(p.surface, 0, stake, SettleBet(side, SideA, odds, stake))
  }

  /** The stats after one match. */
  function Step(cfg: Config, st: Stats, p: Placement): Stats
    requires ValidPlacement(p)
  {
    Apply(st, EntryOf(cfg, st, p))
  }

  /**
   A match is bet on exactly when the strategy wants to, the bet is expected to make a profit if that is required,
   the odds reach the minimum if there is one, and the money manager, if any, finds a stake. The bet is settled
   on the match's surface: the return at the odds if the pick won, the stake if it lost.
   */
  lemma BetsWhen(cfg: Config, st: Stats, p: Placement)
    requires ValidPlacement(p)
    ensures var e := EntryOf(cfg, st, p);
            && (e.Booked? <==>
                  && p.decision.Bet?
                  && (cfg.requirePositiveEV ==> ExpectedSettlement(p.decision.odds, p.decision.winProb, 1.0) > 0.0)
                  && (cfg.minOdds > 0.0 ==> p.decision.odds >= cfg.minOdds)
                  && (cfg.moneyManager.Some? ==> AllocateStake(cfg.moneyManager.value, st.finalBalance, p.decision.odds).Some?))
            && (e.Booked? ==>
                  && e.surface == p.surface && e.legs == 0
                  && e.pnl == (if p.decision.side == SideA then e.stake * p.decision.odds else 0.0) - e.stake
                  && (if cfg.moneyManager.Some?
                      then Some(e.stake) == AllocateStake(cfg.moneyManager.value, st.finalBalance, p.decision.odds)
                      else e.stake == cfg.fixedStake))
  {
    hide AllocateStake;
    if p.decision.Bet? {
      FilterMeansExpectedProfit(cfg, p.decision.winProb, p.decision.odds, 1.0);
      hide PositiveEVAllowed, ExpectedSettlement;
      ReturnLessStake(EntryOf(cfg, st, p), p.decision.odds);
    }
  }

  lemma ReturnLessStake(e: Entry, odds: real)
    ensures e.Booked? ==> e.stake * (odds - 1.0) == e.stake * odds - e.stake
  {
  }

  /** The stats after a whole track. */
  function Track(cfg: Config, ps: seq<Placement>): Stats
    requires forall i :: 0 <= i < |ps| ==> ValidPlacement(ps[i])
  {
    if ps == [] then NO_STATS else Step(cfg, Track(cfg, ps[..|ps| - 1]), ps[|ps| - 1])
  }

  lemma ApplyIsBalanced(st: Stats, e: Entry)
    requires Balanced(st)
    ensures Balanced(Apply(st, e))
    ensures Apply(st, e).bets + Apply(st, e).skipped == st.bets + st.skipped + 1
  {
    match e
    case Skipped => SkipIsBalanced(st);
    case Booked(surface, legs, stake, pnl) => SettledIsBalanced(st, surface, legs, stake, pnl);
  }

  lemma SkipIsBalanced(st: Stats)
    requires Balanced(st)
    ensures Balanced(st.Skip())
  {
  }

  lemma TrackStep(cfg: Config, ps: seq<Placement>)
    requires ps != [] && forall i :: 0 <= i < |ps| ==> ValidPlacement(ps[i])
    ensures Track(cfg, ps) == Step(cfg, Track(cfg, ps[..|ps| - 1]), ps[|ps| - 1])
    ensures var st := Track(cfg, ps[..|ps| - 1]);
            Track(cfg, ps) == Apply(st, EntryOf(cfg, st, ps[|ps| - 1]))
  {
    hide Apply, EntryOf;
  }

  lemma EmptyTrack(cfg: Config, ps: seq<Placement>)
    requires ps == []
    ensures Track(cfg, ps) == NO_STATS
  {
    hide Step, AllocateStake;
  }

  lemma NoStatsAreBalanced()
    ensures Balanced(NO_STATS) && NO_STATS.bets == NO_STATS.skipped == 0
  {
  }

  /** The books balance after any track, and every match was either bet on or skipped. */
  lemma {:induction false} TrackIsBalanced(cfg: Config, ps: seq<Placement>)
    requires forall i :: 0 <= i < |ps| ==> ValidPlacement(ps[i])
    ensures Balanced(Track(cfg, ps))
    ensures Track(cfg, ps).bets + Track(cfg, ps).skipped == |ps|
  {
    hide *;
    if ps == [] {
      EmptyTrack(cfg, ps);
      NoStatsAreBalanced();
    } else {
      TrackStep(cfg, ps);
      TrackIsBalanced(cfg, ps[..|ps| - 1]);
      var st := Track(cfg, ps[..|ps| - 1]);
      ApplyIsBalanced(st, EntryOf(cfg, st, ps[|ps| - 1]));
    }
  }

  /** The share price that these odds turn into is below the limit. */
  predicate PriceInRange(p: Placement) {
    p.decision.Bet? ==> p.decision.odds != 0.0 && Div(1.0, p.decision.odds) < PRICE_LIMIT
  }

  lemma StepIsSafe(cfg: Config, mm: MoneyManager, st: Stats, p: Placement)
    requires cfg.moneyManager == Some(mm) && ValidPlacement(p)
    ensures mm.initial + st.finalBalance > 0.0 && PriceInRange(p) ==> mm.initial + Step(cfg, st, p).finalBalance > -SLACK
    ensures mm.initial + st.finalBalance <= 0.0 ==> Step(cfg, st, p) == st.Skip()
  {
    if p.decision.Bet? {
      StakeWithinBankroll(mm, st.finalBalance, p.decision.odds);
      hide AllocateStake, Div;
      SafeStep(cfg, mm, st, p);
    }
  }

  lemma SafeStep(cfg: Config, mm: MoneyManager, st: Stats, p: Placement)
    requires cfg.moneyManager == Some(mm) && ValidPlacement(p) && p.decision.Bet?
    requires var r := AllocateStake(mm, st.finalBalance, p.decision.odds);
             r.Some? ==> p.decision.odds > 0.0 && mm.initial + st.finalBalance > 0.0 && r.value >= 0.0
    ensures var r := AllocateStake(mm, st.finalBalance, p.decision.odds);
            mm.initial + st.finalBalance > 0.0 && (r.Some? ==> r.value < mm.initial + st.finalBalance + SLACK) ==>
              mm.initial + Step(cfg, st, p).finalBalance > -SLACK
    ensures mm.initial + st.finalBalance <= 0.0 ==> Step(cfg, st, p) == st.Skip()
  {
    hide AllocateStake;
    var r, e := AllocateStake(mm, st.finalBalance, p.decision.odds), EntryOf(cfg, st, p);
    if r.Some? {
      WinAboveLoss(r.value, p.decision.odds);
    }
    assert e.Booked? ==> Some(e.stake) == r && e.pnl >= -e.stake;
    hide EntryOf, Settled;
    if e.Booked? {
      SettledBalance(st, e.surface, e.legs, e.stake, e.pnl);
    }
  }

  lemma SettledBalance(st: Stats, surface: Surface, legs: nat, stake: real, pnl: real)
    ensures Settled(st, surface, legs, stake, pnl).finalBalance == st.finalBalance + pnl
  {
  }

  /** Over any track the bankroll never falls a millionth below zero. */
  lemma {:induction false} BankrollIsSafe(cfg: Config, mm: MoneyManager, ps: seq<Placement>)
    requires cfg.moneyManager == Some(mm) && mm.initial > 0.0
    requires forall i :: 0 <= i < |ps| ==> ValidPlacement(ps[i]) && PriceInRange(ps[i])
    ensures mm.initial + Track(cfg, ps).finalBalance > -SLACK
  {
    if ps != [] {
      BankrollIsSafe(cfg, mm, ps[..|ps| - 1]);
      StepIsSafe(cfg, mm, Track(cfg, ps[..|ps| - 1]), ps[|ps| - 1]);
    }
  }

  /** Once the bankroll is not positive, the rest of the track places no bet. */
  lemma {:induction false} BrokeForGood(cfg: Config, mm: MoneyManager, ps: seq<Placement>, k: nat)
    requires cfg.moneyManager == Some(mm) && k <= |ps|
    requires forall i :: 0 <= i < |ps| ==> ValidPlacement(ps[i])
    requires mm.initial + Track(cfg, ps[..k]).finalBalance <= 0.0
    ensures Track(cfg, ps) == Track(cfg, ps[..k]).(skipped := Track(cfg, ps[..k]).skipped + |ps| - k)
  {
    if k == |ps| {
      assert ps[..k] == ps;
    } else {
      assert ps[..|ps| - 1][..k] == ps[..k];
      BrokeForGood(cfg, mm, ps[..|ps| - 1], k);
      StepIsSafe(cfg, mm, Track(cfg, ps[..|ps| - 1]), ps[|ps| - 1]);
    }
  }
}
