/** The singles walk: three tracks over the same matches, each with its own bankroll. */
module Singles {
  import opened Wrappers
  import opened Backtest

  /** What simulating and deciding gives for one side of the walk. */
  datatype Simulated = SimFailed | Decided(decision: Decision)

  /** A match with everything the walk asks about it. */
  datatype Row = Row(
    surface: Surface,
    ratesKnown: bool,
    sim: Simulated,
    favorite: Option<(BetSide, real)>,
    favoriteWinProb: real,
    formRatesKnown: bool,
    form: Simulated)

  function SimPlacement(row: Row): Placement {
    Placement(row.surface, if row.ratesKnown && row.sim.Decided? then row.sim.decision else NoBet)
  }

  /** The favorite track bets exactly when the sim track wants to, on the shorter odds. */
  function FavoritePlacement(row: Row): Placement {
    Placement(row.surface,
              if SimPlacement(row).decision.Bet? && row.favorite.Some?
              then Bet(row.favorite.value.0, row.favorite.value.1, row.favoriteWinProb) else NoBet)
  }

  function FormPlacement(row: Row): Placement {
    Placement(row.surface, if row.ratesKnown && row.formRatesKnown && row.form.Decided? then row.form.decision else NoBet)
  }

  /** The walk stops at a failed simulation, or at a bet without valid favorite odds. */
  predicate Fails(row: Row) {
    && row.ratesKnown
    && (|| row.sim.SimFailed?
        || (row.sim.decision.Bet? && row.favorite.None?)
        || (row.formRatesKnown && row.form.SimFailed?))
  }

  /** The walk goes on exactly if each simulation there are rates for succeeds, and a sim bet finds favorite odds. */
  lemma GoesOnWhen(row: Row)
    ensures !Fails(row) <==> row.ratesKnown ==>
              && (exists d :: row.sim == Decided(d) && (d.Bet? ==> row.favorite != None))
              && (row.formRatesKnown ==> exists d :: row.form == Decided(d))
  {
    assert row.sim.Decided? ==> row.sim == Decided(row.sim.decision);
    assert row.form.Decided? ==> row.form == Decided(row.form.decision);
  }

  /**
   On a match that does not stop the walk the sim and favorite tracks both bet or both do not, each on its own
   side and odds; a form bet needs the form rates as well; without rates nobody bets.
   */
  lemma PlacementsMeaning(row: Row, side: BetSide, odds: real, winProb: real)
    requires !Fails(row)
    ensures SimPlacement(row).surface == FavoritePlacement(row).surface == FormPlacement(row).surface == row.surface
    ensures SimPlacement(row).decision.Bet? <==> FavoritePlacement(row).decision.Bet?
    ensures SimPlacement(row).decision == Bet(side, odds, winProb) <==>
            row.ratesKnown && row.sim == Decided(Bet(side, odds, winProb))
    ensures FavoritePlacement(row).decision == Bet(side, odds, winProb) <==>
            && row.ratesKnown && (exists d: Decision :: d.Bet? && row.sim == Decided(d))
            && row.favorite == Some((side, odds)) && winProb == row.favoriteWinProb
    ensures FormPlacement(row).decision == Bet(side, odds, winProb) <==>
            row.ratesKnown && row.formRatesKnown && row.form == Decided(Bet(side, odds, winProb))
  {
    assert row.sim.Decided? ==> row.sim == Decided(row.sim.decision);
  }

  function Placements(rows: seq<Row>, f: Row -> Placement): (ps: seq<Placement>)
    ensures |ps| == |rows|
  {
    seq(|rows|, i requires 0 <= i < |rows| => f(rows[i]))
  }

  predicate ValidRow(row: Row) {
    ValidPlacement(SimPlacement(row)) && ValidPlacement(FavoritePlacement(row)) && ValidPlacement(FormPlacement(row))
  }

  predicate ValidRows(rows: seq<Row>) {
    forall i :: 0 <= i < |rows| ==> ValidRow(rows[i])
  }

  /** One match on one track. */
  method TryPlace(cfg: Config, stats: BacktestStats, p: Placement)
    requires ValidPlacement(p)
    modifies stats
    ensures stats.View() == Step(cfg, old(stats.View()), p)
  {
    if p.decision.NoBet? {
      stats.CountSkip();
      return;
    }
    var Bet(side, odds, winProb) := p.decision;
    if !PositiveEVAllowed(cfg, winProb, odds) {
      stats.CountSkip();
      return;
    }
    if !OddsAllowed(cfg, odds) {
      stats.CountSkip();
      return;
    }
    var stake := cfg.fixedStake;
    if cfg.moneyManager.Some? {
      var allocation := AllocateStake(cfg.moneyManager.value, stats.finalBalance, odds);
      if allocation.None? {
        stats.CountSkip();
        return;
      }
      stake := allocation.value;
    }
    stats.Settle(p.surface, 0, stake, SettleBet(side, SideA, odds, stake));
  }

  lemma TrackTakes(cfg: Config, rows: seq<Row>, f: Row -> Placement, i: nat)
    requires i < |rows| && forall k :: 0 <= k < |rows| ==> ValidPlacement(f(rows[k]))
    ensures Track(cfg, Placements(rows, f)[..i + 1]) == Step(cfg, Track(cfg, Placements(rows, f)[..i]), f(rows[i]))
  {
    var ps := Placements(rows, f);
    TrackStep(cfg, ps[..i + 1]);
    assert ps[..i + 1][..i] == ps[..i];
  }

  /** One match of the walk: each track takes its own step. */
  method WalkRow(cfg: Config, row: Row, sim: BacktestStats, favorite: BacktestStats, form: BacktestStats) returns (failed: bool)
    requires ValidRow(row) && sim != favorite && favorite != form && form != sim
    modifies sim, favorite, form
    ensures failed == Fails(row)
    ensures !failed ==>
              && sim.View() == Step(cfg, old(sim.View()), SimPlacement(row))
              && favorite.View() == Step(cfg, old(favorite.View()), FavoritePlacement(row))
              && form.View() == Step(cfg, old(form.View()), FormPlacement(row))
  {
    hide Step, ValidPlacement;
    if row.ratesKnown && row.sim.SimFailed? {
      return true;
    }
    TryPlace(cfg, sim, SimPlacement(row));
    if row.ratesKnown && row.sim.decision.Bet? && row.favorite.None? {
      return true;
    }
    TryPlace(cfg, favorite, FavoritePlacement(row));
    if row.ratesKnown && row.formRatesKnown && row.form.SimFailed? {
      return true;
    }
    TryPlace(cfg, form, FormPlacement(row));
    return false;
  }

  /** Every track is the walk over its own placements, or the walk stops at the first failing match. */
  method WalkSingles(cfg: Config, rows: seq<Row>) returns (failed: bool, sim: BacktestStats, favorite: BacktestStats, form: BacktestStats)
    requires ValidRows(rows)
    ensures failed <==> exists i :: 0 <= i < |rows| && Fails(rows[i])
    ensures !failed ==>
              && sim.View() == Track(cfg, Placements(rows, SimPlacement))
              && favorite.View() == Track(cfg, Placements(rows, FavoritePlacement))
              && form.View() == Track(cfg, Placements(rows, FormPlacement))
    ensures !failed ==>
              && Balanced(sim.View()) && Balanced(favorite.View()) && Balanced(form.View())
              && sim.bets + sim.skipped == favorite.bets + favorite.skipped == form.bets + form.skipped == |rows|
  {
    hide Step, EntryOf, Apply, Track, Balanced, ValidPlacement, Fails, SimPlacement, FavoritePlacement, FormPlacement;
    sim := new BacktestStats();
    favorite := new BacktestStats();
    form := new BacktestStats();
    ghost var ps, qs, rs := Placements(rows, SimPlacement), Placements(rows, FavoritePlacement), Placements(rows, FormPlacement);
    EmptyTrack(cfg, ps[..0]);
    EmptyTrack(cfg, qs[..0]);
    EmptyTrack(cfg, rs[..0]);
    for i := 0 to |rows|
      invariant fresh(sim) && fresh(favorite) && fresh(form) && sim != favorite && favorite != form && form != sim
      invariant forall k :: 0 <= k < i ==> !Fails(rows[k])
      invariant sim.View() == Track(cfg, ps[..i])
      invariant favorite.View() == Track(cfg, qs[..i])
      invariant form.View() == Track(cfg, rs[..i])
    {
      var row := rows[i];
      assert ValidRow(row);
      TrackTakes(cfg, rows, SimPlacement, i);
      TrackTakes(cfg, rows, FavoritePlacement, i);
      TrackTakes(cfg, rows, FormPlacement, i);
      failed := WalkRow(cfg, row, sim, favorite, form);
      if failed {
        return;
      }
    }
    assert ps[..|rows|] == ps && qs[..|rows|] == qs && rs[..|rows|] == rs;
    TrackIsBalanced(cfg, ps);
    TrackIsBalanced(cfg, qs);
    TrackIsBalanced(cfg, rs);
    return false, sim, favorite, form;
  }
}
