/** Greedy parlay windows: how they are chosen, and the walk that places them. */
module Parlay {
  import opened Wrappers
  import opened Decimals
  import opened Backtest
  import opened Ledger

  datatype MatchKey = MatchKey(tourneyID: string, tourneyDate: int, matchNum: int)

  datatype MatchRow = MatchRow(key: MatchKey, surface: Surface)

  datatype ParlayLeg = ParlayLeg(row: MatchRow, pick: BetSide, odds: real, winProb: real, winner: BetSide)

  /** What building the leg of a match gives: no leg without rates or usable odds. */
  datatype Built = Leg(leg: ParlayLeg) | NoLeg | Broken

  /** Leg building, fixed per match. */
  type Builder = MatchRow -> Built

  predicate DistinctKeys(rows: seq<MatchRow>) {
    forall i, j :: 0 <= i < j < |rows| ==> rows[i].key != rows[j].key
  }

  // What a window is.

  /** Each of the k matches from `anchor` on has a leg. */
  predicate Evaluable(build: Builder, rows: seq<MatchRow>, anchor: nat, k: nat) {
    anchor + k <= |rows| && forall i :: anchor <= i < anchor + k ==> build(rows[i]).Leg?
  }

  function Legs(build: Builder, rows: seq<MatchRow>, anchor: nat, k: nat): (legs: seq<ParlayLeg>)
    requires Evaluable(build, rows, anchor, k)
    ensures |legs| == k && forall j :: 0 <= j < k ==> legs[j] == build(rows[anchor + j]).leg
  {
    seq(k, j requires 0 <= j < k => build(rows[anchor + j]).leg)
  }

  function ProbProduct(legs: seq<ParlayLeg>): real {
    if legs == [] then 1.0 else ProbProduct(legs[..|legs| - 1]) * legs[|legs| - 1].winProb
  }

  function OddsProduct(legs: seq<ParlayLeg>): real {
    if legs == [] then 1.0 else OddsProduct(legs[..|legs| - 1]) * legs[|legs| - 1].odds
  }

  /** The window of k matches is evaluable and its combined expected value passes. */
  predicate Passes(cfg: Config, build: Builder, rows: seq<MatchRow>, anchor: nat, k: nat) {
    && Evaluable(build, rows, anchor, k)
    && PositiveEVAllowed(cfg, ProbProduct(Legs(build, rows, anchor, k)), OddsProduct(Legs(build, rows, anchor, k)))
  }

  /** The matches from `anchor` on lead to a failed build before one without a leg. */
  predicate BreaksWithin(build: Builder, rows: seq<MatchRow>, anchor: nat, k: nat) {
    exists i :: anchor <= i < anchor + k && i < |rows| && Evaluable(build, rows, anchor, i - anchor) && build(rows[i]).Broken?
  }

  /** The largest passing window of at most k matches, or 0. */
  function Largest(cfg: Config, build: Builder, rows: seq<MatchRow>, anchor: nat, k: nat): (size: nat)
    ensures size <= k
    ensures size > 0 ==> Passes(cfg, build, rows, anchor, size)
    ensures forall k' :: size < k' <= k ==> !Passes(cfg, build, rows, anchor, k')
  {
    if k == 0 then 0
    else if Passes(cfg, build, rows, anchor, k) then k
    else Largest(cfg, build, rows, anchor, k - 1)
  }

  /** The largest window to try: none when the limit is below one. */
  function Limit(maxParlay: int, remaining: nat): nat {
    if maxParlay < 1 then 0 else if remaining < maxParlay then remaining else maxParlay
  }

  /** The size of the window chosen at `anchor`. */
  function WindowAt(cfg: Config, maxParlay: int, build: Builder, rows: seq<MatchRow>, anchor: nat): nat
    requires anchor <= |rows|
  {
    Largest(cfg, build, rows, anchor, Limit(maxParlay, |rows| - anchor))
  }

  lemma {:induction false} ProbProductJoin(a: seq<ParlayLeg>, b: seq<ParlayLeg>)
    ensures ProbProduct(a + b) == ProbProduct(a) * ProbProduct(b)
    decreases |b|
  {
    if b == [] {
      assert a + b == a;
    } else {
      var n := |b| - 1;
      ProbProductJoin(a, b[..n]);
      assert (a + b)[..|a + b| - 1] == a + b[..n];
      assert ProbProduct(a) * ProbProduct(b[..n]) * b[n].winProb == ProbProduct(a) * (ProbProduct(b[..n]) * b[n].winProb);
    }
  }

  /** The chance of a parlay is that of its legs together: one leg's own, and the product over any split. */
  lemma ParlayChance(leg: ParlayLeg, a: seq<ParlayLeg>, b: seq<ParlayLeg>)
    ensures ProbProduct([leg]) == leg.winProb && OddsProduct([leg]) == leg.odds
    ensures ProbProduct(a + b) == ProbProduct(a) * ProbProduct(b)
  {
    assert [leg][..0] == [];
    ProbProductJoin(a, b);
  }

  predicate Eligible(cfg: Config, maxParlay: int, build: Builder, rows: seq<MatchRow>, anchor: nat, k: nat) {
    && k <= maxParlay && anchor + k <= |rows|
    && (forall i :: anchor <= i < anchor + k ==> build(rows[i]).Leg?)
    && var legs := Legs(build, rows, anchor, k);
       cfg.requirePositiveEV ==> ExpectedSettlement(OddsProduct(legs), ProbProduct(legs), 1.0) > 0.0
  }

  lemma EligiblePasses(cfg: Config, maxParlay: int, build: Builder, rows: seq<MatchRow>, anchor: nat, k: nat)
    requires anchor < |rows| && k >= 1
    ensures Eligible(cfg, maxParlay, build, rows, anchor, k) <==>
            k <= Limit(maxParlay, |rows| - anchor) && Passes(cfg, build, rows, anchor, k)
  {
    if Evaluable(build, rows, anchor, k) {
      var legs := Legs(build, rows, anchor, k);
      FilterMeansExpectedProfit(cfg, ProbProduct(legs), OddsProduct(legs), 1.0);
      hide ProbProduct, OddsProduct, PositiveEVAllowed, ExpectedSettlement;
    }
  }

  /**
   The chosen window: at least one match, within the limit and the rows, every match with a leg, the parlay expected
   to make a profit if that is required, and no larger window like that.
   */
  lemma ChosenWindow(cfg: Config, maxParlay: int, build: Builder, rows: seq<MatchRow>, anchor: nat, k: nat)
    requires anchor < |rows| && k >= 1
    ensures WindowAt(cfg, maxParlay, build, rows, anchor) == k <==>
            && Eligible(cfg, maxParlay, build, rows, anchor, k)
            && forall k': nat :: k' > k ==> !Eligible(cfg, maxParlay, build, rows, anchor, k')
  {
    var limit, size := Limit(maxParlay, |rows| - anchor), WindowAt(cfg, maxParlay, build, rows, anchor);
    forall k': nat | k' >= 1
      ensures Eligible(cfg, maxParlay, build, rows, anchor, k') <==> k' <= limit && Passes(cfg, build, rows, anchor, k')
    {
      EligiblePasses(cfg, maxParlay, build, rows, anchor, k');
    }
    hide Eligible, Passes;
    if size < k {
      assert Eligible(cfg, maxParlay, build, rows, anchor, k) ==> k <= limit && !Passes(cfg, build, rows, anchor, k);
    } else if size > k {
      assert Eligible(cfg, maxParlay, build, rows, anchor, size);
    }
  }

  // Choosing a window.

  class EvalDeps {
    const build: Builder
    var cache: map<MatchKey, ParlayLeg>

    constructor (build: Builder)
      ensures this.build == build && cache == map[]
    {
      this.build, cache := build, map[];
    }

    /** Cached legs are what building them again would give. */
    ghost predicate Valid(rows: seq<MatchRow>)
      reads this
    {
      forall i :: 0 <= i < |rows| && rows[i].key in cache ==> build(rows[i]) == Leg(cache[rows[i].key])
    }

    method EvalLeg(rows: seq<MatchRow>, i: nat) returns (r: Built)
      requires i < |rows| && DistinctKeys(rows) && Valid(rows)
      modifies this
      ensures r == build(rows[i]) && Valid(rows)
    {
      var key := rows[i].key;
      if key in cache {
        return Leg(cache[key]);
      }
      r := build(rows[i]);
      if r.Leg? {
        cache := cache[key := r.leg];
      }
    }

    /** The legs of a window, or the first reason why there are none. */
    method BuildParlayLegs(anchor: nat, k: nat, rows: seq<MatchRow>) returns (legs: seq<ParlayLeg>, built: bool, broken: bool)
      requires anchor + k <= |rows| && DistinctKeys(rows) && Valid(rows)
      modifies this
      ensures Valid(rows)
      ensures built <==> Evaluable(build, rows, anchor, k)
      ensures built ==> legs == Legs(build, rows, anchor, k)
      ensures broken <==> BreaksWithin(build, rows, anchor, k)
    {
      legs := [];
      for j := 0 to k
        invariant Valid(rows) && Evaluable(build, rows, anchor, j) && legs == Legs(build, rows, anchor, j)
      {
        var r := EvalLeg(rows, anchor + j);
        if r.Broken? {
          return [], false, true;
        }
        if r.NoLeg? {
          return [], false, false;
        }
        legs := legs + [r.leg];
      }
      return legs, true, false;
    }

    /** Whether the window of k matches passes, and its legs if so. */
    method TryWindow(cfg: Config, anchor: nat, k: nat, rows: seq<MatchRow>) returns (legs: seq<ParlayLeg>, ok: bool, broken: bool)
      requires k >= 1 && anchor + k <= |rows| && DistinctKeys(rows) && Valid(rows)
      modifies this
      ensures Valid(rows)
      ensures broken <==> BreaksWithin(build, rows, anchor, k)
      ensures !broken ==> (ok <==> Passes(cfg, build, rows, anchor, k))
      ensures !broken && ok ==> Evaluable(build, rows, anchor, k) && legs == Legs(build, rows, anchor, k)
    {
      hide OddsProduct, ProbProduct, PositiveEVAllowed, DistinctKeys;
      var built, bad;
      legs, built, bad := BuildParlayLegs(anchor, k, rows);
      if bad || !built {
        return [], false, bad;
      }
      var p, odds := CombinedParlayProbOdds(legs);
      return legs, PositiveEVAllowed(cfg, p, odds), false;
    }

    /** The largest window that passes; a failed build on the way to the limit stops the search. */
    method SelectParlayWindow(cfg: Config, maxParlay: int, anchor: nat, rows: seq<MatchRow>)
      returns (legs: seq<ParlayLeg>, size: nat, broken: bool)
      requires anchor <= |rows| && DistinctKeys(rows) && Valid(rows)
      modifies this
      ensures Valid(rows)
      ensures broken <==> BreaksWithin(build, rows, anchor, Limit(maxParlay, |rows| - anchor))
      ensures !broken ==> size == WindowAt(cfg, maxParlay, build, rows, anchor)
      ensures !broken && size > 0 ==> Evaluable(build, rows, anchor, size) && legs == Legs(build, rows, anchor, size)
    {
      if maxParlay < 1 {
        return [], 0, false;
      }
      var k := maxParlay;
      if |rows| - anchor < k {
        k := |rows| - anchor;
      }
      ghost var maxK := k;
      hide Passes, Evaluable, Legs;
      while k >= 1
        invariant Valid(rows) && 0 <= k <= maxK
        invariant k < maxK ==> !BreaksWithin(build, rows, anchor, maxK)
        invariant Largest(cfg, build, rows, anchor, maxK) == Largest(cfg, build, rows, anchor, k)
      {
        var window, ok, bad := TryWindow(cfg, anchor, k, rows);
        if bad {
          return [], 0, true;
        }
        if ok {
          return window, k, false;
        }
        k := k - 1;
      }
      return [], 0, false;
    }
  }

  method CombinedParlayProbOdds(legs: seq<ParlayLeg>) returns (winProb: real, odds: real)
    ensures legs == [] ==> winProb == odds == 0.0
    ensures legs != [] ==> winProb == ProbProduct(legs) && odds == OddsProduct(legs)
  {
    if |legs| == 0 {
      return 0.0, 0.0;
    }
    winProb, odds := 1.0, 1.0;
    for i := 0 to |legs|
      invariant winProb == ProbProduct(legs[..i]) && odds == OddsProduct(legs[..i])
    {
      assert legs[..i + 1][..i] == legs[..i];
      winProb := winProb * legs[i].winProb;
      odds := odds * legs[i].odds;
    }
    assert legs[..|legs|] == legs;
  }

  predicate ParlayWins(legs: seq<ParlayLeg>) {
    |legs| > 0 && forall i :: 0 <= i < |legs| ==> legs[i].pick == legs[i].winner
  }

  function SettleParlay(legs: seq<ParlayLeg>, stake: real): real {
    if ParlayWins(legs) then stake * (OddsProduct(legs) - 1.0) else -stake
  }

  /** What is left of a stake that is put on the legs one after another, winnings and all. */
  function RolledOver(legs: seq<ParlayLeg>, stake: real): real {
    if legs == [] then stake
    else
      var leg, before := legs[|legs| - 1], RolledOver(legs[..|legs| - 1], stake);
      if leg.pick == leg.winner then before * leg.odds else 0.0
  }

  lemma {:induction false} RollingOver(legs: seq<ParlayLeg>, stake: real)
    ensures RolledOver(legs, stake) ==
            if forall i :: 0 <= i < |legs| ==> legs[i].pick == legs[i].winner then stake * OddsProduct(legs) else 0.0
  {
    if legs != [] {
      var n := |legs| - 1;
      RollingOver(legs[..n], stake);
      if forall i :: 0 <= i < n ==> legs[..n][i].pick == legs[..n][i].winner {
        assert stake * OddsProduct(legs[..n]) * legs[n].odds == stake * (OddsProduct(legs[..n]) * legs[n].odds);
      }
    }
  }

  /** A parlay pays what betting on its legs in turn would, everything staked anew each time; one without legs is lost. */
  lemma ParlayRollsOver(legs: seq<ParlayLeg>, stake: real)
    ensures SettleParlay(legs, stake) == (if legs == [] then 0.0 else RolledOver(legs, stake)) - stake
  {
    RollingOver(legs, stake);
  }

  // The walk.

  /** Every leg has positive odds. */
  predicate PositiveOddsLegs(build: Builder, rows: seq<MatchRow>) {
    forall i :: 0 <= i < |rows| && build(rows[i]).Leg? ==> build(rows[i]).leg.odds > 0.0
  }

  lemma {:induction false} ProductIsPositive(legs: seq<ParlayLeg>)
    requires forall i :: 0 <= i < |legs| ==> legs[i].odds > 0.0
    ensures OddsProduct(legs) > 0.0
  {
    if legs != [] {
      ProductIsPositive(legs[..|legs| - 1]);
    }
  }

  lemma LegsHavePositiveOdds(build: Builder, rows: seq<MatchRow>, anchor: nat, k: nat)
    requires PositiveOddsLegs(build, rows) && Evaluable(build, rows, anchor, k)
    ensures OddsProduct(Legs(build, rows, anchor, k)) > 0.0
  {
    ProductIsPositive(Legs(build, rows, anchor, k));
  }

  /** An allocator divides by the odds. */
  predicate Stakable(cfg: Config, legs: seq<ParlayLeg>) {
    cfg.moneyManager.Some? ==> OddsProduct(legs) != 0.0
  }

  /** The stake of a parlay, or None when the allocator declines. */
  function ParlayStake(cfg: Config, st: Stats, legs: seq<ParlayLeg>): Option<real>
    requires Stakable(cfg, legs)
  {
    match cfg.moneyManager
    case None => Some(cfg.fixedStake)
    case Some(mm) => AllocateStake(mm, st.finalBalance, OddsProduct(legs))
  }

  /** The entry of a chosen window: settled on the first leg's surface, or skipped. */
  function WindowEntry(cfg: Config, st: Stats, legs: seq<ParlayLeg>): Entry
    requires legs != [] && Stakable(cfg, legs)
  {
    match ParlayStake(cfg, st, legs)
    case None => Skipped
    case Some(stake) => Booked(legs[0].row.surface, |legs|, stake, SettleParlay(legs, stake))
  }

  /** The stats after a chosen window. */
  function AfterWindow(cfg: Config, st: Stats, legs: seq<ParlayLeg>): Stats
    requires Stakable(cfg, legs)
  {
    if legs == [] then st else Apply(st, WindowEntry(cfg, st, legs))
  }

  /** A window is declined only by the money manager; else it is one bet of all its legs, rolled over. */
  lemma WindowBooked(cfg: Config, st: Stats, legs: seq<ParlayLeg>)
    requires legs != [] && Stakable(cfg, legs)
    ensures var e := WindowEntry(cfg, st, legs);
            && (e.Booked? <==> cfg.moneyManager.Some? ==>
                  AllocateStake(cfg.moneyManager.value, st.finalBalance, OddsProduct(legs)).Some?)
            && (e.Booked? ==>
                  && e.surface == legs[0].row.surface && e.legs == |legs|
                  && e.pnl == RolledOver(legs, e.stake) - e.stake
                  && (if cfg.moneyManager.Some?
                      then Some(e.stake) == AllocateStake(cfg.moneyManager.value, st.finalBalance, OddsProduct(legs))
                      else e.stake == cfg.fixedStake))
  {
    hide AllocateStake, SettleParlay, RolledOver, OddsProduct;
    var e := WindowEntry(cfg, st, legs);
    if e.Booked? {
      ParlayRollsOver(legs, e.stake);
    }
  }

  /** What the walk did with a stretch of matches. */
  datatype Segment = Placed(start: nat, size: nat) | Rejected(start: nat, size: nat) | Passed(start: nat)
  {
    function End(): nat {
      match this
      case Placed(start, size) => start + size
      case Rejected(start, size) => start + size
      case Passed(start) => start + 1
    }
  }

  method PlaceParlay(cfg: Config, legs: seq<ParlayLeg>, stats: BacktestStats)
    requires Stakable(cfg, legs)
    modifies stats
    ensures stats.View() == AfterWindow(cfg, old(stats.View()), legs)
  {
    if |legs| == 0 {
      return;
    }
    var p, odds := CombinedParlayProbOdds(legs);
    var stake := cfg.fixedStake;
    if cfg.moneyManager.Some? {
      var allocation := AllocateStake(cfg.moneyManager.value, stats.finalBalance, odds);
      if allocation.None? {
        stats.CountSkip();
        return;
      }
      stake := allocation.value;
    }
    stats.Settle(legs[0].row.surface, |legs|, stake, SettleParlay(legs, stake));
  }

  /** What the walk does at match i, and the stats after it. */
  function WalkMove(cfg: Config, maxParlay: int, build: Builder, rows: seq<MatchRow>, i: nat, st: Stats): (r: (Segment, Stats))
    requires i < |rows| && PositiveOddsLegs(build, rows)
    ensures r.0.start == i < r.0.End() <= |rows|
  {
    var k := WindowAt(cfg, maxParlay, build, rows, i);
    if k == 0 then (Passed(i), st.Skip())
    else
      var legs := Legs(build, rows, i, k);
      LegsHavePositiveOdds(build, rows, i, k);
      (if ParlayStake(cfg, st, legs).Some? then Placed(i, k) else Rejected(i, k), AfterWindow(cfg, st, legs))
  }

  /** The walk from match i on: the final stats and the stretches, in order. */
  function Walk(cfg: Config, maxParlay: int, build: Builder, rows: seq<MatchRow>, i: nat, st: Stats): (Stats, seq<Segment>)
    requires i <= |rows| && PositiveOddsLegs(build, rows)
    decreases |rows| - i
  {
    if i == |rows| then (st, [])
    else
      var (s, st') := WalkMove(cfg, maxParlay, build, rows, i, st);
      var (end, rest) := Walk(cfg, maxParlay, build, rows, s.End(), st');
      (end, [s] + rest)
  }

  /** What each stretch of the walk leaves in the books. */
  function WalkEntries(cfg: Config, maxParlay: int, build: Builder, rows: seq<MatchRow>, i: nat, st: Stats): seq<Entry>
    requires i <= |rows| && PositiveOddsLegs(build, rows)
    decreases |rows| - i
  {
    if i == |rows| then []
    else
      var (s, st') := WalkMove(cfg, maxParlay, build, rows, i, st);
      [MoveEntry(cfg, maxParlay, build, rows, i, st)] + WalkEntries(cfg, maxParlay, build, rows, s.End(), st')
  }

  /** A match without a window is skipped. */
  function MoveEntry(cfg: Config, maxParlay: int, build: Builder, rows: seq<MatchRow>, i: nat, st: Stats): Entry
    requires i < |rows| && PositiveOddsLegs(build, rows)
  {
    var k := WindowAt(cfg, maxParlay, build, rows, i);
    if k == 0 then Skipped
    else
      LegsHavePositiveOdds(build, rows, i, k);
      WindowEntry(cfg, st, Legs(build, rows, i, k))
  }

  lemma MoveEnters(cfg: Config, maxParlay: int, build: Builder, rows: seq<MatchRow>, i: nat, st: Stats)
    requires i < |rows| && PositiveOddsLegs(build, rows)
    ensures var (s, st') := WalkMove(cfg, maxParlay, build, rows, i, st);
            && st' == Apply(st, MoveEntry(cfg, maxParlay, build, rows, i, st))
            && (s.Placed? <==> MoveEntry(cfg, maxParlay, build, rows, i, st).Booked?)
  {
    hide Settled, ParlayStake, SettleParlay;
    if WindowAt(cfg, maxParlay, build, rows, i) > 0 {
      LegsHavePositiveOdds(build, rows, i, WindowAt(cfg, maxParlay, build, rows, i));
    }
  }

  lemma {:induction false} WalkEnters(cfg: Config, maxParlay: int, build: Builder, rows: seq<MatchRow>, i: nat, st: Stats)
    requires i <= |rows| && PositiveOddsLegs(build, rows)
    ensures var (end, segments) := Walk(cfg, maxParlay, build, rows, i, st);
            var es := WalkEntries(cfg, maxParlay, build, rows, i, st);
            && end == EnterAll(st, es) && |es| == |segments|
            && forall j :: 0 <= j < |es| ==> (es[j].Booked? <==> segments[j].Placed?)
    decreases |rows| - i
  {
    if i < |rows| {
      hide WalkMove, MoveEntry, Apply;
      var (s, st') := WalkMove(cfg, maxParlay, build, rows, i, st);
      var rest := WalkEntries(cfg, maxParlay, build, rows, s.End(), st');
      MoveEnters(cfg, maxParlay, build, rows, i, st);
      WalkEnters(cfg, maxParlay, build, rows, s.End(), st');
      EnterFirst(st, MoveEntry(cfg, maxParlay, build, rows, i, st), rest);
    }
  }

  /** The stats of a whole walk are the totals of one entry for each stretch, a bet for each window placed. */
  lemma WalkIsTotals(cfg: Config, maxParlay: int, build: Builder, rows: seq<MatchRow>)
    requires PositiveOddsLegs(build, rows)
    ensures var (end, segments) := Walk(cfg, maxParlay, build, rows, 0, NO_STATS);
            var es := WalkEntries(cfg, maxParlay, build, rows, 0, NO_STATS);
            && Totals(end, es) && |es| == |segments|
            && forall j :: 0 <= j < |es| ==> (es[j].Booked? <==> segments[j].Placed?)
  {
    hide *;
    WalkEnters(cfg, maxParlay, build, rows, 0, NO_STATS);
    BooksAreTotals(WalkEntries(cfg, maxParlay, build, rows, 0, NO_STATS));
  }

  lemma MoveMeaning(cfg: Config, maxParlay: int, build: Builder, rows: seq<MatchRow>, i: nat, st: Stats)
    requires i < |rows| && PositiveOddsLegs(build, rows)
    ensures var k, (s, st') := WindowAt(cfg, maxParlay, build, rows, i), WalkMove(cfg, maxParlay, build, rows, i, st);
            if k == 0 then s.End() == i + 1 && st' == st.Skip()
            else
              && Evaluable(build, rows, i, k) && Stakable(cfg, Legs(build, rows, i, k))
              && s.End() == i + k && st' == AfterWindow(cfg, st, Legs(build, rows, i, k))
  {
    hide AfterWindow, ParlayStake;
    if WindowAt(cfg, maxParlay, build, rows, i) > 0 {
      LegsHavePositiveOdds(build, rows, i, WindowAt(cfg, maxParlay, build, rows, i));
    }
  }

  /** A failed build stops the walk at match i: the search looks at the limit's matches, or at least at one. */
  predicate BreaksAt(maxParlay: int, build: Builder, rows: seq<MatchRow>, i: nat)
    requires i < |rows|
  {
    BreaksWithin(build, rows, i, if maxParlay < 1 then 1 else Limit(maxParlay, |rows| - i))
  }

  lemma BreaksHere(maxParlay: int, build: Builder, rows: seq<MatchRow>, i: nat)
    requires i < |rows|
    ensures build(rows[i]).Broken? ==> BreaksAt(maxParlay, build, rows, i)
    ensures BreaksAt(maxParlay, build, rows, i) <==>
            || BreaksWithin(build, rows, i, Limit(maxParlay, |rows| - i))
            || (maxParlay < 1 && build(rows[i]).Broken?)
  {
    assert Evaluable(build, rows, i, 0);
  }

  /** One round of the walk: a window is placed or declined, or the match is skipped. */
  method WalkOnce(cfg: Config, maxParlay: int, deps: EvalDeps, rows: seq<MatchRow>, i: nat, stats: BacktestStats)
    returns (broken: bool, next: nat)
    requires i < |rows| && DistinctKeys(rows) && PositiveOddsLegs(deps.build, rows) && deps.Valid(rows)
    modifies deps, stats
    ensures deps.Valid(rows)
    ensures broken <==> BreaksAt(maxParlay, deps.build, rows, i)
    ensures !broken ==>
              var (s, st') := WalkMove(cfg, maxParlay, deps.build, rows, i, old(stats.View()));
              next == s.End() && stats.View() == st'
  {
    var build := deps.build;
    MoveMeaning(cfg, maxParlay, build, rows, i, stats.View());
    BreaksHere(maxParlay, build, rows, i);
    hide *;
    var legs, size, bad := deps.SelectParlayWindow(cfg, maxParlay, i, rows);
    if bad {
      return true, i;
    }
    if size > 0 {
      PlaceParlay(cfg, legs, stats);
      return false, i + size;
    }
    var leg := deps.EvalLeg(rows, i);
    if leg.Broken? {
      return true, i;
    }
    stats.CountSkip();
    return false, i + 1;
  }

  /** Some stretch of the walk starts where a failed build stops it. */
  ghost predicate SomeBreaks(maxParlay: int, build: Builder, rows: seq<MatchRow>, segments: seq<Segment>) {
    exists j :: 0 <= j < |segments| && segments[j].start < |rows| && BreaksAt(maxParlay, build, rows, segments[j].start)
  }

  lemma SomeBreaksCons(maxParlay: int, build: Builder, rows: seq<MatchRow>, s: Segment, rest: seq<Segment>)
    requires s.start < |rows|
    ensures SomeBreaks(maxParlay, build, rows, [s] + rest) <==>
            BreaksAt(maxParlay, build, rows, s.start) || SomeBreaks(maxParlay, build, rows, rest)
  {
    hide BreaksAt;
    var all := [s] + rest;
    assert all[0] == s;
    if SomeBreaks(maxParlay, build, rows, rest) {
      var j :| 0 <= j < |rest| && rest[j].start < |rows| && BreaksAt(maxParlay, build, rows, rest[j].start);
      assert all[j + 1] == rest[j];
    }
  }

  /** The loop over the matches; it stops early exactly at a failed build. */
  method WalkParlayTrack(cfg: Config, maxParlay: int, build: Builder, rows: seq<MatchRow>)
    returns (broken: bool, stats: BacktestStats)
    requires DistinctKeys(rows) && PositiveOddsLegs(build, rows)
    ensures broken <==> SomeBreaks(maxParlay, build, rows, Walk(cfg, maxParlay, build, rows, 0, NO_STATS).1)
    ensures !broken ==> stats.View() == Walk(cfg, maxParlay, build, rows, 0, NO_STATS).0
  {
    stats := new BacktestStats();
    var deps := new EvalDeps(build);
    ghost var whole := Walk(cfg, maxParlay, build, rows, 0, NO_STATS);
    var i := 0;
    while i < |rows|
      invariant i <= |rows| && fresh(stats) && fresh(deps) && deps.build == build && deps.Valid(rows)
      invariant whole.0 == Walk(cfg, maxParlay, build, rows, i, stats.View()).0
      invariant SomeBreaks(maxParlay, build, rows, whole.1) <==>
                SomeBreaks(maxParlay, build, rows, Walk(cfg, maxParlay, build, rows, i, stats.View()).1)
    {
      hide WalkMove, PositiveOddsLegs, EvalDeps.Valid, DistinctKeys, BreaksAt, SomeBreaks;
      ghost var (s, st) := WalkMove(cfg, maxParlay, build, rows, i, stats.View());
      SomeBreaksCons(maxParlay, build, rows, s, Walk(cfg, maxParlay, build, rows, s.End(), st).1);
      broken, i := WalkOnce(cfg, maxParlay, deps, rows, i, stats);
      if broken {
        return;
      }
    }
    return false, stats;
  }

  // What holds of every walk.

  /** The stretches follow each other without gap or overlap. */
  predicate Tiles(segments: seq<Segment>, from: nat, to: nat) {
    if segments == [] then from == to
    else segments[0].start == from && segments[0].End() > from && Tiles(segments[1..], segments[0].End(), to)
  }

  /** The matches lost in declined windows beyond the one that is counted as skipped. */
  function RejectedExtra(segments: seq<Segment>): int {
    if segments == [] then 0
    else (if segments[0].Rejected? then segments[0].size - 1 else 0) + RejectedExtra(segments[1..])
  }

  lemma WindowIsBalanced(cfg: Config, st: Stats, legs: seq<ParlayLeg>)
    requires legs != [] && Stakable(cfg, legs) && Balanced(st)
    ensures var st' := AfterWindow(cfg, st, legs);
            && Balanced(st')
            && st'.bets + st'.skipped == st.bets + st.skipped + 1
            && st'.parlayLegs + st'.skipped ==
               st.parlayLegs + st.skipped + if ParlayStake(cfg, st, legs).Some? then |legs| else 1
  {
    hide ParlayStake, SettleParlay, Balanced;
    ApplyIsBalanced(st, WindowEntry(cfg, st, legs));
  }

  /** The stretches from match i to n lead from `st` to `end`: each counts one bet or skip, each match once. */
  ghost predicate Accounted(segments: seq<Segment>, i: nat, n: nat, st: Stats, end: Stats) {
    && Tiles(segments, i, n)
    && end.bets + end.skipped == st.bets + st.skipped + |segments|
    && end.parlayLegs + end.skipped + RejectedExtra(segments) == st.parlayLegs + st.skipped + n - i
  }

  lemma MoveAccounts(cfg: Config, maxParlay: int, build: Builder, rows: seq<MatchRow>, i: nat, st: Stats)
    requires i < |rows| && PositiveOddsLegs(build, rows) && Balanced(st)
    ensures var (s, st') := WalkMove(cfg, maxParlay, build, rows, i, st);
            && Balanced(st')
            && st'.bets + st'.skipped == st.bets + st.skipped + 1
            && st'.parlayLegs + st'.skipped + RejectedExtra([s]) == st.parlayLegs + st.skipped + s.End() - i
  {
    hide AfterWindow, ParlayStake, Balanced;
    var k := WindowAt(cfg, maxParlay, build, rows, i);
    if k == 0 {
      SkipIsBalanced(st);
    } else {
      LegsHavePositiveOdds(build, rows, i, k);
      WindowIsBalanced(cfg, st, Legs(build, rows, i, k));
    }
  }

  lemma OneMoreSegment(s: Segment, rest: seq<Segment>, i: nat, n: nat, st: Stats, st': Stats, end: Stats)
    requires s.start == i < s.End() && Accounted(rest, s.End(), n, st', end)
    requires st'.bets + st'.skipped == st.bets + st.skipped + 1
    requires st'.parlayLegs + st'.skipped + RejectedExtra([s]) == st.parlayLegs + st.skipped + s.End() - i
    ensures Accounted([s] + rest, i, n, st, end)
  {
    assert ([s] + rest)[1..] == rest;
  }

  /** Windows never overlap, every match is accounted for, and the books balance. */
  lemma {:induction false} WalkAccounts(cfg: Config, maxParlay: int, build: Builder, rows: seq<MatchRow>, i: nat, st: Stats)
    requires i <= |rows| && PositiveOddsLegs(build, rows) && Balanced(st)
    ensures var (end, segments) := Walk(cfg, maxParlay, build, rows, i, st);
            Balanced(end) && Accounted(segments, i, |rows|, st, end)
    decreases |rows| - i
  {
    if i < |rows| {
      hide WalkMove, Balanced, Accounted;
      var (s, st') := WalkMove(cfg, maxParlay, build, rows, i, st);
      MoveAccounts(cfg, maxParlay, build, rows, i, st);
      WalkAccounts(cfg, maxParlay, build, rows, s.End(), st');
      var (end, rest) := Walk(cfg, maxParlay, build, rows, s.End(), st');
      OneMoreSegment(s, rest, i, |rows|, st, st', end);
    }
  }

  /** Every window the walk could stake on has a share price below the limit. */
  ghost predicate PricesInRange(build: Builder, rows: seq<MatchRow>) {
    forall i: nat, k: nat ::
      Evaluable(build, rows, i, k) && OddsProduct(Legs(build, rows, i, k)) != 0.0 ==>
        Div(1.0, OddsProduct(Legs(build, rows, i, k))) < PRICE_LIMIT
  }

  lemma WindowIsSafe(cfg: Config, mm: MoneyManager, st: Stats, legs: seq<ParlayLeg>)
    requires cfg.moneyManager == Some(mm) && legs != [] && OddsProduct(legs) > 0.0
    ensures mm.initial + st.finalBalance > 0.0 && Div(1.0, OddsProduct(legs)) < PRICE_LIMIT ==>
              mm.initial + AfterWindow(cfg, st, legs).finalBalance > -SLACK
    ensures mm.initial + st.finalBalance <= 0.0 ==> AfterWindow(cfg, st, legs) == st.Skip()
  {
    var odds := OddsProduct(legs);
    StakeWithinBankroll(mm, st.finalBalance, odds);
    hide *;
    SafeWindow(cfg, mm, st, legs, AllocateStake(mm, st.finalBalance, odds));
  }

  lemma SafeWindow(cfg: Config, mm: MoneyManager, st: Stats, legs: seq<ParlayLeg>, r: Option<real>)
    requires cfg.moneyManager == Some(mm) && legs != []
    requires OddsProduct(legs) > 0.0 && r == AllocateStake(mm, st.finalBalance, OddsProduct(legs))
    requires r.Some? ==> mm.initial + st.finalBalance > 0.0 && r.value >= 0.0
    ensures mm.initial + st.finalBalance > 0.0 && (r.Some? ==> r.value < mm.initial + st.finalBalance + SLACK) ==>
              mm.initial + AfterWindow(cfg, st, legs).finalBalance > -SLACK
    ensures mm.initial + st.finalBalance <= 0.0 ==> AfterWindow(cfg, st, legs) == st.Skip()
  {
    hide AllocateStake, OddsProduct, Settled;
    var e := WindowEntry(cfg, st, legs);
    if r.Some? {
      WinAboveLoss(r.value, OddsProduct(legs));
      SettledBalance(st, e.surface, e.legs, e.stake, e.pnl);
    }
  }

  lemma MoveIsSafe(cfg: Config, mm: MoneyManager, maxParlay: int, build: Builder, rows: seq<MatchRow>, i: nat, st: Stats)
    requires cfg.moneyManager == Some(mm) && i < |rows| && PositiveOddsLegs(build, rows)
    ensures var st' := WalkMove(cfg, maxParlay, build, rows, i, st).1;
            && (PricesInRange(build, rows) && mm.initial + st.finalBalance > -SLACK ==> mm.initial + st'.finalBalance > -SLACK)
            && (mm.initial + st.finalBalance <= 0.0 ==> st' == st.Skip())
  {
    hide AfterWindow, ParlayStake;
    var k := WindowAt(cfg, maxParlay, build, rows, i);
    if k > 0 {
      LegsHavePositiveOdds(build, rows, i, k);
      WindowIsSafe(cfg, mm, st, Legs(build, rows, i, k));
    }
  }

  /** Over any parlay walk the bankroll never falls a millionth below zero. */
  lemma {:induction false} ParlayBankrollIsSafe(
    cfg: Config, mm: MoneyManager, maxParlay: int, build: Builder, rows: seq<MatchRow>, i: nat, st: Stats)
    requires cfg.moneyManager == Some(mm) && i <= |rows| && PositiveOddsLegs(build, rows) && PricesInRange(build, rows)
    requires mm.initial + st.finalBalance > -SLACK
    ensures mm.initial + Walk(cfg, maxParlay, build, rows, i, st).0.finalBalance > -SLACK
    decreases |rows| - i
  {
    if i < |rows| {
      hide WalkMove;
      var (s, st') := WalkMove(cfg, maxParlay, build, rows, i, st);
      MoveIsSafe(cfg, mm, maxParlay, build, rows, i, st);
      ParlayBankrollIsSafe(cfg, mm, maxParlay, build, rows, s.End(), st');
    }
  }

  /** Once the bankroll is not positive, the rest of the walk only skips. */
  lemma {:induction false} ParlayBrokeForGood(
    cfg: Config, mm: MoneyManager, maxParlay: int, build: Builder, rows: seq<MatchRow>, i: nat, st: Stats)
    requires cfg.moneyManager == Some(mm) && i <= |rows| && PositiveOddsLegs(build, rows)
    requires mm.initial + st.finalBalance <= 0.0
    ensures var (end, segments) := Walk(cfg, maxParlay, build, rows, i, st);
            end == st.(skipped := st.skipped + |segments|)
    decreases |rows| - i
  {
    if i < |rows| {
      hide WalkMove;
      var (s, st') := WalkMove(cfg, maxParlay, build, rows, i, st);
      MoveIsSafe(cfg, mm, maxParlay, build, rows, i, st);
      ParlayBrokeForGood(cfg, mm, maxParlay, build, rows, s.End(), st');
    }
  }
}
