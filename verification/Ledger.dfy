/** The books are the sums of their entries. */
module Ledger {
  import opened Backtest

  /** The stats after entering `es` one after another. */
  function EnterAll(st: Stats, es: seq<Entry>): Stats {
    if es == [] then st else Apply(EnterAll(st, es[..|es| - 1]), es[|es| - 1])
  }

  lemma {:induction false} EnterFirst(st: Stats, e: Entry, es: seq<Entry>)
    ensures EnterAll(st, [e] + es) == EnterAll(Apply(st, e), es)
    decreases |es|
  {
    hide Apply;
    var all := [e] + es;
    if es == [] {
      assert all == [e] && [e][..0] == [];
    } else {
      EnterFirst(st, e, es[..|es| - 1]);
      assert all[..|all| - 1] == [e] + es[..|es| - 1];
    }
  }

  function Count(es: seq<Entry>, p: Entry -> bool): int {
    if es == [] then 0 else Count(es[..|es| - 1], p) + if p(es[|es| - 1]) then 1 else 0
  }

  function Sum(es: seq<Entry>, f: Entry -> real): real {
    if es == [] then 0.0 else Sum(es[..|es| - 1], f) + f(es[|es| - 1])
  }

  predicate IsSkip(e: Entry) { e.Skipped? }

  predicate IsBet(e: Entry) { e.Booked? }

  predicate IsWin(e: Entry) { e.Booked? && e.pnl > 0.0 }

  predicate IsLoss(e: Entry) { e.Booked? && e.pnl <= 0.0 }

  predicate HardBet(e: Entry) { e.Booked? && e.surface == Hard }

  predicate ClayBet(e: Entry) { e.Booked? && e.surface == Clay }

  predicate GrassBet(e: Entry) { e.Booked? && e.surface == Grass }

  predicate HardWin(e: Entry) { HardBet(e) && IsWin(e) }

  predicate ClayWin(e: Entry) { ClayBet(e) && IsWin(e) }

  predicate GrassWin(e: Entry) { GrassBet(e) && IsWin(e) }

  function StakeOf(e: Entry): real { if e.Booked? then e.stake else 0.0 }

  function PnlOf(e: Entry): real { if e.Booked? then e.pnl else 0.0 }

  function ProfitOf(e: Entry): real { if IsWin(e) then e.pnl else 0.0 }

  function LossOf(e: Entry): real { if IsLoss(e) then -e.pnl else 0.0 }

  function LegsOf(e: Entry): real { if e.Booked? then e.legs as real else 0.0 }

  /** Every total is the sum of what the entries say. */
  ghost predicate Totals(st: Stats, es: seq<Entry>) {
    && st.bets == Count(es, IsBet) && st.skipped == Count(es, IsSkip)
    && st.wins == Count(es, IsWin) && st.losses == Count(es, IsLoss)
    && st.parlayLegs as real == Sum(es, LegsOf)
    && st.totalWagered == Sum(es, StakeOf) && st.finalBalance == Sum(es, PnlOf)
    && st.grossProfit == Sum(es, ProfitOf) && st.grossLoss == Sum(es, LossOf)
    && st.hard == SurfaceStats(Count(es, HardWin), Count(es, HardBet))
    && st.clay == SurfaceStats(Count(es, ClayWin), Count(es, ClayBet))
    && st.grass == SurfaceStats(Count(es, GrassWin), Count(es, GrassBet))
  }

  /** Entering anything on empty books gives the totals of what was entered. */
  lemma {:induction false} BooksAreTotals(es: seq<Entry>)
    ensures Totals(EnterAll(NO_STATS, es), es)
  {
    if es != [] {
      var before, e := es[..|es| - 1], es[|es| - 1];
      BooksAreTotals(before);
      EntryAdds(EnterAll(NO_STATS, before), before, e);
      assert before + [e] == es;
    }
  }

  lemma EntryAdds(st: Stats, es: seq<Entry>, e: Entry)
    requires Totals(st, es)
    ensures Totals(Apply(st, e), es + [e])
  {
    CountMore(es, e, IsBet);
    CountMore(es, e, IsSkip);
    CountMore(es, e, IsWin);
    CountMore(es, e, IsLoss);
    SumMore(es, e, LegsOf);
    SumMore(es, e, StakeOf);
    SumMore(es, e, PnlOf);
    SumMore(es, e, ProfitOf);
    SumMore(es, e, LossOf);
    SurfacesAdd(es, e);
    hide Count, Sum, HardBet, ClayBet, GrassBet, HardWin, ClayWin, GrassWin;
  }

  lemma CountMore(es: seq<Entry>, e: Entry, p: Entry -> bool)
    ensures Count(es + [e], p) == Count(es, p) + if p(e) then 1 else 0
  {
    assert (es + [e])[..|es|] == es;
  }

  lemma SumMore(es: seq<Entry>, e: Entry, f: Entry -> real)
    ensures Sum(es + [e], f) == Sum(es, f) + f(e)
  {
    assert (es + [e])[..|es|] == es;
  }

  lemma SurfacesAdd(es: seq<Entry>, e: Entry)
    ensures var all, won := es + [e], if e.Booked? && e.pnl > 0.0 then 1 else 0;
            && Count(all, HardBet) == Count(es, HardBet) + (if e.Booked? && e.surface == Hard then 1 else 0)
            && Count(all, ClayBet) == Count(es, ClayBet) + (if e.Booked? && e.surface == Clay then 1 else 0)
            && Count(all, GrassBet) == Count(es, GrassBet) + (if e.Booked? && e.surface == Grass then 1 else 0)
            && Count(all, HardWin) == Count(es, HardWin) + (if e.Booked? && e.surface == Hard then won else 0)
            && Count(all, ClayWin) == Count(es, ClayWin) + (if e.Booked? && e.surface == Clay then won else 0)
            && Count(all, GrassWin) == Count(es, GrassWin) + (if e.Booked? && e.surface == Grass then won else 0)
  {
    CountMore(es, e, HardBet);
    CountMore(es, e, ClayBet);
    CountMore(es, e, GrassBet);
    CountMore(es, e, HardWin);
    CountMore(es, e, ClayWin);
    CountMore(es, e, GrassWin);
    hide Count;
  }

  /** What each match of a singles track leaves in the books. */
  function TrackEntries(cfg: Config, ps: seq<Placement>): (es: seq<Entry>)
    requires forall i :: 0 <= i < |ps| ==> ValidPlacement(ps[i])
    ensures |es| == |ps|
  {
    if ps == [] then []
    else
      var before := ps[..|ps| - 1];
      TrackEntries(cfg, before) + [EntryOf(cfg, Track(cfg, before), ps[|ps| - 1])]
  }

  lemma {:induction false} EntryAt(cfg: Config, ps: seq<Placement>, i: nat)
    requires i < |ps| && forall i :: 0 <= i < |ps| ==> ValidPlacement(ps[i])
    ensures TrackEntries(cfg, ps)[..i] == TrackEntries(cfg, ps[..i])
    ensures TrackEntries(cfg, ps)[i] == EntryOf(cfg, Track(cfg, ps[..i]), ps[i])
  {
    hide EntryOf, Track, ValidPlacement;
    var before := ps[..|ps| - 1];
    if i < |before| {
      EntryAt(cfg, before, i);
      assert before[..i] == ps[..i];
      assert TrackEntries(cfg, ps)[..i] == TrackEntries(cfg, before)[..i];
    }
  }

  lemma {:induction false} TrackEntered(cfg: Config, ps: seq<Placement>)
    requires forall i :: 0 <= i < |ps| ==> ValidPlacement(ps[i])
    ensures Track(cfg, ps) == EnterAll(NO_STATS, TrackEntries(cfg, ps))
  {
    if ps == [] {
      EmptyTrack(cfg, ps);
    } else {
      var before := ps[..|ps| - 1];
      TrackEntered(cfg, before);
      TrackStep(cfg, ps);
      hide Apply, EntryOf, Track, ValidPlacement;
      assert TrackEntries(cfg, ps)[..|before|] == TrackEntries(cfg, before);
    }
  }

  /** The stats of a track are the totals of one entry for each match, made in the light of those before it. */
  lemma TrackIsTotals(cfg: Config, ps: seq<Placement>)
    requires forall i :: 0 <= i < |ps| ==> ValidPlacement(ps[i])
    ensures var es := TrackEntries(cfg, ps);
            && Totals(Track(cfg, ps), es)
            && forall i :: 0 <= i < |ps| ==> es[i] == EntryOf(cfg, EnterAll(NO_STATS, es[..i]), ps[i])
  {
    hide *;
    var es := TrackEntries(cfg, ps);
    TrackEntered(cfg, ps);
    BooksAreTotals(es);
    forall i | 0 <= i < |ps|
      ensures es[i] == EntryOf(cfg, EnterAll(NO_STATS, es[..i]), ps[i])
    {
      EntryAt(cfg, ps, i);
      TrackEntered(cfg, ps[..i]);
    }
  }
}
