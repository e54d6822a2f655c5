/**
 Rebuilding a match from its score by replaying an invented history, and the proof that the
 invented history ends in the one state every real history with that score ends in.
 */
module Hydration {
  import opened Wrappers
  import opened Rules
  import opened ScoreLine
  import opened Matches
  import opened Score

  function CanonicalGameWinner(a: int, b: int): Player {
    if a < b then A else if b < a then B else A
  }

  /** Who gets the next game, or tiebreak point, on the way to the target. */
  function PickNeeded(a: int, b: int, targetA: int, targetB: int): Player {
    var needA, needB := a < targetA, b < targetB;
    if needA && !needB then A
    else if needB && !needA then B
    else CanonicalGameWinner(a, b)
  }

  /** The match is unfinished and in the closed form of the line it shows. */
  ghost predicate InPlay(m: Match)
    reads m
  {
    && LegalLine(m.format, LineOf(m.View()))
    && m.View() == Canonical(m.format, m.firstServer, LineOf(m.View()))
  }

  function Refusal(refused: Option<RuleError>): Option<ScoreError> {
    match refused
    case None => None
    case Some(e) => Some(RuleViolation(e))
  }

  // Regular games.

  /** The picker keeps the two sides level until one of them has all it needs. */
  predicate OnTheWay(p: Pair, target: Pair) {
    && 0 <= p.a <= target.a && 0 <= p.b <= target.b
    && (p.a > p.b + 1 ==> p.b == target.b)
    && (p.b > p.a + 1 ==> p.a == target.a)
  }

  lemma PickStaysOnTheWay(p: Pair, target: Pair)
    requires OnTheWay(p, target) && p != target
    ensures OnTheWay(p.Inc(PickNeeded(p.a, p.b, target.a, target.b)), target)
  {
  }

  predicate LongTie(f: MatchFormat, games: Pair) {
    games.a == games.b > f.gamesPerSet
  }

  /** No set is completed on the way to a set in progress, nor on the way to an overlong tie. */
  lemma OnTheWayToOpenSet(f: MatchFormat, p: Pair, w: Player, target: Pair)
    requires WellFormed(f) && LegalGames(f, p) && !AtTiebreak(f, p) && OnTheWay(p.Inc(w), target)
    requires LegalGames(f, target) || LongTie(f, target)
    ensures LegalGames(f, p.Inc(w))
  {
  }

  /** A set won in regular games is not completed, nor tied, before its last game. */
  lemma OnTheWayToWonSet(f: MatchFormat, p: Pair, w: Player, target: Pair)
    requires WellFormed(f) && LegalGames(f, p) && !AtTiebreak(f, p) && OnTheWay(p.Inc(w), target)
    requires WonInGames(f, target)
    ensures if p.Inc(w) == target then !LegalGames(f, p.Inc(w)) else LegalGames(f, p.Inc(w)) && !AtTiebreak(f, p.Inc(w))
  {
  }

  /** A completed line that needs no tiebreak. */
  predicate WonInGames(f: MatchFormat, games: Pair) {
    (WonBy(f, games, A) && games.b < f.gamesPerSet) || (WonBy(f, games, B) && games.a < f.gamesPerSet)
  }

  /** Reaches any line a set in progress can show; at an overlong tie it stops at the tiebreak. */
  method ReplayRegularGamesTo(m: Match, targetGA: nat, targetGB: nat) returns (err: Option<ScoreError>)
    requires WellFormed(m.format) && InPlay(m) && m.current.games == ZERO
    requires LegalGames(m.format, Pair(targetGA, targetGB)) || LongTie(m.format, Pair(targetGA, targetGB))
    modifies m
    ensures InPlay(m) && m.completedSets == old(m.completedSets) && m.current.tiebreakPoints == ZERO
    ensures LegalGames(m.format, Pair(targetGA, targetGB)) ==>
              err == None && m.current.games == Pair(targetGA, targetGB)
    ensures LongTie(m.format, Pair(targetGA, targetGB)) ==>
              err == Some(Hydration) && m.current.games == Pair(m.format.tiebreakAt, m.format.tiebreakAt)
  {
    hide ServerForTBPoint, Turn, GamesPlayed, Tally;
    ghost var target := Pair(targetGA, targetGB);
    while true
      invariant InPlay(m) && m.completedSets == old(m.completedSets) && m.current.tiebreakPoints == ZERO
      invariant OnTheWay(m.current.games, target)
      decreases targetGA + targetGB - m.current.games.a - m.current.games.b
    {
      if m.current.phase == Tiebreak {
        if m.current.games.a == targetGA && m.current.games.b == targetGB {
          return None;
        }
        return Some(Hydration);
      }
      var ga, gb := m.current.games.a, m.current.games.b;
      if ga == targetGA && gb == targetGB {
        return None;
      }
      if ga > targetGA || gb > targetGB {
        return Some(Hydration);
      }
      var w := PickNeeded(ga, gb, targetGA, targetGB);
      PickStaysOnTheWay(m.current.games, target);
      OnTheWayToOpenSet(m.format, m.current.games, w, target);
      GameStep(m.format, m.firstServer, LineOf(m.View()), w);
      var refused := m.WinGame(w);
      if refused.Some? {
        return Refusal(refused);
      }
    }
  }

  /** Records exactly the completed line it is given. */
  method ReplayRegularGamesUntilSetComplete(m: Match, targetGA: nat, targetGB: nat) returns (err: Option<ScoreError>)
    requires WellFormed(m.format) && InPlay(m) && m.current.games == ZERO
    requires WonInGames(m.format, Pair(targetGA, targetGB))
    modifies m
    ensures err == None
    ensures AfterSet(m.format, m.firstServer, old(LineOf(m.View())), Pair(targetGA, targetGB),
                     SetWinner(SetResult(targetGA, targetGB)), m.View())
  {
    hide ServerForTBPoint, Turn, GamesPlayed, Tally;
    ghost var target, start := Pair(targetGA, targetGB), LineOf(m.View());
    ghost var winner := SetWinner(SetResult(targetGA, targetGB));
    var before := |m.completedSets|;
    while |m.completedSets| == before
      invariant if |m.completedSets| == before
                then && InPlay(m) && m.completedSets == start.completed && !AtTiebreak(m.format, m.current.games)
                     && OnTheWay(m.current.games, target) && m.current.games != target
                else && AfterSet(m.format, m.firstServer, start, target, winner, m.View())
                     && m.completedSets == start.completed + [SetResult(targetGA, targetGB)]
      decreases if |m.completedSets| == before then 1 + targetGA + targetGB - m.current.games.a - m.current.games.b else 0
    {
      if m.current.phase == Tiebreak {
        return Some(Hydration);
      }
      var ga, gb := m.current.games.a, m.current.games.b;
      var w := PickNeeded(ga, gb, targetGA, targetGB);
      PickStaysOnTheWay(m.current.games, target);
      OnTheWayToWonSet(m.format, m.current.games, w, target);
      GameStep(m.format, m.firstServer, LineOf(m.View()), w);
      var refused := m.WinGame(w);
      if refused.Some? {
        return Refusal(refused);
      }
    }
    var last := m.completedSets[|m.completedSets| - 1];
    if last.gamesA != targetGA || last.gamesB != targetGB {
      return Some(Hydration);
    }
    return None;
  }

  // Tiebreak points.

  lemma OnTheWayUndecided(f: MatchFormat, tbTarget: int, p: Pair, target: Pair)
    requires WellFormed(f) && OnTheWay(p, target) && !Decisive(f, tbTarget, target)
    ensures !Decisive(f, tbTarget, p)
  {
  }

  /** Reaches any points that leave the tiebreak undecided, without deciding it on the way. */
  method ReplayTiebreakPointsTo(m: Match, targetA: nat, targetB: nat) returns (err: Option<ScoreError>)
    requires WellFormed(m.format) && InPlay(m) && AtTiebreak(m.format, m.current.games)
    requires m.current.tiebreakPoints == ZERO
    requires !Decisive(m.format, TiebreakTarget(m.format, m.setsWon), Pair(targetA, targetB))
    modifies m
    ensures err == None && InPlay(m)
    ensures LineOf(m.View()) == old(LineOf(m.View())).(points := Pair(targetA, targetB))
  {
    hide ServerForTBPoint, Turn, GamesPlayed, Tally;
    ghost var target, start := Pair(targetA, targetB), LineOf(m.View());
    while true
      invariant InPlay(m) && LineOf(m.View()) == start.(points := m.current.tiebreakPoints)
      invariant OnTheWay(m.current.tiebreakPoints, target)
      decreases targetA + targetB - m.current.tiebreakPoints.a - m.current.tiebreakPoints.b
    {
      if m.current.phase != Tiebreak {
        return Some(Hydration);
      }
      var ta, tb := m.current.tiebreakPoints.a, m.current.tiebreakPoints.b;
      if ta == targetA && tb == targetB {
        return None;
      }
      if ta > targetA || tb > targetB {
        return Some(Hydration);
      }
      var before := |m.completedSets|;
      var w := PickNeeded(ta, tb, targetA, targetB);
      PickStaysOnTheWay(m.current.tiebreakPoints, target);
      OnTheWayUndecided(m.format, TiebreakTarget(m.format, m.setsWon), m.current.tiebreakPoints.Inc(w), target);
      PointStep(m.format, m.firstServer, LineOf(m.View()), w);
      var refused := m.WinTiebreakPoint(w);
      if refused.Some? {
        return Refusal(refused);
      }
      if |m.completedSets| > before {
        return Some(Hydration);
      }
    }
  }

  /** Whether the next point can end the tiebreak with the intended game totals, and for whom. */
  function TiebreakClincher(f: MatchFormat, ptsToWin: int, points: Pair, target: Pair): Option<Player> {
    if Clinched(f, ptsToWin, points.Inc(A), A) && target == Pair(f.tiebreakAt + 1, f.tiebreakAt) then Some(A)
    else if Clinched(f, ptsToWin, points.Inc(B), B) && target == Pair(f.tiebreakAt, f.tiebreakAt + 1) then Some(B)
    else None
  }

  function PickTiebreakProgressWinner(f: MatchFormat, ptsToWin: int, points: Pair, target: Pair): Player {
    match TiebreakClincher(f, ptsToWin, points, target)
    case Some(w) => w
    case None =>
      if points.a == points.b then (if target.b > target.a then B else A)
      else CanonicalGameWinner(points.a, points.b)
  }

  /** The tiebreak is level, or the intended winner leads by one, and there is room to clinch. */
  predicate Climbing(points: Pair, w: Player, ptsToWin: int) {
    var lead, trail := points.Get(w), points.Get(w.Opponent());
    && 0 <= trail <= lead <= trail + 1
    && (trail == 0 || trail <= ptsToWin - 2)
  }

  /** A step of the greedy tiebreak: the intended winner clinches, or nobody does. */
  lemma ClimbStep(f: MatchFormat, ptsToWin: int, points: Pair, target: Pair, w: Player)
    requires WellFormed(f) && ptsToWin >= 1 && Climbing(points, w, ptsToWin)
    requires target == Pair(f.tiebreakAt, f.tiebreakAt).Inc(w)
    ensures var p := PickTiebreakProgressWinner(f, ptsToWin, points, target);
            if Decisive(f, ptsToWin, points.Inc(p)) then p == w else Climbing(points.Inc(p), w, ptsToWin)
  {
  }

  /** The intended player wins the tiebreak, and so the set. */
  method ReplayTiebreakUntilSetComplete(m: Match, targetGA: nat, targetGB: nat) returns (err: Option<ScoreError>)
    requires WellFormed(m.format) && InPlay(m) && AtTiebreak(m.format, m.current.games)
    requires m.current.tiebreakPoints == ZERO
    requires Pair(targetGA, targetGB) in {m.current.games.Inc(A), m.current.games.Inc(B)}
    modifies m
    ensures err == None
    ensures AfterSet(m.format, m.firstServer, old(LineOf(m.View())), Pair(targetGA, targetGB),
                     SetWinner(SetResult(targetGA, targetGB)), m.View())
  {
    hide ServerForTBPoint, Turn, GamesPlayed, Tally;
    var target := Pair(targetGA, targetGB);
    ghost var start, winner := LineOf(m.View()), SetWinner(SetResult(targetGA, targetGB));
    ghost var ptsToWin := TiebreakTarget(m.format, m.setsWon);
    var before := |m.completedSets|;
    while |m.completedSets| == before
      invariant if |m.completedSets| == before
                then && InPlay(m) && LineOf(m.View()) == start.(points := m.current.tiebreakPoints)
                     && Climbing(m.current.tiebreakPoints, winner, ptsToWin)
                else && AfterSet(m.format, m.firstServer, start, target, winner, m.View())
                     && m.completedSets == start.completed + [SetResult(targetGA, targetGB)]
      decreases if |m.completedSets| == before
                then 2 * ptsToWin + 2 - m.current.tiebreakPoints.a - m.current.tiebreakPoints.b else 0
    {
      if m.current.phase != Tiebreak {
        return Some(Hydration);
      }
      var w := PickTiebreakProgressWinner(m.format, TiebreakTarget(m.format, m.setsWon), m.current.tiebreakPoints, target);
      ClimbStep(m.format, ptsToWin, m.current.tiebreakPoints, target, winner);
      PointStep(m.format, m.firstServer, LineOf(m.View()), w);
      var refused := m.WinTiebreakPoint(w);
      if refused.Some? {
        return Refusal(refused);
      }
    }
    var last := m.completedSets[|m.completedSets| - 1];
    if last.gamesA != targetGA || last.gamesB != targetGB {
      return Some(Hydration);
    }
    return None;
  }

  /** Who gets a game or point at a tie: player A, but in a tiebreak that is to be won its winner. */
  lemma TiesGo(f: MatchFormat, ptsToWin: int, n: nat, targetA: int, targetB: int, w: Player)
    ensures n < targetA && n < targetB ==> PickNeeded(n, n, targetA, targetB) == A
    ensures PickTiebreakProgressWinner(f, ptsToWin, Pair(n, n), Pair(f.tiebreakAt, f.tiebreakAt).Inc(w)) == w
  {
  }

  // Why the tiebreak margin of a format must not exceed two.

  /** The points after j greedy picks, played on even if the tiebreak is decided. */
  function GreedyPoints(f: MatchFormat, ptsToWin: int, target: Pair, j: nat): Pair {
    if j == 0 then ZERO
    else
      var p := GreedyPoints(f, ptsToWin, target, j - 1);
      p.Inc(PickTiebreakProgressWinner(f, ptsToWin, p, target))
  }

  predicate DecidedBy(f: MatchFormat, ptsToWin: int, target: Pair, j: nat) {
    exists i: nat :: i <= j && Decisive(f, ptsToWin, GreedyPoints(f, ptsToWin, target, i))
  }

  lemma {:induction false} GreedyPattern(f: MatchFormat, ptsToWin: int, w: Player, j: nat)
    ensures var target := Pair(f.tiebreakAt, f.tiebreakAt).Inc(w);
            var p := GreedyPoints(f, ptsToWin, target, j);
            || DecidedBy(f, ptsToWin, target, j)
            || (p.Get(w) == (j + 1) / 2 && p.Get(w.Opponent()) == j / 2)
  {
    if j > 0 {
      GreedyPattern(f, ptsToWin, w, j - 1);
      var target := Pair(f.tiebreakAt, f.tiebreakAt).Inc(w);
      var p := GreedyPoints(f, ptsToWin, target, j - 1);
      if !DecidedBy(f, ptsToWin, target, j - 1) && TiebreakClincher(f, ptsToWin, p, target).Some? {
        assert Decisive(f, ptsToWin, GreedyPoints(f, ptsToWin, target, j));
      }
    }
  }

  /** The greedy replay of a won tiebreak ends exactly when the margin is at most two. */
  lemma GreedyTiebreakEnds(f: MatchFormat, ptsToWin: int, w: Player)
    requires ptsToWin >= 1
    ensures var target := Pair(f.tiebreakAt, f.tiebreakAt).Inc(w);
            (exists j: nat :: DecidedBy(f, ptsToWin, target, j)) <==> f.tiebreakPointMargin <= 2
  {
    var target := Pair(f.tiebreakAt, f.tiebreakAt).Inc(w);
    if f.tiebreakPointMargin <= 2 {
      var j := 2 * ptsToWin + 1;
      GreedyPattern(f, ptsToWin, w, j);
      var p := GreedyPoints(f, ptsToWin, target, j);
      if !DecidedBy(f, ptsToWin, target, j) {
        assert p.Get(w) == ptsToWin + 1 && p.Get(w.Opponent()) == ptsToWin;
        assert Clinched(f, ptsToWin, p.Inc(w), w);
        assert Decisive(f, ptsToWin, GreedyPoints(f, ptsToWin, target, j + 1));
        assert DecidedBy(f, ptsToWin, target, j + 1);
      }
    } else {
      forall i: nat
        ensures !Decisive(f, ptsToWin, GreedyPoints(f, ptsToWin, target, i))
      {
        NeverDecided(f, ptsToWin, w, i);
      }
    }
  }

  /** A pick from a tiebreak within a point keeps it within a point, if nobody can clinch. */
  lemma StaysClose(f: MatchFormat, ptsToWin: int, w: Player, p: Pair)
    requires f.tiebreakPointMargin > 2 && p.Get(w.Opponent()) <= p.Get(w) <= p.Get(w.Opponent()) + 1
    ensures var target := Pair(f.tiebreakAt, f.tiebreakAt).Inc(w);
            var p' := p.Inc(PickTiebreakProgressWinner(f, ptsToWin, p, target));
            p'.Get(w.Opponent()) <= p'.Get(w) <= p'.Get(w.Opponent()) + 1
  {
    assert TiebreakClincher(f, ptsToWin, p, Pair(f.tiebreakAt, f.tiebreakAt).Inc(w)) == None;
  }

  lemma {:induction false} NeverDecided(f: MatchFormat, ptsToWin: int, w: Player, j: nat)
    requires f.tiebreakPointMargin > 2
    ensures var target := Pair(f.tiebreakAt, f.tiebreakAt).Inc(w);
            var p := GreedyPoints(f, ptsToWin, target, j);
            p.Get(w.Opponent()) <= p.Get(w) <= p.Get(w.Opponent()) + 1 && !Decisive(f, ptsToWin, p)
  {
    if j > 0 {
      hide PickTiebreakProgressWinner;
      NeverDecided(f, ptsToWin, w, j - 1);
      StaysClose(f, ptsToWin, w, GreedyPoints(f, ptsToWin, Pair(f.tiebreakAt, f.tiebreakAt).Inc(w), j - 1));
    }
  }
}
