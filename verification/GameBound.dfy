/** How long a match can be: only tiebreaks are unbounded. */
module GameBound {
  import opened Rules
  import opened ScoreLine

  /** The regular games of a completed set: a set decided by one game had a tiebreak for its last. */
  function RegularGamesOf(r: SetResult): int {
    r.gamesA + r.gamesB - if r.gamesA == r.gamesB + 1 || r.gamesB == r.gamesA + 1 then 1 else 0
  }

  function RegularGames(sets: seq<SetResult>): int {
    if sets == [] then 0 else RegularGames(sets[..|sets| - 1]) + RegularGamesOf(sets[|sets| - 1])
  }

  /** The regular games a match shows; at the end the last set is among the completed ones. */
  function GamesShown(m: State): int {
    RegularGames(m.completedSets) + if m.done then 0 else m.current.games.a + m.current.games.b
  }

  function GameEvents(history: seq<Event>): nat {
    if history == [] then 0 else GameEvents(history[..|history| - 1]) + if history[|history| - 1].Game? then 1 else 0
  }

  lemma RegularGamesSnoc(sets: seq<SetResult>, r: SetResult)
    ensures RegularGames(sets + [r]) == RegularGames(sets) + RegularGamesOf(r)
  {
    assert (sets + [r])[..|sets|] == sets;
  }

  lemma AfterSetRecord(f: MatchFormat, first: Player, l: Line, games: Pair, w: Player, m: State)
    requires AfterSet(f, first, l, games, w, m)
    ensures m.completedSets == l.completed + [SetResult(games.a, games.b)]
    ensures !m.done ==> m.current.games == ZERO
  {
    hide WonBy, Tally, GamesPlayed, Turn, LegalLine, AllCompleted;
  }

  lemma AfterSetShows(f: MatchFormat, first: Player, l: Line, games: Pair, w: Player, m: State)
    requires AfterSet(f, first, l, games, w, m)
    ensures GamesShown(m) == RegularGames(l.completed) + RegularGamesOf(SetResult(games.a, games.b))
  {
    AfterSetRecord(f, first, l, games, w, m);
    RegularGamesSnoc(l.completed, SetResult(games.a, games.b));
    hide AfterSet, RegularGames, RegularGamesOf;
  }

  lemma GameAddsOne(f: MatchFormat, first: Player, m: State, w: Player)
    requires WellFormed(f) && Invariant(f, first, m) && !m.done && m.current.phase == Regular
    ensures WinGame(m, w).Ok? && GamesShown(WinGame(m, w).value) == GamesShown(m) + 1
  {
    var l := LineOf(m);
    var games := l.games.Inc(w);
    GameStep(f, first, l, w);
    hide WinGame, AfterSet;
    if !LegalGames(f, games) {
      AfterSetShows(f, first, l, games, w, WinGame(m, w).value);
      LastGame(f, l.games, w);
    }
  }

  /** A set won in regular games counts all of them. */
  lemma LastGame(f: MatchFormat, games: Pair, w: Player)
    requires WellFormed(f) && LegalGames(f, games) && !AtTiebreak(f, games) && !LegalGames(f, games.Inc(w))
    ensures RegularGamesOf(SetResult(games.Inc(w).a, games.Inc(w).b)) == games.a + games.b + 1
  {
  }

  lemma PointAddsNone(f: MatchFormat, first: Player, m: State, w: Player)
    requires WellFormed(f) && Invariant(f, first, m) && !m.done && m.current.phase == Tiebreak
    ensures WinTiebreakPoint(m, w).Ok? && GamesShown(WinTiebreakPoint(m, w).value) == GamesShown(m)
  {
    var l := LineOf(m);
    PointStep(f, first, l, w);
    hide WinTiebreakPoint, AfterSet;
    if Decisive(f, TiebreakTarget(f, Tally(l.completed)), l.points.Inc(w)) {
      AfterSetShows(f, first, l, l.games.Inc(w), w, WinTiebreakPoint(m, w).value);
    }
  }

  /** The scoreboard shows exactly the regular games that were played. */
  lemma {:induction false} GamesShownWerePlayed(f: MatchFormat, first: Player, history: seq<Event>)
    requires WellFormed(f) && Run(NewMatch(f, first), history).Ok?
    ensures GamesShown(Run(NewMatch(f, first), history).value) == GameEvents(history)
  {
    if history != [] {
      var before, e := history[..|history| - 1], history[|history| - 1];
      var m := Run(NewMatch(f, first), before).value;
      GamesShownWerePlayed(f, first, before);
      RunKeepsInvariant(f, first, before);
      PlayKeepsInvariant(f, first, m, e);
      hide GamesShown, WinGame, WinTiebreakPoint, Invariant;
      match e
      case Game(w) => GameAddsOne(f, first, m, w);
      case Point(w) => PointAddsNone(f, first, m, w);
    }
  }

  lemma RegularGamesOfBound(f: MatchFormat, r: SetResult)
    requires WellFormed(f) && LegalCompleted(f, r)
    ensures RegularGamesOf(r) <= 2 * f.gamesPerSet
  {
  }

  lemma {:induction false} RegularGamesBound(f: MatchFormat, sets: seq<SetResult>)
    requires WellFormed(f) && AllCompleted(f, sets)
    ensures RegularGames(sets) <= |sets| * (2 * f.gamesPerSet)
  {
    hide WellFormed, LegalCompleted, RegularGamesOf;
    if sets != [] {
      var k := |sets| - 1;
      RegularGamesBound(f, sets[..k]);
      RegularGamesOfBound(f, sets[k]);
      OneMoreFactor(k, 2 * f.gamesPerSet);
    }
  }

  lemma OneMoreFactor(k: int, n: int)
    ensures (k + 1) * n == k * n + n
  {
  }

  /** No history has more regular games than 2 * GamesPerSet in each of the sets a match can have. */
  lemma RegularGamesAreBounded(f: MatchFormat, first: Player, history: seq<Event>)
    requires WellFormed(f) && Run(NewMatch(f, first), history).Ok?
    ensures GameEvents(history) <= (2 * f.setsToWin - 1) * (2 * f.gamesPerSet)
  {
    var m := Run(NewMatch(f, first), history).value;
    GamesShownWerePlayed(f, first, history);
    ReachableFacts(f, first, m);
    RegularGamesBound(f, m.completedSets);
    hide *;
    ShownIsBounded(f, m);
  }

  lemma ShownIsBounded(f: MatchFormat, m: State)
    requires f.setsToWin >= 1 && f.gamesPerSet >= 1
    requires RegularGames(m.completedSets) <= |m.completedSets| * (2 * f.gamesPerSet)
    requires |m.completedSets| <= 2 * f.setsToWin - if m.done then 1 else 2
    requires !m.done ==> m.current.games.a + m.current.games.b <= 2 * f.gamesPerSet
    ensures GamesShown(m) <= (2 * f.setsToWin - 1) * (2 * f.gamesPerSet)
  {
    hide RegularGames;
    var k, n := |m.completedSets|, 2 * f.gamesPerSet;
    ProductBound(if m.done then k else k + 1, 2 * f.setsToWin - 1, n);
    OneMoreFactor(k, n);
  }

  lemma ProductBound(x: int, y: int, n: int)
    requires x <= y && n >= 0
    ensures x * n <= y * n
  {
  }
}
