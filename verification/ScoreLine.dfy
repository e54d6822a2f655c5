/**
 The closed form of a match: an unfinished match is determined by who served first and by
 its score line, whatever the order in which the games and points were won.
 */
module ScoreLine {
  import opened Wrappers
  import opened Rules

  /** What a scoreboard shows of an unfinished match. */
  datatype Line = Line(completed: seq<SetResult>, games: Pair, points: Pair)

  function SetWinner(r: SetResult): Player {
    if r.gamesB > r.gamesA then B else A
  }

  function Tally(sets: seq<SetResult>): Pair {
    if sets == [] then ZERO
    else Tally(sets[..|sets| - 1]).Inc(SetWinner(sets[|sets| - 1]))
  }

  /** Games of all sets, a tiebreak counting as one game. */
  function GamesPlayed(sets: seq<SetResult>): int {
    if sets == [] then 0
    else GamesPlayed(sets[..|sets| - 1]) + sets[|sets| - 1].gamesA + sets[|sets| - 1].gamesB
  }

  predicate WonBy(f: MatchFormat, games: Pair, w: Player) {
    var hi, lo, n := games.Get(w), games.Get(w.Opponent()), f.gamesPerSet;
    || (hi == n && 0 <= lo <= n - 2)
    || (hi == n + 1 && n - 1 <= lo <= n)
  }

  /** The final game totals a set can have. */
  predicate LegalCompleted(f: MatchFormat, r: SetResult) {
    WonBy(f, Pair(r.gamesA, r.gamesB), A) || WonBy(f, Pair(r.gamesA, r.gamesB), B)
  }

  predicate AllCompleted(f: MatchFormat, sets: seq<SetResult>) {
    forall i :: 0 <= i < |sets| ==> LegalCompleted(f, sets[i])
  }

  /** The game totals a set in progress can show, the tiebreak tie included. */
  predicate LegalGames(f: MatchFormat, games: Pair) {
    var n := f.gamesPerSet;
    && games.a >= 0 && games.b >= 0
    && (|| (games.a < n && games.b < n)
        || games == Pair(n, n - 1) || games == Pair(n - 1, n) || games == Pair(n, n))
  }

  predicate AtTiebreak(f: MatchFormat, games: Pair) {
    games == Pair(f.tiebreakAt, f.tiebreakAt)
  }

  predicate Clinched(f: MatchFormat, target: int, points: Pair, w: Player) {
    points.Get(w) >= target && points.Get(w) - points.Get(w.Opponent()) >= f.tiebreakPointMargin
  }

  predicate Decisive(f: MatchFormat, target: int, points: Pair) {
    Clinched(f, target, points, A) || Clinched(f, target, points, B)
  }

  predicate Unfinished(f: MatchFormat, sets: seq<SetResult>) {
    Tally(sets).a < f.setsToWin && Tally(sets).b < f.setsToWin
  }

  predicate LegalLine(f: MatchFormat, l: Line) {
    && AllCompleted(f, l.completed)
    && Unfinished(f, l.completed)
    && LegalGames(f, l.games)
    && l.points.a >= 0 && l.points.b >= 0
    && (if AtTiebreak(f, l.games)
        then !Decisive(f, TiebreakTarget(f, Tally(l.completed)), l.points)
        else l.points == ZERO)
  }

  function LineOf(m: State): Line {
    Line(m.completedSets, m.current.games, m.current.tiebreakPoints)
  }

  /** `p`, the serve having changed hands k times. */
  function Turn(p: Player, k: int): Player {
    if k <= 0 then p else Turn(p, k - 1).Opponent()
  }

  lemma {:induction false} TurnIsParity(p: Player, k: nat)
    ensures Turn(p, k) == if k % 2 == 0 then p else p.Opponent()
  {
    if k > 0 {
      TurnIsParity(p, k - 1);
    }
  }

  /** The one match state that shows line `l`, where `first` served the first game. */
  function Canonical(f: MatchFormat, first: Player, l: Line): State
    requires l.points.a >= 0 && l.points.b >= 0
  {
    var server := Turn(first, GamesPlayed(l.completed) + l.games.a + l.games.b);
    if AtTiebreak(f, l.games) then
      var n := l.points.a + l.points.b;
      State(f, first, Tally(l.completed), l.completed, Set(l.games, Tiebreak, l.points, n, server),
            ServerForTBPoint(n, server), false, None)
    else
      State(f, first, Tally(l.completed), l.completed, Set(l.games, Regular, ZERO, 0, A), server, false, None)
  }

  // Facts about tallies.

  lemma TallySnoc(sets: seq<SetResult>, r: SetResult)
    ensures Tally(sets + [r]) == Tally(sets).Inc(SetWinner(r))
    ensures GamesPlayed(sets + [r]) == GamesPlayed(sets) + r.gamesA + r.gamesB
  {
    assert (sets + [r])[..|sets|] == sets;
  }

  lemma AllCompletedSnoc(f: MatchFormat, sets: seq<SetResult>, r: SetResult)
    requires AllCompleted(f, sets) && LegalCompleted(f, r)
    ensures AllCompleted(f, sets + [r])
  {
  }

  lemma {:induction false} TallyCountsSets(sets: seq<SetResult>)
    ensures Tally(sets).a >= 0 && Tally(sets).b >= 0
    ensures Tally(sets).a + Tally(sets).b == |sets|
  {
    if sets != [] {
      TallyCountsSets(sets[..|sets| - 1]);
    }
  }

  lemma {:induction false} GamesPlayedNonNegative(f: MatchFormat, sets: seq<SetResult>)
    requires WellFormed(f) && AllCompleted(f, sets)
    ensures GamesPlayed(sets) >= 0
  {
    if sets != [] {
      GamesPlayedNonNegative(f, sets[..|sets| - 1]);
      assert LegalCompleted(f, sets[|sets| - 1]);
    }
  }

  lemma {:induction false} TallyOfPrefix(sets: seq<SetResult>, k: nat)
    requires k <= |sets|
    ensures Tally(sets[..k]).a <= Tally(sets).a && Tally(sets[..k]).b <= Tally(sets).b
  {
    if k < |sets| {
      TallyOfPrefix(sets[..|sets| - 1], k);
      assert sets[..|sets| - 1][..k] == sets[..k];
    } else {
      assert sets[..k] == sets;
    }
  }

  lemma WinnerOfWon(f: MatchFormat, games: Pair, w: Player)
    requires WellFormed(f) && WonBy(f, games, w)
    ensures SetWinner(SetResult(games.a, games.b)) == w
    ensures LegalCompleted(f, SetResult(games.a, games.b)) && !LegalGames(f, games)
  {
  }

  // One step from a legal line.

  /** What winning a set leads to: the next set, or the end of the match. */
  ghost predicate AfterSet(f: MatchFormat, first: Player, before: Line, games: Pair, w: Player, m: State) {
    var completed := before.completed + [SetResult(games.a, games.b)];
    && WonBy(f, games, w)
    && (if Tally(completed).Get(w) < f.setsToWin
        then m == Canonical(f, first, Line(completed, ZERO, ZERO)) && LegalLine(f, Line(completed, ZERO, ZERO))
        else Finished(f, first, m) && m.completedSets == completed && m.winner == Some(w))
  }

  /** Everything that is fixed about a finished match. */
  ghost predicate Finished(f: MatchFormat, first: Player, m: State) {
    && m.format == f && m.firstServer == first && m.done && m.winner.Some?
    && m.completedSets != [] && AllCompleted(f, m.completedSets)
    && m.setsWon == Tally(m.completedSets)
    && m.setsWon.Get(m.winner.value) == f.setsToWin
    && m.setsWon.Get(m.winner.value.Opponent()) < f.setsToWin
    && Unfinished(f, m.completedSets[..|m.completedSets| - 1])
    && var last := m.completedSets[|m.completedSets| - 1];
    && SetWinner(last) == m.winner.value
    && m.current.games == Pair(last.gamesA, last.gamesB)
    && m.server == Turn(first, GamesPlayed(m.completedSets) - 1)
  }

  lemma {:induction false} SetEnds(f: MatchFormat, first: Player, l: Line, m: State, w: Player)
    requires WellFormed(f) && LegalLine(f, l)
    requires WonBy(f, m.current.games, w)
    requires m.format == f && m.firstServer == first && m.setsWon == Tally(l.completed) && m.completedSets == l.completed
    requires m.server == Turn(first, GamesPlayed(l.completed) + m.current.games.a + m.current.games.b - 1)
    requires GamesPlayed(l.completed) >= 0
    requires !m.done && m.winner == None
    ensures AfterSet(f, first, l, m.current.games, w, CompleteSet(m, w))
  {
    var games := m.current.games;
    var r := SetResult(games.a, games.b);
    var completed := l.completed + [r];
    WinnerOfWon(f, games, w);
    TallySnoc(l.completed, r);
    AllCompletedSnoc(f, l.completed, r);
    if Tally(completed).Get(w) < f.setsToWin {
      NewSetLine(f, completed);
      assert Turn(first, GamesPlayed(completed)) == m.server.Opponent();
    } else {
      MatchEnds(f, first, l, m, w);
    }
  }

  lemma MatchEnds(f: MatchFormat, first: Player, l: Line, m: State, w: Player)
    requires WellFormed(f) && AllCompleted(f, l.completed) && Unfinished(f, l.completed)
    requires m.format == f && m.firstServer == first && m.setsWon == Tally(l.completed) && m.completedSets == l.completed
    requires m.server == Turn(first, GamesPlayed(l.completed) + m.current.games.a + m.current.games.b - 1)
    requires var r := SetResult(m.current.games.a, m.current.games.b);
             && LegalCompleted(f, r) && SetWinner(r) == w && Tally(l.completed + [r]) == Tally(l.completed).Inc(w)
             && GamesPlayed(l.completed + [r]) == GamesPlayed(l.completed) + r.gamesA + r.gamesB
             && Tally(l.completed).Inc(w).Get(w) >= f.setsToWin
    ensures Finished(f, first, CompleteSet(m, w))
    ensures CompleteSet(m, w).winner == Some(w)
  {
    var r := SetResult(m.current.games.a, m.current.games.b);
    var completed := l.completed + [r];
    AllCompletedSnoc(f, l.completed, r);
    hide AllCompleted, LegalCompleted, Tally, GamesPlayed, Turn;
    assert completed[..|completed| - 1] == l.completed && completed[|completed| - 1] == r;
  }

  lemma NewSetLine(f: MatchFormat, sets: seq<SetResult>)
    requires WellFormed(f) && AllCompleted(f, sets) && Unfinished(f, sets)
    ensures LegalLine(f, Line(sets, ZERO, ZERO))
  {
  }

  lemma GameContinuesSet(f: MatchFormat, first: Player, l: Line, w: Player)
    requires WellFormed(f) && LegalLine(f, l) && !AtTiebreak(f, l.games) && LegalGames(f, l.games.Inc(w))
    ensures var l' := l.(games := l.games.Inc(w));
            LegalLine(f, l') && WinGame(Canonical(f, first, l), w) == Ok(Canonical(f, first, l'))
  {
    GamesPlayedNonNegative(f, l.completed);
    if AtTiebreak(f, l.games.Inc(w)) {
      assert !Decisive(f, TiebreakTarget(f, Tally(l.completed)), ZERO);
    }
  }

  lemma GameWinsSet(f: MatchFormat, first: Player, l: Line, w: Player)
    requires WellFormed(f) && LegalLine(f, l) && !AtTiebreak(f, l.games) && !LegalGames(f, l.games.Inc(w))
    ensures WinGame(Canonical(f, first, l), w).Ok?
    ensures AfterSet(f, first, l, l.games.Inc(w), w, WinGame(Canonical(f, first, l), w).value)
  {
    var m, games := Canonical(f, first, l), l.games.Inc(w);
    assert WonBy(f, games, w);
    var played := m.(current := m.current.(games := games));
    assert WinGame(m, w) == Ok(CompleteSet(played, w));
    GamesPlayedNonNegative(f, l.completed);
    SetEnds(f, first, l, played, w);
  }

  /** A game either goes on the line or wins the set. */
  lemma GameStep(f: MatchFormat, first: Player, l: Line, w: Player)
    requires WellFormed(f) && LegalLine(f, l) && !AtTiebreak(f, l.games)
    ensures WinGame(Canonical(f, first, l), w).Ok?
    ensures var m, games := WinGame(Canonical(f, first, l), w).value, l.games.Inc(w);
            if LegalGames(f, games)
            then LegalLine(f, l.(games := games)) && m == Canonical(f, first, l.(games := games))
            else AfterSet(f, first, l, games, w, m)
  {
    if LegalGames(f, l.games.Inc(w)) {
      GameContinuesSet(f, first, l, w);
    } else {
      GameWinsSet(f, first, l, w);
    }
  }

  lemma PointContinuesTiebreak(f: MatchFormat, first: Player, l: Line, w: Player)
    requires WellFormed(f) && LegalLine(f, l) && AtTiebreak(f, l.games)
    requires !Decisive(f, TiebreakTarget(f, Tally(l.completed)), l.points.Inc(w))
    ensures var l' := l.(points := l.points.Inc(w));
            LegalLine(f, l') && WinTiebreakPoint(Canonical(f, first, l), w) == Ok(Canonical(f, first, l'))
  {
    hide ServerForTBPoint;
  }

  lemma PointWinsSet(f: MatchFormat, first: Player, l: Line, w: Player)
    requires WellFormed(f) && LegalLine(f, l) && AtTiebreak(f, l.games)
    requires Decisive(f, TiebreakTarget(f, Tally(l.completed)), l.points.Inc(w))
    ensures WinTiebreakPoint(Canonical(f, first, l), w).Ok?
    ensures AfterSet(f, first, l, l.games.Inc(w), w, WinTiebreakPoint(Canonical(f, first, l), w).value)
  {
    hide ServerForTBPoint;
    var m, points, games := Canonical(f, first, l), l.points.Inc(w), l.games.Inc(w);
    assert Clinched(f, TiebreakTarget(f, Tally(l.completed)), points, w);
    var m' := m.(current := Set(games, Tiebreak, points, m.current.pointsPlayedInTB + 1, m.current.firstServerOfTiebreak),
                 server := m.current.firstServerOfTiebreak);
    assert ZERO.Put(w, f.tiebreakAt + 1).Put(w.Opponent(), f.tiebreakAt) == games;
    assert WinTiebreakPoint(m, w) == Ok(CompleteSet(m', w));
    GamesPlayedNonNegative(f, l.completed);
    SetEnds(f, first, l, m', w);
  }

  /** A point either goes on the line or wins the set. */
  lemma PointStep(f: MatchFormat, first: Player, l: Line, w: Player)
    requires WellFormed(f) && LegalLine(f, l) && AtTiebreak(f, l.games)
    ensures WinTiebreakPoint(Canonical(f, first, l), w).Ok?
    ensures var m, points := WinTiebreakPoint(Canonical(f, first, l), w).value, l.points.Inc(w);
            if Decisive(f, TiebreakTarget(f, Tally(l.completed)), points)
            then AfterSet(f, first, l, l.games.Inc(w), w, m)
            else LegalLine(f, l.(points := points)) && m == Canonical(f, first, l.(points := points))
  {
    if Decisive(f, TiebreakTarget(f, Tally(l.completed)), l.points.Inc(w)) {
      PointWinsSet(f, first, l, w);
    } else {
      PointContinuesTiebreak(f, first, l, w);
    }
  }

  // Every reachable state.

  /** Unfinished states are in closed form; finished ones hold a complete record. */
  ghost predicate Invariant(f: MatchFormat, first: Player, m: State) {
    if m.done then Finished(f, first, m)
    else LegalLine(f, LineOf(m)) && m == Canonical(f, first, LineOf(m))
  }

  lemma AfterSetKeepsInvariant(f: MatchFormat, first: Player, l: Line, games: Pair, w: Player, m: State)
    requires WellFormed(f) && AfterSet(f, first, l, games, w, m)
    ensures Invariant(f, first, m)
  {
  }

  lemma {:induction false} WinGameKeepsInvariant(f: MatchFormat, first: Player, m: State, w: Player)
    requires WellFormed(f) && Invariant(f, first, m) && !m.done && m.current.phase == Regular
    ensures WinGame(m, w).Ok? && Invariant(f, first, WinGame(m, w).value)
  {
    var l := LineOf(m);
    GameStep(f, first, l, w);
    if !LegalGames(f, l.games.Inc(w)) {
      AfterSetKeepsInvariant(f, first, l, l.games.Inc(w), w, WinGame(m, w).value);
    }
  }

  lemma {:induction false} WinPointKeepsInvariant(f: MatchFormat, first: Player, m: State, w: Player)
    requires WellFormed(f) && Invariant(f, first, m) && !m.done && m.current.phase == Tiebreak
    ensures WinTiebreakPoint(m, w).Ok? && Invariant(f, first, WinTiebreakPoint(m, w).value)
  {
    var l := LineOf(m);
    PointStep(f, first, l, w);
    if Decisive(f, TiebreakTarget(f, Tally(l.completed)), l.points.Inc(w)) {
      AfterSetKeepsInvariant(f, first, l, l.games.Inc(w), w, WinTiebreakPoint(m, w).value);
    }
  }

  /** From a reachable state the only refusals are a finished match and the wrong phase. */
  lemma {:induction false} PlayKeepsInvariant(f: MatchFormat, first: Player, m: State, e: Event)
    requires WellFormed(f) && Invariant(f, first, m)
    ensures Play(m, e).Ok? <==> !m.done && (e.Game? <==> m.current.phase == Regular)
    ensures Play(m, e).Err? ==> Play(m, e).error == if m.done then MatchComplete else WrongPhase
    ensures Play(m, e).Ok? ==> Invariant(f, first, Play(m, e).value)
  {
    if !m.done {
      if e.Game? && m.current.phase == Regular {
        WinGameKeepsInvariant(f, first, m, e.winner);
      } else if e.Point? && m.current.phase == Tiebreak {
        WinPointKeepsInvariant(f, first, m, e.winner);
      }
    }
  }

  lemma {:induction false} RunKeepsInvariant(f: MatchFormat, first: Player, history: seq<Event>)
    requires WellFormed(f) && Run(NewMatch(f, first), history).Ok?
    ensures Invariant(f, first, Run(NewMatch(f, first), history).value)
  {
    if history == [] {
      var start := Line([], ZERO, ZERO);
      assert !Decisive(f, TiebreakTarget(f, ZERO), ZERO);
      assert LegalLine(f, start) && NewMatch(f, first) == Canonical(f, first, start);
    } else {
      RunKeepsInvariant(f, first, history[..|history| - 1]);
      PlayKeepsInvariant(f, first, Run(NewMatch(f, first), history[..|history| - 1]).value, history[|history| - 1]);
    }
  }

  ghost predicate Reachable(f: MatchFormat, first: Player, m: State) {
    exists history :: Run(NewMatch(f, first), history) == Ok(m)
  }

  lemma ReachableKeepsInvariant(f: MatchFormat, first: Player, m: State)
    requires WellFormed(f) && Reachable(f, first, m)
    ensures Invariant(f, first, m)
  {
    var history :| Run(NewMatch(f, first), history) == Ok(m);
    RunKeepsInvariant(f, first, history);
  }

  /** What holds of every match that can be played, in terms of its fields. */
  lemma ReachableFacts(f: MatchFormat, first: Player, m: State)
    requires WellFormed(f) && Reachable(f, first, m)
    ensures m.format == f && m.firstServer == first
    ensures m.setsWon == Tally(m.completedSets) && AllCompleted(f, m.completedSets)
    ensures m.done <==> m.winner.Some?
    ensures m.done <==> m.setsWon.a >= f.setsToWin || m.setsWon.b >= f.setsToWin
    ensures m.done ==> m.setsWon.Get(m.winner.value) == f.setsToWin
    ensures |m.completedSets| <= 2 * f.setsToWin - 1
    ensures !m.done ==> |m.completedSets| <= 2 * f.setsToWin - 2
    ensures !m.done ==> (m.current.phase == Tiebreak <==> m.current.games == Pair(f.gamesPerSet, f.gamesPerSet))
    ensures !m.done ==> m.current.games.a + m.current.games.b <= 2 * f.gamesPerSet
    ensures !m.done ==> m.current.pointsPlayedInTB == m.current.tiebreakPoints.a + m.current.tiebreakPoints.b
    ensures !m.done && m.current.phase == Tiebreak ==> !Decisive(f, TiebreakTarget(f, m.setsWon), m.current.tiebreakPoints)
    ensures forall i :: 0 <= i < |m.completedSets| ==>
              var r := m.completedSets[i];
              r.gamesA + r.gamesB <= 2 * f.gamesPerSet + if r.gamesA - r.gamesB in {-1, 1} then 1 else 0
  {
    ReachableKeepsInvariant(f, first, m);
    TallyCountsSets(m.completedSets);
    forall i | 0 <= i < |m.completedSets|
      ensures var r := m.completedSets[i];
              r.gamesA + r.gamesB <= 2 * f.gamesPerSet + if r.gamesA - r.gamesB in {-1, 1} then 1 else 0
    {
      assert LegalCompleted(f, m.completedSets[i]);
    }
  }

  /** Two histories that show the same unfinished score have led to the same match. */
  lemma PathIndependence(f: MatchFormat, first: Player, h1: seq<Event>, h2: seq<Event>)
    requires WellFormed(f)
    requires Run(NewMatch(f, first), h1).Ok? && Run(NewMatch(f, first), h2).Ok?
    requires !Run(NewMatch(f, first), h1).value.done && !Run(NewMatch(f, first), h2).value.done
    requires LineOf(Run(NewMatch(f, first), h1).value) == LineOf(Run(NewMatch(f, first), h2).value)
    ensures Run(NewMatch(f, first), h1) == Run(NewMatch(f, first), h2)
  {
    RunKeepsInvariant(f, first, h1);
    RunKeepsInvariant(f, first, h2);
  }

  /** Who serves: the serve changes hands once per game, a tiebreak counting as one. */
  lemma WhoServes(f: MatchFormat, first: Player, m: State)
    requires WellFormed(f) && Reachable(f, first, m) && !m.done
    ensures m.current.tiebreakPoints.a >= 0 && m.current.tiebreakPoints.b >= 0
    ensures var next := Turn(first, GamesPlayed(m.completedSets) + m.current.games.a + m.current.games.b);
            m.server == if m.current.phase == Regular then next
                        else ServerForTBPoint(m.current.tiebreakPoints.a + m.current.tiebreakPoints.b, next)
  {
    ReachableKeepsInvariant(f, first, m);
  }

  lemma GameDecides(f: MatchFormat, games: Pair, w: Player)
    requires WellFormed(f) && LegalGames(f, games) && !AtTiebreak(f, games)
    ensures !LegalGames(f, games.Inc(w)) <==>
            games.Inc(w).Get(w) >= f.gamesPerSet && games.Inc(w).Get(w) - games.Inc(w).Get(w.Opponent()) >= 2
  {
  }

  /**
   When a set is won in games: at games per set or more with a lead of two; level at the tie a tiebreak follows.
   */
  lemma GameEnds(f: MatchFormat, first: Player, m: State, w: Player)
    requires WellFormed(f) && Reachable(f, first, m) && !m.done && m.current.phase == Regular
    ensures WinGame(m, w).Ok?
    ensures var m', games := WinGame(m, w).value, m.current.games.Inc(w);
            if games.Get(w) >= f.gamesPerSet && games.Get(w) - games.Get(w.Opponent()) >= 2
            then && m'.completedSets == m.completedSets + [SetResult(games.a, games.b)]
                 && m'.setsWon == m.setsWon.Inc(w)
                 && (m'.done <==> m.setsWon.Get(w) + 1 == f.setsToWin) && (m'.done ==> m'.winner == Some(w))
            else && m'.completedSets == m.completedSets && m'.setsWon == m.setsWon && !m'.done
                 && m'.current.games == games
                 && (m'.current.phase == Tiebreak <==> games.a == games.b == f.tiebreakAt)
  {
    ReachableKeepsInvariant(f, first, m);
    var l := LineOf(m);
    GameStep(f, first, l, w);
    GameDecides(f, l.games, w);
    hide LegalGames, WinGame, AfterSet, Turn, ServerForTBPoint, GamesPlayed;
    if !LegalGames(f, l.games.Inc(w)) {
      AfterSetTally(f, first, l, l.games.Inc(w), w, WinGame(m, w).value);
    }
  }

  /** A point decides an undecided tiebreak exactly if its winner now has enough points and leads by two. */
  lemma PointDecides(f: MatchFormat, setsWon: Pair, points: Pair, w: Player)
    requires WellFormed(f) && !Decisive(f, TiebreakTarget(f, setsWon), points)
    ensures var toWin := if f.finalSetTiebreakPointsToWin > 0 && setsWon.a == setsWon.b == f.setsToWin - 1
                         then f.finalSetTiebreakPointsToWin else f.tiebreakPointsToWin;
            Decisive(f, TiebreakTarget(f, setsWon), points.Inc(w)) <==>
            points.Inc(w).Get(w) >= toWin && points.Inc(w).Get(w) - points.Inc(w).Get(w.Opponent()) >= 2
  {
  }

  lemma AfterSetTally(f: MatchFormat, first: Player, l: Line, games: Pair, w: Player, m: State)
    requires WellFormed(f) && Unfinished(f, l.completed) && AfterSet(f, first, l, games, w, m)
    ensures m.completedSets == l.completed + [SetResult(games.a, games.b)]
    ensures m.setsWon == Tally(l.completed).Inc(w)
    ensures (m.done <==> Tally(l.completed).Get(w) + 1 == f.setsToWin) && (m.done ==> m.winner == Some(w))
  {
    assert Tally(l.completed).Get(w) < f.setsToWin && WonBy(f, games, w);
    WinnerOfWon(f, games, w);
    TallySnoc(l.completed, SetResult(games.a, games.b));
    hide *;
    AfterSetCases(f, first, l, games, w, m);
  }

  lemma AfterSetCases(f: MatchFormat, first: Player, l: Line, games: Pair, w: Player, m: State)
    requires AfterSet(f, first, l, games, w, m)
    ensures var completed := l.completed + [SetResult(games.a, games.b)];
            && m.completedSets == completed && m.setsWon == Tally(completed)
            && (m.done <==> Tally(completed).Get(w) >= f.setsToWin) && (m.done ==> m.winner == Some(w))
  {
    hide GamesPlayed, Turn, ServerForTBPoint, LegalLine, WonBy, AllCompleted, Tally;
  }

  /**
   When a tiebreak ends: a point wins the set exactly when the winner has the points to win, of the final set when both
   sides need one more set and the format sets them apart, and leads by two. Otherwise only the points go up.
   */
  lemma TiebreakEnds(f: MatchFormat, first: Player, m: State, w: Player)
    requires WellFormed(f) && Reachable(f, first, m) && !m.done && m.current.phase == Tiebreak
    ensures WinTiebreakPoint(m, w).Ok?
    ensures var m', points := WinTiebreakPoint(m, w).value, m.current.tiebreakPoints.Inc(w);
            var toWin := if f.finalSetTiebreakPointsToWin > 0 && m.setsWon.a == m.setsWon.b == f.setsToWin - 1
                         then f.finalSetTiebreakPointsToWin else f.tiebreakPointsToWin;
            if points.Get(w) >= toWin && points.Get(w) - points.Get(w.Opponent()) >= 2
            then && m'.completedSets == m.completedSets + [SetResult(m.current.games.Inc(w).a, m.current.games.Inc(w).b)]
                 && m'.setsWon == m.setsWon.Inc(w)
                 && (m'.done <==> m.setsWon.Get(w) + 1 == f.setsToWin) && (m'.done ==> m'.winner == Some(w))
            else && m'.completedSets == m.completedSets && m'.setsWon == m.setsWon && !m'.done
                 && m'.current.games == m.current.games && m'.current.tiebreakPoints == points
  {
    ReachableKeepsInvariant(f, first, m);
    var l := LineOf(m);
    PointStep(f, first, l, w);
    PointDecides(f, Tally(l.completed), l.points, w);
    hide Decisive, TiebreakTarget, WinTiebreakPoint, AfterSet, Turn, ServerForTBPoint, GamesPlayed;
    if Decisive(f, TiebreakTarget(f, Tally(l.completed)), l.points.Inc(w)) {
      AfterSetTally(f, first, l, l.games.Inc(w), w, WinTiebreakPoint(m, w).value);
    }
  }

  /** The presets: seven points, but ten at two sets all in a men's major and at one set all in a women's. */
  lemma PresetTiebreaks(f: MatchFormat, first: Player, m: State, w: Player)
    requires f in {DEFAULT_FORMAT, GRAND_SLAM_MEN, GRAND_SLAM_WOMEN}
    requires Reachable(f, first, m) && !m.done && m.current.phase == Tiebreak
    ensures WinTiebreakPoint(m, w).Ok?
    ensures var points := m.current.tiebreakPoints.Inc(w);
            var toWin := if (f == GRAND_SLAM_MEN && m.setsWon == Pair(2, 2)) || (f == GRAND_SLAM_WOMEN && m.setsWon == Pair(1, 1))
                         then 10 else 7;
            |WinTiebreakPoint(m, w).value.completedSets| > |m.completedSets| <==>
            points.Get(w) >= toWin && points.Get(w) - points.Get(w.Opponent()) >= 2
  {
    PresetsAreWellFormed();
    TiebreakEnds(f, first, m, w);
  }

  // Every legal line is reachable.

  lemma RunSnoc(m: State, history: seq<Event>, e: Event)
    requires Run(m, history).Ok?
    ensures Run(m, history + [e]) == Play(Run(m, history).value, e)
  {
    assert (history + [e])[..|history|] == history;
  }

  /** A line from which one event ends the set at `last`, and that event. */
  ghost function LastStep(f: MatchFormat, completed: seq<SetResult>, last: SetResult): (r: (Line, Event)) {
    var w, games := SetWinner(last), Pair(last.gamesA, last.gamesB);
    var before := games.Put(w, games.Get(w) - 1);
    if AtTiebreak(f, before) then
      var target := TiebreakTarget(f, Tally(completed));
      (Line(completed, before, ZERO.Put(w, if target == 1 then 1 else target - 1)), Point(w))
    else
      (Line(completed, before, ZERO), Game(w))
  }

  lemma LastStepIsLegal(f: MatchFormat, completed: seq<SetResult>, last: SetResult)
    requires WellFormed(f) && AllCompleted(f, completed) && Unfinished(f, completed) && LegalCompleted(f, last)
    ensures var (l, e) := LastStep(f, completed, last);
            && LegalLine(f, l) && e.winner == SetWinner(last)
            && l.games.Inc(e.winner) == Pair(last.gamesA, last.gamesB)
            && (e.Game? <==> !AtTiebreak(f, l.games))
            && !LegalGames(f, l.games.Inc(e.winner))
            && (e.Point? ==> Decisive(f, TiebreakTarget(f, Tally(completed)), l.points.Inc(e.winner)))
  {
    assert WonBy(f, Pair(last.gamesA, last.gamesB), SetWinner(last));
  }

  lemma LastStepWinsSet(f: MatchFormat, first: Player, completed: seq<SetResult>, last: SetResult)
    requires WellFormed(f) && AllCompleted(f, completed) && Unfinished(f, completed) && LegalCompleted(f, last)
    ensures var (l, e) := LastStep(f, completed, last);
            && l.completed == completed && LegalLine(f, l)
            && Play(Canonical(f, first, l), e).Ok?
            && AfterSet(f, first, l, Pair(last.gamesA, last.gamesB), SetWinner(last), Play(Canonical(f, first, l), e).value)
  {
    var w := SetWinner(last);
    var (l, e) := LastStep(f, completed, last);
    LastStepIsLegal(f, completed, last);
    if e.Game? {
      GameWinsSet(f, first, l, w);
    } else {
      PointWinsSet(f, first, l, w);
    }
  }

  /** The line one event earlier, and the event that leads from it to `l`. */
  ghost function Undo(f: MatchFormat, l: Line): (r: (Line, Event))
    requires WellFormed(f) && LegalLine(f, l) && l != Line([], ZERO, ZERO)
  {
    if l.points != ZERO then
      var w := if l.points.a >= l.points.b then A else B;
      (l.(points := l.points.Put(w, l.points.Get(w) - 1)), Point(w))
    else if l.games != ZERO then
      var w := if l.games.a >= l.games.b then A else B;
      (l.(games := l.games.Put(w, l.games.Get(w) - 1)), Game(w))
    else
      LastStep(f, l.completed[..|l.completed| - 1], l.completed[|l.completed| - 1])
  }

  lemma UndoPoint(f: MatchFormat, first: Player, l: Line)
    requires WellFormed(f) && LegalLine(f, l) && l.points != ZERO
    ensures LegalLine(f, Undo(f, l).0)
    ensures Play(Canonical(f, first, Undo(f, l).0), Undo(f, l).1) == Ok(Canonical(f, first, l))
  {
    var (l', e) := Undo(f, l);
    assert LegalLine(f, l');
    assert l'.(points := l'.points.Inc(e.winner)) == l;
    PointStep(f, first, l', e.winner);
  }

  lemma UndoGame(f: MatchFormat, first: Player, l: Line)
    requires WellFormed(f) && LegalLine(f, l) && l.points == ZERO && l.games != ZERO
    ensures LegalLine(f, Undo(f, l).0)
    ensures Play(Canonical(f, first, Undo(f, l).0), Undo(f, l).1) == Ok(Canonical(f, first, l))
  {
    var (l', e) := Undo(f, l);
    assert LegalLine(f, l');
    assert l'.(games := l'.games.Inc(e.winner)) == l;
    GameStep(f, first, l', e.winner);
  }

  lemma UndoIsLegal(f: MatchFormat, first: Player, l: Line)
    requires WellFormed(f) && LegalLine(f, l) && l != Line([], ZERO, ZERO)
    ensures LegalLine(f, Undo(f, l).0)
    ensures Play(Canonical(f, first, Undo(f, l).0), Undo(f, l).1) == Ok(Canonical(f, first, l))
  {
    if l.points != ZERO {
      UndoPoint(f, first, l);
    } else if l.games != ZERO {
      UndoGame(f, first, l);
    } else {
      var completed, last := l.completed[..|l.completed| - 1], l.completed[|l.completed| - 1];
      assert completed + [last] == l.completed;
      TallyOfPrefix(l.completed, |l.completed| - 1);
      LastStepWinsSet(f, first, completed, last);
    }
  }

  lemma {:induction false} LegalLineIsReachable(f: MatchFormat, first: Player, l: Line)
    requires WellFormed(f) && LegalLine(f, l)
    ensures Reachable(f, first, Canonical(f, first, l))
    decreases |l.completed|, l.games.a + l.games.b, l.points.a + l.points.b
  {
    if l == Line([], ZERO, ZERO) {
      assert Run(NewMatch(f, first), []) == Ok(Canonical(f, first, l));
    } else {
      var (l', e) := Undo(f, l);
      UndoIsLegal(f, first, l);
      LegalLineIsReachable(f, first, l');
      var history :| Run(NewMatch(f, first), history) == Ok(Canonical(f, first, l'));
      RunSnoc(NewMatch(f, first), history, e);
      assert Run(NewMatch(f, first), history + [e]) == Ok(Canonical(f, first, l));
    }
  }

  /** The unfinished matches are exactly the canonical states of the legal lines. */
  lemma ReachableUnfinished(f: MatchFormat, first: Player, m: State)
    requires WellFormed(f)
    ensures Reachable(f, first, m) && !m.done <==> LegalLine(f, LineOf(m)) && m == Canonical(f, first, LineOf(m))
  {
    if Reachable(f, first, m) && !m.done {
      ReachableKeepsInvariant(f, first, m);
    }
    if LegalLine(f, LineOf(m)) && m == Canonical(f, first, LineOf(m)) {
      LegalLineIsReachable(f, first, LineOf(m));
    }
  }

  /** The scores matches end with: the last set decides, and every set is legal. */
  predicate FinalScore(f: MatchFormat, sets: seq<SetResult>) {
    && sets != [] && AllCompleted(f, sets)
    && Unfinished(f, sets[..|sets| - 1]) && !Unfinished(f, sets)
  }

  lemma FinishedScores(f: MatchFormat, first: Player, sets: seq<SetResult>)
    requires WellFormed(f)
    ensures FinalScore(f, sets) <==>
            exists m :: Reachable(f, first, m) && m.done && m.completedSets == sets
  {
    if FinalScore(f, sets) {
      var m := FinalScoreIsReachable(f, first, sets);
    }
    if exists m :: Reachable(f, first, m) && m.done && m.completedSets == sets {
      var m :| Reachable(f, first, m) && m.done && m.completedSets == sets;
      ReachableKeepsInvariant(f, first, m);
    }
  }

  lemma FinalScoreIsReachable(f: MatchFormat, first: Player, sets: seq<SetResult>) returns (m: State)
    requires WellFormed(f) && FinalScore(f, sets)
    ensures Reachable(f, first, m) && m.done && m.completedSets == sets
  {
    var completed, last := sets[..|sets| - 1], sets[|sets| - 1];
    assert completed + [last] == sets;
    LastStepWinsSet(f, first, completed, last);
    TallySnoc(completed, last);
    var (l, e) := LastStep(f, completed, last);
    LegalLineIsReachable(f, first, l);
    m := Play(Canonical(f, first, l), e).value;
    var history :| Run(NewMatch(f, first), history) == Ok(Canonical(f, first, l));
    RunSnoc(NewMatch(f, first), history, e);
    assert Run(NewMatch(f, first), history + [e]) == Ok(m);
  }
}
