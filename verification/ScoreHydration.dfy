/** From score text to match, and why the match is the right one. */
module ScoreHydration {
  import opened Wrappers
  import opened Rules
  import opened ScoreLine
  import opened Matches
  import opened Score
  import opened Hydration
  import ScoreText

  function ScoreNeedsTiebreakHydration(s: SetScore, f: MatchFormat, complete: bool): bool {
    var tb := f.tiebreakAt;
    if s.gamesA == tb + 1 && s.gamesB == tb then true
    else if s.gamesB == tb + 1 && s.gamesA == tb then true
    else if s.gamesA == tb && s.gamesB == tb then s.tiebreak.Some? || !complete
    else false
  }

  /** Plays one set: a completed token is recorded, an open one is reached, an overlong tie fails. */
  method HydrateSet(m: Match, s: SetScore, complete: bool) returns (err: Option<ScoreError>)
    requires WellFormed(m.format)
    requires !m.done ==> InPlay(m) && m.current.games == ZERO
    requires complete <==> CompletedToken(m.format, s)
    requires complete || OpenToken(m.format, s, m.setsWon) || OverlongTie(m.format, s)
    modifies m
    ensures old(m.done) ==> err == Some(RuleViolation(MatchComplete)) && m.View() == old(m.View())
    ensures !old(m.done) && complete ==>
              && err == None
              && AfterSet(m.format, m.firstServer, old(LineOf(m.View())), GamesOf(s), SetWinner(ResultOf(s)), m.View())
    ensures !old(m.done) && OpenToken(m.format, s, old(m.setsWon)) ==>
              err == None && InPlay(m) && LineOf(m.View()) == Line(old(m.completedSets), GamesOf(s), PointsOf(s))
    ensures !old(m.done) && OverlongTie(m.format, s) ==> err == Some(Hydration) && !m.done
  {
    if m.done {
      return Some(RuleViolation(MatchComplete));
    }
    TokenMeaning(s, m.format, m.setsWon);
    if ScoreNeedsTiebreakHydration(s, m.format, complete) {
      err := ReplayRegularGamesTo(m, m.format.tiebreakAt, m.format.tiebreakAt);
      if err.Some? {
        return;
      }
      if complete {
        err := ReplayTiebreakUntilSetComplete(m, s.gamesA, s.gamesB);
        return;
      }
      var (tba, tbb) := TiebreakPoints(s);
      err := ReplayTiebreakPointsTo(m, tba, tbb);
      return;
    }
    if complete {
      err := ReplayRegularGamesUntilSetComplete(m, s.gamesA, s.gamesB);
      return;
    }
    err := ReplayRegularGamesTo(m, s.gamesA, s.gamesB);
  }

  method AssertInProgressSet(m: Match, s: SetScore) returns (err: Option<ScoreError>)
    ensures err == None <==>
            && m.current.games == GamesOf(s)
            && (if GamesOf(s) == Pair(m.format.tiebreakAt, m.format.tiebreakAt)
                then m.current.phase == Tiebreak && m.current.tiebreakPoints == PointsOf(s)
                else s.tiebreak == None && m.current.phase == Regular)
    ensures err in {None, Some(ScoreError.Hydration), Some(InvalidSet)}
    ensures err == Some(InvalidSet) <==>
            && m.current.games == GamesOf(s) && s.tiebreak.Some?
            && GamesOf(s) != Pair(m.format.tiebreakAt, m.format.tiebreakAt)
  {
    if m.current.games.a != s.gamesA || m.current.games.b != s.gamesB {
      return Some(ScoreError.Hydration);
    }
    var tb := m.format.tiebreakAt;
    if s.gamesA == tb && s.gamesB == tb {
      if m.current.phase != Tiebreak {
        return Some(ScoreError.Hydration);
      }
      var (tba, tbb) := TiebreakPoints(s);
      if m.current.tiebreakPoints.a != tba || m.current.tiebreakPoints.b != tbb {
        return Some(ScoreError.Hydration);
      }
      return None;
    }
    if s.tiebreak.Some? {
      return Some(InvalidSet);
    }
    if m.current.phase != Regular {
      return Some(ScoreError.Hydration);
    }
    return None;
  }

  // The meaning of a sequence of tokens.

  /** The line written by the tokens: a completed last token leaves the next set at 0-0. */
  function LineOfTokens(f: MatchFormat, sets: seq<SetScore>): Line
    requires sets != []
  {
    var s := sets[|sets| - 1];
    if CompletedToken(f, s) then Line(Results(sets), ZERO, ZERO)
    else Line(Results(sets)[..|sets| - 1], GamesOf(s), PointsOf(s))
  }

  /** What hydration of a parsed score gives. */
  function Outcome(f: MatchFormat, first: Player, sets: seq<SetScore>): Result<State, ScoreError> {
    match Verdict(f, sets)
    case Some(e) => Err(e)
    case None =>
      if sets != [] && OverlongTie(f, sets[|sets| - 1]) then Err(ScoreError.Hydration)
      else if sets != [] && CompletedToken(f, sets[|sets| - 1]) && !Unfinished(f, Results(sets)) then Err(AlreadyComplete)
      else if sets != [] then Ok(Canonical(f, first, LineOfTokens(f, sets)))
      else Err(ScoreEmpty)
  }

  lemma RecordedSet(f: MatchFormat, first: Player, start: Line, s: SetScore, m: State)
    requires WellFormed(f) && CompletedToken(f, s)
    requires AfterSet(f, first, start, GamesOf(s), SetWinner(ResultOf(s)), m)
    ensures m.completedSets == start.completed + [ResultOf(s)] && m.setsWon == Tally(m.completedSets)
    ensures Unfinished(f, start.completed) ==> (m.done <==> !Unfinished(f, m.completedSets))
    ensures !m.done ==> LegalLine(f, LineOf(m)) && m == Canonical(f, first, Line(m.completedSets, ZERO, ZERO))
  {
    hide LegalCompleted, WonBy, GamesPlayed, Turn;
    var completed := start.completed + [ResultOf(s)];
    TallySnoc(start.completed, ResultOf(s));
    assert SetResult(GamesOf(s).a, GamesOf(s).b) == ResultOf(s);
    if Tally(completed).Get(SetWinner(ResultOf(s))) < f.setsToWin {
      assert m == Canonical(f, first, Line(completed, ZERO, ZERO));
    } else {
      assert m.done && m.completedSets == completed;
    }
  }

  /** In an accepted sequence every token is met with the match unfinished, and classified. */
  lemma TokenAt(f: MatchFormat, sets: seq<SetScore>, i: nat)
    requires WellFormed(f) && i < |sets| && OpenSequence(f, sets) && PassableLast(f, sets)
    ensures var s, setsWon := sets[i], Tally(Results(sets)[..i]);
            && Unfinished(f, Results(sets)[..i])
            && ClassifySet(s, f, setsWon).Ok?
            && (ClassifySet(s, f, setsWon).value.Some? <==> CompletedToken(f, s))
            && (CompletedToken(f, s) || (i == |sets| - 1 && (OpenToken(f, s, setsWon) || OverlongTie(f, s))))
            && !(OpenToken(f, s, setsWon) && OverlongTie(f, s))
            && (CompletedToken(f, s) ==> !OverlongTie(f, s))
    ensures Results(sets)[..i + 1] == Results(sets)[..i] + [ResultOf(sets[i])]
  {
    UnfinishedPrefix(f, Results(sets), i, |sets| - 1);
    TokenMeaning(sets[i], f, Tally(Results(sets)[..i]));
    ResultsTake(f, sets, i);
    if i < |sets| - 1 {
      assert sets[i] == sets[..|sets| - 1][i];
    }
  }

  /** Exactly these sets have been recorded, and the next one, if any, has not begun. */
  ghost predicate AtSet(m: Match, recorded: seq<SetResult>)
    reads m
  {
    && m.completedSets == recorded && m.setsWon == Tally(recorded)
    && (m.done <==> !Unfinished(m.format, recorded))
    && (!m.done ==> InPlay(m) && m.current.games == ZERO)
  }

  /** One round of the hydration loop; `winner` is the winner of a completed set. */
  method HydrateToken(m: Match, s: SetScore, isLast: bool, setsWon: Pair)
    returns (err: Option<ScoreError>, winner: Option<Player>)
    requires WellFormed(m.format) && AtSet(m, m.completedSets) && !m.done && setsWon == m.setsWon
    requires CompletedToken(m.format, s) || (isLast && (OpenToken(m.format, s, setsWon) || OverlongTie(m.format, s)))
    modifies m
    ensures CompletedToken(m.format, s) ==>
              && err == None && winner == Some(SetWinner(ResultOf(s)))
              && AtSet(m, old(m.completedSets) + [ResultOf(s)]) && m.setsWon == setsWon.Inc(winner.value)
    ensures OpenToken(m.format, s, setsWon) ==>
              && err == None && winner == None && m.setsWon == setsWon
              && InPlay(m) && LineOf(m.View()) == Line(old(m.completedSets), GamesOf(s), PointsOf(s))
    ensures OverlongTie(m.format, s) ==> err == Some(ScoreError.Hydration)
  {
    ghost var start := LineOf(m.View());
    TokenMeaning(s, m.format, setsWon);
    winner := None;
    var classified := ClassifySet(s, m.format, setsWon);
    if classified.Err? {
      return ErrorOf(classified), None;
    }
    var completed := classified.value.Some?;
    err := HydrateSet(m, s, completed);
    if err.Some? {
      return;
    }
    if completed {
      RecordedSet(m.format, m.firstServer, start, s, m.View());
      TallySnoc(start.completed, ResultOf(s));
      if |m.completedSets| == 0 {
        return Some(ScoreError.Hydration), None;
      }
      var last := m.completedSets[|m.completedSets| - 1];
      if last.gamesA != s.gamesA || last.gamesB != s.gamesB {
        return Some(ScoreError.Hydration), None;
      }
      winner := Some(SetWinner(last));
    } else if isLast {
      err := AssertInProgressSet(m, s);
    }
  }

  /** The loop's own tally of sets equals the match's at every token. */
  method HydrateTokens(m: Match, sets: seq<SetScore>) returns (err: Option<ScoreError>)
    requires WellFormed(m.format) && sets != [] && Verdict(m.format, sets) == None
    requires m.View() == NewMatch(m.format, m.firstServer)
    modifies m
    ensures var last := sets[|sets| - 1];
            if OverlongTie(m.format, last) then err == Some(ScoreError.Hydration)
            else if CompletedToken(m.format, last) then err == None && AtSet(m, Results(sets))
            else err == None && InPlay(m) && LineOf(m.View()) == LineOfTokens(m.format, sets)
  {
    var setsWon := ZERO;
    VerdictMeaning(m.format, sets);
    RunKeepsInvariant(m.format, m.firstServer, []);
    ghost var rs := Results(sets);
    assert rs[..0] == [];
    for i := 0 to |sets|
      invariant setsWon == m.setsWon
      invariant i < |sets| || CompletedToken(m.format, sets[i - 1]) ==> AtSet(m, rs[..i])
      invariant i == |sets| && !CompletedToken(m.format, sets[i - 1]) ==>
                  && InPlay(m) && LineOf(m.View()) == LineOfTokens(m.format, sets)
                  && !OverlongTie(m.format, sets[i - 1])
    {
      hide CompletedToken, OpenToken, OverlongTie, ClassifySet, InPlay;
      TokenAt(m.format, sets, i);
      var winner;
      err, winner := HydrateToken(m, sets[i], i == |sets| - 1, setsWon);
      if err.Some? {
        return;
      }
      if winner.Some? {
        setsWon := setsWon.Inc(winner.value);
      }
    }
    assert rs[..|sets|] == rs;
    return None;
  }

  /** The public operation: text in, match or error out. */
  method MatchFromScore(format: MatchFormat, firstServer: Player, score: string) returns (r: Result<Match, ScoreError>)
    requires WellFormed(format)
    ensures match ScoreText.Parsed(score)
            case Err(e) => r == Err(e)
            case Ok(sets) =>
              match Outcome(format, firstServer, sets)
              case Err(e) => r == Err(e)
              case Ok(state) => r.Ok? && fresh(r.value) && r.value.View() == state
  {
    var parsed := ScoreText.ParseScore(score);
    if parsed.Err? {
      return Err(parsed.error);
    }
    var sets := parsed.value;
    var invalid := ValidateScoreSequence(format, sets);
    if invalid.Some? {
      return Err(invalid.value);
    }
    var m := new Match(firstServer, format);
    var err := HydrateTokens(m, sets);
    if err.Some? {
      return Err(err.value);
    }
    if m.done {
      return Err(AlreadyComplete);
    }
    return Ok(m);
  }
}
