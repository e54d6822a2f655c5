/** Hydration succeeds on exactly the scores of unfinished matches, and rebuilds the match. */
module Exactness {
  import opened Wrappers
  import opened Rules
  import opened ScoreLine
  import opened Score
  import opened ScoreHydration
  import ScoreText

  predicate Plain(sets: seq<SetScore>) {
    forall i :: 0 <= i < |sets| ==> sets[i].tiebreak == None
  }

  /** The ways to write an unfinished match; a set at 0-0 may be left out after a completed one. */
  predicate Writes(sets: seq<SetScore>, m: State) {
    && sets != []
    && var n, last := |sets| - 1, sets[|sets| - 1];
    || (Plain(sets) && Results(sets) == m.completedSets && m.current.games == ZERO)
    || (&& Plain(sets[..n]) && Results(sets)[..n] == m.completedSets
        && GamesOf(last) == m.current.games && PointsOf(last) == m.current.tiebreakPoints
        && (last.tiebreak.Some? ==> m.current.phase == Tiebreak))
  }

  lemma PlainResults(f: MatchFormat, sets: seq<SetScore>)
    ensures CompletedTokens(f, sets) <==> Plain(sets) && AllCompleted(f, Results(sets))
  {
    if CompletedTokens(f, sets) {
      forall i | 0 <= i < |sets|
        ensures sets[i].tiebreak == None && LegalCompleted(f, Results(sets)[i])
      {
        assert CompletedToken(f, sets[i]);
      }
    }
    if Plain(sets) && AllCompleted(f, Results(sets)) {
      forall i | 0 <= i < |sets|
        ensures CompletedToken(f, sets[i])
      {
        assert LegalCompleted(f, Results(sets)[i]);
      }
    }
  }

  lemma ResultsOfPrefix(sets: seq<SetScore>, k: nat)
    requires k <= |sets|
    ensures Results(sets[..k]) == Results(sets)[..k]
  {
  }

  lemma OpenSequenceMeaning(f: MatchFormat, sets: seq<SetScore>)
    requires sets != []
    ensures OpenSequence(f, sets) <==>
            && Plain(sets[..|sets| - 1]) && AllCompleted(f, Results(sets)[..|sets| - 1])
            && Unfinished(f, Results(sets)[..|sets| - 1])
  {
    PlainResults(f, sets[..|sets| - 1]);
    ResultsOfPrefix(sets, |sets| - 1);
  }

  /** A rebuilt match is a reachable unfinished match that the score writes. */
  lemma HydrationIsSound(f: MatchFormat, first: Player, sets: seq<SetScore>)
    requires WellFormed(f) && sets != [] && Outcome(f, first, sets).Ok?
    ensures var m := Outcome(f, first, sets).value;
            Reachable(f, first, m) && !m.done && Writes(sets, m)
  {
    VerdictMeaning(f, sets);
    OpenSequenceMeaning(f, sets);
    var n, last, rs := |sets| - 1, sets[|sets| - 1], Results(sets);
    var l, m := LineOfTokens(f, sets), Outcome(f, first, sets).value;
    if CompletedToken(f, last) {
      AllCompletedSnoc(f, rs[..n], ResultOf(last));
      assert rs == rs[..n] + [ResultOf(last)];
      NewSetLine(f, rs);
      assert Plain(sets);
    } else {
      assert OpenToken(f, last, Tally(rs[..n]));
    }
    assert LegalLine(f, l) && LineOf(m) == l;
    ReachableUnfinished(f, first, m);
  }

  /** Whatever way an unfinished match is written, hydration gives back that match. */
  lemma HydrationIsComplete(f: MatchFormat, first: Player, sets: seq<SetScore>, m: State)
    requires WellFormed(f) && Reachable(f, first, m) && !m.done && Writes(sets, m)
    ensures Outcome(f, first, sets) == Ok(m)
  {
    ReachableUnfinished(f, first, m);
    VerdictMeaning(f, sets);
    OpenSequenceMeaning(f, sets);
    TallyCountsSets(m.completedSets);
    var n, last, rs := |sets| - 1, sets[|sets| - 1], Results(sets);
    if Plain(sets) && rs == m.completedSets && m.current.games == ZERO {
      TallyOfPrefix(rs, n);
      assert LegalCompleted(f, rs[n]);
      assert CompletedToken(f, last);
    } else {
      assert OpenToken(f, last, Tally(rs[..n]));
      TokenMeaning(last, f, Tally(rs[..n]));
    }
    assert LineOfTokens(f, sets) == LineOf(m);
  }

  /** Exactness: success on the scores of unfinished matches and on nothing else. */
  lemma HydrationIsExact(f: MatchFormat, first: Player, sets: seq<SetScore>)
    requires WellFormed(f) && sets != []
    ensures Outcome(f, first, sets).Ok? <==> exists m :: Reachable(f, first, m) && !m.done && Writes(sets, m)
  {
    if Outcome(f, first, sets).Ok? {
      HydrationIsSound(f, first, sets);
    }
    if m :| Reachable(f, first, m) && !m.done && Writes(sets, m) {
      HydrationIsComplete(f, first, sets, m);
    }
  }

  /** The full score of an unfinished match, the set in progress included. */
  function TokensOf(m: State): (sets: seq<SetScore>)
    requires forall r | r in m.completedSets :: r.gamesA >= 0 && r.gamesB >= 0
    requires m.current.games.a >= 0 && m.current.games.b >= 0
    requires m.current.tiebreakPoints.a >= 0 && m.current.tiebreakPoints.b >= 0
  {
    seq(|m.completedSets|, i requires 0 <= i < |m.completedSets| =>
      var r := m.completedSets[i]; assert r in m.completedSets; SetScore(r.gamesA, r.gamesB, None)) +
    [SetScore(m.current.games.a, m.current.games.b,
              if m.current.phase == Tiebreak then Some((m.current.tiebreakPoints.a, m.current.tiebreakPoints.b)) else None)]
  }

  lemma ReachableIsNonNegative(f: MatchFormat, first: Player, m: State)
    requires WellFormed(f) && Reachable(f, first, m) && !m.done
    ensures forall r | r in m.completedSets :: r.gamesA >= 0 && r.gamesB >= 0
    ensures m.current.games.a >= 0 && m.current.games.b >= 0
    ensures m.current.tiebreakPoints.a >= 0 && m.current.tiebreakPoints.b >= 0
  {
    ReachableUnfinished(f, first, m);
    forall r | r in m.completedSets
      ensures r.gamesA >= 0 && r.gamesB >= 0
    {
      var i :| 0 <= i < |m.completedSets| && m.completedSets[i] == r;
      assert LegalCompleted(f, m.completedSets[i]);
    }
  }

  /** The round trip through text: print any unfinished match, read it, and it is the same match. */
  lemma ScoreRoundTrip(f: MatchFormat, first: Player, m: State)
    requires WellFormed(f) && Reachable(f, first, m) && !m.done
    ensures forall r | r in m.completedSets :: r.gamesA >= 0 && r.gamesB >= 0
    ensures m.current.games.a >= 0 && m.current.games.b >= 0
    ensures m.current.tiebreakPoints.a >= 0 && m.current.tiebreakPoints.b >= 0
    ensures ScoreText.Parsed(ScoreText.PrintScore(TokensOf(m))) == Ok(TokensOf(m))
    ensures Outcome(f, first, TokensOf(m)) == Ok(m)
  {
    ReachableIsNonNegative(f, first, m);
    ReachableUnfinished(f, first, m);
    var sets := TokensOf(m);
    var n := |sets| - 1;
    assert Results(sets)[..n] == m.completedSets;
    assert Writes(sets, m);
    HydrationIsComplete(f, first, sets, m);
    ScoreText.TextRoundTrip(sets);
  }

  /** Tokens are reported as over exactly when some prefix is the score of a finished match. */
  lemma FinishedMatchesRefused(f: MatchFormat, first: Player, sets: seq<SetScore>)
    requires WellFormed(f) && sets != []
    ensures Outcome(f, first, sets) == Err(AlreadyComplete) <==>
            && |sets| <= 2 * f.setsToWin - 1
            && exists k: nat, m ::
                 && k <= |sets| && Plain(sets[..k])
                 && Reachable(f, first, m) && m.done && m.completedSets == Results(sets)[..k]
  {
    VerdictMeaning(f, sets);
    if Outcome(f, first, sets) == Err(AlreadyComplete) {
      var k := OverAfter(f, first, sets);
      PlainResults(f, sets[..k]);
      ResultsOfPrefix(sets, k);
      FinishedScores(f, first, Results(sets)[..k]);
      var m :| Reachable(f, first, m) && m.done && m.completedSets == Results(sets)[..k];
    }
    if |sets| <= 2 * f.setsToWin - 1 {
      forall k: nat, m | && k <= |sets| && Plain(sets[..k])
                         && Reachable(f, first, m) && m.done && m.completedSets == Results(sets)[..k]
        ensures Outcome(f, first, sets) == Err(AlreadyComplete)
      {
        FinishedScores(f, first, Results(sets)[..k]);
        ResultsOfPrefix(sets, k);
        PlainResults(f, sets[..k]);
        OverIsRefused(f, first, sets, k);
      }
    }
  }

  lemma OverAfter(f: MatchFormat, first: Player, sets: seq<SetScore>) returns (k: nat)
    requires WellFormed(f) && sets != [] && Outcome(f, first, sets) == Err(AlreadyComplete)
    ensures MatchOverAfter(f, sets, k)
  {
    VerdictMeaning(f, sets);
    if Verdict(f, sets) == None {
      k := |sets|;
      assert sets[..k] == sets[..k - 1] + [sets[k - 1]] && Results(sets)[..k] == Results(sets);
      FinalScoreFromTokens(f, sets, k);
    } else {
      k :| k < |sets| && MatchOverAfter(f, sets, k);
    }
  }

  lemma OverIsRefused(f: MatchFormat, first: Player, sets: seq<SetScore>, k: nat)
    requires WellFormed(f) && sets != [] && |sets| <= 2 * f.setsToWin - 1 && MatchOverAfter(f, sets, k)
    ensures Outcome(f, first, sets) == Err(AlreadyComplete)
  {
    VerdictMeaning(f, sets);
    if k == |sets| {
      var n := k - 1;
      assert sets[..k] == sets && sets[..n] == sets[..k][..n];
      assert Results(sets)[..k] == Results(sets);
      assert CompletedToken(f, sets[..k][n]);
      TokenMeaning(sets[n], f, Tally(Results(sets)[..n]));
      assert OpenSequence(f, sets);
    }
  }

  /** After validation the one failure of hydration is an overlong tie as the last token. */
  lemma OnlyHydrationFailure(f: MatchFormat, first: Player, sets: seq<SetScore>)
    requires WellFormed(f) && sets != []
    ensures Outcome(f, first, sets) == Err(ScoreError.Hydration) <==>
            && |sets| <= 2 * f.setsToWin - 1 && OpenSequence(f, sets)
            && OverlongTie(f, sets[|sets| - 1])
    ensures Verdict(f, sets) == None ==>
              || Outcome(f, first, sets).Ok?
              || Outcome(f, first, sets).error in {ScoreError.Hydration, AlreadyComplete}
  {
    VerdictMeaning(f, sets);
  }

  /** For instance 7-7 in a usual set: validated, then refused by the replay. */
  lemma SevenAllIsRefused(first: Player)
    ensures var sets := [SetScore(7, 7, None)];
            Verdict(DEFAULT_FORMAT, sets) == None && Outcome(DEFAULT_FORMAT, first, sets) == Err(ScoreError.Hydration)
  {
    var sets := [SetScore(7, 7, None)];
    assert sets[..0] == [] && Results(sets)[..0] == [];
    OnlyHydrationFailure(DEFAULT_FORMAT, first, sets);
    VerdictMeaning(DEFAULT_FORMAT, sets);
  }
}
