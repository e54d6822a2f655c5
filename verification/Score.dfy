/** Score tokens, how one is classified, and which sequences of them are accepted. */
module Score {
  import opened Wrappers
  import opened Rules
  import opened ScoreLine

  /** One set of a score: game totals and, at the tiebreak tie, optional tiebreak points. */
  datatype SetScore = SetScore(gamesA: nat, gamesB: nat, tiebreak: Option<(nat, nat)>)

  datatype ScoreError =
    | ScoreEmpty
    | InvalidToken
    | InvalidSet
    | AlreadyComplete
    | TooManySets
    | Hydration
    | RuleViolation(rule: RuleError)

  function ImpossibleGameScore(gamesA: int, gamesB: int, f: MatchFormat): bool {
    if gamesA == gamesB then false
    else
      var (hi, lo) := if gamesB > gamesA then (gamesB, gamesA) else (gamesA, gamesB);
      var maxGames := f.tiebreakAt + 1;
      if hi > maxGames then true
      else if hi == maxGames then lo != f.tiebreakAt && lo != f.tiebreakAt - 1
      else false
  }

  function ValidateGameTotals(s: SetScore, f: MatchFormat): Option<ScoreError> {
    if ImpossibleGameScore(s.gamesA, s.gamesB, f) then Some(InvalidSet)
    else if s.tiebreak.Some? && (s.gamesA != s.gamesB || s.gamesA != f.tiebreakAt) then Some(InvalidSet)
    else None
  }

  function TiebreakPoints(s: SetScore): (nat, nat) {
    if s.tiebreak.Some? then s.tiebreak.value else (0, 0)
  }

  function TiebreakComplete(tbA: int, tbB: int, f: MatchFormat, setsWon: Pair): bool {
    var ptsToWin := TiebreakTarget(f, setsWon);
    || (tbA >= ptsToWin && tbA - tbB >= f.tiebreakPointMargin)
    || (tbB >= ptsToWin && tbB - tbA >= f.tiebreakPointMargin)
  }

  /** Whether the token is a completed set, and who won it; an open set has no winner. */
  function ClassifySet(s: SetScore, f: MatchFormat, setsWon: Pair): Result<Option<Player>, ScoreError> {
    var ga, gb, tb := s.gamesA, s.gamesB, f.tiebreakAt;
    if ga == tb && gb == tb then
      var (tbA, tbB) := TiebreakPoints(s);
      if TiebreakComplete(tbA, tbB, f, setsWon) then Err(InvalidSet) else Ok(None)
    else if ga == tb + 1 && gb == tb then
      if s.tiebreak.Some? then Err(InvalidSet) else Ok(Some(A))
    else if gb == tb + 1 && ga == tb then
      if s.tiebreak.Some? then Err(InvalidSet) else Ok(Some(B))
    else
      var (hi, lo) := if gb > ga then (gb, ga) else (ga, gb);
      if s.tiebreak.Some? then Err(InvalidSet)
      else if hi >= f.gamesPerSet && hi - lo >= f.gameMargin then Ok(Some(if gb > ga then B else A))
      else Ok(None)
  }

  function ValidateInProgressSet(s: SetScore, f: MatchFormat, setsWon: Pair): Option<ScoreError> {
    if s.gamesA == f.tiebreakAt && s.gamesB == f.tiebreakAt then
      var (tbA, tbB) := TiebreakPoints(s);
      if TiebreakComplete(tbA, tbB, f, setsWon) then Some(InvalidSet) else None
    else if s.tiebreak.Some? then Some(InvalidSet)
    else
      match ClassifySet(s, f, setsWon)
      case Err(e) => Some(e)
      case Ok(Some(_)) => Some(InvalidSet)
      case Ok(None) => None
  }

  /** Both checks that every token goes through. */
  function CheckToken(s: SetScore, f: MatchFormat, setsWon: Pair): Result<Option<Player>, ScoreError> {
    match ValidateGameTotals(s, f)
    case Some(e) => Err(e)
    case None => ClassifySet(s, f, setsWon)
  }

  // What tokens mean.

  function ResultOf(s: SetScore): SetResult {
    SetResult(s.gamesA, s.gamesB)
  }

  function Results(sets: seq<SetScore>): (r: seq<SetResult>)
    ensures |r| == |sets|
  {
    seq(|sets|, i requires 0 <= i < |sets| => ResultOf(sets[i]))
  }

  function GamesOf(s: SetScore): Pair {
    Pair(s.gamesA, s.gamesB)
  }

  function PointsOf(s: SetScore): Pair {
    Pair(TiebreakPoints(s).0, TiebreakPoints(s).1)
  }

  /** A token that writes a completed set. */
  predicate CompletedToken(f: MatchFormat, s: SetScore) {
    s.tiebreak == None && LegalCompleted(f, ResultOf(s))
  }

  /** A token that writes a set in progress. */
  predicate OpenToken(f: MatchFormat, s: SetScore, setsWon: Pair) {
    && LegalGames(f, GamesOf(s))
    && (if AtTiebreak(f, GamesOf(s)) then !Decisive(f, TiebreakTarget(f, setsWon), PointsOf(s)) else s.tiebreak == None)
  }

  /** Equal games past the tiebreak tie: no match shows this, yet the validator lets it by. */
  predicate OverlongTie(f: MatchFormat, s: SetScore) {
    s.gamesA == s.gamesB > f.tiebreakAt && s.tiebreak == None
  }

  predicate CompletedTokens(f: MatchFormat, sets: seq<SetScore>) {
    forall i :: 0 <= i < |sets| ==> CompletedToken(f, sets[i])
  }

  /** The token checks accept exactly the tokens with a meaning, and the overlong ties. */
  lemma TokenMeaning(s: SetScore, f: MatchFormat, setsWon: Pair)
    requires WellFormed(f)
    ensures var r := CheckToken(s, f, setsWon);
            && (CompletedToken(f, s) <==> r == Ok(Some(SetWinner(ResultOf(s)))))
            && (CompletedToken(f, s) <==> r.Ok? && r.value.Some?)
            && (OpenToken(f, s, setsWon) || OverlongTie(f, s) <==> r == Ok(None))
            && (r.Err? ==> r.error == InvalidSet)
    ensures !(CompletedToken(f, s) && (OpenToken(f, s, setsWon) || OverlongTie(f, s)))
    ensures !(OpenToken(f, s, setsWon) && OverlongTie(f, s))
  {
    assert TiebreakComplete(TiebreakPoints(s).0, TiebreakPoints(s).1, f, setsWon)
      <==> Decisive(f, TiebreakTarget(f, setsWon), PointsOf(s));
  }

  /**
   A token at the tiebreak tie is accepted, as a set in progress, exactly when its points, none being 0-0, leave both sides
   short of the points to win, of the final set when that is set apart, or of a lead by two.
   */
  lemma TieTokenMeaning(s: SetScore, f: MatchFormat, setsWon: Pair)
    requires WellFormed(f) && s.gamesA == s.gamesB == f.tiebreakAt
    ensures var a, b := if s.tiebreak.Some? then s.tiebreak.value.0 else 0, if s.tiebreak.Some? then s.tiebreak.value.1 else 0;
            var toWin := if f.finalSetTiebreakPointsToWin > 0 && setsWon.a == setsWon.b == f.setsToWin - 1
                         then f.finalSetTiebreakPointsToWin else f.tiebreakPointsToWin;
            CheckToken(s, f, setsWon) == if (a >= toWin && a - b >= 2) || (b >= toWin && b - a >= 2) then Err(InvalidSet) else Ok(None)
  {
  }

  /** Of the regularly won sets of any format, exactly those within a game of the tiebreak tie are accepted. */
  lemma WonSetAccepted(s: SetScore, f: MatchFormat, setsWon: Pair)
    requires f.gameMargin >= 1 && s.tiebreak == None
    requires s.gamesA >= f.gamesPerSet && s.gamesA - s.gamesB >= f.gameMargin
    ensures CheckToken(s, f, setsWon) == Ok(Some(A)) <==>
            s.gamesA <= f.tiebreakAt || (s.gamesA == f.tiebreakAt + 1 && s.gamesB >= f.tiebreakAt - 1)
  {
  }

  /**
   Why the tiebreak tie must not come before a set can be won: the sets won at games per set are
   otherwise not all accepted, but for formats of one or two games with the tie one game before.
   */
  lemma AllWonSetsAccepted(f: MatchFormat, setsWon: Pair)
    requires 1 <= f.gameMargin <= f.gamesPerSet
    ensures (forall lo: nat :: f.gamesPerSet - lo >= f.gameMargin ==>
                               CheckToken(SetScore(f.gamesPerSet, lo, None), f, setsWon) == Ok(Some(A))) <==>
            f.gamesPerSet <= f.tiebreakAt || (f.gamesPerSet == f.tiebreakAt + 1 && f.gamesPerSet <= 2)
  {
    forall lo: nat | f.gamesPerSet - lo >= f.gameMargin
      ensures CheckToken(SetScore(f.gamesPerSet, lo, None), f, setsWon) == Ok(Some(A)) <==>
              f.gamesPerSet <= f.tiebreakAt || (f.gamesPerSet == f.tiebreakAt + 1 && lo >= f.tiebreakAt - 1)
    {
      WonSetAccepted(SetScore(f.gamesPerSet, lo, None), f, setsWon);
    }
    hide CheckToken;
    var love := SetScore(f.gamesPerSet, 0, None);
    assert CheckToken(love, f, setsWon) == Ok(Some(A)) <==>
           f.gamesPerSet <= f.tiebreakAt || (f.gamesPerSet == f.tiebreakAt + 1 && 0 >= f.tiebreakAt - 1);
  }

  // Sequences of tokens.

  /** The verdict on sets[i..], `setsWon` being the tally of the sets before. */
  function VerdictFrom(f: MatchFormat, sets: seq<SetScore>, i: nat, setsWon: Pair): Option<ScoreError>
    requires i < |sets|
    decreases |sets| - i
  {
    match CheckToken(sets[i], f, setsWon)
    case Err(e) => Some(e)
    case Ok(None) => if i == |sets| - 1 then ValidateInProgressSet(sets[i], f, setsWon) else Some(InvalidSet)
    case Ok(Some(w)) =>
      if i == |sets| - 1 then None
      else if setsWon.Inc(w).a >= f.setsToWin || setsWon.Inc(w).b >= f.setsToWin then Some(AlreadyComplete)
      else VerdictFrom(f, sets, i + 1, setsWon.Inc(w))
  }

  function Verdict(f: MatchFormat, sets: seq<SetScore>): Option<ScoreError> {
    if sets == [] then Some(ScoreEmpty)
    else if |sets| > 2 * f.setsToWin - 1 then Some(TooManySets)
    else VerdictFrom(f, sets, 0, ZERO)
  }

  /** The loop of the validator. Its test for a match won before an open last set never fires. */
  method ValidateScoreSequence(format: MatchFormat, sets: seq<SetScore>) returns (err: Option<ScoreError>)
    ensures err == Verdict(format, sets)
  {
    if |sets| == 0 {
      return Some(ScoreEmpty);
    }
    var maxSets := 2 * format.setsToWin - 1;
    if |sets| > maxSets {
      return Some(TooManySets);
    }
    var setsWon := ZERO;
    for i := 0 to |sets|
      invariant i < |sets| ==> setsWon.a < format.setsToWin && setsWon.b < format.setsToWin
      invariant i < |sets| ==> Verdict(format, sets) == VerdictFrom(format, sets, i, setsWon)
      invariant i == |sets| ==> Verdict(format, sets) == None
    {
      var s, isLast := sets[i], i == |sets| - 1;
      var badTotals := ValidateGameTotals(s, format);
      if badTotals.Some? {
        return badTotals;
      }
      var classified := ClassifySet(s, format, setsWon);
      if classified.Err? {
        return Some(classified.error);
      }
      if !isLast {
        if classified.value.None? {
          return Some(InvalidSet);
        }
        setsWon := setsWon.Inc(classified.value.value);
        if setsWon.a >= format.setsToWin || setsWon.b >= format.setsToWin {
          return Some(AlreadyComplete);
        }
        continue;
      }
      if classified.value.Some? {
        setsWon := setsWon.Inc(classified.value.value);
      } else {
        if setsWon.a >= format.setsToWin || setsWon.b >= format.setsToWin {
          assert false;
        }
        var badOpen := ValidateInProgressSet(s, format, setsWon);
        if badOpen.Some? {
          return badOpen;
        }
      }
    }
    return None;
  }

  /** All tokens but the last are completed sets, won by nobody often enough to end the match. */
  predicate OpenSequence(f: MatchFormat, sets: seq<SetScore>)
    requires sets != []
  {
    && CompletedTokens(f, sets[..|sets| - 1])
    && Unfinished(f, Results(sets)[..|sets| - 1])
  }

  /** A legal last token, or an overlong tie. */
  predicate PassableLast(f: MatchFormat, sets: seq<SetScore>)
    requires sets != []
  {
    var s := sets[|sets| - 1];
    CompletedToken(f, s) || OpenToken(f, s, Tally(Results(sets)[..|sets| - 1])) || OverlongTie(f, s)
  }

  /** The first k tokens are the final score of a match. */
  predicate MatchOverAfter(f: MatchFormat, sets: seq<SetScore>, k: nat) {
    1 <= k <= |sets| && CompletedTokens(f, sets[..k]) && FinalScore(f, Results(sets)[..k])
  }

  lemma UnfinishedPrefix(f: MatchFormat, rs: seq<SetResult>, j: nat, k: nat)
    requires j <= k <= |rs| && Unfinished(f, rs[..k])
    ensures Unfinished(f, rs[..j])
  {
    TallyOfPrefix(rs[..k], j);
    assert rs[..k][..j] == rs[..j];
  }

  lemma ResultsTake(f: MatchFormat, sets: seq<SetScore>, k: nat)
    requires k < |sets|
    ensures Results(sets)[..k + 1] == Results(sets)[..k] + [ResultOf(sets[k])]
    ensures Tally(Results(sets)[..k + 1]) == Tally(Results(sets)[..k]).Inc(SetWinner(ResultOf(sets[k])))
  {
    assert Results(sets)[..k + 1] == Results(sets)[..k] + [ResultOf(sets[k])];
    TallySnoc(Results(sets)[..k], ResultOf(sets[k]));
  }

  /** What a verdict says of the whole sequence. */
  ghost predicate VerdictSound(f: MatchFormat, sets: seq<SetScore>, v: Option<ScoreError>)
    requires sets != []
  {
    && (v == None <==> OpenSequence(f, sets) && PassableLast(f, sets))
    && (v == Some(AlreadyComplete) <==> exists k: nat :: k < |sets| && MatchOverAfter(f, sets, k))
    && v in {None, Some(AlreadyComplete), Some(InvalidSet)}
  }

  lemma OpenTokenTooEarly(f: MatchFormat, sets: seq<SetScore>, i: nat)
    requires i < |sets| - 1 && Unfinished(f, Results(sets)[..i]) && !CompletedToken(f, sets[i])
    ensures VerdictSound(f, sets, Some(InvalidSet))
  {
    NotOverUpTo(f, sets, i);
    assert sets[i] == sets[..|sets| - 1][i];
    forall k: nat | i < k <= |sets|
      ensures !MatchOverAfter(f, sets, k)
    {
      assert sets[..k][i] == sets[i];
    }
  }

  lemma WonTooEarly(f: MatchFormat, sets: seq<SetScore>, i: nat)
    requires i < |sets| - 1 && CompletedTokens(f, sets[..i + 1])
    requires Unfinished(f, Results(sets)[..i]) && !Unfinished(f, Results(sets)[..i + 1])
    ensures VerdictSound(f, sets, Some(AlreadyComplete))
  {
    FinalScoreFromTokens(f, sets, i + 1);
    if OpenSequence(f, sets) {
      UnfinishedPrefix(f, Results(sets), i + 1, |sets| - 1);
    }
  }

  lemma LastVerdict(f: MatchFormat, sets: seq<SetScore>, v: Option<ScoreError>)
    requires sets != [] && OpenSequence(f, sets) && v in {None, Some(InvalidSet)}
    requires v == None <==> PassableLast(f, sets)
    ensures VerdictSound(f, sets, v)
  {
    NotOverUpTo(f, sets, |sets| - 1);
  }

  lemma {:induction false} VerdictFromMeaning(f: MatchFormat, sets: seq<SetScore>, i: nat)
    requires WellFormed(f) && i < |sets|
    requires CompletedTokens(f, sets[..i]) && Unfinished(f, Results(sets)[..i])
    ensures VerdictSound(f, sets, VerdictFrom(f, sets, i, Tally(Results(sets)[..i])))
    decreases |sets| - i
  {
    TokenMeaning(sets[i], f, Tally(Results(sets)[..i]));
    if i == |sets| - 1 {
      LastVerdict(f, sets, VerdictFrom(f, sets, i, Tally(Results(sets)[..i])));
    } else if !CompletedToken(f, sets[i]) {
      OpenTokenTooEarly(f, sets, i);
    } else {
      ResultsTake(f, sets, i);
      assert sets[..i + 1] == sets[..i] + [sets[i]];
      if Unfinished(f, Results(sets)[..i + 1]) {
        VerdictFromMeaning(f, sets, i + 1);
      } else {
        WonTooEarly(f, sets, i);
      }
    }
  }

  lemma FinalScoreFromTokens(f: MatchFormat, sets: seq<SetScore>, k: nat)
    requires 1 <= k <= |sets| && CompletedTokens(f, sets[..k])
    requires Unfinished(f, Results(sets)[..k - 1]) && !Unfinished(f, Results(sets)[..k])
    ensures MatchOverAfter(f, sets, k)
  {
    var rs := Results(sets)[..k];
    forall j | 0 <= j < |rs|
      ensures LegalCompleted(f, rs[j])
    {
      assert CompletedToken(f, sets[..k][j]);
    }
    assert rs[..k - 1] == Results(sets)[..k - 1];
  }

  lemma NotOverUpTo(f: MatchFormat, sets: seq<SetScore>, i: nat)
    requires i <= |sets| && Unfinished(f, Results(sets)[..i])
    ensures forall k: nat :: k <= i ==> !MatchOverAfter(f, sets, k)
  {
    forall k: nat | k <= i
      ensures !MatchOverAfter(f, sets, k)
    {
      UnfinishedPrefix(f, Results(sets), k, i);
    }
  }

  /** What the validator accepts, and when it reports tokens after the end of the match. */
  lemma VerdictMeaning(f: MatchFormat, sets: seq<SetScore>)
    requires WellFormed(f) && sets != []
    ensures Verdict(f, sets) == None <==>
            |sets| <= 2 * f.setsToWin - 1 && OpenSequence(f, sets) && PassableLast(f, sets)
    ensures Verdict(f, sets) == Some(AlreadyComplete) <==>
            |sets| <= 2 * f.setsToWin - 1 && exists k: nat :: k < |sets| && MatchOverAfter(f, sets, k)
    ensures Verdict(f, sets) in {None, Some(AlreadyComplete), Some(InvalidSet), Some(TooManySets)}
    ensures Verdict(f, sets) == Some(TooManySets) <==> |sets| > 2 * f.setsToWin - 1
  {
    assert Results(sets)[..0] == [] && sets[..0] == [];
    VerdictFromMeaning(f, sets, 0);
  }
}
