/**
 The rules of a tennis match as a state machine over values: one game or one tiebreak
 point at a time. `State` has one component for every field of a match, so equality of
 states is equality of matches.
 */
module Rules {
  import opened Wrappers

  datatype Player = A | B {
    function Opponent(): Player {
      if this == A then B else A
    }
  }

  /** A tally for both players. */
  datatype Pair = Pair(a: int, b: int) {
    function Get(p: Player): int {
      if p == A then a else b
    }

    function Put(p: Player, v: int): Pair {
      if p == A then Pair(v, b) else Pair(a, v)
    }

    function Inc(p: Player): Pair {
      Put(p, Get(p) + 1)
    }
  }

  const ZERO := Pair(0, 0)

  datatype MatchFormat = MatchFormat(
    setsToWin: int,
    gamesPerSet: int,
    gameMargin: int,
    tiebreakAt: int,
    tiebreakPointsToWin: int,
    tiebreakPointMargin: int,
    finalSetTiebreakPointsToWin: int)

  /** The formats that make sense; the three presets below are among them. */
  predicate WellFormed(f: MatchFormat) {
    && f.setsToWin >= 1
    && f.gamesPerSet == f.tiebreakAt >= 1
    && f.gameMargin == 2
    && f.tiebreakPointMargin == 2
    && f.tiebreakPointsToWin >= 1
    && f.finalSetTiebreakPointsToWin >= 0
  }

  const DEFAULT_FORMAT := MatchFormat(2, 6, 2, 6, 7, 2, 0)
  const GRAND_SLAM_MEN := MatchFormat(3, 6, 2, 6, 7, 2, 10)
  const GRAND_SLAM_WOMEN := MatchFormat(2, 6, 2, 6, 7, 2, 10)

  lemma PresetsAreWellFormed()
    ensures WellFormed(DEFAULT_FORMAT) && WellFormed(GRAND_SLAM_MEN) && WellFormed(GRAND_SLAM_WOMEN)
  {
  }

  datatype Phase = Regular | Tiebreak

  datatype SetResult = SetResult(gamesA: int, gamesB: int)

  /** The set in progress. */
  datatype Set = Set(
    games: Pair,
    phase: Phase,
    tiebreakPoints: Pair,
    pointsPlayedInTB: nat,
    firstServerOfTiebreak: Player)

  const EMPTY_SET := Set(ZERO, Regular, ZERO, 0, A)

  datatype State = State(
    format: MatchFormat,
    firstServer: Player,
    setsWon: Pair,
    completedSets: seq<SetResult>,
    current: Set,
    server: Player,
    done: bool,
    winner: Option<Player>)

  datatype RuleError = MatchComplete | WrongPhase

  function NewMatch(f: MatchFormat, firstServer: Player): State {
    State(f, firstServer, ZERO, [], EMPTY_SET, firstServer, false, None)
  }

  predicate IsDecidingSet(f: MatchFormat, setsWon: Pair) {
    setsWon == Pair(f.setsToWin - 1, f.setsToWin - 1)
  }

  /** The tiebreak target of the next set, given the sets won so far. */
  function TiebreakTarget(f: MatchFormat, setsWon: Pair): int {
    if f.finalSetTiebreakPointsToWin > 0 && IsDecidingSet(f, setsWon)
    then f.finalSetTiebreakPointsToWin
    else f.tiebreakPointsToWin
  }

  /** Who serves tiebreak point n + 1, where n points have been played. */
  function ServerForTBPoint(n: nat, first: Player): Player {
    if n == 0 then first
    else if (n - 1) / 2 % 2 == 0 then first.Opponent()
    else first
  }

  function CompleteSet(m: State, winner: Player): State {
    var setsWon := m.setsWon.Inc(winner);
    var m' := m.(completedSets := m.completedSets + [SetResult(m.current.games.a, m.current.games.b)], setsWon := setsWon);
    if setsWon.Get(winner) >= m.format.setsToWin then
      m'.(winner := Some(winner), done := true)
    else
      m'.(current := EMPTY_SET, server := m.server.Opponent())
  }

  function WinGame(m: State, winner: Player): Result<State, RuleError> {
    if m.done then Err(MatchComplete)
    else if m.current.phase != Regular then Err(WrongPhase)
    else
      var f := m.format;
      var games := m.current.games.Inc(winner);
      if games == Pair(f.tiebreakAt, f.tiebreakAt) then
        var server := m.server.Opponent();
        Ok(m.(server := server, current := Set(games, Tiebreak, ZERO, 0, server)))
      else
        var played := m.(current := m.current.(games := games));
        if games.Get(winner) >= f.gamesPerSet && games.Get(winner) - games.Get(winner.Opponent()) >= f.gameMargin then
          Ok(CompleteSet(played, winner))
        else
          Ok(played.(server := m.server.Opponent()))
  }

  function WinTiebreakPoint(m: State, winner: Player): Result<State, RuleError> {
    if m.done then Err(MatchComplete)
    else if m.current.phase != Tiebreak then Err(WrongPhase)
    else
      var f := m.format;
      var points := m.current.tiebreakPoints.Inc(winner);
      var played := m.current.(tiebreakPoints := points, pointsPlayedInTB := m.current.pointsPlayedInTB + 1);
      if && points.Get(winner) >= TiebreakTarget(f, m.setsWon)
         && points.Get(winner) - points.Get(winner.Opponent()) >= f.tiebreakPointMargin then
        var games := ZERO.Put(winner, f.tiebreakAt + 1).Put(winner.Opponent(), f.tiebreakAt);
        Ok(CompleteSet(m.(current := played.(games := games), server := m.current.firstServerOfTiebreak), winner))
      else
        Ok(m.(current := played, server := ServerForTBPoint(played.pointsPlayedInTB, m.current.firstServerOfTiebreak)))
  }

  datatype Event = Game(winner: Player) | Point(winner: Player)

  function Play(m: State, e: Event): Result<State, RuleError> {
    match e
    case Game(w) => WinGame(m, w)
    case Point(w) => WinTiebreakPoint(m, w)
  }

  /** The state after a whole history; an error as soon as one event is not allowed. */
  function Run(m: State, history: seq<Event>): Result<State, RuleError> {
    if history == [] then Ok(m)
    else
      match Run(m, history[..|history| - 1])
      case Err(e) => Err(e)
      case Ok(m') => Play(m', history[|history| - 1])
  }

  // Serve order within a tiebreak.

  /** How many of the first n tiebreak points `p` serves. */
  function PointsServed(p: Player, first: Player, n: nat): nat {
    if n == 0 then 0
    else PointsServed(p, first, n - 1) + if ServerForTBPoint(n - 1, first) == p then 1 else 0
  }

  /** Rule 5b of the ITF Rules of Tennis: one point, then two each, alternating. */
  lemma TiebreakRotation(first: Player, n: nat)
    ensures ServerForTBPoint(0, first) == first
    ensures ServerForTBPoint(1, first) == ServerForTBPoint(2, first) == first.Opponent()
    ensures n >= 1 ==> ServerForTBPoint(n + 2, first) == ServerForTBPoint(n, first).Opponent()
  {
    if n >= 1 {
      assert (n + 2 - 1) / 2 == (n - 1) / 2 + 1;
    }
  }

  lemma ServersOfFour(first: Player, q: nat)
    ensures ServerForTBPoint(4 * q, first) == first
    ensures ServerForTBPoint(4 * q + 1, first) == first.Opponent()
    ensures ServerForTBPoint(4 * q + 2, first) == first.Opponent()
    ensures ServerForTBPoint(4 * q + 3, first) == first
  {
    if q > 0 {
      assert (4 * q - 1) / 2 == 2 * q - 1;
    }
    assert (4 * q + 1) / 2 == 2 * q;
    assert (4 * q + 2) / 2 == 2 * q + 1;
  }

  /** The first server's lead in points served, after 4 * q + r points. */
  function Lead(r: nat): int {
    if r == 1 then 1 else if r == 3 then -1 else 0
  }

  lemma {:induction false} LeadAfter(first: Player, q: nat, r: nat)
    requires r < 4
    ensures PointsServed(first, first, 4 * q + r) + PointsServed(first.Opponent(), first, 4 * q + r) == 4 * q + r
    ensures PointsServed(first, first, 4 * q + r) - PointsServed(first.Opponent(), first, 4 * q + r) == Lead(r)
    decreases q, r
  {
    hide ServerForTBPoint;
    if r > 0 {
      LeadAfter(first, q, r - 1);
      ServersOfFour(first, q);
      OneMore(first, 4 * q + (r - 1));
    } else if q > 0 {
      LeadAfter(first, q - 1, 3);
      ServersOfFour(first, q - 1);
      OneMore(first, 4 * (q - 1) + 3);
    }
  }

  lemma OneMore(first: Player, n: nat)
    ensures var s := ServerForTBPoint(n, first);
            && PointsServed(s, first, n + 1) == PointsServed(s, first, n) + 1
            && PointsServed(s.Opponent(), first, n + 1) == PointsServed(s.Opponent(), first, n)
  {
    hide ServerForTBPoint;
  }

  /** The rotation is fair: after n points nobody has served two more than the other. */
  lemma TiebreakServesBalanced(first: Player, n: nat)
    ensures PointsServed(first, first, n) + PointsServed(first.Opponent(), first, n) == n
    ensures -1 <= PointsServed(first, first, n) - PointsServed(first.Opponent(), first, n) <= 1
  {
    assert n == 4 * (n / 4) + n % 4;
    LeadAfter(first, n / 4, n % 4);
  }
}
