/**
 Monte Carlo completion of a match. Randomness is a finite stream of draws from [0, 1); a
 run that uses up the stream is reported as such, since a tiebreak can go on forever.
 */
module Simulation {
  import opened Wrappers
  import opened Rules
  import opened ScoreLine
  import opened Matches

  datatype PlayerRates = PlayerRates(hold: real, breaks: real)

  /** The rates of both players. */
  datatype Rates = Rates(a: PlayerRates, b: PlayerRates) {
    function Get(p: Player): PlayerRates {
      if p == A then a else b
    }
  }

  datatype SimError =
    | NilInitialMatch | InitialMatchDone | NegativeSimulations | NilRng | InvalidAlpha | InvalidRate
    | Rule(error: RuleError)

  datatype Sim<+T> = Finished(value: T) | Failed(error: SimError) | OutOfDraws

  predicate ValidRates(r: PlayerRates) {
    0.0 <= r.hold <= 1.0 && 0.0 <= r.breaks <= 1.0
  }

  /** The server's chance in the next game or point; `pow` is exponentiation. */
  function GameWinProb(serverHold: real, opponentBreak: real, alpha: real, pow: (real, real) -> real): Result<real, SimError> {
    if alpha <= 0.0 then Err(InvalidAlpha)
    else if serverHold < 0.0 || serverHold > 1.0 || opponentBreak < 0.0 || opponentBreak > 1.0 then Err(InvalidRate)
    else if serverHold >= opponentBreak then Ok((1.0 + pow(serverHold - opponentBreak, alpha)) / 2.0)
    else Ok((1.0 - pow(opponentBreak - serverHold, alpha)) / 2.0)
  }

  /** The returner's chance is what the server's leaves; the better rate is favored by its lead to the power of alpha. */
  lemma ChancesAddUp(hold: real, breaks: real, alpha: real, pow: (real, real) -> real)
    requires alpha > 0.0 && 0.0 <= hold <= 1.0 && 0.0 <= breaks <= 1.0
    requires pow(0.0, alpha) == 0.0 && (forall x :: 0.0 <= x <= 1.0 ==> 0.0 <= pow(x, alpha) <= 1.0)
    ensures var p, q := GameWinProb(hold, breaks, alpha, pow), GameWinProb(breaks, hold, alpha, pow);
            && p.Ok? && q.Ok? && 0.0 <= p.value <= 1.0 && p.value + q.value == 1.0
            && (hold >= breaks ==> p.value >= 0.5 && p.value - q.value == pow(hold - breaks, alpha))
  {
    if hold == breaks {
      assert hold - breaks == 0.0;
    }
  }

  /** When there is no chance to compute. */
  lemma ChanceErrors(hold: real, breaks: real, alpha: real, pow: (real, real) -> real)
    ensures ErrorOf(GameWinProb(hold, breaks, alpha, pow)) ==
            if !(alpha > 0.0) then Some(InvalidAlpha)
            else if !(0.0 <= hold <= 1.0) || !(0.0 <= breaks <= 1.0) then Some(InvalidRate)
            else None
  {
  }

  predicate ValidParams(rates: Rates, alpha: real) {
    alpha > 0.0 && ValidRates(rates.a) && ValidRates(rates.b)
  }

  function ValidateSimulationParams(rates: Rates, alpha: real, n: int, rng: Option<seq<real>>): (err: Option<SimError>)
    ensures n > 0 ==> (err == None <==> ValidParams(rates, alpha) && rng.Some?)
  {
    if n < 0 then Some(NegativeSimulations)
    else if n == 0 then None
    else if alpha <= 0.0 then Some(InvalidAlpha)
    else if !ValidRates(rates.a) || !ValidRates(rates.b) then Some(InvalidRate)
    else if rng.None? then Some(NilRng)
    else None
  }

  /** Which parameters are refused, the first applicable reason being given. */
  lemma ParameterErrors(rates: Rates, alpha: real, n: int, rng: Option<seq<real>>)
    ensures var rated := forall p :: 0.0 <= rates.Get(p).hold <= 1.0 && 0.0 <= rates.Get(p).breaks <= 1.0;
            ValidateSimulationParams(rates, alpha, n, rng) ==
            if n < 0 then Some(NegativeSimulations)
            else if n > 0 && alpha <= 0.0 then Some(InvalidAlpha)
            else if n > 0 && !rated then Some(InvalidRate)
            else if n > 0 && rng == None then Some(NilRng)
            else None
  {
    assert rates.Get(A) == rates.a && rates.Get(B) == rates.b;
  }

  predicate Draws(rng: seq<real>) {
    forall i :: 0 <= i < |rng| ==> 0.0 <= rng[i] < 1.0
  }

  // One side wins everything.

  predicate AllOrNothing(rates: Rates, strong: Player) {
    rates.Get(strong) == PlayerRates(1.0, 1.0) && rates.Get(strong.Opponent()) == PlayerRates(0.0, 0.0)
  }

  /** Games in a set won to love: one set of a one-game format still takes two. */
  function LoveSet(f: MatchFormat): int {
    if f.gamesPerSet >= 2 then f.gamesPerSet else 2
  }

  /** Games in k sets won to love. */
  function LoveSets(f: MatchFormat, k: int): int {
    if k <= 0 then 0 else LoveSets(f, k - 1) + LoveSet(f)
  }

  function SweepLength(f: MatchFormat): int {
    LoveSets(f, f.setsToWin)
  }

  lemma {:induction false} LoveSetsIsProduct(f: MatchFormat, k: nat)
    ensures LoveSets(f, k) == k * LoveSet(f)
  {
    if k > 0 {
      LoveSetsIsProduct(f, k - 1);
    }
  }

  /** A sweep takes SetsToWin * GamesPerSet games exactly when a set takes at least two. */
  lemma SweepLengthIsProduct(f: MatchFormat)
    requires WellFormed(f)
    ensures SweepLength(f) == f.setsToWin * f.gamesPerSet <==> f.gamesPerSet >= 2
  {
    LoveSetsIsProduct(f, f.setsToWin);
  }

  lemma {:induction false} LoveSetsGrow(f: MatchFormat, j: nat, k: nat)
    requires j <= k
    ensures LoveSets(f, j) <= LoveSets(f, k)
    decreases k
  {
    if j < k {
      LoveSetsGrow(f, j, k - 1);
    }
    LoveSetIsPositive(f);
  }

  lemma LoveSetIsPositive(f: MatchFormat)
    ensures LoveSet(f) >= 2
  {
  }

  /** `strong` has won all t games so far. */
  ghost predicate Sweep(f: MatchFormat, strong: Player, m: State, t: int) {
    && m.setsWon.Get(strong.Opponent()) == 0
    && (if m.done then m.winner == Some(strong) && t == SweepLength(f)
        else && m.current.phase == Regular && m.current.games.Get(strong.Opponent()) == 0
             && 0 <= m.current.games.Get(strong) < LoveSet(f) && m.setsWon.Get(strong) >= 0
             && t == LoveSets(f, m.setsWon.Get(strong)) + m.current.games.Get(strong))
  }

  lemma SweepIsRegular(f: MatchFormat, strong: Player, m: State, t: int)
    requires Sweep(f, strong, m, t) && !m.done
    ensures Play(m, Game(strong)) == WinGame(m, strong) && m.current.phase == Regular
  {
  }

  lemma SweepBound(f: MatchFormat, strong: Player, first: Player, m: State, t: int)
    requires WellFormed(f) && Invariant(f, first, m) && !m.done && Sweep(f, strong, m, t)
    ensures t < SweepLength(f)
  {
    LoveSetsGrow(f, m.setsWon.Get(strong) + 1, f.setsToWin);
  }

  lemma SweepStep(f: MatchFormat, first: Player, strong: Player, m: State, t: int)
    requires WellFormed(f) && Invariant(f, first, m) && !m.done && Sweep(f, strong, m, t)
    ensures WinGame(m, strong).Ok? && Sweep(f, strong, WinGame(m, strong).value, t + 1)
  {
    var l := LineOf(m);
    var games := l.games.Inc(strong);
    GameStep(f, first, l, strong);
    assert LegalGames(f, games) <==> games.Get(strong) < LoveSet(f);
    if !LegalGames(f, games) {
      SweepSet(f, first, strong, l, games, WinGame(m, strong).value);
    }
  }

  lemma SweepSet(f: MatchFormat, first: Player, strong: Player, l: Line, games: Pair, m: State)
    requires WellFormed(f) && LegalLine(f, l) && AfterSet(f, first, l, games, strong, m)
    requires Tally(l.completed).Get(strong.Opponent()) == 0 && Tally(l.completed).Get(strong) >= 0
    ensures Sweep(f, strong, m, LoveSets(f, Tally(l.completed).Get(strong)) + LoveSet(f))
  {
    var r := SetResult(games.a, games.b);
    WinnerOfWon(f, games, strong);
    TallySnoc(l.completed, r);
    var k := Tally(l.completed).Get(strong);
    assert LoveSets(f, k + 1) == LoveSets(f, k) + LoveSet(f);
    if m.done {
      assert k + 1 == f.setsToWin;
    }
  }

  function FailedWith<T>(err: Option<SimError>): Sim<T> {
    match err
    case None => OutOfDraws
    case Some(e) => Failed(e)
  }

  function RuleFailure(err: Option<RuleError>): Option<SimError> {
    match err
    case None => None
    case Some(e) => Some(Rule(e))
  }

  method ApplySimulatedPoint(m: Match, winner: Player) returns (err: Option<SimError>)
    requires WellFormed(m.format) && Invariant(m.format, m.firstServer, m.View()) && !m.done
    modifies m
    ensures err == None && Invariant(m.format, m.firstServer, m.View())
    ensures Play(old(m.View()), if old(m.current.phase) == Regular then Game(winner) else Point(winner)) == Ok(m.View())
  {
    var refused;
    if m.current.phase == Regular {
      PlayKeepsInvariant(m.format, m.firstServer, m.View(), Game(winner));
      refused := m.WinGame(winner);
    } else {
      PlayKeepsInvariant(m.format, m.firstServer, m.View(), Point(winner));
      refused := m.WinTiebreakPoint(winner);
    }
    return RuleFailure(refused);
  }

  /** With all-or-nothing rates every game and point goes to the strong side. */
  lemma StrongSideWins(rates: Rates, alpha: real, pow: (real, real) -> real, strong: Player, server: Player, draw: real)
    requires AllOrNothing(rates, strong) && pow(1.0, alpha) == 1.0 && alpha > 0.0 && 0.0 <= draw < 1.0
    ensures var p := GameWinProb(rates.Get(server).hold, rates.Get(server.Opponent()).breaks, alpha, pow);
            p.Ok? && (draw < p.value <==> server == strong)
  {
  }

  // What the draws decide.

  /** The event of a draw: the next game, or tiebreak point, goes to the server if the draw is below his chance. */
  function EventOf(m: State, rates: Rates, alpha: real, pow: (real, real) -> real, draw: real): Event
    requires ValidParams(rates, alpha)
  {
    var server := m.server;
    var p := GameWinProb(rates.Get(server).hold, rates.Get(server.Opponent()).breaks, alpha, pow);
    var w := if draw < p.value then server else server.Opponent();
    if m.current.phase == Regular then Game(w) else Point(w)
  }

  /** The match after k draws. */
  function After(m: State, rates: Rates, alpha: real, pow: (real, real) -> real, draws: seq<real>, k: nat): State
    requires ValidParams(rates, alpha) && k <= |draws|
  {
    if k == 0 then m
    else
      var before := After(m, rates, alpha, pow, draws, k - 1);
      match Play(before, EventOf(before, rates, alpha, pow, draws[k - 1]))
      case Ok(next) => next
      case Err(_) => before
  }

  /** The match is not over before draw k. */
  ghost predicate Lasts(m: State, rates: Rates, alpha: real, pow: (real, real) -> real, draws: seq<real>, k: nat)
    requires ValidParams(rates, alpha) && k <= |draws|
  {
    forall j :: 0 <= j < k ==> !After(m, rates, alpha, pow, draws, j).done
  }

  lemma LastsLonger(m: State, rates: Rates, alpha: real, pow: (real, real) -> real, draws: seq<real>, k: nat)
    requires ValidParams(rates, alpha) && k < |draws|
    ensures Lasts(m, rates, alpha, pow, draws, k + 1) <==>
            Lasts(m, rates, alpha, pow, draws, k) && !After(m, rates, alpha, pow, draws, k).done
  {
    hide After;
  }

  lemma NotYet(m: State, rates: Rates, alpha: real, pow: (real, real) -> real, draws: seq<real>)
    requires ValidParams(rates, alpha)
    ensures Lasts(m, rates, alpha, pow, draws, 0) && After(m, rates, alpha, pow, draws, 0) == m
  {
  }

  lemma AfterStep(m: State, rates: Rates, alpha: real, pow: (real, real) -> real, draws: seq<real>, k: nat)
    requires ValidParams(rates, alpha) && k < |draws|
    ensures var before := After(m, rates, alpha, pow, draws, k);
            var next := Play(before, EventOf(before, rates, alpha, pow, draws[k]));
            next.Ok? ==> After(m, rates, alpha, pow, draws, k + 1) == next.value
  {
    hide Play, EventOf;
  }

  /** How many draws it takes from the k-th on until the match is over, all of them if it is not. */
  function Length(m: State, rates: Rates, alpha: real, pow: (real, real) -> real, draws: seq<real>, k: nat): (n: nat)
    requires ValidParams(rates, alpha) && k <= |draws|
    ensures k <= n <= |draws|
    ensures n < |draws| ==> After(m, rates, alpha, pow, draws, n).done
    ensures forall j :: k <= j < n ==> !After(m, rates, alpha, pow, draws, j).done
    decreases |draws| - k
  {
    if k == |draws| || After(m, rates, alpha, pow, draws, k).done then k
    else Length(m, rates, alpha, pow, draws, k + 1)
  }

  /** Who wins a run, and how many draws it takes. */
  function RunOf(m: State, rates: Rates, alpha: real, pow: (real, real) -> real, draws: seq<real>): (r: (Sim<Player>, nat))
    requires ValidParams(rates, alpha)
    ensures r.1 <= |draws|
  {
    var n := Length(m, rates, alpha, pow, draws, 0);
    var end := After(m, rates, alpha, pow, draws, n);
    (if end.done && end.winner.Some? then Finished(end.winner.value) else OutOfDraws, n)
  }

  lemma RunEndsAt(m: State, rates: Rates, alpha: real, pow: (real, real) -> real, draws: seq<real>, n: nat)
    requires ValidParams(rates, alpha) && n <= |draws|
    requires Lasts(m, rates, alpha, pow, draws, n)
    ensures var end := After(m, rates, alpha, pow, draws, n);
            && (end.done && end.winner.Some? ==> RunOf(m, rates, alpha, pow, draws) == (Finished(end.winner.value), n))
            && (!end.done && n == |draws| ==> RunOf(m, rates, alpha, pow, draws) == (OutOfDraws, n))
  {
    hide After;
    var k := Length(m, rates, alpha, pow, draws, 0);
    assert After(m, rates, alpha, pow, draws, n).done ==> k == n;
  }

  lemma {:induction false} AfterKeepsInvariant(
    f: MatchFormat, first: Player, m: State, rates: Rates, alpha: real, pow: (real, real) -> real, draws: seq<real>, k: nat)
    requires WellFormed(f) && Invariant(f, first, m) && ValidParams(rates, alpha) && k <= |draws|
    ensures Invariant(f, first, After(m, rates, alpha, pow, draws, k))
  {
    if k > 0 {
      hide Invariant, Play, EventOf;
      AfterKeepsInvariant(f, first, m, rates, alpha, pow, draws, k - 1);
      var before := After(m, rates, alpha, pow, draws, k - 1);
      PlayKeepsInvariant(f, first, before, EventOf(before, rates, alpha, pow, draws[k - 1]));
    }
  }

  /**
   A run takes one allowed event from each draw, for the server exactly when the draw is below his chance, and its
   winner is the winner of the match it ends in.
   */
  lemma RunFollowsDraws(
    f: MatchFormat, first: Player, m: State, rates: Rates, alpha: real, pow: (real, real) -> real, draws: seq<real>, k: nat)
    requires WellFormed(f) && Invariant(f, first, m) && ValidParams(rates, alpha)
    ensures var (r, n) := RunOf(m, rates, alpha, pow, draws);
            var end := After(m, rates, alpha, pow, draws, n);
            && (forall p :: r == Finished(p) <==> end.done && end.winner == Some(p))
            && (r == OutOfDraws <==> !end.done && n == |draws|)
            && (k < n ==>
                  var before := After(m, rates, alpha, pow, draws, k);
                  var p := GameWinProb(rates.Get(before.server).hold, rates.Get(before.server.Opponent()).breaks, alpha, pow);
                  !before.done && p.Ok? &&
                  exists e: Event ::
                    && Play(before, e) == Ok(After(m, rates, alpha, pow, draws, k + 1))
                    && (e.winner == before.server <==> draws[k] < p.value))
  {
    hide Play;
    var n := RunOf(m, rates, alpha, pow, draws).1;
    AfterKeepsInvariant(f, first, m, rates, alpha, pow, draws, n);
    WinnerIsKnown(f, first, After(m, rates, alpha, pow, draws, n));
    if k < n {
      var before := After(m, rates, alpha, pow, draws, k);
      AfterKeepsInvariant(f, first, m, rates, alpha, pow, draws, k);
      hide Invariant;
      PlayKeepsInvariant(f, first, before, EventOf(before, rates, alpha, pow, draws[k]));
    }
  }

  lemma WinnerIsKnown(f: MatchFormat, first: Player, m: State)
    requires Invariant(f, first, m)
    ensures m.done <==> m.winner.Some?
  {
  }

  lemma {:induction false} RunHasHistory(
    f: MatchFormat, first: Player, m: State, rates: Rates, alpha: real, pow: (real, real) -> real, draws: seq<real>, k: nat)
    requires WellFormed(f) && Invariant(f, first, m) && ValidParams(rates, alpha) && k <= |draws|
    requires Lasts(m, rates, alpha, pow, draws, k)
    ensures exists history :: |history| == k && Run(m, history) == Ok(After(m, rates, alpha, pow, draws, k))
  {
    if k == 0 {
      assert Run(m, []) == Ok(m);
    } else {
      hide Invariant, Play, EventOf, After, Run, Lasts;
      LastsLonger(m, rates, alpha, pow, draws, k - 1);
      RunHasHistory(f, first, m, rates, alpha, pow, draws, k - 1);
      var history :| |history| == k - 1 && Run(m, history) == Ok(After(m, rates, alpha, pow, draws, k - 1));
      var e := EventOf(After(m, rates, alpha, pow, draws, k - 1), rates, alpha, pow, draws[k - 1]);
      DrawIsPlayed(f, first, m, rates, alpha, pow, draws, k - 1);
      RunSnoc(m, history, e);
      assert |history + [e]| == k;
    }
  }

  lemma DrawIsPlayed(
    f: MatchFormat, first: Player, m: State, rates: Rates, alpha: real, pow: (real, real) -> real, draws: seq<real>, k: nat)
    requires WellFormed(f) && Invariant(f, first, m) && ValidParams(rates, alpha) && k < |draws|
    requires !After(m, rates, alpha, pow, draws, k).done
    ensures var before := After(m, rates, alpha, pow, draws, k);
            Play(before, EventOf(before, rates, alpha, pow, draws[k])) == Ok(After(m, rates, alpha, pow, draws, k + 1))
  {
    var before := After(m, rates, alpha, pow, draws, k);
    AfterKeepsInvariant(f, first, m, rates, alpha, pow, draws, k);
    hide Invariant, Play;
    PlayKeepsInvariant(f, first, before, EventOf(before, rates, alpha, pow, draws[k]));
  }

  lemma SweepStart(f: MatchFormat, first: Player, strong: Player)
    requires WellFormed(f)
    ensures Invariant(f, first, NewMatch(f, first)) && Sweep(f, strong, NewMatch(f, first), 0)
  {
    RunKeepsInvariant(f, first, []);
    assert LoveSets(f, 0) == 0;
  }

  lemma SweepDraw(
    f: MatchFormat, first: Player, rates: Rates, alpha: real, pow: (real, real) -> real, strong: Player, m: State, draw: real, t: int)
    requires WellFormed(f) && ValidParams(rates, alpha) && AllOrNothing(rates, strong) && pow(1.0, alpha) == 1.0
    requires 0.0 <= draw < 1.0 && Invariant(f, first, m) && !m.done && Sweep(f, strong, m, t)
    ensures var r := Play(m, EventOf(m, rates, alpha, pow, draw));
            r.Ok? && Sweep(f, strong, r.value, t + 1)
  {
    SweepIsRegular(f, strong, m, t);
    SweepStep(f, first, strong, m, t);
    StrongSideWins(rates, alpha, pow, strong, m.server, draw);
    hide Sweep, Invariant, WinGame, AllOrNothing;
  }

  lemma DrawsInRange(draws: seq<real>)
    requires Draws(draws)
    ensures forall k :: 0 <= k < |draws| ==> 0.0 <= draws[k] < 1.0
  {
  }

  /** With all-or-nothing rates every draw is a game for the strong side. */
  lemma {:induction false} SweepAfter(
    f: MatchFormat, first: Player, rates: Rates, alpha: real, pow: (real, real) -> real, draws: seq<real>, strong: Player, k: nat)
    requires WellFormed(f) && ValidParams(rates, alpha) && AllOrNothing(rates, strong) && pow(1.0, alpha) == 1.0
    requires Draws(draws) && k <= |draws| && Lasts(NewMatch(f, first), rates, alpha, pow, draws, k)
    ensures var m := After(NewMatch(f, first), rates, alpha, pow, draws, k);
            Invariant(f, first, m) && Sweep(f, strong, m, k)
  {
    hide *;
    DrawsInRange(draws);
    var start := NewMatch(f, first);
    SweepStart(f, first, strong);
    if k == 0 {
      NotYet(start, rates, alpha, pow, draws);
    } else {
      LastsLonger(start, rates, alpha, pow, draws, k - 1);
      SweepAfter(f, first, rates, alpha, pow, draws, strong, k - 1);
      AfterKeepsInvariant(f, first, start, rates, alpha, pow, draws, k);
      DrawIsPlayed(f, first, start, rates, alpha, pow, draws, k - 1);
      SweepDraw(f, first, rates, alpha, pow, strong, After(start, rates, alpha, pow, draws, k - 1), draws[k - 1], k - 1);
    }
  }

  /** A sweep from a fresh match has one length, whatever the draws. */
  lemma SweepRun(
    f: MatchFormat, first: Player, rates: Rates, alpha: real, pow: (real, real) -> real, draws: seq<real>, strong: Player)
    requires WellFormed(f) && ValidParams(rates, alpha) && AllOrNothing(rates, strong) && pow(1.0, alpha) == 1.0
    requires Draws(draws) && |draws| >= SweepLength(f)
    ensures RunOf(NewMatch(f, first), rates, alpha, pow, draws) == (Finished(strong), SweepLength(f))
  {
    hide Invariant;
    var start := NewMatch(f, first);
    var n := Length(start, rates, alpha, pow, draws, 0);
    SweepAfter(f, first, rates, alpha, pow, draws, strong, n);
    var end := After(start, rates, alpha, pow, draws, n);
    if !end.done {
      SweepBound(f, strong, first, end, n);
    }
  }

  /** Plays one game or point as the draw decides it. */
  method PlayDraw(m: Match, rates: Rates, alpha: real, pow: (real, real) -> real, draw: real) returns (err: Option<SimError>)
    requires WellFormed(m.format) && Invariant(m.format, m.firstServer, m.View()) && !m.done && ValidParams(rates, alpha)
    modifies m
    ensures err == None && Invariant(m.format, m.firstServer, m.View())
    ensures Play(old(m.View()), EventOf(old(m.View()), rates, alpha, pow, draw)) == Ok(m.View())
  {
    hide Invariant, Play;
    var server := m.server;
    var opp := server.Opponent();
    var p := GameWinProb(rates.Get(server).hold, rates.Get(opp).breaks, alpha, pow);
    if p.Err? {
      return ErrorOf(p);
    }
    var winner := server.Opponent();
    if draw < p.value {
      winner := server;
    }
    err := ApplySimulatedPoint(m, winner);
  }

  /** Plays on until the match is won: no rule is ever broken, and a sweep has a fixed length. */
  method RunOnce(m: Match, rates: Rates, alpha: real, pow: (real, real) -> real, rng: seq<real>)
    returns (r: Sim<Player>, used: nat)
    requires WellFormed(m.format) && Invariant(m.format, m.firstServer, m.View())
    requires ValidParams(rates, alpha)
    modifies m
    ensures used <= |rng| && Invariant(m.format, m.firstServer, m.View())
    ensures exists history :: |history| == used && Run(old(m.View()), history) == Ok(m.View())
    ensures (r, used) == RunOf(old(m.View()), rates, alpha, pow, rng)
    ensures match r
            case Finished(p) => m.done && m.winner == Some(p)
            case Failed(_) => false
            case OutOfDraws => !m.done && used == |rng|
    ensures forall strong |
              && AllOrNothing(rates, strong) && pow(1.0, alpha) == 1.0 && Draws(rng)
              && old(m.View()) == NewMatch(m.format, m.firstServer) && |rng| >= SweepLength(m.format) ::
              r == Finished(strong) && used == SweepLength(m.format)
  {
    ghost var start := m.View();
    forall strong | && AllOrNothing(rates, strong) && pow(1.0, alpha) == 1.0 && Draws(rng)
                    && start == NewMatch(m.format, m.firstServer) && |rng| >= SweepLength(m.format)
      ensures RunOf(start, rates, alpha, pow, rng) == (Finished(strong), SweepLength(m.format))
    {
      SweepRun(m.format, m.firstServer, rates, alpha, pow, rng, strong);
    }
    used := 0;
    hide Invariant, Play, EventOf, RunOf, AllOrNothing, SweepLength, Draws, After, Run, Lasts;
    NotYet(start, rates, alpha, pow, rng);
    while !m.done
      invariant used <= |rng| && Invariant(m.format, m.firstServer, m.View())
      invariant m.View() == After(start, rates, alpha, pow, rng, used)
      invariant Lasts(start, rates, alpha, pow, rng, used)
      decreases |rng| - used, !m.done
    {
      if used == |rng| {
        RunEndsAt(start, rates, alpha, pow, rng, used);
        RunHasHistory(m.format, m.firstServer, start, rates, alpha, pow, rng, used);
        return OutOfDraws, used;
      }
      var err := PlayDraw(m, rates, alpha, pow, rng[used]);
      if err.Some? {
        return FailedWith(err), used;
      }
      LastsLonger(start, rates, alpha, pow, rng, used);
      AfterStep(start, rates, alpha, pow, rng, used);
      used := used + 1;
    }
    WinnerIsKnown(m.format, m.firstServer, m.View());
    RunEndsAt(start, rates, alpha, pow, rng, used);
    RunHasHistory(m.format, m.firstServer, start, rates, alpha, pow, rng, used);
    return Finished(m.winner.value), used;
  }

  // Many runs, each on the draws that the ones before have left.

  /** Where every run starts. */
  datatype Start = From(m: State) | Fresh(format: MatchFormat)

  /** One run; a fresh one spends a draw on the toss, and A serves first if it is below a half. */
  function OneRun(start: Start, rates: Rates, alpha: real, pow: (real, real) -> real, draws: seq<real>): (r: (Sim<Player>, nat))
    requires ValidParams(rates, alpha)
    ensures r.1 <= |draws|
  {
    match start
    case From(m) => RunOf(m, rates, alpha, pow, draws)
    case Fresh(f) =>
      if draws == [] then (OutOfDraws, 0)
      else
        var (r, used) := RunOf(NewMatch(f, if draws[0] < 0.5 then A else B), rates, alpha, pow, draws[1..]);
        (r, used + 1)
  }

  /** The winners of the first n runs, and the draws left after them. */
  function Runs(start: Start, rates: Rates, alpha: real, pow: (real, real) -> real, draws: seq<real>, n: nat): Sim<(seq<Player>, seq<real>)>
    requires ValidParams(rates, alpha)
  {
    if n == 0 then Finished(([], draws))
    else
      match Runs(start, rates, alpha, pow, draws, n - 1)
      case Failed(e) => Failed(e)
      case OutOfDraws => OutOfDraws
      case Finished((winners, left)) =>
        match OneRun(start, rates, alpha, pow, left)
        case (Failed(e), _) => Failed(e)
        case (OutOfDraws, _) => OutOfDraws
        case (Finished(p), used) => Finished((winners + [p], left[used..]))
  }

  lemma OneMoreRun(
    start: Start, rates: Rates, alpha: real, pow: (real, real) -> real, draws: seq<real>, i: nat, winners: seq<Player>, left: seq<real>)
    requires ValidParams(rates, alpha) && Runs(start, rates, alpha, pow, draws, i) == Finished((winners, left))
    ensures var (r, used) := OneRun(start, rates, alpha, pow, left);
            && used <= |left|
            && (r.Finished? ==> Runs(start, rates, alpha, pow, draws, i + 1) == Finished((winners + [r.value], left[used..])))
            && (r.OutOfDraws? ==> Runs(start, rates, alpha, pow, draws, i + 1) == OutOfDraws)
  {
    hide OneRun;
  }

  lemma NoRuns(start: Start, rates: Rates, alpha: real, pow: (real, real) -> real, draws: seq<real>)
    requires ValidParams(rates, alpha)
    ensures Runs(start, rates, alpha, pow, draws, 0) == Finished(([], draws))
  {
  }

  lemma RunsFromMatch(m: State, rates: Rates, alpha: real, pow: (real, real) -> real, draws: seq<real>)
    requires ValidParams(rates, alpha)
    ensures OneRun(From(m), rates, alpha, pow, draws) == RunOf(m, rates, alpha, pow, draws)
  {
  }

  lemma {:induction false} OutOfDrawsForGood(
    start: Start, rates: Rates, alpha: real, pow: (real, real) -> real, draws: seq<real>, i: nat, n: nat)
    requires ValidParams(rates, alpha) && i <= n && Runs(start, rates, alpha, pow, draws, i) == OutOfDraws
    ensures Runs(start, rates, alpha, pow, draws, n) == OutOfDraws
    decreases n
  {
    if i < n {
      OutOfDrawsForGood(start, rates, alpha, pow, draws, i, n - 1);
    }
  }

  /** The i-th winner is the one who wins a run on the draws left by the i runs before it. */
  lemma {:induction false} RunsMeaning(start: Start, rates: Rates, alpha: real, pow: (real, real) -> real, draws: seq<real>, n: nat)
    requires ValidParams(rates, alpha) && Runs(start, rates, alpha, pow, draws, n).Finished?
    ensures var winners := Runs(start, rates, alpha, pow, draws, n).value.0;
            && |winners| == n
            && forall i: nat :: i < n ==>
                 && Runs(start, rates, alpha, pow, draws, i).Finished?
                 && Runs(start, rates, alpha, pow, draws, i).value.0 == winners[..i]
                 && OneRun(start, rates, alpha, pow, Runs(start, rates, alpha, pow, draws, i).value.1).0 == Finished(winners[i])
  {
    hide OneRun;
    if n > 0 {
      RunsMeaning(start, rates, alpha, pow, draws, n - 1);
      var winners, before := Runs(start, rates, alpha, pow, draws, n).value.0, Runs(start, rates, alpha, pow, draws, n - 1).value.0;
      assert winners[..n - 1] == before;
      assert forall i: nat :: i < n ==> winners[..i] == before[..i];
    }
  }

  /** How often each player is among the winners. */
  function WinsOf(winners: seq<Player>): Pair {
    Pair(multiset(winners)[A], multiset(winners)[B])
  }

  lemma WinsOfNone()
    ensures WinsOf([]) == ZERO
  {
  }

  lemma WinsOfMore(winners: seq<Player>, p: Player)
    ensures WinsOf(winners + [p]) == WinsOf(winners).Inc(p)
  {
  }

  /** Win counts that add up to n. */
  predicate Tallies(wins: Pair, n: int) {
    wins.a >= 0 && wins.b >= 0 && wins.a + wins.b == n
  }

  lemma {:induction false} WinsAddUp(winners: seq<Player>)
    ensures Tallies(WinsOf(winners), |winners|)
  {
    if winners != [] {
      var n := |winners| - 1;
      WinsAddUp(winners[..n]);
      WinsOfMore(winners[..n], winners[n]);
      assert winners == winners[..n] + [winners[n]];
    }
  }

  lemma WinsWhen(start: Start, rates: Rates, alpha: real, pow: (real, real) -> real, draws: seq<real>, n: nat)
    requires ValidParams(rates, alpha)
    ensures var runs, r := Runs(start, rates, alpha, pow, draws, n), WinsOfRuns(start, rates, alpha, pow, draws, n);
            && (runs.Finished? ==> r == Finished(WinsOf(runs.value.0)))
            && (runs.OutOfDraws? ==> r == OutOfDraws)
  {
    hide Runs;
  }

  lemma DrawsRunOut(
    start: Start, rates: Rates, alpha: real, pow: (real, real) -> real, draws: seq<real>, i: nat, n: nat, winners: seq<Player>, left: seq<real>)
    requires ValidParams(rates, alpha) && i < n && Runs(start, rates, alpha, pow, draws, i) == Finished((winners, left))
    requires OneRun(start, rates, alpha, pow, left).0 == OutOfDraws
    ensures WinsOfRuns(start, rates, alpha, pow, draws, n) == OutOfDraws
  {
    hide *;
    OneMoreRun(start, rates, alpha, pow, draws, i, winners, left);
    OutOfDrawsForGood(start, rates, alpha, pow, draws, i + 1, n);
    WinsWhen(start, rates, alpha, pow, draws, n);
  }

  lemma WinsOfRunsAddUp(start: Start, rates: Rates, alpha: real, pow: (real, real) -> real, draws: seq<real>, n: nat)
    requires ValidParams(rates, alpha)
    ensures var r := WinsOfRuns(start, rates, alpha, pow, draws, n);
            r.Finished? ==> Tallies(r.value, n)
  {
    if Runs(start, rates, alpha, pow, draws, n).Finished? {
      RunsMeaning(start, rates, alpha, pow, draws, n);
      WinsAddUp(Runs(start, rates, alpha, pow, draws, n).value.0);
    }
  }

  /** The wins of n runs, or the news that the draws do not suffice. */
  function WinsOfRuns(start: Start, rates: Rates, alpha: real, pow: (real, real) -> real, draws: seq<real>, n: nat): Sim<Pair>
    requires ValidParams(rates, alpha)
  {
    match Runs(start, rates, alpha, pow, draws, n)
    case Finished((winners, _)) => Finished(WinsOf(winners))
    case Failed(e) => Failed(e)
    case OutOfDraws => OutOfDraws
  }

  /** n completions of a copy of `initial`, which itself is not in the method's frame. */
  method Simulate(initial: Match?, rates: Rates, alpha: real, pow: (real, real) -> real, n: int, rng: Option<seq<real>>)
    returns (r: Sim<Pair>)
    requires initial != null ==> WellFormed(initial.format) && Invariant(initial.format, initial.firstServer, initial.View())
    ensures initial == null ==> r == Failed(NilInitialMatch)
    ensures initial != null && initial.done ==> r == Failed(InitialMatchDone)
    ensures initial != null && !initial.done ==>
              match ValidateSimulationParams(rates, alpha, n, rng)
              case Some(e) => r == Failed(e)
              case None =>
                && !r.Failed? && (r.Finished? ==> Tallies(r.value, n)) && (n == 0 ==> r == Finished(ZERO))
                && (n > 0 ==> r == WinsOfRuns(From(initial.View()), rates, alpha, pow, rng.value, n))
  {
    if initial == null {
      return Failed(NilInitialMatch);
    }
    if initial.done {
      return Failed(InitialMatchDone);
    }
    var invalid := ValidateSimulationParams(rates, alpha, n, rng);
    if invalid.Some? {
      return Failed(invalid.value);
    }
    if n == 0 {
      return Finished(ZERO);
    }
    var wins, draws := ZERO, rng.value;
    ghost var start, winners: seq<Player> := From(initial.View()), [];
    assert n > 0 && ValidParams(rates, alpha) && rng.Some?;
    hide Invariant, RunOf, ValidateSimulationParams, ValidParams, Runs, OneRun, WinsOf, WinsOfRuns, Tallies;
    NoRuns(start, rates, alpha, pow, draws);
    WinsOfNone();
    WinsOfRunsAddUp(start, rates, alpha, pow, draws, n);
    WinsWhen(start, rates, alpha, pow, draws, n);
    for i := 0 to n
      invariant Runs(start, rates, alpha, pow, rng.value, i) == Finished((winners, draws)) && wins == WinsOf(winners)
    {
      OneMoreRun(start, rates, alpha, pow, rng.value, i, winners, draws);
      RunsFromMatch(initial.View(), rates, alpha, pow, draws);
      var m := initial.Clone();
      var run, used := RunOnce(m, rates, alpha, pow, draws);
      match run {
        case Finished(p) =>
          wins := wins.Inc(p);
          WinsOfMore(winners, p);
          winners := winners + [p];
        case Failed(e) => return FailedWith(Some(e));
        case OutOfDraws =>
          DrawsRunOut(start, rates, alpha, pow, rng.value, i, n, winners, draws);
          return OutOfDraws;
      }
      draws := draws[used..];
    }
    return Finished(wins);
  }

  /** A coin toss and a sweep for each of n matches. */
  function DrawsNeeded(f: MatchFormat, n: int): int {
    if n <= 0 then 0 else DrawsNeeded(f, n - 1) + 1 + SweepLength(f)
  }

  lemma {:induction false} DrawsNeededStep(f: MatchFormat, n: int)
    requires WellFormed(f)
    ensures DrawsNeeded(f, n) >= 0 && SweepLength(f) >= 0
    ensures n >= 1 ==> DrawsNeeded(f, n) == 1 + SweepLength(f) + DrawsNeeded(f, n - 1)
    decreases n
  {
    LoveSetsGrow(f, 0, f.setsToWin);
    if n > 0 {
      DrawsNeededStep(f, n - 1);
    }
  }

  predicate Supplied(f: MatchFormat, rates: Rates, alpha: real, pow: (real, real) -> real, strong: Player, rng: seq<real>, n: int) {
    && AllOrNothing(rates, strong) && pow(1.0, alpha) == 1.0 && Draws(rng)
    && |rng| >= DrawsNeeded(f, n)
  }

  function Same(p: Player, n: nat): seq<Player> {
    if n == 0 then [] else Same(p, n - 1) + [p]
  }

  /** n sweeps from fresh matches, toss included. */
  lemma {:induction false} SweepRuns(
    f: MatchFormat, rates: Rates, alpha: real, pow: (real, real) -> real, draws: seq<real>, strong: Player, n: nat)
    requires WellFormed(f) && ValidParams(rates, alpha) && Supplied(f, rates, alpha, pow, strong, draws, n)
    ensures DrawsNeeded(f, n) >= 0
    ensures Runs(Fresh(f), rates, alpha, pow, draws, n) == Finished((Same(strong, n), draws[DrawsNeeded(f, n)..]))
  {
    hide *;
    DrawsNeededStep(f, n);
    if n == 0 {
      NothingNeeded(f, strong);
      NoRuns(Fresh(f), rates, alpha, pow, draws);
    } else {
      DrawsNeededStep(f, n - 1);
      SuppliedFewer(f, rates, alpha, pow, draws, strong, n);
      SweepRuns(f, rates, alpha, pow, draws, strong, n - 1);
      SweepNext(f, rates, alpha, pow, draws, strong, n - 1, DrawsNeeded(f, n - 1));
    }
  }

  lemma NothingNeeded(f: MatchFormat, strong: Player)
    ensures DrawsNeeded(f, 0) == 0 && Same(strong, 0) == []
  {
  }

  lemma SuppliedFewer(f: MatchFormat, rates: Rates, alpha: real, pow: (real, real) -> real, draws: seq<real>, strong: Player, n: nat)
    requires WellFormed(f) && n > 0 && Supplied(f, rates, alpha, pow, strong, draws, n)
    ensures Supplied(f, rates, alpha, pow, strong, draws, n - 1)
    ensures |draws| >= DrawsNeeded(f, n - 1) + 1 + SweepLength(f) >= 1 + SweepLength(f) >= 1
  {
    DrawsNeededStep(f, n);
    DrawsNeededStep(f, n - 1);
    hide AllOrNothing, DrawsNeeded, SweepLength;
  }

  lemma SweepNext(
    f: MatchFormat, rates: Rates, alpha: real, pow: (real, real) -> real, draws: seq<real>, strong: Player, n: nat, used: nat)
    requires WellFormed(f) && ValidParams(rates, alpha) && Supplied(f, rates, alpha, pow, strong, draws, n)
    requires |draws| >= used + 1 + SweepLength(f) >= used + 1
    requires Runs(Fresh(f), rates, alpha, pow, draws, n) == Finished((Same(strong, n), draws[used..]))
    ensures Runs(Fresh(f), rates, alpha, pow, draws, n + 1) == Finished((Same(strong, n + 1), draws[used + 1 + SweepLength(f)..]))
  {
    var left := draws[used..];
    assert Draws(left) && AllOrNothing(rates, strong) && pow(1.0, alpha) == 1.0;
    assert left[1 + SweepLength(f)..] == draws[used + 1 + SweepLength(f)..];
    assert Same(strong, n + 1) == Same(strong, n) + [strong];
    hide *;
    SweepFresh(f, rates, alpha, pow, left, strong);
    OneMoreRun(Fresh(f), rates, alpha, pow, draws, n, Same(strong, n), left);
  }

  lemma SweepFresh(f: MatchFormat, rates: Rates, alpha: real, pow: (real, real) -> real, draws: seq<real>, strong: Player)
    requires WellFormed(f) && ValidParams(rates, alpha) && AllOrNothing(rates, strong) && pow(1.0, alpha) == 1.0
    requires Draws(draws) && |draws| >= 1 + SweepLength(f) >= 1
    ensures OneRun(Fresh(f), rates, alpha, pow, draws) == (Finished(strong), 1 + SweepLength(f))
  {
    assert Draws(draws[1..]);
    hide RunOf, SweepLength, AllOrNothing, Draws;
    SweepRun(f, if draws[0] < 0.5 then A else B, rates, alpha, pow, draws[1..], strong);
  }

  lemma {:induction false} WinsOfSame(p: Player, n: nat)
    ensures WinsOf(Same(p, n)) == ZERO.Put(p, n)
  {
    if n == 0 {
      WinsOfNone();
    } else {
      WinsOfSame(p, n - 1);
      WinsOfMore(Same(p, n - 1), p);
    }
  }

  lemma SweepWins(f: MatchFormat, rates: Rates, alpha: real, pow: (real, real) -> real, draws: seq<real>, strong: Player, n: nat)
    requires WellFormed(f) && ValidParams(rates, alpha) && Supplied(f, rates, alpha, pow, strong, draws, n)
    ensures WinsOfRuns(Fresh(f), rates, alpha, pow, draws, n) == Finished(ZERO.Put(strong, n))
  {
    hide *;
    SweepRuns(f, rates, alpha, pow, draws, strong, n);
    WinsOfSame(strong, n);
    WinsWhen(Fresh(f), rates, alpha, pow, draws, n);
  }

  /** A fair coin. */
  function FirstServerCoinToss(draw: real): Player {
    if draw < 0.5 then A else B
  }

  /** n fresh matches; with all-or-nothing rates and enough draws the strong side wins them all. */
  method SimulateFresh(format: MatchFormat, rates: Rates, alpha: real, pow: (real, real) -> real, n: int, rng: Option<seq<real>>)
    returns (r: Sim<Pair>)
    requires WellFormed(format)
    ensures match ValidateSimulationParams(rates, alpha, n, rng)
            case Some(e) => r == Failed(e)
            case None =>
              && !r.Failed? && (r.Finished? ==> Tallies(r.value, n)) && (n == 0 ==> r == Finished(ZERO))
              && (n > 0 ==> r == WinsOfRuns(Fresh(format), rates, alpha, pow, rng.value, n))
    ensures forall strong | n >= 1 && rng.Some? && ValidParams(rates, alpha) && Supplied(format, rates, alpha, pow, strong, rng.value, n) ::
              r == Finished(ZERO.Put(strong, n))
  {
    var invalid := ValidateSimulationParams(rates, alpha, n, rng);
    if invalid.Some? {
      return Failed(invalid.value);
    }
    if n == 0 {
      return Finished(ZERO);
    }
    var wins, draws := ZERO, rng.value;
    forall strong | Supplied(format, rates, alpha, pow, strong, rng.value, n)
      ensures WinsOfRuns(Fresh(format), rates, alpha, pow, rng.value, n) == Finished(ZERO.Put(strong, n))
    {
      SweepWins(format, rates, alpha, pow, rng.value, strong, n);
    }
    ghost var start, winners: seq<Player> := Fresh(format), [];
    assert n > 0 && ValidParams(rates, alpha) && rng.Some?;
    hide RunOf, OneRun, ValidateSimulationParams, ValidParams, Runs, WinsOf, WinsOfRuns, Tallies, Supplied;
    NoRuns(start, rates, alpha, pow, draws);
    WinsOfNone();
    WinsOfRunsAddUp(start, rates, alpha, pow, draws, n);
    WinsWhen(start, rates, alpha, pow, draws, n);
    for i := 0 to n
      invariant Runs(start, rates, alpha, pow, rng.value, i) == Finished((winners, draws)) && wins == WinsOf(winners)
    {
      OneMoreRun(start, rates, alpha, pow, rng.value, i, winners, draws);
      var run, used := FreshRun(format, rates, alpha, pow, draws);
      match run {
        case Finished(p) =>
          wins := wins.Inc(p);
          WinsOfMore(winners, p);
          winners := winners + [p];
        case Failed(e) => return FailedWith(Some(e));
        case OutOfDraws =>
          DrawsRunOut(start, rates, alpha, pow, rng.value, i, n, winners, draws);
          return OutOfDraws;
      }
      draws := draws[used..];
    }
    return Finished(wins);
  }

  /** One fresh match: the toss takes one draw. */
  method FreshRun(format: MatchFormat, rates: Rates, alpha: real, pow: (real, real) -> real, draws: seq<real>)
    returns (r: Sim<Player>, used: nat)
    requires WellFormed(format) && ValidParams(rates, alpha)
    ensures used <= |draws| && !r.Failed?
    ensures (r, used) == OneRun(Fresh(format), rates, alpha, pow, draws)
    ensures forall strong |
              && AllOrNothing(rates, strong) && pow(1.0, alpha) == 1.0 && Draws(draws) && |draws| >= 1 + SweepLength(format) ::
              r == Finished(strong) && used == 1 + SweepLength(format)
  {
    if |draws| == 0 {
      DrawsNeededStep(format, 0);
      return OutOfDraws, 0;
    }
    var m := new Match(FirstServerCoinToss(draws[0]), format);
    RunKeepsInvariant(format, m.firstServer, []);
    hide Invariant, SweepLength, RunOf;
    assert Draws(draws) ==> Draws(draws[1..]);
    r, used := RunOnce(m, rates, alpha, pow, draws[1..]);
    used := used + 1;
  }
}
