/** The mutable match: every method is proved against the step functions of `Rules`. */
module Matches {
  import opened Wrappers
  import opened Rules

  class Match {
    const format: MatchFormat
    const firstServer: Player
    var setsWon: Pair
    var completedSets: seq<SetResult>
    var current: Set
    var server: Player
    var done: bool
    var winner: Option<Player>

    /** The values of all fields. */
    ghost function View(): State
      reads this
    {
      State(format, firstServer, setsWon, completedSets, current, server, done, winner)
    }

    constructor (firstServer: Player, format: MatchFormat)
      ensures View() == NewMatch(format, firstServer)
    {
      this.format, this.firstServer, this.server := format, firstServer, firstServer;
      setsWon, completedSets, current := ZERO, [], EMPTY_SET;
      done, winner := false, None;
    }

    constructor Copy(m: Match)
      ensures View() == m.View()
    {
      format, firstServer, server := m.format, m.firstServer, m.server;
      setsWon, completedSets, current := m.setsWon, m.completedSets, m.current;
      done, winner := m.done, m.winner;
    }

    /** A copy that shares nothing with this match. */
    method Clone() returns (c: Match)
      ensures fresh(c) && c.View() == View()
    {
      c := new Match.Copy(this);
    }

    method WinGame(winner: Player) returns (err: Option<RuleError>)
      modifies this
      ensures match Rules.WinGame(old(View()), winner)
              case Ok(m) => err == None && View() == m
              case Err(e) => err == Some(e) && View() == old(View())
    {
      if done {
        return Some(MatchComplete);
      }
      if current.phase != Regular {
        return Some(WrongPhase);
      }
      current := current.(games := current.games.Inc(winner));
      var winnerGames, loserGames := current.games.Get(winner), current.games.Get(winner.Opponent());
      if current.games.a == format.tiebreakAt && current.games.b == format.tiebreakAt {
        server := server.Opponent();
        EnterTiebreak();
        return None;
      }
      if winnerGames >= format.gamesPerSet && winnerGames - loserGames >= format.gameMargin {
        CompleteSet(winner);
        return None;
      }
      server := server.Opponent();
      return None;
    }

    method EnterTiebreak()
      modifies this`current
      ensures current == Set(old(current.games), Tiebreak, ZERO, 0, server)
    {
      current := current.(phase := Tiebreak, tiebreakPoints := ZERO, pointsPlayedInTB := 0);
      current := current.(firstServerOfTiebreak := server);
    }

    method CompleteSet(winner: Player)
      modifies this
      ensures View() == Rules.CompleteSet(old(View()), winner)
    {
      completedSets := completedSets + [SetResult(current.games.a, current.games.b)];
      setsWon := setsWon.Inc(winner);
      if setsWon.Get(winner) >= format.setsToWin {
        this.winner := Some(winner);
        done := true;
        return;
      }
      current := EMPTY_SET;
      server := server.Opponent();
    }

    method WinTiebreakPoint(winner: Player) returns (err: Option<RuleError>)
      modifies this
      ensures match Rules.WinTiebreakPoint(old(View()), winner)
              case Ok(m) => err == None && View() == m
              case Err(e) => err == Some(e) && View() == old(View())
    {
      if done {
        return Some(MatchComplete);
      }
      if current.phase != Tiebreak {
        return Some(WrongPhase);
      }
      current := current.(tiebreakPoints := current.tiebreakPoints.Inc(winner),
                          pointsPlayedInTB := current.pointsPlayedInTB + 1);
      var winnerPts, loserPts := current.tiebreakPoints.Get(winner), current.tiebreakPoints.Get(winner.Opponent());
      if winnerPts >= TiebreakTarget(format, setsWon) && winnerPts - loserPts >= format.tiebreakPointMargin {
        current := current.(games := current.games.Put(winner, format.tiebreakAt + 1));
        current := current.(games := current.games.Put(winner.Opponent(), format.tiebreakAt));
        server := current.firstServerOfTiebreak;
        CompleteSet(winner);
        return None;
      }
      server := ServerForTBPoint(current.pointsPlayedInTB, current.firstServerOfTiebreak);
      return None;
    }
  }
}
