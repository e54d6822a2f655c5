# Calculated Tennis: verified models

This project models the parts of the repository that carry real logic and proves what they are for.

- **Match engine and score hydration** (`Rules`, `ScoreLine`, `GameBound`, `Matches`, `Score`, `Text`,
  `ScoreText`, `Hydration`, `ScoreHydration`, `Exactness`). A match is a state machine over games and tiebreak points. The central fact is a
  closed form: an unfinished match is determined by who served first and by its score line. From it follow path
  independence, the serve rule, and that rebuilding a match by replaying an invented history gives the one match every
  real history with that score leads to. Formats are a parameter under `Rules.WellFormed`, which the three presets meet.
- **Simulation** (`Simulation`): which draw decides what, runs that never break a rule, wins counted run by run, and the exact
  length of a sweep.
- **JavaScript array parser** (`JsArray`, `JsPrinting`, `JsExactness`): a cursor parser, the texts it accepts and no others, and where its
  errors point.
- **As-of filter** (`RecentFilter`): stable newest-first sort, filtering twice, no look-ahead.
- **Money** (`Decimals`, `Risk`, `Backtest`, `Ledger`, `Singles`, `Parlay`): from balance to signed amount through two roundings,
  bankroll safety over whole walks, greedy parlay windows, and books that are the sums of their entries.
- **Live trading protocol** (`MarketFeed`, `Discovery`): subscriptions over reconnects and starting each market once,
  over all interleavings of atomic steps.

Mutable objects are classes whose methods are proved against functions on the values of their fields; the properties are
proved about those functions. `dafny verify dfyconfig.toml` checks everything.

## Findings

- The validator lets an in-progress last token k-k with k above the tiebreak tie pass
  (tennis/tennis/score.go:134); only the replay refuses it. `Exactness.OnlyHydrationFailure` gives the exact case, `Exactness.SevenAllIsRefused` an input.
- The replay of a won tiebreak terminates exactly when the tiebreak margin is at most two
  (`Hydration.GreedyTiebreakEnds`).
- With all-or-nothing rates a match takes SetsToWin times GamesPerSet games exactly when a set takes at least two games:
  in a one-game format a love set still takes two (`Simulation.SweepLengthIsProduct`).
- Allocate and BuildOrder on their own can sign one millionth more than the balance, since the division rounds: they never
  do below a price bound exactly when the bound is at most 10^10 (`Risk.SpendBoundIsExact`, inputs in
  `Risk.SpendBeyondBalance`). Only a direct call of the exported allocator reaches this: ProcessSignal first asks for a
  positive expected value, which forces a price below 1, so what it signs is always covered (`Risk.SignedWithinBalance`).
- A remote subscription can outlive its last listener (`MarketFeed.StaleSnapshotLeavesExtra`,
  `MarketFeed.FailedUnsubscribeLeavesExtra`). `MarketFeed.ExtrasAreLeftBehind` says which tokens these are in every run;
  there are none as long as no last listener leaves between the snapshot and the bulk send and every unsubscribe message on
  a live connection succeeds (`MarketFeed.CleanRunsLeaveNothing`).
- The comment on MatchFromScore says ties go to player A (tennis/tennis/score.go:254-256); in a completed tiebreak they go
  to the set's winner (tennis/tennis/score.go:491-497). The model follows the code (`Hydration.TiesGo`).
- The comment on RecentResultsBefore speaks of equal dates (tennis/tennisabstract/recent_filter.go:10-12); the filter compares
  calendar days but the sort compares full times. The model follows the code.

## Model

| member | source | states |
|---|---|---|
| Matches.Match.WinGame | tennis/tennis/rules.go:11-39 | one regular game changes all fields as the rules say, or is refused with the match untouched |
| Matches.Match.WinTiebreakPoint | tennis/tennis/rules.go:111-136 | one tiebreak point likewise, with the deciding-set target and the serve rotation |
| Matches.Match.CompleteSet | tennis/tennis/rules.go:48-71 | a completed set is recorded and either ends the match or opens the next set with the other server |
| Matches.Match.Clone | tennis/tennis/state.go:52-72 | the copy is a new object with equal fields |
| Rules.PresetsAreWellFormed | tennis/tennis/format.go:18-50 | the three presets meet the format predicate all theorems assume |
| ScoreLine.GameEnds | tennis/tennis/rules.go:11-39 | a game wins the set exactly at games per set with a lead of two, and leads to a tiebreak exactly when level at the tie |
| ScoreLine.TiebreakEnds | tennis/tennis/rules.go:103-136 | a point wins the set exactly with the points to win, those of the final set when both sides need one more and the format has them, and a lead of two |
| ScoreLine.PresetTiebreaks | tennis/tennis/format.go:18-50 | seven points, but ten at two sets all in a men's major and one set all in a women's |
| Rules.TiebreakRotation | tennis/tennis/rules.go:138-150 | Rule 5b of the ITF Rules of Tennis: one point, then two each in turn |
| Rules.TiebreakServesBalanced | tennis/tennis/rules.go:138-150 | after any number of tiebreak points the numbers of points served add up and differ by at most one |
| ScoreLine.PlayKeepsInvariant | tennis/tennis/rules.go:11-136 | from a reachable state a game or point is refused only when the match is over or the phase is wrong, and otherwise keeps the closed form |
| ScoreLine.ReachableFacts | tennis/tennis/rules.go:11-136 | every reachable match: tallies equal recorded sets, legal lines, phase exactly at the tie, undecided tiebreak, Done exactly with a winner, set and game bounds |
| ScoreLine.PathIndependence | tennis/tennis/rules.go:11-136 | two histories showing the same unfinished score are in the same full state |
| ScoreLine.WhoServes | tennis/tennis/rules.go:33-37 | the server flips once per game across all sets, a tiebreak counting as one; inside a tiebreak it depends on that parity and the points played |
| ScoreLine.TurnIsParity | tennis/tennis/rules.go:37-38 | the flip count matters only by parity |
| ScoreLine.ReachableUnfinished | tennis/tennis/rules.go:11-136 | the reachable unfinished matches are exactly the canonical states of the legal lines |
| ScoreLine.FinishedScores | tennis/tennis/rules.go:48-67 | the scores of finished matches are exactly the legal sets whose last one decides |
| GameBound.GamesShownWerePlayed | tennis/tennis/rules.go:11-67 | in every history the regular games played are those the scoreboard shows |
| GameBound.RegularGamesAreBounded | tennis/tennis/rules.go:11-136 | no match has more than 2 * GamesPerSet regular games in each of 2 * SetsToWin - 1 sets, so only tiebreaks are unbounded |
| Score.TokenMeaning | tennis/tennis/score.go:117-199 | the token checks accept exactly completed sets, sets in progress and overlong ties, and name the right winner |
| Score.TieTokenMeaning | tennis/tennis/score.go:225-252 | the tie tokens accepted are those whose points leave both sides short of the points to win, final set included, or of a lead of two |
| Score.ValidateScoreSequence | tennis/tennis/score.go:69-115 | the validator's loop gives the verdict function's answer, and its test for a match won before an open last set never fires |
| Score.VerdictMeaning | tennis/tennis/score.go:66-115 | accepted means few enough tokens, all but the last completed without a winner, and a passable last; "already complete" means a proper prefix is a final score |
| Score.WonSetAccepted | tennis/tennis/score.go:117-199 | which regularly won sets of any format the token check accepts, well-formed or not |
| Score.AllWonSetsAccepted | tennis/tennis/score.go:133-150 | the formats in which every set won at games per set is accepted: the tie not before that, or a set of at most two games |
| Hydration.PickStaysOnTheWay | tennis/tennis/score.go:305-344 | the needed-winner picker keeps both sides level until one has all it needs |
| Hydration.ReplayRegularGamesTo | tennis/tennis/score.go:389-410 | terminates; reaches any open line without completing a set, and fails exactly at an overlong tie |
| Hydration.ReplayRegularGamesUntilSetComplete | tennis/tennis/score.go:412-429 | terminates; records exactly the completed line |
| Hydration.ReplayTiebreakPointsTo | tennis/tennis/score.go:431-452 | terminates; reaches any undecided points without deciding the tiebreak |
| Hydration.ClimbStep | tennis/tennis/score.go:454-499 | a greedy tiebreak pick lets only the intended winner clinch |
| Hydration.ReplayTiebreakUntilSetComplete | tennis/tennis/score.go:501-517 | terminates; the intended player wins the tiebreak and the set |
| Hydration.TiesGo | tennis/tennis/score.go:305-344 | at a tie the next game goes to player A, in a tiebreak to be won to its winner |
| Hydration.GreedyTiebreakEnds | tennis/tennis/score.go:486-517 | the greedy tiebreak replay ends if and only if the point margin is at most two |
| ScoreHydration.HydrateSet | tennis/tennis/score.go:366-387 | a completed token is recorded, an open one reached, an overlong tie refused, a finished match left alone |
| ScoreHydration.AssertInProgressSet | tennis/tennis/score.go:519-549 | passes exactly when games, phase and tiebreak points are those of the token |
| ScoreHydration.HydrateTokens | tennis/tennis/score.go:266-297 | the loop's tally equals the match's at every token, and the tokens end in the line they write |
| ScoreHydration.MatchFromScore | tennis/tennis/score.go:254-303 | text gives a new match in the canonical state of its score, or the exact error |
| Exactness.HydrationIsSound | tennis/tennis/score.go:257-303 | a rebuilt match is a reachable unfinished match that the score writes |
| Exactness.HydrationIsComplete | tennis/tennis/score.go:257-303 | every way to write a reachable unfinished match rebuilds that match, equal in every field |
| Exactness.HydrationIsExact | tennis/tennis/score.go:257-303 | hydration succeeds on the scores of unfinished matches and on nothing else |
| Exactness.FinishedMatchesRefused | tennis/tennis/score.go:97-99 | tokens are reported as over exactly when a prefix is the score of a finished match |
| Exactness.OnlyHydrationFailure | tennis/tennis/score.go:133-136 | after validation the only hydration failure is an overlong tie as the last token |
| Exactness.SevenAllIsRefused | tennis/tennis/score.go:133-136 | an input: 7-7 is validated and then refused |
| Exactness.ScoreRoundTrip | tennis/tennis/score.go:31-303 | printing any unfinished match and reading it back through text gives the same match |
| Text.FieldsOfTrimmed | tennis/tennis/score.go:33-38 | trimming changes no word, and only blank text has none |
| Text.FieldsJoin | tennis/tennis/score.go:38-38 | white space anywhere separates the words on its two sides |
| Text.TrimMeaning | tennis/tennis/score.go:33-33 | trimming drops white space at both ends and all of it |
| ScoreText.TokenGrammar | tennis/tennis/score.go:20-20 | a token matches with given groups exactly when it is their text |
| ScoreText.AtoiJoin | tennis/tennis/score.go:46-62 | digits are read as positional notation |
| ScoreText.TokenErrors | tennis/tennis/score.go:40-62 | which token has which error: no token at all, or tiebreak points after unequal games |
| ScoreText.ScoreErrors | tennis/tennis/score.go:31-64 | a score text fails exactly when it has no words or with the error of its first bad word |
| ScoreText.ParseScore | tennis/tennis/score.go:31-64 | all sets of the text, or the error of the first bad token |
| ScoreText.TextRoundTrip | tennis/tennis/score.go:31-64 | parsing the printing of any non-empty printable list of sets returns it |
| ScoreText.ReprintParsed | tennis/tennis/score.go:31-64 | whatever parses can be printed and parses back the same |
| Simulation.ChancesAddUp | tennis/tennis/probability.go:17-28 | chances lie in [0,1], swapping the rates complements them, and the better rate is ahead by the gap to the power of alpha |
| Simulation.ParameterErrors | tennis/tennis/simulate.go:39-57 | which parameters are refused, and with which error first |
| Simulation.ApplySimulatedPoint | tennis/tennis/simulate.go:132-137 | a simulated point is never refused on a reachable unfinished match |
| Simulation.RunFollowsDraws | tennis/tennis/simulate.go:139-156 | a run takes one allowed event from each draw, for the server exactly when the draw is below his chance, and its winner is the match's |
| Simulation.RunOnce | tennis/tennis/simulate.go:139-156 | the loop plays exactly that run as a legal history without any error; an all-or-nothing run from a fresh match has a fixed length for any random stream |
| Simulation.RunsMeaning | tennis/tennis/simulate.go:103-130 | the i-th winner is who wins a run on the draws that the i runs before it leave |
| Simulation.SweepLengthIsProduct | tennis/tennis/simulate.go:139-156 | that length is SetsToWin times GamesPerSet exactly when a set has at least two games |
| Simulation.Simulate | tennis/tennis/simulate.go:103-130 | the errors in their order, and otherwise how often each player is among the winners of the n runs, with the initial match untouched |
| Simulation.SimulateFresh | tennis/tennis/simulate.go:77-101 | likewise from fresh matches, each with a toss that spends a draw; with all-or-nothing rates the strong side wins all n |
| JsArray.JsArrayParser.ParseString | tennis/tennisabstract/fetch_classic.go:147-183 | reads a string literal with its escapes, cursor never back nor past the end |
| JsArray.JsArrayParser.ParseAtom | tennis/tennisabstract/fetch_classic.go:185-203 | reads a quoted or bare cell, refuses a nested array |
| JsArray.JsArrayParser.ParseRow | tennis/tennisabstract/fetch_classic.go:205-234 | reads a row or gives the first error with its offset, and terminates |
| JsArray.JsArrayParser.ParseMatrix | tennis/tennisabstract/fetch_classic.go:236-265 | reads a matrix or gives the first error with its offset, and terminates |
| JsPrinting.BodyWasWritten | tennis/tennisabstract/fetch_classic.go:147-183 | what is read as a string was written as an encoding of it |
| JsPrinting.MatrixRoundTrip | tennis/tennisabstract/fetch_classic.go:236-265 | every writing of a matrix, with quoted and bare cells, blanks, trailing commas and any text after it, reads back as the matrix with the cursor after its bracket |
| JsPrinting.PlainRoundTrip | tennis/tennisabstract/fetch_classic.go:115-122 | every matrix of strings has such a writing, with the usual named escapes |
| JsPrinting.OtherEscapes | tennis/tennisabstract/fetch_classic.go:160-171 | any other escaped character stands for itself |
| JsExactness.SkipMeaning | tennis/tennisabstract/fetch_classic.go:129-138 | exactly spaces, tabs, line feeds and carriage returns are skipped |
| JsExactness.MatrixIsExact | tennis/tennisabstract/fetch_classic.go:236-265 | the parser gives a matrix and a cursor exactly when the text up to the cursor writes that matrix |
| JsExactness.MatrixErrors | tennis/tennisabstract/fetch_classic.go:147-265 | at the offset of every error the text is what the error complains of |
| RecentFilter.RecentResultsBefore | tennis/tennisabstract/recent_filter.go:13-37 | the loop, the sort and the cut give the filter function's rows |
| RecentFilter.StableSortIsStable | tennis/tennisabstract/recent_filter.go:30-32 | newest first, rows of one time in their original order |
| RecentFilter.StableSortIsUnique | tennis/tennisabstract/recent_filter.go:30-32 | no other arrangement is stable and newest first |
| RecentFilter.BeforeMeaning | tennis/tennisabstract/recent_filter.go:18-26 | the rows dated before midnight UTC of the cut-off day are kept, each as often as it was there, and no others |
| RecentFilter.KeepsTheNewest | tennis/tennisabstract/recent_filter.go:10-37 | as many early rows as allowed, and none left out is newer |
| RecentFilter.FilterTwice | tennis/tennisabstract/backtest_rates.go:113-142 | filtering twice by one date is filtering once by the smaller limit |
| RecentFilter.NoLookAhead | tennis/tennisabstract/recent_filter.go:20-25 | a row dated on the cut-off day or later has no influence |
| Risk.Allocate | moneymanager/pkg/risk/allocator.go:101-139 | the clamped allocation, the truncated size, and the errors in their order |
| Risk.AllocatedIsLeast | moneymanager/pkg/risk/allocator.go:119-125 | what is set aside is the least of the percentage of the balance, the cap if any, and the balance |
| Risk.RefusalMeaning | moneymanager/pkg/risk/allocator.go:101-137 | which allocations are refused, and with which error first |
| Risk.AllocationMeaning | moneymanager/pkg/risk/allocator.go:130-139 | the size is in hundredths, no less than the minimum, affordable from that least allowance, and a hundredth more is not |
| Risk.SizeOfAllocation | moneymanager/pkg/risk/allocator.go:130-139 | the size costs at most the allocation plus the division error and leaves less than a hundredth of a share plus that error |
| Risk.SpendWithinBalance | moneymanager/internal/signer/amounts.go:10-23 | for prices under 10^10 the signed amount is at most the balance, the percentage of it and the cap, each rounded up to a millionth |
| Risk.SpendBoundIsExact | moneymanager/pkg/risk/allocator.go:101-139 | no balance, configuration and price under a bound overspend exactly when the bound is at most 10^10 |
| Risk.SpendBeyondBalance | moneymanager/internal/signer/amounts.go:10-23 | a family of prices coming down to 10^10 at each of which one millionth too much is signed |
| Risk.PositiveEVMeaning | moneymanager/pkg/risk/ev.go:16-53 | the guard passes exactly a BUY with a chance in (0,1] that beats the price by at least half a unit of the 16th digit |
| Risk.AmountsMeaning | moneymanager/internal/signer/amounts.go:10-23 | amounts to the nearest millionth, shares exact, and a seller's the buyer's exchanged |
| Risk.SignedWhen | moneymanager/internal/server/server.go:127-155 | a signal is signed exactly when the guard passes and the allocator finds a size |
| Risk.SignedWithinBalance | moneymanager/internal/server/server.go:127-155 | whatever a signal says, the price signed for is below 1, the amount within balance, percentage and cap, the shares no fewer than the minimum and as many as the allowance buys |
| Backtest.BacktestStats.Settle | tennis/cmd/backtestbets/backtest.go:649-665 | a bet is booked in totals and on its surface |
| Backtest.FilterMeansExpectedProfit | tennis/cmd/backtestbets/backtest.go:205-214 | the filter, when on, admits exactly the bets whose expected settlement is a profit, whatever the stake; when off, all |
| Backtest.BetsWhen | tennis/cmd/backtestbets/backtest.go:481-597 | a match is bet on exactly when the strategy wants to, the expected settlement is a profit if required, the odds reach the minimum if any and a stake is found; how the bet is settled |
| Backtest.StakeMeaning | tennis/cmd/backtestbets/backtest.go:613-621 | a stake buys hundredths of shares, no fewer than the minimum, worth the allowance but for less than a hundredth; there is none only if that is too little |
| Backtest.StakeWithinBankroll | tennis/cmd/backtestbets/backtest.go:613-621 | for share prices under 10^10 a stake exceeds a positive bankroll by less than a millionth; a bankroll at or below zero gets none |
| Backtest.TrackIsBalanced | tennis/cmd/backtestbets/backtest.go:649-694 | on every track bets are wins plus losses, balance is profit minus loss, surfaces add up, and every match is bet or skipped |
| Ledger.BooksAreTotals | tennis/cmd/backtestbets/backtest.go:649-694 | whatever is entered, every total, the amount wagered included, is the count or sum of what the entries say |
| Ledger.TrackIsTotals | tennis/cmd/backtestbets/backtest.go:292-349 | the stats of a track are the totals of one entry for each match, made in the light of those before it |
| Backtest.BankrollIsSafe | tennis/cmd/backtestbets/backtest.go:428-443 | over any track with share prices under 10^10 the bankroll never falls a millionth below zero |
| Backtest.BrokeForGood | tennis/cmd/backtestbets/backtest.go:578-597 | once the bankroll is not positive no further bet is placed |
| Singles.TryPlace | tennis/cmd/backtestbets/backtest.go:481-597 | a decision is filtered, staked and settled, or skipped |
| Singles.GoesOnWhen | tennis/cmd/backtestbets/backtest.go:304-346 | the walk goes on exactly if each simulation with rates succeeds and a sim bet finds favorite odds |
| Singles.PlacementsMeaning | tennis/cmd/backtestbets/backtest.go:304-346 | sim and favorite tracks bet on the same matches, each on its own side and odds, the form track where form rates are known |
| Singles.WalkSingles | tennis/cmd/backtestbets/backtest.go:292-349 | each of the three tracks is the walk over its own decisions, with balanced books and bets plus skips equal to the matches |
| Parlay.EvalDeps.EvalLeg | tennis/cmd/backtestbets/parlay.go:80-105 | with distinct keys the cache never changes a leg |
| Parlay.EvalDeps.BuildParlayLegs | tennis/cmd/backtestbets/parlay.go:146-160 | legs exactly when every match of the window has one, an error exactly when a failure comes first |
| Parlay.EvalDeps.SelectParlayWindow | tennis/cmd/backtestbets/parlay.go:181-213 | the chosen window is the largest within the limit that is evaluable and passes |
| Parlay.ChosenWindow | tennis/cmd/backtestbets/parlay.go:181-213 | a window is chosen exactly if it is within limit and rows, has all its legs, is expected to make a profit if required, and no larger one is like that |
| Parlay.ParlayChance | tennis/cmd/backtestbets/parlay.go:162-174 | the chance of a parlay is its one leg's, and the product over any split |
| Parlay.Largest | tennis/cmd/backtestbets/parlay.go:198-212 | the window passes and no larger one within the limit does |
| Parlay.CombinedParlayProbOdds | tennis/cmd/backtestbets/parlay.go:162-174 | the products over all legs, zero for no legs |
| Parlay.ParlayRollsOver | tennis/cmd/backtestbets/parlay.go:162-231 | a parlay settles as if its legs were bet on in turn, the whole return staked on the next |
| Parlay.WindowBooked | tennis/cmd/backtestbets/parlay.go:233-306 | a window is declined only by the money manager, and otherwise booked as one bet of all its legs, rolled over |
| Parlay.PlaceParlay | tennis/cmd/backtestbets/parlay.go:233-306 | a window is settled on its first leg's surface, or counted as skipped when declined; no legs change nothing |
| Parlay.WalkParlayTrack | tennis/cmd/backtestbets/backtest.go:386-426 | the loop ends, fails exactly when a failed build is within reach of the search at the start of some stretch, and otherwise gives the walk function's stats |
| Parlay.WalkAccounts | tennis/cmd/backtestbets/backtest.go:386-426 | windows tile the matches without overlap; legs, skips and the rest of declined windows add up to the matches; the books balance |
| Parlay.WalkIsTotals | tennis/cmd/backtestbets/backtest.go:386-426 | the stats of a walk are the totals of one entry for each stretch, a bet exactly for each window placed |
| Parlay.ParlayBankrollIsSafe | tennis/cmd/backtestbets/parlay.go:256-274 | over any parlay walk with share prices under 10^10 the bankroll never falls a millionth below zero |
| Parlay.ParlayBrokeForGood | tennis/cmd/backtestbets/parlay.go:256-274 | once the bankroll is not positive a parlay walk only skips |
| MarketFeed.Feeder.Subscribe | polymarket/core/market_feed.go:389-411 | the listener is appended and only a token's first listener is sent |
| MarketFeed.Feeder.Unsubscribe | polymarket/core/market_feed.go:426-448 | the first listener on the channel is removed, and a token without listeners is deleted and unsubscribed |
| MarketFeed.Feeder.Stop | polymarket/core/market_feed.go:106-119 | drops the connection once |
| MarketFeed.Feeder.PublishConn | polymarket/core/market_feed.go:153-156 | a dialled connection becomes the feed's |
| MarketFeed.Feeder.ClearConn | polymarket/core/market_feed.go:200-204 | the loop drops its own connection and no other |
| MarketFeed.Feeder.SnapshotTokens | polymarket/core/market_feed.go:158-164 | the loop's copy is the set of tokens with listeners |
| MarketFeed.Feeder.SendBulk | polymarket/core/market_feed.go:166-187 | the whole copy is sent on the feed's connection, if any |
| MarketFeed.SubscriptionCoverage | polymarket/core/market_feed.go:121-214 | over all interleavings no token has an empty list, and after the bulk send every token with a listener is subscribed unless a send of it failed on that connection |
| MarketFeed.FailuresHaveCause | polymarket/core/market_feed.go:374-387 | a token counts as failed only after a failed subscribe message on the latest connection |
| MarketFeed.FailedIsRetried | polymarket/core/market_feed.go:158-187 | on every later connection a token with a listener, failed before or not, is waiting in the snapshot or has been sent again |
| MarketFeed.FailuresHeal | polymarket/core/market_feed.go:389-391 | after a new dial whose sends succeed, every token with a listener is subscribed, whatever failed before |
| MarketFeed.ExtrasAreLeftBehind | polymarket/core/market_feed.go:158-187 | in every run the subscriptions without listener are exactly those from stale snapshots and lost or failed unsubscribe messages; none if and only if none of these is left |
| MarketFeed.CleanRunsLeaveNothing | polymarket/core/market_feed.go:426-448 | with no last listener leaving between snapshot and bulk send and no failed unsubscribe, a live connection has no subscription without listener |
| MarketFeed.InSync | polymarket/core/market_feed.go:121-214 | if no subscribe fails either, a reading connection is subscribed to exactly the tokens with listeners |
| MarketFeed.StaleSnapshotLeavesExtra | polymarket/core/market_feed.go:158-167 | a run in which a token without listeners stays subscribed |
| MarketFeed.FailedUnsubscribeLeavesExtra | polymarket/core/market_feed.go:440-446 | after any run, a failed unsubscribe of a token's only listener leaves it behind |
| MarketFeed.StopSilences | polymarket/core/market_feed.go:106-119 | after the first stop there is no connection and no message until the loop publishes another |
| MarketFeed.ExitIsFinal | polymarket/core/market_feed.go:121-152 | the loop exits only when cancelled and never dials again |
| MarketFeed.CancelReachesExit | polymarket/core/market_feed.go:121-214 | a cancelled loop can reach its exit from wherever it stands |
| MarketFeed.ListenersAreConserved | polymarket/core/market_feed.go:389-448 | each step adds or removes at most the one listener it names |
| Discovery.ATPMarketDiscovery.constructor | polymarket/core/atp_market_discovery.go:37-59 | the set starts as the trimmed seeds that are not empty |
| Discovery.ATPMarketDiscovery.MarkStarted | polymarket/core/atp_market_discovery.go:173-187 | claims a trimmed non-empty ID that is not in the set |
| Discovery.ATPMarketDiscovery.UnmarkStarted | polymarket/core/atp_market_discovery.go:189-198 | gives the trimmed ID back |
| Discovery.StartsAtMostOnce | polymarket/core/atp_market_discovery.go:80-104 | over all interleavings a market has at most one trader, none if it is the trimmed form of a seed, and is in the set exactly when seeded, started or being started by one handler |
| Discovery.FailedStartIsRetryable | polymarket/core/atp_market_discovery.go:96-98 | after a failed start is given back the next handler claims the market |

## Left out

- ScoreText.Atoi: digits have their full value; the machine-integer overflow that ParseScore ignores is not modelled.
- Score.TokenMeaning: stated for well-formed formats; with other formats the validator and the state machine can disagree.
- Exactness.TokensOf: a token's two tiebreak numbers are one optional pair, as parsing always sets both or neither.
- JsArray.JsArrayParser.ParseAtom: text is a sequence of characters, so offsets count characters and invalid UTF-8 is not modelled.
- Simulation.RunOnce: randomness is a finite stream, since a tiebreak can go on forever; a run that uses it up is reported as such.
- RecentFilter.RecentResultsBefore: the library's stable sort is a function on values, not an in-place sort; all columns but the date are one value.
- Decimals.Div: that the decimal library rounds quotients half away from zero at 16 digits is an assumption; float conversions are exact.
- Risk.SignedWithinBalance: prices are decimals and chances numbers; refusing NaN and unparsable requests is plumbing.
- Backtest.BankrollIsSafe: reals stand for floats, so float rounding of the balance is not modelled.
- Singles.WalkSingles: rates, simulation results and odds decisions are inputs of each match.
- Parlay.EvalDeps.EvalLeg: each match has one outcome of building, the random draws of its one successful build included; a match whose rates cannot be fetched at one attempt but can at the next is not modelled.
- MarketFeed.Feeder.SendBulk: each lock-protected section is one atomic step, and whether a send succeeds is an input.
- Discovery.StartsAtMostOnce: fetching, filtering and joining of events with the same slug are arbitrary arrivals of handlers.
- HTTP, WebSocket, gRPC, Redis, secrets, CSV and JSON reading, logging, flags and the terminal interface: plumbing.
- Order signing, HMAC and ABI packing: foreign cryptography.
- HTML table parsing, form calibration, name and slug normalisation, odds lookup: would only add easy members.
- Heartbeats, reconnect delays and event delivery to channels: timing and buffering.
