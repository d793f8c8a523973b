# A verified model of the score-submission ledger

The server keeps two derived tables per player and mode, the best pp per map (`best_scores`) and a few
leaderboard rows per map (`total_score_best_scores`), next to running counters on the profile: total score,
ranked score, five grade counters, level, combo, pp. Every submission updates them in place. A separate tool
rebuilds all of it from the history. This project models both sides and proves how they relate for every
history, and it does the same for the fast forms built on top (counted ranks, the paging leaderboard, the
truncated weighted sum) and for some self-contained algorithms of the repository.

`dafny verify dfyconfig.toml` checks everything.

## How the ledger is modelled

- A table is a set of rows. The look-ups of a previous best take the first row of a query that orders by total
  score without a tie-break, so with tied totals any maximal row may come back: `Ledger.Step` is a relation, and
  the theorems hold for every way ties fall. `Ledger.Reaches` is the set of states a history can lead to.
- A history is a sequence of plays with distinct score ids (each score is processed once; what a second run of
  the same score does is proved separately). Totals are non-negative, as the submission schema demands.
- The switches `enable_all_beatmap_pp` and `enable_all_beatmap_leaderboard` and the map statuses are parameters.
  The submission gates ranked score and grades with `ranked()`, the rebuild with `has_pp()`; nothing here assumes
  the switches to be on, the effect of the difference is part of the results.
- Standardised scoring: the display score is the total score.
- Mod sets of rows are the key a play is saved under; whether a mod list may earn anything is one boolean of the
  play. The pp of a play is what the calculator answered. pp, accuracies and weights are exact reals.
- The definitions the theorems rest on are held to the source by statements in plain terms: statuses, switches, fields,
  bounds and factors, without the definitions themselves (`FirstPlays`, and the members named `...Meaning`).

## What turned out

- Total score always equals the rebuilt one, in whatever order the tool reads. Ranked score is never below it, and
  equals it if and only if no map that counts online but not in the rebuild has a positive play, and no ranked map
  without a leaderboard has two (`Agreement.LedgerMeetsRecalculation`; `Agreement.OnePlayAhead` and
  `Agreement.TwoPlaysAhead` show both).
- The grade counters are right in every run of a history if and only if the history has no *mixed tie* and no *net
  error* (`Grades.GradesExact`, for every configuration). A mixed tie is a play that takes the lead on a map from
  tied rows of different grades. The net error counts the grades left uncredited on maps without a leaderboard,
  less those lost over zero totals. Distinct positive totals and leaderboards on all ranked maps rule both out
  (`Grades.DistinctTotalsRight`); `Grades.TieBreaksGrades` and `Grades.ZeroPlayLosesGrade` show where they strike.
- The rebuilt grade counters are the live ones, in every run and every reading order, if and only if there is no mixed
  tie, the net error cancels what counts only online, and plays that share a map's best total share their grade
  (`Grades.GradesMeetRecalculation`).
- The tool reads an account's scores in no particular order. The keys and totals of the leaderboard rows it
  rebuilds never depend on it, nor does the account pp; the rows themselves do exactly when two plays share a key
  and its best value (`BoardOrder.RebuiltOrderExact`, `PpOrder.PpOrderExact`).
- Each map's top leaderboard row always carries the best total. Throughout a run the live rows are the rebuilt
  ones, in keys and totals for every reading order, if and only if the fourth case of the row machine never deletes
  the row of another mod set (`BoardRuns.RunMatchesExact`). Which histories can end with a lost row is decided by
  the submissions alone (`BoardLosses.EveryRunAlikeExact`); `BoardRebuild.CaseFourLosesRow` shows three plays that
  do. The comment in the source, that the update below the deletion always fires, is right
  (`BoardRebuild.DeletedBestIsReplaced`).
- The second pp calculation has no check for changed flashlight settings, and it may succeed where the first one
  failed. So the rebuilt account pp is never below the live one, and equal if and only if no such play gains
  (`PpOrder.SameAccountPp`; `PpOrder.OverlookedPlayGains` shows one that does); when the tables themselves are equal
  says `PpOrder.ToolTableExact`. The default list of ranked mods (app/models/mods.py:131-135) refuses changed
  flashlight settings on both sides, so there only failed first calculations gain (`PpOrder.OnlyFailuresGain`);
  the settings matter with a list that allows them.
- The leaderboard loop returns the right board if and only if no page boundary skipped a tied row of a user who
  is not on the board yet (`Paging.BoardExact`, over all runs); `Paging.TieSkipsUser` shows a skip. From the rows
  and the limit alone: it is right in every run if and only if at every cut, whichever of the tied rows are on the
  page, the board is then full or has all users tied there (`SafePaging.RightExact`).
- The weights shown with the scores add up to the account pp if and only if everything past place 1000 is worth
  nothing (`Ranks.ShownWeightsVersusAccountPp`); otherwise they promise more (`Ranks.ShownWeightsPromiseMore`).
- The two replay readers agree on every byte string whose string markers are 0x00 or 0x0b, cut off or not
  (`Replay.ReadersAgree`); with any other marker they may both succeed and disagree
  (`Replay.OtherMarkersDisagree`).
- A player who passes the next daily challenge before the last one is closed loses the placement in the last one
  (`DailyChallenge.DailyChallengeStats.Close`).

## Model

| member | source | states |
|---|---|---|
| `Levels.CalculateScoreToLevel` | app/calculator.py:394-521 | the level shown for a score is the curve `LevelOf` of the server's table, for every integer score |
| `Levels.WalkLevels` | app/calculator.py:513-521 | the loop ends, only indexes at whole levels, and computes the curve for any positive table |
| `Levels.LevelClosedForm` | app/calculator.py:513-521 | any k with C(k) <= s < C(k+1) gives the level as 1 + k + (s - C(k)) / R(k), which lies in [k+1, k+2) |
| `Levels.CompletedUnique` | app/calculator.py:513-521 | there is only one such k |
| `Levels.LevelAtPrefixSum` | app/calculator.py:516-519 | a whole level is entered exactly when its prefix sum is paid |
| `Levels.LevelStrictlyIncreasing` | app/calculator.py:513-521 | on scores from 0 on, more score is a strictly higher level |
| `Levels.LevelMonotone` | app/calculator.py:513-521 | on all integers the level never falls and is at least 1 |
| `Levels.LevelRoundTrip` | app/calculator.py:513-521 | the inverse curve takes the level back to the score |
| `Levels.TableIsPositive` | app/calculator.py:395-511 | the table is not empty and every entry is positive |
| `Levels.CumulativeIsSum` | app/calculator.py:513-521 | the first k levels cost the sum of the first k entries, and the last entry goes on for ever |
| `Levels.RowsFollowCurve` | app/calculator.py:395-511 | the first 58 entries are 10000 n (2 n + 1) |
| `Levels.TableSum` | app/calculator.py:395-511 | there are 115 entries, and they add up to 1626931190811 |
| `Scores.BestIsMaximum` | tools/recalculate.py:850-857 | the running best of a map is the maximum of its eligible totals |
| `Scores.BestPlayIsFirst` | tools/recalculate.py:850-857 | the credited play is the first one to reach the best positive total; none exactly when that total is 0 |
| `Scores.BestVersusSum` | app/database/score.py:1778-1812 | best and sum of a map's eligible totals agree exactly when at most one is positive |
| `Ledger.Server.First` | app/database/score.py:1050-1090 | the look-up returns a row of maximal total, or none on an empty selection |
| `Ledger.Server.ProcessStatistics` | app/database/score.py:1724-1866 | a submission is a step of the relation; without a statistics row it fails and changes nothing |
| `FirstPlays.OnePlayLive` | app/database/score.py:1724-1829 | by the status of the map and the switches alone: a first play has its row exactly on ranked, approved, qualified and loved maps or with the leaderboard switch, and enters ranked score, its grade, level and combo exactly on ranked, approved and loved maps or with the pp switch, if its total is positive |
| `FirstPlays.TwoPlaysRows` | app/database/score.py:1815-1872 | of two plays of a map, each mod set has one row, and with the same mods the better play has it, the earlier one if tied |
| `FirstPlays.TwoPlaysRanked` | app/database/score.py:1777-1814 | the whole statistics row after two plays of a map that counts and has a leaderboard: the larger total, and the grade of the second play in place of the first if it is better |
| `FirstPlays.TwoPlaysWithoutBoard` | app/database/score.py:1777-1814 | without a leaderboard both totals and both grades count |
| `FirstPlays.TwoPlaysUnranked` | app/database/score.py:1777-1814 | on a map that does not count only total score grows |
| `FirstPlays.LovedMapCountsOnce` | app/models/beatmap.py:20-38 | with the switches off, two plays of a loved map leave the larger total as ranked score |
| `Board.BoardReachable` | app/database/score.py:1815-1872 | in every reachable table: rows come from eligible plays, one per mod set, the best total of the map is there, and the rows holding it are exactly those of the earliest plays to reach it |
| `Board.TableKeys` | app/database/score.py:1815-1872 | in every reachable table a score id names one row, and so do account, map and mod set |
| `Board.MachineMeaning` | app/database/score.py:1818-1866 | the four cases in one clause: the play's row enters exactly when it beats the row of its mods, which leaves; the best row also leaves when it is beaten by a play whose mods already have a row |
| `Board.SlotStep` | app/database/score.py:1815-1872 | one run of the row machine keeps the invariant of the map |
| `Board.MachineIsLocal` | app/database/score.py:1815-1872 | the rows of all other players and maps stand still |
| `Board.PicksOnSlot` | app/database/score.py:1734-1738 | both look-ups name the same row exactly when the best row has the play's mods |
| `Recalculation.RebuildCounters` | tools/recalculate.py:805-876 | the rebuild loop produces total score, ranked score as the sum of the maps' best totals, grade counts of the credited plays, and the largest combo |
| `Recalculation.RecalculateStatistics` | tools/recalculate.py:843-879 | the rebuilt row has exactly these values and the level of its total score; no other row changes |
| `FirstPlays.OnePlayRebuilt` | tools/recalculate.py:843-879 | the whole rebuilt row of one play: it counts exactly on ranked and approved maps or with the pp switch, and total score counts failed plays too |
| `FirstPlays.TwoPlaysRebuilt` | tools/recalculate.py:843-879 | and of two plays of a map: the larger total, the grade of the first play to reach it, the larger combo |
| `Recalculation.RebuildIteration` | tools/recalculate.py:823-876 | one play keeps the accumulated values and the dictionary of credited plays right |
| `Recalculation.RebuiltIsUnique` | tools/recalculate.py:798-879 | the properties leave no freedom: two rebuilt rows are equal |
| `Recalculation.RebuildStep` | tools/recalculate.py:843-876 | the telescoping difference keeps every sum equal to its closed form |
| `Agreement.CountersReachable` | app/database/score.py:1777-1814 | in every reachable state total score is the sum of all plays, ranked score the sum over maps of the online credit, the level that of the total at the last improving play, and the combo the largest among improving plays |
| `Agreement.LedgerMeetsRecalculation` | app/database/score.py:1724-1814 | for every history, and every order in which the tool reads the account's plays: total scores equal; ranked score at least the rebuilt one, and equal if and only if every map has the same share on both sides; level at most the rebuilt one, and equal if and only if nothing was scored since the last improving play |
| `Agreement.ShareOrder` | app/database/score.py:1726-1727 | a map's share is never smaller online than in the rebuild; when exactly it is equal |
| `Agreement.LevelLags` | app/database/score.py:1812-1813 | the shown level lags behind that of the total score exactly while these two totals differ |
| `Agreement.OnePlayAhead` | app/database/score.py:1726-1727 | one positive play on a map that counts only online puts ranked score above the rebuilt one |
| `Agreement.TwoPlaysAhead` | app/database/score.py:1730-1812 | so do any two positive plays on a ranked map without a leaderboard, in whatever order they are read |
| `Agreement.PickIsBest` | app/database/score.py:1734-1778 | the looked-up row of an eligible play carries the best total so far and belongs to an earliest play with it |
| `Grades.StepDrift` | app/database/score.py:1787-1811 | for every configuration, what one submission adds to the error of each grade counter, for whatever row was looked up |
| `Grades.GradeStepExact` | app/database/score.py:1787-1811 | right counters stay right exactly when a taken lead gives back the credited grade and no play without a leaderboard leaves a grade uncredited |
| `Grades.NoTieNetDrift` | app/database/score.py:1787-1811 | without a mixed tie the error of a counter is the same in every run: grades left uncredited without a leaderboard, less grades lost over zero totals |
| `Grades.SteeredRun` | app/database/score.py:1050-1066 | for every mixed tie there is a run that looks up the other tied row there and leaders everywhere else; its error differs by exactly the two grades |
| `Grades.DriftExact` | app/database/score.py:1787-1811 | every run of a history ends with a given error if and only if there is no mixed tie and that error is the net one |
| `Grades.GradesExact` | app/database/score.py:1787-1811 | for every configuration, the counters are right in every run of a history if and only if it has no mixed tie and no net error |
| `Grades.DistinctTotalsNoTie` | app/database/score.py:1050-1066 | positive and pairwise distinct totals per map leave no mixed tie |
| `Grades.DistinctTotalsRight` | app/database/score.py:1787-1811 | with such totals, and a leaderboard on every ranked map played, the counters are right in every run |
| `Grades.GradesMeetRecalculation` | tools/recalculate.py:856-876 | all five counters equal the rebuilt ones, in every run and for every order in which the tool reads the account's plays, if and only if there is no mixed tie, the net error cancels what counts only online, and plays sharing a map's best total share their grade |
| `Grades.GradesMeetInOrder` | tools/recalculate.py:856-876 | reading in submission order, the first two conditions are the exact ones |
| `Grades.NoOnlineExtra` | tools/recalculate.py:839-841 | nothing counts only online exactly if no map without pp in the rebuild has a graded credit |
| `Grades.TieBreaksGrades` | app/database/score.py:1050-1066 | any three plays of which the first two tie with different mods and grades and the third beats them: some run has a wrong counter |
| `Grades.ZeroPlayLosesGrade` | app/database/score.py:1818-1829 | a graded play with total 0 before a positive one: every run loses that grade for good |
| `Reordering.ScoresOrderFree` | tools/recalculate.py:821-879 | reordering the history changes no score, level or combo of the rebuild |
| `Reordering.GradesOrderFreeExact` | tools/recalculate.py:850-876 | it changes no grade count if and only if plays sharing a map's best total share their grade |
| `Reordering.RebuiltFromOwn` | tools/recalculate.py:798-879 | the rebuild only depends on the account's own plays |
| `BoardRebuild.BuildTotalScoreBestScores` | tools/recalculate.py:763-795 | the loop lists, without duplicates, exactly the first best row of every map and mod set |
| `BoardRebuild.RebuiltMeaning` | tools/recalculate.py:763-795 | the rebuilt rows in full, from the fields of the plays, the map statuses and the switch alone |
| `BoardRebuild.RebuiltStep` | tools/recalculate.py:786-791 | one more play only changes the rebuilt row of its key, and only if it is strictly better |
| `BoardRebuild.RebuiltHasKey` | tools/recalculate.py:763-795 | every play on a board is dominated by the rebuilt row of its key |
| `BoardRebuild.DeletedBestIsReplaced` | app/database/score.py:1852-1866 | when the best row is deleted, the mod row's update fires and the play becomes the best of the map |
| `BoardRebuild.CaseFourLosesRow` | app/database/score.py:1850-1859 | for every play, a worse play with other mods, and a play with those mods that beats both, one live row is left where the rebuild has two |
| `BoardRebuild.RerunAtAnyTime` | app/database/score.py:1777-1872 | a play processed again at any later state: on the board it at most brings back or improves the row of its mods; its total is added again, and the other statistics stand still exactly when it was not counted on a map without a leaderboard |
| `BoardRebuild.RerunAtOnce` | app/database/score.py:1815-1872 | processed again right away, it moves no row |
| `FirstBest.WinnersStep` | tools/recalculate.py:729-732 | a table of first best rows per key, filled by strict-greater replacement: one more play only changes the row of its key |
| `FirstBest.SameValues` | tools/recalculate.py:1035-1041 | whatever the order, every key has a row of the same value |
| `FirstBest.OrderExact` | tools/recalculate.py:1035-1041 | every reading order gives the very same rows if and only if no two plays share a key and its best value |
| `BoardOrder.OwnRebuilt` | tools/recalculate.py:1035-1048 | rebuilding from one account's plays gives exactly that account's rows |
| `BoardOrder.RebuiltAlike` | tools/recalculate.py:1035-1048 | any two reading orders rebuild the same keys and totals |
| `BoardOrder.RebuiltOrderExact` | tools/recalculate.py:1035-1048 | every order rebuilds the very same rows if and only if no two plays share a key and its best total |
| `BoardOrder.LiveRowsDominated` | app/database/score.py:1815-1872 | every live row is dominated by the rebuilt row of its mods, in whatever order the account's plays are read |
| `BoardOrder.TopsAgree` | app/database/score.py:1815-1872 | the highest live and the highest rebuilt row of a map carry the same total, the best of the map, in whatever order the plays are read |
| `BoardRuns.EqualStep` | app/database/score.py:1849-1866 | one submission on equal tables: the live rows are the rebuilt ones less the row case four deletes, which the rebuild keeps |
| `BoardRuns.ReachedByRun` | app/database/score.py:1715-1872 | every reachable state is the end of a run with recorded look-ups |
| `BoardRuns.RunMatchesExact` | app/database/score.py:1849-1866 | over whole runs: after every submission the live rows equal the rebuilt ones (the same keys and totals, for every reading order) if and only if case four never deletes another row |
| `BoardLosses.RunsForeseen` | app/database/score.py:1815-1872 | what the submissions alone say each mod set may hold, miss or lose bounds every run |
| `BoardLosses.HoldingRun` | app/database/score.py:1815-1872 | a mod set that may hold a row does so in some run |
| `BoardLosses.MissingRun` | app/database/score.py:1815-1872 | one that may miss its row does so in some run |
| `BoardLosses.LosingRun` | app/database/score.py:1849-1866 | one that may lose its best row does so in some run |
| `BoardLosses.EveryRunAlikeExact` | app/database/score.py:1849-1866 | every run of a history ends with the keys and totals the tool rebuilds, in any reading order, if and only if no mod set of any map may lose its best row |
| `Ranking.PositionIsIndex` | app/database/score.py:771-784 | counting the strictly better rows gives the position in the sorted list |
| `Ranking.PositionsAreBijective` | app/database/score.py:771-784 | the positions are 1..n, each taken once |
| `Ranks.BestIdSession.GetBestId` | app/database/score.py:723-785 | the number is none without a row, else the position among the owner's rows; the memo never changes an answer |
| `Ranks.BestIdUnique` | app/database/score.py:723-785 | there is only one right answer |
| `Ranks.BestIdMeaning` | app/database/score.py:766-784 | one more than the number of the owner's rows with more pp, or with the same pp and a smaller id |
| `Ranks.RankSession.GetRank` | app/database/statistics.py:278-372 | none exactly for a row outside the ranking, else its position among the eligible rows, memo or not |
| `Ranks.RankMeaning` | app/database/statistics.py:299-345 | none for a player without pp, unranked, inactive, restricted, long unseen or of another country; else one more than the number of such players with more pp, or the same pp and a smaller id |
| `Ranks.UnrankedMovesNobody` | app/database/statistics.py:299-320 | a player outside the ranking moves nobody's rank |
| `Ranks.RanksAreBijective` | app/database/statistics.py:299-345 | the ranks of a mode are 1..n, each handed out once |
| `Ranks.ShownWeightsVersusAccountPp` | app/database/score.py:453-460 | for rows with non-negative pp, shown weights times pp add up to at least the account pp, and to exactly it if and only if nothing past place 1000 has pp |
| `Ranks.ShownWeightsPromiseMore` | app/database/score.py:453-460 | one row more than 1000, all worth the same: the shown weights add up to more than the account pp |
| `WeightedPp.TopValueByCount` | app/database/score.py:1176-1189 | the i-th value of a query without tie-break is decided by counting rows above a threshold |
| `WeightedPp.TopValuesUnique` | app/database/score.py:1176-1189 | so tied rows may come in any order, and at the cut any of them may be left out |
| `WeightedPp.UserPpFromTop` | app/database/score.py:1162-1168 | any result of the query gives the same account pp |
| `WeightedPp.CountingDominates` | app/database/score.py:1162-1189 | a table with more rows above every threshold has at least as much account pp, cut at 1000 or not |
| `WeightedPp.WeightedSplit` | app/calculator.py:525-530 | cutting a list discounts the tail by the weight of the cut |
| `WeightedPp.WeightedBetween` | app/calculator.py:525-534 | the weights of n places add up to 20 (1 - 0.95^n) |
| `WeightedPp.WeightedIsTotal` | app/calculator.py:525-530 | the weighted sum term by term: 0.95^i times the i-th positive value |
| `PpGain.InsertionShifts` | app/database/score.py:1162-1168 | a new row pushes the ones below it one place down, seen through the cut list |
| `PpGain.InsertionGain` | app/database/score.py:1927-1943 | a new row adds at most its pp at the weight of the place behind all rows tied with it |
| `PpGain.ExchangeRaises` | app/database/score.py:1546-1567 | replacing a row by a better one never lowers the account pp |
| `PpGain.NewBestGain` | app/database/score.py:1927-1943 | the gain of a new best is between 0 and 0.95^(best_id - 1) times its pp |
| `BestScores.BestsStep` | app/database/score.py:1546-1567 | strict-greater replacement keeps the table equal to the personal bests of the history |
| `BestScores.BestsMeaning` | app/database/score.py:1454-1567 | the table in full: of the plays that pass every gate (status or switch, mods, flashlight, accuracy of 0.75 for relax and autopilot) and get an answer, those first to reach the highest pp of their map |
| `BestScores.PersonalBestExists` | app/database/score.py:1546-1567 | every admitted play has a personal best on its map that is at least as good |
| `BestScores.PersonalBestIds` | app/database/score.py:1558-1567 | every row of the table has its own score id |
| `BestScores.PositiveRowsSuffice` | app/calculator.py:529-530 | rows without positive pp never show in the account pp |
| `BestScores.CalculateUserPp` | app/database/score.py:1162-1173 | the loop computes the account pp, the sum of 0.95^i times the i-th positive pp, and for accuracies in [0, 1] the accuracy with accuracy (1 - 0.95^n) / (1 - 0.95) = 100 times the sum of 0.95^i times the i-th accuracy |
| `BestScores.AccuracyFormula` | app/database/score.py:1165-1173 | the normalised accuracy satisfies that equation |
| `BestScores.BetterFirst` | app/calculator.py:525-534 | putting the better of two neighbouring accuracies first never lowers the result, and raises it if they differ |
| `BestScores.AccuracyBetween` | app/database/score.py:1169-1172 | the accuracy lies between 100 times the smallest and the largest one, so the clamp never acts |
| `PpServer.PpTables.GetUserBestPp` | app/database/score.py:1176-1189 | some list of the best rows, 1000 or all of them |
| `PpServer.PpTables.ProcessPlay` | app/database/score.py:1927-1943 | on a first run, or a retry after the calculator failed, the table holds the personal bests, no account loses pp, the stored gain is exactly the rise and bounded by the play's own weighted pp |
| `PpServer.PpTables.Reprocess` | app/database/score.py:1935-1943 | processing any earlier play again changes neither table, account pp nor stored gain |
| `PpServer.UpdatesMeaning` | app/database/score.py:1723-1728 | which plays update the account pp: flashlight settings and the accuracy floor play no part |
| `PpServer.FirstRunHolds` | app/database/score.py:1942-1943 | neither clamp at 0 acts on a first run |
| `PpRebuild.RecalcScorePp` | tools/recalculate.py:666-732 | the pp a score is left with: 0 outside the gates; else what the first pass that calculates says, if fewer than ten failures and neither a missing beatmap nor another error stand before it; else what was stored |
| `PpRebuild.AnswerExact` | tools/recalculate.py:674-732 | the loop answers exactly if there is such a pass, and with its value |
| `PpRebuild.RateLimitsAreFree` | tools/recalculate.py:677-684 | inserting or removing passes that hit a rate limit changes nothing |
| `PpRebuild.RecalculateAll` | tools/recalculate.py:927-934 | every passed score is left with that pp |
| `PpRebuild.BuildBestScores` | tools/recalculate.py:735-760 | from one account's scores in any order, the rebuild gives exactly the first best positive row per map |
| `PpOrder.ToolMeaning` | tools/recalculate.py:735-760 | the table of the tool in full, from the plays and the answers of the second calculation |
| `PpOrder.OwnBests` | tools/recalculate.py:911-917 | the personal bests of one account's plays are that account's rows of the whole table |
| `PpOrder.SamePpInAnyOrder` | tools/recalculate.py:911-917 | every reading order gives the same account pp |
| `PpOrder.PpOrderExact` | tools/recalculate.py:911-917 | every order rebuilds the very same rows if and only if no two plays share a map and its best positive pp |
| `Covering.CoveringRaises` | app/database/score.py:1162-1168 | a table with a row at least as good for every map is worth at least as much account pp |
| `Covering.CoveringExact` | app/database/score.py:1162-1189 | it is worth the same if and only if each of its rows is matched in map and pp, or has a thousand rows of the other table at least as good |
| `PpOrder.SameAccountPp` | tools/recalculate.py:735-760 | in whatever order the tool reads an account's plays, the account pp of its table is at least the live one, and equal if and only if every play that wins a map for the tool, but got no pp online, ties the live row of its map or has a thousand live rows at least as good |
| `PpOrder.OverlookedPlayGains` | tools/recalculate.py:683-700 | one play with positive pp that was refused for its flashlight settings, or whose first calculation failed: the rebuild raises the account pp |
| `PpOrder.ToolTableExact` | tools/recalculate.py:735-760 | the tool writes exactly the account's live rows with positive pp, in whatever order it reads, if and only if no two plays share a map and its best pp and every such best was admitted online |
| `Paging.CollectScores` | app/database/score.py:901-929 | the loop ends and is a run of rounds; its result is the board of the first n users, or all of them, each with an own best row, exactly if no page of the run skipped anybody, and always with distinct totals |
| `Paging.TopCollected` | app/database/score.py:901-911 | with every total below the first bound, a row of maximal total is collected by the first page and stays |
| `Paging.BoardExact` | app/database/score.py:901-929 | in every run of the loop, the result is the board of the first n users if and only if no round started with a skipped row of a user not collected yet |
| `SafePaging.RightExact` | app/database/score.py:901-929 | for any rows and limit: every run of the loop returns the right board if and only if the rows are safe, which follows the cuts of the pages and the rows tied there from the rows and the limit alone |
| `SafePaging.RegularIsSafe` | app/database/score.py:911-928 | distinct totals are safe for every limit |
| `SafePaging.SafeRun` | app/database/score.py:911-928 | on safe rows no run skips anybody |
| `SafePaging.UnsafeRun` | app/database/score.py:911-928 | on unsafe rows some run skips a user for good |
| `Paging.RegularNeverSkips` | app/database/score.py:911-928 | with distinct totals no run skips anybody |
| `Paging.RunDerails` | app/database/score.py:911-928 | once a row of an absent user is skipped, it stays lost for the rest of the run |
| `Paging.RunOnTrack` | app/database/score.py:903-929 | as long as nothing is skipped, the users collected are the best ones, each with an own best row |
| `Paging.TakePage` | app/database/score.py:915-928 | the dictionary and bound after a page, and one more row asked for per duplicate |
| `Paging.CollectTakes` | app/database/score.py:917-926 | on a sorted page every new user enters with its best row there, and known users never change |
| `Paging.RoundShrinks` | app/database/score.py:903-929 | every page that is not empty shrinks the rows below the bound; an empty one is the last |
| `Paging.DerailedEnds` | app/database/score.py:911-928 | after a skip the board cannot become right again |
| `Paging.TieSkipsUser` | app/database/score.py:911-928 | two rows of one user and a tied row of another, page size two: a whole run that loses the other user |
| `Leaderboard.GetLeaderboard` | app/database/score.py:881-974 | the response lists the rows collected by a run of the loop best first, then the viewer's own best row if it is missing, and counts distinct users; with distinct totals below 0x7FFFFFFFFFFFFFFF it lists the best rows of the first users, as it does for safe rows and whenever no page skipped anybody; tied or not, it starts with a row of maximal total |
| `Leaderboard.PositionMatchesList` | app/database/score.py:1021-1042 | a best row's position is at most its place in the deduplicated list and at most the number of users, and equal to its place exactly unless the entry before it has the same total |
| `Leaderboard.FullBoardIsFullList` | app/database/score.py:896-931 | a board with room for everybody is that list |
| `Leaderboard.CountAbove` | app/database/score.py:1035-1042 | counting distinct users with a higher row counts the list entries above |
| `Weeks.IsoMeansWeek` | app/utils.py:112-113 | an ISO year and week number name the week counted in Mondays since the start of the calendar |
| `Weeks.IsoIsThursday` | app/utils.py:112-113 | a week belongs to the year of its Thursday, and its number says which Thursday of that year |
| `Weeks.DaysInClosedForm` | app/utils.py:112-113 | the days before year y are 365 (y - 1) + (y - 1) / 4 - (y - 1) / 100 + (y - 1) / 400 |
| `Weeks.KnownDates` | app/utils.py:112-113 | 2024 began on a Monday and had 366 days |
| `Weeks.December28` | app/utils.py:126 | December 28 always lies in the last week of its ISO year |
| `Weeks.AdjacentExact` | app/utils.py:111-130 | two dates are adjacent exactly when their weeks differ by one, across year ends and 53-week years |
| `Weeks.SameExact` | app/utils.py:133-134 | two dates are in the same week exactly when their week counts are equal |
| `Weeks.WeekDistance` | app/utils.py:116-128 | the distance in weeks, from ISO numbers of any two years |
| `DailyChallenge.PlayStep` | app/database/daily_challenge.py:84-122 | a play keeps: play count = distinct days, weekly streak = chain of weeks ending now, weekly best = longest chain, daily best = largest daily streak ever; a new day adds one to the daily streak, a day already played nothing |
| `DailyChallenge.BreakStep` | app/tasks/daily_challenge.py:246-276 | closing a missed challenge keeps all of it: the daily streak becomes 1 for who has already played on a later day and 0 for the others, whose weekly streak ends unless this week or the last one has a play |
| `DailyChallenge.ChainMeans` | app/database/daily_challenge.py:108-119 | a chain has at least n weeks exactly if the last n weeks all have a play |
| `DailyChallenge.CloseStep` | app/tasks/daily_challenge.py:215-232 | closing a challenge changes no streak of a participant |
| `DailyChallenge.WeeklyStep` | app/database/daily_challenge.py:108-119 | the weekly streak and its record after a play |
| `DailyChallenge.DailyStep` | app/database/daily_challenge.py:84-107 | the play count, the daily streak and its record after a play |
| `DailyChallenge.DailyChallengeStats.ProcessScore` | app/database/daily_challenge.py:65-122 | a passed score extends the history and keeps the invariant; any other changes nothing |
| `DailyChallenge.DailyChallengeStats.Close` | app/tasks/daily_challenge.py:215-276 | the nightly closing for participants, for the others by their days played, and on frozen days; a placement counts for the first tenth or half if fewer than that share stand before it, and only when nothing has touched the statistics that day, so not for who has already passed the next challenge |
| `BeatmapCache.BeatmapCacheManager.AddBeatmap` | tools/recalculate.py:101-133 | the list stays free of duplicates and equal to the set, never exceeds the threshold, ends in the id just used, and what leaves it is handed to one cleanup |
| `BeatmapCache.SuffixIsMostRecent` | tools/recalculate.py:109-126 | every tracked id was used after every id that is not tracked |
| `BeatmapCache.RecencyByLastUse` | tools/recalculate.py:109-114 | the reference order really is the order of last uses |
| `BeatmapCache.SuffixMoves` | tools/recalculate.py:110-117 | using an id keeps the list a suffix of that order |
| `BeatmapCache.ConservedEntry` | tools/recalculate.py:121-129 | every id that entered is still tracked or was cleaned up, as often as it entered |
| `JumpSections.SectionsUnique` | app/calculators/relax_flow.py:211-273 | the sections are determined by the map |
| `JumpSections.FindJumpSections` | app/calculators/relax_flow.py:211-273 | the sections are exactly those of the maximal runs of at least five washable turns, in order, with start, end, objects and summed weight |
| `JumpSections.TurnMeaning` | app/calculators/relax_flow.py:240-270 | a turn from positions and times: both ways at least 90, flow at least 0.45, the direction kept; its weight is the mean speed, at most 5, times the flow |
| `JumpSections.SectionHasRun` | app/calculators/relax_flow.py:229-238 | every section stands for a maximal run of such turns |
| `JumpSections.SectionMeaning` | app/calculators/relax_flow.py:229-238 | it lists the middle objects of at least five turns, with the times of the first and the last |
| `JumpSections.WeightIsTotal` | app/calculators/relax_flow.py:236 | it weighs the sum of its turns |
| `JumpSections.EveryRunHasSection` | app/calculators/relax_flow.py:229-238 | every run of at least five such turns that cannot be extended has a section |
| `JumpSections.Judge` | app/calculators/relax_flow.py:240-270 | the carried sign decides washability exactly as the stateless predicate on two turns does |
| `JumpSections.RunsUnique` | app/calculators/relax_flow.py:211-273 | the list of runs is determined by the map |
| `JumpSections.RunsSeparated` | app/calculators/relax_flow.py:211-273 | two runs are the same or have a gap between them |
| `JumpSections.OnlyLateRun` | app/calculators/relax_flow.py:229-238 | what a flush closes is the only maximal run that ends there, if it is long enough to be one |
| `JumpSections.RunsIgnoreTimes` | app/calculators/relax_flow.py:217-218 | the runs depend on positions alone, so rate mods change none |
| `ModMerge.MergeDuplicates` | app/database/score.py:1260-1287 | the kept mods are the first occurrences in order, each with the left-biased union of all settings; a list without duplicates is kept as it is |
| `ModMerge.TwoOfAKind` | app/database/score.py:1274-1277 | of two occurrences the first one wins where both have a setting, and the others are all kept |
| `ModMerge.MergedSettings` | app/database/score.py:1274-1277 | each setting comes from the first occurrence of the mod that has it |
| `ModMerge.MergedIsDistinct` | app/database/score.py:1265-1268 | no acronym twice, and no acronym lost or made up |
| `ModMerge.MergedUnique` | app/database/score.py:1260-1287 | these properties determine the result |
| `ModMerge.MergeIdempotent` | app/database/score.py:1260-1287 | merging twice is merging once |
| `Multiplier.Evaluate` | app/calculators/score_multiplier.py:235-255 | the result is the product over the combinations that fire and the mods left over, in whatever order the set is walked |
| `Multiplier.OneMod` | app/calculators/score_multiplier.py:249-253 | one mod counts for its factor, an unknown one for nothing |
| `Multiplier.FirstCombination` | app/calculators/score_multiplier.py:243-247 | the mods of the first combination count for its factor, whatever each would count for |
| `Multiplier.FiresExactly` | app/calculators/score_multiplier.py:243-247 | a combination fires exactly when its mods are there and no earlier one that fired shares a mod with it |
| `Multiplier.Partition` | app/calculators/score_multiplier.py:240-247 | every mod feeds exactly one fired combination or is left over |
| `Multiplier.OrderFree` | app/calculators/score_multiplier.py:235-255 | on lists without duplicates the order of the mods plays no part |
| `Multiplier.LastCountsUnlessMerged` | app/calculators/score_multiplier.py:236 | with duplicates the last one counts here, while the merge lets the first one win |
| `Multiplier.NoCombination` | app/calculators/score_multiplier.py:243 | the guard on more than one mod is redundant |
| `Multiplier.ProductSplit` | app/calculators/score_multiplier.py:249-253 | the product may be taken in any order |
| `Multiplier.OsuCombinations` | app/calculators/score_multiplier.py:142-151 | which osu! combinations fire, in closed form |
| `Leb128.ReadUleb` | app/calculators/replay_cursor.py:30-40 | the shifting loop decodes the little-endian base-128 number, or runs out of bytes |
| `Leb128.ThreeBytes` | app/calculators/replay_cursor.py:30-40 | seven bits a byte, the lowest first: e5 8e 26 is 624485 |
| `Leb128.OrAbove` | app/calculators/replay_cursor.py:36 | or-ing in bits above all present ones adds them |
| `Leb128.RoundTrip` | app/calculators/replay_cursor.py:30-40 | every encoded number is read back, using exactly its bytes, whatever surrounds them |
| `Leb128.CanonicalExactly` | app/calculators/replay_cursor.py:30-40 | the bytes read are the canonical encoding exactly unless they end in a needless zero byte |
| `Leb128.EncodingIsShortest` | app/calculators/replay_cursor.py:30-40 | no accepted byte string for a number is shorter than its encoding |
| `Replay.ParseReplayCursor` | app/calculators/replay_cursor.py:52-70 | the walk over a buffer, every index error included |
| `Replay.Parse` | tools/parse_osr.py:36-53 | the reads from a file up to the score id behind the replay, every short read and a seek before the start included |
| `Replay.File.ReadUleb128` | tools/parse_osr.py:17-25 | the file loop decodes the same number |
| `Replay.File.ReadStr` | tools/parse_osr.py:28-33 | a string of the file; another marker or the end of the file is an empty string |
| `Replay.StringsAgreeExactly` | app/calculators/replay_cursor.py:43-49 | at one string both readers do the same exactly if the marker is standard and the string complete |
| `Replay.ReadersAgree` | app/calculators/replay_cursor.py:52-70 | with standard markers both readers find the same mods, replay length and offset, or both fail |
| `Replay.ResultsAgree` | tools/parse_osr.py:36-53 | with standard markers the file reader returns what the buffer reader finds, and fails besides exactly when no score id stands behind the replay |
| `Replay.OtherMarkersDisagree` | tools/parse_osr.py:28-33 | for every other marker there is a buffer with it on which both succeed and differ |
| `Replay.HeaderRoundTrip` | app/calculators/replay_cursor.py:52-70 | every header that is written is read back by both, and the replay starts right behind it |
| `Replay.PlainHeader` | app/calculators/replay_cursor.py:52-70 | a header byte by byte (strings behind 0x0b, numbers with the lowest byte first) is read by both readers |
| `Replay.FileRoundTrip` | tools/parse_osr.py:36-53 | a whole file that is written, replay and score id included, is read back |

## Left out

- SQL, sessions, Redis, HTTP, storage, logging, notifications and the anti-cheat pipeline: I/O. A query is modelled by what it may return.
- Classic display scores: the conversion depends on each play's maximum statistics and breaks monotonicity between plays.
- Changing map statuses: the status of a map is fixed during a run; a play without a beatmap cannot exist.
- Ledger.Server.ProcessStatistics: play count, play time, hit counters, monthly counts and the time of the last play are not modelled; they are plain sums. The pp at its end is modelled in `PpServer`.
- Recalculation.RecalculateStatistics: play count, play time and hit counters are not modelled either; they are plain sums over all scores, defined differently from the live ones. The pp of the rebuilt row is modelled in `PpRebuild` and `PpOrder`.
- PpOrder.SameAccountPp: claimed for pp, not for accuracy, because rows without pp do count towards the live accuracy. It asks that the calculator, where it answers both times, answers the same; a recalculation after a change of the pp formula has nothing to agree with.
- PpRebuild.RecalcScorePp: the score still has the pp the server stored, so a second run of the tool is not modelled. How long it waits is not modelled.
- PpServer.PpTables.ProcessPlay: the calculator's answer and the flashlight check are inputs of the play. A score stored with pp 0 is calculated again on every run; here the answer is then 0 again.
- BestScores.CalculateUserPp: which of several tied rows supplies which accuracy is left open, as the query leaves it open.
- TotalScoreBestScore.delete: it subtracts a row's score even when the row is not the best of its map, so it is no step of this ledger.
- Manual submissions by an admin: stored without pp until the next rebuild.
- Leaderboard filters (friends, country, team, mods): the rows that pass them are the input.
- Ranks.RankSession.GetRank: the activity cutoff is fixed for the session; the moving clock is not modelled.
- DailyChallenge.DailyChallengeStats.ProcessScore: dates instead of times of day; the points award is not modelled.
- DailyChallenge.DailyChallengeStats.Close: the query that lists the passed scores is not modelled; a participant comes with a rank in it. The tenth and the half of the field are rounded up exactly.
- BeatmapCache.BeatmapCacheManager.AddBeatmap: a call is atomic, as the lock makes it; the cleanup itself and its interleaving with later calls are not modelled.
- JumpSections.FindJumpSections: the length of a vector and the flow of a turn are arbitrary functions; square roots and trigonometry are not modelled. Parsing of the map file is not modelled.
- The washability score, its pp factor and the replay confirmation of app/calculators/relax_flow.py: averages over the same turns.
- Multiplier.Evaluate: the factor functions of the tables are arbitrary functions of the mod; it asks for combinations of at least two mods, which all tables satisfy (`Multiplier.OsuTableIsProper`).
- ModMerge.MergeDuplicates: keys of a mod other than its acronym and settings are not modelled.
- Replay.Parse: the decoding of text, the conversion of the timestamp and the replay frames are not modelled.
- Floating-point rounding everywhere.
- The difficulty and pp calculators, points, medals, events, authentication and donations.
