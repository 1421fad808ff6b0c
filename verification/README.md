# Fantasy football archive: a verified model

The archive merges two league histories, one from ESPN and one from Sleeper, into one set of
seasons, standings and records. This project models the parts of that merge where mistakes
would be silent, and proves what they keep, refuse and compute.

- **Owner identities.** Alias maps are cleaned, overlaid and flattened; the chains are a
  functional graph with loop detection and a canonical report (`OwnerAliases`). The identities
  file is parsed, generated and read back (`OwnerIdentities`, `OwnerGrouping`, `OwnerStarter`),
  and published without ever overwriting a file or leaving a partial one (`Publish`, a state
  machine over single system calls with failing calls, kills and power losses).
- **Sleeper seasons.** One row per roster becomes one row per game (`SleeperPairing`), the title
  pair is resolved from brackets or standings (`SleeperView`), one row is labelled the
  championship (`SleeperSchedule`). The view and the statistics each look for that row; when
  they agree is settled in `SleeperTitle`, where the title goes in `SleeperStats`, and what each
  row shows and counts of the tables in `SleeperScores`.
- **ESPN seasons.** The same season is read by the view, the statistics and the archive
  (`EspnSeasons`): one champion, and the exact condition for agreeing on every other game;
  `EspnScores` says what each of them takes from a row.
- **Statistics.** `Points` is the int64 fixed-point type with its parser and printer. A season is
  a list of credits (`StatsSeason`, `StatsTally`); the rollup is a class updated season by season
  and proved to hold exactly what is owed (`StatsRollup`, `Records`); its laws are renaming,
  conservation and bounds (`StatsLaws`, `StatsTotals`); ranked tables, leaders and the top ten do
  not depend on map order (`StatsRanking`, `StatsPage`, `StatsOrder`). Every figure is a count or
  a sum over the inputs (`StatsCounts`), and the page is described field by field (`StatsShown`).
- **Positions.** The concurrent lookup with its semaphore, channel, wait group and context
  (`PositionFetch`), the cache whose lock is released during the fetch (`PositionCache`), and the
  fallback that fills the draft board (`DraftPicks`).
- **Leagues.** One Sleeper lineage is chosen and replaces ESPN season by season (`ArchiveLeagues`);
  when its champion is the owner the statistics credit is settled in `ArchiveChampions`, and
  `ArchiveShown` says what the list shows.

`Text`, `Sorting`, `SortedStrings`, `Sums`, `Maps` and `Results` hold what these share. Loops over Go maps pick
an arbitrary remaining key; `sort.Slice` is any sorted arrangement, so nothing proved relies on
how ties fall. `dafny verify dfyconfig.toml` checks the whole project.

Six statements one might expect are false of the code, and are given with their exact condition:

- pairing can put a row in two games (`SleeperPairing.PairingSoundExactlyWhenPairable`): a row
  naming itself, a one-sided link, or a third row in a group that links do not settle;
- the view and the statistics can flag different title games when the pair meets twice in its
  last playoff week (`SleeperTitle.ViewAndStatisticsAgree`), and can name different winners of an
  earlier ESPN meeting of the finalists (`EspnSeasons.WinnersAgreeExactly`);
- a generated identities file can be one the parser rejects (`OwnerStarter.StarterReadsBack`);
- merging names does not merge totals when the alias map renames `Unknown`, because blank owners
  share that entry but are not renamed (`StatsLaws.TotalsMergeExactly`);
- a nil return of the publish step need not mean a file that survives a power loss: it does when
  the process published the file or the file was there before anyone started, and otherwise a
  publisher may not have synced the directory yet (`Publish.NilLastsExactly`);
- a miss need not mean that the service was asked: a goroutine whose context is cancelled before it
  gets a slot reports its id missed (`PositionFetch.MissedUnaskedExactly`,
  `PositionFetch.MissesAskedExactly`), the cache records that miss
  (`PositionCache.MissesAreAnswersExactly`), and no later call asks again
  (`PositionCache.SettledIsNotFetched`).

## Model

| member | source | states |
|---|---|---|
| `Text.CleanNormalForm` | cmd/api/owner_identities.go:457-459 | cleaning a value is idempotent and lands in a syntactic normal form (words separated by single blanks); a string is unchanged exactly when it already is in that form |
| `Text.CleanKeepsWords` | cmd/api/owner_identities.go:457-459 | cleaning changes white space only: the words before and after are the same |
| `Text.TrimSpaceIs` | cmd/api/owner_identities.go:66-70 | trimming takes the white space off both ends and nothing else |
| `OwnerNames.NormalizeOwnerOnFlatMap` | internal/stats/stats.go:510-516 | on a merged alias map one lookup is enough: looking up twice gives the same name, the archive package finds the same name, the name is clean, and only a blank owner gets a blank name |
| `OwnerAliases.ResolveOwnerAlias` | cmd/api/owner_identities.go:385-417 | terminates; succeeds exactly when the chain of the alias ends, with the name it ends at; otherwise reports a canonical loop that the chain runs into |
| `OwnerAliases.CycleReport` | cmd/api/owner_identities.go:400-413 | the reported sequence is a true traversal of the loop, starting and ending at its least name, no name twice |
| `OwnerAliases.ReportsThatMeetAreEqual` | cmd/api/owner_identities.go:400-413 | two reports with a name in common are the same sequence: every alias that runs into a loop is told the same thing |
| `OwnerAliases.ReportUnique` | cmd/api/owner_identities.go:400-413 | there is only one report an alias can be given |
| `OwnerAliases.EnteringALoopNeverSettles` | cmd/api/owner_identities.go:393-416 | a chain that reaches a loop of two or more names has no end, so it cannot be resolved |
| `OwnerAliases.NormalizeOwnerAliasMap` | cmd/api/owner_identities.go:363-383 | succeeds exactly when no entry is blank and no two spellings of one alias disagree; the result cleans every key and value; the error is about the first failing key in key order |
| `OwnerAliases.NormalizeErrorUnique` | cmd/api/owner_identities.go:363-383 | the error does not depend on the order in which the map is ranged over |
| `OwnerAliases.FlattenAliases` | cmd/api/owner_identities.go:346-360 | succeeds exactly when the merged graph has no loop; the result has the same domain and sends each key to the end of its chain; the error is the loop of the least alias whose chain is endless |
| `OwnerAliases.MergeOwnerAliases` | cmd/api/owner_identities.go:328-361 | succeeds exactly when both maps can be cleaned and their overlay (overrides winning) has no loop of two or more names; the result is the flattened overlay and is flat |
| `OwnerAliases.MergeErrorUnique` | cmd/api/owner_identities.go:328-361 | a failing merge has one error, whatever the map order |
| `OwnerAliases.FlattenedIsFlat` | cmd/api/owner_identities.go:352-360 | after flattening every canonical name that is also an alias maps to itself |
| `OwnerAliases.OneLookupIsEnough` | cmd/api/owner_identities.go:352-360 | one lookup in the flattened map finds the end of the whole chain of the merged map |
| `OwnerAliases.MergingFlatChangesNothing` | cmd/api/owner_identities.go:328-361 | merging an already merged map with no overrides succeeds and returns it unchanged |
| `OwnerIdentities.AddOwnerIdentityAlias` | cmd/api/owner_identities.go:312-326 | adds the cleaned pair, and fails exactly on a blank identifier, a blank name, or an identifier that belongs to another name; says which |
| `OwnerIdentities.ParseOwnerIdentitiesFile` | cmd/api/owner_identities.go:259-301 | accepts a decoded file exactly when the version is 1, owners are present, nothing is blank and no identifier is shared by entries of different names; the map sends exactly the listed identifiers to their names; a reported conflict is a real one |
| `OwnerIdentities.DescribesOneWay` | cmd/api/owner_identities.go:285-300 | the accepted map is determined by the file |
| `OwnerIdentities.AcceptedFileIsFlat` | cmd/api/owner_identities.go:285-300 | an accepted file is already flat: each canonical name maps to itself |
| `OwnerGrouping.AppendUniqueSorted` | cmd/api/owner_identities.go:442-455 | the result is ascending and holds exactly the non-blank clean forms of both lists |
| `OwnerGrouping.GroupOwners` | cmd/api/owner_identities.go:222-229 | every owner id joins the entry of its name: each entry holds exactly the ids, display names and user names of the owners so named |
| `OwnerGrouping.SortedEntries` | cmd/api/owner_identities.go:232-238 | one entry per name, in ascending name order, whatever the map order |
| `OwnerGrouping.EntriesClaim` | cmd/api/owner_identities.go:303-310 | the generated entries claim exactly the identifiers the archives establish for their names |
| `OwnerStarter.ListTeams` | cmd/api/owner_identities.go:159-173 | the team rows of all leagues in order; fails exactly when a query fails other than for want of rows |
| `OwnerStarter.CollectEspn` | cmd/api/owner_identities.go:174-181 | one entry per distinct clean ESPN owner name, holding that name |
| `OwnerStarter.CollectSleeper` | cmd/api/owner_identities.go:204-214 | one record per clean owner id, holding exactly the display and user names that id has had, ascending |
| `OwnerStarter.RecordGivesName` | cmd/api/owner_identities.go:429-440 | an owner is named by the least display name, else the least user name, else the id |
| `OwnerStarter.BuildStarterOwnerIdentities` | cmd/api/owner_identities.go:156-257 | the starter holds one entry per name with everything that goes by it; it fails exactly when a query fails |
| `OwnerStarter.StarterReadsBack` | cmd/api/owner_identities.go:156-301 | the parser accepts the starter exactly when no identifier in the archives points to two entries, and then maps every ESPN name and every Sleeper owner id to its entry name |
| `OwnerStarter.SharedUsernameIsAmbiguous` | cmd/api/owner_identities.go:204-229 | two people with different display names and one user name make the starter unreadable |
| `Publish.InitialInv` | cmd/api/owner_identities.go:67-75 | the invariant of the publish protocol holds before anyone starts |
| `Publish.StepKeepsInv` | cmd/api/owner_identities.go:67-154 | every system call, kill, background write and power loss keeps the invariant |
| `Publish.PathIsWhole` | cmd/api/owner_identities.go:102-128 | over all runs the path is absent, holds the earlier contents, or holds all the bytes one publisher meant to write; and these are on disk |
| `Publish.PresentStays` | cmd/api/owner_identities.go:127-132 | once the path is present it keeps its file and contents, short of a power loss |
| `Publish.DurableStays` | cmd/api/owner_identities.go:138-148 | once the entry is durable it never changes, power losses included |
| `Publish.EarlierFileStays` | cmd/api/owner_identities.go:71-75 | a file that was there before is never overwritten |
| `Publish.NilMeansPresent` | cmd/api/owner_identities.go:71-153 | a nil return for a path that is not blank means the file exists and is complete; if this process published it, it is its bytes and durable |
| `Publish.NoTempLeft` | cmd/api/owner_identities.go:95-103 | a process that returned has no temporary file left unless removing it failed |
| `Publish.EveryCallAdvances` | cmd/api/owner_identities.go:67-154 | every call brings its process nearer to returning and no process waits for another |
| `Publish.FailsExactly` | cmd/api/owner_identities.go:67-154 | over all runs a process that has returned reports an error if and only if one of its own system calls failed before the deferred cleanup; without such a failure it returned nil |
| `Publish.CanReturn` | cmd/api/owner_identities.go:67-154 | from any state, whatever the others have done, a started process that has not been stopped can go on to return without a failing call |
| `Publish.PublishingWorks` | cmd/api/owner_identities.go:95-154 | from every state without an earlier file some run ends with a process that returned nil as the publisher, its bytes at the path and on disk, and no temporary name left |
| `Publish.EarlierFileStopsPublishing` | cmd/api/owner_identities.go:71-75 | where the file was there before, no process of any run creates a file or a temporary name |
| `Publish.FoundFileMayVanish` | cmd/api/owner_identities.go:71-148 | from every state without an earlier file, a process can return nil for a file it found before the publisher that linked it synced the directory, and a power loss removes that file |
| `Publish.NilLastsExactly` | cmd/api/owner_identities.go:67-153 | for a path that is not blank: every nil return of a kind, in every run, means a file that stays as it is through anything that follows, power losses included, if and only if the process published the file or it was there before anyone started |
| `SleeperPairing.ChooseOpponent` | cmd/api/matchups.go:377-393 | the opponent is the linked row if there is one, else the first other row of the group if the matchup id is positive |
| `SleeperPairing.PairRows` | cmd/api/matchups.go:364-430 | the loop makes the games its row-by-row specification says |
| `SleeperPairing.PairableCovers` | cmd/api/matchups.go:371-430 | when rows are pairable every row is in exactly one game, once |
| `SleeperPairing.GamesAreAllGames` | cmd/api/matchups.go:371-430 | the games made are exactly the pairs that face each other and the rows with nobody to face, each once |
| `SleeperPairing.GamesOrderFree` | cmd/api/matchups.go:371-430 | permuting pairable rows does not change the games made |
| `SleeperPairing.GamesAreWellMade` | cmd/api/matchups.go:395-401 | the two sides share week and matchup id and the lower roster id is at home |
| `SleeperPairing.PairingSoundExactlyWhenPairable` | cmd/api/matchups.go:371-430 | with distinct (week, matchup, roster) keys, every order of the rows puts each row in exactly one game if and only if whoever a row may face is another row, the only one, and may face it in return |
| `SleeperPairing.WellFilledIsPairable` | cmd/api/matchups.go:377-393 | rows are pairable when nobody plays itself, a positive matchup id groups at most two rosters a week, and elsewhere opponents name each other |
| `SleeperView.SleeperChampionshipFromStandings` | cmd/api/matchups.go:538-556 | an answer exactly when one team finished first and one second and they are two real rosters |
| `SleeperView.ResolveSleeperChampionship` | cmd/api/matchups.go:492-520 | the answer the data supports: settled title rows first, which must agree; the standings only if there is no title row; nothing otherwise |
| `SleeperView.AnswerUnique` | cmd/api/matchups.go:492-520 | the data supports one answer only |
| `SleeperView.AnswerOrderFree` | cmd/api/matchups.go:492-520 | the answer depends only on the multisets of brackets and teams |
| `SleeperView.AnswerIsSupported` | cmd/api/matchups.go:492-563 | it never guesses: a valid answer is given by every settled title row, or by the standings when no title row exists; the winner is one of two distinct positive rosters |
| `SleeperView.WinnersBracketIs` | cmd/api/matchups.go:565-568 | a bracket is the winners bracket exactly when its trimmed type contains the word winner in any case |
| `SleeperView.SettlesExactly` | cmd/api/matchups.go:522-536 | a first-place row settles a title exactly when it names a winner and two distinct positive rosters, winner and loser or else the two slots, the winner one of them; and then for that pair and that winner |
| `SleeperView.BracketAnswer` | cmd/api/matchups.go:492-536 | whoever is resolved as champion while a first-place row exists is the winner some such row names, and the pair is the one that row names |
| `SleeperSchedule.FilterSleeperInactiveWeeks` | cmd/api/matchups.go:445-460 | keeps, in order, the rows of the weeks that have a real pair |
| `SleeperSchedule.FilterKeepsActiveWeeks` | cmd/api/matchups.go:445-460 | of each row all copies are kept if its week has a real pair, else none |
| `SleeperSchedule.FilterOrderFree` | cmd/api/matchups.go:445-460 | what is kept does not depend on the order of the rows |
| `SleeperSchedule.LocateTitleGame` | cmd/api/matchups.go:464-477 | the first of the playoff games between the title pair in the latest week they meet; none if they never meet or the resolution is not valid |
| `SleeperSchedule.FinalizeSleeperMatchupLabels` | cmd/api/matchups.go:462-490 | in place, flags that row and no other, gives it the official winner, and labels every row |
| `SleeperSchedule.NormalizeSleeperMatchups` | cmd/api/matchups.go:357-443 | the view is some sorted arrangement of the labelled rows of active weeks, labelled with the supported answer |
| `SleeperTitle.BaseRowsOrderFree` | cmd/api/matchups.go:357-443 | for pairable rows the rows of the view before labelling are the same multiset in whatever order the database returns them |
| `SleeperTitle.BaseRowsWellMade` | cmd/api/matchups.go:395-430 | home is the lower roster and a roster has one team name |
| `SleeperTitle.ViewAndStatisticsAgree` | cmd/api/stats.go:311-326 | the row flagged before sorting is the row found after sorting, whatever the unstable sort does, if and only if the title pair has one meeting in its last playoff week |
| `SleeperTitle.OneMeetingAgrees` | cmd/api/stats.go:311-326 | with one latest meeting the two always agree |
| `SleeperTitle.TwoMeetingsDisagree` | cmd/api/stats.go:311-326 | with two latest meetings some sorted order makes them disagree |
| `SleeperTitle.OneChampionshipOneWinner` | cmd/api/matchups.go:479-490 | at most one row of the view is the championship, it is a title meeting, and exactly one side has won: the official one |
| `SleeperScores.TitleGameIsLastMeeting` | cmd/api/matchups.go:462-477 | the row found as title game is the playoff game between the two resolved rosters in the latest week, the first of them; none is found exactly when nothing valid is resolved or the two never meet |
| `SleeperStats.FallbackNeverHelps` | cmd/api/stats.go:393-408 | the row label used as fallback is blank whenever the owner key is |
| `SleeperStats.ParseOptionalStatsPoints` | cmd/api/stats.go:414-422 | a blank score is zero on an absent side and an error on a present one; any other string must be a points value, and gives exactly that value |
| `SleeperStats.NormalizeSleeperStatsSeason` | cmd/api/stats.go:289-369 | succeeds exactly when the points of all teams and the scores of all rows of active weeks can be read; then every input carries over its row of some schedule the view may show, and the flag and the official winner go to the title game found in it |
| `SleeperStats.ViewReads` | cmd/api/stats.go:328-339 | labelling and sorting change no score: a view can be read exactly when its rows can |
| `SleeperStats.TitleGameOfSeason` | cmd/api/stats.go:311-367 | at most one input is the championship, the title game; its winner is the official one whatever the score, and the owner it names is the key of the winning roster |
| `SleeperStats.TitleCredited` | internal/stats/stats.go:358-371 | the rollup credits the single title of the season to the canonical owner of the official winner, if named, and to nobody without a title game |
| `SleeperStats.ViewAndStatisticsNameOneChampion` | cmd/api/stats.go:311-362 | with one latest meeting the view and the statistics flag the same row and name the same side as winner |
| `SleeperScores.ViewShows` | cmd/api/matchups.go:357-443 | every row of a view shows, for each roster on it, the points, owner and team name that the tables hold for that roster and week; outside the championship the side whose points compare greater has won, and nobody without an opponent |
| `SleeperScores.ScheduleLabels` | cmd/api/matchups.go:667-722 | every row is labelled for what it is: bye, championship, numbered round by its distance from the greatest week, placement game, other playoff game, regular season |
| `SleeperScores.SeasonCounts` | cmd/api/stats.go:328-362 | every game the statistics take counts, for each side present, the points and the owner of the roster the schedule shows there |
| `SleeperScores.WinnersAgreeExactly` | cmd/api/matchups.go:407-411 | outside the championship the view and the statistics name the same winner of a game if and only if the comparison of the view orders its two scores, either way round, as their values |
| `EspnSeasons.TitleIndex` | internal/archive/archive.go:329-341 | the first finalists game of the greatest week; none exactly when there is no finalists game |
| `EspnSeasons.NormalizeESPNMatchups` | cmd/api/matchups.go:314-355 | the view: winners by score, except in the title game, where the final standing decides |
| `EspnSeasons.FindTitleRow` | internal/archive/archive.go:329-341 | the archive finds the title game |
| `EspnSeasons.ESPNFinalists` | internal/archive/archive.go:254-279 | champion is the side that finished first in the title game, with owners made canonical; nothing without one |
| `EspnSeasons.PointsFromFloat64` | internal/stats/stats.go:145-150 | parsing the written-out score fails exactly when the score is not a whole number of hundredths that fits an int64, and otherwise returns that number |
| `EspnSeasons.WholePoints` | internal/stats/stats.go:152-159 | whole points of a 32-bit column convert to a hundred times their value and never panic |
| `EspnSeasons.NormalizeESPNStatsSeason` | cmd/api/stats.go:239-287 | succeeds exactly when all scores convert; flags every meeting of the finalists and gives it to the side that finished first |
| `EspnSeasons.SameTitleGame` | internal/stats/stats.go:711-722 | the championship of the statistics is the title game of the view and the archive |
| `EspnSeasons.OneChampion` | internal/archive/archive.go:254-279 | view, statistics and archive agree on the row, the side and, under a merged alias map, the owner of the champion |
| `EspnSeasons.NoChampion` | internal/stats/stats.go:711-722 | without a finalists game none of them names a champion |
| `EspnSeasons.WinnersAgreeExactly` | cmd/api/stats.go:275-283 | view and statistics name the same winner of every game if and only if the champion also outscored the runner-up in every earlier meeting |
| `EspnSeasons.EarlierMeetingDiffers` | cmd/api/stats.go:275-283 | a concrete season in which they differ |
| `EspnScores.EspnViewShows` | cmd/api/matchups.go:314-355 | every row shows its database row, each side in its place; the championship is the title game, won by the team that finished first; any other game is won on points, and by nobody without an opponent |
| `EspnScores.EspnLabels` | cmd/api/matchups.go:667-722 | every row is labelled for what it is, by its distance from the greatest week |
| `EspnScores.EspnGameCounts` | cmd/api/stats.go:253-286 | the statistics count the owner, name and exact points of each side; between the finalists the team that finished first has won whatever the points, otherwise the side that scored more |
| `EspnScores.ReadEspnSeason` | cmd/api/stats.go:239-287 | a season that can be read counts every team with its own record and a hundred times its points, and every row as it is |
| `Points.ParsePoints` | internal/stats/stats.go:94-143 | accepts exactly the strings of optional sign, digits and optional one or two decimals whose hundredths fit an int64, and returns exactly that number; the error says whether the string is blank, malformed or too large |
| `Points.DenotesUnique` | internal/stats/stats.go:94-143 | a string denotes one number of hundredths |
| `Points.PointsString` | internal/stats/stats.go:165-186 | the printed form denotes the number and no shorter string does; no intermediate overflow, the least int64 included |
| `Points.PrintAndParse` | internal/stats/stats.go:94-186 | parsing the printed form gives the number back, for every int64 |
| `Points.PrintedFormsDiffer` | internal/stats/stats.go:165-186 | the printed forms of two different numbers differ |
| `Points.WrittenOutDenotes` | internal/stats/stats.go:145-150 | the plain decimal form of a value denotes a number of hundredths exactly when that number is a hundred times the value; more than two decimals denote none |
| `Points.PointsFromWhole` | internal/stats/stats.go:152-159 | panics exactly when a hundred times the value does not fit; otherwise agrees with parsing the decimal form of the value |
| `StatsSeason.FindChampionshipMatch` | internal/stats/stats.go:711-722 | finds the championship of the season |
| `StatsSeason.ChampionshipIndex` | internal/stats/stats.go:711-722 | the first candidate of the greatest week; none exactly when there is no candidate |
| `StatsSeason.ChampionshipIgnoresOwners` | internal/stats/stats.go:711-722 | owner names do not decide which game is the championship |
| `StatsSeason.CollectPlayoffOwners` | internal/stats/stats.go:724-743 | exactly the named owners on a present side of a winners-bracket row, byes included |
| `StatsSeason.CanonicalizeSeason` | internal/stats/stats.go:518-530 | copies the season with every owner looked up once |
| `StatsLaws.CountedTogether` | internal/stats/stats.go:305-315 | two owners are counted in one entry if and only if they have one canonical name, or each is blank or canonically Unknown |
| `Text.LessIs` | internal/stats/stats.go:412-447 | strings compare at the first place where they differ, a prefix before what it starts |
| `StatsTally.RollupSplits` | internal/stats/stats.go:329-401 | totals over two lists of seasons are the sums of the totals over each |
| `StatsTally.RollupOrderFree` | internal/stats/stats.go:329-401 | totals do not depend on the order of the seasons |
| `StatsLaws.AliasingCommutes` | internal/stats/stats.go:518-530 | under a merged alias map that keeps Unknown each canonical owner is owed, of every additive metric, the sum over the raw owners mapped to it; of trips and finals at most that |
| `StatsLaws.RemappedUnknownFails` | internal/stats/stats.go:305-315 | that condition is needed: for every merged map that renames Unknown there are seasons for which the sums differ |
| `StatsLaws.TotalsMergeExactly` | internal/stats/stats.go:295-401 | for a flat alias map, additive totals merge for all seasons, owners and metrics if and only if the map does not rename Unknown |
| `StatsLaws.RollupConserves` | internal/stats/stats.go:329-401 | over all owners each additive metric sums to what the inputs hold |
| `StatsLaws.SeasonBounds` | internal/stats/stats.go:353-384 | a season gives an owner at most one title, trip and final, and a title only to a finalist |
| `StatsLaws.RollupBounds` | internal/stats/stats.go:353-384 | titles never exceed finals, and finals and trips never exceed the number of seasons |
| `Records.RecordBook.Update` | internal/stats/stats.go:574-618 | the book becomes the old book with this game shown to it |
| `Records.BookIsScan` | internal/stats/stats.go:574-618 | a book equals a from-scratch scan of the games shown: the first among the best scores of all sides and among the margins of decided games, empty exactly when there are none |
| `Records.FirstMaxUnique` | internal/stats/stats.go:574-618 | the earliest holder of a record is unique |
| `Records.BooksBounded` | internal/stats/stats.go:574-618 | a book over some games is bounded, record by record, by a book over all |
| `StatsRollup.Rollup.AddTeam` | internal/stats/stats.go:331-350 | the owner has a season and its results more, everyone else what they had; the season record is appended |
| `StatsRollup.Rollup.AddTrips` | internal/stats/stats.go:353-356 | each playoff owner has one trip more in both tables, in whatever order the set is ranged over |
| `StatsRollup.Rollup.AddChampionship` | internal/stats/stats.go:358-384 | the winner has one title more in both tables, both finalists one final more, the game goes into the championship book and the winner into the champions |
| `StatsRollup.Rollup.AddGame` | internal/stats/stats.go:386-400 | a game both sides played goes into the books; a decided winners-bracket game is one win and one loss more |
| `StatsRollup.Rollup.ApplyPlayoffResult` | internal/stats/stats.go:620-629 | one win for the winner and one loss for the loser of a decided winners-bracket game, nothing else |
| `StatsRollup.Rollup.AddSeason` | internal/stats/stats.go:329-401 | both tables grow by exactly what the season owes each owner; lists and books by what it appends |
| `StatsRollup.BuildRollup` | internal/stats/stats.go:295-401 | after all seasons both tables hold exactly what is owed, with no idle entry, and lists and books what was appended |
| `StatsRollup.TablesUnique` | internal/stats/stats.go:353-356 | the tables are determined by what is owed, so no iteration order shows in them |
| `StatsRollup.TablesOrderFree` | internal/stats/stats.go:329-401 | permuting the seasons leaves both tables as they are |
| `StatsRollup.TablesAgree` | internal/stats/stats.go:353-384 | the tables agree on titles and trips; titles are at most finals, and finals and trips at most the number of seasons |
| `StatsRollup.TitlesAreChampions` | internal/stats/stats.go:358-371 | an owner has as many titles as entries in the list of champions |
| `StatsRollup.PlayoffRecordsBounded` | internal/stats/stats.go:373-400 | playoff and championship records never go beyond the overall ones |
| `StatsTotals.OwnerTableConserves` | internal/stats/stats.go:329-401 | seasons, wins, losses, ties, points and titles of the owner table sum to the inputs |
| `StatsTotals.PlayoffTableConserves` | internal/stats/stats.go:620-629 | wins and losses of the playoff table each sum to the decided winners-bracket games, titles to the crowned seasons |
| `StatsTotals.WinsEqualLosses` | internal/stats/stats.go:620-629 | total playoff wins equal total playoff losses |
| `StatsTotals.RowsMerge` | internal/stats/stats.go:295-401 | merging names merges rows: a canonical row holds the sum of the rows of the raw owners mapped to it, and for trips and finals at most that |
| `StatsCounts.PlayoffTableMeans` | internal/stats/stats.go:329-400 | for any name: wins are the winners-bracket games, played by both sides, whose winning side goes under it, official winner first, else higher score; losses those whose other side does; titles, finals and appearances the seasons in which it won the title, was in the title game, was in the bracket; all over the seasons as given, each owner by its canonical name |
| `StatsCounts.OwnerTableMeans` | internal/stats/stats.go:329-371 | for any name: seasons are the teams that go under it; wins, losses, ties and points their sums; titles and trips as in the playoff table |
| `StatsCounts.OwnerEntryExactly` | internal/stats/stats.go:305-371 | a name has an entry in the owner table if and only if some season shows it with a team, the title or a place in the bracket |
| `StatsRanking.OrdersAreOrders` | internal/stats/stats.go:412-496 | all five comparison callbacks are strict weak orders |
| `StatsRanking.OwnersDecide` | internal/stats/stats.go:412-447 | the two owner orders decide between any two owners |
| `StatsRanking.PlayoffOwnersDecide` | internal/stats/stats.go:455-470 | so does the playoff order |
| `StatsPage.OwnerRows` | internal/stats/stats.go:403-408 | whatever order the map is ranged over, each entry is listed once |
| `StatsPage.RankRows` | internal/stats/stats.go:412-447 | the table is all rows in order with ranks 1 to n |
| `StatsPage.RankingUnique` | internal/stats/stats.go:403-470 | there is one such table |
| `StatsPage.OwnerTablesUnique` | internal/stats/stats.go:403-447 | the ranked and the regular-season table are one sequence for every map order |
| `StatsPage.PlayoffTablesUnique` | internal/stats/stats.go:449-470 | so is the playoff table |
| `StatsPage.FindLeader` | internal/stats/stats.go:792-803 | the first row that no other row considered beats |
| `StatsPage.LeaderUnique` | internal/stats/stats.go:792-914 | a table has one leader in each respect |
| `StatsPage.FirstRowHasMostWins` | internal/stats/stats.go:784-790 | the first row has the most wins, so taking it as leader is right |
| `StatsPage.BestSeasons` | internal/stats/stats.go:472-494 | the ten best of some sorted arrangement of all season records, ranked |
| `StatsPage.ArrangementsAgree` | internal/stats/stats.go:472-488 | two sorted arrangements of one list hold, place by place, elements that compare equal |
| `StatsOrder.BuildPageDataFromSeasons` | internal/stats/stats.go:295-508 | the page is made of the rankings, leaders, records and lists of its seasons |
| `StatsOrder.BestSeasonsAgree` | internal/stats/stats.go:472-494 | the ten best seasons are the same up to seasons tied on everything compared |
| `StatsOrder.ChampionsUnique` | internal/stats/stats.go:496-498 | with one season a year the list of champions is one definite sequence |
| `StatsOrder.PageOrderFree` | internal/stats/stats.go:295-508 | for every map order and every order of the seasons the tables, counts and leaders are the same, the extremes recorded are the same, and the best seasons agree up to ties |
| `StatsOrder.ConversionBounded` | internal/stats/stats.go:449-453 | title conversion lies between 0 and 1 in every row |
| `StatsShown.TablesInOrder` | internal/stats/stats.go:412-470 | of any two rows the upper one has, in the ranked table, more wins, then titles, then winning percentage, then the lesser name; in the regular-season table wins, percentage, points, name; in the playoff table titles, wins, appearances, percentage, name |
| `StatsShown.OwnerRowMeans` | internal/stats/stats.go:403-433 | every row of both owner tables has its place as rank, the sums over the seasons as figures, and the percentage and average these figures give |
| `StatsShown.PlayoffRowMeans` | internal/stats/stats.go:449-470 | so has every row of the playoff table, with its winning percentage and title conversion |
| `StatsShown.OwnersListed` | internal/stats/stats.go:403-408 | a name stands in the ranked table once if some season shows it, and otherwise not |
| `StatsShown.OverviewNames` | internal/stats/stats.go:784-860 | each card of the overview names the row with the most wins, trips, points for, best average, points against or titles, ties by the second figure and then by rank; none exactly when no row counts |
| `StatsShown.PlayoffOverviewNames` | internal/stats/stats.go:862-914 | each card of the playoff overview names the row with the most wins, titles or finals, or the best conversion, likewise |
| `StatsShown.ChampionsAre` | internal/stats/stats.go:358-371 | the champions are exactly the owners who won the championship of a season, with team, opponent, winning and losing score of the sides that won and lost, latest year first |
| `StatsShown.BestSeasonsAre` | internal/stats/stats.go:472-494 | each of the ten best is the season of one team, ranked by percentage, wins, points, standing and year; no season left out is better than a listed one |
| `StatsShown.RecordsAre` | internal/stats/stats.go:386-400 | each book names a side of a game with the highest and the lowest score, and the winner by the widest and the narrowest margin, of all games played, of the winners-bracket games, and of the championships |
| `StatsShown.GamesCounted` | internal/stats/stats.go:386-391 | the number of games shown is the number of rows with both sides, over all seasons |
| `PositionFetch.StepKeepsInv` | cmd/api/drafts.go:537-580 | every step of a goroutine, the caller or the context keeps the invariant |
| `PositionFetch.SafeAlways` | cmd/api/drafts.go:551-569 | in every reachable state at most eight goroutines hold a slot, and nobody who wants to send finds the channel full or closed |
| `PositionFetch.NeverStuck` | cmd/api/drafts.go:553-573 | no reachable state before the return is a deadlock, cancelled or not |
| `PositionFetch.StepDecreases` | cmd/api/drafts.go:553-580 | every step decreases the work left |
| `PositionFetch.RunsEnd` | cmd/api/drafts.go:537-580 | a run has at most eight steps per id and five more |
| `PositionFetch.OneResultPerId` | cmd/api/drafts.go:537-580 | at the return there is exactly one result per goroutine; every id is found, with an answer given for it, or missed, and for distinct ids the two split the request |
| `PositionFetch.OneDecisionEach` | cmd/api/drafts.go:554-567 | in every complete run each goroutine asks the service once or gives up once, never both, and its result is the answer given, or blank because it gave up |
| `PositionFetch.MissedUnaskedExactly` | cmd/api/drafts.go:556-577 | for every goroutine of every complete run: the service was asked if and only if the goroutine did not give up; the id was missed if and only if the answer was blank or the goroutine gave up; so it was missed without asking exactly when the goroutine gave up |
| `PositionFetch.UncancelledAsksAll` | cmd/api/drafts.go:556-565 | a run whose context is not cancelled asks about every id, and misses exactly those answered blank |
| `PositionFetch.CancelledIdIsMissed` | cmd/api/drafts.go:556-562 | for every request there is a complete run, cancelled at once, that asks about nothing and reports every id missed |
| `PositionFetch.MissesAskedExactly` | cmd/api/drafts.go:537-580 | every miss of every complete run was asked of the service if and only if the context is never cancelled or no id is requested |
| `PositionFetch.Drain` | cmd/api/drafts.go:575-582 | the loop over the drained channel collects found ids and misses |
| `PositionCache.Cache.LookUp` | cmd/api/drafts.go:496-508 | what is cached of the ids asked for, and the ids not settled yet, in order |
| `PositionCache.Cache.Learn` | cmd/api/drafts.go:519-528 | the cache and the result gain all positions found; the cache gains the misses |
| `PositionCache.UnsettledIs` | cmd/api/drafts.go:499-507 | an id is fetched exactly when it is asked for and neither cached nor a known miss |
| `PositionCache.StepKeepsInv` | cmd/api/drafts.go:495-530 | every interleaved step of any number of calls keeps cached and returned positions true, and the cache only grows |
| `PositionCache.CallsAreAnswered` | cmd/api/drafts.go:495-530 | nothing blank and nothing the service did not say is cached or returned, a call returns only ids it was asked for, and one that does not fail leaves no id without an answer or a recorded miss |
| `PositionCache.SettledIsNotFetched` | cmd/api/drafts.go:499-514 | an id settled before a call looks it up is, however calls interleave afterwards, in no list of missing ids of that call and in no lookup it makes |
| `PositionCache.CachedIsReturned` | cmd/api/drafts.go:496-529 | a position cached before a call looks it up is in what the call returns, even if its lookup fails |
| `PositionCache.CachedIsNotRefetched` | cmd/api/drafts.go:499-507 | an id once settled stays settled, so no later look-up lists it as missing, and a cached position is found by every later look-up |
| `PositionCache.RecordedMissExactly` | cmd/api/drafts.go:514-526 | the cache records a miss if and only if some call learned from a lookup in which a goroutine for the id was answered blank or gave up |
| `PositionCache.MissesAreAnswersExactly` | cmd/api/drafts.go:495-580 | every recorded miss of every run stands for an answer without a position if and only if no lookup is ever cancelled |
| `PositionCache.UnaskedMiss` | cmd/api/drafts.go:519-526 | for every id there is a run that records a miss for it although the service was not asked |
| `PositionCache.CachedPositionExactly` | cmd/api/drafts.go:514-526 | an id has a cached position if and only if some call learned one for it from its lookup, and the position is one so learned |
| `PositionCache.CallFailsExactly` | cmd/api/drafts.go:514-529 | however calls interleave, a call reports an error if and only if its lookup did |
| `PositionCache.CallCanReturn` | cmd/api/drafts.go:495-530 | from any reachable state a call can return without an error, whatever the others are doing |
| `DraftPicks.CollectIDs` | cmd/api/drafts.go:431-440 | the ids of the picks in need, each once |
| `DraftPicks.MissingIs` | cmd/api/drafts.go:485-493 | an id is missing exactly when it was asked for and has no position |
| `DraftPicks.SleeperPositionIs` | cmd/api/drafts.go:475-482 | an id has the normalised position of the last row that gives one, and none without such a row |
| `DraftPicks.ApplyESPNDraftPositionFallback` | cmd/api/drafts.go:430-463 | the board afterwards: every pick filled from the two sources combined; nothing asked or changed when no pick is in need |
| `DraftPicks.PrefersSleeper` | cmd/api/drafts.go:445-462 | a known position is never overwritten; a pick in need gets the answer of Sleeper if there is one, else that of ESPN, else stays blank |
| `DraftPicks.FilledThroughCache` | cmd/api/drafts.go:445-530 | with the ESPN answers coming from a call of any cache run: a pick in need gets the Sleeper answer, else a position the service gave for its id, and stays blank only if the call failed or a miss is recorded for its id |
| `ArchiveLeagues.CanonicalLeagueID` | internal/archive/archive.go:219-236 | the configured lineage, else the only one; fails exactly on several with none configured |
| `ArchiveLeagues.CanonicalSleeperLeagues` | internal/archive/archive.go:218-252 | fails exactly on several unconfigured lineages or a season listed twice in the chosen one; otherwise the rows of that lineage in order |
| `ArchiveLeagues.SleeperFinalists` | internal/archive/archive.go:281-295 | owner labels of the last teams with standing one and two; blank when teams cannot be read |
| `ArchiveLeagues.KnownOwnerLabel` | internal/archive/archive.go:362-367 | for an owner id that a merged map knows, the label is the name the statistics use |
| `ArchiveShown.OwnerLabelIs` | internal/archive/archive.go:362-376 | under a merged alias map the label of a team is the canonical name of its owner id if that is known, else that of the first of display name, user name and owner id that is not blank |
| `ArchiveChampions.LabelAgreesExactly` | internal/archive/archive.go:362-376 | the label of a team is the name the statistics use, whatever its display and user names are, if and only if its owner id is blank or known to the alias map |
| `ArchiveChampions.SleeperChampionAgreesExactly` | internal/archive/archive.go:281-295 | when the team listed as first has a known owner, the champion of the archive is the owner the statistics credit if and only if that team and the resolved winner count as one owner; being one roster is enough |
| `ArchiveChampions.StandingsChampionAgrees` | cmd/api/matchups.go:492-563 | when the standings decided the title, archive and statistics name one champion if the winner has a known owner |
| `ArchiveLeagues.EspnSummaries` | internal/archive/archive.go:174-200 | one summary per uncovered ESPN league, in order; fails exactly when the matchups of one cannot be read |
| `ArchiveLeagues.ListLeagueSummaries` | internal/archive/archive.go:128-216 | the sorted summaries of the uncovered ESPN leagues and the listed Sleeper leagues; each kind of failure under its exact condition |
| `ArchiveLeagues.ListOrderIsOrder` | internal/archive/archive.go:311-327 | the comparison callback is a strict weak order |
| `ArchiveLeagues.FullListConserves` | internal/archive/archive.go:128-216 | the non-canonical list keeps every row of both databases as often as it is there |
| `ArchiveLeagues.CanonicalSeasons` | internal/archive/archive.go:167-177 | a season covered by the chosen lineage stands once in the canonical list, as that league; every other season keeps exactly its ESPN leagues |
| `ArchiveLeagues.ListOrderFree` | internal/archive/archive.go:311-327 | with ids distinct per provider the sorted list is one sequence, whatever order the databases return rows in |
| `ArchiveShown.ListInOrder` | internal/archive/archive.go:311-327 | of any two entries the first has the earlier season, then the lesser provider, name, external id and id |
| `ArchiveShown.ListShows` | internal/archive/archive.go:167-216 | the entries are exactly those of the listed Sleeper leagues and of the ESPN leagues of seasons not covered, with the ids and the season of each; an ESPN entry names the team of the title game that finished first as champion and the other as runner-up, a Sleeper entry the owners of standings one and two |
| `ArchiveShown.ChosenAre` | internal/archive/archive.go:218-252 | the leagues of the chosen lineage are exactly those with its canonical id, trimmed |

## Left out

- HTTP handlers, sessions, templates, configuration, SQL and JSON: query results and decoded files are inputs; encoding is the identity, so the publish model speaks of the bytes a process means to write.
- Floating point: `compareScoreStrings` is a parameter of the view; averages, win percentage and title conversion are exact rationals.
- Aggregated points, margins and counts are mathematical integers; int64 and int overflow of sums is not modelled.
- Highlight cards: the records and leaders behind them are modelled, their wording and the `Detail` text are not.
- A `ChampionshipWinner` outside the three named constants, which no code path produces.
- Fetching one athlete: any answer the service may give, or none.
- `draft_time.go`, week tabs, filters, position names (`normalizeDraftPosition` is a parameter) and message texts: one-branch code or display only.
- Case folding: `unicode.ToLower` is modelled as far as the letters of "winner" can tell; invalid UTF-8 is not modelled.
- Go slices that are only rebuilt (`canonicalizeSeason`) and the totals that the maps refer to are values that the methods reassign; aliasing between them is not captured.
- The query loops of `buildStarterOwnerIdentities` are one method, `ListTeams`, used for both archives, and the nine leader scans are one method, `FindLeader`, with the comparison as a parameter.
- Other writers of the identities file: only publishers of this program touch the path in the model of the protocol.
- EspnSeasons.PointsFromFloat64: a score is the exact value of the shortest decimal form of its float64, which is a parameter; NaN, the infinities and the conversion to text are not modelled.
- ArchiveChampions.StandingsChampionAgrees: assumes one team per roster id, which the database schema enforces within a league.
- SleeperPairing.PairingSoundExactlyWhenPairable: assumes distinct (week, matchup, roster) keys, which the database schema enforces within a league.
