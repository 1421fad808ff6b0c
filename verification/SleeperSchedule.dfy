/** The Sleeper schedule as the view shows it (`cmd/api/matchups.go`): games become
    rows, inactive weeks go, one row is labelled the championship, rows are sorted. */
module SleeperSchedule {
  import opened Results
  import opened SleeperPairing
  import opened SleeperView
  import opened Sorting
  import opened Text
  import Points

  /** `matchupsview.MatchupRow`. */
  datatype MatchupRow = MatchupRow(
    week: int,
    homeTeamName: string,
    homeOwner: string,
    homeScore: string,
    homeRosterID: int,
    homePresent: bool,
    homeWinner: bool,
    awayTeamName: string,
    awayOwner: string,
    awayScore: string,
    awayRosterID: int,
    awayPresent: bool,
    awayWinner: bool,
    isPlayoff: bool,
    isChampionship: bool,
    matchupType: string,
    typeLabel: string)

  // ---- one row per game ----

  const NO_TEAM := Team(0, "", "", "", "", 0, 0, 0, 0, "", "")

  /** `teamsByRosterID`: the last row for a roster id counts. */
  function TeamsByRoster(teams: seq<Team>): map<int, Team> {
    if teams == [] then map[]
    else TeamsByRoster(teams[..|teams| - 1])[teams[|teams| - 1].rosterID := teams[|teams| - 1]]
  }

  /** A Go map lookup: the zero team when the roster is unknown. */
  function TeamAt(teams: map<int, Team>, rosterID: int): Team {
    if rosterID in teams then teams[rosterID] else NO_TEAM
  }

  function RosterLabel(rosterID: int): string {
    "Roster " + Points.SignedDecimal(rosterID)
  }

  function TeamLabel(team: Team, rosterID: int): string {
    if TrimSpace(team.teamName) != "" then TrimSpace(team.teamName)
    else if team.rosterID != 0 then RosterLabel(team.rosterID)
    else RosterLabel(rosterID)
  }

  function OwnerLabel(team: Team): string {
    if TrimSpace(team.displayName) != "" then TrimSpace(team.displayName)
    else if TrimSpace(team.username) != "" then TrimSpace(team.username)
    else TrimSpace(team.ownerID)
  }

  /** `sleeperScore`: custom points replace points unless blank. */
  function Score(row: Matchup): string {
    if row.customPoints.Some? && TrimSpace(row.customPoints.value) != "" then TrimSpace(row.customPoints.value)
    else TrimSpace(row.points)
  }

  /** How two score strings compare; Go parses them as floating point numbers. */
  type Comparison = (string, string) -> int

  function RowOf(g: Game, teams: map<int, Team>, compare: Comparison): MatchupRow {
    var home, homeTeam := g.home, TeamAt(teams, g.home.rosterID);
    var homeScore := Score(home);
    if g.away.Some? then
      var away, awayTeam := g.away.value, TeamAt(teams, g.away.value.rosterID);
      var awayScore := Score(away);
      MatchupRow(home.week,
        TeamLabel(homeTeam, home.rosterID), OwnerLabel(homeTeam), homeScore, home.rosterID, true, compare(homeScore, awayScore) > 0,
        TeamLabel(awayTeam, away.rosterID), OwnerLabel(awayTeam), awayScore, away.rosterID, true, compare(awayScore, homeScore) > 0,
        home.isPlayoff, false, home.matchupType, "")
    else
      MatchupRow(home.week,
        TeamLabel(homeTeam, home.rosterID), OwnerLabel(homeTeam), homeScore, home.rosterID, true, false,
        "BYE", "", "", 0, false, false,
        home.isPlayoff, false, home.matchupType, "")
  }

  function RowsOf(games: seq<Game>, teams: map<int, Team>, compare: Comparison): seq<MatchupRow> {
    Mapped(games, (g: Game) => RowOf(g, teams, compare))
  }

  // ---- inactive weeks ----

  predicate Played(row: MatchupRow) {
    row.homePresent && row.awayPresent
  }

  predicate ActiveWeek(rows: seq<MatchupRow>, week: int) {
    exists i :: 0 <= i < |rows| && rows[i].week == week && Played(rows[i])
  }

  /** The rows of the weeks in which `all` has a real pair, in order. */
  function OfActiveWeeks(rows: seq<MatchupRow>, all: seq<MatchupRow>): seq<MatchupRow> {
    if rows == [] then []
    else OfActiveWeeks(rows[..|rows| - 1], all) + if ActiveWeek(all, rows[|rows| - 1].week) then [rows[|rows| - 1]] else []
  }

  method FilterSleeperInactiveWeeks(rows: seq<MatchupRow>) returns (filtered: seq<MatchupRow>)
    ensures filtered == OfActiveWeeks(rows, rows)
  {
    var hasPlayedMatchupByWeek: set<int> := {};
    for i := 0 to |rows|
      invariant forall w :: w in hasPlayedMatchupByWeek <==> exists k :: 0 <= k < i && rows[k].week == w && Played(rows[k])
    {
      if rows[i].homePresent && rows[i].awayPresent {
        hasPlayedMatchupByWeek := hasPlayedMatchupByWeek + {rows[i].week};
      }
    }
    filtered := [];
    for i := 0 to |rows|
      invariant filtered == OfActiveWeeks(rows[..i], rows)
    {
      assert rows[..i + 1][..i] == rows[..i];
      if rows[i].week in hasPlayedMatchupByWeek {
        filtered := filtered + [rows[i]];
      }
    }
    assert rows[..|rows|] == rows;
  }

  lemma {:induction false} ActiveWeekReorder(rows: seq<MatchupRow>, perm: seq<MatchupRow>, week: int)
    requires multiset(perm) == multiset(rows)
    ensures ActiveWeek(perm, week) <==> ActiveWeek(rows, week)
  {
    if i :| 0 <= i < |rows| && rows[i].week == week && Played(rows[i]) {
      assert rows[i] in multiset(perm);
      var k :| 0 <= k < |perm| && perm[k] == rows[i];
    }
    if i :| 0 <= i < |perm| && perm[i].week == week && Played(perm[i]) {
      assert perm[i] in multiset(rows);
      var k :| 0 <= k < |rows| && rows[k] == perm[i];
    }
  }

  /** What the filter keeps of a row: all its copies if its week has a real pair, else none. */
  lemma {:induction false} FilterKeepsActiveWeeks(rows: seq<MatchupRow>, all: seq<MatchupRow>, row: MatchupRow)
    ensures multiset(OfActiveWeeks(rows, all))[row] == if ActiveWeek(all, row.week) then multiset(rows)[row] else 0
    decreases |rows|
  {
    if rows != [] {
      var init, last := rows[..|rows| - 1], rows[|rows| - 1];
      FilterKeepsActiveWeeks(init, all, row);
      assert rows == init + [last];
    }
  }

  lemma {:induction false} FilterOrderFree(rows: seq<MatchupRow>, perm: seq<MatchupRow>)
    requires multiset(perm) == multiset(rows)
    ensures multiset(OfActiveWeeks(perm, perm)) == multiset(OfActiveWeeks(rows, rows))
  {
    forall row: MatchupRow ensures multiset(OfActiveWeeks(perm, perm))[row] == multiset(OfActiveWeeks(rows, rows))[row] {
      FilterKeepsActiveWeeks(rows, rows, row);
      FilterKeepsActiveWeeks(perm, perm, row);
      ActiveWeekReorder(rows, perm, row.week);
    }
  }

  // ---- the title game ----

  predicate SamePair(a: int, b: int, c: int, d: int) {
    (a == c && b == d) || (a == d && b == c)
  }

  /** A playoff game between the two rosters of a valid resolution. */
  predicate TitleMeeting(row: MatchupRow, c: Resolution) {
    c.Valid() && Played(row) && row.isPlayoff && SamePair(row.homeRosterID, row.awayRosterID, c.first, c.second)
  }

  /** A title meeting with none in a later week. */
  ghost predicate LatestMeeting(rows: seq<MatchupRow>, c: Resolution, i: int) {
    && 0 <= i < |rows| && TitleMeeting(rows[i], c)
    && forall j :: 0 <= j < |rows| && TitleMeeting(rows[j], c) ==> rows[j].week <= rows[i].week
  }

  /** The first of the latest meetings, or -1 when the pair never meets in the playoffs. */
  ghost predicate IsTitleIndex(rows: seq<MatchupRow>, c: Resolution, i: int) {
    if exists j :: 0 <= j < |rows| && TitleMeeting(rows[j], c)
    then LatestMeeting(rows, c, i) && forall j :: LatestMeeting(rows, c, j) ==> i <= j
    else i == -1
  }

  function TitleGame(rows: seq<MatchupRow>, c: Resolution): (k: int)
    ensures IsTitleIndex(rows, c, k)
  {
    if rows == [] then -1
    else
      var n := |rows| - 1;
      var k := TitleGame(rows[..n], c);
      TitleIndexGrows(rows, c, k);
      if TitleMeeting(rows[n], c) && (k == -1 || rows[n].week > rows[k].week) then n else k
  }

  lemma {:induction false} TitleIndexGrows(rows: seq<MatchupRow>, c: Resolution, k: int)
    requires rows != [] && IsTitleIndex(rows[..|rows| - 1], c, k)
    ensures var n := |rows| - 1;
      IsTitleIndex(rows, c, if TitleMeeting(rows[n], c) && (k == -1 || rows[n].week > rows[k].week) then n else k)
  {
    var n := |rows| - 1;
    var init := rows[..n];
    assert forall j :: 0 <= j < n ==> init[j] == rows[j];
    assert k == -1 || LatestMeeting(init, c, k);
    if TitleMeeting(rows[n], c) && (k == -1 || rows[n].week > rows[k].week) {
      assert forall j :: 0 <= j < n && TitleMeeting(rows[j], c) ==> TitleMeeting(init[j], c);
      assert LatestMeeting(rows, c, n);
    } else if k != -1 {
      assert LatestMeeting(rows, c, k);
      forall j | LatestMeeting(rows, c, j) ensures k <= j {
        if j < n { assert LatestMeeting(init, c, j); }
      }
    } else {
      forall j | 0 <= j < |rows| ensures !TitleMeeting(rows[j], c) {
        assert j < n ==> init[j] == rows[j];
      }
    }
  }

  /** The scan that both the view and the statistics run over their rows. */
  method LocateTitleGame(rows: seq<MatchupRow>, c: Resolution) returns (index: int)
    ensures index == TitleGame(rows, c)
    ensures IsTitleIndex(rows, c, index)
  {
    index := -1;
    if c.Valid() {
      for i := 0 to |rows|
        invariant index == TitleGame(rows[..i], c)
      {
        var row := rows[i];
        assert rows[..i + 1][..i] == rows[..i];
        if !row.homePresent || !row.awayPresent || !row.isPlayoff { continue; }
        if !SamePair(row.homeRosterID, row.awayRosterID, c.first, c.second) { continue; }
        if index == -1 || row.week > rows[index].week {
          index := i;
        }
      }
      assert rows[..|rows|] == rows;
    }
  }

  // ---- labels ----

  function LastWeek(rows: seq<MatchupRow>): int {
    if rows == [] then 0
    else
      var w := LastWeek(rows[..|rows| - 1]);
      if rows[|rows| - 1].week > w then rows[|rows| - 1].week else w
  }

  function PlayoffRound(currentWeek: int, lastWeek: int): int {
    if lastWeek - currentWeek == 2 then 1 else if lastWeek - currentWeek == 1 then 2 else 0
  }

  function Fallback(value: string, fallback: string): string {
    if TrimSpace(value) == "" then fallback else TrimSpace(value)
  }

  function TypeLabel(isPlayoff: bool, isChampionship: bool, matchupType: string, week: int, lastWeek: int, hasOpponent: bool): string {
    if !hasOpponent then "BYE Week"
    else if isChampionship then "Championship"
    else if isPlayoff && matchupType == "WINNERS_BRACKET" then
      var round := PlayoffRound(week, lastWeek);
      if round == 0 then "Placement Game" else "Playoffs Round " + Points.SignedDecimal(round)
    else if isPlayoff then Fallback(matchupType, "Playoffs")
    else "Regular Season"
  }

  function LabelRow(row: MatchupRow, isChampionship: bool, c: Resolution, lastWeek: int): MatchupRow {
    var decided := if isChampionship
      then row.(homeWinner := row.homeRosterID == c.winner, awayWinner := row.awayRosterID == c.winner)
      else row;
    decided.(
      isChampionship := isChampionship,
      typeLabel := TypeLabel(row.isPlayoff, isChampionship, row.matchupType, row.week, lastWeek, Played(row)))
  }

  function Labelled(rows: seq<MatchupRow>, index: int, c: Resolution): (r: seq<MatchupRow>)
    ensures |r| == |rows|
  {
    seq(|rows|, k requires 0 <= k < |rows| => LabelRow(rows[k], k == index, c, LastWeek(rows)))
  }

  method LastMatchupRowWeek(rows: array<MatchupRow>) returns (lastWeek: int)
    ensures lastWeek == LastWeek(rows[..])
  {
    lastWeek := 0;
    for i := 0 to rows.Length
      invariant lastWeek == LastWeek(rows[..i])
    {
      assert rows[..i + 1][..i] == rows[..i];
      if rows[i].week > lastWeek {
        lastWeek := rows[i].week;
      }
    }
    assert rows[..rows.Length] == rows[..];
  }

  /** Labels the rows in place. */
  method FinalizeSleeperMatchupLabels(rows: array<MatchupRow>, c: Resolution) returns (ghost index: int)
    modifies rows
    ensures IsTitleIndex(old(rows[..]), c, index)
    ensures rows[..] == Labelled(old(rows[..]), index, c)
  {
    var lastWeek := LastMatchupRowWeek(rows);
    var championshipIndex := LocateTitleGame(rows[..], c);
    ghost var before := rows[..];
    for i := 0 to rows.Length
      invariant forall k :: 0 <= k < i ==> rows[k] == LabelRow(before[k], k == championshipIndex, c, lastWeek)
      invariant forall k :: i <= k < rows.Length ==> rows[k] == before[k]
    {
      var row := rows[i];
      var isChampionship := i == championshipIndex;
      if isChampionship {
        row := row.(homeWinner := row.homeRosterID == c.winner, awayWinner := row.awayRosterID == c.winner);
      }
      row := row.(isChampionship := isChampionship);
      row := row.(typeLabel := TypeLabel(row.isPlayoff, isChampionship, row.matchupType, row.week, lastWeek, Played(row)));
      rows[i] := row;
    }
    index := championshipIndex;
    assert |rows[..]| == |before|;
  }

  // ---- the schedule ----

  predicate BySchedule(a: MatchupRow, b: MatchupRow) {
    if a.week != b.week then a.week < b.week else Less(a.homeTeamName, b.homeTeamName)
  }

  lemma {:induction false} ByScheduleIsOrder()
    ensures StrictWeakOrder(BySchedule)
  {
    LessIsStrictTotal();
  }

  /** A schedule for these rows: cleared of inactive weeks, labelled, and sorted some way. */
  ghost predicate IsSchedule(view: seq<MatchupRow>, base: seq<MatchupRow>, index: int, c: Resolution) {
    IsTitleIndex(base, c, index) && Arranges(view, Labelled(base, index, c), BySchedule)
  }

  ghost function BaseRows(rows: seq<Matchup>, teams: seq<Team>, compare: Comparison): seq<MatchupRow> {
    var made := RowsOf(Games(rows), TeamsByRoster(teams), compare);
    OfActiveWeeks(made, made)
  }

  /** A view of these rows: some schedule labelled with the answer the data supports. */
  ghost predicate IsView(view: seq<MatchupRow>, rows: seq<Matchup>, teams: seq<Team>, brackets: seq<Bracket>, compare: Comparison) {
    exists index, c :: IsAnswer(brackets, teams, c) && IsSchedule(view, BaseRows(rows, teams, compare), index, c)
  }

  method NormalizeSleeperMatchups(rows: seq<Matchup>, teams: seq<Team>, brackets: seq<Bracket>, compare: Comparison)
    returns (view: seq<MatchupRow>)
    ensures IsView(view, rows, teams, brackets, compare)
  {
    var teamsByRosterID: map<int, Team> := map[];
    for i := 0 to |teams|
      invariant teamsByRosterID == TeamsByRoster(teams[..i])
    {
      assert teams[..i + 1][..i] == teams[..i];
      teamsByRosterID := teamsByRosterID[teams[i].rosterID := teams[i]];
    }
    assert teams[..|teams|] == teams;
    var championship := ResolveSleeperChampionship(brackets, teams);
    var games := PairRows(rows);
    var made := RowsOf(games, teamsByRosterID, compare);
    var filtered := FilterSleeperInactiveWeeks(made);
    var matchups := new MatchupRow[|filtered|](i requires 0 <= i < |filtered| => filtered[i]);
    assert matchups[..] == filtered;
    ghost var index := FinalizeSleeperMatchupLabels(matchups, championship);
    ByScheduleIsOrder();
    view := SortBy(matchups[..], BySchedule);
    assert IsSchedule(view, BaseRows(rows, teams, compare), index, championship);
  }
}
