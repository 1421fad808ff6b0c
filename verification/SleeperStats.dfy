/** A Sleeper season as statistics input (`normalizeSleeperStatsSeason` in `cmd/api/stats.go`),
    and where its title goes. */
module SleeperStats {
  import opened OwnerNames
  import opened Results
  import opened SleeperPairing
  import opened SleeperSchedule
  import opened SleeperView
  import opened StatsSeason
  import opened StatsTally
  import opened Text
  import Points
  import SleeperTitle

  datatype SeasonError =
    | BadTeamPoints(rosterID: int)
    | BadScore(week: int)

  // ---- owners and points ----

  /** The identifier handed to the rollup, not yet made canonical. */
  function OwnerKey(team: Team): string {
    if TrimSpace(team.ownerID) != "" then TrimSpace(team.ownerID)
    else if TrimSpace(team.displayName) != "" then TrimSpace(team.displayName)
    else TrimSpace(team.username)
  }

  function RowOwnerKey(team: Team, fallback: string): string {
    if OwnerKey(team) != "" then OwnerKey(team) else TrimSpace(fallback)
  }

  /** The row's own label never adds anything: it is blank whenever the key is. */
  lemma {:induction false} FallbackNeverHelps(team: Team)
    ensures RowOwnerKey(team, OwnerLabel(team)) == OwnerKey(team)
  {
    assert TrimSpace("") == "";
  }

  /** The string is a points value that fits, and `h` is that value in hundredths. */
  ghost predicate Reads(value: string, h: int) {
    Points.Denotes(value, h) && Points.MIN_INT64 <= h <= Points.MAX_INT64
  }

  /** Blank stands for zero on an absent side, and for nothing on a present one. */
  ghost predicate ReadsOptional(value: string, present: bool, h: int) {
    if TrimSpace(value) == "" then !present && h == 0 else Reads(value, h)
  }

  method ParsePoints(value: string) returns (r: Option<int>)
    ensures forall h :: r == Some(h) <==> Reads(value, h)
  {
    var parsed := Points.ParsePoints(value);
    match parsed {
      case Ok(v) => r := Some(v as int);
      case Err(_) => r := None;
    }
    forall h ensures r == Some(h) <==> Reads(value, h) {
      assert (parsed.Ok? && parsed.value as int == h) <==> Reads(value, h);
    }
  }

  method ParseOptionalStatsPoints(value: string, present: bool) returns (r: Option<int>)
    ensures forall h :: r == Some(h) <==> ReadsOptional(value, present, h)
  {
    if TrimSpace(value) == "" {
      r := if present then None else Some(0);
    } else {
      r := ParsePoints(value);
    }
  }

  // ---- teams ----

  ghost predicate IsTeamInput(row: Team, t: TeamInput) {
    && t.owner == OwnerKey(row)
    && t.wins == row.wins && t.losses == row.losses && t.ties == row.ties && t.finalStanding == row.finalStanding
    && Reads(row.pointsFor, t.pointsFor) && Reads(row.pointsAgainst, t.pointsAgainst)
  }

  ghost predicate TeamReads(row: Team) {
    (exists h :: Reads(row.pointsFor, h)) && (exists h :: Reads(row.pointsAgainst, h))
  }

  ghost predicate AreTeamInputs(rows: seq<Team>, teams: seq<TeamInput>) {
    |teams| == |rows| && forall i :: 0 <= i < |rows| ==> IsTeamInput(rows[i], teams[i])
  }

  ghost predicate AllTeamsRead(rows: seq<Team>) {
    forall i :: 0 <= i < |rows| ==> TeamReads(rows[i])
  }

  method TeamInputOf(row: Team) returns (r: Result<TeamInput, SeasonError>)
    ensures r.Ok? ==> IsTeamInput(row, r.value)
    ensures r.Err? ==> !TeamReads(row)
  {
    var pointsFor := ParsePoints(row.pointsFor);
    if pointsFor.None? { return Err(BadTeamPoints(row.rosterID)); }
    var pointsAgainst := ParsePoints(row.pointsAgainst);
    if pointsAgainst.None? { return Err(BadTeamPoints(row.rosterID)); }
    r := Ok(TeamInput(OwnerKey(row), row.wins, row.losses, row.ties, row.finalStanding, pointsFor.value, pointsAgainst.value));
  }

  method TeamInputs(rows: seq<Team>) returns (r: Result<seq<TeamInput>, SeasonError>)
    ensures r.Ok? ==> AreTeamInputs(rows, r.value)
    ensures r.Err? ==> !AllTeamsRead(rows)
  {
    var teams: seq<TeamInput> := [];
    for i := 0 to |rows|
      invariant AreTeamInputs(rows[..i], teams)
    {
      var input := TeamInputOf(rows[i]);
      if input.Err? { return Err(input.error); }
      TeamsGrow(rows, i, teams, input.value);
      teams := teams + [input.value];
    }
    assert rows[..|rows|] == rows;
    r := Ok(teams);
  }

  lemma {:induction false} TeamsGrow(rows: seq<Team>, i: nat, teams: seq<TeamInput>, t: TeamInput)
    requires i < |rows| && AreTeamInputs(rows[..i], teams) && IsTeamInput(rows[i], t)
    ensures AreTeamInputs(rows[..i + 1], teams + [t])
  {
    forall j | 0 <= j < i + 1 ensures IsTeamInput(rows[..i + 1][j], (teams + [t])[j]) {
      if j < i { assert IsTeamInput(rows[..i][j], teams[j]); }
    }
  }

  lemma {:induction false} TeamInputsAreRead(rows: seq<Team>, teams: seq<TeamInput>)
    requires AreTeamInputs(rows, teams)
    ensures AllTeamsRead(rows)
  {
    forall i | 0 <= i < |rows| ensures TeamReads(rows[i]) {
      assert IsTeamInput(rows[i], teams[i]);
    }
  }

  // ---- matchups ----

  /** Which side the resolution names as winner of this row. */
  function OfficialWinner(row: MatchupRow, c: Resolution): Winner {
    if c.winner == row.homeRosterID then WinnerHome
    else if c.winner == row.awayRosterID then WinnerAway
    else WinnerUnknown
  }

  ghost predicate IsMatchupInput(row: MatchupRow, teams: map<int, Team>, flagged: bool, c: Resolution, m: MatchupInput) {
    && m.week == row.week && m.homePresent == row.homePresent && m.awayPresent == row.awayPresent
    && m.homeOwner == RowOwnerKey(TeamAt(teams, row.homeRosterID), row.homeOwner)
    && m.awayOwner == RowOwnerKey(TeamAt(teams, row.awayRosterID), row.awayOwner)
    && m.homeTeamName == row.homeTeamName && m.awayTeamName == row.awayTeamName
    && ReadsOptional(row.homeScore, row.homePresent, m.homeScore)
    && ReadsOptional(row.awayScore, row.awayPresent, m.awayScore)
    && m.isPlayoff == row.isPlayoff && m.matchupType == row.matchupType
    && m.isChampionship == flagged
    && m.championshipWinner == if flagged then OfficialWinner(row, c) else WinnerUnknown
  }

  ghost predicate RowReads(row: MatchupRow) {
    (exists h :: ReadsOptional(row.homeScore, row.homePresent, h)) && (exists h :: ReadsOptional(row.awayScore, row.awayPresent, h))
  }

  ghost predicate AreMatchupInputs(view: seq<MatchupRow>, teams: map<int, Team>, k: int, c: Resolution, ms: seq<MatchupInput>) {
    |ms| == |view| && forall i :: 0 <= i < |view| ==> IsMatchupInput(view[i], teams, i == k, c, ms[i])
  }

  method MatchupInputOf(row: MatchupRow, teams: map<int, Team>, flagged: bool, c: Resolution) returns (r: Result<MatchupInput, SeasonError>)
    ensures r.Ok? ==> IsMatchupInput(row, teams, flagged, c, r.value)
    ensures r.Err? ==> !RowReads(row)
  {
    var homeScore := ParseOptionalStatsPoints(row.homeScore, row.homePresent);
    if homeScore.None? { return Err(BadScore(row.week)); }
    assert ReadsOptional(row.homeScore, row.homePresent, homeScore.value);
    var awayScore := ParseOptionalStatsPoints(row.awayScore, row.awayPresent);
    if awayScore.None? { return Err(BadScore(row.week)); }
    assert ReadsOptional(row.awayScore, row.awayPresent, awayScore.value);
    var input := MatchupInput(row.week, row.homePresent, row.awayPresent,
      RowOwnerKey(TeamAt(teams, row.homeRosterID), row.homeOwner), row.homeTeamName, homeScore.value,
      RowOwnerKey(TeamAt(teams, row.awayRosterID), row.awayOwner), row.awayTeamName, awayScore.value,
      row.isPlayoff, false, WinnerUnknown, row.matchupType);
    if flagged {
      input := input.(isChampionship := true);
      if c.winner == row.homeRosterID {
        input := input.(championshipWinner := WinnerHome);
      } else if c.winner == row.awayRosterID {
        input := input.(championshipWinner := WinnerAway);
      }
    }
    r := Ok(input);
  }

  lemma {:induction false} InputsGrow(view: seq<MatchupRow>, i: nat, teams: map<int, Team>, k: int, c: Resolution, ms: seq<MatchupInput>, m: MatchupInput)
    requires i < |view| && AreMatchupInputs(view[..i], teams, k, c, ms) && IsMatchupInput(view[i], teams, i == k, c, m)
    ensures AreMatchupInputs(view[..i + 1], teams, k, c, ms + [m])
  {
    forall j | 0 <= j < i + 1 ensures IsMatchupInput(view[..i + 1][j], teams, j == k, c, (ms + [m])[j]) {
      if j < i { assert IsMatchupInput(view[..i][j], teams, j == k, c, ms[j]); }
    }
  }

  ghost predicate AllRowsRead(view: seq<MatchupRow>) {
    forall i :: 0 <= i < |view| ==> RowReads(view[i])
  }

  lemma {:induction false} InputsAreRead(view: seq<MatchupRow>, teams: map<int, Team>, k: int, c: Resolution, ms: seq<MatchupInput>)
    requires AreMatchupInputs(view, teams, k, c, ms)
    ensures AllRowsRead(view)
  {
    forall i | 0 <= i < |view| ensures RowReads(view[i]) {
      assert IsMatchupInput(view[i], teams, i == k, c, ms[i]);
    }
  }

  method NextInput(view: seq<MatchupRow>, teams: map<int, Team>, k: int, c: Resolution, i: nat, ms: seq<MatchupInput>)
    returns (r: Result<seq<MatchupInput>, SeasonError>)
    requires i < |view| && AreMatchupInputs(view[..i], teams, k, c, ms)
    ensures r.Ok? ==> AreMatchupInputs(view[..i + 1], teams, k, c, r.value)
    ensures r.Err? ==> !RowReads(view[i])
  {
    var input := MatchupInputOf(view[i], teams, i == k, c);
    if input.Err? { return Err(input.error); }
    InputsGrow(view, i, teams, k, c, ms, input.value);
    r := Ok(ms + [input.value]);
  }

  method MatchupInputs(view: seq<MatchupRow>, teams: map<int, Team>, k: int, c: Resolution) returns (r: Result<seq<MatchupInput>, SeasonError>)
    ensures r.Ok? ==> AreMatchupInputs(view, teams, k, c, r.value)
    ensures r.Err? ==> !AllRowsRead(view)
  {
    r := Ok([]);
    for i := 0 to |view|
      invariant r.Ok? && AreMatchupInputs(view[..i], teams, k, c, r.value)
    {
      r := NextInput(view, teams, k, c, i, r.value);
      if r.Err? { return; }
    }
    assert view[..|view|] == view;
  }

  // ---- the season ----

  /** What the season is made from: its schedule, where the title game stands in it, and the inputs. */
  datatype Built = Built(view: seq<MatchupRow>, viewIndex: int, titleIndex: int, answer: Resolution)

  ghost predicate BuiltFrom(b: Built, rows: seq<Matchup>, teams: seq<Team>, brackets: seq<Bracket>, compare: Comparison) {
    && IsAnswer(brackets, teams, b.answer)
    && IsSchedule(b.view, BaseRows(rows, teams, compare), b.viewIndex, b.answer)
    && IsTitleIndex(b.view, b.answer, b.titleIndex)
  }

  ghost predicate IsSeason(b: Built, teams: seq<Team>, season: SeasonInput) {
    && AreTeamInputs(teams, season.teams)
    && AreMatchupInputs(b.view, TeamsByRoster(teams), b.titleIndex, b.answer, season.matchups)
  }

  /** The season is what these rows give: for some schedule that the view may show. */
  ghost predicate IsSleeperSeason(season: SeasonInput, rows: seq<Matchup>, teams: seq<Team>, brackets: seq<Bracket>, compare: Comparison) {
    exists b :: BuiltFrom(b, rows, teams, brackets, compare) && IsSeason(b, teams, season)
  }

  method NormalizeSleeperStatsSeason(year: int, teams: seq<Team>, rows: seq<Matchup>, brackets: seq<Bracket>, compare: Comparison)
    returns (r: Result<SeasonInput, SeasonError>)
    ensures r.Ok? ==> r.value.year == year && IsSleeperSeason(r.value, rows, teams, brackets, compare)
    ensures r.Ok? <==> AllTeamsRead(teams) && AllRowsRead(BaseRows(rows, teams, compare))
  {
    var teamInputs := TeamInputs(teams);
    if teamInputs.Err? { return Err(teamInputs.error); }
    TeamInputsAreRead(teams, teamInputs.value);
    var view := NormalizeSleeperMatchups(rows, teams, brackets, compare);
    var teamsByRosterID := TeamsByRoster(teams);
    var answer := ResolveSleeperChampionship(brackets, teams);
    var titleIndex := LocateTitleGame(view, answer);
    ghost var viewIndex := ViewIndex(view, rows, teams, brackets, compare, answer);
    ViewReads(view, BaseRows(rows, teams, compare), viewIndex, answer);
    var matchups := MatchupInputs(view, teamsByRosterID, titleIndex, answer);
    if matchups.Err? { return Err(matchups.error); }
    InputsAreRead(view, teamsByRosterID, titleIndex, answer, matchups.value);
    r := Ok(SeasonInput(year, teamInputs.value, matchups.value));
    ghost var b := Built(view, viewIndex, titleIndex, answer);
    assert BuiltFrom(b, rows, teams, brackets, compare) && IsSeason(b, teams, r.value);
  }

  lemma {:induction false} ViewIndex(view: seq<MatchupRow>, rows: seq<Matchup>, teams: seq<Team>, brackets: seq<Bracket>,
                                     compare: Comparison, answer: Resolution)
    returns (index: int)
    requires IsView(view, rows, teams, brackets, compare) && IsAnswer(brackets, teams, answer)
    ensures IsSchedule(view, BaseRows(rows, teams, compare), index, answer)
  {
    var i, c :| IsAnswer(brackets, teams, c) && IsSchedule(view, BaseRows(rows, teams, compare), i, c);
    AnswerUnique(brackets, teams, answer, c);
    index := i;
  }

  lemma {:induction false} LabelKeepsScores(row: MatchupRow, flagged: bool, c: Resolution, lastWeek: int)
    ensures RowReads(LabelRow(row, flagged, c, lastWeek)) <==> RowReads(row)
  {
  }

  /** Labelling and sorting change no score, so a view can be read when its rows can. */
  lemma {:induction false} ViewReads(view: seq<MatchupRow>, base: seq<MatchupRow>, index: int, c: Resolution)
    requires IsSchedule(view, base, index, c)
    ensures AllRowsRead(view) <==> AllRowsRead(base)
  {
    var l := Labelled(base, index, c);
    forall m | 0 <= m < |base| ensures RowReads(l[m]) <==> RowReads(base[m]) {
      LabelKeepsScores(base[m], m == index, c, LastWeek(base));
    }
    if AllRowsRead(base) { SameRowsRead(l, view); }
    if AllRowsRead(view) {
      SameRowsRead(view, l);
      forall m | 0 <= m < |base| ensures RowReads(base[m]) { assert RowReads(l[m]); }
    }
  }

  lemma {:induction false} SameRowsRead(a: seq<MatchupRow>, b: seq<MatchupRow>)
    requires multiset(a) == multiset(b) && AllRowsRead(a)
    ensures AllRowsRead(b)
  {
    forall i | 0 <= i < |b| ensures RowReads(b[i]) {
      assert b[i] in multiset(a);
      var m :| 0 <= m < |a| && a[m] == b[i];
    }
  }

  // ---- where the title goes ----

  lemma {:induction false} FlaggedIsChampionship(ms: seq<MatchupInput>, k: int)
    requires forall i :: 0 <= i < |ms| ==> (ms[i].isChampionship <==> i == k)
    ensures Championship(ms) == if 0 <= k < |ms| && BothPresent(ms[k]) then Some(ms[k]) else None
  {
    var i := ChampionshipIndex(ms);
    assert 0 <= k < |ms| && BothPresent(ms[k]) ==> ChampionshipCandidate(ms[k]);
    assert i.Some? ==> ms[i.value].isChampionship;
  }

  /** The owner named in the row for a roster is the key of that roster's team. */
  lemma {:induction false} ViewOwner(rows: seq<Matchup>, teams: seq<Team>, compare: Comparison, index: int, c: Resolution,
                                     view: seq<MatchupRow>, k: int)
    requires IsSchedule(view, BaseRows(rows, teams, compare), index, c) && 0 <= k < |view|
    ensures view[k].homeOwner == OwnerLabel(TeamAt(TeamsByRoster(teams), view[k].homeRosterID))
    ensures view[k].awayPresent ==> view[k].awayOwner == OwnerLabel(TeamAt(TeamsByRoster(teams), view[k].awayRosterID))
  {
    var base := BaseRows(rows, teams, compare);
    var l := Labelled(base, index, c);
    assert view[k] in multiset(l);
    var m :| 0 <= m < |l| && l[m] == view[k];
    var g := SleeperTitle.BaseRowIsOfGame(rows, teams, compare, base[m]);
    LabelKeepsOwners(base[m], m == index, c, LastWeek(base));
  }

  lemma {:induction false} LabelKeepsOwners(row: MatchupRow, flagged: bool, c: Resolution, lastWeek: int)
    ensures var l := LabelRow(row, flagged, c, lastWeek);
      && l.homeOwner == row.homeOwner && l.awayOwner == row.awayOwner && l.awayPresent == row.awayPresent
      && l.homeRosterID == row.homeRosterID && l.awayRosterID == row.awayRosterID
  {
  }

  lemma {:induction false} OfficialWinnerWins(row: MatchupRow, teams: map<int, Team>, c: Resolution, m: MatchupInput)
    requires TitleMeeting(row, c) && IsMatchupInput(row, teams, true, c, m)
    requires row.homeOwner == OwnerLabel(TeamAt(teams, row.homeRosterID)) && row.awayOwner == OwnerLabel(TeamAt(teams, row.awayRosterID))
    ensures ResultWinner(m) == OfficialWinner(row, c) != WinnerUnknown
    ensures WinnerOwner(m) == OwnerKey(TeamAt(teams, c.winner))
  {
    FallbackNeverHelps(TeamAt(teams, c.winner));
  }

  /** In the season's inputs at most one game is the championship: the title game found in the
      schedule. Its winner is the official one, whatever the score, and the owner it names is
      the key of the winning roster's team. */
  lemma {:induction false} TitleGameOfSeason(b: Built, rows: seq<Matchup>, teams: seq<Team>, brackets: seq<Bracket>, compare: Comparison, season: SeasonInput)
    requires BuiltFrom(b, rows, teams, brackets, compare) && IsSeason(b, teams, season)
    ensures b.titleIndex == -1 ==> Championship(season.matchups) == None
    ensures b.titleIndex != -1 ==>
      && 0 <= b.titleIndex < |season.matchups|
      && Championship(season.matchups) == Some(season.matchups[b.titleIndex])
      && ResultWinner(season.matchups[b.titleIndex]) == OfficialWinner(b.view[b.titleIndex], b.answer) != WinnerUnknown
      && WinnerOwner(season.matchups[b.titleIndex]) == OwnerKey(TeamAt(TeamsByRoster(teams), b.answer.winner))
  {
    var k, ms := b.titleIndex, season.matchups;
    forall i | 0 <= i < |ms| ensures ms[i].isChampionship <==> i == k {
      assert IsMatchupInput(b.view[i], TeamsByRoster(teams), i == k, b.answer, ms[i]);
    }
    FlaggedIsChampionship(ms, k);
    if k != -1 {
      assert LatestMeeting(b.view, b.answer, k);
      assert IsMatchupInput(b.view[k], TeamsByRoster(teams), k == k, b.answer, ms[k]);
      ViewOwner(rows, teams, compare, b.viewIndex, b.answer, b.view, k);
      OfficialWinnerWins(b.view[k], TeamsByRoster(teams), b.answer, ms[k]);
    }
  }

  ghost predicate AreCanonical(ms: seq<MatchupInput>, ns: seq<MatchupInput>, aliases: Aliases) {
    |ns| == |ms| && forall i :: 0 <= i < |ms| ==> ns[i] == CanonicalMatchup(ms[i], aliases)
  }

  lemma {:induction false} SeasonIsCanonical(season: SeasonInput, aliases: Aliases)
    ensures AreCanonical(season.matchups, Canonical(season, aliases).matchups, aliases)
  {
  }

  lemma {:induction false} CanonicalChampionship(ms: seq<MatchupInput>, ns: seq<MatchupInput>, aliases: Aliases)
    requires AreCanonical(ms, ns, aliases)
    ensures Championship(ns) == match Championship(ms) case None => None case Some(m) => Some(CanonicalMatchup(m, aliases))
  {
    ChampionshipIgnoresOwners(ms, ns);
  }

  /** One title for the canonical name of `winner`, if there is a winner and the name is not blank. */
  function TitleFor(winner: Option<string>, aliases: Aliases): seq<Credit> {
    if winner.Some? && NormalizeOwner(winner.value, aliases) != "" then [Credit(NormalizeOwner(winner.value, aliases), Titles, 1)] else []
  }

  /** The championship among these games is won by `winner`, or there is none. */
  ghost predicate NamesWinner(ms: seq<MatchupInput>, winner: Option<string>) {
    match winner
    case None => Championship(ms).None?
    case Some(owner) =>
      && Championship(ms).Some? && ResultWinner(Championship(ms).value) != WinnerUnknown
      && WinnerOwner(Championship(ms).value) == owner
  }

  lemma {:induction false} CanonicalTitle(ms: seq<MatchupInput>, ns: seq<MatchupInput>, aliases: Aliases, winner: Option<string>)
    requires AreCanonical(ms, ns, aliases) && NamesWinner(ms, winner)
    ensures TitleCredits(ns) == TitleFor(winner, aliases)
  {
    CanonicalChampionship(ms, ns, aliases);
  }

  ghost function WinningOwner(b: Built, teams: seq<Team>): Option<string> {
    if b.titleIndex == -1 then None else Some(OwnerKey(TeamAt(TeamsByRoster(teams), b.answer.winner)))
  }

  lemma {:induction false} SeasonNamesWinner(b: Built, rows: seq<Matchup>, teams: seq<Team>, brackets: seq<Bracket>, compare: Comparison, season: SeasonInput)
    requires BuiltFrom(b, rows, teams, brackets, compare) && IsSeason(b, teams, season)
    ensures NamesWinner(season.matchups, WinningOwner(b, teams))
  {
    TitleGameOfSeason(b, rows, teams, brackets, compare, season);
  }

  /** The season's single title goes to the canonical owner of the official winner's roster if
      that roster has a named owner, and to nobody if there is no title game. */
  lemma {:induction false} TitleCredited(b: Built, rows: seq<Matchup>, teams: seq<Team>, brackets: seq<Bracket>, compare: Comparison,
                                         season: SeasonInput, aliases: Aliases)
    requires BuiltFrom(b, rows, teams, brackets, compare) && IsSeason(b, teams, season)
    ensures TitleCredits(Canonical(season, aliases).matchups) == TitleFor(WinningOwner(b, teams), aliases)
  {
    SeasonNamesWinner(b, rows, teams, brackets, compare, season);
    SeasonIsCanonical(season, aliases);
    CanonicalTitle(season.matchups, Canonical(season, aliases).matchups, aliases, WinningOwner(b, teams));
  }

  /** When the title pair meets once in its last playoff week, the row the view shows as the
      championship is the game the statistics count, and both name the same side as winner. */
  lemma {:induction false} ViewAndStatisticsNameOneChampion(b: Built, rows: seq<Matchup>, teams: seq<Team>, brackets: seq<Bracket>,
                                                            compare: Comparison, season: SeasonInput)
    requires BuiltFrom(b, rows, teams, brackets, compare) && IsSeason(b, teams, season)
    requires SleeperTitle.OneLatestMeeting(BaseRows(rows, teams, compare), b.answer)
    ensures forall i :: 0 <= i < |b.view| ==> (b.view[i].isChampionship <==> season.matchups[i].isChampionship)
    ensures forall i :: 0 <= i < |b.view| && b.view[i].isChampionship ==>
      && (b.view[i].homeWinner <==> ResultWinner(season.matchups[i]) == WinnerHome)
      && (b.view[i].awayWinner <==> ResultWinner(season.matchups[i]) == WinnerAway)
  {
    var base := BaseRows(rows, teams, compare);
    SleeperTitle.OneMeetingAgrees(base, b.viewIndex, b.answer, b.view, b.titleIndex);
    SleeperTitle.OneChampionshipOneWinner(b.view, base, b.viewIndex, b.answer);
    TitleGameOfSeason(b, rows, teams, brackets, compare, season);
    forall i | 0 <= i < |b.view|
      ensures b.view[i].isChampionship <==> season.matchups[i].isChampionship
    {
      assert IsMatchupInput(b.view[i], TeamsByRoster(teams), i == b.titleIndex, b.answer, season.matchups[i]);
    }
  }
}
