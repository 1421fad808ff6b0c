/** What an ESPN row shows and what the statistics count of it, in terms of the database row
    (`cmd/api/matchups.go`, `cmd/api/stats.go`). */
module EspnScores {
  import opened EspnSeasons
  import opened Results
  import opened SleeperSchedule
  import opened SleeperScores
  import opened StatsCounts
  import opened StatsSeason
  import opened Text

  /** The last game, in the greatest week, between the teams that finished first and second, the
      first of them if there are several. */
  ghost predicate IsTitleRow(rows: seq<EspnRow>, i: int) {
    && 0 <= i < |rows| && FirstAgainstSecond(rows[i])
    && forall j :: 0 <= j < |rows| && FirstAgainstSecond(rows[j]) ==> rows[j].week < rows[i].week || (rows[j].week == rows[i].week && i <= j)
  }

  /** Both sides played in the winners bracket, and they finished first and second. */
  predicate FirstAgainstSecond(row: EspnRow) {
    && row.homePresent && row.awayPresent && row.isPlayoff && row.matchupType == "WINNERS_BRACKET"
    && {row.homeFinalStanding, row.awayFinalStanding} == {1, 2}
  }

  /** The side shows the row's team, owner and score; a side without a name is a bye. */
  predicate ShowsSide(name: string, owner: string, score: real, shownName: string, shownOwner: string, shownScore: string, format: real -> string) {
    && shownName == (if TrimSpace(name) == "" then "BYE" else TrimSpace(name)) && shownOwner == TrimSpace(owner) && shownScore == format(score)
  }

  /** The row of the view shows the database row, each side in its place. */
  predicate ShowsRow(row: EspnRow, v: MatchupRow, format: real -> string) {
    && v.week == row.week && v.isPlayoff == row.isPlayoff && v.matchupType == row.matchupType
    && v.homePresent == row.homePresent && v.awayPresent == row.awayPresent
    && ShowsSide(row.homeTeamName, row.homeTeamOwners, row.homeScore, v.homeTeamName, v.homeOwner, v.homeScore, format)
    && ShowsSide(row.awayTeamName, row.awayTeamOwners, row.awayScore, v.awayTeamName, v.awayOwner, v.awayScore, format)
  }

  /** In the title game the team that finished first has won, in any other game the one that
      scored more, and nobody without an opponent. */
  predicate EspnResult(row: EspnRow, v: MatchupRow) {
    if v.isChampionship
    then (v.homeWinner <==> row.homeFinalStanding == 1) && (v.awayWinner <==> row.awayFinalStanding == 1)
    else
      && (v.homeWinner <==> row.homePresent && row.awayPresent && row.homeScore > row.awayScore)
      && (v.awayWinner <==> row.homePresent && row.awayPresent && row.awayScore > row.homeScore)
  }

  lemma {:induction false} FinalistsAre(row: EspnRow)
    ensures FirstAgainstSecond(row) <==> IsFinalistsGame(row)
  {
    if {row.homeFinalStanding, row.awayFinalStanding} == {1, 2} {
      assert 1 in {row.homeFinalStanding, row.awayFinalStanding} && 2 in {row.homeFinalStanding, row.awayFinalStanding};
    }
  }

  lemma {:induction false} TitleRowIs(rows: seq<EspnRow>, i: int)
    ensures IsTitleRow(rows, i) <==> i >= 0 && TitleIndex(rows) == Some(i)
  {
    forall j | 0 <= j < |rows| ensures FirstAgainstSecond(rows[j]) <==> IsFinalistsGame(rows[j]) { FinalistsAre(rows[j]); }
    var r := TitleIndex(rows);
    if IsTitleRow(rows, i) {
      assert rows[i].week <= rows[r.value].week;
      assert i == r.value;
    }
  }

  /** Every row of the ESPN view shows its database row; the championship is the title game, and the
      winners are those of the title game and of the points. */
  lemma {:induction false} EspnViewShows(rows: seq<EspnRow>, format: real -> string, view: seq<MatchupRow>, i: nat)
    requires IsEspnView(rows, format, view) && i < |rows|
    ensures |view| == |rows| && ShowsRow(rows[i], view[i], format) && EspnResult(rows[i], view[i])
    ensures view[i].isChampionship <==> IsTitleRow(rows, i)
  {
    TitleRowIs(rows, i);
  }

  lemma {:induction false} LastEspnWeekIs(rows: seq<EspnRow>, view: seq<MatchupRow>)
    requires |view| == |rows| && forall i :: 0 <= i < |rows| ==> view[i].week == rows[i].week
    ensures LastWeek(view) == LastEspnWeek(rows)
    decreases |rows|
  {
    if rows != [] {
      LastEspnWeekIs(rows[..|rows| - 1], view[..|view| - 1]);
    }
  }

  /** Every row is labelled for what it is, by its distance from the greatest week. */
  lemma {:induction false} EspnLabels(rows: seq<EspnRow>, format: real -> string, view: seq<MatchupRow>, i: nat)
    requires IsEspnView(rows, format, view) && i < |rows|
    ensures IsLabel(view[i], LastWeek(view), view[i].typeLabel)
  {
    LastEspnWeekIs(rows, view);
    RoundNumbers();
  }

  /** The statistics count each side's own owner, name and exact points. */
  ghost predicate CountsRow(row: EspnRow, m: MatchupInput) {
    && m.week == row.week && m.isPlayoff == row.isPlayoff && m.matchupType == row.matchupType
    && m.homePresent == row.homePresent && m.awayPresent == row.awayPresent
    && m.homeOwner == TrimSpace(row.homeTeamOwners) && m.homeTeamName == row.homeTeamName && m.homeScore as real == row.homeScore * 100.0
    && m.awayOwner == TrimSpace(row.awayTeamOwners) && m.awayTeamName == row.awayTeamName && m.awayScore as real == row.awayScore * 100.0
  }

  /** Every game counts as its row says; between the finalists the champion has won, whatever the
      points, and otherwise the side that scored more. */
  lemma {:induction false} EspnGameCounts(rows: seq<EspnRow>, ms: seq<MatchupInput>, i: nat)
    requires AreEspnInputs(rows, ms) && i < |rows|
    ensures |ms| == |rows| && CountsRow(rows[i], ms[i])
    ensures ms[i].isChampionship <==> FirstAgainstSecond(rows[i])
    ensures HomeWon(ms[i]) <==> if FirstAgainstSecond(rows[i]) then rows[i].homeFinalStanding == 1 else rows[i].homeScore > rows[i].awayScore
    ensures AwayWon(ms[i]) <==> if FirstAgainstSecond(rows[i]) then rows[i].awayFinalStanding == 1 else rows[i].awayScore > rows[i].homeScore
  {
    FinalistsAre(rows[i]);
  }

  /** The season record of a team, its points a hundred to one. */
  predicate CountsTeam(t: EspnTeam, c: TeamInput) {
    && c.owner == TrimSpace(t.owners) && c.wins == t.wins && c.losses == t.losses && c.ties == t.ties
    && c.finalStanding == t.finalStanding && c.pointsFor == 100 * t.pointsFor && c.pointsAgainst == 100 * t.pointsAgainst
  }

  /** A season that can be read counts every team and every row, each as it is. */
  method ReadEspnSeason(year: int, teams: seq<EspnTeam>, rows: seq<EspnRow>) returns (r: Option<SeasonInput>)
    ensures r.Some? <==> forall i :: 0 <= i < |rows| ==> Converts(rows[i])
    ensures r.Some? ==> r.value.year == year && |r.value.teams| == |teams| && |r.value.matchups| == |rows|
    ensures r.Some? ==> forall i :: 0 <= i < |teams| ==> CountsTeam(teams[i], r.value.teams[i])
    ensures r.Some? ==> forall i :: 0 <= i < |rows| ==> CountsRow(rows[i], r.value.matchups[i])
  {
    r := NormalizeESPNStatsSeason(year, teams, rows);
    if r.Some? {
      forall i: nat | i < |rows| ensures CountsRow(rows[i], r.value.matchups[i]) { EspnGameCounts(rows, r.value.matchups, i); }
    }
  }
}
