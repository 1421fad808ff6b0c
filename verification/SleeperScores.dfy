/** What a Sleeper row shows and what the statistics count of it, in terms of the tables it was
    made from (`cmd/api/matchups.go`, `cmd/api/stats.go`). */
module SleeperScores {
  import opened Results
  import opened SleeperPairing
  import opened SleeperSchedule
  import opened SleeperStats
  import opened SleeperView
  import opened StatsSeason
  import opened Text
  import Points
  import SleeperTitle

  // ---- games are made of rows ----

  lemma {:induction false} OtherIsRow(rows: seq<Matchup>, row: Matchup)
    ensures FirstOther(rows, row).Some? ==> FirstOther(rows, row).value in rows && IsOther(FirstOther(rows, row).value, row)
    decreases |rows|
  {
    if rows != [] && !IsOther(rows[0], row) {
      OtherIsRow(rows[1..], row);
    }
  }

  lemma {:induction false} OpponentIsRow(rows: seq<Matchup>, row: Matchup)
    ensures OpponentOf(rows, row).Some? ==> OpponentOf(rows, row).value in rows && SameGroup(OpponentOf(rows, row).value, row)
  {
    OtherIsRow(rows, row);
    if row.opponent.Some? { ByKeyFinds(rows, LinkKey(row)); }
  }

  /** Both sides are rows of the table, of one week and one matchup id. */
  ghost predicate MadeOf(g: Game, rows: seq<Matchup>) {
    g.home in rows && (g.away.Some? ==> g.away.value in rows && SameGroup(g.home, g.away.value))
  }

  lemma {:induction false} GamesAreMade(rows: seq<Matchup>, i: nat, handled: set<Key>)
    ensures forall g :: g in GamesFrom(rows, i, handled) ==> MadeOf(g, rows)
    decreases |rows| - i
  {
    if i < |rows| {
      if KeyOf(rows[i]) in handled {
        GamesAreMade(rows, i + 1, handled);
      } else {
        OpponentIsRow(rows, rows[i]);
        GamesAreMade(rows, i + 1, Handle(handled, rows[i], OpponentOf(rows, rows[i])));
      }
    }
  }

  // ---- what a row shows ----

  /** The points shown for a table row: the custom ones unless blank, else the scored ones. */
  predicate IsScoreOf(r: Matchup, score: string) {
    if r.customPoints.None? || TrimSpace(r.customPoints.value) == "" then score == TrimSpace(r.points)
    else score == TrimSpace(r.customPoints.value)
  }

  /** The side of the row that shows this roster shows what the tables say of it. */
  ghost predicate ShowsRoster(rows: seq<Matchup>, teams: seq<Team>, week: int, rosterID: int, score: string, owner: string, teamName: string) {
    && (exists r :: r in rows && r.week == week && r.rosterID == rosterID && IsScoreOf(r, score))
    && ShowsTeam(teams, rosterID, owner, teamName)
  }

  /** The last team of the roster gives the labels; a roster without team is shown by its number. */
  ghost predicate ShowsTeam(teams: seq<Team>, rosterID: int, owner: string, teamName: string) {
    var t := TeamAt(TeamsByRoster(teams), rosterID);
    && (TrimSpace(t.teamName) != "" ==> teamName == TrimSpace(t.teamName))
    && (TrimSpace(t.teamName) == "" ==> teamName == RosterLabel(rosterID))
    && FirstNamed([t.displayName, t.username, t.ownerID], owner)
  }

  /** The first of the names that is not blank, trimmed; blank if all are. */
  ghost predicate FirstNamed(names: seq<string>, name: string) {
    || (name == "" && forall i :: 0 <= i < |names| ==> TrimSpace(names[i]) == "")
    || exists i :: 0 <= i < |names| && name == TrimSpace(names[i]) && name != "" && forall j :: 0 <= j < i ==> TrimSpace(names[j]) == ""
  }

  /** What any row of a schedule shows, before or after labelling. */
  ghost predicate ShowsGame(rows: seq<Matchup>, teams: seq<Team>, compare: Comparison, row: MatchupRow) {
    && row.homePresent
    && ShowsRoster(rows, teams, row.week, row.homeRosterID, row.homeScore, row.homeOwner, row.homeTeamName)
    && (row.awayPresent ==> ShowsRoster(rows, teams, row.week, row.awayRosterID, row.awayScore, row.awayOwner, row.awayTeamName))
    && (!row.awayPresent ==> row.awayTeamName == "BYE" && row.awayOwner == "" && row.awayScore == "")
    && (exists r :: r in rows && r.week == row.week && r.rosterID == row.homeRosterID && r.isPlayoff == row.isPlayoff && r.matchupType == row.matchupType)
  }

  /** The side whose score compares greater has won; nobody has without an opponent. */
  ghost predicate ShowsResult(compare: Comparison, row: MatchupRow) {
    && (row.homeWinner <==> row.awayPresent && compare(row.homeScore, row.awayScore) > 0)
    && (row.awayWinner <==> row.awayPresent && compare(row.awayScore, row.homeScore) > 0)
  }

  lemma {:induction false} LastTeam(teams: seq<Team>, rosterID: int)
    ensures rosterID in TeamsByRoster(teams) ==> TeamsByRoster(teams)[rosterID] in teams && TeamsByRoster(teams)[rosterID].rosterID == rosterID
    ensures rosterID !in TeamsByRoster(teams) ==> forall t :: t in teams ==> t.rosterID != rosterID
    decreases |teams|
  {
    if teams != [] {
      LastTeam(teams[..|teams| - 1], rosterID);
      assert teams == teams[..|teams| - 1] + [teams[|teams| - 1]];
    }
  }

  lemma {:induction false} LabelsShow(teams: seq<Team>, rosterID: int)
    ensures ShowsTeam(teams, rosterID, OwnerLabel(TeamAt(TeamsByRoster(teams), rosterID)), TeamLabel(TeamAt(TeamsByRoster(teams), rosterID), rosterID))
  {
    LastTeam(teams, rosterID);
    var t := TeamAt(TeamsByRoster(teams), rosterID);
    NamesInOrder(t.displayName, t.username, t.ownerID, OwnerLabel(t));
    BlankTeamName();
  }

  lemma {:induction false} BlankTeamName()
    ensures TrimSpace("") == ""
  {
  }

  lemma {:induction false} NamesInOrder(a: string, b: string, c: string, name: string)
    requires name == if TrimSpace(a) != "" then TrimSpace(a) else if TrimSpace(b) != "" then TrimSpace(b) else TrimSpace(c)
    ensures FirstNamed([a, b, c], name)
  {
    var names := [a, b, c];
    assert names[0] == a && names[1] == b && names[2] == c;
    if TrimSpace(a) == "" && TrimSpace(b) == "" && TrimSpace(c) == "" {
      assert forall i :: 0 <= i < |names| ==> TrimSpace(names[i]) == "";
    }
  }

  lemma {:induction false} GameShows(g: Game, rows: seq<Matchup>, teams: seq<Team>, compare: Comparison)
    requires MadeOf(g, rows)
    ensures ShowsGame(rows, teams, compare, RowOf(g, TeamsByRoster(teams), compare))
    ensures ShowsResult(compare, RowOf(g, TeamsByRoster(teams), compare))
  {
    LabelsShow(teams, g.home.rosterID);
    assert IsScoreOf(g.home, Score(g.home));
    if g.away.Some? {
      LabelsShow(teams, g.away.value.rosterID);
      assert IsScoreOf(g.away.value, Score(g.away.value));
    }
  }

  lemma {:induction false} BaseRowShows(rows: seq<Matchup>, teams: seq<Team>, compare: Comparison, row: MatchupRow)
    requires row in BaseRows(rows, teams, compare)
    ensures ShowsGame(rows, teams, compare, row) && ShowsResult(compare, row) && !row.isChampionship
  {
    var g := SleeperTitle.BaseRowIsOfGame(rows, teams, compare, row);
    GamesAreMade(rows, 0, {});
    GameShows(g, rows, teams, compare);
  }

  lemma {:induction false} LabelShows(rows: seq<Matchup>, teams: seq<Team>, compare: Comparison, row: MatchupRow, flagged: bool, c: Resolution, lastWeek: int)
    requires ShowsGame(rows, teams, compare, row) && ShowsResult(compare, row)
    ensures ShowsGame(rows, teams, compare, LabelRow(row, flagged, c, lastWeek))
    ensures !flagged ==> ShowsResult(compare, LabelRow(row, flagged, c, lastWeek))
  {
  }

  /** Every row of a view shows, for each roster on it, the points, owner and team name the tables
      hold for that roster and week; outside the championship the side with the greater score has won. */
  lemma {:induction false} ViewShows(view: seq<MatchupRow>, rows: seq<Matchup>, teams: seq<Team>, brackets: seq<Bracket>, compare: Comparison, i: nat)
    requires IsView(view, rows, teams, brackets, compare) && i < |view|
    ensures ShowsGame(rows, teams, compare, view[i])
    ensures !view[i].isChampionship ==> ShowsResult(compare, view[i])
  {
    var index, c :| IsAnswer(brackets, teams, c) && IsSchedule(view, BaseRows(rows, teams, compare), index, c);
    ScheduleShows(view, rows, teams, compare, index, c, i);
  }

  lemma {:induction false} ScheduleShows(view: seq<MatchupRow>, rows: seq<Matchup>, teams: seq<Team>, compare: Comparison, index: int, c: Resolution, i: nat)
    requires IsSchedule(view, BaseRows(rows, teams, compare), index, c) && i < |view|
    ensures ShowsGame(rows, teams, compare, view[i])
    ensures !view[i].isChampionship ==> ShowsResult(compare, view[i])
  {
    var base := BaseRows(rows, teams, compare);
    var l := Labelled(base, index, c);
    assert view[i] in multiset(l);
    var m :| 0 <= m < |l| && l[m] == view[i];
    BaseRowShows(rows, teams, compare, base[m]);
    LabelShows(rows, teams, compare, base[m], m == index, c, LastWeek(base));
  }

  // ---- the championship ----

  /** A playoff game between the two rosters that the resolution names. */
  predicate IsMeeting(row: MatchupRow, c: Resolution) {
    row.homePresent && row.awayPresent && row.isPlayoff && {row.homeRosterID, row.awayRosterID} == {c.first, c.second}
  }

  /** Row `i` is their game in the latest week, the first of them if there are several. */
  ghost predicate IsLastMeeting(rows: seq<MatchupRow>, c: Resolution, i: int) {
    && 0 <= i < |rows| && IsMeeting(rows[i], c)
    && forall j :: 0 <= j < |rows| && IsMeeting(rows[j], c) ==> rows[j].week < rows[i].week || (rows[j].week == rows[i].week && i <= j)
  }

  lemma {:induction false} MeetingIs(row: MatchupRow, c: Resolution)
    requires c.Valid()
    ensures TitleMeeting(row, c) <==> IsMeeting(row, c)
  {
    if {row.homeRosterID, row.awayRosterID} == {c.first, c.second} {
      assert c.first in {row.homeRosterID, row.awayRosterID} && c.second in {row.homeRosterID, row.awayRosterID};
      assert row.homeRosterID in {c.first, c.second} && row.awayRosterID in {c.first, c.second};
    }
  }

  /** The row found as title game, in the view or by the statistics, is the last meeting of the
      resolved pair; none is found exactly when the resolution is not valid or the two never meet. */
  lemma {:induction false} TitleGameIsLastMeeting(rows: seq<MatchupRow>, c: Resolution, index: int)
    requires IsTitleIndex(rows, c, index)
    ensures c.Valid() && index != -1 ==> IsLastMeeting(rows, c, index)
    ensures index == -1 <==> !c.Valid() || forall j :: 0 <= j < |rows| ==> !IsMeeting(rows[j], c)
    ensures !c.Valid() ==> index == -1
  {
    if c.Valid() {
      forall j | 0 <= j < |rows| ensures TitleMeeting(rows[j], c) <==> IsMeeting(rows[j], c) { MeetingIs(rows[j], c); }
      if index != -1 {
        assert LatestMeeting(rows, c, index);
        forall j | 0 <= j < |rows| && IsMeeting(rows[j], c) && rows[j].week == rows[index].week ensures index <= j {
          assert LatestMeeting(rows, c, j);
        }
      }
    }
  }

  // ---- labels ----

  /** The greatest week of the rows, or zero. */
  lemma {:induction false} LastWeekIs(rows: seq<MatchupRow>)
    ensures LastWeek(rows) >= 0 && forall i :: 0 <= i < |rows| ==> rows[i].week <= LastWeek(rows)
    ensures LastWeek(rows) > 0 ==> exists i :: 0 <= i < |rows| && rows[i].week == LastWeek(rows)
    decreases |rows|
  {
    if rows != [] {
      var n := |rows| - 1;
      LastWeekIs(rows[..n]);
      assert forall i :: 0 <= i < n ==> rows[..n][i] == rows[i];
      if LastWeek(rows) == LastWeek(rows[..n]) > 0 {
        var i :| 0 <= i < n && rows[..n][i].week == LastWeek(rows);
        assert rows[i].week == LastWeek(rows);
      }
    }
  }

  /** What kind of game the label says it is; the last two weeks before the last are numbered rounds. */
  ghost predicate IsLabel(row: MatchupRow, lastWeek: int, name: string) {
    && (!Played(row) ==> name == "BYE Week")
    && (Played(row) && row.isChampionship ==> name == "Championship")
    && (Played(row) && !row.isChampionship && !row.isPlayoff ==> name == "Regular Season")
    && (Played(row) && !row.isChampionship && row.isPlayoff ==>
          if row.matchupType == "WINNERS_BRACKET" then
            && (row.week == lastWeek - 2 ==> name == "Playoffs Round 1") && (row.week == lastWeek - 1 ==> name == "Playoffs Round 2")
            && (row.week != lastWeek - 1 && row.week != lastWeek - 2 ==> name == "Placement Game")
          else name == if TrimSpace(row.matchupType) == "" then "Playoffs" else TrimSpace(row.matchupType))
  }

  lemma {:induction false} RoundNumbers()
    ensures Points.SignedDecimal(1) == "1" && Points.SignedDecimal(2) == "2"
  {
  }

  lemma {:induction false} LabelReads(row: MatchupRow, flagged: bool, c: Resolution, lastWeek: int)
    ensures var l := LabelRow(row, flagged, c, lastWeek); IsLabel(l, lastWeek, l.typeLabel)
  {
    RoundNumbers();
  }

  /** Every row of a schedule is labelled for what it is, by its distance from the last week. */
  lemma {:induction false} ScheduleLabels(view: seq<MatchupRow>, rows: seq<Matchup>, teams: seq<Team>, compare: Comparison, index: int, c: Resolution, i: nat)
    requires IsSchedule(view, BaseRows(rows, teams, compare), index, c) && i < |view|
    ensures IsLabel(view[i], LastWeek(view), view[i].typeLabel)
  {
    var base := BaseRows(rows, teams, compare);
    var l := Labelled(base, index, c);
    assert view[i] in multiset(l);
    var m :| 0 <= m < |l| && l[m] == view[i];
    BaseRowShows(rows, teams, compare, base[m]);
    LabelReads(base[m], m == index, c, LastWeek(base));
    LabelledWeeks(base, index, c);
    SameWeeks(l, view);
  }

  lemma {:induction false} LabelledWeeks(base: seq<MatchupRow>, index: int, c: Resolution)
    ensures LastWeek(Labelled(base, index, c)) == LastWeek(base)
  {
    SameLastWeek(base, Labelled(base, index, c));
  }

  lemma {:induction false} SameLastWeek(base: seq<MatchupRow>, l: seq<MatchupRow>)
    requires |l| == |base| && forall i :: 0 <= i < |l| ==> l[i].week == base[i].week
    ensures LastWeek(l) == LastWeek(base)
    decreases |l|
  {
    if l != [] { SameLastWeek(base[..|l| - 1], l[..|l| - 1]); }
  }

  lemma {:induction false} SameWeeks(a: seq<MatchupRow>, b: seq<MatchupRow>)
    requires multiset(a) == multiset(b)
    ensures LastWeek(a) == LastWeek(b)
  {
    LastWeekIs(a);
    LastWeekIs(b);
    forall i | 0 <= i < |a| ensures a[i].week <= LastWeek(b) {
      assert a[i] in multiset(b);
      var k :| 0 <= k < |b| && b[k] == a[i];
    }
    forall i | 0 <= i < |b| ensures b[i].week <= LastWeek(a) {
      assert b[i] in multiset(a);
      var k :| 0 <= k < |a| && a[k] == b[i];
    }
  }

  // ---- what the statistics count ----

  /** The points of a table row read as `h` hundredths. */
  ghost predicate Scored(r: Matchup, h: int) {
    exists score :: IsScoreOf(r, score) && Reads(score, h)
  }

  /** The owner and the score counted are those of one roster's row of the week. */
  ghost predicate CountsRoster(rows: seq<Matchup>, teams: seq<Team>, week: int, rosterID: int, owner: string, score: int) {
    && (exists r :: r in rows && r.week == week && r.rosterID == rosterID && Scored(r, score))
    && var t := TeamAt(TeamsByRoster(teams), rosterID);
       FirstNamed([t.ownerID, t.displayName, t.username], owner)
  }

  lemma {:induction false} KeyIsFirstNamed(t: Team)
    ensures FirstNamed([t.ownerID, t.displayName, t.username], OwnerKey(t))
  {
    NamesInOrder(t.ownerID, t.displayName, t.username, OwnerKey(t));
  }

  lemma {:induction false} SideCounts(rows: seq<Matchup>, teams: seq<Team>, week: int, rosterID: int, shown: string, shownOwner: string, name: string,
                                      owner: string, score: int)
    requires ShowsRoster(rows, teams, week, rosterID, shown, shownOwner, name) && ReadsOptional(shown, true, score)
    requires owner == RowOwnerKey(TeamAt(TeamsByRoster(teams), rosterID), OwnerLabel(TeamAt(TeamsByRoster(teams), rosterID)))
    ensures CountsRoster(rows, teams, week, rosterID, owner, score)
  {
    var t := TeamAt(TeamsByRoster(teams), rosterID);
    FallbackNeverHelps(t);
    KeyIsFirstNamed(t);
    var r :| r in rows && r.week == week && r.rosterID == rosterID && IsScoreOf(r, shown);
    assert Scored(r, score);
  }

  /** What the statistics take from a season: every game is one of the schedule, its home side
      counts the score and the owner of the home roster, and so does the away side if there is one. */
  lemma {:induction false} SeasonCounts(b: Built, rows: seq<Matchup>, teams: seq<Team>, brackets: seq<Bracket>, compare: Comparison,
                                        season: SeasonInput, i: nat)
    requires BuiltFrom(b, rows, teams, brackets, compare) && IsSeason(b, teams, season) && i < |season.matchups|
    ensures |season.matchups| == |b.view|
    ensures var m, row := season.matchups[i], b.view[i];
      && m.week == row.week && m.homePresent && m.awayPresent == row.awayPresent
      && m.isPlayoff == row.isPlayoff && m.matchupType == row.matchupType
      && CountsRoster(rows, teams, m.week, row.homeRosterID, m.homeOwner, m.homeScore)
      && (m.awayPresent ==> CountsRoster(rows, teams, m.week, row.awayRosterID, m.awayOwner, m.awayScore))
      && (!m.awayPresent ==> m.awayScore == 0)
  {
    var m, row := season.matchups[i], b.view[i];
    assert IsMatchupInput(row, TeamsByRoster(teams), i == b.titleIndex, b.answer, m);
    ScheduleShows(b.view, rows, teams, compare, b.viewIndex, b.answer, i);
    ViewOwner(rows, teams, compare, b.viewIndex, b.answer, b.view, i);
    SideCounts(rows, teams, row.week, row.homeRosterID, row.homeScore, row.homeOwner, row.homeTeamName, m.homeOwner, m.homeScore);
    if row.awayPresent {
      SideCounts(rows, teams, row.week, row.awayRosterID, row.awayScore, row.awayOwner, row.awayTeamName, m.awayOwner, m.awayScore);
    } else {
      BlankTeamName();
    }
  }

  /** The comparison of the view orders these two points strings as their values. */
  ghost predicate ComparesValues(compare: Comparison, a: string, b: string) {
    forall h, k :: Reads(a, h) && Reads(b, k) ==> (compare(a, b) > 0 <==> h > k)
  }

  /** Outside the championship the view and the statistics name the same winner of a game if and
      only if the view's comparison orders its two scores, either way round, as their values. */
  lemma {:induction false} WinnersAgreeExactly(b: Built, rows: seq<Matchup>, teams: seq<Team>, brackets: seq<Bracket>, compare: Comparison,
                                               season: SeasonInput, i: nat)
    requires BuiltFrom(b, rows, teams, brackets, compare) && IsSeason(b, teams, season) && i < |season.matchups|
    requires season.matchups[i].awayPresent && !b.view[i].isChampionship && !season.matchups[i].isChampionship
    ensures var m, row := season.matchups[i], b.view[i];
      (row.homeWinner <==> ResultWinner(m) == WinnerHome) && (row.awayWinner <==> ResultWinner(m) == WinnerAway)
      <==> ComparesValues(compare, row.homeScore, row.awayScore) && ComparesValues(compare, row.awayScore, row.homeScore)
  {
    var m, row := season.matchups[i], b.view[i];
    assert IsMatchupInput(row, TeamsByRoster(teams), i == b.titleIndex, b.answer, m);
    ScheduleShows(b.view, rows, teams, compare, b.viewIndex, b.answer, i);
    assert Reads(row.homeScore, m.homeScore) && Reads(row.awayScore, m.awayScore);
    OneReading(compare, row.homeScore, row.awayScore, m.homeScore, m.awayScore);
    OneReading(compare, row.awayScore, row.homeScore, m.awayScore, m.homeScore);
  }

  lemma {:induction false} OneReading(compare: Comparison, a: string, b: string, h: int, k: int)
    requires Reads(a, h) && Reads(b, k)
    ensures ComparesValues(compare, a, b) <==> (compare(a, b) > 0 <==> h > k)
  {
    forall x | Reads(a, x) ensures x == h { Points.DenotesUnique(a, x, h); }
    forall y | Reads(b, y) ensures y == k { Points.DenotesUnique(b, y, k); }
  }
}
