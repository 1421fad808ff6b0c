/** What the league list shows, field by field (`internal/archive/archive.go`): its order, the
    fields of each entry, who is named as champion and runner-up, which rows a lineage has. */
module ArchiveShown {
  import opened ArchiveLeagues
  import opened EspnScores
  import opened EspnSeasons
  import opened OwnerNames
  import opened Results
  import opened SleeperSchedule
  import opened SleeperScores
  import opened SleeperView
  import opened Sorting
  import opened Text
  import Points

  // ---- order ----

  /** Earlier season first, then by provider, name, external id and id. */
  predicate NotAfter(a: Summary, b: Summary) {
    || a.season < b.season
    || (a.season == b.season &&
        (|| Less(a.provider, b.provider)
         || (a.provider == b.provider &&
             (|| Less(a.name, b.name)
              || (a.name == b.name &&
                  (Less(a.externalID, b.externalID) || (a.externalID == b.externalID && a.id <= b.id)))))))
  }

  lemma {:induction false} ListOrderReads(a: Summary, b: Summary)
    requires !LIST_ORDER(b, a)
    ensures NotAfter(a, b)
  {
    LessTotal(a.provider, b.provider);
    LessTotal(a.name, b.name);
    LessTotal(a.externalID, b.externalID);
  }

  /** No entry of a sorted list comes after one it should precede. */
  lemma {:induction false} ListInOrder(list: seq<Summary>, all: seq<Summary>, i: nat, j: nat)
    requires Arranges(list, all, LIST_ORDER) && i < j < |list|
    ensures NotAfter(list[i], list[j])
  {
    ListOrderReads(list[i], list[j]);
  }

  // ---- ESPN entries ----

  /** The entry names the two sides of the row: the one that finished first as champion, the other as runner-up. */
  predicate NamesFinalists(row: EspnRow, aliases: Aliases, e: Summary) {
    var home, away := ArchiveNormalizeOwner(row.homeTeamOwners, aliases), ArchiveNormalizeOwner(row.awayTeamOwners, aliases);
    if row.homeFinalStanding == 1
    then e.champion == row.homeTeamName && e.championOwner == home && e.runnerUp == row.awayTeamName && e.runnerUpOwner == away
    else
      && row.awayFinalStanding == 1
      && e.champion == row.awayTeamName && e.championOwner == away && e.runnerUp == row.homeTeamName && e.runnerUpOwner == home
  }

  predicate NamesNobody(e: Summary) {
    e.champion == e.championOwner == e.runnerUp == e.runnerUpOwner == ""
  }

  /** The entry is the ESPN league: its ids, its year, and the finalists of its title game, if its
      games can be read and have one. */
  ghost predicate ShowsEspn(s: Service, l: EspnLeague, e: Summary) {
    && e.provider == "espn" && e.id == l.id && e.season == l.year && e.teamCount == l.teamCount
    && e.externalID == Points.SignedDecimal(l.leagueID) && e.name == "ESPN " + Points.SignedDecimal(l.leagueID)
    && if s.espnMatchups.None? || s.espnMatchups.value(l.id).Err? then NamesNobody(e)
       else ShowsTitle(s.espnMatchups.value(l.id).value, s.aliases, e)
  }

  ghost predicate ShowsTitle(rows: seq<EspnRow>, aliases: Aliases, e: Summary) {
    || (exists i :: EspnScores.IsTitleRow(rows, i) && NamesFinalists(rows[i], aliases, e))
    || ((forall i :: 0 <= i < |rows| ==> !FirstAgainstSecond(rows[i])) && NamesNobody(e))
  }

  lemma {:induction false} SummaryShowsEspn(s: Service, l: EspnLeague)
    ensures ShowsEspn(s, l, EspnSummary(s, l))
  {
    if s.espnMatchups.Some? && s.espnMatchups.value(l.id).Ok? {
      var rows := s.espnMatchups.value(l.id).value;
      forall i | 0 <= i < |rows| ensures FirstAgainstSecond(rows[i]) <==> IsFinalistsGame(rows[i]) { FinalistsAre(rows[i]); }
      if TitleIndex(rows).Some? {
        TitleRowIs(rows, TitleIndex(rows).value);
        assert NamesFinalists(rows[TitleIndex(rows).value], s.aliases, EspnSummary(s, l));
      }
    }
  }

  // ---- Sleeper entries ----

  /** The label of a team: the canonical name of its owner id, if the alias map knows it, else that of
      the first of display name, user name and owner id that is not blank. */
  lemma {:induction false} OwnerLabelIs(t: Team, aliases: Aliases)
    requires Flat(aliases)
    ensures TrimSpace(t.ownerID) != "" && TrimSpace(t.ownerID) in aliases ==> SleeperOwnerLabel(t, aliases) == aliases[TrimSpace(t.ownerID)]
    ensures TrimSpace(t.ownerID) == "" || TrimSpace(t.ownerID) !in aliases ==>
      exists name :: FirstNamed([t.displayName, t.username, t.ownerID], name) && SleeperOwnerLabel(t, aliases) == NormalizeOwner(name, aliases)
  {
    if TrimSpace(t.ownerID) != "" && TrimSpace(t.ownerID) in aliases {
      CleanNormalForm(aliases[TrimSpace(t.ownerID)]);
    } else {
      var name := OwnerLabel(t);
      NamesInOrder(t.displayName, t.username, t.ownerID, name);
      NormalizeOwnerOnFlatMap(name, aliases);
      NormalizeOwnerOnFlatMap(t.ownerID, aliases);
      CleanIsJoinOfFields(TrimSpace(t.ownerID));
      assert Clean(TrimSpace(t.ownerID)) == Clean(t.ownerID);
    }
  }

  /** Team `i` is the last of the standing. */
  ghost predicate LastAt(teams: seq<Team>, standing: int, i: int) {
    0 <= i < |teams| && teams[i].finalStanding == standing && forall j :: i < j < |teams| ==> teams[j].finalStanding != standing
  }

  /** The label is that of the last team of the standing; blank without one. */
  ghost predicate LabelOfStanding(teams: seq<Team>, standing: int, aliases: Aliases, name: string) {
    && ((forall i :: 0 <= i < |teams| ==> teams[i].finalStanding != standing) ==> name == "")
    && forall i :: LastAt(teams, standing, i) ==> name == SleeperOwnerLabel(teams[i], aliases)
  }

  /** The entry is the Sleeper league: its ids, its report, and the owners of its standings. */
  ghost predicate ShowsSleeper(s: Service, l: SleeperLeague, e: Summary) {
    && e.provider == "sleeper" && e.id == l.leagueID && e.externalID == l.sleeperLeagueID && e.season == l.season
    && e.name == l.name && e.teamCount == l.teamCount && e.champion == l.championTeamName && e.runnerUp == l.runnerUpTeamName
    && if s.sleeperTeams.None? || s.sleeperTeams.value(l.leagueID).None? then e.championOwner == e.runnerUpOwner == ""
       else
         && LabelOfStanding(s.sleeperTeams.value(l.leagueID).value, 1, s.aliases, e.championOwner)
         && LabelOfStanding(s.sleeperTeams.value(l.leagueID).value, 2, s.aliases, e.runnerUpOwner)
  }

  lemma {:induction false} StandingLabel(teams: seq<Team>, standing: int, aliases: Aliases)
    ensures LabelOfStanding(teams, standing, aliases, OwnerOfStanding(teams, standing, aliases))
    decreases |teams|
  {
    if teams != [] {
      var n := |teams| - 1;
      StandingLabel(teams[..n], standing, aliases);
      forall i | LastAt(teams, standing, i) ensures i == n || LastAt(teams[..n], standing, i) {
        assert forall j :: 0 <= j < n ==> teams[..n][j] == teams[j];
      }
    }
  }

  lemma {:induction false} SummaryShowsSleeper(s: Service, l: SleeperLeague)
    ensures ShowsSleeper(s, l, SleeperSummary(s, l))
  {
    if s.sleeperTeams.Some? && s.sleeperTeams.value(l.leagueID).Some? {
      StandingLabel(s.sleeperTeams.value(l.leagueID).value, 1, s.aliases);
      StandingLabel(s.sleeperTeams.value(l.leagueID).value, 2, s.aliases);
    }
  }

  /** The entry is that of some league to be listed. */
  ghost predicate ShowsSome(s: Service, espn: seq<EspnLeague>, sleeper: seq<SleeperLeague>, covered: set<int>, e: Summary) {
    (exists l :: l in espn && l.year !in covered && ShowsEspn(s, l, e)) || (exists l :: l in sleeper && ShowsSleeper(s, l, e))
  }

  lemma {:induction false} EntryShows(s: Service, espn: seq<EspnLeague>, sleeper: seq<SleeperLeague>, covered: set<int>, i: nat)
    requires i < |Summaries(s, espn, sleeper, covered)|
    ensures ShowsSome(s, espn, sleeper, covered, Summaries(s, espn, sleeper, covered)[i])
  {
    var open := Uncovered(espn, covered);
    if i < |open| {
      UncoveredIs(espn, covered, open[i]);
      SummaryShowsEspn(s, open[i]);
    } else {
      SummaryShowsSleeper(s, sleeper[i - |open|]);
      assert sleeper[i - |open|] in sleeper;
    }
  }

  lemma {:induction false} EspnIsShown(s: Service, espn: seq<EspnLeague>, sleeper: seq<SleeperLeague>, covered: set<int>, l: EspnLeague)
    requires l in espn && l.year !in covered
    ensures exists e :: e in Summaries(s, espn, sleeper, covered) && ShowsEspn(s, l, e)
  {
    var open, all := Uncovered(espn, covered), Summaries(s, espn, sleeper, covered);
    UncoveredIs(espn, covered, l);
    var i :| 0 <= i < |open| && open[i] == l;
    SummaryShowsEspn(s, l);
    assert all[i] == EspnSummary(s, l);
  }

  lemma {:induction false} SleeperIsShown(s: Service, espn: seq<EspnLeague>, sleeper: seq<SleeperLeague>, covered: set<int>, l: SleeperLeague)
    requires l in sleeper
    ensures exists e :: e in Summaries(s, espn, sleeper, covered) && ShowsSleeper(s, l, e)
  {
    var tail := Mapped(sleeper, (l: SleeperLeague) => SleeperSummary(s, l));
    var i :| 0 <= i < |sleeper| && sleeper[i] == l;
    SummaryShowsSleeper(s, l);
    assert tail[i] == SleeperSummary(s, l);
    assert tail[i] in tail;
  }

  /** Every entry of the list is a listed Sleeper league, or an ESPN league of a season not covered,
      with that league's fields; and every such league has its entry. */
  lemma {:induction false} ListShows(s: Service, espn: seq<EspnLeague>, sleeper: seq<SleeperLeague>, covered: set<int>, list: seq<Summary>)
    requires Arranges(list, Summaries(s, espn, sleeper, covered), LIST_ORDER)
    ensures forall e :: e in list ==> ShowsSome(s, espn, sleeper, covered, e)
    ensures forall l :: l in espn && l.year !in covered ==> exists e :: e in list && ShowsEspn(s, l, e)
    ensures forall l :: l in sleeper ==> exists e :: e in list && ShowsSleeper(s, l, e)
  {
    var all := Summaries(s, espn, sleeper, covered);
    forall e ensures e in list <==> e in all { assert e in multiset(list) <==> e in multiset(all); }
    forall e | e in list ensures ShowsSome(s, espn, sleeper, covered, e) {
      var i :| 0 <= i < |all| && all[i] == e;
      EntryShows(s, espn, sleeper, covered, i);
    }
    forall l | l in espn && l.year !in covered ensures exists e :: e in list && ShowsEspn(s, l, e) {
      EspnIsShown(s, espn, sleeper, covered, l);
    }
    forall l | l in sleeper ensures exists e :: e in list && ShowsSleeper(s, l, e) { SleeperIsShown(s, espn, sleeper, covered, l); }
  }

  // ---- the chosen lineage ----

  /** The rows of a lineage are exactly those with its canonical id, trimmed; a blank one has none. */
  lemma {:induction false} ChosenAre(leagues: seq<SleeperLeague>, id: string, l: SleeperLeague)
    ensures l in Chosen(leagues, id) <==> id != "" && l in leagues && TrimSpace(l.canonicalLeagueID) == id
  {
    OfLineageIs(leagues, id, l);
  }

  lemma {:induction false} OfLineageIs(leagues: seq<SleeperLeague>, id: string, l: SleeperLeague)
    ensures l in OfLineage(leagues, id) <==> l in leagues && TrimSpace(l.canonicalLeagueID) == id
    decreases |leagues|
  {
    if leagues != [] {
      OfLineageIs(leagues[..|leagues| - 1], id, l);
      assert leagues == leagues[..|leagues| - 1] + [leagues[|leagues| - 1]];
    }
  }
}
