/** Whether the league list (`internal/archive/archive.go`) and the statistics
    (`cmd/api/stats.go`) name one owner as the champion of a Sleeper season. */
module ArchiveChampions {
  import opened ArchiveLeagues
  import opened OwnerNames
  import opened Results
  import opened SleeperPairing
  import opened SleeperSchedule
  import opened SleeperStats
  import opened SleeperView
  import opened StatsSeason
  import opened Text

  // ---- one team ----

  /** The name the statistics count a team under. */
  function CountedOwner(t: Team, aliases: Aliases): string {
    NormalizeOwner(OwnerKey(t), aliases)
  }

  /** The owner id is blank or known to the alias map. */
  predicate KnownOwner(t: Team, aliases: Aliases) {
    TrimSpace(t.ownerID) == "" || TrimSpace(t.ownerID) in aliases
  }

  function Named(t: Team, displayName: string, username: string): Team {
    t.(displayName := displayName, username := username)
  }

  lemma {:induction false} BlankIsUnnamed(owner: string, aliases: Aliases)
    requires Flat(aliases) && TrimSpace(owner) == ""
    ensures ArchiveNormalizeOwner(owner, aliases) == NormalizeOwner("", aliases) == ""
  {
    CleanOfEmpty();
    assert Clean(owner) == Clean("");
  }

  lemma {:induction false} KnownLabel(t: Team, aliases: Aliases)
    requires Flat(aliases) && KnownOwner(t, aliases)
    ensures SleeperOwnerLabel(t, aliases) == CountedOwner(t, aliases)
  {
    if TrimSpace(t.ownerID) in aliases {
      KnownOwnerLabel(t, aliases);
    } else if TrimSpace(t.displayName) != "" {
      NormalizeOwnerOnFlatMap(TrimSpace(t.displayName), aliases);
    } else if TrimSpace(t.username) != "" {
      NormalizeOwnerOnFlatMap(TrimSpace(t.username), aliases);
    } else {
      BlankIsUnnamed(t.ownerID, aliases);
    }
  }

  function Repeated(n: nat): (s: string)
    ensures |s| == n
  {
    seq(n, i => 'x')
  }

  lemma {:induction false} LongerThanAll(names: set<string>) returns (n: nat)
    ensures forall s :: s in names ==> |s| < n
    decreases |names|
  {
    if names == {} {
      n := 1;
    } else {
      var s :| s in names;
      var m := LongerThanAll(names - {s});
      n := if |s| < m then m else |s| + 1;
      assert names == names - {s} + {s};
    }
  }

  /** A clean name that is not among these. */
  lemma {:induction false} FreshName(names: set<string>) returns (s: string)
    ensures s !in names && s != "" && TrimSpace(s) == s && Clean(s) == s
  {
    var n := LongerThanAll(names);
    s := Repeated(n + 1);
    assert IsClean(s);
    CleanNormalForm(s);
  }

  /** The archive's label is the name the statistics count under, whatever the display and user
      names are, if and only if the owner id is blank or known to the alias map. */
  lemma {:induction false} LabelAgreesExactly(t: Team, aliases: Aliases)
    requires Flat(aliases)
    ensures (forall d, u :: SleeperOwnerLabel(Named(t, d, u), aliases) == CountedOwner(Named(t, d, u), aliases)) <==> KnownOwner(t, aliases)
  {
    if KnownOwner(t, aliases) {
      forall d, u ensures SleeperOwnerLabel(Named(t, d, u), aliases) == CountedOwner(Named(t, d, u), aliases) {
        KnownLabel(Named(t, d, u), aliases);
      }
    } else {
      var d := FreshName(aliases.Keys + {CountedOwner(t, aliases)});
      assert SleeperOwnerLabel(Named(t, d, ""), aliases) == d != CountedOwner(Named(t, d, ""), aliases);
    }
  }

  // ---- the champion ----

  /** The last team of a standing. */
  function LastOfStanding(teams: seq<Team>, standing: int): (r: Option<Team>)
    ensures r.Some? ==> r.value in teams && r.value.finalStanding == standing
  {
    if teams == [] then None
    else if teams[|teams| - 1].finalStanding == standing then Some(teams[|teams| - 1])
    else LastOfStanding(teams[..|teams| - 1], standing)
  }

  lemma {:induction false} LastOfStandingIsLabelled(teams: seq<Team>, standing: int, aliases: Aliases)
    ensures OwnerOfStanding(teams, standing, aliases) ==
      match LastOfStanding(teams, standing) case None => "" case Some(t) => SleeperOwnerLabel(t, aliases)
    decreases |teams|
  {
    if teams != [] && teams[|teams| - 1].finalStanding != standing {
      LastOfStandingIsLabelled(teams[..|teams| - 1], standing, aliases);
    }
  }

  lemma {:induction false} StandingIsListed(teams: seq<Team>, standing: int)
    requires exists t :: t in teams && t.finalStanding == standing
    ensures LastOfStanding(teams, standing).Some?
    decreases |teams|
  {
    if teams[|teams| - 1].finalStanding != standing {
      assert teams == teams[..|teams| - 1] + [teams[|teams| - 1]];
      StandingIsListed(teams[..|teams| - 1], standing);
    }
  }

  ghost predicate DistinctRosters(teams: seq<Team>) {
    forall t, u :: t in teams && u in teams && t.rosterID == u.rosterID ==> t == u
  }

  lemma {:induction false} RosterFinds(teams: seq<Team>, t: Team)
    requires t in teams && DistinctRosters(teams)
    ensures TeamAt(TeamsByRoster(teams), t.rosterID) == t
    decreases |teams|
  {
    var init, last := teams[..|teams| - 1], teams[|teams| - 1];
    assert teams == init + [last];
    if t != last { RosterFinds(init, t); }
  }

  /** The winning roster's team as the statistics see it. */
  function Winner(b: Built, teams: seq<Team>): Team {
    TeamAt(TeamsByRoster(teams), b.answer.winner)
  }

  /** The season has a title game, and its championship is credited to this name. */
  ghost predicate Credited(season: SeasonInput, aliases: Aliases, owner: string) {
    var c := Championship(Canonical(season, aliases).matchups);
    c.Some? && WinnerOwner(c.value) == owner
  }

  lemma {:induction false} WinnerIsCredited(b: Built, rows: seq<Matchup>, teams: seq<Team>, brackets: seq<Bracket>, compare: Comparison,
                                            season: SeasonInput, aliases: Aliases)
    requires BuiltFrom(b, rows, teams, brackets, compare) && IsSeason(b, teams, season) && b.titleIndex != -1
    ensures forall owner :: Credited(season, aliases, owner) <==> owner == CountedOwner(Winner(b, teams), aliases)
  {
    TitleGameOfSeason(b, rows, teams, brackets, compare, season);
    SeasonIsCanonical(season, aliases);
    CanonicalChampionship(season.matchups, Canonical(season, aliases).matchups, aliases);
  }

  /** When the team listed as first has a known owner: the archive's champion is the owner the
      statistics credit with the title if and only if that team and the team of the resolved winner
      count as one owner, which they do when they are one roster. */
  lemma {:induction false} SleeperChampionAgreesExactly(b: Built, rows: seq<Matchup>, teams: seq<Team>, brackets: seq<Bracket>,
                                                        compare: Comparison, season: SeasonInput, aliases: Aliases, t: Team)
    requires BuiltFrom(b, rows, teams, brackets, compare) && IsSeason(b, teams, season) && b.titleIndex != -1
    requires Flat(aliases) && LastOfStanding(teams, 1) == Some(t) && KnownOwner(t, aliases)
    ensures Credited(season, aliases, OwnerOfStanding(teams, 1, aliases)) <==> CountedOwner(t, aliases) == CountedOwner(Winner(b, teams), aliases)
    ensures DistinctRosters(teams) && t.rosterID == b.answer.winner ==> Credited(season, aliases, OwnerOfStanding(teams, 1, aliases))
  {
    WinnerIsCredited(b, rows, teams, brackets, compare, season, aliases);
    LastOfStandingIsLabelled(teams, 1, aliases);
    KnownLabel(t, aliases);
    if DistinctRosters(teams) { RosterFinds(teams, t); }
  }

  /** When the standings decided the title, the team listed as first is the resolved winner, so a
      known owner is champion in the archive and in the statistics. */
  lemma {:induction false} StandingsChampionAgrees(b: Built, rows: seq<Matchup>, teams: seq<Team>, brackets: seq<Bracket>,
                                                   compare: Comparison, season: SeasonInput, aliases: Aliases)
    requires BuiltFrom(b, rows, teams, brackets, compare) && IsSeason(b, teams, season) && b.titleIndex != -1
    requires Flat(aliases) && DistinctRosters(teams) && KnownOwner(Winner(b, teams), aliases)
    requires forall bracket :: bracket in brackets ==> !IsTitleRow(bracket)
    ensures Credited(season, aliases, OwnerOfStanding(teams, 1, aliases))
  {
    assert b.answer.Valid() by { assert LatestMeeting(b.view, b.answer, b.titleIndex); }
    AnswerIsSupported(brackets, teams, b.answer);
    assert StandingsSettle(teams, b.answer);
    var first :| first in teams && first.finalStanding == 1 && first.rosterID == b.answer.first;
    StandingIsListed(teams, 1);
    var t := LastOfStanding(teams, 1).value;
    OneOfStanding(teams, 1, first, t);
    RosterFinds(teams, t);
    SleeperChampionAgreesExactly(b, rows, teams, brackets, compare, season, aliases, t);
  }
}
