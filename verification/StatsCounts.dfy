/** The owner tables in terms of the inputs alone (`BuildPageDataFromSeasons` in
    `internal/stats/stats.go`): every figure is a count or a sum over the teams and games of the
    seasons as they are given, before owners are made canonical. */
module StatsCounts {
  import opened OwnerNames
  import opened Results
  import opened StatsLaws
  import opened StatsRollup
  import opened StatsSeason
  import opened StatsTally
  import opened Sums

  // ---- who and what is counted ----

  /** The owner's canonical name is `k`. */
  predicate NamedAs(owner: string, aliases: Aliases, k: string) {
    k != "" && NormalizeOwner(owner, aliases) == k
  }

  /** The owner goes under the entry `k`: that name, or "Unknown" without one. */
  predicate CountedAs(owner: string, aliases: Aliases, k: string) {
    NamedAs(owner, aliases, k) || (k == "Unknown" && NormalizeOwner(owner, aliases) == "")
  }

  /** The home side has won: officially, if this is a championship with an official winner, else on points. */
  predicate HomeWon(m: MatchupInput) {
    if m.isChampionship && m.championshipWinner != WinnerUnknown then m.championshipWinner == WinnerHome
    else m.homeScore > m.awayScore
  }

  predicate AwayWon(m: MatchupInput) {
    if m.isChampionship && m.championshipWinner != WinnerUnknown then m.championshipWinner == WinnerAway
    else m.awayScore > m.homeScore
  }

  /** A winners-bracket game that both sides played. */
  predicate BracketGame(m: MatchupInput) {
    m.homePresent && m.awayPresent && m.isPlayoff && m.matchupType == "WINNERS_BRACKET"
  }

  predicate BracketWin(m: MatchupInput, aliases: Aliases, k: string) {
    BracketGame(m) && ((HomeWon(m) && CountedAs(m.homeOwner, aliases, k)) || (AwayWon(m) && CountedAs(m.awayOwner, aliases, k)))
  }

  predicate BracketLoss(m: MatchupInput, aliases: Aliases, k: string) {
    BracketGame(m) && ((HomeWon(m) && CountedAs(m.awayOwner, aliases, k)) || (AwayWon(m) && CountedAs(m.homeOwner, aliases, k)))
  }

  /** The championship of the season: the first of those in the greatest week. */
  ghost predicate IsTitleGame(ms: seq<MatchupInput>, i: int) {
    && 0 <= i < |ms| && ms[i].homePresent && ms[i].awayPresent && ms[i].isChampionship
    && forall j :: 0 <= j < |ms| && ms[j].homePresent && ms[j].awayPresent && ms[j].isChampionship ==>
         ms[j].week < ms[i].week || (ms[j].week == ms[i].week && i <= j)
  }

  ghost predicate WinsTitle(season: SeasonInput, aliases: Aliases, k: string) {
    exists i :: IsTitleGame(season.matchups, i) && var m := season.matchups[i];
      (HomeWon(m) && NamedAs(m.homeOwner, aliases, k)) || (AwayWon(m) && NamedAs(m.awayOwner, aliases, k))
  }

  ghost predicate PlaysFinal(season: SeasonInput, aliases: Aliases, k: string) {
    exists i :: IsTitleGame(season.matchups, i) && var m := season.matchups[i];
      NamedAs(m.homeOwner, aliases, k) || NamedAs(m.awayOwner, aliases, k)
  }

  /** Some winners-bracket row has the owner on a side that is present. */
  ghost predicate MakesPlayoffs(season: SeasonInput, aliases: Aliases, k: string) {
    exists m :: m in season.matchups && m.isPlayoff && m.matchupType == "WINNERS_BRACKET"
      && ((m.homePresent && NamedAs(m.homeOwner, aliases, k)) || (m.awayPresent && NamedAs(m.awayOwner, aliases, k)))
  }

  /** `f` of a team if it goes under `k`, else nothing. */
  function Of(aliases: Aliases, k: string, f: TeamInput -> int): TeamInput -> int {
    (t: TeamInput) => if CountedAs(t.owner, aliases, k) then f(t) else 0
  }

  ghost function WonBy(aliases: Aliases, k: string): MatchupInput -> bool {
    m => BracketWin(m, aliases, k)
  }

  ghost function LostBy(aliases: Aliases, k: string): MatchupInput -> bool {
    m => BracketLoss(m, aliases, k)
  }

  // ---- one season ----

  lemma {:induction false} KeyIs(owner: string, aliases: Aliases, k: string)
    ensures Key(NormalizeOwner(owner, aliases)) == k <==> CountedAs(owner, aliases, k)
  {
  }

  lemma {:induction false} GameCreditIs(m: MatchupInput, aliases: Aliases)
    ensures var home, away := Key(NormalizeOwner(m.homeOwner, aliases)), Key(NormalizeOwner(m.awayOwner, aliases));
      GameCredit(CanonicalMatchup(m, aliases)) ==
        if BracketGame(m) && HomeWon(m) then [Credit(home, PlayoffWins, 1), Credit(away, PlayoffLosses, 1)]
        else if BracketGame(m) && AwayWon(m) then [Credit(away, PlayoffWins, 1), Credit(home, PlayoffLosses, 1)]
        else []
  {
  }

  lemma {:induction false} GameCounts(m: MatchupInput, aliases: Aliases, k: string, x: Metric)
    ensures Sum(GameCredit(CanonicalMatchup(m, aliases)), k, x) ==
      if x == PlayoffWins && BracketWin(m, aliases, k) then 1 else if x == PlayoffLosses && BracketLoss(m, aliases, k) then 1 else 0
  {
    var home, away := Key(NormalizeOwner(m.homeOwner, aliases)), Key(NormalizeOwner(m.awayOwner, aliases));
    GameCreditIs(m, aliases);
    KeyIs(m.homeOwner, aliases, k);
    KeyIs(m.awayOwner, aliases, k);
    SumOfTwo(Credit(home, PlayoffWins, 1), Credit(away, PlayoffLosses, 1), k, x);
    SumOfTwo(Credit(away, PlayoffWins, 1), Credit(home, PlayoffLosses, 1), k, x);
    NeverBoth(m);
  }

  lemma {:induction false} NeverBoth(m: MatchupInput)
    ensures !(HomeWon(m) && AwayWon(m))
  {
  }

  ghost predicate AreCanonical(ms: seq<MatchupInput>, ns: seq<MatchupInput>, aliases: Aliases) {
    |ns| == |ms| && forall i :: 0 <= i < |ms| ==> ns[i] == CanonicalMatchup(ms[i], aliases)
  }

  lemma {:induction false} GamesCount(ms: seq<MatchupInput>, ns: seq<MatchupInput>, aliases: Aliases, k: string, x: Metric)
    requires AreCanonical(ms, ns, aliases)
    ensures Sum(GameCredits(ns), k, x) ==
      if x == PlayoffWins then CountIf(ms, WonBy(aliases, k)) else if x == PlayoffLosses then CountIf(ms, LostBy(aliases, k)) else 0
    decreases |ms|
  {
    if ms != [] {
      var n := |ms| - 1;
      GamesCount(ms[..n], ns[..n], aliases, k, x);
      GameCounts(ms[n], aliases, k, x);
      SumConcat(GameCredits(ns[..n]), GameCredit(ns[n]), k, x);
    }
  }

  ghost predicate AreCanonicalTeams(ts: seq<TeamInput>, us: seq<TeamInput>, aliases: Aliases) {
    |us| == |ts| && forall i :: 0 <= i < |ts| ==> us[i] == CanonicalTeam(ts[i], aliases)
  }

  lemma {:induction false} TeamsSum(ts: seq<TeamInput>, us: seq<TeamInput>, aliases: Aliases, k: string, x: Metric, f: TeamInput -> int)
    requires AreCanonicalTeams(ts, us, aliases) && forall t, o :: f(t) == TeamPart(x)(t.(owner := o))
    ensures Sum(TeamCredits(us), k, x) == SumOf(ts, Of(aliases, k, f))
    decreases |ts|
  {
    if ts != [] {
      var n := |ts| - 1;
      TeamsSum(ts[..n], us[..n], aliases, k, x, f);
      SumOfTeam(us[n], k, x);
      KeyIs(ts[n].owner, aliases, k);
      SumConcat(TeamCredits(us[..n]), TeamCredit(us[n]), k, x);
    }
  }

  lemma {:induction false} NoTeamSum(us: seq<TeamInput>, k: string, x: Metric)
    requires !OfTeams(x)
    ensures Sum(TeamCredits(us), k, x) == 0
    decreases |us|
  {
    if us != [] {
      var n := |us| - 1;
      NoTeamSum(us[..n], k, x);
      SumOfTeam(us[n], k, x);
      SumConcat(TeamCredits(us[..n]), TeamCredit(us[n]), k, x);
    }
  }

  lemma {:induction false} TitleIs(ms: seq<MatchupInput>, ns: seq<MatchupInput>, aliases: Aliases, i: int)
    requires AreCanonical(ms, ns, aliases)
    ensures IsTitleGame(ms, i) <==> i >= 0 && ChampionshipIndex(ns) == Some(i)
  {
    ChampionshipIgnoresOwners(ms, ns);
    var r := ChampionshipIndex(ms);
    assert forall j :: 0 <= j < |ms| ==> (ChampionshipCandidate(ms[j]) <==> ms[j].homePresent && ms[j].awayPresent && ms[j].isChampionship);
    if IsTitleGame(ms, i) {
      assert ChampionshipCandidate(ms[i]);
      assert ms[i].week <= ms[r.value].week;
      assert i == r.value;
    }
  }

  lemma {:induction false} FinalCounts(season: SeasonInput, ns: seq<MatchupInput>, aliases: Aliases, k: string)
    requires AreCanonical(season.matchups, ns, aliases)
    ensures IsFinalist(ns, k) <==> PlaysFinal(season, aliases, k)
  {
    var c := ChampionshipIndex(ns);
    forall i ensures IsTitleGame(season.matchups, i) <==> i >= 0 && c == Some(i) { TitleIs(season.matchups, ns, aliases, i); }
    if c.Some? { assert IsTitleGame(season.matchups, c.value); }
  }

  lemma {:induction false} TitleCounts(season: SeasonInput, ns: seq<MatchupInput>, aliases: Aliases, k: string, x: Metric)
    requires AreCanonical(season.matchups, ns, aliases)
    ensures Sum(TitleCredits(ns), k, x) == if x == Titles && WinsTitle(season, aliases, k) then 1 else 0
  {
    var c := ChampionshipIndex(ns);
    forall i ensures IsTitleGame(season.matchups, i) <==> i >= 0 && c == Some(i) { TitleIs(season.matchups, ns, aliases, i); }
    if c.Some? {
      assert IsTitleGame(season.matchups, c.value);
      TitleGameWinner(season.matchups[c.value], aliases);
      SumOfOne(Credit(WinnerOwner(ns[c.value]), Titles, 1), k, x);
    }
  }

  lemma {:induction false} TitleGameWinner(m: MatchupInput, aliases: Aliases)
    ensures WinnerOwner(CanonicalMatchup(m, aliases)) ==
      if HomeWon(m) then NormalizeOwner(m.homeOwner, aliases) else if AwayWon(m) then NormalizeOwner(m.awayOwner, aliases) else ""
    ensures !(HomeWon(m) && AwayWon(m))
  {
  }

  lemma {:induction false} TripCounts(season: SeasonInput, ns: seq<MatchupInput>, aliases: Aliases, k: string)
    requires AreCanonical(season.matchups, ns, aliases)
    ensures IsPlayoffOwner(ns, k) <==> MakesPlayoffs(season, aliases, k)
  {
    var ms := season.matchups;
    if IsPlayoffOwner(ns, k) {
      var n :| n in ns && InPlayoffsFor(n, k);
      var i :| 0 <= i < |ns| && ns[i] == n;
      assert ms[i] in ms;
    }
    if MakesPlayoffs(season, aliases, k) {
      var m :| m in ms && m.isPlayoff && m.matchupType == "WINNERS_BRACKET"
        && ((m.homePresent && NamedAs(m.homeOwner, aliases, k)) || (m.awayPresent && NamedAs(m.awayOwner, aliases, k)));
      var i :| 0 <= i < |ms| && ms[i] == m;
      assert ns[i] in ns && InPlayoffsFor(ns[i], k);
    }
  }

  lemma {:induction false} CanonicalParts(season: SeasonInput, aliases: Aliases)
    ensures AreCanonical(season.matchups, Canonical(season, aliases).matchups, aliases)
    ensures AreCanonicalTeams(season.teams, Canonical(season, aliases).teams, aliases)
  {
  }

  /** What one season adds to the entry `k`. */
  ghost function Added(season: SeasonInput, aliases: Aliases, k: string, x: Metric): int {
    match x
    case Seasons => SumOf(season.teams, Of(aliases, k, t => 1))
    case Wins => SumOf(season.teams, Of(aliases, k, (t: TeamInput) => t.wins))
    case Losses => SumOf(season.teams, Of(aliases, k, (t: TeamInput) => t.losses))
    case Ties => SumOf(season.teams, Of(aliases, k, (t: TeamInput) => t.ties))
    case PointsFor => SumOf(season.teams, Of(aliases, k, (t: TeamInput) => t.pointsFor))
    case PointsAgainst => SumOf(season.teams, Of(aliases, k, (t: TeamInput) => t.pointsAgainst))
    case Titles => if WinsTitle(season, aliases, k) then 1 else 0
    case PlayoffWins => CountIf(season.matchups, WonBy(aliases, k))
    case PlayoffLosses => CountIf(season.matchups, LostBy(aliases, k))
    case Trips => if MakesPlayoffs(season, aliases, k) then 1 else 0
    case Finals => if PlaysFinal(season, aliases, k) then 1 else 0
  }

  lemma {:induction false} TeamMetricAdds(season: SeasonInput, aliases: Aliases, k: string, x: Metric)
    requires OfTeams(x)
    ensures Sum(TeamCredits(Canonical(season, aliases).teams), k, x) == Added(season, aliases, k, x)
  {
    CanonicalParts(season, aliases);
    var ts, us := season.teams, Canonical(season, aliases).teams;
    match x
    case Seasons => TeamsSum(ts, us, aliases, k, x, t => 1);
    case Wins => TeamsSum(ts, us, aliases, k, x, (t: TeamInput) => t.wins);
    case Losses => TeamsSum(ts, us, aliases, k, x, (t: TeamInput) => t.losses);
    case Ties => TeamsSum(ts, us, aliases, k, x, (t: TeamInput) => t.ties);
    case PointsFor => TeamsSum(ts, us, aliases, k, x, (t: TeamInput) => t.pointsFor);
    case PointsAgainst => TeamsSum(ts, us, aliases, k, x, (t: TeamInput) => t.pointsAgainst);
  }

  predicate OfTeams(x: Metric) {
    x.Seasons? || x.Wins? || x.Losses? || x.Ties? || x.PointsFor? || x.PointsAgainst?
  }

  lemma {:induction false} PresenceAdds(season: SeasonInput, ns: seq<MatchupInput>, aliases: Aliases, k: string, x: Metric)
    requires AreCanonical(season.matchups, ns, aliases)
    ensures TripsOf(ns)(k, x) == if x == Trips then Added(season, aliases, k, Trips) else 0
    ensures FinalistsDelta(ns)(k, x) == if x == Finals then Added(season, aliases, k, Finals) else 0
  {
    FinalCounts(season, ns, aliases, k);
    TripCounts(season, ns, aliases, k);
  }

  lemma {:induction false} ResultsAdd(season: SeasonInput, ns: seq<MatchupInput>, aliases: Aliases, k: string, x: Metric)
    requires AreCanonical(season.matchups, ns, aliases)
    ensures TripsOf(ns)(k, x) + TitleDelta(ns)(k, x) + Sum(GameCredits(ns), k, x) == if OfTeams(x) then 0 else Added(season, aliases, k, x)
  {
    PresenceAdds(season, ns, aliases, k, x);
    GamesCount(season.matchups, ns, aliases, k, x);
    TitleCounts(season, ns, aliases, k, x);
    assert TitleDelta(ns)(k, x) == Sum(TitleCredits(ns), k, x) + FinalistsDelta(ns)(k, x);
    AddedElsewhere(season, aliases, k, x, TripsOf(ns)(k, x), FinalistsDelta(ns)(k, x), Sum(TitleCredits(ns), k, x), Sum(GameCredits(ns), k, x));
  }

  /** Each metric comes from one of the four. */
  lemma {:induction false} AddedElsewhere(season: SeasonInput, aliases: Aliases, k: string, x: Metric, trips: int, finals: int, title: int, games: int)
    requires trips == if x == Trips then Added(season, aliases, k, Trips) else 0
    requires finals == if x == Finals then Added(season, aliases, k, Finals) else 0
    requires title == if x == Titles && WinsTitle(season, aliases, k) then 1 else 0
    requires games ==
      if x == PlayoffWins then CountIf(season.matchups, WonBy(aliases, k)) else if x == PlayoffLosses then CountIf(season.matchups, LostBy(aliases, k)) else 0
    ensures trips + finals + title + games == if OfTeams(x) then 0 else Added(season, aliases, k, x)
  {
  }

  lemma {:induction false} SeasonAdds(season: SeasonInput, aliases: Aliases, k: string, x: Metric)
    ensures SeasonTally(Canonical(season, aliases), k, x) == Added(season, aliases, k, x)
  {
    var canonical := Canonical(season, aliases);
    CanonicalParts(season, aliases);
    SeasonParts(canonical, k, x);
    ResultsAdd(season, canonical.matchups, aliases, k, x);
    if OfTeams(x) {
      TeamMetricAdds(season, aliases, k, x);
    } else {
      NoTeamSum(canonical.teams, k, x);
    }
  }

  ghost function AddedOf(aliases: Aliases, k: string, x: Metric): SeasonInput -> int {
    s => Added(s, aliases, k, x)
  }

  lemma {:induction false} RollupAdds(seasons: seq<SeasonInput>, aliases: Aliases, k: string, x: Metric)
    ensures RollupTally(CanonicalSeasons(seasons, aliases), k, x) == SumOf(seasons, AddedOf(aliases, k, x))
  {
    var canonical := CanonicalSeasons(seasons, aliases);
    forall i | 0 <= i < |seasons| ensures SeasonTally(canonical[i], k, x) == AddedOf(aliases, k, x)(seasons[i]) {
      CanonicalAt(seasons, aliases, i);
      SeasonAdds(seasons[i], aliases, k, x);
    }
    SumOfSame(canonical, seasons, (s: SeasonInput) => SeasonTally(s, k, x), AddedOf(aliases, k, x));
  }

  lemma {:induction false} CanonicalAt(seasons: seq<SeasonInput>, aliases: Aliases, i: nat)
    requires i < |seasons|
    ensures CanonicalSeasons(seasons, aliases)[i] == Canonical(seasons[i], aliases)
    decreases |seasons|
  {
    if i < |seasons| - 1 {
      CanonicalAt(seasons[..|seasons| - 1], aliases, i);
    }
  }

  // ---- the tables ----

  /** Every figure of the playoff table, for any name, is the sum over the seasons of what each
      adds to it. */
  lemma {:induction false} PlayoffTableMeans(seasons: seq<SeasonInput>, aliases: Aliases, om: OwnerTable, pm: PlayoffTable, k: string)
    requires TablesFor(CanonicalSeasons(seasons, aliases), om, pm)
    ensures PlayoffAt(pm, k).wins == SumOf(seasons, AddedOf(aliases, k, PlayoffWins))
    ensures PlayoffAt(pm, k).losses == SumOf(seasons, AddedOf(aliases, k, PlayoffLosses))
    ensures PlayoffAt(pm, k).titles == SumOf(seasons, AddedOf(aliases, k, Titles))
    ensures PlayoffAt(pm, k).finalsAppearances == SumOf(seasons, AddedOf(aliases, k, Finals))
    ensures PlayoffAt(pm, k).appearances == SumOf(seasons, AddedOf(aliases, k, Trips))
  {
    var row := PlayoffAt(pm, k);
    forall x | InPlayoffTable(x) ensures PlayoffMetric(row, x) == SumOf(seasons, AddedOf(aliases, k, x)) {
      RollupAdds(seasons, aliases, k, x);
    }
    assert PlayoffMetric(row, PlayoffWins) == row.wins && PlayoffMetric(row, PlayoffLosses) == row.losses;
    assert PlayoffMetric(row, Titles) == row.titles && PlayoffMetric(row, Finals) == row.finalsAppearances;
    assert PlayoffMetric(row, Trips) == row.appearances;
  }

  /** So is every figure of the owner table. */
  lemma {:induction false} OwnerTableMeans(seasons: seq<SeasonInput>, aliases: Aliases, om: OwnerTable, pm: PlayoffTable, k: string)
    requires TablesFor(CanonicalSeasons(seasons, aliases), om, pm)
    ensures OwnerAt(om, k).seasons == SumOf(seasons, AddedOf(aliases, k, Seasons))
    ensures OwnerAt(om, k).wins == SumOf(seasons, AddedOf(aliases, k, Wins))
    ensures OwnerAt(om, k).losses == SumOf(seasons, AddedOf(aliases, k, Losses))
    ensures OwnerAt(om, k).ties == SumOf(seasons, AddedOf(aliases, k, Ties))
    ensures OwnerAt(om, k).pointsFor == SumOf(seasons, AddedOf(aliases, k, PointsFor))
    ensures OwnerAt(om, k).pointsAgainst == SumOf(seasons, AddedOf(aliases, k, PointsAgainst))
    ensures OwnerAt(om, k).titles == SumOf(seasons, AddedOf(aliases, k, Titles))
    ensures OwnerAt(om, k).playoffAppearances == SumOf(seasons, AddedOf(aliases, k, Trips))
  {
    var row := OwnerAt(om, k);
    forall x | InOwnerTable(x) ensures OwnerMetric(row, x) == SumOf(seasons, AddedOf(aliases, k, x)) {
      RollupAdds(seasons, aliases, k, x);
    }
    assert OwnerMetric(row, Seasons) == row.seasons && OwnerMetric(row, Wins) == row.wins && OwnerMetric(row, Losses) == row.losses;
    assert OwnerMetric(row, Ties) == row.ties && OwnerMetric(row, PointsFor) == row.pointsFor;
    assert OwnerMetric(row, PointsAgainst) == row.pointsAgainst;
    assert OwnerMetric(row, Titles) == row.titles && OwnerMetric(row, Trips) == row.playoffAppearances;
  }

  // ---- who has an entry ----

  lemma {:induction false} SumPositive<T>(s: seq<T>, f: T -> int)
    requires forall x :: x in s ==> f(x) >= 0
    ensures SumOf(s, f) >= 0
    ensures SumOf(s, f) > 0 <==> exists x :: x in s && f(x) > 0
    decreases |s|
  {
    if s != [] {
      var init, last := s[..|s| - 1], s[|s| - 1];
      assert s == init + [last];
      SumPositive(init, f);
    }
  }

  /** The season puts something under the name: a team, the title, or a place in the bracket. */
  ghost predicate Shows(season: SeasonInput, aliases: Aliases, k: string) {
    (exists t :: t in season.teams && CountedAs(t.owner, aliases, k)) || WinsTitle(season, aliases, k) || MakesPlayoffs(season, aliases, k)
  }

  lemma {:induction false} ShowsAdds(season: SeasonInput, aliases: Aliases, k: string)
    ensures Added(season, aliases, k, Seasons) >= 0
    ensures Added(season, aliases, k, Seasons) + Added(season, aliases, k, Titles) + Added(season, aliases, k, Trips) > 0 <==> Shows(season, aliases, k)
  {
    TeamsShow(season.teams, aliases, k);
    assert Added(season, aliases, k, Titles) == if WinsTitle(season, aliases, k) then 1 else 0;
    assert Added(season, aliases, k, Trips) == if MakesPlayoffs(season, aliases, k) then 1 else 0;
  }

  lemma {:induction false} TeamsShow(teams: seq<TeamInput>, aliases: Aliases, k: string)
    ensures SumOf(teams, Of(aliases, k, t => 1)) >= 0
    ensures SumOf(teams, Of(aliases, k, t => 1)) > 0 <==> exists t :: t in teams && CountedAs(t.owner, aliases, k)
  {
    var one := Of(aliases, k, t => 1);
    SumPositive(teams, one);
    assert forall t :: one(t) > 0 <==> CountedAs(t.owner, aliases, k);
  }

  /** A name has an entry in the owner table if and only if some season shows it. */
  lemma {:induction false} OwnerEntryExactly(seasons: seq<SeasonInput>, aliases: Aliases, om: OwnerTable, pm: PlayoffTable, k: string)
    requires TablesFor(CanonicalSeasons(seasons, aliases), om, pm)
    ensures k in om <==> exists s :: s in seasons && Shows(s, aliases, k)
  {
    OwnerTableMeans(seasons, aliases, om, pm, k);
    forall s ensures Added(s, aliases, k, Seasons) >= 0 && Added(s, aliases, k, Titles) >= 0 && Added(s, aliases, k, Trips) >= 0 {
      ShowsAdds(s, aliases, k);
    }
    SumPositive(seasons, AddedOf(aliases, k, Seasons));
    SumPositive(seasons, AddedOf(aliases, k, Titles));
    SumPositive(seasons, AddedOf(aliases, k, Trips));
    forall s ensures Shows(s, aliases, k) <==>
      AddedOf(aliases, k, Seasons)(s) > 0 || AddedOf(aliases, k, Titles)(s) > 0 || AddedOf(aliases, k, Trips)(s) > 0
    {
      ShowsAdds(s, aliases, k);
    }
    assert k in om <==> OwnerAt(om, k).seasons + OwnerAt(om, k).titles + OwnerAt(om, k).playoffAppearances > 0;
  }
}
