/** What each owner is owed: the meaning of the season rollup as sums of credits
    (`BuildPageDataFromSeasons` in `internal/stats/stats.go`), and its laws. */
module StatsTally {
  import opened Results
  import opened StatsSeason
  import opened Sums

  /** What the two owner tables accumulate. Titles and trips feed both tables. */
  datatype Metric =
    | Seasons | Wins | Losses | Ties | PointsFor | PointsAgainst
    | Titles | PlayoffWins | PlayoffLosses
    | Trips | Finals

  /** So much of one metric for one owner. */
  datatype Credit = Credit(owner: string, metric: Metric, value: int)

  /** The table key of an owner: blank owners share the entry of a literal "Unknown". */
  function Key(owner: string): (k: string)
    ensures k != ""
  {
    if owner == "" then "Unknown" else owner
  }

  // ---- what one season credits ----

  function TeamCredit(t: TeamInput): seq<Credit> {
    var k := Key(t.owner);
    [Credit(k, Seasons, 1), Credit(k, Wins, t.wins), Credit(k, Losses, t.losses), Credit(k, Ties, t.ties),
     Credit(k, PointsFor, t.pointsFor), Credit(k, PointsAgainst, t.pointsAgainst)]
  }

  function TeamCredits(teams: seq<TeamInput>): seq<Credit> {
    if teams == [] then [] else TeamCredits(teams[..|teams| - 1]) + TeamCredit(teams[|teams| - 1])
  }

  /** A played winners-bracket game with a winner credits one win and one loss. */
  function GameCredit(m: MatchupInput): seq<Credit> {
    if !BothPresent(m) || !InWinnersBracket(m) then []
    else
      match ResultWinner(m)
      case WinnerHome => [Credit(Key(m.homeOwner), PlayoffWins, 1), Credit(Key(m.awayOwner), PlayoffLosses, 1)]
      case WinnerAway => [Credit(Key(m.awayOwner), PlayoffWins, 1), Credit(Key(m.homeOwner), PlayoffLosses, 1)]
      case WinnerUnknown => []
  }

  function GameCredits(ms: seq<MatchupInput>): seq<Credit> {
    if ms == [] then [] else GameCredits(ms[..|ms| - 1]) + GameCredit(ms[|ms| - 1])
  }

  function TitleCredits(ms: seq<MatchupInput>): seq<Credit> {
    var c := Championship(ms);
    if c.Some? && WinnerOwner(c.value) != "" then [Credit(WinnerOwner(c.value), Titles, 1)] else []
  }

  function Credits(season: SeasonInput): seq<Credit> {
    TeamCredits(season.teams) + TitleCredits(season.matchups) + GameCredits(season.matchups)
  }

  /** Being in the playoffs or in the final counts once a season. */
  ghost function Presence(season: SeasonInput, o: string, x: Metric): int {
    match x
    case Trips => if IsPlayoffOwner(season.matchups, o) then 1 else 0
    case Finals => if IsFinalist(season.matchups, o) then 1 else 0
    case _ => 0
  }

  function Worth(c: Credit, o: string, x: Metric): int {
    if c.owner == o && c.metric == x then c.value else 0
  }

  function Sum(credits: seq<Credit>, o: string, x: Metric): int {
    if credits == [] then 0
    else Sum(credits[..|credits| - 1], o, x) + Worth(credits[|credits| - 1], o, x)
  }

  ghost function SeasonTally(season: SeasonInput, o: string, x: Metric): int {
    Sum(Credits(season), o, x) + Presence(season, o, x)
  }

  /** What owner `o` has of metric `x` after these seasons, already canonical. */
  ghost function RollupTally(seasons: seq<SeasonInput>, o: string, x: Metric): int {
    SumOf(seasons, (s: SeasonInput) => SeasonTally(s, o, x))
  }

  // ---- sums ----

  lemma {:induction false} SumConcat(a: seq<Credit>, b: seq<Credit>, o: string, x: Metric)
    ensures Sum(a + b, o, x) == Sum(a, o, x) + Sum(b, o, x)
    decreases |b|
  {
    if b == [] {
      assert a + b == a;
    } else {
      var n := |b| - 1;
      SumConcat(a, b[..n], o, x);
      assert (a + b)[..|a + b| - 1] == a + b[..n];
    }
  }

  lemma {:induction false} SumOfOne(c: Credit, o: string, x: Metric)
    ensures Sum([c], o, x) == Worth(c, o, x)
  {
    assert [c][..0] == [];
  }

  lemma {:induction false} SumOfSix(c: seq<Credit>, o: string, x: Metric)
    requires |c| == 6
    ensures Sum(c, o, x) == Worth(c[0], o, x) + Worth(c[1], o, x) + Worth(c[2], o, x) + Worth(c[3], o, x) + Worth(c[4], o, x) + Worth(c[5], o, x)
  {
    SumOfOne(c[0], o, x);
    assert c[..1] == [c[0]];
    assert c[..2][..1] == c[..1] && c[..3][..2] == c[..2] && c[..4][..3] == c[..3] && c[..5][..4] == c[..4];
    assert Sum(c[..2], o, x) == Sum(c[..1], o, x) + Worth(c[1], o, x);
    assert Sum(c[..3], o, x) == Sum(c[..2], o, x) + Worth(c[2], o, x);
    assert Sum(c[..4], o, x) == Sum(c[..3], o, x) + Worth(c[3], o, x);
    assert Sum(c[..5], o, x) == Sum(c[..4], o, x) + Worth(c[4], o, x);
  }

  // ---- seasons in any order ----

  /** The totals over two lists of seasons are the pointwise sums of the totals over each. */
  lemma {:induction false} RollupSplits(a: seq<SeasonInput>, b: seq<SeasonInput>, o: string, x: Metric)
    ensures RollupTally(a + b, o, x) == RollupTally(a, o, x) + RollupTally(b, o, x)
  {
    SumOfConcat(a, b, (s: SeasonInput) => SeasonTally(s, o, x));
  }

  lemma {:induction false} RollupOfOne(s: SeasonInput, o: string, x: Metric)
    ensures RollupTally([s], o, x) == SeasonTally(s, o, x)
  {
    SumOfSingle(s, (s: SeasonInput) => SeasonTally(s, o, x));
  }

  lemma {:induction false} RollupOrderFree(seasons: seq<SeasonInput>, perm: seq<SeasonInput>, o: string, x: Metric)
    requires multiset(perm) == multiset(seasons)
    ensures RollupTally(perm, o, x) == RollupTally(seasons, o, x)
  {
    SumOfReorder(seasons, perm, (s: SeasonInput) => SeasonTally(s, o, x));
  }
}
