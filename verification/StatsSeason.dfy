/** One season of statistics input (`internal/stats/stats.go`): who won a game,
    which game was the championship, who was in the playoffs, owner names made canonical. */
module StatsSeason {
  import opened OwnerNames
  import opened Results

  datatype Winner = WinnerUnknown | WinnerHome | WinnerAway

  datatype TeamInput = TeamInput(
    owner: string,
    wins: int,
    losses: int,
    ties: int,
    finalStanding: int,
    pointsFor: int,
    pointsAgainst: int)

  /** Scores and points are in hundredths, as mathematical integers. */
  datatype MatchupInput = MatchupInput(
    week: int,
    homePresent: bool,
    awayPresent: bool,
    homeOwner: string,
    homeTeamName: string,
    homeScore: int,
    awayOwner: string,
    awayTeamName: string,
    awayScore: int,
    isPlayoff: bool,
    isChampionship: bool,
    championshipWinner: Winner,
    matchupType: string)

  datatype SeasonInput = SeasonInput(year: int, teams: seq<TeamInput>, matchups: seq<MatchupInput>)

  const WINNERS_BRACKET := "WINNERS_BRACKET"

  predicate BothPresent(m: MatchupInput) {
    m.homePresent && m.awayPresent
  }

  predicate InWinnersBracket(m: MatchupInput) {
    m.isPlayoff && m.matchupType == WINNERS_BRACKET
  }

  /** The official winner of a championship if one is named, else the higher score. */
  function ResultWinner(m: MatchupInput): Winner {
    if m.isChampionship && m.championshipWinner != WinnerUnknown then m.championshipWinner
    else if m.homeScore > m.awayScore then WinnerHome
    else if m.awayScore > m.homeScore then WinnerAway
    else WinnerUnknown
  }

  /** Owner credited with a championship game: blank when nobody won it. */
  function WinnerOwner(m: MatchupInput): string {
    match ResultWinner(m)
    case WinnerHome => m.homeOwner
    case WinnerAway => m.awayOwner
    case WinnerUnknown => ""
  }

  // ---- the championship game ----

  predicate ChampionshipCandidate(m: MatchupInput) {
    BothPresent(m) && m.isChampionship
  }

  /** Index of the first candidate of the greatest week; none without candidates. */
  function ChampionshipIndex(ms: seq<MatchupInput>): (r: Option<nat>)
    ensures r.Some? ==> r.value < |ms| && ChampionshipCandidate(ms[r.value])
    ensures r.Some? ==> forall j :: 0 <= j < |ms| && ChampionshipCandidate(ms[j]) ==>
      ms[j].week <= ms[r.value].week && (ms[j].week == ms[r.value].week ==> r.value <= j)
    ensures r.None? ==> forall j :: 0 <= j < |ms| ==> !ChampionshipCandidate(ms[j])
  {
    if ms == [] then None
    else
      var n := |ms| - 1;
      var before := ChampionshipIndex(ms[..n]);
      assert forall j :: 0 <= j < n ==> ms[..n][j] == ms[j];
      if ChampionshipCandidate(ms[n]) && (before.None? || ms[n].week > ms[before.value].week) then Some(n)
      else before
  }

  method FindChampionshipMatch(ms: seq<MatchupInput>) returns (r: Option<MatchupInput>)
    ensures r == Championship(ms)
  {
    r := None;
    for i := 0 to |ms|
      invariant r == Championship(ms[..i])
    {
      ChampionshipStep(ms, i);
      if ms[i].homePresent && ms[i].awayPresent && ms[i].isChampionship {
        if r.None? || ms[i].week > r.value.week {
          r := Some(ms[i]);
        }
      }
    }
    assert ms[..|ms|] == ms;
  }

  function Championship(ms: seq<MatchupInput>): Option<MatchupInput> {
    var i := ChampionshipIndex(ms);
    if i.Some? then Some(ms[i.value]) else None
  }

  lemma {:induction false} ChampionshipStep(ms: seq<MatchupInput>, i: nat)
    requires i < |ms|
    ensures Championship(ms[..i + 1]) ==
      if ChampionshipCandidate(ms[i]) && (Championship(ms[..i]).None? || ms[i].week > Championship(ms[..i]).value.week)
      then Some(ms[i]) else Championship(ms[..i])
  {
    assert ms[..i + 1][..i] == ms[..i];
  }

  // ---- playoff owners ----

  /** `o` is on a side that is present in a winners-bracket row, a bye included. */
  predicate InPlayoffsFor(m: MatchupInput, o: string) {
    InWinnersBracket(m) && ((m.homePresent && m.homeOwner == o) || (m.awayPresent && m.awayOwner == o))
  }

  ghost predicate IsPlayoffOwner(ms: seq<MatchupInput>, o: string) {
    o != "" && exists m :: m in ms && InPlayoffsFor(m, o)
  }

  /** `o` is on a side of the championship game. */
  predicate IsFinalist(ms: seq<MatchupInput>, o: string) {
    o != "" && Championship(ms).Some? && (Championship(ms).value.homeOwner == o || Championship(ms).value.awayOwner == o)
  }

  method CollectPlayoffOwners(ms: seq<MatchupInput>) returns (owners: set<string>)
    ensures forall o :: o in owners <==> IsPlayoffOwner(ms, o)
  {
    owners := {};
    for i := 0 to |ms|
      invariant forall o :: o in owners <==> IsPlayoffOwner(ms[..i], o)
    {
      var m := ms[i];
      PlayoffOwnerStep(ms, i);
      OwnersOfOne(m);
      if m.isPlayoff && m.matchupType == WINNERS_BRACKET {
        if m.homePresent && m.homeOwner != "" { owners := owners + {m.homeOwner}; }
        if m.awayPresent && m.awayOwner != "" { owners := owners + {m.awayOwner}; }
      }
    }
    assert ms[..|ms|] == ms;
  }

  lemma {:induction false} PlayoffOwnerStep(ms: seq<MatchupInput>, i: nat)
    requires i < |ms|
    ensures forall o :: IsPlayoffOwner(ms[..i + 1], o) <==> IsPlayoffOwner(ms[..i], o) || IsPlayoffOwner([ms[i]], o)
  {
    var more := ms[..i + 1];
    assert forall m :: m in more <==> m in ms[..i] || m == ms[i];
  }

  lemma {:induction false} OwnersOfOne(m: MatchupInput)
    ensures forall o :: IsPlayoffOwner([m], o) <==> o != "" && InPlayoffsFor(m, o)
  {
    assert m in [m];
  }

  // ---- canonical owners ----

  function CanonicalTeam(t: TeamInput, aliases: Aliases): TeamInput {
    t.(owner := NormalizeOwner(t.owner, aliases))
  }

  function CanonicalMatchup(m: MatchupInput, aliases: Aliases): MatchupInput {
    m.(homeOwner := NormalizeOwner(m.homeOwner, aliases), awayOwner := NormalizeOwner(m.awayOwner, aliases))
  }

  function Canonical(season: SeasonInput, aliases: Aliases): SeasonInput {
    SeasonInput(
      season.year,
      seq(|season.teams|, i requires 0 <= i < |season.teams| => CanonicalTeam(season.teams[i], aliases)),
      seq(|season.matchups|, i requires 0 <= i < |season.matchups| => CanonicalMatchup(season.matchups[i], aliases)))
  }

  /** Copies the season and rewrites the copies; the input stays as it was. */
  method CanonicalizeSeason(season: SeasonInput, aliases: Aliases) returns (canonical: SeasonInput)
    ensures canonical == Canonical(season, aliases)
  {
    var teams := season.teams;
    for i := 0 to |teams|
      invariant |teams| == |season.teams|
      invariant forall k :: 0 <= k < i ==> teams[k] == CanonicalTeam(season.teams[k], aliases)
      invariant forall k :: i <= k < |teams| ==> teams[k] == season.teams[k]
    {
      teams := teams[i := teams[i].(owner := NormalizeOwner(teams[i].owner, aliases))];
    }
    var matchups := season.matchups;
    for i := 0 to |matchups|
      invariant |matchups| == |season.matchups|
      invariant forall k :: 0 <= k < i ==> matchups[k] == CanonicalMatchup(season.matchups[k], aliases)
      invariant forall k :: i <= k < |matchups| ==> matchups[k] == season.matchups[k]
    {
      var home := matchups[i].(homeOwner := NormalizeOwner(matchups[i].homeOwner, aliases));
      matchups := matchups[i := home.(awayOwner := NormalizeOwner(home.awayOwner, aliases))];
    }
    canonical := season.(teams := teams, matchups := matchups);
    assert canonical.teams == Canonical(season, aliases).teams;
    assert canonical.matchups == Canonical(season, aliases).matchups;
  }

  /** Owner names never decide which game is the championship. */
  lemma {:induction false} ChampionshipIgnoresOwners(ms: seq<MatchupInput>, ns: seq<MatchupInput>)
    requires |ms| == |ns|
    requires forall i :: 0 <= i < |ms| ==> ns[i].week == ms[i].week && (ChampionshipCandidate(ns[i]) <==> ChampionshipCandidate(ms[i]))
    ensures ChampionshipIndex(ns) == ChampionshipIndex(ms)
  {
    var i, j := ChampionshipIndex(ms), ChampionshipIndex(ns);
    if i.Some? && j.Some? {
      assert ms[j.value].week <= ms[i.value].week && ns[i.value].week <= ns[j.value].week;
    }
  }
}
