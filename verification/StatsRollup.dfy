/** The rollup itself (`BuildPageDataFromSeasons` in `internal/stats/stats.go`): tables of
    running totals and three record books, updated season by season. */
module StatsRollup {
  import opened OwnerNames
  import opened Records
  import opened Results
  import opened Sorting
  import opened StatsSeason
  import opened StatsTally
  import opened StatsLaws

  datatype OwnerTotal = OwnerTotal(
    owner: string,
    seasons: int,
    wins: int,
    losses: int,
    ties: int,
    titles: int,
    playoffAppearances: int,
    pointsFor: int,
    pointsAgainst: int)

  datatype PlayoffOwnerTotal = PlayoffOwnerTotal(
    owner: string,
    appearances: int,
    finalsAppearances: int,
    wins: int,
    losses: int,
    titles: int)

  datatype SeasonRecord = SeasonRecord(
    owner: string,
    year: int,
    wins: int,
    losses: int,
    ties: int,
    finalStanding: int,
    pointsFor: int,
    pointsAgainst: int)

  datatype ChampionRecord = ChampionRecord(
    year: int,
    owner: string,
    teamName: string,
    opponent: string,
    winningScore: int,
    losingScore: int)

  type OwnerTable = map<string, OwnerTotal>
  type PlayoffTable = map<string, PlayoffOwnerTotal>

  // ---- reading the tables by metric ----

  predicate InOwnerTable(x: Metric) {
    x.Seasons? || x.Wins? || x.Losses? || x.Ties? || x.PointsFor? || x.PointsAgainst? || x.Titles? || x.Trips?
  }

  predicate InPlayoffTable(x: Metric) {
    x.Titles? || x.PlayoffWins? || x.PlayoffLosses? || x.Trips? || x.Finals?
  }

  function OwnerMetric(t: OwnerTotal, x: Metric): int {
    match x
    case Seasons => t.seasons
    case Wins => t.wins
    case Losses => t.losses
    case Ties => t.ties
    case PointsFor => t.pointsFor
    case PointsAgainst => t.pointsAgainst
    case Titles => t.titles
    case Trips => t.playoffAppearances
    case _ => 0
  }

  function PlayoffMetric(t: PlayoffOwnerTotal, x: Metric): int {
    match x
    case Titles => t.titles
    case PlayoffWins => t.wins
    case PlayoffLosses => t.losses
    case Trips => t.appearances
    case Finals => t.finalsAppearances
    case _ => 0
  }

  function NewOwner(o: string): OwnerTotal {
    OwnerTotal(o, 0, 0, 0, 0, 0, 0, 0, 0)
  }

  function NewPlayoffOwner(o: string): PlayoffOwnerTotal {
    PlayoffOwnerTotal(o, 0, 0, 0, 0, 0)
  }

  function OwnerAt(m: OwnerTable, o: string): OwnerTotal {
    if o in m then m[o] else NewOwner(o)
  }

  function PlayoffAt(m: PlayoffTable, o: string): PlayoffOwnerTotal {
    if o in m then m[o] else NewPlayoffOwner(o)
  }

  /** A value that grows by whole steps: what must be added for each owner and metric. */
  type Delta = (string, Metric) -> int

  /** The tables grew by `d`: metric for metric, every owner has `d` more. */
  ghost predicate OwnersAdvance(m: OwnerTable, m': OwnerTable, d: Delta) {
    forall o, x :: InOwnerTable(x) ==> OwnerMetric(OwnerAt(m', o), x) == OwnerMetric(OwnerAt(m, o), x) + d(o, x)
  }

  ghost predicate PlayoffsAdvance(m: PlayoffTable, m': PlayoffTable, d: Delta) {
    forall o, x :: InPlayoffTable(x) ==> PlayoffMetric(PlayoffAt(m', o), x) == PlayoffMetric(PlayoffAt(m, o), x) + d(o, x)
  }

  /** Entries sit under their own name and exist only for owners with something to show. */
  ghost predicate GoodOwners(m: OwnerTable) {
    forall k :: k in m ==>
      && m[k].owner == k
      && m[k].seasons >= 0 && m[k].titles >= 0 && m[k].playoffAppearances >= 0
      && m[k].seasons + m[k].titles + m[k].playoffAppearances > 0
  }

  ghost predicate GoodPlayoffs(m: PlayoffTable) {
    forall k :: k in m ==>
      && m[k].owner == k
      && m[k].appearances >= 0 && m[k].finalsAppearances >= 0 && m[k].wins >= 0 && m[k].losses >= 0 && m[k].titles >= 0
      && m[k].appearances + m[k].finalsAppearances + m[k].wins + m[k].losses + m[k].titles > 0
  }

  ghost predicate Advance(om: OwnerTable, pm: PlayoffTable, om': OwnerTable, pm': PlayoffTable, d: Delta) {
    && OwnersAdvance(om, om', d) && PlayoffsAdvance(pm, pm', d)
    && (GoodOwners(om) ==> GoodOwners(om')) && (GoodPlayoffs(pm) ==> GoodPlayoffs(pm'))
  }

  lemma {:induction false} AdvanceTwice(
      om: OwnerTable, pm: PlayoffTable, om1: OwnerTable, pm1: PlayoffTable, om2: OwnerTable, pm2: PlayoffTable, d: Delta, e: Delta, sum: Delta)
    requires Advance(om, pm, om1, pm1, d) && Advance(om1, pm1, om2, pm2, e)
    requires forall o, x :: sum(o, x) == d(o, x) + e(o, x)
    ensures Advance(om, pm, om2, pm2, sum)
  {
  }

  lemma {:induction false} AdvanceBy(om: OwnerTable, pm: PlayoffTable, om': OwnerTable, pm': PlayoffTable, d: Delta, e: Delta)
    requires Advance(om, pm, om', pm', d) && forall o, x :: e(o, x) == d(o, x)
    ensures Advance(om, pm, om', pm', e)
  {
  }

  lemma {:induction false} StandStill(om: OwnerTable, pm: PlayoffTable, d: Delta)
    requires forall o, x :: d(o, x) == 0
    ensures Advance(om, pm, om, pm, d)
  {
  }

  ghost function CreditsDelta(credits: seq<Credit>): Delta {
    (o, x) => Sum(credits, o, x)
  }

  // ---- single updates ----

  /** One team: a season and its record for the owner. */
  lemma {:induction false} TeamAdvances(om: OwnerTable, pm: PlayoffTable, t: TeamInput)
    ensures var k := Key(t.owner);
      var a := OwnerAt(om, k);
      Advance(om, pm,
        om[k := a.(owner := k, seasons := a.seasons + 1, wins := a.wins + t.wins, losses := a.losses + t.losses, ties := a.ties + t.ties,
          pointsFor := a.pointsFor + t.pointsFor, pointsAgainst := a.pointsAgainst + t.pointsAgainst)],
        pm, CreditsDelta(TeamCredit(t)))
  {
    var k := Key(t.owner);
    forall o, x ensures Sum(TeamCredit(t), o, x) == if o == k then TeamPart(x)(t) else 0 {
      SumOfTeam(t, o, x);
    }
  }

  lemma {:induction false} SumOfTeam(t: TeamInput, o: string, x: Metric)
    ensures Sum(TeamCredit(t), o, x) == if o == Key(t.owner) then TeamPart(x)(t) else 0
  {
    SumOfSix(TeamCredit(t), o, x);
  }

  ghost function UnitDelta(owner: string, metric: Metric): Delta {
    (o, x) => if o == owner && x == metric then 1 else 0
  }

  function BumpOwner(m: OwnerTable, k: string, x: Metric): OwnerTable
    requires x.Titles? || x.Trips?
  {
    var a := OwnerAt(m, k);
    m[k := if x.Titles? then a.(owner := k, titles := a.titles + 1) else a.(owner := k, playoffAppearances := a.playoffAppearances + 1)]
  }

  function BumpPlayoff(m: PlayoffTable, k: string, x: Metric): PlayoffTable
    requires InPlayoffTable(x)
  {
    var a := PlayoffAt(m, k);
    var b :=
      match x
      case Titles => a.(titles := a.titles + 1)
      case PlayoffWins => a.(wins := a.wins + 1)
      case PlayoffLosses => a.(losses := a.losses + 1)
      case Trips => a.(appearances := a.appearances + 1)
      case _ => a.(finalsAppearances := a.finalsAppearances + 1);
    m[k := b.(owner := k)]
  }

  lemma {:induction false} BumpOwnerGrows(om: OwnerTable, k: string, x: Metric)
    requires x.Titles? || x.Trips?
    ensures OwnersAdvance(om, BumpOwner(om, k, x), UnitDelta(k, x))
    ensures GoodOwners(om) ==> GoodOwners(BumpOwner(om, k, x))
  {
  }

  lemma {:induction false} BumpPlayoffGrows(pm: PlayoffTable, k: string, x: Metric)
    requires InPlayoffTable(x)
    ensures PlayoffsAdvance(pm, BumpPlayoff(pm, k, x), UnitDelta(k, x))
    ensures GoodPlayoffs(pm) ==> GoodPlayoffs(BumpPlayoff(pm, k, x))
  {
  }

  lemma {:induction false} BumpBothAdvances(om: OwnerTable, pm: PlayoffTable, k: string, x: Metric)
    requires x.Titles? || x.Trips?
    ensures Advance(om, pm, BumpOwner(om, k, x), BumpPlayoff(pm, k, x), UnitDelta(k, x))
  {
    BumpOwnerGrows(om, k, x);
    BumpPlayoffGrows(pm, k, x);
  }

  lemma {:induction false} BumpPlayoffAdvances(om: OwnerTable, pm: PlayoffTable, k: string, x: Metric)
    requires InPlayoffTable(x) && !InOwnerTable(x)
    ensures Advance(om, pm, om, BumpPlayoff(pm, k, x), UnitDelta(k, x))
  {
    BumpPlayoffGrows(pm, k, x);
  }

  ghost function GameDelta(m: MatchupInput): Delta {
    CreditsDelta(GameCredit(m))
  }

  lemma {:induction false} SumOfTwo(c: Credit, d: Credit, o: string, x: Metric)
    ensures Sum([c, d], o, x) == Worth(c, o, x) + Worth(d, o, x)
  {
    SumOfOne(c, o, x);
    assert [c, d][..1] == [c];
  }

  /** A decided winners-bracket game: one win here, one loss there. */
  lemma {:induction false} ResultAdvances(om: OwnerTable, pm: PlayoffTable, m: MatchupInput, winner: string, loser: string)
    requires GameCredit(m) == [Credit(winner, PlayoffWins, 1), Credit(loser, PlayoffLosses, 1)]
    ensures Advance(om, pm, om, BumpPlayoff(BumpPlayoff(pm, winner, PlayoffWins), loser, PlayoffLosses), GameDelta(m))
  {
    var pm1 := BumpPlayoff(pm, winner, PlayoffWins);
    var pm2 := BumpPlayoff(pm1, loser, PlayoffLosses);
    BumpPlayoffAdvances(om, pm, winner, PlayoffWins);
    BumpPlayoffAdvances(om, pm1, loser, PlayoffLosses);
    forall o, x ensures GameDelta(m)(o, x) == UnitDelta(winner, PlayoffWins)(o, x) + UnitDelta(loser, PlayoffLosses)(o, x) {
      SumOfTwo(Credit(winner, PlayoffWins, 1), Credit(loser, PlayoffLosses, 1), o, x);
    }
    AdvanceTwice(om, pm, om, pm1, om, pm2, UnitDelta(winner, PlayoffWins), UnitDelta(loser, PlayoffLosses), GameDelta(m));
  }

  // ---- what a season appends ----

  function SeasonRecordOf(t: TeamInput, year: int): SeasonRecord {
    SeasonRecord(Key(t.owner), year, t.wins, t.losses, t.ties, t.finalStanding, t.pointsFor, t.pointsAgainst)
  }

  function SeasonRecords(teams: seq<TeamInput>, year: int): seq<SeasonRecord> {
    seq(|teams|, i requires 0 <= i < |teams| => SeasonRecordOf(teams[i], year))
  }

  /** The champion record of a season, if its title game was won by a named owner. */
  function TitleRecords(season: SeasonInput): seq<ChampionRecord> {
    if !Crowned(season.matchups) then []
    else
      var m := Championship(season.matchups).value;
      if ResultWinner(m) == WinnerHome
      then [ChampionRecord(season.year, m.homeOwner, m.homeTeamName, m.awayTeamName, m.homeScore, m.awayScore)]
      else [ChampionRecord(season.year, m.awayOwner, m.awayTeamName, m.homeTeamName, m.awayScore, m.homeScore)]
  }

  function PlayedGames(ms: seq<MatchupInput>, year: int): seq<Fed> {
    if ms == [] then []
    else PlayedGames(ms[..|ms| - 1], year) + if BothPresent(ms[|ms| - 1]) then [Fed(ms[|ms| - 1], year)] else []
  }

  function PlayoffGames(ms: seq<MatchupInput>, year: int): seq<Fed> {
    if ms == [] then []
    else
      PlayoffGames(ms[..|ms| - 1], year)
      + if BothPresent(ms[|ms| - 1]) && InWinnersBracket(ms[|ms| - 1]) then [Fed(ms[|ms| - 1], year)] else []
  }

  function TitleGames(season: SeasonInput): seq<Fed> {
    if Championship(season.matchups).Some? then [Fed(Championship(season.matchups).value, season.year)] else []
  }

  // ---- the running state ----

  class Rollup {
    var owners: OwnerTable
    var playoffs: PlayoffTable
    var bestRegularSeasons: seq<SeasonRecord>
    var champions: seq<ChampionRecord>
    var matchupCount: nat
    const allRecords: RecordBook
    const playoffRecords: RecordBook
    const championshipRecords: RecordBook
    ghost var played: seq<Fed>
    ghost var playoffGames: seq<Fed>
    ghost var titleGames: seq<Fed>

    ghost predicate Valid()
      reads this, allRecords, playoffRecords, championshipRecords
    {
      && allRecords != playoffRecords && allRecords != championshipRecords && playoffRecords != championshipRecords
      && allRecords.Contents() == ShownAll(played)
      && playoffRecords.Contents() == ShownAll(playoffGames)
      && championshipRecords.Contents() == ShownAll(titleGames)
      && matchupCount == |played|
    }

    constructor ()
      ensures Valid() && fresh(allRecords) && fresh(playoffRecords) && fresh(championshipRecords)
      ensures owners == map[] && playoffs == map[] && bestRegularSeasons == [] && champions == []
      ensures played == playoffGames == titleGames == []
    {
      owners, playoffs := map[], map[];
      bestRegularSeasons, champions := [], [];
      matchupCount := 0;
      played, playoffGames, titleGames := [], [], [];
      allRecords := new RecordBook();
      playoffRecords := new RecordBook();
      championshipRecords := new RecordBook();
    }

    method AddTeam(t: TeamInput, year: int)
      modifies this`owners, this`bestRegularSeasons
      ensures Advance(old(owners), playoffs, owners, playoffs, CreditsDelta(TeamCredit(t)))
      ensures bestRegularSeasons == old(bestRegularSeasons) + [SeasonRecordOf(t, year)]
    {
      TeamAdvances(owners, playoffs, t);
      var k := Key(t.owner);
      var total := OwnerAt(owners, k).(owner := k);
      total := total.(seasons := total.seasons + 1);
      total := total.(wins := total.wins + t.wins);
      total := total.(losses := total.losses + t.losses);
      total := total.(ties := total.ties + t.ties);
      total := total.(pointsFor := total.pointsFor + t.pointsFor);
      total := total.(pointsAgainst := total.pointsAgainst + t.pointsAgainst);
      owners := owners[k := total];
      bestRegularSeasons := bestRegularSeasons +
        [SeasonRecord(total.owner, year, t.wins, t.losses, t.ties, t.finalStanding, t.pointsFor, t.pointsAgainst)];
    }

    method AddTeams(season: SeasonInput)
      requires Valid()
      modifies this`owners, this`bestRegularSeasons
      ensures Valid()
      ensures Advance(old(owners), playoffs, owners, playoffs, CreditsDelta(TeamCredits(season.teams)))
      ensures bestRegularSeasons == old(bestRegularSeasons) + SeasonRecords(season.teams, season.year)
    {
      var teams := season.teams;
      StandStill(owners, playoffs, CreditsDelta(TeamCredits(teams[..0])));
      for i := 0 to |teams|
        invariant Valid()
        invariant Advance(old(owners), playoffs, owners, playoffs, CreditsDelta(TeamCredits(teams[..i])))
        invariant bestRegularSeasons == old(bestRegularSeasons) + SeasonRecords(teams[..i], season.year)
      {
        ghost var om := owners;
        AddTeam(teams[i], season.year);
        TeamsStep(teams, i, season.year, old(owners), om, owners, playoffs);
      }
      assert teams[..|teams|] == teams;
    }

    method AddTrip(owner: string, ghost om: OwnerTable, ghost pm: PlayoffTable, ghost done: set<string>)
      requires Valid() && owner !in done && Advance(om, pm, owners, playoffs, TripsDelta(done))
      modifies this`owners, this`playoffs
      ensures Valid()
      ensures Advance(om, pm, owners, playoffs, TripsDelta(done + {owner}))
    {
      TripAdvances(om, pm, owners, playoffs, owner, done);
      owners := BumpOwner(owners, owner, Trips);
      playoffs := BumpPlayoff(playoffs, owner, Trips);
    }

    /** One trip each for the owners in the playoffs, in whatever order the set is ranged over. */
    method AddTrips(ms: seq<MatchupInput>)
      requires Valid()
      modifies this`owners, this`playoffs
      ensures Valid()
      ensures Advance(old(owners), old(playoffs), owners, playoffs, TripsOf(ms))
    {
      var remaining := CollectPlayoffOwners(ms);
      ghost var done: set<string> := {};
      StandStill(owners, playoffs, TripsDelta({}));
      while remaining != {}
        invariant Valid() && done !! remaining
        invariant forall o :: o in done || o in remaining <==> IsPlayoffOwner(ms, o)
        invariant Advance(old(owners), old(playoffs), owners, playoffs, TripsDelta(done))
        decreases remaining
      {
        var owner :| owner in remaining;
        AddTrip(owner, old(owners), old(playoffs), done);
        remaining := remaining - {owner};
        done := done + {owner};
      }
      AllTripsAdvance(old(owners), old(playoffs), owners, playoffs, done, ms);
    }

    /** The title of a won championship, in both tables and in the list of champions. */
    method CreditTitle(season: SeasonInput, m: MatchupInput)
      requires Valid() && Championship(season.matchups) == Some(m)
      modifies this`owners, this`playoffs, this`champions
      ensures Valid()
      ensures Advance(old(owners), old(playoffs), owners, playoffs, CreditsDelta(TitleCredits(season.matchups)))
      ensures champions == old(champions) + TitleRecords(season)
    {
      var winnerOwner := WinnerOwner(m);
      if winnerOwner != "" {
        BumpBothAdvances(owners, playoffs, winnerOwner, Titles);
        owners := BumpOwner(owners, winnerOwner, Titles);
        playoffs := BumpPlayoff(playoffs, winnerOwner, Titles);
        var record :=
          if ResultWinner(m) == WinnerHome
          then ChampionRecord(season.year, winnerOwner, m.homeTeamName, m.awayTeamName, m.homeScore, m.awayScore)
          else ChampionRecord(season.year, winnerOwner, m.awayTeamName, m.homeTeamName, m.awayScore, m.homeScore);
        champions := champions + [record];
      }
      TitleAdvances(old(owners), old(playoffs), owners, playoffs, season.matchups);
    }

    method CreditFinalists(ms: seq<MatchupInput>, m: MatchupInput)
      requires Valid() && Championship(ms) == Some(m)
      modifies this`playoffs
      ensures Valid()
      ensures Advance(owners, old(playoffs), owners, playoffs, FinalistsDelta(ms))
    {
      ghost var pm := playoffs;
      if m.homeOwner != "" {
        playoffs := BumpPlayoff(playoffs, m.homeOwner, Finals);
      }
      if m.awayOwner != "" && m.awayOwner != m.homeOwner {
        playoffs := BumpPlayoff(playoffs, m.awayOwner, Finals);
      }
      FinalistsAdvance(owners, pm, playoffs, ms);
    }

    method RecordTitleGame(m: MatchupInput, year: int)
      requires Valid()
      modifies this`titleGames, championshipRecords
      ensures Valid()
      ensures titleGames == old(titleGames) + [Fed(m, year)]
    {
      ShownAllStep(titleGames, Fed(m, year));
      championshipRecords.Update(m, year);
      titleGames := titleGames + [Fed(m, year)];
    }

    /** The championship of a season: the title, its record, and the two finalists. */
    method AddChampionship(season: SeasonInput)
      requires Valid()
      modifies this`owners, this`playoffs, this`champions, this`titleGames, championshipRecords
      ensures Valid()
      ensures Advance(old(owners), old(playoffs), owners, playoffs, TitleDelta(season.matchups))
      ensures champions == old(champions) + TitleRecords(season)
      ensures titleGames == old(titleGames) + TitleGames(season)
    {
      var championship := FindChampionshipMatch(season.matchups);
      if championship.None? {
        NoTitleDelta(season.matchups);
        StandStill(owners, playoffs, TitleDelta(season.matchups));
        return;
      }
      var m := championship.value;
      CreditTitle(season, m);
      ghost var om, pm := owners, playoffs;
      RecordTitleGame(m, season.year);
      CreditFinalists(season.matchups, m);
      AdvanceTwice(old(owners), old(playoffs), om, pm, owners, playoffs,
        CreditsDelta(TitleCredits(season.matchups)), FinalistsDelta(season.matchups), TitleDelta(season.matchups));
    }

    /** One game that both sides played: the record books. */
    method RecordGame(m: MatchupInput, year: int)
      requires Valid()
      modifies this`matchupCount, this`played, this`playoffGames, allRecords, playoffRecords
      ensures Valid()
      ensures played == old(played) + [Fed(m, year)]
      ensures playoffGames == old(playoffGames) + if InWinnersBracket(m) then [Fed(m, year)] else []
    {
      matchupCount := matchupCount + 1;
      ShownAllStep(played, Fed(m, year));
      allRecords.Update(m, year);
      played := played + [Fed(m, year)];
      if m.isPlayoff && m.matchupType == WINNERS_BRACKET {
        ShownAllStep(playoffGames, Fed(m, year));
        playoffRecords.Update(m, year);
        playoffGames := playoffGames + [Fed(m, year)];
      }
    }

    method ApplyPlayoffResult(m: MatchupInput)
      requires BothPresent(m)
      modifies this`playoffs
      ensures Advance(owners, old(playoffs), owners, playoffs, GameDelta(m))
    {
      if !m.isPlayoff || m.matchupType != WINNERS_BRACKET {
        StandStill(owners, playoffs, GameDelta(m));
        return;
      }
      match ResultWinner(m) {
        case WinnerHome =>
          ResultAdvances(owners, playoffs, m, Key(m.homeOwner), Key(m.awayOwner));
          playoffs := BumpPlayoff(playoffs, Key(m.homeOwner), PlayoffWins);
          playoffs := BumpPlayoff(playoffs, Key(m.awayOwner), PlayoffLosses);
        case WinnerAway =>
          ResultAdvances(owners, playoffs, m, Key(m.awayOwner), Key(m.homeOwner));
          playoffs := BumpPlayoff(playoffs, Key(m.awayOwner), PlayoffWins);
          playoffs := BumpPlayoff(playoffs, Key(m.homeOwner), PlayoffLosses);
        case WinnerUnknown =>
          StandStill(owners, playoffs, GameDelta(m));
      }
    }

    /** The step of the loop over a season's rows; a row with an absent side is passed over. */
    method AddGame(m: MatchupInput, year: int)
      requires Valid()
      modifies this`playoffs, this`matchupCount, this`played, this`playoffGames, allRecords, playoffRecords
      ensures Valid()
      ensures Advance(owners, old(playoffs), owners, playoffs, GameDelta(m))
      ensures played == old(played) + if BothPresent(m) then [Fed(m, year)] else []
      ensures playoffGames == old(playoffGames) + if BothPresent(m) && InWinnersBracket(m) then [Fed(m, year)] else []
    {
      if !m.homePresent || !m.awayPresent {
        StandStill(owners, playoffs, GameDelta(m));
        return;
      }
      RecordGame(m, year);
      ApplyPlayoffResult(m);
    }

    /** The same step, seen from the start of the season. */
    method AddGameOf(season: SeasonInput, i: nat, ghost pm: PlayoffTable, ghost played0: seq<Fed>, ghost playoffGames0: seq<Fed>)
      requires Valid() && i < |season.matchups|
      requires Advance(owners, pm, owners, playoffs, CreditsDelta(GameCredits(season.matchups[..i])))
      requires played == played0 + PlayedGames(season.matchups[..i], season.year)
      requires playoffGames == playoffGames0 + PlayoffGames(season.matchups[..i], season.year)
      modifies this`playoffs, this`matchupCount, this`played, this`playoffGames, allRecords, playoffRecords
      ensures Valid()
      ensures Advance(owners, pm, owners, playoffs, CreditsDelta(GameCredits(season.matchups[..i + 1])))
      ensures played == played0 + PlayedGames(season.matchups[..i + 1], season.year)
      ensures playoffGames == playoffGames0 + PlayoffGames(season.matchups[..i + 1], season.year)
    {
      AddGame(season.matchups[i], season.year);
      GamesStep(season.matchups, i, season.year, played0, playoffGames0);
      GamesAdvance(season.matchups, i, owners, pm, old(playoffs), playoffs);
    }

    method AddGames(season: SeasonInput)
      requires Valid()
      modifies this`playoffs, this`matchupCount, this`played, this`playoffGames, allRecords, playoffRecords
      ensures Valid()
      ensures Advance(owners, old(playoffs), owners, playoffs, CreditsDelta(GameCredits(season.matchups)))
      ensures played == old(played) + PlayedGames(season.matchups, season.year)
      ensures playoffGames == old(playoffGames) + PlayoffGames(season.matchups, season.year)
    {
      var ms := season.matchups;
      StandStill(owners, playoffs, CreditsDelta(GameCredits(ms[..0])));
      for i := 0 to |ms|
        invariant Valid()
        invariant Advance(owners, old(playoffs), owners, playoffs, CreditsDelta(GameCredits(ms[..i])))
        invariant played == old(played) + PlayedGames(ms[..i], season.year)
        invariant playoffGames == old(playoffGames) + PlayoffGames(ms[..i], season.year)
      {
        AddGameOf(season, i, old(playoffs), old(played), old(playoffGames));
      }
      assert ms[..|ms|] == ms;
    }

    /** The first half of a season: its teams and its playoff trips. */
    method AddOwners(season: SeasonInput)
      requires Valid()
      modifies this`owners, this`playoffs, this`bestRegularSeasons
      ensures Valid()
      ensures Advance(old(owners), old(playoffs), owners, playoffs, OwnersDelta(season))
      ensures bestRegularSeasons == old(bestRegularSeasons) + SeasonRecords(season.teams, season.year)
    {
      AddTeams(season);
      ghost var om, pm := owners, playoffs;
      AddTrips(season.matchups);
      AdvanceTwice(old(owners), old(playoffs), om, pm, owners, playoffs,
        CreditsDelta(TeamCredits(season.teams)), TripsOf(season.matchups), OwnersDelta(season));
    }

    /** The second half: the championship and the games. */
    method AddResults(season: SeasonInput)
      requires Valid()
      modifies this`owners, this`playoffs, this`champions, this`matchupCount, this`played, this`playoffGames, this`titleGames
      modifies allRecords, playoffRecords, championshipRecords
      ensures Valid()
      ensures Advance(old(owners), old(playoffs), owners, playoffs, ResultsDelta(season))
      ensures champions == old(champions) + TitleRecords(season)
      ensures played == old(played) + PlayedGames(season.matchups, season.year)
      ensures playoffGames == old(playoffGames) + PlayoffGames(season.matchups, season.year)
      ensures titleGames == old(titleGames) + TitleGames(season)
    {
      AddChampionship(season);
      ghost var om, pm := owners, playoffs;
      AddGames(season);
      AdvanceTwice(old(owners), old(playoffs), om, pm, owners, playoffs,
        TitleDelta(season.matchups), CreditsDelta(GameCredits(season.matchups)), ResultsDelta(season));
    }

    /** One season, its owners already canonical. */
    method AddSeason(season: SeasonInput)
      requires Valid()
      modifies this, allRecords, playoffRecords, championshipRecords
      ensures Valid()
      ensures Advance(old(owners), old(playoffs), owners, playoffs, SeasonDelta(season))
      ensures bestRegularSeasons == old(bestRegularSeasons) + SeasonRecords(season.teams, season.year)
      ensures champions == old(champions) + TitleRecords(season)
      ensures played == old(played) + PlayedGames(season.matchups, season.year)
      ensures playoffGames == old(playoffGames) + PlayoffGames(season.matchups, season.year)
      ensures titleGames == old(titleGames) + TitleGames(season)
    {
      AddOwners(season);
      ghost var om, pm := owners, playoffs;
      AddResults(season);
      SeasonAdvances(season, old(owners), old(playoffs), om, pm, owners, playoffs);
    }
  }

  lemma {:induction false} TeamsStep(teams: seq<TeamInput>, i: nat, year: int, om: OwnerTable, om1: OwnerTable, om2: OwnerTable, pm: PlayoffTable)
    requires i < |teams|
    requires Advance(om, pm, om1, pm, CreditsDelta(TeamCredits(teams[..i]))) && Advance(om1, pm, om2, pm, CreditsDelta(TeamCredit(teams[i])))
    ensures Advance(om, pm, om2, pm, CreditsDelta(TeamCredits(teams[..i + 1])))
    ensures SeasonRecords(teams[..i + 1], year) == SeasonRecords(teams[..i], year) + [SeasonRecordOf(teams[i], year)]
  {
    assert teams[..i + 1][..i] == teams[..i];
    var d, e, sum := CreditsDelta(TeamCredits(teams[..i])), CreditsDelta(TeamCredit(teams[i])), CreditsDelta(TeamCredits(teams[..i + 1]));
    forall o, x ensures sum(o, x) == d(o, x) + e(o, x) {
      SumConcat(TeamCredits(teams[..i]), TeamCredit(teams[i]), o, x);
    }
    AdvanceTwice(om, pm, om1, pm, om2, pm, d, e, sum);
  }

  ghost function OwnersDelta(season: SeasonInput): Delta {
    (o, x) => CreditsDelta(TeamCredits(season.teams))(o, x) + TripsOf(season.matchups)(o, x)
  }

  ghost function ResultsDelta(season: SeasonInput): Delta {
    (o, x) => TitleDelta(season.matchups)(o, x) + CreditsDelta(GameCredits(season.matchups))(o, x)
  }

  ghost function TripsDelta(done: set<string>): Delta {
    (o, x) => if x == Trips && o in done then 1 else 0
  }

  lemma {:induction false} TripAdvances(om: OwnerTable, pm: PlayoffTable, om1: OwnerTable, pm1: PlayoffTable, owner: string, done: set<string>)
    requires owner !in done && Advance(om, pm, om1, pm1, TripsDelta(done))
    ensures Advance(om, pm, BumpOwner(om1, owner, Trips), BumpPlayoff(pm1, owner, Trips), TripsDelta(done + {owner}))
  {
    BumpBothAdvances(om1, pm1, owner, Trips);
    AdvanceTwice(om, pm, om1, pm1, BumpOwner(om1, owner, Trips), BumpPlayoff(pm1, owner, Trips),
      TripsDelta(done), UnitDelta(owner, Trips), TripsDelta(done + {owner}));
  }

  lemma {:induction false} AllTripsAdvance(om: OwnerTable, pm: PlayoffTable, om': OwnerTable, pm': PlayoffTable, done: set<string>, ms: seq<MatchupInput>)
    requires Advance(om, pm, om', pm', TripsDelta(done)) && forall o :: o in done <==> IsPlayoffOwner(ms, o)
    ensures Advance(om, pm, om', pm', TripsOf(ms))
  {
    AdvanceBy(om, pm, om', pm', TripsDelta(done), TripsOf(ms));
  }

  ghost function FinalistsDelta(ms: seq<MatchupInput>): Delta {
    (o, x) => if x == Finals && IsFinalist(ms, o) then 1 else 0
  }

  ghost function TripsOf(ms: seq<MatchupInput>): Delta {
    (o, x) => if x == Trips && IsPlayoffOwner(ms, o) then 1 else 0
  }

  ghost function TitleDelta(ms: seq<MatchupInput>): Delta {
    (o, x) => Sum(TitleCredits(ms), o, x) + FinalistsDelta(ms)(o, x)
  }

  ghost function SeasonDelta(season: SeasonInput): Delta {
    (o, x) => SeasonTally(season, o, x)
  }

  lemma {:induction false} NoTitleDelta(ms: seq<MatchupInput>)
    requires Championship(ms).None?
    ensures forall o, x :: TitleDelta(ms)(o, x) == 0
  {
    forall o, x ensures TitleDelta(ms)(o, x) == 0 {
      assert Sum(TitleCredits(ms), o, x) == 0;
      assert !IsFinalist(ms, o);
      assert FinalistsDelta(ms)(o, x) == 0;
    }
  }

  lemma {:induction false} GamesStep(ms: seq<MatchupInput>, i: nat, year: int, a: seq<Fed>, b: seq<Fed>)
    requires i < |ms|
    ensures a + PlayedGames(ms[..i], year) + (if BothPresent(ms[i]) then [Fed(ms[i], year)] else []) == a + PlayedGames(ms[..i + 1], year)
    ensures b + PlayoffGames(ms[..i], year) + (if BothPresent(ms[i]) && InWinnersBracket(ms[i]) then [Fed(ms[i], year)] else [])
      == b + PlayoffGames(ms[..i + 1], year)
  {
    assert ms[..i + 1][..i] == ms[..i];
  }

  lemma {:induction false} GamesAdvance(ms: seq<MatchupInput>, i: nat, om: OwnerTable, pm: PlayoffTable, pm1: PlayoffTable, pm2: PlayoffTable)
    requires i < |ms|
    requires Advance(om, pm, om, pm1, CreditsDelta(GameCredits(ms[..i]))) && Advance(om, pm1, om, pm2, GameDelta(ms[i]))
    ensures Advance(om, pm, om, pm2, CreditsDelta(GameCredits(ms[..i + 1])))
  {
    assert ms[..i + 1][..i] == ms[..i];
    var d, e, sum := CreditsDelta(GameCredits(ms[..i])), GameDelta(ms[i]), CreditsDelta(GameCredits(ms[..i + 1]));
    forall o, x ensures sum(o, x) == d(o, x) + e(o, x) {
      SumConcat(GameCredits(ms[..i]), GameCredit(ms[i]), o, x);
    }
    AdvanceTwice(om, pm, om, pm1, om, pm2, d, e, sum);
  }

  lemma {:induction false} TitleAdvances(om: OwnerTable, pm: PlayoffTable, om': OwnerTable, pm': PlayoffTable, ms: seq<MatchupInput>)
    requires Championship(ms).Some?
    requires WinnerOwner(Championship(ms).value) == "" ==> om' == om && pm' == pm
    requires WinnerOwner(Championship(ms).value) != "" ==>
      Advance(om, pm, om', pm', UnitDelta(WinnerOwner(Championship(ms).value), Titles))
    ensures Advance(om, pm, om', pm', CreditsDelta(TitleCredits(ms)))
  {
    var w := WinnerOwner(Championship(ms).value);
    if w == "" {
      StandStill(om, pm, CreditsDelta(TitleCredits(ms)));
    } else {
      forall o, x ensures CreditsDelta(TitleCredits(ms))(o, x) == UnitDelta(w, Titles)(o, x) {
        SumOfOne(Credit(w, Titles, 1), o, x);
      }
      AdvanceBy(om, pm, om', pm', UnitDelta(w, Titles), CreditsDelta(TitleCredits(ms)));
    }
  }

  lemma {:induction false} FinalistsAdvance(om: OwnerTable, pm: PlayoffTable, pm': PlayoffTable, ms: seq<MatchupInput>)
    requires Championship(ms).Some?
    requires var m := Championship(ms).value;
      var pm1 := if m.homeOwner != "" then BumpPlayoff(pm, m.homeOwner, Finals) else pm;
      pm' == if m.awayOwner != "" && m.awayOwner != m.homeOwner then BumpPlayoff(pm1, m.awayOwner, Finals) else pm1
    ensures Advance(om, pm, om, pm', FinalistsDelta(ms))
  {
    var m := Championship(ms).value;
    var home, away := m.homeOwner != "", m.awayOwner != "" && m.awayOwner != m.homeOwner;
    var pm1 := if home then BumpPlayoff(pm, m.homeOwner, Finals) else pm;
    var none: Delta := (o, x) => 0;
    var d := if home then UnitDelta(m.homeOwner, Finals) else none;
    var e := if away then UnitDelta(m.awayOwner, Finals) else none;
    if home { BumpPlayoffAdvances(om, pm, m.homeOwner, Finals); } else { StandStill(om, pm, none); }
    if away { BumpPlayoffAdvances(om, pm1, m.awayOwner, Finals); } else { StandStill(om, pm1, none); }
    forall o, x ensures FinalistsDelta(ms)(o, x) == d(o, x) + e(o, x) {
      assert IsFinalist(ms, o) <==> o != "" && (m.homeOwner == o || m.awayOwner == o);
    }
    AdvanceTwice(om, pm, om, pm1, om, pm', d, e, FinalistsDelta(ms));
  }

  lemma {:induction false} SeasonParts(season: SeasonInput, o: string, x: Metric)
    ensures SeasonTally(season, o, x) ==
      Sum(TeamCredits(season.teams), o, x) + TripsOf(season.matchups)(o, x) + TitleDelta(season.matchups)(o, x) + Sum(GameCredits(season.matchups), o, x)
  {
    var teams, title, games := TeamCredits(season.teams), TitleCredits(season.matchups), GameCredits(season.matchups);
    SumConcat(teams, title, o, x);
    SumConcat(teams + title, games, o, x);
    assert Presence(season, o, x) == TripsOf(season.matchups)(o, x) + FinalistsDelta(season.matchups)(o, x);
  }

  lemma {:induction false} SeasonAdvances(season: SeasonInput,
      om: OwnerTable, pm: PlayoffTable, om1: OwnerTable, pm1: PlayoffTable, om2: OwnerTable, pm2: PlayoffTable)
    requires Advance(om, pm, om1, pm1, OwnersDelta(season)) && Advance(om1, pm1, om2, pm2, ResultsDelta(season))
    ensures Advance(om, pm, om2, pm2, SeasonDelta(season))
  {
    forall o, x ensures SeasonDelta(season)(o, x) == OwnersDelta(season)(o, x) + ResultsDelta(season)(o, x) {
      SeasonParts(season, o, x);
    }
    AdvanceTwice(om, pm, om1, pm1, om2, pm2, OwnersDelta(season), ResultsDelta(season), SeasonDelta(season));
  }

  // ---- all seasons ----

  /** What every season appends, season after season. */
  function Collect<T>(seasons: seq<SeasonInput>, part: SeasonInput -> seq<T>): seq<T> {
    if seasons == [] then []
    else Collect(seasons[..|seasons| - 1], part) + part(seasons[|seasons| - 1])
  }

  function AllPlayed(seasons: seq<SeasonInput>): seq<Fed> {
    Collect(seasons, (s: SeasonInput) => PlayedGames(s.matchups, s.year))
  }

  function AllPlayoffGames(seasons: seq<SeasonInput>): seq<Fed> {
    Collect(seasons, (s: SeasonInput) => PlayoffGames(s.matchups, s.year))
  }

  function AllTitleGames(seasons: seq<SeasonInput>): seq<Fed> {
    Collect(seasons, (s: SeasonInput) => TitleGames(s))
  }

  function AllTitleRecords(seasons: seq<SeasonInput>): seq<ChampionRecord> {
    Collect(seasons, (s: SeasonInput) => TitleRecords(s))
  }

  function AllSeasonRecords(seasons: seq<SeasonInput>): seq<SeasonRecord> {
    Collect(seasons, (s: SeasonInput) => SeasonRecords(s.teams, s.year))
  }

  /** Both tables hold, for every owner and metric, what the seasons owe, and no idle entries. */
  ghost predicate TablesFor(seasons: seq<SeasonInput>, om: OwnerTable, pm: PlayoffTable) {
    && GoodOwners(om) && GoodPlayoffs(pm)
    && (forall o, x :: InOwnerTable(x) ==> OwnerMetric(OwnerAt(om, o), x) == RollupTally(seasons, o, x))
    && (forall o, x :: InPlayoffTable(x) ==> PlayoffMetric(PlayoffAt(pm, o), x) == RollupTally(seasons, o, x))
  }

  ghost predicate ListsFor(seasons: seq<SeasonInput>, played: seq<Fed>, playoffGames: seq<Fed>, titleGames: seq<Fed>,
                           champions: seq<ChampionRecord>, best: seq<SeasonRecord>) {
    && played == AllPlayed(seasons) && playoffGames == AllPlayoffGames(seasons) && titleGames == AllTitleGames(seasons)
    && champions == AllTitleRecords(seasons) && best == AllSeasonRecords(seasons)
  }

  lemma {:induction false} NoTablesYet()
    ensures TablesFor([], map[], map[])
  {
  }

  lemma {:induction false} NoListsYet(seasons: seq<SeasonInput>)
    requires seasons == []
    ensures ListsFor(seasons, [], [], [], [], [])
  {
  }

  lemma {:induction false} TablesGrow(seasons: seq<SeasonInput>, s: SeasonInput, om: OwnerTable, pm: PlayoffTable, om': OwnerTable, pm': PlayoffTable)
    requires TablesFor(seasons, om, pm) && Advance(om, pm, om', pm', SeasonDelta(s))
    ensures TablesFor(seasons + [s], om', pm')
  {
    forall o, x ensures RollupTally(seasons + [s], o, x) == RollupTally(seasons, o, x) + SeasonDelta(s)(o, x) {
      RollupSplits(seasons, [s], o, x);
      RollupOfOne(s, o, x);
    }
  }

  lemma {:induction false} ListsGrow(seasons: seq<SeasonInput>, s: SeasonInput, played: seq<Fed>, playoffGames: seq<Fed>, titleGames: seq<Fed>,
                                     champions: seq<ChampionRecord>, best: seq<SeasonRecord>)
    requires ListsFor(seasons, played, playoffGames, titleGames, champions, best)
    ensures ListsFor(seasons + [s], played + PlayedGames(s.matchups, s.year), playoffGames + PlayoffGames(s.matchups, s.year),
      titleGames + TitleGames(s), champions + TitleRecords(s), best + SeasonRecords(s.teams, s.year))
  {
    assert (seasons + [s])[..|seasons|] == seasons;
  }

  /** The step of the loop over seasons. */
  method AddNext(r: Rollup, seasons: seq<SeasonInput>, i: nat, aliases: Aliases)
    requires i < |seasons| && r.Valid()
    requires TablesFor(CanonicalSeasons(seasons[..i], aliases), r.owners, r.playoffs)
    requires ListsFor(CanonicalSeasons(seasons[..i], aliases), r.played, r.playoffGames, r.titleGames, r.champions, r.bestRegularSeasons)
    modifies r, r.allRecords, r.playoffRecords, r.championshipRecords
    ensures r.Valid()
    ensures TablesFor(CanonicalSeasons(seasons[..i + 1], aliases), r.owners, r.playoffs)
    ensures ListsFor(CanonicalSeasons(seasons[..i + 1], aliases), r.played, r.playoffGames, r.titleGames, r.champions, r.bestRegularSeasons)
  {
    var season := CanonicalizeSeason(seasons[i], aliases);
    ghost var before := CanonicalSeasons(seasons[..i], aliases);
    CanonicalStep(seasons, i, aliases);
    ListsGrow(before, season, r.played, r.playoffGames, r.titleGames, r.champions, r.bestRegularSeasons);
    ghost var om, pm := r.owners, r.playoffs;
    r.AddSeason(season);
    TablesGrow(before, season, om, pm, r.owners, r.playoffs);
  }

  lemma {:induction false} CanonicalStep(seasons: seq<SeasonInput>, i: nat, aliases: Aliases)
    requires i < |seasons|
    ensures CanonicalSeasons(seasons[..i + 1], aliases) == CanonicalSeasons(seasons[..i], aliases) + [Canonical(seasons[i], aliases)]
  {
    assert seasons[..i + 1][..i] == seasons[..i];
  }

  /** The loop of `BuildPageDataFromSeasons`. */
  method BuildRollup(seasons: seq<SeasonInput>, aliases: Aliases) returns (r: Rollup)
    ensures fresh(r) && r.Valid()
    ensures TablesFor(CanonicalSeasons(seasons, aliases), r.owners, r.playoffs)
    ensures ListsFor(CanonicalSeasons(seasons, aliases), r.played, r.playoffGames, r.titleGames, r.champions, r.bestRegularSeasons)
  {
    r := new Rollup();
    NoTablesYet();
    NoListsYet(CanonicalSeasons(seasons[..0], aliases));
    for i := 0 to |seasons|
      invariant r.Valid() && fresh(r) && fresh(r.allRecords) && fresh(r.playoffRecords) && fresh(r.championshipRecords)
      invariant TablesFor(CanonicalSeasons(seasons[..i], aliases), r.owners, r.playoffs)
      invariant ListsFor(CanonicalSeasons(seasons[..i], aliases), r.played, r.playoffGames, r.titleGames, r.champions, r.bestRegularSeasons)
    {
      AddNext(r, seasons, i, aliases);
    }
    assert seasons[..|seasons|] == seasons;
  }

  // ---- consequences ----

  /** The tables are determined by what is owed, so they cannot depend on any iteration order. */
  lemma {:induction false} TablesUnique(seasons: seq<SeasonInput>, perm: seq<SeasonInput>,
      om: OwnerTable, pm: PlayoffTable, om': OwnerTable, pm': PlayoffTable)
    requires TablesFor(seasons, om, pm) && TablesFor(perm, om', pm')
    requires forall o, x :: RollupTally(perm, o, x) == RollupTally(seasons, o, x)
    ensures om' == om && pm' == pm
  {
    forall o ensures (o in om <==> o in om') && (o in om ==> om[o] == om'[o]) {
      SameOwner(om, om', o);
    }
    forall o ensures (o in pm <==> o in pm') && (o in pm ==> pm[o] == pm'[o]) {
      SamePlayoffOwner(pm, pm', o);
    }
  }

  lemma {:induction false} SameOwner(m: OwnerTable, m': OwnerTable, o: string)
    requires GoodOwners(m) && GoodOwners(m')
    requires forall x :: InOwnerTable(x) ==> OwnerMetric(OwnerAt(m, o), x) == OwnerMetric(OwnerAt(m', o), x)
    ensures (o in m <==> o in m') && (o in m ==> m[o] == m'[o])
  {
    var a, b := OwnerAt(m, o), OwnerAt(m', o);
    assert OwnerMetric(a, Seasons) == OwnerMetric(b, Seasons);
    assert OwnerMetric(a, Wins) == OwnerMetric(b, Wins);
    assert OwnerMetric(a, Losses) == OwnerMetric(b, Losses);
    assert OwnerMetric(a, Ties) == OwnerMetric(b, Ties);
    assert OwnerMetric(a, PointsFor) == OwnerMetric(b, PointsFor);
    assert OwnerMetric(a, PointsAgainst) == OwnerMetric(b, PointsAgainst);
    assert OwnerMetric(a, Titles) == OwnerMetric(b, Titles);
    assert OwnerMetric(a, Trips) == OwnerMetric(b, Trips);
  }

  lemma {:induction false} SamePlayoffOwner(m: PlayoffTable, m': PlayoffTable, o: string)
    requires GoodPlayoffs(m) && GoodPlayoffs(m')
    requires forall x :: InPlayoffTable(x) ==> PlayoffMetric(PlayoffAt(m, o), x) == PlayoffMetric(PlayoffAt(m', o), x)
    ensures (o in m <==> o in m') && (o in m ==> m[o] == m'[o])
  {
    var a, b := PlayoffAt(m, o), PlayoffAt(m', o);
    assert PlayoffMetric(a, Titles) == PlayoffMetric(b, Titles);
    assert PlayoffMetric(a, PlayoffWins) == PlayoffMetric(b, PlayoffWins);
    assert PlayoffMetric(a, PlayoffLosses) == PlayoffMetric(b, PlayoffLosses);
    assert PlayoffMetric(a, Trips) == PlayoffMetric(b, Trips);
    assert PlayoffMetric(a, Finals) == PlayoffMetric(b, Finals);
  }

  lemma {:induction false} CanonicalConcat(a: seq<SeasonInput>, b: seq<SeasonInput>, aliases: Aliases)
    ensures CanonicalSeasons(a + b, aliases) == CanonicalSeasons(a, aliases) + CanonicalSeasons(b, aliases)
    decreases |b|
  {
    if b == [] {
      assert a + b == a;
    } else {
      CanonicalConcat(a, b[..|b| - 1], aliases);
      assert (a + b)[..|a + b| - 1] == a + b[..|b| - 1];
    }
  }

  lemma {:induction false} CanonicalSplit(a: seq<SeasonInput>, x: SeasonInput, b: seq<SeasonInput>, aliases: Aliases)
    ensures multiset(CanonicalSeasons(a + [x] + b, aliases)) == multiset(CanonicalSeasons(a + b, aliases)) + multiset{Canonical(x, aliases)}
  {
    CanonicalConcat(a, [x], aliases);
    CanonicalConcat(a + [x], b, aliases);
    CanonicalConcat(a, b, aliases);
    assert [x][..0] == [];
    assert CanonicalSeasons([x], aliases) == [Canonical(x, aliases)];
  }

  lemma {:induction false} CanonicalReorder(seasons: seq<SeasonInput>, perm: seq<SeasonInput>, aliases: Aliases)
    requires multiset(perm) == multiset(seasons)
    ensures multiset(CanonicalSeasons(perm, aliases)) == multiset(CanonicalSeasons(seasons, aliases))
    decreases |seasons|
  {
    if seasons == [] {
      ReorderOfNone(perm);
    } else {
      var a, b := AroundHead(seasons, perm);
      CanonicalReorder(seasons[1..], a + b, aliases);
      CanonicalSplit(a, seasons[0], b, aliases);
      CanonicalSplit([], seasons[0], seasons[1..], aliases);
    }
  }

  /** The owner tables are the same whatever order the seasons come in. */
  lemma {:induction false} TablesOrderFree(seasons: seq<SeasonInput>, perm: seq<SeasonInput>, aliases: Aliases,
      om: OwnerTable, pm: PlayoffTable, om': OwnerTable, pm': PlayoffTable)
    requires multiset(perm) == multiset(seasons)
    requires TablesFor(CanonicalSeasons(seasons, aliases), om, pm) && TablesFor(CanonicalSeasons(perm, aliases), om', pm')
    ensures om' == om && pm' == pm
  {
    CanonicalReorder(seasons, perm, aliases);
    var a, b := CanonicalSeasons(seasons, aliases), CanonicalSeasons(perm, aliases);
    forall o, x ensures RollupTally(b, o, x) == RollupTally(a, o, x) {
      RollupOrderFree(a, b, o, x);
    }
    TablesUnique(a, b, om, pm, om', pm');
  }

  /** The two tables agree on titles and playoff trips, and nobody has more titles than finals
      or more trips than seasons were given. */
  lemma {:induction false} TablesAgree(seasons: seq<SeasonInput>, om: OwnerTable, pm: PlayoffTable, o: string)
    requires TablesFor(seasons, om, pm)
    ensures OwnerAt(om, o).titles == PlayoffAt(pm, o).titles <= PlayoffAt(pm, o).finalsAppearances <= |seasons|
    ensures OwnerAt(om, o).playoffAppearances == PlayoffAt(pm, o).appearances <= |seasons|
    ensures 0 <= PlayoffAt(pm, o).titles
  {
    RollupBounds(seasons, o);
    assert OwnerMetric(OwnerAt(om, o), Titles) == RollupTally(seasons, o, Titles) == PlayoffMetric(PlayoffAt(pm, o), Titles);
    assert OwnerMetric(OwnerAt(om, o), Trips) == RollupTally(seasons, o, Trips) == PlayoffMetric(PlayoffAt(pm, o), Trips);
    assert PlayoffMetric(PlayoffAt(pm, o), Finals) == RollupTally(seasons, o, Finals);
  }

  function ChampionCount(records: seq<ChampionRecord>, o: string): nat {
    if records == [] then 0
    else ChampionCount(records[..|records| - 1], o) + if records[|records| - 1].owner == o then 1 else 0
  }

  lemma {:induction false} ChampionCountConcat(a: seq<ChampionRecord>, b: seq<ChampionRecord>, o: string)
    ensures ChampionCount(a + b, o) == ChampionCount(a, o) + ChampionCount(b, o)
    decreases |b|
  {
    if b == [] {
      assert a + b == a;
    } else {
      ChampionCountConcat(a, b[..|b| - 1], o);
      assert (a + b)[..|a + b| - 1] == a + b[..|b| - 1];
    }
  }

  lemma {:induction false} SeasonTitleRecord(s: SeasonInput, o: string)
    ensures ChampionCount(TitleRecords(s), o) == SeasonTally(s, o, Titles)
  {
    SeasonParts(s, o, Titles);
    TeamMetrics(s.teams);
    GameMetrics(s.matchups);
    NoCredit(TeamCredits(s.teams), o, Titles);
    NoCredit(GameCredits(s.matchups), o, Titles);
    assert TripsOf(s.matchups)(o, Titles) == 0 && FinalistsDelta(s.matchups)(o, Titles) == 0;
    assert SeasonTally(s, o, Titles) == Sum(TitleCredits(s.matchups), o, Titles);
    if Crowned(s.matchups) {
      var r := TitleRecords(s)[0];
      var w := WinnerOwner(Championship(s.matchups).value);
      assert r.owner == w;
      CountOfOne(r, o);
      assert TitleRecords(s) == [r];
      SumOfOne(Credit(w, Titles, 1), o, Titles);
    }
  }

  lemma {:induction false} CountOfOne(r: ChampionRecord, o: string)
    ensures ChampionCount([r], o) == if r.owner == o then 1 else 0
  {
    assert [r][..0] == [];
  }

  /** An owner's titles, in either table, are that owner's entries in the list of champions. */
  lemma {:induction false} TitlesAreChampions(seasons: seq<SeasonInput>, o: string)
    ensures ChampionCount(AllTitleRecords(seasons), o) == RollupTally(seasons, o, Titles)
    decreases |seasons|
  {
    if seasons != [] {
      var n := |seasons| - 1;
      TitlesAreChampions(seasons[..n], o);
      ChampionCountConcat(AllTitleRecords(seasons[..n]), TitleRecords(seasons[n]), o);
      SeasonTitleRecord(seasons[n], o);
    }
  }

  // ---- the three record books ----

  lemma {:induction false} GamesWithin(ms: seq<MatchupInput>, year: int)
    ensures forall f :: f in PlayoffGames(ms, year) ==> f in PlayedGames(ms, year)
    ensures forall m :: m in ms && BothPresent(m) ==> Fed(m, year) in PlayedGames(ms, year)
    decreases |ms|
  {
    if ms != [] {
      var init, last := ms[..|ms| - 1], ms[|ms| - 1];
      GamesWithin(init, year);
      assert ms == init + [last];
    }
  }

  lemma {:induction false} AllGamesWithin(seasons: seq<SeasonInput>)
    ensures forall f :: f in AllPlayoffGames(seasons) ==> f in AllPlayed(seasons)
    ensures forall f :: f in AllTitleGames(seasons) ==> f in AllPlayed(seasons)
    decreases |seasons|
  {
    if seasons != [] {
      var n := |seasons| - 1;
      var s := seasons[n];
      AllGamesWithin(seasons[..n]);
      GamesWithin(s.matchups, s.year);
      assert AllPlayed(seasons) == AllPlayed(seasons[..n]) + PlayedGames(s.matchups, s.year);
      assert AllPlayoffGames(seasons) == AllPlayoffGames(seasons[..n]) + PlayoffGames(s.matchups, s.year);
      assert AllTitleGames(seasons) == AllTitleGames(seasons[..n]) + TitleGames(s);
      if Championship(s.matchups).Some? {
        var m := Championship(s.matchups).value;
        assert m in s.matchups && BothPresent(m);
      }
    }
  }

  /** Playoff and championship records never go beyond the overall ones. */
  lemma {:induction false} PlayoffRecordsBounded(seasons: seq<SeasonInput>)
    ensures var all := ShownAll(AllPlayed(seasons));
      forall part :: part in {ShownAll(AllPlayoffGames(seasons)), ShownAll(AllTitleGames(seasons))} ==>
        && (part.highest.Some? ==> all.highest.Some? && part.highest.value.score <= all.highest.value.score)
        && (part.lowest.Some? ==> all.lowest.Some? && all.lowest.value.score <= part.lowest.value.score)
        && (part.blowout.Some? ==> all.blowout.Some? && part.blowout.value.margin <= all.blowout.value.margin)
        && (part.closest.Some? ==> all.closest.Some? && all.closest.value.margin <= part.closest.value.margin)
  {
    AllGamesWithin(seasons);
    BookIsScan(AllPlayed(seasons));
    BookIsScan(AllPlayoffGames(seasons));
    BookIsScan(AllTitleGames(seasons));
    BooksBounded(AllPlayoffGames(seasons), AllPlayed(seasons), ShownAll(AllPlayoffGames(seasons)), ShownAll(AllPlayed(seasons)));
    BooksBounded(AllTitleGames(seasons), AllPlayed(seasons), ShownAll(AllTitleGames(seasons)), ShownAll(AllPlayed(seasons)));
  }
}
