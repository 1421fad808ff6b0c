/** An ESPN season read three times: by the matchups view (`cmd/api/matchups.go`), by the
    statistics (`cmd/api/stats.go`) and by the archive summary (`internal/archive/archive.go`). */
module EspnSeasons {
  import opened OwnerNames
  import opened Results
  import opened SleeperSchedule
  import opened StatsSeason
  import opened Text
  import Points

  type int32 = x: int | -0x8000_0000 <= x < 0x8000_0000

  /** A row of the ESPN matchups query. A score is its decimal value. */
  datatype EspnRow = EspnRow(
    week: int,
    homePresent: bool,
    awayPresent: bool,
    homeTeamName: string,
    homeTeamOwners: string,
    homeScore: real,
    homeFinalStanding: int,
    awayTeamName: string,
    awayTeamOwners: string,
    awayScore: real,
    awayFinalStanding: int,
    isPlayoff: bool,
    matchupType: string)

  datatype EspnTeam = EspnTeam(
    owners: string,
    wins: int,
    losses: int,
    ties: int,
    finalStanding: int,
    pointsFor: int32,
    pointsAgainst: int32)

  /** A winners-bracket game between the two teams that finished first and second. */
  predicate IsFinalistsGame(row: EspnRow) {
    && row.homePresent && row.awayPresent && row.isPlayoff && row.matchupType == WINNERS_BRACKET
    && ((row.homeFinalStanding == 1 && row.awayFinalStanding == 2) || (row.homeFinalStanding == 2 && row.awayFinalStanding == 1))
  }

  /** The title game: the first finalists' game of the greatest week. */
  function TitleIndex(rows: seq<EspnRow>): (r: Option<nat>)
    ensures r.Some? ==> r.value < |rows| && IsFinalistsGame(rows[r.value])
    ensures r.Some? ==> forall j :: 0 <= j < |rows| && IsFinalistsGame(rows[j]) ==>
      rows[j].week <= rows[r.value].week && (rows[j].week == rows[r.value].week ==> r.value <= j)
    ensures r.None? ==> forall j :: 0 <= j < |rows| ==> !IsFinalistsGame(rows[j])
  {
    if rows == [] then None
    else
      var n := |rows| - 1;
      var before := TitleIndex(rows[..n]);
      assert forall j :: 0 <= j < n ==> rows[..n][j] == rows[j];
      if IsFinalistsGame(rows[n]) && (before.None? || rows[n].week > rows[before.value].week) then Some(n) else before
  }

  function TitleRow(rows: seq<EspnRow>): Option<EspnRow> {
    var i := TitleIndex(rows);
    if i.Some? then Some(rows[i.value]) else None
  }

  lemma {:induction false} TitleIndexStep(rows: seq<EspnRow>, i: nat)
    requires i < |rows|
    ensures var before := TitleIndex(rows[..i]);
      TitleIndex(rows[..i + 1]) ==
        if IsFinalistsGame(rows[i]) && (before.None? || rows[i].week > rows[before.value].week) then Some(i) else before
  {
    assert rows[..i + 1][..i] == rows[..i];
  }

  // ---- the view ----

  function LastEspnWeek(rows: seq<EspnRow>): int {
    if rows == [] then 0
    else
      var w := LastEspnWeek(rows[..|rows| - 1]);
      if rows[|rows| - 1].week > w then rows[|rows| - 1].week else w
  }

  /** Winner by score, except in the title game, where the final standing decides. */
  function ViewRow(row: EspnRow, isTitle: bool, lastWeek: int, format: real -> string): MatchupRow {
    var played := row.homePresent && row.awayPresent;
    MatchupRow(row.week,
      Fallback(row.homeTeamName, "BYE"), TrimSpace(row.homeTeamOwners), format(row.homeScore), 0, row.homePresent,
      if isTitle then row.homeFinalStanding == 1 else played && row.homeScore > row.awayScore,
      Fallback(row.awayTeamName, "BYE"), TrimSpace(row.awayTeamOwners), format(row.awayScore), 0, row.awayPresent,
      if isTitle then row.awayFinalStanding == 1 else played && row.awayScore > row.homeScore,
      row.isPlayoff, isTitle, row.matchupType,
      TypeLabel(row.isPlayoff, isTitle, row.matchupType, row.week, lastWeek, played))
  }

  ghost predicate IsEspnView(rows: seq<EspnRow>, format: real -> string, view: seq<MatchupRow>) {
    |view| == |rows| && forall i: nat :: i < |rows| ==> view[i] == ViewRow(rows[i], TitleIndex(rows) == Some(i), LastEspnWeek(rows), format)
  }

  method LastESPNWeek(rows: seq<EspnRow>) returns (lastWeek: int)
    ensures lastWeek == LastEspnWeek(rows)
  {
    lastWeek := 0;
    for i := 0 to |rows|
      invariant lastWeek == LastEspnWeek(rows[..i])
    {
      assert rows[..i + 1][..i] == rows[..i];
      if rows[i].week > lastWeek { lastWeek := rows[i].week; }
    }
    assert rows[..|rows|] == rows;
  }

  method LocateTitle(rows: seq<EspnRow>) returns (championshipIndex: int)
    ensures championshipIndex == match TitleIndex(rows) case None => -1 case Some(k) => k
  {
    championshipIndex := -1;
    for i := 0 to |rows|
      invariant championshipIndex == match TitleIndex(rows[..i]) case None => -1 case Some(k) => k
    {
      TitleIndexStep(rows, i);
      if IsFinalistsGame(rows[i]) && (championshipIndex == -1 || rows[i].week > rows[championshipIndex].week) {
        championshipIndex := i;
      }
    }
    assert rows[..|rows|] == rows;
  }

  method MakeViewRow(row: EspnRow, isChampionship: bool, lastWeek: int, format: real -> string) returns (r: MatchupRow)
    ensures r == ViewRow(row, isChampionship, lastWeek, format)
  {
    var played := row.homePresent && row.awayPresent;
    var homeWinner, awayWinner := played && row.homeScore > row.awayScore, played && row.awayScore > row.homeScore;
    if isChampionship {
      homeWinner, awayWinner := row.homeFinalStanding == 1, row.awayFinalStanding == 1;
    }
    r := MatchupRow(row.week,
      Fallback(row.homeTeamName, "BYE"), TrimSpace(row.homeTeamOwners), format(row.homeScore), 0, row.homePresent, homeWinner,
      Fallback(row.awayTeamName, "BYE"), TrimSpace(row.awayTeamOwners), format(row.awayScore), 0, row.awayPresent, awayWinner,
      row.isPlayoff, isChampionship, row.matchupType,
      TypeLabel(row.isPlayoff, isChampionship, row.matchupType, row.week, lastWeek, played));
  }

  method NormalizeESPNMatchups(rows: seq<EspnRow>, format: real -> string) returns (view: seq<MatchupRow>)
    ensures IsEspnView(rows, format, view)
  {
    var lastWeek := LastESPNWeek(rows);
    var championshipIndex := LocateTitle(rows);
    view := [];
    for i := 0 to |rows|
      invariant |view| == i
      invariant forall k: nat :: k < i ==> view[k] == ViewRow(rows[k], k == championshipIndex, lastWeek, format)
    {
      var row := MakeViewRow(rows[i], i == championshipIndex, lastWeek, format);
      view := view + [row];
    }
  }

  // ---- the archive summary ----

  datatype Finalists = Finalists(champion: string, championOwner: string, runnerUp: string, runnerUpOwner: string)

  function FinalistsOf(row: EspnRow, aliases: Aliases): Finalists {
    var home, away := ArchiveNormalizeOwner(row.homeTeamOwners, aliases), ArchiveNormalizeOwner(row.awayTeamOwners, aliases);
    if row.homeFinalStanding == 1 then Finalists(row.homeTeamName, home, row.awayTeamName, away)
    else Finalists(row.awayTeamName, away, row.homeTeamName, home)
  }

  method FindTitleRow(rows: seq<EspnRow>) returns (championship: Option<EspnRow>)
    ensures championship == TitleRow(rows)
  {
    championship := None;
    for i := 0 to |rows|
      invariant championship == TitleRow(rows[..i])
    {
      TitleIndexStep(rows, i);
      if !IsFinalistsGame(rows[i]) { continue; }
      if championship.None? || rows[i].week > championship.value.week {
        championship := Some(rows[i]);
      }
    }
    assert rows[..|rows|] == rows;
  }

  method ESPNFinalists(rows: seq<EspnRow>, aliases: Aliases) returns (r: Option<Finalists>)
    ensures r == match TitleRow(rows) case None => None case Some(row) => Some(FinalistsOf(row, aliases))
  {
    var championship := FindTitleRow(rows);
    if championship.None? { return None; }
    r := Some(FinalistsOf(championship.value, aliases));
  }

  // ---- the statistics ----

  /** The score is exactly `h` hundredths, and `h` fits. */
  ghost predicate IsHundredths(score: real, h: int) {
    h as real == score * 100.0 && Points.MIN_INT64 <= h <= Points.MAX_INT64
  }

  lemma {:induction false} FloorOfWhole(x: real, h: int)
    requires h as real == x
    ensures h == x.Floor
  {
  }

  lemma {:induction false} OneHundredths(score: real)
    ensures forall h :: IsHundredths(score, h) ==> h == (score * 100.0).Floor
  {
    forall h | IsHundredths(score, h) ensures h == (score * 100.0).Floor { FloorOfWhole(score * 100.0, h); }
  }

  /** The value in whole hundredths, if it has one that fits. */
  function Hundredths(score: real): (r: Option<int>)
    ensures r.Some? ==> IsHundredths(score, r.value)
    ensures r.None? ==> forall h :: !IsHundredths(score, h)
  {
    OneHundredths(score);
    var h := (score * 100.0).Floor;
    if h as real == score * 100.0 && Points.MIN_INT64 <= h <= Points.MAX_INT64 then Some(h) else None
  }

  /** `PointsFromFloat64` writes the score out and parses that: it fails exactly when the score is
      not a whole number of hundredths that fits, and otherwise returns that number. */
  method PointsFromFloat64(score: real, text: string) returns (r: Result<Points.int64, Points.PointsError>)
    requires Points.WrittenOut(text, score)
    ensures Hundredths(score) == match r case Ok(points) => Some(points as int) case Err(_) => None
  {
    r := Points.ParsePoints(text);
    forall h: int ensures Points.Denotes(text, h) <==> h as real == score * 100.0 {
      Points.WrittenOutDenotes(text, score, h);
    }
    if r.Ok? {
      assert Points.Denotes(text, r.value as int);
    }
    var whole := (score * 100.0).Floor;
    assert Points.Denotes(text, whole) <==> whole as real == score * 100.0;
  }

  predicate Converts(row: EspnRow) {
    Hundredths(row.homeScore).Some? && Hundredths(row.awayScore).Some?
  }

  function EspnInput(row: EspnRow): MatchupInput
    requires Converts(row)
  {
    MatchupInput(row.week, row.homePresent, row.awayPresent,
      TrimSpace(row.homeTeamOwners), row.homeTeamName, Hundredths(row.homeScore).value,
      TrimSpace(row.awayTeamOwners), row.awayTeamName, Hundredths(row.awayScore).value,
      row.isPlayoff, IsFinalistsGame(row),
      if !IsFinalistsGame(row) then WinnerUnknown
      else if row.homeFinalStanding == 1 then WinnerHome
      else WinnerAway,
      row.matchupType)
  }

  ghost predicate AreEspnInputs(rows: seq<EspnRow>, ms: seq<MatchupInput>) {
    |ms| == |rows| && forall i :: 0 <= i < |rows| ==> Converts(rows[i]) && ms[i] == EspnInput(rows[i])
  }

  /** `PointsFromWhole` cannot panic on what the column holds. */
  function WholePoints(value: int32): (r: int)
    ensures r == 100 * value
  {
    Points.PointsFromWhole(value as Points.int64).value as int
  }

  function EspnTeamInput(t: EspnTeam): TeamInput {
    TeamInput(TrimSpace(t.owners), t.wins, t.losses, t.ties, t.finalStanding, WholePoints(t.pointsFor), WholePoints(t.pointsAgainst))
  }

  method NormalizeESPNStatsSeason(year: int, teams: seq<EspnTeam>, rows: seq<EspnRow>) returns (r: Option<SeasonInput>)
    ensures r.Some? <==> forall i :: 0 <= i < |rows| ==> Converts(rows[i])
    ensures r.Some? ==> r.value.year == year && AreEspnInputs(rows, r.value.matchups)
    ensures r.Some? ==> r.value.teams == seq(|teams|, i requires 0 <= i < |teams| => EspnTeamInput(teams[i]))
  {
    var teamInputs := seq(|teams|, i requires 0 <= i < |teams| => EspnTeamInput(teams[i]));
    var matchups: seq<MatchupInput> := [];
    for i := 0 to |rows|
      invariant AreEspnInputs(rows[..i], matchups)
      invariant forall k :: 0 <= k < i ==> Converts(rows[k])
    {
      var row := rows[i];
      var homeScore, awayScore := Hundredths(row.homeScore), Hundredths(row.awayScore);
      if homeScore.None? || awayScore.None? { return None; }
      var input := MatchupInput(row.week, row.homePresent, row.awayPresent,
        TrimSpace(row.homeTeamOwners), row.homeTeamName, homeScore.value,
        TrimSpace(row.awayTeamOwners), row.awayTeamName, awayScore.value,
        row.isPlayoff, false, WinnerUnknown, row.matchupType);
      if IsFinalistsGame(row) {
        input := input.(isChampionship := true);
        if row.homeFinalStanding == 1 {
          input := input.(championshipWinner := WinnerHome);
        } else if row.awayFinalStanding == 1 {
          input := input.(championshipWinner := WinnerAway);
        }
      }
      InputsGrow(rows, i, matchups, input);
      matchups := matchups + [input];
    }
    assert rows[..|rows|] == rows;
    r := Some(SeasonInput(year, teamInputs, matchups));
  }

  lemma {:induction false} InputsGrow(rows: seq<EspnRow>, i: nat, ms: seq<MatchupInput>, m: MatchupInput)
    requires i < |rows| && AreEspnInputs(rows[..i], ms) && Converts(rows[i]) && m == EspnInput(rows[i])
    ensures AreEspnInputs(rows[..i + 1], ms + [m])
  {
    forall j | 0 <= j < i + 1 ensures Converts(rows[..i + 1][j]) && (ms + [m])[j] == EspnInput(rows[..i + 1][j]) {
      if j < i { assert Converts(rows[..i][j]) && ms[j] == EspnInput(rows[..i][j]); }
    }
  }

  // ---- the three agree ----

  /** The statistics' championship is the game the view shows and the archive reports. */
  lemma {:induction false} SameTitleGame(rows: seq<EspnRow>, ms: seq<MatchupInput>)
    requires AreEspnInputs(rows, ms)
    ensures ChampionshipIndex(ms) == TitleIndex(rows)
  {
    var i, j := TitleIndex(rows), ChampionshipIndex(ms);
    assert forall k :: 0 <= k < |rows| ==> (ChampionshipCandidate(ms[k]) <==> IsFinalistsGame(rows[k])) && ms[k].week == rows[k].week;
    if i.Some? && j.Some? {
      assert rows[j.value].week <= rows[i.value].week && ms[i.value].week <= ms[j.value].week;
    }
  }

  lemma {:induction false} TrimmedOwner(owner: string, aliases: Aliases)
    requires Flat(aliases)
    ensures NormalizeOwner(TrimSpace(owner), aliases) == ArchiveNormalizeOwner(owner, aliases)
  {
    CleanIsJoinOfFields(TrimSpace(owner));
    assert Clean(TrimSpace(owner)) == Clean(owner);
    NormalizeOwnerOnFlatMap(owner, aliases);
  }

  /** One title row, one champion side, one champion owner: the view's only winner flag, the
      statistics' winner whatever the score, and, under a merged alias map, the archive's
      champion owner is the owner the statistics credit. */
  lemma {:induction false} OneChampion(rows: seq<EspnRow>, format: real -> string, view: seq<MatchupRow>, season: SeasonInput, aliases: Aliases, k: nat)
    requires IsEspnView(rows, format, view) && AreEspnInputs(rows, season.matchups) && Flat(aliases)
    requires TitleIndex(rows) == Some(k)
    ensures forall i: nat :: i < |view| ==> (view[i].isChampionship <==> i == k)
    ensures Championship(season.matchups) == Some(season.matchups[k])
    ensures view[k].homeWinner <==> ResultWinner(season.matchups[k]) == WinnerHome
    ensures view[k].awayWinner <==> ResultWinner(season.matchups[k]) == WinnerAway
    ensures view[k].homeWinner != view[k].awayWinner
    ensures FinalistsOf(rows[k], aliases).champion == if view[k].homeWinner then rows[k].homeTeamName else rows[k].awayTeamName
    ensures Championship(Canonical(season, aliases).matchups).Some?
    ensures WinnerOwner(Championship(Canonical(season, aliases).matchups).value) == FinalistsOf(rows[k], aliases).championOwner
  {
    SameTitleGame(rows, season.matchups);
    OneCreditedOwner(rows, season, aliases, k);
  }

  lemma {:induction false} OneCreditedOwner(rows: seq<EspnRow>, season: SeasonInput, aliases: Aliases, k: nat)
    requires AreEspnInputs(rows, season.matchups) && Flat(aliases) && TitleIndex(rows) == Some(k)
    ensures Championship(Canonical(season, aliases).matchups).Some?
    ensures WinnerOwner(Championship(Canonical(season, aliases).matchups).value) == FinalistsOf(rows[k], aliases).championOwner
  {
    SameTitleGame(rows, season.matchups);
    var ns := Canonical(season, aliases).matchups;
    ChampionshipIgnoresOwners(season.matchups, ns);
    TrimmedOwner(rows[k].homeTeamOwners, aliases);
    TrimmedOwner(rows[k].awayTeamOwners, aliases);
  }

  /** Without a finalists' game none of the three names a champion. */
  lemma {:induction false} NoChampion(rows: seq<EspnRow>, format: real -> string, view: seq<MatchupRow>, season: SeasonInput)
    requires IsEspnView(rows, format, view) && AreEspnInputs(rows, season.matchups)
    ensures TitleIndex(rows).None? <==> Championship(season.matchups).None?
    ensures TitleIndex(rows).None? <==> forall i :: 0 <= i < |view| ==> !view[i].isChampionship
  {
    SameTitleGame(rows, season.matchups);
    if TitleIndex(rows).Some? {
      assert view[TitleIndex(rows).value].isChampionship;
    }
  }

  // ---- earlier meetings of the finalists ----

  /** View and statistics name the same winner of this row. */
  predicate SameWinner(v: MatchupRow, m: MatchupInput) {
    BothPresent(m) ==> (v.homeWinner <==> ResultWinner(m) == WinnerHome) && (v.awayWinner <==> ResultWinner(m) == WinnerAway)
  }

  /** The side that finished first also has the higher score. */
  predicate ChampionOutscores(row: EspnRow) {
    if row.homeFinalStanding == 1 then row.homeScore > row.awayScore else row.awayScore > row.homeScore
  }

  lemma {:induction false} HundredthsOrder(a: real, b: real)
    requires Hundredths(a).Some? && Hundredths(b).Some?
    ensures Hundredths(a).value > Hundredths(b).value <==> a > b
  {
  }

  lemma {:induction false} RowsSameWinner(row: EspnRow, isTitle: bool, lastWeek: int, format: real -> string)
    requires Converts(row) && (isTitle ==> IsFinalistsGame(row))
    ensures SameWinner(ViewRow(row, isTitle, lastWeek, format), EspnInput(row)) <==>
      (IsFinalistsGame(row) && !isTitle ==> ChampionOutscores(row))
  {
    HundredthsOrder(row.homeScore, row.awayScore);
    HundredthsOrder(row.awayScore, row.homeScore);
  }

  /** The statistics treat every meeting of the finalists as a championship won by the
      champion; the view does so for the last one only. They name the same winners throughout
      exactly when the champion also won every earlier meeting on points. */
  lemma {:induction false} WinnersAgreeExactly(rows: seq<EspnRow>, format: real -> string, view: seq<MatchupRow>, ms: seq<MatchupInput>)
    requires IsEspnView(rows, format, view) && AreEspnInputs(rows, ms)
    ensures (forall i :: 0 <= i < |rows| ==> SameWinner(view[i], ms[i])) <==>
      (forall i: nat :: i < |rows| && IsFinalistsGame(rows[i]) && TitleIndex(rows) != Some(i) ==> ChampionOutscores(rows[i]))
  {
    forall i: nat | i < |rows|
      ensures SameWinner(view[i], ms[i]) <==> (IsFinalistsGame(rows[i]) && TitleIndex(rows) != Some(i) ==> ChampionOutscores(rows[i]))
    {
      RowsSameWinner(rows[i], TitleIndex(rows) == Some(i), LastEspnWeek(rows), format);
    }
  }

  const LOST_EARLY := EspnRow(15, true, true, "A", "a", 90.0, 1, "B", "b", 100.0, 2, true, WINNERS_BRACKET)
  const WON_LATE := EspnRow(16, true, true, "A", "a", 110.0, 1, "B", "b", 100.0, 2, true, WINNERS_BRACKET)

  /** For instance: the later champion loses an earlier winners-bracket game to the runner-up. */
  lemma {:induction false} EarlierMeetingDiffers(format: real -> string, view: seq<MatchupRow>, ms: seq<MatchupInput>)
    requires IsEspnView([LOST_EARLY, WON_LATE], format, view) && AreEspnInputs([LOST_EARLY, WON_LATE], ms)
    ensures view[0].awayWinner && ResultWinner(ms[0]) == WinnerHome
  {
    var rows := [LOST_EARLY, WON_LATE];
    assert rows[0] == LOST_EARLY && rows[1] == WON_LATE;
    assert IsFinalistsGame(rows[1]);
    assert TitleIndex(rows) != Some(0);
  }
}
