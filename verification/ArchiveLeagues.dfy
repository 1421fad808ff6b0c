/** The league list (`internal/archive/archive.go`): one Sleeper lineage is chosen, Sleeper
    replaces ESPN season by season, and the list is sorted. */
module ArchiveLeagues {
  import opened EspnSeasons
  import opened OwnerNames
  import opened Results
  import opened SleeperView
  import opened Sorting
  import opened Text
  import Points
  import SleeperStats

  /** A row of the Sleeper league report. */
  datatype SleeperLeague = SleeperLeague(
    leagueID: int,
    sleeperLeagueID: string,
    canonicalLeagueID: string,
    season: int,
    name: string,
    teamCount: int,
    championTeamName: string,
    runnerUpTeamName: string)

  /** A row of the ESPN leagues table. */
  datatype EspnLeague = EspnLeague(id: int, leagueID: int, year: int, teamCount: int)

  /** `LeagueSummary`. */
  datatype Summary = Summary(
    provider: string,
    id: int,
    externalID: string,
    season: int,
    name: string,
    teamCount: int,
    champion: string,
    championOwner: string,
    runnerUp: string,
    runnerUpOwner: string)

  datatype SelectionError = ManyLineages | RepeatedSeason(season: int)

  datatype ListError = NotConfigured | QueryFailed | Selection(error: SelectionError)

  const ESPN := "espn"
  const SLEEPER := "sleeper"

  // ---- choosing the lineage ----

  function Lineage(l: SleeperLeague): string {
    TrimSpace(l.canonicalLeagueID)
  }

  function Lineages(leagues: seq<SleeperLeague>): set<string> {
    set l | l in leagues && Lineage(l) != "" :: Lineage(l)
  }

  /** More than one lineage and none configured: the choice would be arbitrary. */
  ghost predicate Ambiguous(leagues: seq<SleeperLeague>, main: string) {
    main == "" && exists a, b :: a in leagues && b in leagues && Lineage(a) != "" && Lineage(b) != "" && Lineage(a) != Lineage(b)
  }

  /** `id` is the lineage to list; blank when there is none. */
  ghost predicate IsChosen(leagues: seq<SleeperLeague>, main: string, id: string) {
    if main != "" then id == main
    else if exists l :: l in leagues && Lineage(l) != "" then exists l :: l in leagues && Lineage(l) == id != ""
    else id == ""
  }

  function OfLineage(leagues: seq<SleeperLeague>, id: string): seq<SleeperLeague> {
    if leagues == [] then []
    else OfLineage(leagues[..|leagues| - 1], id) + if Lineage(leagues[|leagues| - 1]) == id then [leagues[|leagues| - 1]] else []
  }

  /** The rows of the lineage; a blank lineage has none. */
  function Chosen(leagues: seq<SleeperLeague>, id: string): seq<SleeperLeague> {
    if id == "" then [] else OfLineage(leagues, id)
  }

  ghost predicate SeasonsDistinct(leagues: seq<SleeperLeague>) {
    forall i, j :: 0 <= i < j < |leagues| ==> leagues[i].season != leagues[j].season
  }

  lemma {:induction false} ChosenUnique(leagues: seq<SleeperLeague>, main: string, id: string, other: string)
    requires !Ambiguous(leagues, main) && IsChosen(leagues, main, id) && IsChosen(leagues, main, other)
    ensures id == other
  {
  }

  lemma {:induction false} SomeChosen(leagues: seq<SleeperLeague>, main: string) returns (id: string)
    ensures IsChosen(leagues, main, id)
  {
    id := main;
    if main == "" {
      if l :| l in leagues && Lineage(l) != "" { id := Lineage(l); }
    }
  }

  method CollectLineages(leagues: seq<SleeperLeague>) returns (ids: set<string>)
    ensures ids == Lineages(leagues)
  {
    ids := {};
    for i := 0 to |leagues|
      invariant ids == Lineages(leagues[..i])
    {
      var id := TrimSpace(leagues[i].canonicalLeagueID);
      assert leagues[..i + 1] == leagues[..i] + [leagues[i]];
      if id != "" {
        ids := ids + {id};
      }
      LineagesGrow(leagues[..i], leagues[i]);
    }
    assert leagues[..|leagues|] == leagues;
  }

  lemma {:induction false} LineagesGrow(leagues: seq<SleeperLeague>, l: SleeperLeague)
    ensures Lineages(leagues + [l]) == Lineages(leagues) + if Lineage(l) != "" then {Lineage(l)} else {}
  {
    var more := leagues + [l];
    assert forall m :: m in more <==> m in leagues || m == l;
  }

  lemma {:induction false} OneLineage(leagues: seq<SleeperLeague>, ids: set<string>)
    requires ids == Lineages(leagues)
    ensures |ids| > 1 <==> Ambiguous(leagues, "")
  {
    if |ids| > 1 {
      var a :| a in ids;
      var rest := ids - {a};
      assert |rest| == |ids| - 1;
      var b :| b in rest;
      var x :| x in leagues && Lineage(x) == a;
      var y :| y in leagues && Lineage(y) == b;
    }
    if Ambiguous(leagues, "") {
      var x, y :| x in leagues && y in leagues && Lineage(x) != "" && Lineage(y) != "" && Lineage(x) != Lineage(y);
      assert {Lineage(x), Lineage(y)} <= ids;
      SubsetSize({Lineage(x), Lineage(y)}, ids);
    }
  }

  lemma {:induction false} SubsetSize(a: set<string>, b: set<string>)
    requires a <= b
    ensures |a| <= |b|
    decreases |a|
  {
    if a != {} {
      var x :| x in a;
      SubsetSize(a - {x}, b - {x});
    }
  }

  method CanonicalLeagueID(leagues: seq<SleeperLeague>, main: string) returns (r: Result<string, SelectionError>)
    ensures r.Err? <==> Ambiguous(leagues, main)
    ensures r.Err? ==> r.error == ManyLineages
    ensures r.Ok? ==> IsChosen(leagues, main, r.value)
  {
    if main != "" { return Ok(main); }
    var ids := CollectLineages(leagues);
    OneLineage(leagues, ids);
    if |ids| > 1 { return Err(ManyLineages); }
    var id := "";
    if ids != {} {
      var only :| only in ids;
      id := only;
    }
    assert forall l :: l in leagues && Lineage(l) != "" ==> Lineage(l) in ids;
    r := Ok(id);
  }

  /** Fails exactly on several lineages with none configured, or on a season listed twice in the
      chosen one; otherwise gives the rows of that lineage in their order. */
  method CanonicalSleeperLeagues(leagues: seq<SleeperLeague>, main: string) returns (r: Result<seq<SleeperLeague>, SelectionError>, ghost id: string)
    ensures IsChosen(leagues, main, id)
    ensures r.Ok? <==> !Ambiguous(leagues, main) && SeasonsDistinct(Chosen(leagues, id))
    ensures r.Ok? ==> r.value == Chosen(leagues, id)
    ensures r.Err? ==> (r.error == ManyLineages <==> Ambiguous(leagues, main))
  {
    id := SomeChosen(leagues, main);
    var canonical := CanonicalLeagueID(leagues, main);
    if canonical.Err? { return Err(canonical.error), id; }
    ChosenUnique(leagues, main, id, canonical.value);
    var canonicalLeagueID := canonical.value;
    if canonicalLeagueID == "" { return Ok([]), id; }
    var selected: seq<SleeperLeague> := [];
    var seasonSeen: set<int> := {};
    for i := 0 to |leagues|
      invariant selected == OfLineage(leagues[..i], id) && SeasonsDistinct(selected)
      invariant seasonSeen == SeasonsOf(selected)
    {
      var league := leagues[i];
      OfLineageStep(leagues, i, id);
      if TrimSpace(league.canonicalLeagueID) != canonicalLeagueID { continue; }
      if league.season in seasonSeen {
        RepeatedSeasonStays(leagues, i, id);
        return Err(RepeatedSeason(league.season)), id;
      }
      SeasonsOfMore(selected, league);
      seasonSeen := seasonSeen + {league.season};
      selected := selected + [league];
    }
    assert leagues[..|leagues|] == leagues;
    r := Ok(selected);
  }

  lemma {:induction false} OfLineageStep(leagues: seq<SleeperLeague>, i: nat, id: string)
    requires i < |leagues|
    ensures OfLineage(leagues[..i + 1], id) == OfLineage(leagues[..i], id) + if Lineage(leagues[i]) == id then [leagues[i]] else []
  {
    assert leagues[..i + 1][..i] == leagues[..i];
  }

  lemma {:induction false} SeasonsOfMore(leagues: seq<SleeperLeague>, l: SleeperLeague)
    ensures SeasonsOf(leagues + [l]) == SeasonsOf(leagues) + {l.season}
    ensures SeasonsDistinct(leagues) && l.season !in SeasonsOf(leagues) ==> SeasonsDistinct(leagues + [l])
  {
    var more := leagues + [l];
    assert forall m :: m in more <==> m in leagues || m == l;
    assert forall i :: 0 <= i < |leagues| ==> leagues[i].season in SeasonsOf(leagues);
  }

  lemma {:induction false} OfLineageConcat(a: seq<SleeperLeague>, b: seq<SleeperLeague>, id: string)
    ensures OfLineage(a + b, id) == OfLineage(a, id) + OfLineage(b, id)
    decreases |b|
  {
    if b == [] {
      assert a + b == a;
    } else {
      OfLineageConcat(a, b[..|b| - 1], id);
      assert (a + b)[..|a + b| - 1] == a + b[..|b| - 1];
    }
  }

  lemma {:induction false} RepeatedSeasonStays(leagues: seq<SleeperLeague>, i: nat, id: string)
    requires i < |leagues| && Lineage(leagues[i]) == id
    requires exists l :: l in OfLineage(leagues[..i], id) && l.season == leagues[i].season
    ensures !SeasonsDistinct(OfLineage(leagues, id))
  {
    var before := OfLineage(leagues[..i], id);
    var k :| 0 <= k < |before| && before[k].season == leagues[i].season;
    assert leagues == leagues[..i + 1] + leagues[i + 1..] && leagues[..i + 1][..i] == leagues[..i];
    OfLineageConcat(leagues[..i + 1], leagues[i + 1..], id);
    var all := OfLineage(leagues, id);
    assert all[k] == before[k] && all[|before|] == leagues[i];
  }

  // ---- champions ----

  /** `sleeperTeamOwnerLabel`. */
  function SleeperOwnerLabel(t: Team, aliases: Aliases): string {
    if TrimSpace(t.ownerID) != "" && TrimSpace(t.ownerID) in aliases then Clean(aliases[TrimSpace(t.ownerID)])
    else if TrimSpace(t.displayName) != "" then ArchiveNormalizeOwner(TrimSpace(t.displayName), aliases)
    else if TrimSpace(t.username) != "" then ArchiveNormalizeOwner(TrimSpace(t.username), aliases)
    else ArchiveNormalizeOwner(t.ownerID, aliases)
  }

  /** The last team of a standing gives its owner. */
  function OwnerOfStanding(teams: seq<Team>, standing: int, aliases: Aliases): string {
    if teams == [] then ""
    else if teams[|teams| - 1].finalStanding == standing then SleeperOwnerLabel(teams[|teams| - 1], aliases)
    else OwnerOfStanding(teams[..|teams| - 1], standing, aliases)
  }

  method SleeperFinalists(teams: Option<seq<Team>>, aliases: Aliases) returns (championOwner: string, runnerUpOwner: string)
    ensures teams.None? ==> championOwner == runnerUpOwner == ""
    ensures teams.Some? ==> championOwner == OwnerOfStanding(teams.value, 1, aliases) && runnerUpOwner == OwnerOfStanding(teams.value, 2, aliases)
  {
    championOwner, runnerUpOwner := "", "";
    if teams.None? { return; }
    for i := 0 to |teams.value|
      invariant championOwner == OwnerOfStanding(teams.value[..i], 1, aliases)
      invariant runnerUpOwner == OwnerOfStanding(teams.value[..i], 2, aliases)
    {
      var team := teams.value[i];
      assert teams.value[..i + 1][..i] == teams.value[..i];
      if team.finalStanding == 1 {
        championOwner := SleeperOwnerLabel(team, aliases);
      } else if team.finalStanding == 2 {
        runnerUpOwner := SleeperOwnerLabel(team, aliases);
      }
    }
    assert teams.value[..|teams.value|] == teams.value;
  }

  /** For a Sleeper owner id that a merged alias map knows, the archive's label is the name the
      statistics count under. */
  lemma {:induction false} KnownOwnerLabel(t: Team, aliases: Aliases)
    requires Flat(aliases) && TrimSpace(t.ownerID) in aliases
    ensures SleeperOwnerLabel(t, aliases) == NormalizeOwner(SleeperStats.OwnerKey(t), aliases)
  {
    CleanNormalForm(TrimSpace(t.ownerID));
  }

  // ---- the list ----

  /** What the service can read. No `reports` means no Sleeper database; a failed query is an error. */
  datatype Service = Service(
    espn: Option<Result<seq<EspnLeague>, ()>>,
    espnMatchups: Option<int -> Result<seq<EspnRow>, ()>>,
    reports: Option<Result<seq<SleeperLeague>, ()>>,
    sleeperTeams: Option<int -> Option<seq<Team>>>,
    aliases: Aliases,
    mainSleeperLeagueID: string)

  function EspnSummary(s: Service, l: EspnLeague): Summary {
    var plain := Summary(ESPN, l.id, Points.SignedDecimal(l.leagueID), l.year, "ESPN " + Points.SignedDecimal(l.leagueID), l.teamCount, "", "", "", "");
    if s.espnMatchups.None? || s.espnMatchups.value(l.id).Err? then plain
    else
      match TitleRow(s.espnMatchups.value(l.id).value)
      case None => plain
      case Some(row) =>
        var f := FinalistsOf(row, s.aliases);
        plain.(champion := f.champion, championOwner := f.championOwner, runnerUp := f.runnerUp, runnerUpOwner := f.runnerUpOwner)
  }

  function SleeperSummary(s: Service, l: SleeperLeague): Summary {
    var teams := if s.sleeperTeams.None? then None else s.sleeperTeams.value(l.leagueID);
    Summary(SLEEPER, l.leagueID, l.sleeperLeagueID, l.season, l.name, l.teamCount,
      l.championTeamName, if teams.None? then "" else OwnerOfStanding(teams.value, 1, s.aliases),
      l.runnerUpTeamName, if teams.None? then "" else OwnerOfStanding(teams.value, 2, s.aliases))
  }

  predicate Reads(s: Service, l: EspnLeague) {
    s.espnMatchups.None? || s.espnMatchups.value(l.id).Ok?
  }

  /** The ESPN leagues of years not in the set. */
  function Uncovered(leagues: seq<EspnLeague>, covered: set<int>): seq<EspnLeague> {
    if leagues == [] then []
    else Uncovered(leagues[..|leagues| - 1], covered) + if leagues[|leagues| - 1].year in covered then [] else [leagues[|leagues| - 1]]
  }

  function SeasonsOf(leagues: seq<SleeperLeague>): set<int> {
    set l | l in leagues :: l.season
  }

  /** The summaries before sorting, for the Sleeper leagues that are listed. */
  function Summaries(s: Service, espn: seq<EspnLeague>, sleeper: seq<SleeperLeague>, covered: set<int>): seq<Summary> {
    Mapped(Uncovered(espn, covered), (l: EspnLeague) => EspnSummary(s, l)) + Mapped(sleeper, (l: SleeperLeague) => SleeperSummary(s, l))
  }

  /** The Sleeper leagues to list: none without a working database, else all, or the chosen lineage. */
  ghost predicate Listed(s: Service, canonicalOnly: bool, sleeper: seq<SleeperLeague>) {
    if s.reports.None? || s.reports.value.Err? then sleeper == []
    else if !canonicalOnly then sleeper == s.reports.value.value
    else exists id :: IsChosen(s.reports.value.value, TrimSpace(s.mainSleeperLeagueID), id) && sleeper == Chosen(s.reports.value.value, id)
  }

  function Covered(canonicalOnly: bool, sleeper: seq<SleeperLeague>): set<int> {
    if canonicalOnly then SeasonsOf(sleeper) else {}
  }

  /** Season, provider, name, external id, id. */
  const BY_SEASON := (a: Summary, b: Summary) => a.season < b.season
  const BY_PROVIDER := (a: Summary, b: Summary) => Less(a.provider, b.provider)
  const BY_NAME := (a: Summary, b: Summary) => Less(a.name, b.name)
  const BY_EXTERNAL_ID := (a: Summary, b: Summary) => Less(a.externalID, b.externalID)
  const BY_ID := (a: Summary, b: Summary) => a.id < b.id

  const LIST_ORDER: (Summary, Summary) -> bool := ThenBy(BY_SEASON, ThenBy(BY_PROVIDER, ThenBy(BY_NAME, ThenBy(BY_EXTERNAL_ID, BY_ID))))

  lemma {:induction false} ListOrderIsOrder()
    ensures StrictWeakOrder(LIST_ORDER)
  {
    NamesAreOrders();
    ThenByIsOrder(BY_EXTERNAL_ID, BY_ID);
    ThenByIsOrder(BY_NAME, ThenBy(BY_EXTERNAL_ID, BY_ID));
    ThenByIsOrder(BY_PROVIDER, ThenBy(BY_NAME, ThenBy(BY_EXTERNAL_ID, BY_ID)));
    ThenByIsOrder(BY_SEASON, ThenBy(BY_PROVIDER, ThenBy(BY_NAME, ThenBy(BY_EXTERNAL_ID, BY_ID))));
  }

  lemma {:induction false} ByStringIsOrder(key: Summary -> string, less: (Summary, Summary) -> bool)
    requires forall a, b :: less(a, b) <==> Less(key(a), key(b))
    ensures StrictWeakOrder(less)
  {
    LessIsStrictTotal();
    forall a, b, c | less(a, b) && less(b, c) ensures less(a, c) {
      assert Less(key(a), key(b)) && Less(key(b), key(c));
    }
    forall a, b, c | !less(a, b) && !less(b, c) ensures !less(a, c) {
      assert !Less(key(a), key(b)) && !Less(key(b), key(c));
    }
  }

  lemma {:induction false} NamesAreOrders()
    ensures StrictWeakOrder(BY_PROVIDER) && StrictWeakOrder(BY_NAME) && StrictWeakOrder(BY_EXTERNAL_ID)
  {
    ByStringIsOrder((s: Summary) => s.provider, BY_PROVIDER);
    ByStringIsOrder((s: Summary) => s.name, BY_NAME);
    ByStringIsOrder((s: Summary) => s.externalID, BY_EXTERNAL_ID);
  }

  // ---- listing ----

  method EspnSummaryOf(s: Service, l: EspnLeague) returns (r: Option<Summary>)
    ensures r == if Reads(s, l) then Some(EspnSummary(s, l)) else None
  {
    var summary := Summary(ESPN, l.id, Points.SignedDecimal(l.leagueID), l.year, "ESPN " + Points.SignedDecimal(l.leagueID), l.teamCount, "", "", "", "");
    if s.espnMatchups.Some? {
      var rows := s.espnMatchups.value(l.id);
      if rows.Err? { return None; }
      var finalists := ESPNFinalists(rows.value, s.aliases);
      if finalists.Some? {
        summary := summary.(champion := finalists.value.champion, championOwner := finalists.value.championOwner,
                            runnerUp := finalists.value.runnerUp, runnerUpOwner := finalists.value.runnerUpOwner);
      }
    }
    r := Some(summary);
  }

  method EspnSummaries(s: Service, leagues: seq<EspnLeague>, covered: set<int>) returns (r: Option<seq<Summary>>)
    ensures r.Some? <==> forall l :: l in Uncovered(leagues, covered) ==> Reads(s, l)
    ensures r.Some? ==> r.value == Mapped(Uncovered(leagues, covered), (l: EspnLeague) => EspnSummary(s, l))
  {
    var list: seq<Summary> := [];
    for i := 0 to |leagues|
      invariant forall l :: l in Uncovered(leagues[..i], covered) ==> Reads(s, l)
      invariant list == Mapped(Uncovered(leagues[..i], covered), (l: EspnLeague) => EspnSummary(s, l))
    {
      assert leagues[..i + 1][..i] == leagues[..i];
      if leagues[i].year in covered { continue; }
      var summary := EspnSummaryOf(s, leagues[i]);
      if summary.None? {
        UncoveredHas(leagues, covered, i);
        return None;
      }
      list := list + [summary.value];
    }
    assert leagues[..|leagues|] == leagues;
    r := Some(list);
  }

  lemma {:induction false} UncoveredHas(leagues: seq<EspnLeague>, covered: set<int>, i: nat)
    requires i < |leagues| && leagues[i].year !in covered
    ensures leagues[i] in Uncovered(leagues, covered)
    decreases |leagues|
  {
    if i < |leagues| - 1 { UncoveredHas(leagues[..|leagues| - 1], covered, i); }
  }

  method SleeperSummaries(s: Service, leagues: seq<SleeperLeague>) returns (list: seq<Summary>)
    ensures list == Mapped(leagues, (l: SleeperLeague) => SleeperSummary(s, l))
  {
    list := [];
    for i := 0 to |leagues|
      invariant list == Mapped(leagues[..i], (l: SleeperLeague) => SleeperSummary(s, l))
    {
      var league := leagues[i];
      var championOwner, runnerUpOwner := "", "";
      if s.sleeperTeams.Some? {
        championOwner, runnerUpOwner := SleeperFinalists(s.sleeperTeams.value(league.leagueID), s.aliases);
      }
      list := list + [Summary(SLEEPER, league.leagueID, league.sleeperLeagueID, league.season, league.name, league.teamCount,
        league.championTeamName, championOwner, league.runnerUpTeamName, runnerUpOwner)];
      assert leagues[..i + 1] == leagues[..i] + [league];
    }
    assert leagues[..|leagues|] == leagues;
  }

  method ListedSleeper(s: Service, canonicalOnly: bool) returns (r: Result<seq<SleeperLeague>, SelectionError>)
    ensures r.Ok? ==> Listed(s, canonicalOnly, r.value) && (canonicalOnly ==> SeasonsDistinct(r.value))
    ensures r.Err? <==> canonicalOnly && s.reports.Some? && s.reports.value.Ok? && Unselectable(s.reports.value.value, TrimSpace(s.mainSleeperLeagueID))
  {
    if s.reports.None? || s.reports.value.Err? { return Ok([]); }
    var leagues := s.reports.value.value;
    if !canonicalOnly { return Ok(leagues); }
    ghost var main := TrimSpace(s.mainSleeperLeagueID);
    ghost var id;
    r, id := CanonicalSleeperLeagues(leagues, TrimSpace(s.mainSleeperLeagueID));
    if r.Err? && !Ambiguous(leagues, main) {
      assert IsChosen(leagues, main, id) && !SeasonsDistinct(Chosen(leagues, id));
    }
    if r.Ok? && exists other :: IsChosen(leagues, main, other) && !SeasonsDistinct(Chosen(leagues, other)) {
      var other :| IsChosen(leagues, main, other) && !SeasonsDistinct(Chosen(leagues, other));
      ChosenUnique(leagues, main, id, other);
    }
  }

  /** The selection is ambiguous or the chosen lineage lists a season twice. */
  ghost predicate Unselectable(leagues: seq<SleeperLeague>, main: string) {
    Ambiguous(leagues, main) || exists id :: IsChosen(leagues, main, id) && !SeasonsDistinct(Chosen(leagues, id))
  }

  /** `listLeagueSummaries`. */
  method ListLeagueSummaries(s: Service, canonicalOnly: bool) returns (r: Result<seq<Summary>, ListError>, ghost sleeper: seq<SleeperLeague>)
    ensures r.Ok? ==>
      && s.espn.Some? && s.espn.value.Ok? && Listed(s, canonicalOnly, sleeper) && (canonicalOnly ==> SeasonsDistinct(sleeper))
      && (forall l :: l in Uncovered(s.espn.value.value, Covered(canonicalOnly, sleeper)) ==> Reads(s, l))
      && Arranges(r.value, Summaries(s, s.espn.value.value, sleeper, Covered(canonicalOnly, sleeper)), LIST_ORDER)
    ensures r.Err? && r.error.Selection? <==>
      && s.espn.Some? && s.espn.value.Ok? && canonicalOnly && s.reports.Some? && s.reports.value.Ok?
      && Unselectable(s.reports.value.value, TrimSpace(s.mainSleeperLeagueID))
    ensures r.Err? && r.error.NotConfigured? <==> s.espn.None?
    ensures r.Err? && r.error.QueryFailed? ==>
      s.espn.Some? && (s.espn.value.Err? || exists l :: l in Uncovered(s.espn.value.value, Covered(canonicalOnly, sleeper)) && !Reads(s, l))
  {
    sleeper := [];
    if s.espn.None? { return Err(NotConfigured), []; }
    if s.espn.value.Err? { return Err(QueryFailed), []; }
    var listed := ListedSleeper(s, canonicalOnly);
    if listed.Err? { return Err(Selection(listed.error)), []; }
    sleeper := listed.value;
    var covered := Covered(canonicalOnly, listed.value);
    var espn := EspnSummaries(s, s.espn.value.value, covered);
    if espn.None? {
      return Err(QueryFailed), sleeper;
    }
    var fromSleeper := SleeperSummaries(s, listed.value);
    ListOrderIsOrder();
    var list := SortBy(espn.value + fromSleeper, LIST_ORDER);
    r := Ok(list);
  }

  // ---- what is in the list ----

  lemma {:induction false} UncoveredIs(leagues: seq<EspnLeague>, covered: set<int>, l: EspnLeague)
    ensures l in Uncovered(leagues, covered) <==> l in leagues && l.year !in covered
    decreases |leagues|
  {
    if leagues != [] {
      var init, last := leagues[..|leagues| - 1], leagues[|leagues| - 1];
      UncoveredIs(init, covered, l);
      assert leagues == init + [last];
    }
  }

  lemma {:induction false} NothingCovered(leagues: seq<EspnLeague>)
    ensures Uncovered(leagues, {}) == leagues
    decreases |leagues|
  {
    if leagues != [] {
      NothingCovered(leagues[..|leagues| - 1]);
      assert leagues == leagues[..|leagues| - 1] + [leagues[|leagues| - 1]];
    }
  }

  /** The full list keeps every row of both databases, as often as it is there. */
  lemma {:induction false} FullListConserves(s: Service, espn: seq<EspnLeague>, sleeper: seq<SleeperLeague>, list: seq<Summary>)
    requires Arranges(list, Summaries(s, espn, sleeper, Covered(false, sleeper)), LIST_ORDER)
    ensures multiset(list) ==
      multiset(Mapped(espn, (l: EspnLeague) => EspnSummary(s, l))) + multiset(Mapped(sleeper, (l: SleeperLeague) => SleeperSummary(s, l)))
  {
    NothingCovered(espn);
  }

  /** A season that a listed Sleeper league covers stands once in the canonical list, as that
      league; every other season keeps exactly its ESPN leagues. */
  lemma {:induction false} CanonicalSeasons(s: Service, espn: seq<EspnLeague>, sleeper: seq<SleeperLeague>, list: seq<Summary>, season: int)
    requires SeasonsDistinct(sleeper)
    requires Arranges(list, Summaries(s, espn, sleeper, Covered(true, sleeper)), LIST_ORDER)
    ensures season in SeasonsOf(sleeper) ==>
      (exists l :: l in sleeper && l.season == season && OnlyEntry(list, season, SleeperSummary(s, l)))
    ensures season !in SeasonsOf(sleeper) ==>
      forall e :: e in list && e.season == season <==> (exists l :: l in espn && l.year == season && e == EspnSummary(s, l))
  {
    var covered := SeasonsOf(sleeper);
    if season in covered {
      var k :| 0 <= k < |sleeper| && sleeper[k].season == season;
      SleeperEntryOnce(s, espn, sleeper, list, k);
    } else {
      forall e ensures e in list && e.season == season <==> (exists l :: l in espn && l.year == season && e == EspnSummary(s, l)) {
        EspnEntry(s, espn, sleeper, list, season, e);
      }
    }
  }

  /** `entry` is the list's one entry for the season. */
  ghost predicate OnlyEntry(list: seq<Summary>, season: int, entry: Summary) {
    multiset(list)[entry] == 1 && forall e :: e in list && e.season == season ==> e == entry
  }

  lemma {:induction false} EspnEntry(s: Service, espn: seq<EspnLeague>, sleeper: seq<SleeperLeague>, list: seq<Summary>, season: int, e: Summary)
    requires Arranges(list, Summaries(s, espn, sleeper, SeasonsOf(sleeper)), LIST_ORDER) && season !in SeasonsOf(sleeper)
    ensures e in list && e.season == season <==> (exists l :: l in espn && l.year == season && e == EspnSummary(s, l))
  {
    var open := Uncovered(espn, SeasonsOf(sleeper));
    var all := Summaries(s, espn, sleeper, SeasonsOf(sleeper));
    assert e in list <==> e in multiset(list);
    assert e in all <==> e in multiset(all);
    if e in all && e.season == season {
      var i :| 0 <= i < |all| && all[i] == e;
      if i < |open| {
        UncoveredIs(espn, SeasonsOf(sleeper), open[i]);
      }
    }
    if l :| l in espn && l.year == season && e == EspnSummary(s, l) {
      UncoveredIs(espn, SeasonsOf(sleeper), l);
      var i :| 0 <= i < |open| && open[i] == l;
      assert all[i] == e;
    }
  }

  lemma {:induction false} SleeperEntryOnce(s: Service, espn: seq<EspnLeague>, sleeper: seq<SleeperLeague>, list: seq<Summary>, k: nat)
    requires SeasonsDistinct(sleeper) && k < |sleeper|
    requires Arranges(list, Summaries(s, espn, sleeper, SeasonsOf(sleeper)), LIST_ORDER)
    ensures OnlyEntry(list, sleeper[k].season, SleeperSummary(s, sleeper[k]))
  {
    var open := Uncovered(espn, SeasonsOf(sleeper));
    var all := Summaries(s, espn, sleeper, SeasonsOf(sleeper));
    var at, entry := |open| + k, SleeperSummary(s, sleeper[k]);
    assert all[at] == entry;
    forall i | 0 <= i < |all| && i != at ensures all[i].season != entry.season {
      if i < |open| {
        UncoveredIs(espn, SeasonsOf(sleeper), open[i]);
        assert sleeper[k] in sleeper;
      } else {
        assert sleeper[i - |open|].season != sleeper[k].season;
      }
    }
    OnceIn(all, at);
    forall e | e in list && e.season == entry.season ensures e == entry {
      assert e in multiset(all);
      var i :| 0 <= i < |all| && all[i] == e;
    }
  }

  lemma {:induction false} OnceIn(all: seq<Summary>, at: nat)
    requires at < |all| && forall i :: 0 <= i < |all| && i != at ==> all[i] != all[at]
    ensures multiset(all)[all[at]] == 1
  {
    Without(all, at);
    var rest := all[..at] + all[at + 1..];
    forall i | 0 <= i < |rest| ensures rest[i] != all[at] {
      assert rest[i] == all[if i < at then i else i + 1];
    }
    assert all[at] !in rest;
  }

  /** Ids tell the rows of one provider apart, as the primary keys of the two databases do. */
  ghost predicate IdsDistinct(all: seq<Summary>) {
    forall i, j :: 0 <= i < j < |all| ==> all[i].provider != all[j].provider || all[i].id != all[j].id
  }

  lemma {:induction false} DifferentIdsDecide(a: Summary, b: Summary)
    requires a.provider != b.provider || a.id != b.id
    ensures LIST_ORDER(a, b) || LIST_ORDER(b, a)
  {
    LessTotal(a.provider, b.provider);
    LessTotal(a.name, b.name);
    LessTotal(a.externalID, b.externalID);
  }

  /** Whatever order the databases return their rows in, the sorted list is the same. */
  lemma {:induction false} ListOrderFree(all: seq<Summary>, perm: seq<Summary>, list: seq<Summary>, other: seq<Summary>)
    requires IdsDistinct(all) && multiset(perm) == multiset(all)
    requires Arranges(list, all, LIST_ORDER) && Arranges(other, perm, LIST_ORDER)
    ensures list == other
  {
    ListOrderIsOrder();
    forall a, b | a in list && b in list && a != b ensures LIST_ORDER(a, b) || LIST_ORDER(b, a) {
      assert a in multiset(all) && b in multiset(all);
      var i :| 0 <= i < |all| && all[i] == a;
      var j :| 0 <= j < |all| && all[j] == b;
      DifferentIdsDecide(a, b);
    }
    ArrangementUnique(list, other, LIST_ORDER);
  }
}
