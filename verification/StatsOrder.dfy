/** The whole page (`BuildPageDataFromSeasons` in `internal/stats/stats.go`) and what it does
    not depend on: the order in which Go ranges over maps, and the order of the seasons. */
module StatsOrder {
  import opened OwnerNames
  import opened Records
  import opened Results
  import opened Sorting
  import opened StatsLaws
  import opened StatsPage
  import opened StatsRanking
  import opened StatsRollup
  import opened StatsSeason

  datatype PageData = PageData(
    seasonCount: nat,
    ownerCount: nat,
    matchupCount: nat,
    overview: Overview,
    ownerTotals: seq<OwnerRow>,
    regularSeasonOwnerTotals: seq<OwnerRow>,
    bestRegularSeasons: seq<SeasonRow>,
    playoffOverview: PlayoffOverview,
    playoffOwnerTotals: seq<PlayoffRow>,
    championshipRecords: Book,
    champions: seq<ChampionRecord>)

  /** The owner tables of the page are the rankings of these totals. */
  ghost predicate TablesOf(om: OwnerTable, pm: PlayoffTable, page: PageData) {
    && page.ownerCount == |om|
    && IsRanking(page.ownerTotals, OwnerRowsIn(om), OWNER_ORDER, OWNER_RANK)
    && IsRanking(page.regularSeasonOwnerTotals, OwnerRowsIn(om), REGULAR_ORDER, OWNER_RANK)
    && IsRanking(page.playoffOwnerTotals, PlayoffRowsIn(pm), PLAYOFF_ORDER, PLAYOFF_RANK)
  }

  /** The rest of the page, for seasons already canonical. */
  ghost predicate RestOf(seasons: seq<SeasonInput>, page: PageData) {
    && page.seasonCount == |seasons| && page.ownerCount == |page.ownerTotals|
    && page.matchupCount == |AllPlayed(seasons)|
    && OverviewOf(page.ownerTotals, page.overview)
    && PlayoffOverviewOf(page.playoffOwnerTotals, page.playoffOverview)
    && page.overview.records == ShownAll(AllPlayed(seasons))
    && page.playoffOverview.records == ShownAll(AllPlayoffGames(seasons))
    && page.championshipRecords == ShownAll(AllTitleGames(seasons))
    && BestSeasonsOf(AllSeasonRecords(seasons), page.bestRegularSeasons)
    && Arranges(page.champions, AllTitleRecords(seasons), YEAR_ORDER)
  }

  ghost predicate PageFor(seasons: seq<SeasonInput>, page: PageData) {
    RestOf(seasons, page) && exists om, pm :: TablesFor(seasons, om, pm) && TablesOf(om, pm, page)
  }

  method BuildPageDataFromSeasons(seasons: seq<SeasonInput>, aliases: Aliases) returns (page: PageData)
    ensures PageFor(CanonicalSeasons(seasons, aliases), page)
  {
    var r := BuildRollup(seasons, aliases);
    OrdersAreOrders();
    var ownerRows := OwnerRows(r.owners);
    var regular := RankRows(ownerRows, OwnerRowsIn(r.owners), REGULAR_ORDER, OWNER_RANK);
    var ranked := RankRows(ownerRows, OwnerRowsIn(r.owners), OWNER_ORDER, OWNER_RANK);
    var playoffRows := PlayoffRows(r.playoffs);
    var playoffs := RankRows(playoffRows, PlayoffRowsIn(r.playoffs), PLAYOFF_ORDER, PLAYOFF_RANK);
    var best := BestSeasons(r.bestRegularSeasons);
    var champions := SortBy(r.champions, YEAR_ORDER);
    var overview := BuildOverview(r.allRecords.Contents(), ranked);
    var playoffOverview := BuildPlayoffOverview(r.playoffRecords.Contents(), playoffs);
    page := PageData(|seasons|, |ranked|, r.matchupCount, overview, ranked, regular, best, playoffOverview, playoffs,
                     r.championshipRecords.Contents(), champions);
    assert TablesOf(r.owners, r.playoffs, page);
  }

  // ---- lists in another order ----

  lemma {:induction false} CollectConcat<T>(a: seq<SeasonInput>, b: seq<SeasonInput>, part: SeasonInput -> seq<T>)
    ensures Collect(a + b, part) == Collect(a, part) + Collect(b, part)
    decreases |b|
  {
    if b == [] {
      assert a + b == a;
    } else {
      CollectConcat(a, b[..|b| - 1], part);
      assert (a + b)[..|a + b| - 1] == a + b[..|b| - 1];
    }
  }

  lemma {:induction false} CollectAround<T>(a: seq<SeasonInput>, x: SeasonInput, b: seq<SeasonInput>, part: SeasonInput -> seq<T>)
    ensures multiset(Collect(a + [x] + b, part)) == multiset(Collect(a + b, part)) + multiset(part(x))
  {
    CollectConcat(a, [x], part);
    CollectConcat(a + [x], b, part);
    CollectConcat(a, b, part);
    assert [x][..0] == [];
    assert Collect([x], part) == part(x);
  }

  lemma {:induction false} CollectReorder<T>(seasons: seq<SeasonInput>, perm: seq<SeasonInput>, part: SeasonInput -> seq<T>)
    requires multiset(perm) == multiset(seasons)
    ensures multiset(Collect(perm, part)) == multiset(Collect(seasons, part))
    decreases |seasons|
  {
    if seasons == [] {
      ReorderOfNone(perm);
    } else {
      var a, b := AroundHead(seasons, perm);
      CollectReorder(seasons[1..], a + b, part);
      CollectAround(a, seasons[0], b, part);
      CollectAround([], seasons[0], seasons[1..], part);
    }
  }

  lemma {:induction false} SameMembers<T>(a: seq<T>, b: seq<T>)
    requires multiset(a) == multiset(b)
    ensures |a| == |b| && forall x :: x in a <==> x in b
  {
    assert |a| == |multiset(a)| && |b| == |multiset(b)|;
    forall x ensures x in a <==> x in b {
      assert x in multiset(a) <==> x in multiset(b);
    }
  }

  /** Records of the same games in another order: the same extremes, held perhaps by another
      of the games that share them. */
  ghost predicate SameExtremes(p: Book, q: Book) {
    && (p.highest.Some? <==> q.highest.Some?) && (p.highest.Some? ==> p.highest.value.score == q.highest.value.score)
    && (p.lowest.Some? <==> q.lowest.Some?) && (p.lowest.Some? ==> p.lowest.value.score == q.lowest.value.score)
    && (p.blowout.Some? <==> q.blowout.Some?) && (p.blowout.Some? ==> p.blowout.value.margin == q.blowout.value.margin)
    && (p.closest.Some? <==> q.closest.Some?) && (p.closest.Some? ==> p.closest.value.margin == q.closest.value.margin)
  }

  lemma {:induction false} BookOrderFree(fed: seq<Fed>, perm: seq<Fed>)
    requires multiset(perm) == multiset(fed)
    ensures SameExtremes(ShownAll(fed), ShownAll(perm))
  {
    SameMembers(fed, perm);
    BookIsScan(fed);
    BookIsScan(perm);
    BooksBounded(fed, perm, ShownAll(fed), ShownAll(perm));
    BooksBounded(perm, fed, ShownAll(perm), ShownAll(fed));
  }

  /** Two lists of best seasons that differ at most in which of several tied seasons stands where. */
  ghost predicate SameUpToTies(best: seq<SeasonRow>, other: seq<SeasonRow>) {
    |best| == |other| && forall i :: 0 <= i < |best| ==>
      && best[i].rank == other[i].rank == i + 1
      && best[i].winPct == other[i].winPct
      && best[i].record.wins == other[i].record.wins
      && best[i].record.pointsFor == other[i].record.pointsFor
      && best[i].record.finalStanding == other[i].record.finalStanding
      && best[i].record.year == other[i].record.year
  }

  lemma {:induction false} SeasonTie(a: SeasonRow, b: SeasonRow)
    requires !SEASON_ORDER(a, b) && !SEASON_ORDER(b, a)
    ensures a.winPct == b.winPct && a.record.wins == b.record.wins && a.record.pointsFor == b.record.pointsFor
    ensures a.record.finalStanding == b.record.finalStanding && a.record.year == b.record.year
  {
  }

  lemma {:induction false} BestSeasonsAgree(records: seq<SeasonRecord>, perm: seq<SeasonRecord>, best: seq<SeasonRow>, other: seq<SeasonRow>)
    requires multiset(perm) == multiset(records)
    requires BestSeasonsOf(records, best) && BestSeasonsOf(perm, other)
    ensures SameUpToTies(best, other)
  {
    var r :| Arranges(r, SeasonRowsOf(records), SEASON_ORDER) && best == Numbered(FirstTen(r), SEASON_RANK);
    var s :| Arranges(s, SeasonRowsOf(perm), SEASON_ORDER) && other == Numbered(FirstTen(s), SEASON_RANK);
    MappedReorder(records, perm, (r: SeasonRecord) => SeasonRowOf(r));
    SameMembers(r, s);
    OrdersAreOrders();
    forall i | 0 <= i < |best| ensures !SEASON_ORDER(r[i], s[i]) && !SEASON_ORDER(s[i], r[i]) {
      ArrangementsAgree(r, s, SEASON_ORDER, i);
      ArrangementsAgree(s, r, SEASON_ORDER, i);
    }
    forall i | 0 <= i < |best|
      ensures best[i].rank == other[i].rank == i + 1 && best[i].winPct == other[i].winPct
      ensures best[i].record.wins == other[i].record.wins && best[i].record.pointsFor == other[i].record.pointsFor
      ensures best[i].record.finalStanding == other[i].record.finalStanding && best[i].record.year == other[i].record.year
    {
      SeasonTie(r[i], s[i]);
    }
  }

  // ---- champions ----

  ghost predicate YearsDistinct(seasons: seq<SeasonInput>) {
    forall s, t :: s in seasons && t in seasons && s != t ==> s.year != t.year
  }

  lemma {:induction false} RecordOfSeason(seasons: seq<SeasonInput>, r: ChampionRecord) returns (s: SeasonInput)
    requires r in AllTitleRecords(seasons)
    ensures s in seasons && TitleRecords(s) == [r] && r.year == s.year
    decreases |seasons|
  {
    var n := |seasons| - 1;
    assert AllTitleRecords(seasons) == AllTitleRecords(seasons[..n]) + TitleRecords(seasons[n]);
    if r in AllTitleRecords(seasons[..n]) {
      s := RecordOfSeason(seasons[..n], r);
    } else {
      s := seasons[n];
    }
  }

  /** With one season a year the list of champions is one definite sequence. */
  lemma {:induction false} ChampionsUnique(seasons: seq<SeasonInput>, perm: seq<SeasonInput>, champions: seq<ChampionRecord>, other: seq<ChampionRecord>)
    requires multiset(perm) == multiset(seasons) && YearsDistinct(seasons)
    requires Arranges(champions, AllTitleRecords(seasons), YEAR_ORDER) && Arranges(other, AllTitleRecords(perm), YEAR_ORDER)
    ensures champions == other
  {
    CollectReorder(seasons, perm, (s: SeasonInput) => TitleRecords(s));
    OrdersAreOrders();
    SameMembers(champions, AllTitleRecords(seasons));
    forall a, b | a in champions && b in champions && a != b ensures YEAR_ORDER(a, b) || YEAR_ORDER(b, a) {
      var s := RecordOfSeason(seasons, a);
      var t := RecordOfSeason(seasons, b);
      assert s != t;
    }
    ArrangementUnique(champions, other, YEAR_ORDER);
  }

  // ---- the page ----

  /** Whatever order Go ranges over its maps in, and whatever order the seasons are given in:
      the ranked tables and the leaders are the same, the extremes recorded are the same, and
      the ten best seasons are the same up to seasons tied on everything compared. */
  lemma {:induction false} PageOrderFree(seasons: seq<SeasonInput>, perm: seq<SeasonInput>, aliases: Aliases, page: PageData, other: PageData)
    requires multiset(perm) == multiset(seasons)
    requires PageFor(CanonicalSeasons(seasons, aliases), page) && PageFor(CanonicalSeasons(perm, aliases), other)
    ensures page.seasonCount == other.seasonCount && page.ownerCount == other.ownerCount && page.matchupCount == other.matchupCount
    ensures page.ownerTotals == other.ownerTotals
    ensures page.regularSeasonOwnerTotals == other.regularSeasonOwnerTotals
    ensures page.playoffOwnerTotals == other.playoffOwnerTotals
    ensures other.overview == page.overview.(records := other.overview.records)
    ensures other.playoffOverview == page.playoffOverview.(records := other.playoffOverview.records)
    ensures SameExtremes(page.overview.records, other.overview.records)
    ensures SameExtremes(page.playoffOverview.records, other.playoffOverview.records)
    ensures SameExtremes(page.championshipRecords, other.championshipRecords)
    ensures SameUpToTies(page.bestRegularSeasons, other.bestRegularSeasons)
    ensures YearsDistinct(CanonicalSeasons(seasons, aliases)) ==> page.champions == other.champions
  {
    var a, b := CanonicalSeasons(seasons, aliases), CanonicalSeasons(perm, aliases);
    CanonicalReorder(seasons, perm, aliases);
    TablesOrderFreeOnPage(seasons, perm, aliases, page, other);
    RestOrderFree(a, b, page, other);
    OverviewUnique(page.ownerTotals, page.overview, other.overview);
    PlayoffOverviewUnique(page.playoffOwnerTotals, page.playoffOverview, other.playoffOverview);
    if YearsDistinct(a) {
      ChampionsUnique(a, b, page.champions, other.champions);
    }
  }

  lemma {:induction false} TablesOrderFreeOnPage(seasons: seq<SeasonInput>, perm: seq<SeasonInput>, aliases: Aliases, page: PageData, other: PageData)
    requires multiset(perm) == multiset(seasons)
    requires PageFor(CanonicalSeasons(seasons, aliases), page) && PageFor(CanonicalSeasons(perm, aliases), other)
    ensures page.ownerCount == other.ownerCount && page.ownerTotals == other.ownerTotals
    ensures page.regularSeasonOwnerTotals == other.regularSeasonOwnerTotals && page.playoffOwnerTotals == other.playoffOwnerTotals
  {
    var om: OwnerTable, pm: PlayoffTable :| TablesFor(CanonicalSeasons(seasons, aliases), om, pm) && TablesOf(om, pm, page);
    var om', pm' :| TablesFor(CanonicalSeasons(perm, aliases), om', pm') && TablesOf(om', pm', other);
    TablesOrderFree(seasons, perm, aliases, om, pm, om', pm');
    OwnerTablesUnique(om, page.ownerTotals, other.ownerTotals);
    OwnerTablesUnique(om, page.regularSeasonOwnerTotals, other.regularSeasonOwnerTotals);
    PlayoffTablesUnique(pm, page.playoffOwnerTotals, other.playoffOwnerTotals);
  }

  lemma {:induction false} RestOrderFree(a: seq<SeasonInput>, b: seq<SeasonInput>, page: PageData, other: PageData)
    requires multiset(a) == multiset(b)
    requires RestOf(a, page) && RestOf(b, other)
    ensures page.seasonCount == other.seasonCount && page.matchupCount == other.matchupCount
    ensures SameExtremes(page.overview.records, other.overview.records)
    ensures SameExtremes(page.playoffOverview.records, other.playoffOverview.records)
    ensures SameExtremes(page.championshipRecords, other.championshipRecords)
    ensures SameUpToTies(page.bestRegularSeasons, other.bestRegularSeasons)
  {
    SameMembers(a, b);
    CollectReorder(a, b, (s: SeasonInput) => PlayedGames(s.matchups, s.year));
    CollectReorder(a, b, (s: SeasonInput) => PlayoffGames(s.matchups, s.year));
    CollectReorder(a, b, (s: SeasonInput) => TitleGames(s));
    CollectReorder(a, b, (s: SeasonInput) => SeasonRecords(s.teams, s.year));
    SameMembers(AllPlayed(a), AllPlayed(b));
    BookOrderFree(AllPlayed(a), AllPlayed(b));
    BookOrderFree(AllPlayoffGames(a), AllPlayoffGames(b));
    BookOrderFree(AllTitleGames(a), AllTitleGames(b));
    BestSeasonsAgree(AllSeasonRecords(a), AllSeasonRecords(b), page.bestRegularSeasons, other.bestRegularSeasons);
  }

  /** Title conversion lies between 0 and 1 in every row of the playoff table. */
  lemma {:induction false} ConversionBounded(seasons: seq<SeasonInput>, page: PageData, row: PlayoffRow)
    requires PageFor(seasons, page) && row in page.playoffOwnerTotals
    ensures 0.0 <= row.titleConversion <= 1.0
  {
    var om: OwnerTable, pm: PlayoffTable :| TablesFor(seasons, om, pm) && TablesOf(om, pm, page);
    var sorted :| StatsPage.Lists(sorted, PlayoffRowsIn(pm)) && Sorted(sorted, PLAYOFF_ORDER) && page.playoffOwnerTotals == Numbered(sorted, PLAYOFF_RANK);
    var i :| 0 <= i < |sorted| && row == PLAYOFF_RANK(sorted[i], i + 1);
    assert sorted[i] in PlayoffRowsIn(pm);
    var o :| o in pm && sorted[i] == PlayoffRowOf(pm[o]);
    TablesAgree(seasons, om, pm, o);
    RatioBounded(pm[o].titles, pm[o].finalsAppearances);
  }

  lemma {:induction false} RatioBounded(n: int, d: int)
    requires 0 <= n <= d
    ensures 0.0 <= Ratio(n, d) <= 1.0
  {
    if d != 0 {
      assert Ratio(n, d) * d as real == n as real;
    }
  }
}
