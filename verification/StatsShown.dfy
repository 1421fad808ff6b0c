/** What the statistics page shows, field by field (`BuildPageDataFromSeasons` in
    `internal/stats/stats.go`): the order of every table, the figures of every row, who leads in
    each respect, which game holds each record, who is listed as champion. */
module StatsShown {
  import opened OwnerNames
  import opened Records
  import opened Results
  import opened Sorting
  import opened StatsCounts
  import opened StatsLaws
  import opened StatsOrder
  import opened StatsPage
  import opened StatsRanking
  import opened StatsRollup
  import opened StatsSeason
  import opened StatsTally
  import opened Sums
  import opened Text

  // ---- the order of the tables ----

  /** Of two owners the one higher up: more wins, then titles, then winning percentage, then by name. */
  predicate OwnerAbove(a: OwnerRow, b: OwnerRow) {
    || a.total.wins > b.total.wins
    || (a.total.wins == b.total.wins &&
        (|| a.total.titles > b.total.titles
         || (a.total.titles == b.total.titles &&
             (a.winPct > b.winPct || (a.winPct == b.winPct && Less(a.total.owner, b.total.owner))))))
  }

  /** In the regular-season table: more wins, then winning percentage, then points, then by name. */
  predicate RegularAbove(a: OwnerRow, b: OwnerRow) {
    || a.total.wins > b.total.wins
    || (a.total.wins == b.total.wins &&
        (|| a.winPct > b.winPct
         || (a.winPct == b.winPct &&
             (a.total.pointsFor > b.total.pointsFor || (a.total.pointsFor == b.total.pointsFor && Less(a.total.owner, b.total.owner))))))
  }

  /** In the playoff table: more titles, then wins, then appearances, then winning percentage, then by name. */
  predicate PlayoffAbove(a: PlayoffRow, b: PlayoffRow) {
    || a.total.titles > b.total.titles
    || (a.total.titles == b.total.titles &&
        (|| a.total.wins > b.total.wins
         || (a.total.wins == b.total.wins &&
             (|| a.total.appearances > b.total.appearances
              || (a.total.appearances == b.total.appearances &&
                  (a.winPct > b.winPct || (a.winPct == b.winPct && Less(a.total.owner, b.total.owner))))))))
  }

  lemma {:induction false} OwnerOrderReads(a: OwnerRow, b: OwnerRow)
    requires a.total.owner != b.total.owner && !OWNER_ORDER(b, a)
    ensures OwnerAbove(a, b)
  {
    LessTotal(a.total.owner, b.total.owner);
  }

  lemma {:induction false} RegularOrderReads(a: OwnerRow, b: OwnerRow)
    requires a.total.owner != b.total.owner && !REGULAR_ORDER(b, a)
    ensures RegularAbove(a, b)
  {
    LessTotal(a.total.owner, b.total.owner);
  }

  lemma {:induction false} PlayoffOrderReads(a: PlayoffRow, b: PlayoffRow)
    requires a.total.owner != b.total.owner && !PLAYOFF_ORDER(b, a)
    ensures PlayoffAbove(a, b)
  {
    LessTotal(a.total.owner, b.total.owner);
  }

  lemma {:induction false} OwnerTableReads(m: OwnerTable, table: seq<OwnerRow>, other: seq<OwnerRow>, i: nat, j: nat)
    requires GoodOwners(m)
    requires IsRanking(table, OwnerRowsIn(m), OWNER_ORDER, OWNER_RANK) && IsRanking(other, OwnerRowsIn(m), REGULAR_ORDER, OWNER_RANK)
    ensures i < j < |table| ==> OwnerAbove(table[i], table[j])
    ensures i < j < |other| ==> RegularAbove(other[i], other[j])
  {
    var s :| Lists(s, OwnerRowsIn(m)) && Sorted(s, OWNER_ORDER) && table == Numbered(s, OWNER_RANK);
    var r :| Lists(r, OwnerRowsIn(m)) && Sorted(r, REGULAR_ORDER) && other == Numbered(r, OWNER_RANK);
    if i < j < |table| {
      OwnersDiffer(m, s, i, j);
      OwnerOrderReads(s[i], s[j]);
    }
    if i < j < |other| {
      OwnersDiffer(m, r, i, j);
      RegularOrderReads(r[i], r[j]);
    }
  }

  lemma {:induction false} OwnersDiffer(m: OwnerTable, rows: seq<OwnerRow>, i: nat, j: nat)
    requires GoodOwners(m) && Lists(rows, OwnerRowsIn(m)) && i < j < |rows|
    ensures rows[i].total.owner != rows[j].total.owner
  {
    assert rows[i] in OwnerRowsIn(m) && rows[j] in OwnerRowsIn(m);
  }

  lemma {:induction false} PlayoffTableReads(m: PlayoffTable, table: seq<PlayoffRow>, i: nat, j: nat)
    requires GoodPlayoffs(m) && IsRanking(table, PlayoffRowsIn(m), PLAYOFF_ORDER, PLAYOFF_RANK) && i < j < |table|
    ensures PlayoffAbove(table[i], table[j])
  {
    var s :| Lists(s, PlayoffRowsIn(m)) && Sorted(s, PLAYOFF_ORDER) && table == Numbered(s, PLAYOFF_RANK);
    assert s[i] in PlayoffRowsIn(m) && s[j] in PlayoffRowsIn(m);
    PlayoffOrderReads(s[i], s[j]);
  }

  /** Every pair of rows of every owner table stands in the order its heading promises. */
  lemma {:induction false} TablesInOrder(seasons: seq<SeasonInput>, page: PageData, i: nat, j: nat)
    requires PageFor(seasons, page) && i < j
    ensures j < |page.ownerTotals| ==> OwnerAbove(page.ownerTotals[i], page.ownerTotals[j])
    ensures j < |page.regularSeasonOwnerTotals| ==> RegularAbove(page.regularSeasonOwnerTotals[i], page.regularSeasonOwnerTotals[j])
    ensures j < |page.playoffOwnerTotals| ==> PlayoffAbove(page.playoffOwnerTotals[i], page.playoffOwnerTotals[j])
  {
    var om: OwnerTable, pm: PlayoffTable :| TablesFor(seasons, om, pm) && TablesOf(om, pm, page);
    OwnerTableReads(om, page.ownerTotals, page.regularSeasonOwnerTotals, i, j);
    if j < |page.playoffOwnerTotals| { PlayoffTableReads(pm, page.playoffOwnerTotals, i, j); }
  }

  // ---- the figures of a row ----

  /** The percentage counts a tie as half a win; it is zero without games. */
  predicate IsWinPct(pct: real, wins: int, losses: int, ties: int) {
    if wins + losses + ties == 0 then pct == 0.0
    else pct * (wins + losses + ties) as real == wins as real + ties as real / 2.0
  }

  /** `q` times `d` is `n`; zero when there is nothing to divide by. */
  predicate IsQuotient(q: real, n: real, d: int) {
    if d == 0 then q == 0.0 else q * d as real == n
  }

  lemma {:induction false} FiguresAre(wins: int, losses: int, ties: int, points: int, count: int)
    ensures IsWinPct(WinPct(wins, losses, ties), wins, losses, ties)
    ensures IsQuotient(Average(points, count), points as real / 100.0, count)
    ensures IsQuotient(Ratio(points, count), points as real, count)
  {
  }

  /** The figures of an owner's row are the sums over the seasons, as given, of what each adds
      under the row's name. */
  ghost predicate OwnerFigures(seasons: seq<SeasonInput>, aliases: Aliases, row: OwnerRow) {
    var t, k := row.total, row.total.owner;
    && t.seasons == SumOf(seasons, AddedOf(aliases, k, Seasons))
    && t.wins == SumOf(seasons, AddedOf(aliases, k, Wins)) && t.losses == SumOf(seasons, AddedOf(aliases, k, Losses))
    && t.ties == SumOf(seasons, AddedOf(aliases, k, Ties)) && t.pointsFor == SumOf(seasons, AddedOf(aliases, k, PointsFor))
    && t.pointsAgainst == SumOf(seasons, AddedOf(aliases, k, PointsAgainst))
    && t.titles == SumOf(seasons, AddedOf(aliases, k, Titles)) && t.playoffAppearances == SumOf(seasons, AddedOf(aliases, k, Trips))
    && IsWinPct(row.winPct, t.wins, t.losses, t.ties)
    && IsQuotient(row.averagePointsFor, t.pointsFor as real / 100.0, t.seasons)
  }

  lemma {:induction false} RankedRow(om: OwnerTable, table: seq<OwnerRow>, less: (OwnerRow, OwnerRow) -> bool, i: nat) returns (k: string)
    requires IsRanking(table, OwnerRowsIn(om), less, OWNER_RANK) && i < |table|
    ensures k in om && table[i] == OwnerRowOf(om[k]).(rank := i + 1)
  {
    var s :| Lists(s, OwnerRowsIn(om)) && Sorted(s, less) && table == Numbered(s, OWNER_RANK);
    assert s[i] in OwnerRowsIn(om);
    k :| k in om && s[i] == OwnerRowOf(om[k]);
  }

  lemma {:induction false} RankedFigures(seasons: seq<SeasonInput>, aliases: Aliases, om: OwnerTable, pm: PlayoffTable,
                                         table: seq<OwnerRow>, less: (OwnerRow, OwnerRow) -> bool, i: nat)
    requires TablesFor(CanonicalSeasons(seasons, aliases), om, pm)
    requires IsRanking(table, OwnerRowsIn(om), less, OWNER_RANK) && i < |table|
    ensures table[i].rank == i + 1 && OwnerFigures(seasons, aliases, table[i])
  {
    var k := RankedRow(om, table, less, i);
    assert om[k].owner == k;
    OwnerTableMeans(seasons, aliases, om, pm, k);
    FiguresAre(om[k].wins, om[k].losses, om[k].ties, om[k].pointsFor, om[k].seasons);
  }

  /** Every row of either owner table has its place as rank and true figures. */
  lemma {:induction false} OwnerRowMeans(seasons: seq<SeasonInput>, aliases: Aliases, page: PageData, i: nat)
    requires PageFor(CanonicalSeasons(seasons, aliases), page)
    ensures i < |page.ownerTotals| ==> page.ownerTotals[i].rank == i + 1 && OwnerFigures(seasons, aliases, page.ownerTotals[i])
    ensures i < |page.regularSeasonOwnerTotals| ==>
      page.regularSeasonOwnerTotals[i].rank == i + 1 && OwnerFigures(seasons, aliases, page.regularSeasonOwnerTotals[i])
  {
    var om: OwnerTable, pm: PlayoffTable :| TablesFor(CanonicalSeasons(seasons, aliases), om, pm) && TablesOf(om, pm, page);
    if i < |page.ownerTotals| { RankedFigures(seasons, aliases, om, pm, page.ownerTotals, OWNER_ORDER, i); }
    if i < |page.regularSeasonOwnerTotals| { RankedFigures(seasons, aliases, om, pm, page.regularSeasonOwnerTotals, REGULAR_ORDER, i); }
  }

  /** Every row of the playoff table likewise. */
  lemma {:induction false} PlayoffRowMeans(seasons: seq<SeasonInput>, aliases: Aliases, page: PageData, i: nat)
    requires PageFor(CanonicalSeasons(seasons, aliases), page) && i < |page.playoffOwnerTotals|
    ensures var row := page.playoffOwnerTotals[i];
      var t, k := row.total, row.total.owner;
      && row.rank == i + 1
      && t.wins == SumOf(seasons, AddedOf(aliases, k, PlayoffWins)) && t.losses == SumOf(seasons, AddedOf(aliases, k, PlayoffLosses))
      && t.titles == SumOf(seasons, AddedOf(aliases, k, Titles)) && t.appearances == SumOf(seasons, AddedOf(aliases, k, Trips))
      && t.finalsAppearances == SumOf(seasons, AddedOf(aliases, k, Finals))
      && IsWinPct(row.winPct, t.wins, t.losses, 0)
      && IsQuotient(row.titleConversion, t.titles as real, t.finalsAppearances)
  {
    var om: OwnerTable, pm: PlayoffTable :| TablesFor(CanonicalSeasons(seasons, aliases), om, pm) && TablesOf(om, pm, page);
    var s :| Lists(s, PlayoffRowsIn(pm)) && Sorted(s, PLAYOFF_ORDER) && page.playoffOwnerTotals == Numbered(s, PLAYOFF_RANK);
    assert s[i] in PlayoffRowsIn(pm);
    var k :| k in pm && s[i] == PlayoffRowOf(pm[k]);
    PlayoffTableMeans(seasons, aliases, om, pm, k);
    FiguresAre(pm[k].wins, pm[k].losses, 0, pm[k].titles, pm[k].finalsAppearances);
  }

  // ---- leaders ----

  /** `leader` has the greatest `first`, among those the greatest `second`, and among those the
      highest rank, of the rows that count; there is none exactly when no row counts. */
  ghost predicate Leads<T(!new)>(rows: seq<T>, counts: T -> bool, first: T -> real, second: T -> real, leader: Option<T>) {
    match leader
    case None => forall i :: 0 <= i < |rows| ==> !counts(rows[i])
    case Some(v) => exists i :: 0 <= i < |rows| && rows[i] == v && counts(v) && TopAt(rows, counts, first, second, i)
  }

  ghost predicate TopAt<T(!new)>(rows: seq<T>, counts: T -> bool, first: T -> real, second: T -> real, i: int)
    requires 0 <= i < |rows|
  {
    forall j :: 0 <= j < |rows| && counts(rows[j]) ==>
      || first(rows[j]) < first(rows[i])
      || (first(rows[j]) == first(rows[i]) && (second(rows[j]) < second(rows[i]) || (second(rows[j]) == second(rows[i]) && i <= j)))
  }

  lemma {:induction false} LeaderReads<T(!new)>(rows: seq<T>, counts: T -> bool, beats: (T, T) -> bool, first: T -> real, second: T -> real, leader: Option<T>)
    requires IsLeader(rows, counts, beats, leader)
    requires forall a, b :: beats(a, b) <==> first(a) > first(b) || (first(a) == first(b) && second(a) > second(b))
    ensures Leads(rows, counts, first, second, leader)
  {
    if leader.Some? {
      var i :| LeadsAt(rows, counts, beats, i) && rows[i] == leader.value;
      assert TopAt(rows, counts, first, second, i);
    }
  }

  // one card each

  lemma {:induction false} TripsCard(t: seq<OwnerRow>, leader: Option<OwnerRow>)
    requires IsLeader(t, ANY_OWNER, MOST_TRIPS, leader)
    ensures Leads(t, (r: OwnerRow) => true, (r: OwnerRow) => r.total.playoffAppearances as real, (r: OwnerRow) => r.total.wins as real, leader)
  {
    LeaderReads(t, (r: OwnerRow) => true, MOST_TRIPS, (r: OwnerRow) => r.total.playoffAppearances as real, (r: OwnerRow) => r.total.wins as real, leader);
  }

  lemma {:induction false} PointsForCard(t: seq<OwnerRow>, leader: Option<OwnerRow>)
    requires IsLeader(t, ANY_OWNER, MOST_POINTS_FOR, leader)
    ensures Leads(t, (r: OwnerRow) => true, (r: OwnerRow) => r.total.pointsFor as real, (r: OwnerRow) => r.winPct, leader)
  {
    LeaderReads(t, (r: OwnerRow) => true, MOST_POINTS_FOR, (r: OwnerRow) => r.total.pointsFor as real, (r: OwnerRow) => r.winPct, leader);
  }

  lemma {:induction false} AverageCard(t: seq<OwnerRow>, leader: Option<OwnerRow>)
    requires IsLeader(t, PLAYED_SEASONS, BEST_AVERAGE, leader)
    ensures Leads(t, (r: OwnerRow) => r.total.seasons != 0, (r: OwnerRow) => r.averagePointsFor, (r: OwnerRow) => r.total.seasons as real, leader)
  {
    LeaderReads(t, (r: OwnerRow) => r.total.seasons != 0, BEST_AVERAGE, (r: OwnerRow) => r.averagePointsFor, (r: OwnerRow) => r.total.seasons as real, leader);
  }

  lemma {:induction false} PointsAgainstCard(t: seq<OwnerRow>, leader: Option<OwnerRow>)
    requires IsLeader(t, ANY_OWNER, MOST_POINTS_AGAINST, leader)
    ensures Leads(t, (r: OwnerRow) => true, (r: OwnerRow) => r.total.pointsAgainst as real, (r: OwnerRow) => -(r.total.wins as real), leader)
  {
    LeaderReads(t, (r: OwnerRow) => true, MOST_POINTS_AGAINST, (r: OwnerRow) => r.total.pointsAgainst as real, (r: OwnerRow) => -(r.total.wins as real), leader);
  }

  lemma {:induction false} TitlesCard(t: seq<OwnerRow>, leader: Option<OwnerRow>)
    requires IsLeader(t, ANY_OWNER, MOST_TITLES, leader)
    ensures Leads(t, (r: OwnerRow) => true, (r: OwnerRow) => r.total.titles as real, (r: OwnerRow) => r.total.wins as real, leader)
  {
    LeaderReads(t, (r: OwnerRow) => true, MOST_TITLES, (r: OwnerRow) => r.total.titles as real, (r: OwnerRow) => r.total.wins as real, leader);
  }

  lemma {:induction false} PlayoffWinsCard(t: seq<PlayoffRow>, leader: Option<PlayoffRow>)
    requires IsLeader(t, ANY_PLAYOFF_OWNER, MOST_PLAYOFF_WINS, leader)
    ensures Leads(t, (r: PlayoffRow) => true, (r: PlayoffRow) => r.total.wins as real, (r: PlayoffRow) => r.total.titles as real, leader)
  {
    LeaderReads(t, (r: PlayoffRow) => true, MOST_PLAYOFF_WINS, (r: PlayoffRow) => r.total.wins as real, (r: PlayoffRow) => r.total.titles as real, leader);
  }

  lemma {:induction false} PlayoffTitlesCard(t: seq<PlayoffRow>, leader: Option<PlayoffRow>)
    requires IsLeader(t, ANY_PLAYOFF_OWNER, MOST_PLAYOFF_TITLES, leader)
    ensures Leads(t, (r: PlayoffRow) => true, (r: PlayoffRow) => r.total.titles as real, (r: PlayoffRow) => r.total.wins as real, leader)
  {
    LeaderReads(t, (r: PlayoffRow) => true, MOST_PLAYOFF_TITLES, (r: PlayoffRow) => r.total.titles as real, (r: PlayoffRow) => r.total.wins as real, leader);
  }

  lemma {:induction false} FinalsCard(t: seq<PlayoffRow>, leader: Option<PlayoffRow>)
    requires IsLeader(t, ANY_PLAYOFF_OWNER, MOST_FINALS, leader)
    ensures Leads(t, (r: PlayoffRow) => true, (r: PlayoffRow) => r.total.finalsAppearances as real, (r: PlayoffRow) => r.total.titles as real, leader)
  {
    LeaderReads(t, (r: PlayoffRow) => true, MOST_FINALS, (r: PlayoffRow) => r.total.finalsAppearances as real, (r: PlayoffRow) => r.total.titles as real, leader);
  }

  lemma {:induction false} ConversionCard(t: seq<PlayoffRow>, leader: Option<PlayoffRow>)
    requires IsLeader(t, REACHED_FINALS, BEST_CONVERSION, leader)
    ensures Leads(t, (r: PlayoffRow) => r.total.finalsAppearances != 0, (r: PlayoffRow) => r.titleConversion, (r: PlayoffRow) => r.total.titles as real, leader)
  {
    LeaderReads(t, (r: PlayoffRow) => r.total.finalsAppearances != 0, BEST_CONVERSION, (r: PlayoffRow) => r.titleConversion, (r: PlayoffRow) => r.total.titles as real, leader);
  }

  /** Whom each card of the overview names. */
  lemma {:induction false} OverviewNames(seasons: seq<SeasonInput>, page: PageData)
    requires PageFor(seasons, page)
    ensures var t, o := page.ownerTotals, page.overview;
      && o.mostWins == (if t == [] then None else Some(t[0])) && (forall r :: r in t ==> r.total.wins <= t[0].total.wins)
      && Leads(t, (r: OwnerRow) => true, (r: OwnerRow) => r.total.playoffAppearances as real, (r: OwnerRow) => r.total.wins as real, o.mostPlayoffTrips)
      && Leads(t, (r: OwnerRow) => true, (r: OwnerRow) => r.total.pointsFor as real, (r: OwnerRow) => r.winPct, o.mostPointsFor)
      && Leads(t, (r: OwnerRow) => r.total.seasons != 0, (r: OwnerRow) => r.averagePointsFor, (r: OwnerRow) => r.total.seasons as real, o.bestAverage)
      && Leads(t, (r: OwnerRow) => true, (r: OwnerRow) => r.total.pointsAgainst as real, (r: OwnerRow) => -(r.total.wins as real), o.mostPointsAgainst)
      && Leads(t, (r: OwnerRow) => true, (r: OwnerRow) => r.total.titles as real, (r: OwnerRow) => r.total.wins as real, o.mostTitles)
  {
    var t, o := page.ownerTotals, page.overview;
    TripsCard(t, o.mostPlayoffTrips);
    PointsForCard(t, o.mostPointsFor);
    AverageCard(t, o.bestAverage);
    PointsAgainstCard(t, o.mostPointsAgainst);
    TitlesCard(t, o.mostTitles);
    forall r | r in t ensures r.total.wins <= t[0].total.wins {
      var j :| 0 <= j < |t| && t[j] == r;
      if j > 0 { TablesInOrder(seasons, page, 0, j); }
    }
  }

  /** Whom each card of the playoff overview names. */
  lemma {:induction false} PlayoffOverviewNames(seasons: seq<SeasonInput>, page: PageData)
    requires PageFor(seasons, page)
    ensures var t, o := page.playoffOwnerTotals, page.playoffOverview;
      && Leads(t, (r: PlayoffRow) => true, (r: PlayoffRow) => r.total.wins as real, (r: PlayoffRow) => r.total.titles as real, o.mostWins)
      && Leads(t, (r: PlayoffRow) => true, (r: PlayoffRow) => r.total.titles as real, (r: PlayoffRow) => r.total.wins as real, o.mostTitles)
      && Leads(t, (r: PlayoffRow) => true, (r: PlayoffRow) => r.total.finalsAppearances as real, (r: PlayoffRow) => r.total.titles as real, o.mostFinals)
      && Leads(t, (r: PlayoffRow) => r.total.finalsAppearances != 0, (r: PlayoffRow) => r.titleConversion, (r: PlayoffRow) => r.total.titles as real, o.bestConversion)
  {
    var t, o := page.playoffOwnerTotals, page.playoffOverview;
    PlayoffWinsCard(t, o.mostWins);
    PlayoffTitlesCard(t, o.mostTitles);
    FinalsCard(t, o.mostFinals);
    ConversionCard(t, o.bestConversion);
  }

  // ---- who is listed ----

  /** A name stands in the owner table once if some season, as given, shows it, and otherwise not. */
  lemma {:induction false} OwnersListed(seasons: seq<SeasonInput>, aliases: Aliases, page: PageData, k: string)
    requires PageFor(CanonicalSeasons(seasons, aliases), page)
    ensures (exists r :: r in page.ownerTotals && r.total.owner == k) <==> exists s :: s in seasons && Shows(s, aliases, k)
    ensures page.ownerCount == |page.ownerTotals|
    ensures forall i, j :: 0 <= i < j < |page.ownerTotals| ==> page.ownerTotals[i].total.owner != page.ownerTotals[j].total.owner
  {
    var om: OwnerTable, pm: PlayoffTable :| TablesFor(CanonicalSeasons(seasons, aliases), om, pm) && TablesOf(om, pm, page);
    OwnerEntryExactly(seasons, aliases, om, pm, k);
    var s :| Lists(s, OwnerRowsIn(om)) && Sorted(s, OWNER_ORDER) && page.ownerTotals == Numbered(s, OWNER_RANK);
    TableHolds(om, s, page.ownerTotals, k);
    NamesDiffer(om, s, page.ownerTotals);
  }

  lemma {:induction false} NamesDiffer(om: OwnerTable, s: seq<OwnerRow>, table: seq<OwnerRow>)
    requires GoodOwners(om) && Lists(s, OwnerRowsIn(om)) && table == Numbered(s, OWNER_RANK)
    ensures forall i, j :: 0 <= i < j < |table| ==> table[i].total.owner != table[j].total.owner
  {
    forall i: nat, j: nat | i < j < |table| ensures table[i].total.owner != table[j].total.owner { OwnersDiffer(om, s, i, j); }
  }

  lemma {:induction false} TableHolds(om: OwnerTable, s: seq<OwnerRow>, table: seq<OwnerRow>, k: string)
    requires GoodOwners(om) && Lists(s, OwnerRowsIn(om)) && table == Numbered(s, OWNER_RANK)
    ensures (exists r :: r in table && r.total.owner == k) <==> k in om
  {
    if k in om {
      assert OwnerRowOf(om[k]) in s;
      var i :| 0 <= i < |s| && s[i] == OwnerRowOf(om[k]);
      assert table[i] in table && table[i].total.owner == k;
    }
    if r :| r in table && r.total.owner == k {
      var i :| 0 <= i < |table| && table[i] == r;
      assert s[i] in OwnerRowsIn(om);
    }
  }

  // ---- champions ----

  /** The season's championship was won by a named owner, and the record says so. */
  ghost predicate IsChampionOf(season: SeasonInput, c: ChampionRecord) {
    && c.year == season.year && c.owner != ""
    && exists i :: IsTitleGame(season.matchups, i) && var m := season.matchups[i];
       || (HomeWon(m) && c.owner == m.homeOwner && c.teamName == m.homeTeamName && c.opponent == m.awayTeamName
           && c.winningScore == m.homeScore && c.losingScore == m.awayScore)
       || (AwayWon(m) && c.owner == m.awayOwner && c.teamName == m.awayTeamName && c.opponent == m.homeTeamName
           && c.winningScore == m.awayScore && c.losingScore == m.homeScore)
  }

  lemma {:induction false} TitleGameIs(ms: seq<MatchupInput>, i: int)
    ensures IsTitleGame(ms, i) <==> i >= 0 && ChampionshipIndex(ms) == Some(i)
  {
    var r := ChampionshipIndex(ms);
    assert forall j :: 0 <= j < |ms| ==> (ChampionshipCandidate(ms[j]) <==> ms[j].homePresent && ms[j].awayPresent && ms[j].isChampionship);
    if IsTitleGame(ms, i) {
      assert ms[i].week <= ms[r.value].week;
      assert i == r.value;
    }
  }

  lemma {:induction false} WinnersAre(m: MatchupInput)
    ensures ResultWinner(m) == WinnerHome <==> HomeWon(m)
    ensures ResultWinner(m) == WinnerAway <==> AwayWon(m)
  {
  }

  lemma {:induction false} RecordsChampion(season: SeasonInput, c: ChampionRecord)
    ensures c in TitleRecords(season) <==> IsChampionOf(season, c)
    ensures |TitleRecords(season)| <= 1
  {
    var ms := season.matchups;
    forall i ensures IsTitleGame(ms, i) <==> i >= 0 && ChampionshipIndex(ms) == Some(i) { TitleGameIs(ms, i); }
    if ChampionshipIndex(ms).Some? {
      var k := ChampionshipIndex(ms).value;
      WinnersAre(ms[k]);
      assert IsTitleGame(ms, k);
    }
  }

  lemma {:induction false} CollectHas<T>(seasons: seq<SeasonInput>, part: SeasonInput -> seq<T>, x: T)
    ensures x in Collect(seasons, part) <==> exists s :: s in seasons && x in part(s)
    decreases |seasons|
  {
    if seasons != [] {
      var n := |seasons| - 1;
      CollectHas(seasons[..n], part, x);
      assert seasons == seasons[..n] + [seasons[n]];
    }
  }

  /** The list of champions has the champion of every season whose championship a named owner won,
      with the winner's and the loser's side in their places, and nobody else; the latest year first. */
  lemma {:induction false} ChampionsAre(seasons: seq<SeasonInput>, page: PageData, c: ChampionRecord)
    requires PageFor(seasons, page)
    ensures c in page.champions <==> exists s :: s in seasons && IsChampionOf(s, c)
    ensures forall i, j :: 0 <= i < j < |page.champions| ==> page.champions[i].year >= page.champions[j].year
  {
    CollectHas(seasons, (s: SeasonInput) => TitleRecords(s), c);
    forall s ensures c in TitleRecords(s) <==> IsChampionOf(s, c) { RecordsChampion(s, c); }
    SameMembers(page.champions, AllTitleRecords(seasons));
    forall i, j | 0 <= i < j < |page.champions| ensures page.champions[i].year >= page.champions[j].year {
      assert !YEAR_ORDER(page.champions[j], page.champions[i]);
    }
  }

  // ---- the best seasons ----

  /** The record of one team in one season. */
  ghost predicate IsSeasonOf(season: SeasonInput, r: SeasonRecord) {
    exists t :: t in season.teams
      && r.year == season.year && r.owner == (if t.owner == "" then "Unknown" else t.owner)
      && r.wins == t.wins && r.losses == t.losses && r.ties == t.ties && r.finalStanding == t.finalStanding
      && r.pointsFor == t.pointsFor && r.pointsAgainst == t.pointsAgainst
  }

  lemma {:induction false} RecordsSeason(season: SeasonInput, r: SeasonRecord)
    ensures r in SeasonRecords(season.teams, season.year) <==> IsSeasonOf(season, r)
  {
    var all := SeasonRecords(season.teams, season.year);
    if r in all {
      var i :| 0 <= i < |all| && all[i] == r;
      assert season.teams[i] in season.teams;
    }
    if IsSeasonOf(season, r) {
      var i :| 0 <= i < |season.teams| && SeasonRecordOf(season.teams[i], season.year) == r;
      assert all[i] == r;
    }
  }

  /** Of two seasons the better one: winning percentage, then wins, points, final standing, and the later year. */
  predicate BetterSeason(a: SeasonRow, b: SeasonRow) {
    || a.winPct > b.winPct
    || (a.winPct == b.winPct &&
        (|| a.record.wins > b.record.wins
         || (a.record.wins == b.record.wins &&
             (|| a.record.pointsFor > b.record.pointsFor
              || (a.record.pointsFor == b.record.pointsFor &&
                  (|| a.record.finalStanding < b.record.finalStanding
                   || (a.record.finalStanding == b.record.finalStanding && a.record.year > b.record.year)))))))
  }

  lemma {:induction false} SeasonOrderReads(a: SeasonRow, b: SeasonRow)
    ensures SEASON_ORDER(a, b) <==> BetterSeason(a, b)
  {
  }

  lemma {:induction false} SortedRowIsSeason(seasons: seq<SeasonInput>, sorted: seq<SeasonRow>, i: nat)
    requires i < |sorted| && forall x :: x in sorted <==> x in SeasonRowsOf(AllSeasonRecords(seasons))
    ensures sorted[i] == SeasonRowOf(sorted[i].record) && exists s :: s in seasons && IsSeasonOf(s, sorted[i].record)
  {
    var records := AllSeasonRecords(seasons);
    assert sorted[i] in SeasonRowsOf(records);
    var k :| 0 <= k < |records| && sorted[i] == SeasonRowOf(records[k]);
    CollectHas(seasons, (s: SeasonInput) => SeasonRecords(s.teams, s.year), records[k]);
    var s :| s in seasons && records[k] in SeasonRecords(s.teams, s.year);
    RecordsSeason(s, records[k]);
  }

  lemma {:induction false} BetterIsListed(seasons: seq<SeasonInput>, sorted: seq<SeasonRow>, s: SeasonInput, r: SeasonRecord, i: nat)
    requires Sorted(sorted, SEASON_ORDER) && forall x :: x in sorted <==> x in SeasonRowsOf(AllSeasonRecords(seasons))
    requires s in seasons && IsSeasonOf(s, r) && i < |sorted| && BetterSeason(SeasonRowOf(r), sorted[i])
    ensures exists j :: 0 <= j < i && sorted[j] == SeasonRowOf(r)
  {
    RecordsSeason(s, r);
    CollectHas(seasons, (s: SeasonInput) => SeasonRecords(s.teams, s.year), r);
    var k :| 0 <= k < |AllSeasonRecords(seasons)| && AllSeasonRecords(seasons)[k] == r;
    assert SeasonRowsOf(AllSeasonRecords(seasons))[k] == SeasonRowOf(r);
    assert SeasonRowOf(r) in sorted;
    var j :| 0 <= j < |sorted| && sorted[j] == SeasonRowOf(r);
    SeasonOrderReads(sorted[j], sorted[i]);
  }

  /** `b` is the top of the sorted list of all seasons, numbered. */
  ghost predicate IsTop(seasons: seq<SeasonInput>, sorted: seq<SeasonRow>, b: seq<SeasonRow>) {
    && Sorted(sorted, SEASON_ORDER) && |sorted| == |AllSeasonRecords(seasons)|
    && (forall x :: x in sorted <==> x in SeasonRowsOf(AllSeasonRecords(seasons)))
    && |b| == (if |sorted| > 10 then 10 else |sorted|)
    && forall i :: 0 <= i < |b| ==> b[i] == sorted[i].(rank := i + 1)
  }

  lemma {:induction false} TopOf(seasons: seq<SeasonInput>, page: PageData) returns (sorted: seq<SeasonRow>)
    requires PageFor(seasons, page)
    ensures IsTop(seasons, sorted, page.bestRegularSeasons)
  {
    var records := AllSeasonRecords(seasons);
    sorted :| Arranges(sorted, SeasonRowsOf(records), SEASON_ORDER) && page.bestRegularSeasons == Numbered(FirstTen(sorted), SEASON_RANK);
    SameMembers(sorted, SeasonRowsOf(records));
    TopIsNumbered(sorted, page.bestRegularSeasons);
  }

  lemma {:induction false} TopIsNumbered(sorted: seq<SeasonRow>, b: seq<SeasonRow>)
    requires b == Numbered(FirstTen(sorted), SEASON_RANK)
    ensures |b| == (if |sorted| > 10 then 10 else |sorted|) && forall i :: 0 <= i < |b| ==> b[i] == sorted[i].(rank := i + 1)
  {
  }

  lemma {:induction false} BetterComesFirst(seasons: seq<SeasonInput>, sorted: seq<SeasonRow>, b: seq<SeasonRow>, s: SeasonInput, r: SeasonRecord, i: nat)
    requires IsTop(seasons, sorted, b) && i < |b| && s in seasons && IsSeasonOf(s, r) && BetterSeason(SeasonRowOf(r), b[i])
    ensures exists j :: 0 <= j < i && b[j].record == r
  {
    BetterIsListed(seasons, sorted, s, r, i);
    var j :| 0 <= j < i && sorted[j] == SeasonRowOf(r);
    assert b[j].record == r;
  }

  /** Every listed season is one team's season with its place as rank; none stands below a worse one;
      there are ten, or all if there are fewer; and no season left out is better than a listed one. */
  lemma {:induction false} BestSeasonsAre(seasons: seq<SeasonInput>, page: PageData, i: nat)
    requires PageFor(seasons, page) && i < |page.bestRegularSeasons|
    ensures var b := page.bestRegularSeasons;
      && b[i].rank == i + 1 && (exists s :: s in seasons && IsSeasonOf(s, b[i].record))
      && IsWinPct(b[i].winPct, b[i].record.wins, b[i].record.losses, b[i].record.ties)
      && (forall j :: i < j < |b| ==> !BetterSeason(b[j], b[i]))
      && |b| == (if |AllSeasonRecords(seasons)| > 10 then 10 else |AllSeasonRecords(seasons)|)
      && (forall s, r :: s in seasons && IsSeasonOf(s, r) && BetterSeason(SeasonRowOf(r), b[i]) ==> exists j :: 0 <= j < i && b[j].record == r)
  {
    var b := page.bestRegularSeasons;
    var sorted := TopOf(seasons, page);
    SortedRowIsSeason(seasons, sorted, i);
    FiguresAre(b[i].record.wins, b[i].record.losses, b[i].record.ties, 0, 0);
    forall j | i < j < |b| ensures !BetterSeason(b[j], b[i]) { SeasonOrderReads(sorted[j], sorted[i]); }
    forall s, r | s in seasons && IsSeasonOf(s, r) && BetterSeason(SeasonRowOf(r), b[i]) ensures exists j :: 0 <= j < i && b[j].record == r {
      BetterComesFirst(seasons, sorted, b, s, r, i);
    }
  }

  // ---- records ----

  /** The record shows the home side of the game, or the away side. */
  predicate ShowsHome(f: Fed, g: SingleGame) {
    && g.score == f.game.homeScore && g.owner == f.game.homeOwner && g.teamName == f.game.homeTeamName
    && g.opponent == f.game.awayTeamName && g.year == f.year && g.week == f.game.week
  }

  predicate ShowsAway(f: Fed, g: SingleGame) {
    && g.score == f.game.awayScore && g.owner == f.game.awayOwner && g.teamName == f.game.awayTeamName
    && g.opponent == f.game.homeTeamName && g.year == f.year && g.week == f.game.week
  }

  predicate ShowsSide(f: Fed, g: SingleGame) {
    ShowsHome(f, g) || ShowsAway(f, g)
  }

  /** The record shows the side that won and by how much. */
  predicate ShowsWin(f: Fed, g: SingleGame) {
    && ((HomeWon(f.game) && ShowsHome(f, g)) || (AwayWon(f.game) && ShowsAway(f, g)))
    && g.margin == Gap(f.game)
  }

  /** The points between the two sides. */
  function Gap(m: MatchupInput): int {
    if m.homeScore >= m.awayScore then m.homeScore - m.awayScore else m.awayScore - m.homeScore
  }

  predicate Decided(m: MatchupInput) {
    HomeWon(m) || AwayWon(m)
  }

  /** The book names a side with the highest score, one with the lowest, a winner by the widest margin
      and one by the narrowest, of the games shown to it. */
  ghost predicate BookShows(fed: seq<Fed>, b: Book) {
    && (b.highest.None? <==> fed == []) && (b.lowest.None? <==> fed == [])
    && (b.highest.Some? ==>
          && (exists f :: f in fed && ShowsSide(f, b.highest.value))
          && forall f :: f in fed ==> f.game.homeScore <= b.highest.value.score && f.game.awayScore <= b.highest.value.score)
    && (b.lowest.Some? ==>
          && (exists f :: f in fed && ShowsSide(f, b.lowest.value))
          && forall f :: f in fed ==> f.game.homeScore >= b.lowest.value.score && f.game.awayScore >= b.lowest.value.score)
    && (b.blowout.None? <==> forall f :: f in fed ==> !Decided(f.game)) && (b.closest.None? <==> forall f :: f in fed ==> !Decided(f.game))
    && (b.blowout.Some? ==>
          && (exists f :: f in fed && ShowsWin(f, b.blowout.value))
          && forall f :: f in fed && Decided(f.game) ==> Gap(f.game) <= b.blowout.value.margin)
    && (b.closest.Some? ==>
          && (exists f :: f in fed && ShowsWin(f, b.closest.value))
          && forall f :: f in fed && Decided(f.game) ==> Gap(f.game) >= b.closest.value.margin)
  }

  lemma {:induction false} SideOfGame(fed: seq<Fed>, g: SingleGame)
    requires g in Sides(fed)
    ensures exists f :: f in fed && ShowsSide(f, g)
    decreases |fed|
  {
    var init, last := fed[..|fed| - 1], fed[|fed| - 1];
    assert fed == init + [last];
    if g in Sides(init) {
      SideOfGame(init, g);
    } else {
      assert ShowsSide(last, g);
    }
  }

  lemma {:induction false} WinOfGame(fed: seq<Fed>, g: SingleGame)
    requires g in Records.Wins(fed)
    ensures exists f :: f in fed && ShowsWin(f, g)
    decreases |fed|
  {
    var init, last := fed[..|fed| - 1], fed[|fed| - 1];
    assert fed == init + [last];
    WinnersAre(last.game);
    if g in Records.Wins(init) {
      WinOfGame(init, g);
    } else {
      assert ShowsWin(last, g);
    }
  }

  lemma {:induction false} GameIsShown(fed: seq<Fed>, f: Fed)
    requires f in fed
    ensures HomeGame(f) in Sides(fed) && AwayGame(f) in Sides(fed)
    ensures Decided(f.game) ==> exists g :: g in Records.Wins(fed) && g.margin == Gap(f.game)
  {
    SidesOf(fed, f);
    WinnersAre(f.game);
  }

  lemma {:induction false} BookMeans(fed: seq<Fed>)
    ensures BookShows(fed, ShownAll(fed))
  {
    var b := ShownAll(fed);
    BookIsScan(fed);
    forall f | f in fed
      ensures HomeGame(f) in Sides(fed) && AwayGame(f) in Sides(fed)
      ensures Decided(f.game) ==> exists g :: g in Records.Wins(fed) && g.margin == Gap(f.game)
    {
      GameIsShown(fed, f);
    }
    if b.highest.Some? { SideOfGame(fed, b.highest.value); }
    if b.lowest.Some? { SideOfGame(fed, b.lowest.value); }
    if b.blowout.Some? { WinOfGame(fed, b.blowout.value); }
    if b.closest.Some? { WinOfGame(fed, b.closest.value); }
  }

  /** A game that both sides played in one of the seasons. */
  ghost predicate PlayedIn(seasons: seq<SeasonInput>, f: Fed) {
    exists s :: s in seasons && f.year == s.year && f.game in s.matchups && f.game.homePresent && f.game.awayPresent
  }

  ghost predicate TitleIn(seasons: seq<SeasonInput>, f: Fed) {
    exists s, i :: s in seasons && f.year == s.year && IsTitleGame(s.matchups, i) && f.game == s.matchups[i]
  }

  lemma {:induction false} PlayedGamesAre(ms: seq<MatchupInput>, year: int, f: Fed)
    ensures f in PlayedGames(ms, year) <==> f.game in ms && f.year == year && f.game.homePresent && f.game.awayPresent
    ensures f in PlayoffGames(ms, year) <==> f.game in ms && f.year == year && BracketGame(f.game)
    decreases |ms|
  {
    if ms != [] {
      var n := |ms| - 1;
      PlayedGamesAre(ms[..n], year, f);
      assert ms == ms[..n] + [ms[n]];
    }
  }

  lemma {:induction false} PlayedGamesCount(ms: seq<MatchupInput>, year: int)
    ensures |PlayedGames(ms, year)| == CountIf(ms, BOTH_PLAYED)
    decreases |ms|
  {
    if ms != [] { PlayedGamesCount(ms[..|ms| - 1], year); }
  }

  const BOTH_PLAYED := (m: MatchupInput) => m.homePresent && m.awayPresent

  lemma {:induction false} PlayedOfSeasons(seasons: seq<SeasonInput>, f: Fed)
    ensures f in AllPlayed(seasons) <==> PlayedIn(seasons, f)
  {
    CollectHas(seasons, (s: SeasonInput) => PlayedGames(s.matchups, s.year), f);
    forall s: SeasonInput
      ensures f in PlayedGames(s.matchups, s.year) <==> f.game in s.matchups && f.year == s.year && f.game.homePresent && f.game.awayPresent
    {
      PlayedGamesAre(s.matchups, s.year, f);
    }
  }

  lemma {:induction false} PlayoffGamesOfSeasons(seasons: seq<SeasonInput>, f: Fed)
    ensures f in AllPlayoffGames(seasons) <==> PlayedIn(seasons, f) && BracketGame(f.game)
  {
    CollectHas(seasons, (s: SeasonInput) => PlayoffGames(s.matchups, s.year), f);
    forall s: SeasonInput ensures f in PlayoffGames(s.matchups, s.year) <==> f.game in s.matchups && f.year == s.year && BracketGame(f.game) {
      PlayedGamesAre(s.matchups, s.year, f);
    }
  }

  lemma {:induction false} TitleGameOf(season: SeasonInput, f: Fed)
    ensures f in TitleGames(season) <==> f.year == season.year && exists i :: IsTitleGame(season.matchups, i) && f.game == season.matchups[i]
  {
    var ms := season.matchups;
    forall i ensures IsTitleGame(ms, i) <==> i >= 0 && ChampionshipIndex(ms) == Some(i) { TitleGameIs(ms, i); }
    if ChampionshipIndex(ms).Some? { assert IsTitleGame(ms, ChampionshipIndex(ms).value); }
  }

  lemma {:induction false} TitleGamesOfSeasons(seasons: seq<SeasonInput>, f: Fed)
    ensures f in AllTitleGames(seasons) <==> TitleIn(seasons, f)
  {
    CollectHas(seasons, (s: SeasonInput) => TitleGames(s), f);
    forall s: SeasonInput
      ensures f in TitleGames(s) <==> f.year == s.year && exists i :: IsTitleGame(s.matchups, i) && f.game == s.matchups[i]
    {
      TitleGameOf(s, f);
    }
  }

  /** The three record books of the page are those of all games played, of the winners-bracket games
      among them, and of the championships. */
  lemma {:induction false} RecordsAre(seasons: seq<SeasonInput>, page: PageData)
    requires PageFor(seasons, page)
    ensures BookShows(AllPlayed(seasons), page.overview.records)
    ensures BookShows(AllPlayoffGames(seasons), page.playoffOverview.records)
    ensures BookShows(AllTitleGames(seasons), page.championshipRecords)
    ensures forall f :: f in AllPlayed(seasons) <==> PlayedIn(seasons, f)
    ensures forall f :: f in AllPlayoffGames(seasons) <==> PlayedIn(seasons, f) && BracketGame(f.game)
    ensures forall f :: f in AllTitleGames(seasons) <==> TitleIn(seasons, f)
  {
    BookMeans(AllPlayed(seasons));
    BookMeans(AllPlayoffGames(seasons));
    BookMeans(AllTitleGames(seasons));
    forall f
      ensures f in AllPlayed(seasons) <==> PlayedIn(seasons, f)
      ensures f in AllPlayoffGames(seasons) <==> PlayedIn(seasons, f) && BracketGame(f.game)
      ensures f in AllTitleGames(seasons) <==> TitleIn(seasons, f)
    {
      PlayedOfSeasons(seasons, f);
      PlayoffGamesOfSeasons(seasons, f);
      TitleGamesOfSeasons(seasons, f);
    }
  }

  /** The number of games shown is the number of rows with both sides, over all seasons. */
  lemma {:induction false} GamesCounted(seasons: seq<SeasonInput>, page: PageData)
    requires PageFor(seasons, page)
    ensures page.seasonCount == |seasons|
    ensures page.matchupCount == SumOf(seasons, (s: SeasonInput) => CountIf(s.matchups, (m: MatchupInput) => m.homePresent && m.awayPresent))
  {
    PlayedCount(seasons);
    SumOfSame(seasons, seasons, (s: SeasonInput) => CountIf(s.matchups, BOTH_PLAYED),
      (s: SeasonInput) => CountIf(s.matchups, (m: MatchupInput) => m.homePresent && m.awayPresent));
  }

  lemma {:induction false} PlayedCount(seasons: seq<SeasonInput>)
    ensures |AllPlayed(seasons)| == SumOf(seasons, (s: SeasonInput) => CountIf(s.matchups, BOTH_PLAYED))
    decreases |seasons|
  {
    if seasons != [] {
      var n := |seasons| - 1;
      PlayedCount(seasons[..n]);
      PlayedGamesCount(seasons[n].matchups, seasons[n].year);
      assert AllPlayed(seasons) == AllPlayed(seasons[..n]) + PlayedGames(seasons[n].matchups, seasons[n].year);
    }
  }
}
