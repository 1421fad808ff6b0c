/** The statistics page (`BuildPageDataFromSeasons` in `internal/stats/stats.go`): the rollup's
    maps and lists as ranked tables, leaders and records, whatever order the maps are ranged over. */
module StatsPage {
  import opened Records
  import opened Results
  import opened SortedStrings
  import opened Sorting
  import opened StatsRanking
  import opened StatsRollup
  import opened Sums

  // ---- a map as rows in any order ----

  function OwnerRowsIn(m: OwnerTable): set<OwnerRow> {
    set k | k in m :: OwnerRowOf(m[k])
  }

  function PlayoffRowsIn(m: PlayoffTable): set<PlayoffRow> {
    set k | k in m :: PlayoffRowOf(m[k])
  }

  /** The list holds each row of the set once. */
  ghost predicate Lists<T(!new)>(rows: seq<T>, all: set<T>) {
    Distinct(rows) && forall r :: r in rows <==> r in all
  }

  lemma {:induction false} ListGrows<T(!new)>(rows: seq<T>, all: set<T>, more: set<T>, r: T)
    requires Lists(rows, all) && r !in all && more == all + {r}
    ensures Lists(rows + [r], more)
  {
    var longer := rows + [r];
    forall x ensures x in longer <==> x in more {
      assert x in longer <==> x in rows || x == r;
    }
  }

  lemma {:induction false} ListingsReorder<T(!new)>(rows: seq<T>, others: seq<T>, all: set<T>)
    requires Lists(rows, all) && Lists(others, all)
    ensures multiset(rows) == multiset(others)
  {
    forall x ensures multiset(rows)[x] == multiset(others)[x] {
      OncePresent(rows, x);
      OncePresent(others, x);
      assert x in multiset(rows) <==> x in rows;
      assert x in multiset(others) <==> x in others;
    }
  }

  lemma {:induction false} ArrangedListing<T(!new)>(rows: seq<T>, sorted: seq<T>, all: set<T>)
    requires Lists(rows, all) && multiset(sorted) == multiset(rows)
    ensures Lists(sorted, all)
  {
    DistinctArrangement(rows, sorted);
    forall r ensures r in sorted <==> r in all {
      assert r in multiset(sorted) <==> r in multiset(rows);
    }
  }

  method OwnerRows(m: OwnerTable) returns (rows: seq<OwnerRow>)
    requires GoodOwners(m)
    ensures Lists(rows, OwnerRowsIn(m)) && |rows| == |m|
  {
    rows := [];
    var remaining := m.Keys;
    while remaining != {}
      invariant remaining <= m.Keys
      invariant Lists(rows, set k | k in m && k !in remaining :: OwnerRowOf(m[k]))
      invariant |rows| + |remaining| == |m|
      decreases remaining
    {
      var k :| k in remaining;
      ghost var before := set j | j in m && j !in remaining :: OwnerRowOf(m[j]);
      remaining := remaining - {k};
      ghost var after := set j | j in m && j !in remaining :: OwnerRowOf(m[j]);
      forall r ensures r in after <==> r in before || r == OwnerRowOf(m[k]) {
      }
      ListGrows(rows, before, after, OwnerRowOf(m[k]));
      rows := rows + [OwnerRowOf(m[k])];
    }
    assert (set k | k in m && k !in remaining :: OwnerRowOf(m[k])) == OwnerRowsIn(m);
  }

  method PlayoffRows(m: PlayoffTable) returns (rows: seq<PlayoffRow>)
    requires GoodPlayoffs(m)
    ensures Lists(rows, PlayoffRowsIn(m)) && |rows| == |m|
  {
    rows := [];
    var remaining := m.Keys;
    while remaining != {}
      invariant remaining <= m.Keys
      invariant Lists(rows, set k | k in m && k !in remaining :: PlayoffRowOf(m[k]))
      invariant |rows| + |remaining| == |m|
      decreases remaining
    {
      var k :| k in remaining;
      ghost var before := set j | j in m && j !in remaining :: PlayoffRowOf(m[j]);
      remaining := remaining - {k};
      ghost var after := set j | j in m && j !in remaining :: PlayoffRowOf(m[j]);
      forall r ensures r in after <==> r in before || r == PlayoffRowOf(m[k]) {
      }
      ListGrows(rows, before, after, PlayoffRowOf(m[k]));
      rows := rows + [PlayoffRowOf(m[k])];
    }
    assert (set k | k in m && k !in remaining :: PlayoffRowOf(m[k])) == PlayoffRowsIn(m);
  }

  // ---- ranking ----

  /** The rows with ranks 1 to n in their order. */
  function Numbered<T>(rows: seq<T>, withRank: (T, nat) -> T): seq<T> {
    seq(|rows|, i requires 0 <= i < |rows| => withRank(rows[i], i + 1))
  }

  const OWNER_RANK := (r: OwnerRow, rank: nat) => r.(rank := rank)
  const PLAYOFF_RANK := (r: PlayoffRow, rank: nat) => r.(rank := rank)
  const SEASON_RANK := (r: SeasonRow, rank: nat) => r.(rank := rank)

  /** `table` is all rows, each once, in order and numbered. */
  ghost predicate IsRanking<T(!new)>(table: seq<T>, all: set<T>, less: (T, T) -> bool, withRank: (T, nat) -> T) {
    exists sorted :: Lists(sorted, all) && Sorted(sorted, less) && table == Numbered(sorted, withRank)
  }

  method RankRows<T(!new)>(rows: seq<T>, ghost all: set<T>, less: (T, T) -> bool, withRank: (T, nat) -> T) returns (table: seq<T>)
    requires StrictWeakOrder(less) && Lists(rows, all)
    ensures IsRanking(table, all, less, withRank) && |table| == |rows|
  {
    var sorted := SortBy(rows, less);
    ArrangedListing(rows, sorted, all);
    table := sorted;
    for i := 0 to |table|
      invariant |table| == |sorted|
      invariant forall k :: 0 <= k < i ==> table[k] == withRank(sorted[k], k + 1)
      invariant forall k :: i <= k < |table| ==> table[k] == sorted[k]
    {
      table := table[i := withRank(table[i], i + 1)];
    }
    assert table == Numbered(sorted, withRank);
    assert |multiset(sorted)| == |multiset(rows)|;
  }

  /** One table only: when the order decides between any two rows, the ranking is unique. */
  lemma {:induction false} RankingUnique<T(!new)>(table: seq<T>, other: seq<T>, all: set<T>, less: (T, T) -> bool, withRank: (T, nat) -> T)
    requires StrictWeakOrder(less) && forall a, b :: a in all && b in all && a != b ==> Decides(less, a, b)
    requires IsRanking(table, all, less, withRank) && IsRanking(other, all, less, withRank)
    ensures table == other
  {
    var r :| Lists(r, all) && Sorted(r, less) && table == Numbered(r, withRank);
    var s :| Lists(s, all) && Sorted(s, less) && other == Numbered(s, withRank);
    ListingsReorder(r, s, all);
    forall a, b | a in r && b in r && a != b ensures less(a, b) || less(b, a) {
      assert Decides(less, a, b);
    }
    ArrangementUnique(r, s, less);
  }

  lemma {:induction false} OwnerTablesUnique(m: OwnerTable, table: seq<OwnerRow>, other: seq<OwnerRow>)
    requires GoodOwners(m)
    ensures IsRanking(table, OwnerRowsIn(m), OWNER_ORDER, OWNER_RANK) && IsRanking(other, OwnerRowsIn(m), OWNER_ORDER, OWNER_RANK)
      ==> table == other
    ensures IsRanking(table, OwnerRowsIn(m), REGULAR_ORDER, OWNER_RANK) && IsRanking(other, OwnerRowsIn(m), REGULAR_ORDER, OWNER_RANK)
      ==> table == other
  {
    OrdersAreOrders();
    forall a, b | a in OwnerRowsIn(m) && b in OwnerRowsIn(m) && a != b
      ensures Decides(OWNER_ORDER, a, b) && Decides(REGULAR_ORDER, a, b)
    {
      OwnersDecide(a, b);
    }
    if IsRanking(table, OwnerRowsIn(m), OWNER_ORDER, OWNER_RANK) && IsRanking(other, OwnerRowsIn(m), OWNER_ORDER, OWNER_RANK) {
      RankingUnique(table, other, OwnerRowsIn(m), OWNER_ORDER, OWNER_RANK);
    }
    if IsRanking(table, OwnerRowsIn(m), REGULAR_ORDER, OWNER_RANK) && IsRanking(other, OwnerRowsIn(m), REGULAR_ORDER, OWNER_RANK) {
      RankingUnique(table, other, OwnerRowsIn(m), REGULAR_ORDER, OWNER_RANK);
    }
  }

  lemma {:induction false} PlayoffTablesUnique(m: PlayoffTable, table: seq<PlayoffRow>, other: seq<PlayoffRow>)
    requires GoodPlayoffs(m)
    requires IsRanking(table, PlayoffRowsIn(m), PLAYOFF_ORDER, PLAYOFF_RANK) && IsRanking(other, PlayoffRowsIn(m), PLAYOFF_ORDER, PLAYOFF_RANK)
    ensures table == other
  {
    OrdersAreOrders();
    forall a, b | a in PlayoffRowsIn(m) && b in PlayoffRowsIn(m) && a != b ensures Decides(PLAYOFF_ORDER, a, b) {
      PlayoffOwnersDecide(a, b);
    }
    RankingUnique(table, other, PlayoffRowsIn(m), PLAYOFF_ORDER, PLAYOFF_RANK);
  }

  // ---- leaders ----

  ghost predicate LeadsAt<T>(rows: seq<T>, counts: T -> bool, beats: (T, T) -> bool, i: int) {
    && 0 <= i < |rows| && counts(rows[i])
    && (forall j :: 0 <= j < |rows| && counts(rows[j]) ==> !beats(rows[j], rows[i]))
    && (forall j :: 0 <= j < i && counts(rows[j]) ==> beats(rows[i], rows[j]))
  }

  /** The first of the rows considered that none of them beats; none when none is considered. */
  ghost predicate IsLeader<T>(rows: seq<T>, counts: T -> bool, beats: (T, T) -> bool, r: Option<T>) {
    match r
    case None => forall i :: 0 <= i < |rows| ==> !counts(rows[i])
    case Some(v) => exists i :: LeadsAt(rows, counts, beats, i) && rows[i] == v
  }

  method FindLeader<T(!new)>(rows: seq<T>, counts: T -> bool, beats: (T, T) -> bool) returns (leader: Option<T>)
    requires StrictWeakOrder(beats)
    ensures IsLeader(rows, counts, beats, leader)
  {
    leader := None;
    ghost var at := 0;
    for i := 0 to |rows|
      invariant leader.None? ==> forall j :: 0 <= j < i ==> !counts(rows[j])
      invariant leader.Some? ==> at < i && rows[at] == leader.value && LeadsAt(rows[..i], counts, beats, at)
    {
      if counts(rows[i]) && (leader.None? || beats(rows[i], leader.value)) {
        LeaderChanges(rows, counts, beats, i, leader, at);
        leader, at := Some(rows[i]), i;
      } else if leader.Some? {
        assert rows[..i + 1][..i] == rows[..i];
        assert forall j :: 0 <= j < i ==> rows[..i][j] == rows[j];
        assert LeadsAt(rows[..i + 1], counts, beats, at);
      }
    }
    assert rows[..|rows|] == rows;
  }

  lemma {:induction false} LeaderChanges<T(!new)>(rows: seq<T>, counts: T -> bool, beats: (T, T) -> bool, i: nat, leader: Option<T>, at: nat)
    requires StrictWeakOrder(beats) && i < |rows| && counts(rows[i])
    requires leader.None? ==> forall j :: 0 <= j < i ==> !counts(rows[j])
    requires leader.Some? ==> at < i && rows[at] == leader.value && LeadsAt(rows[..i], counts, beats, at) && beats(rows[i], leader.value)
    ensures LeadsAt(rows[..i + 1], counts, beats, i)
  {
    forall j | 0 <= j < i && counts(rows[j]) ensures beats(rows[i], rows[j]) && !beats(rows[j], rows[i]) {
      assert rows[..i][j] == rows[j];
      assert !beats(rows[j], rows[at]);
    }
  }

  lemma {:induction false} LeaderUnique<T>(rows: seq<T>, counts: T -> bool, beats: (T, T) -> bool, r: Option<T>, q: Option<T>)
    requires IsLeader(rows, counts, beats, r) && IsLeader(rows, counts, beats, q)
    ensures r == q
  {
    if r.Some? && q.Some? {
      var i :| LeadsAt(rows, counts, beats, i) && rows[i] == r.value;
      var j :| LeadsAt(rows, counts, beats, j) && rows[j] == q.value;
      assert !(i < j) && !(j < i);
    }
  }

  datatype Overview = Overview(
    records: Book,
    mostWins: Option<OwnerRow>,
    mostPlayoffTrips: Option<OwnerRow>,
    mostPointsFor: Option<OwnerRow>,
    bestAverage: Option<OwnerRow>,
    mostPointsAgainst: Option<OwnerRow>,
    mostTitles: Option<OwnerRow>)

  datatype PlayoffOverview = PlayoffOverview(
    records: Book,
    mostWins: Option<PlayoffRow>,
    mostTitles: Option<PlayoffRow>,
    mostFinals: Option<PlayoffRow>,
    bestConversion: Option<PlayoffRow>)

  const ANY_OWNER := (r: OwnerRow) => true
  const PLAYED_SEASONS := (r: OwnerRow) => r.total.seasons != 0
  const ANY_PLAYOFF_OWNER := (r: PlayoffRow) => true
  const REACHED_FINALS := (r: PlayoffRow) => r.total.finalsAppearances != 0

  const MOST_TRIPS: (OwnerRow, OwnerRow) -> bool :=
    Descending((r: OwnerRow) => r.total.playoffAppearances as real, Descending((r: OwnerRow) => r.total.wins as real, Undecided()))
  const MOST_POINTS_FOR: (OwnerRow, OwnerRow) -> bool :=
    Descending((r: OwnerRow) => r.total.pointsFor as real, Descending((r: OwnerRow) => r.winPct, Undecided()))
  const BEST_AVERAGE: (OwnerRow, OwnerRow) -> bool :=
    Descending((r: OwnerRow) => r.averagePointsFor, Descending((r: OwnerRow) => r.total.seasons as real, Undecided()))
  const MOST_POINTS_AGAINST: (OwnerRow, OwnerRow) -> bool :=
    Descending((r: OwnerRow) => r.total.pointsAgainst as real, Descending((r: OwnerRow) => -(r.total.wins as real), Undecided()))
  const MOST_TITLES: (OwnerRow, OwnerRow) -> bool :=
    Descending((r: OwnerRow) => r.total.titles as real, Descending((r: OwnerRow) => r.total.wins as real, Undecided()))
  const MOST_PLAYOFF_WINS: (PlayoffRow, PlayoffRow) -> bool :=
    Descending((r: PlayoffRow) => r.total.wins as real, Descending((r: PlayoffRow) => r.total.titles as real, Undecided()))
  const MOST_PLAYOFF_TITLES: (PlayoffRow, PlayoffRow) -> bool :=
    Descending((r: PlayoffRow) => r.total.titles as real, Descending((r: PlayoffRow) => r.total.wins as real, Undecided()))
  const MOST_FINALS: (PlayoffRow, PlayoffRow) -> bool :=
    Descending((r: PlayoffRow) => r.total.finalsAppearances as real, Descending((r: PlayoffRow) => r.total.titles as real, Undecided()))
  const BEST_CONVERSION: (PlayoffRow, PlayoffRow) -> bool :=
    Descending((r: PlayoffRow) => r.titleConversion, Descending((r: PlayoffRow) => r.total.titles as real, Undecided()))

  lemma {:induction false} TwoKeysOrder<T(!new)>(first: T -> real, second: T -> real)
    ensures StrictWeakOrder(Descending(first, Descending(second, Undecided())))
  {
    DescendingIsOrder(second, Undecided());
    DescendingIsOrder(first, Descending(second, Undecided()));
  }

  /** The leaders shown on the overview, for the ranked owners. */
  ghost predicate OverviewOf(table: seq<OwnerRow>, o: Overview) {
    && o.mostWins == (if table == [] then None else Some(table[0]))
    && IsLeader(table, ANY_OWNER, MOST_TRIPS, o.mostPlayoffTrips)
    && IsLeader(table, ANY_OWNER, MOST_POINTS_FOR, o.mostPointsFor)
    && IsLeader(table, PLAYED_SEASONS, BEST_AVERAGE, o.bestAverage)
    && IsLeader(table, ANY_OWNER, MOST_POINTS_AGAINST, o.mostPointsAgainst)
    && IsLeader(table, ANY_OWNER, MOST_TITLES, o.mostTitles)
  }

  ghost predicate PlayoffOverviewOf(table: seq<PlayoffRow>, o: PlayoffOverview) {
    && IsLeader(table, ANY_PLAYOFF_OWNER, MOST_PLAYOFF_WINS, o.mostWins)
    && IsLeader(table, ANY_PLAYOFF_OWNER, MOST_PLAYOFF_TITLES, o.mostTitles)
    && IsLeader(table, ANY_PLAYOFF_OWNER, MOST_FINALS, o.mostFinals)
    && IsLeader(table, REACHED_FINALS, BEST_CONVERSION, o.bestConversion)
  }

  method BuildOverview(records: Book, table: seq<OwnerRow>) returns (o: Overview)
    ensures OverviewOf(table, o) && o.records == records
  {
    TwoKeysOrder((r: OwnerRow) => r.total.playoffAppearances as real, (r: OwnerRow) => r.total.wins as real);
    var trips := FindLeader(table, ANY_OWNER, MOST_TRIPS);
    TwoKeysOrder((r: OwnerRow) => r.total.pointsFor as real, (r: OwnerRow) => r.winPct);
    var pointsFor := FindLeader(table, ANY_OWNER, MOST_POINTS_FOR);
    TwoKeysOrder((r: OwnerRow) => r.averagePointsFor, (r: OwnerRow) => r.total.seasons as real);
    var average := FindLeader(table, PLAYED_SEASONS, BEST_AVERAGE);
    TwoKeysOrder((r: OwnerRow) => r.total.pointsAgainst as real, (r: OwnerRow) => -(r.total.wins as real));
    var pointsAgainst := FindLeader(table, ANY_OWNER, MOST_POINTS_AGAINST);
    TwoKeysOrder((r: OwnerRow) => r.total.titles as real, (r: OwnerRow) => r.total.wins as real);
    var titles := FindLeader(table, ANY_OWNER, MOST_TITLES);
    var wins := if table == [] then None else Some(table[0]);
    o := Overview(records, wins, trips, pointsFor, average, pointsAgainst, titles);
  }

  method BuildPlayoffOverview(records: Book, table: seq<PlayoffRow>) returns (o: PlayoffOverview)
    ensures PlayoffOverviewOf(table, o) && o.records == records
  {
    TwoKeysOrder((r: PlayoffRow) => r.total.wins as real, (r: PlayoffRow) => r.total.titles as real);
    var wins := FindLeader(table, ANY_PLAYOFF_OWNER, MOST_PLAYOFF_WINS);
    TwoKeysOrder((r: PlayoffRow) => r.total.titles as real, (r: PlayoffRow) => r.total.wins as real);
    var titles := FindLeader(table, ANY_PLAYOFF_OWNER, MOST_PLAYOFF_TITLES);
    TwoKeysOrder((r: PlayoffRow) => r.total.finalsAppearances as real, (r: PlayoffRow) => r.total.titles as real);
    var finals := FindLeader(table, ANY_PLAYOFF_OWNER, MOST_FINALS);
    TwoKeysOrder((r: PlayoffRow) => r.titleConversion, (r: PlayoffRow) => r.total.titles as real);
    var conversion := FindLeader(table, REACHED_FINALS, BEST_CONVERSION);
    o := PlayoffOverview(records, wins, titles, finals, conversion);
  }

  lemma {:induction false} OverviewUnique(table: seq<OwnerRow>, o: Overview, p: Overview)
    requires OverviewOf(table, o) && OverviewOf(table, p)
    ensures p == o.(records := p.records)
  {
    LeaderUnique(table, ANY_OWNER, MOST_TRIPS, o.mostPlayoffTrips, p.mostPlayoffTrips);
    LeaderUnique(table, ANY_OWNER, MOST_POINTS_FOR, o.mostPointsFor, p.mostPointsFor);
    LeaderUnique(table, PLAYED_SEASONS, BEST_AVERAGE, o.bestAverage, p.bestAverage);
    LeaderUnique(table, ANY_OWNER, MOST_POINTS_AGAINST, o.mostPointsAgainst, p.mostPointsAgainst);
    LeaderUnique(table, ANY_OWNER, MOST_TITLES, o.mostTitles, p.mostTitles);
  }

  lemma {:induction false} PlayoffOverviewUnique(table: seq<PlayoffRow>, o: PlayoffOverview, p: PlayoffOverview)
    requires PlayoffOverviewOf(table, o) && PlayoffOverviewOf(table, p)
    ensures p == o.(records := p.records)
  {
    LeaderUnique(table, ANY_PLAYOFF_OWNER, MOST_PLAYOFF_WINS, o.mostWins, p.mostWins);
    LeaderUnique(table, ANY_PLAYOFF_OWNER, MOST_PLAYOFF_TITLES, o.mostTitles, p.mostTitles);
    LeaderUnique(table, ANY_PLAYOFF_OWNER, MOST_FINALS, o.mostFinals, p.mostFinals);
    LeaderUnique(table, REACHED_FINALS, BEST_CONVERSION, o.bestConversion, p.bestConversion);
  }

  /** The owner ranked first has the most wins, which is why its card needs no scan. */
  lemma {:induction false} FirstRowHasMostWins(m: OwnerTable, table: seq<OwnerRow>, i: nat)
    requires IsRanking(table, OwnerRowsIn(m), OWNER_ORDER, OWNER_RANK) && i < |table|
    ensures table[i].rank == i + 1 && table[i].total.wins <= table[0].total.wins
  {
    var sorted :| Lists(sorted, OwnerRowsIn(m)) && Sorted(sorted, OWNER_ORDER) && table == Numbered(sorted, OWNER_RANK);
    assert i > 0 ==> !OWNER_ORDER(sorted[i], sorted[0]);
  }

  // ---- the ten best seasons ----

  function SeasonRowsOf(records: seq<SeasonRecord>): seq<SeasonRow> {
    Mapped(records, (r: SeasonRecord) => SeasonRowOf(r))
  }

  function FirstTen<T>(s: seq<T>): seq<T> {
    if |s| > 10 then s[..10] else s
  }

  ghost predicate BestSeasonsOf(records: seq<SeasonRecord>, best: seq<SeasonRow>) {
    exists sorted :: Arranges(sorted, SeasonRowsOf(records), SEASON_ORDER) && best == Numbered(FirstTen(sorted), SEASON_RANK)
  }

  method BestSeasons(records: seq<SeasonRecord>) returns (best: seq<SeasonRow>)
    ensures BestSeasonsOf(records, best)
  {
    OrdersAreOrders();
    var rows := SeasonRowsOf(records);
    var sorted := SortBy(rows, SEASON_ORDER);
    var top := if |sorted| > 10 then sorted[..10] else sorted;
    best := top;
    for i := 0 to |best|
      invariant |best| == |top|
      invariant forall k :: 0 <= k < i ==> best[k] == SEASON_RANK(top[k], k + 1)
      invariant forall k :: i <= k < |best| ==> best[k] == top[k]
    {
      best := best[i := best[i].(rank := i + 1)];
    }
    assert best == Numbered(FirstTen(sorted), SEASON_RANK);
  }

  // ---- arrangements agree up to ties ----

  lemma {:induction false} Below<T(!new)>(less: (T, T) -> bool, a: T, b: T, c: T)
    requires StrictWeakOrder(less) && !less(b, a) && less(b, c)
    ensures less(a, c)
  {
  }

  /** Two sorted arrangements of one list have, place by place, elements that compare equal. */
  lemma {:induction false} ArrangementsAgree<T(!new)>(r: seq<T>, s: seq<T>, less: (T, T) -> bool, i: nat)
    requires StrictWeakOrder(less) && multiset(r) == multiset(s) && Sorted(r, less) && Sorted(s, less)
    requires i < |r| && i < |s|
    ensures !less(r[i], s[i])
  {
    if less(r[i], s[i]) {
      var p := (e: T) => less(e, s[i]);
      forall x | x in r[..i + 1] ensures p(x) {
        var j :| 0 <= j <= i && r[j] == x;
        assert j < i ==> !less(r[i], r[j]);
        Below(less, r[j], r[i], s[i]);
      }
      forall x | x in s[i..] ensures !p(x) {
        var j :| i <= j < |s| && s[j] == x;
        assert i < j ==> !less(s[j], s[i]);
      }
      CountSplit(r, i + 1, p);
      CountSplit(s, i, p);
      CountOrderFree(r, s, p);
    }
  }
}
