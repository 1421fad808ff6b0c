/** Ranked tables (`internal/stats/stats.go`): totals taken out of Go maps in whatever
    order, sorted, numbered. The result does not depend on that order. */
module StatsRanking {
  import opened Sorting
  import opened StatsRollup
  import opened Text

  // ---- derived figures, as exact rationals ----

  function WinPct(wins: int, losses: int, ties: int): real {
    if wins + losses + ties == 0 then 0.0
    else (wins as real + ties as real * 0.5) / (wins + losses + ties) as real
  }

  function Average(points: int, count: int): real {
    if count == 0 then 0.0 else points as real / 100.0 / count as real
  }

  function Ratio(numerator: int, denominator: int): real {
    if denominator == 0 then 0.0 else numerator as real / denominator as real
  }

  datatype OwnerRow = OwnerRow(rank: nat, total: OwnerTotal, winPct: real, averagePointsFor: real)
  datatype PlayoffRow = PlayoffRow(rank: nat, total: PlayoffOwnerTotal, winPct: real, titleConversion: real)
  datatype SeasonRow = SeasonRow(rank: nat, record: SeasonRecord, winPct: real)

  function OwnerRowOf(t: OwnerTotal): OwnerRow {
    OwnerRow(0, t, WinPct(t.wins, t.losses, t.ties), Average(t.pointsFor, t.seasons))
  }

  function PlayoffRowOf(t: PlayoffOwnerTotal): PlayoffRow {
    PlayoffRow(0, t, WinPct(t.wins, t.losses, 0), Ratio(t.titles, t.finalsAppearances))
  }

  function SeasonRowOf(r: SeasonRecord): SeasonRow {
    SeasonRow(0, r, WinPct(r.wins, r.losses, r.ties))
  }

  // ---- comparison callbacks ----

  /** A callback that prefers the greater `key` and asks `next` on a tie. */
  function Descending<T>(key: T -> real, next: (T, T) -> bool): (T, T) -> bool {
    (a, b) => if key(a) != key(b) then key(a) > key(b) else next(a, b)
  }

  function Undecided<T>(): (T, T) -> bool {
    (a, b) => false
  }

  lemma {:induction false} DescendingIsOrder<T(!new)>(key: T -> real, next: (T, T) -> bool)
    requires StrictWeakOrder(next)
    ensures StrictWeakOrder(Descending(key, next))
  {
    var less := Descending(key, next);
    forall a, b, c | less(a, b) && less(b, c) ensures less(a, c) {
      assert key(a) >= key(b) >= key(c);
    }
    forall a, b, c | !less(a, b) && !less(b, c) ensures !less(a, c) {
      assert key(a) <= key(b) <= key(c);
    }
  }

  predicate Decides<T>(less: (T, T) -> bool, a: T, b: T) {
    less(a, b) || less(b, a)
  }

  const BY_OWNER := (a: OwnerRow, b: OwnerRow) => Less(a.total.owner, b.total.owner)

  const OWNER_ORDER: (OwnerRow, OwnerRow) -> bool :=
    Descending((r: OwnerRow) => r.total.wins as real,
    Descending((r: OwnerRow) => r.total.titles as real,
    Descending((r: OwnerRow) => r.winPct, BY_OWNER)))

  const REGULAR_ORDER: (OwnerRow, OwnerRow) -> bool :=
    Descending((r: OwnerRow) => r.total.wins as real,
    Descending((r: OwnerRow) => r.winPct,
    Descending((r: OwnerRow) => r.total.pointsFor as real, BY_OWNER)))

  const BY_PLAYOFF_OWNER := (a: PlayoffRow, b: PlayoffRow) => Less(a.total.owner, b.total.owner)

  const PLAYOFF_ORDER: (PlayoffRow, PlayoffRow) -> bool :=
    Descending((r: PlayoffRow) => r.total.titles as real,
    Descending((r: PlayoffRow) => r.total.wins as real,
    Descending((r: PlayoffRow) => r.total.appearances as real,
    Descending((r: PlayoffRow) => r.winPct, BY_PLAYOFF_OWNER))))

  /** Seasons can tie on everything compared; the order does not look at owners. */
  const SEASON_ORDER: (SeasonRow, SeasonRow) -> bool :=
    Descending((r: SeasonRow) => r.winPct,
    Descending((r: SeasonRow) => r.record.wins as real,
    Descending((r: SeasonRow) => r.record.pointsFor as real,
    Descending((r: SeasonRow) => -(r.record.finalStanding as real),
    Descending((r: SeasonRow) => r.record.year as real, Undecided())))))

  const YEAR_ORDER: (ChampionRecord, ChampionRecord) -> bool :=
    Descending((r: ChampionRecord) => r.year as real, Undecided())

  lemma {:induction false} OwnersAreOrdered()
    ensures StrictWeakOrder(BY_OWNER) && StrictWeakOrder(BY_PLAYOFF_OWNER)
  {
    LessIsStrictTotal();
    forall a: OwnerRow, b: OwnerRow, c: OwnerRow | !BY_OWNER(a, b) && !BY_OWNER(b, c) ensures !BY_OWNER(a, c) {
      assert !Less(a.total.owner, b.total.owner) && !Less(b.total.owner, c.total.owner);
    }
    forall a: OwnerRow, b: OwnerRow, c: OwnerRow | BY_OWNER(a, b) && BY_OWNER(b, c) ensures BY_OWNER(a, c) {
      assert Less(a.total.owner, b.total.owner) && Less(b.total.owner, c.total.owner);
    }
    forall a: PlayoffRow, b: PlayoffRow, c: PlayoffRow | !BY_PLAYOFF_OWNER(a, b) && !BY_PLAYOFF_OWNER(b, c)
      ensures !BY_PLAYOFF_OWNER(a, c)
    {
      assert !Less(a.total.owner, b.total.owner) && !Less(b.total.owner, c.total.owner);
    }
    forall a: PlayoffRow, b: PlayoffRow, c: PlayoffRow | BY_PLAYOFF_OWNER(a, b) && BY_PLAYOFF_OWNER(b, c)
      ensures BY_PLAYOFF_OWNER(a, c)
    {
      assert Less(a.total.owner, b.total.owner) && Less(b.total.owner, c.total.owner);
    }
  }

  lemma {:induction false} OrdersAreOrders()
    ensures StrictWeakOrder(OWNER_ORDER) && StrictWeakOrder(REGULAR_ORDER) && StrictWeakOrder(PLAYOFF_ORDER)
    ensures StrictWeakOrder(SEASON_ORDER) && StrictWeakOrder(YEAR_ORDER)
  {
    OwnersAreOrdered();
    OwnerOrderIsOrder();
    RegularOrderIsOrder();
    PlayoffOrderIsOrder();
    SeasonOrderIsOrder();
    DescendingIsOrder((r: ChampionRecord) => r.year as real, Undecided());
  }

  lemma {:induction false} OwnerOrderIsOrder()
    requires StrictWeakOrder(BY_OWNER)
    ensures StrictWeakOrder(OWNER_ORDER)
  {
    var pct := (r: OwnerRow) => r.winPct;
    var titles := (r: OwnerRow) => r.total.titles as real;
    DescendingIsOrder(pct, BY_OWNER);
    DescendingIsOrder(titles, Descending(pct, BY_OWNER));
    DescendingIsOrder((r: OwnerRow) => r.total.wins as real, Descending(titles, Descending(pct, BY_OWNER)));
  }

  lemma {:induction false} RegularOrderIsOrder()
    requires StrictWeakOrder(BY_OWNER)
    ensures StrictWeakOrder(REGULAR_ORDER)
  {
    var points := (r: OwnerRow) => r.total.pointsFor as real;
    var pct := (r: OwnerRow) => r.winPct;
    DescendingIsOrder(points, BY_OWNER);
    DescendingIsOrder(pct, Descending(points, BY_OWNER));
    DescendingIsOrder((r: OwnerRow) => r.total.wins as real, Descending(pct, Descending(points, BY_OWNER)));
  }

  lemma {:induction false} PlayoffOrderIsOrder()
    requires StrictWeakOrder(BY_PLAYOFF_OWNER)
    ensures StrictWeakOrder(PLAYOFF_ORDER)
  {
    var pct := (r: PlayoffRow) => r.winPct;
    var trips := (r: PlayoffRow) => r.total.appearances as real;
    var wins := (r: PlayoffRow) => r.total.wins as real;
    var byPct := Descending(pct, BY_PLAYOFF_OWNER);
    DescendingIsOrder(pct, BY_PLAYOFF_OWNER);
    DescendingIsOrder(trips, byPct);
    DescendingIsOrder(wins, Descending(trips, byPct));
    DescendingIsOrder((r: PlayoffRow) => r.total.titles as real, Descending(wins, Descending(trips, byPct)));
  }

  lemma {:induction false} SeasonOrderIsOrder()
    ensures StrictWeakOrder(SEASON_ORDER)
  {
    var year := (r: SeasonRow) => r.record.year as real;
    var standing := (r: SeasonRow) => -(r.record.finalStanding as real);
    var points := (r: SeasonRow) => r.record.pointsFor as real;
    var wins := (r: SeasonRow) => r.record.wins as real;
    var byYear := Descending(year, Undecided());
    var byStanding := Descending(standing, byYear);
    DescendingIsOrder(year, Undecided());
    DescendingIsOrder(standing, byYear);
    DescendingIsOrder(points, byStanding);
    DescendingIsOrder(wins, Descending(points, byStanding));
    DescendingIsOrder((r: SeasonRow) => r.winPct, Descending(wins, Descending(points, byStanding)));
  }

  lemma {:induction false} OwnersDecide(a: OwnerRow, b: OwnerRow)
    requires a.total.owner != b.total.owner
    ensures Decides(OWNER_ORDER, a, b) && Decides(REGULAR_ORDER, a, b)
  {
    LessTotal(a.total.owner, b.total.owner);
  }

  lemma {:induction false} PlayoffOwnersDecide(a: PlayoffRow, b: PlayoffRow)
    requires a.total.owner != b.total.owner
    ensures Decides(PLAYOFF_ORDER, a, b)
  {
    LessTotal(a.total.owner, b.total.owner);
  }
}
