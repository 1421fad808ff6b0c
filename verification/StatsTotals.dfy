/** What the finished tables add up to (`BuildPageDataFromSeasons` in `internal/stats/stats.go`). */
module StatsTotals {
  import opened OwnerNames
  import opened StatsLaws
  import opened StatsRollup
  import opened StatsSeason
  import opened StatsTally

  // ---- sums over the entries of a table ----

  lemma {:induction false} SameSum(owners: set<string>, f: string -> string, c: string, g: string -> int, h: string -> int)
    requires forall k :: k in owners ==> g(k) == h(k)
    ensures FiberSum(owners, f, c, g) == FiberSum(owners, f, c, h)
    decreases |owners|
  {
    if owners != {} {
      var k :| k in owners;
      FiberSumTakeOut(owners, f, c, g, k);
      FiberSumTakeOut(owners, f, c, h, k);
      SameSum(owners - {k}, f, c, g, h);
    }
  }

  /** Owners with nothing do not matter to a sum. */
  lemma {:induction false} IdleOwners(some: set<string>, all: set<string>, f: string -> string, c: string, h: string -> int)
    requires some <= all && forall k :: k in all && k !in some ==> h(k) == 0
    ensures FiberSum(some, f, c, h) == FiberSum(all, f, c, h)
    decreases |all - some|
  {
    if all == some {
    } else {
      var k :| k in all && k !in some;
      FiberSumTakeOut(all, f, c, h, k);
      assert (all - {k}) - some == (all - some) - {k};
      IdleOwners(some, all - {k}, f, c, h);
    }
  }

  /** The table keys of everyone who appears in the seasons. */
  function Everyone(seasons: seq<SeasonInput>): set<string> {
    (set s, t | s in seasons && t in s.teams :: Key(t.owner))
    + (set s, m | s in seasons && m in s.matchups :: Key(m.homeOwner))
    + (set s, m | s in seasons && m in s.matchups :: Key(m.awayOwner))
  }

  lemma {:induction false} EveryoneCovers(seasons: seq<SeasonInput>)
    ensures CoversCanonical(Everyone(seasons), seasons)
  {
    forall s | s in seasons ensures Covers(Everyone(seasons), s) {
      forall t | t in s.teams ensures Key(t.owner) in Everyone(seasons) {
      }
      forall m | m in s.matchups ensures Key(m.homeOwner) in Everyone(seasons) && Key(m.awayOwner) in Everyone(seasons) {
      }
    }
  }

  function OwnerColumn(m: OwnerTable, x: Metric): string -> int
    requires InOwnerTable(x)
  {
    k => OwnerMetric(OwnerAt(m, k), x)
  }

  function PlayoffColumn(m: PlayoffTable, x: Metric): string -> int
    requires InPlayoffTable(x)
  {
    k => PlayoffMetric(PlayoffAt(m, k), x)
  }

  /** Of each additive metric the owner table holds exactly what the seasons put in. */
  lemma {:induction false} OwnerTableConserves(seasons: seq<SeasonInput>, om: OwnerTable, pm: PlayoffTable, x: Metric)
    requires TablesFor(seasons, om, pm) && InOwnerTable(x) && Additive(x)
    ensures SumOver(om.Keys, OwnerColumn(om, x)) == AllInputs(seasons, x)
  {
    EveryoneCovers(seasons);
    var all, f := Everyone(seasons) + om.Keys, (k: string) => "";
    var owed, held := k => RollupTally(seasons, k, x), OwnerColumn(om, x);
    assert CoversCanonical(all, seasons);
    RollupConserves(seasons, all, x);
    SameSum(all, f, "", owed, held);
    IdleOwners(om.Keys, all, f, "", held);
  }

  /** So does the playoff table: in particular its wins and its losses both add up to the
      decided winners-bracket games, and its titles to the crowned seasons. */
  lemma {:induction false} PlayoffTableConserves(seasons: seq<SeasonInput>, om: OwnerTable, pm: PlayoffTable, x: Metric)
    requires TablesFor(seasons, om, pm) && InPlayoffTable(x) && Additive(x)
    ensures SumOver(pm.Keys, PlayoffColumn(pm, x)) == AllInputs(seasons, x)
  {
    EveryoneCovers(seasons);
    var all, f := Everyone(seasons) + pm.Keys, (k: string) => "";
    var owed, held := k => RollupTally(seasons, k, x), PlayoffColumn(pm, x);
    assert CoversCanonical(all, seasons);
    RollupConserves(seasons, all, x);
    SameSum(all, f, "", owed, held);
    IdleOwners(pm.Keys, all, f, "", held);
  }

  lemma {:induction false} WinsEqualLosses(seasons: seq<SeasonInput>, om: OwnerTable, pm: PlayoffTable)
    requires TablesFor(seasons, om, pm)
    ensures SumOver(pm.Keys, PlayoffColumn(pm, PlayoffWins)) == SumOver(pm.Keys, PlayoffColumn(pm, PlayoffLosses))
  {
    PlayoffTableConserves(seasons, om, pm, PlayoffWins);
    PlayoffTableConserves(seasons, om, pm, PlayoffLosses);
    SameInputs(seasons);
  }

  lemma {:induction false} SameInputs(seasons: seq<SeasonInput>)
    ensures AllInputs(seasons, PlayoffWins) == AllInputs(seasons, PlayoffLosses)
    decreases |seasons|
  {
    if seasons != [] { SameInputs(seasons[..|seasons| - 1]); }
  }

  // ---- merging names merges rows ----

  lemma {:induction false} RawEveryoneCovers(seasons: seq<SeasonInput>, owners: set<string>)
    requires Everyone(CanonicalSeasons(seasons, map[])) <= owners
    ensures CoversAll(owners, seasons)
  {
    var raw := CanonicalSeasons(seasons, map[]);
    EveryoneCovers(raw);
    forall s | s in seasons ensures Covers(owners, Raw(s)) {
      RawIsListed(seasons, s);
      assert Covers(Everyone(raw), Raw(s));
    }
  }

  lemma {:induction false} RawIsListed(seasons: seq<SeasonInput>, s: SeasonInput)
    requires s in seasons
    ensures Raw(s) in CanonicalSeasons(seasons, map[])
    decreases |seasons|
  {
    if s != seasons[|seasons| - 1] {
      assert seasons == seasons[..|seasons| - 1] + [seasons[|seasons| - 1]];
      RawIsListed(seasons[..|seasons| - 1], s);
    }
  }

  lemma {:induction false} OwnerRowsMerge(seasons: seq<SeasonInput>, aliases: Aliases, om: OwnerTable, raw: OwnerTable, all: set<string>, c: string, x: Metric)
    requires MergedAliases(aliases) && InOwnerTable(x) && CoversAll(all, seasons) && raw.Keys <= all
    requires OwnerMetric(OwnerAt(om, c), x) == RollupTally(CanonicalSeasons(seasons, aliases), c, x)
    requires forall k :: OwnerMetric(OwnerAt(raw, k), x) == RawTotals(seasons, x)(k)
    ensures OwnerMetric(OwnerAt(om, c), x) <= FiberSum(raw.Keys, Regroup(aliases), c, OwnerColumn(raw, x))
    ensures Additive(x) ==> OwnerMetric(OwnerAt(om, c), x) == FiberSum(raw.Keys, Regroup(aliases), c, OwnerColumn(raw, x))
  {
    var held := OwnerColumn(raw, x);
    AliasingCommutes(seasons, aliases, all, c, x);
    SameSum(all, Regroup(aliases), c, RawTotals(seasons, x), held);
    IdleOwners(raw.Keys, all, Regroup(aliases), c, held);
  }

  lemma {:induction false} PlayoffRowsMerge(seasons: seq<SeasonInput>, aliases: Aliases, pm: PlayoffTable, raw: PlayoffTable,
                                            all: set<string>, c: string, x: Metric)
    requires MergedAliases(aliases) && InPlayoffTable(x) && CoversAll(all, seasons) && raw.Keys <= all
    requires PlayoffMetric(PlayoffAt(pm, c), x) == RollupTally(CanonicalSeasons(seasons, aliases), c, x)
    requires forall k :: PlayoffMetric(PlayoffAt(raw, k), x) == RawTotals(seasons, x)(k)
    ensures PlayoffMetric(PlayoffAt(pm, c), x) <= FiberSum(raw.Keys, Regroup(aliases), c, PlayoffColumn(raw, x))
    ensures Additive(x) ==> PlayoffMetric(PlayoffAt(pm, c), x) == FiberSum(raw.Keys, Regroup(aliases), c, PlayoffColumn(raw, x))
  {
    var held := PlayoffColumn(raw, x);
    AliasingCommutes(seasons, aliases, all, c, x);
    SameSum(all, Regroup(aliases), c, RawTotals(seasons, x), held);
    IdleOwners(raw.Keys, all, Regroup(aliases), c, held);
  }

  /** Merging owners' names merges their rows: under a merged alias map a canonical owner's row
      holds the sum of the rows that the same seasons give without aliases, over the owners
      mapped to it; for trips and finals, which count once a season, at most that sum. */
  lemma {:induction false} RowsMerge(seasons: seq<SeasonInput>, aliases: Aliases, om: OwnerTable, pm: PlayoffTable,
                                     rawOwners: OwnerTable, rawPlayoffs: PlayoffTable, c: string, x: Metric)
    requires MergedAliases(aliases)
    requires TablesFor(CanonicalSeasons(seasons, aliases), om, pm)
    requires TablesFor(CanonicalSeasons(seasons, map[]), rawOwners, rawPlayoffs)
    ensures InOwnerTable(x) ==>
      OwnerMetric(OwnerAt(om, c), x) <= FiberSum(rawOwners.Keys, Regroup(aliases), c, OwnerColumn(rawOwners, x))
    ensures InOwnerTable(x) && Additive(x) ==>
      OwnerMetric(OwnerAt(om, c), x) == FiberSum(rawOwners.Keys, Regroup(aliases), c, OwnerColumn(rawOwners, x))
    ensures InPlayoffTable(x) ==>
      PlayoffMetric(PlayoffAt(pm, c), x) <= FiberSum(rawPlayoffs.Keys, Regroup(aliases), c, PlayoffColumn(rawPlayoffs, x))
    ensures InPlayoffTable(x) && Additive(x) ==>
      PlayoffMetric(PlayoffAt(pm, c), x) == FiberSum(rawPlayoffs.Keys, Regroup(aliases), c, PlayoffColumn(rawPlayoffs, x))
  {
    var all := Everyone(CanonicalSeasons(seasons, map[])) + rawOwners.Keys + rawPlayoffs.Keys;
    RawEveryoneCovers(seasons, all);
    if InOwnerTable(x) { OwnerRowsMerge(seasons, aliases, om, rawOwners, all, c, x); }
    if InPlayoffTable(x) { PlayoffRowsMerge(seasons, aliases, pm, rawPlayoffs, all, c, x); }
  }
}
