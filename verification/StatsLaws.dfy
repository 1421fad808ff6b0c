/** Laws of the rollup (`internal/stats/stats.go`): merging owners' names merges their
    totals, and nothing is created or lost between the inputs and the tables. */
module StatsLaws {
  import opened OwnerNames
  import opened Results
  import opened StatsSeason
  import opened StatsTally
  import opened Text

  // ---- sums over a set of owners ----

  /** The sum of `h(k)` over the owners `k` of the set that `f` sends to `c`. */
  ghost function FiberSum(owners: set<string>, f: string -> string, c: string, h: string -> int): int {
    if owners == {} then 0
    else
      var k :| k in owners;
      FiberSum(owners - {k}, f, c, h) + if f(k) == c then h(k) else 0
  }

  lemma {:induction false} FiberSumTakeOut(owners: set<string>, f: string -> string, c: string, h: string -> int, y: string)
    requires y in owners
    ensures FiberSum(owners, f, c, h) == FiberSum(owners - {y}, f, c, h) + if f(y) == c then h(y) else 0
    decreases |owners|
  {
    var k :| k in owners && FiberSum(owners, f, c, h) == FiberSum(owners - {k}, f, c, h) + if f(k) == c then h(k) else 0;
    if k != y {
      FiberSumTakeOut(owners - {k}, f, c, h, y);
      FiberSumTakeOut(owners - {y}, f, c, h, k);
      assert owners - {k} - {y} == owners - {y} - {k};
    }
  }

  lemma {:induction false} FiberSumPlus(owners: set<string>, f: string -> string, c: string, g: string -> int, h: string -> int, sum: string -> int)
    requires forall k :: k in owners ==> sum(k) == g(k) + h(k)
    ensures FiberSum(owners, f, c, sum) == FiberSum(owners, f, c, g) + FiberSum(owners, f, c, h)
    decreases |owners|
  {
    if owners != {} {
      var k :| k in owners;
      FiberSumTakeOut(owners, f, c, g, k);
      FiberSumTakeOut(owners, f, c, h, k);
      FiberSumTakeOut(owners, f, c, sum, k);
      FiberSumPlus(owners - {k}, f, c, g, h, sum);
    }
  }

  lemma {:induction false} FiberSumZero(owners: set<string>, f: string -> string, c: string, h: string -> int)
    requires forall k :: k in owners ==> h(k) == 0
    ensures FiberSum(owners, f, c, h) == 0
    decreases |owners|
  {
    if owners != {} {
      var k :| k in owners;
      FiberSumTakeOut(owners, f, c, h, k);
      FiberSumZero(owners - {k}, f, c, h);
    }
  }

  lemma {:induction false} FiberSumOfOne(owners: set<string>, f: string -> string, c: string, h: string -> int, o: string)
    requires o in owners && forall k :: k in owners && k != o ==> h(k) == 0
    ensures FiberSum(owners, f, c, h) == if f(o) == c then h(o) else 0
  {
    FiberSumTakeOut(owners, f, c, h, o);
    FiberSumZero(owners - {o}, f, c, h);
  }

  lemma {:induction false} FiberSumAtLeast(owners: set<string>, f: string -> string, c: string, h: string -> int)
    requires forall k :: k in owners ==> h(k) >= 0
    ensures FiberSum(owners, f, c, h) >= 0
    ensures forall o :: o in owners && f(o) == c ==> FiberSum(owners, f, c, h) >= h(o)
    decreases |owners|
  {
    if owners != {} {
      var k :| k in owners;
      FiberSumTakeOut(owners, f, c, h, k);
      FiberSumAtLeast(owners - {k}, f, c, h);
      forall o | o in owners && f(o) == c ensures FiberSum(owners, f, c, h) >= h(o) {
        if o != k { assert o in owners - {k}; }
      }
    }
  }

  // ---- renaming owners ----

  function Rename(f: string -> string, credits: seq<Credit>): seq<Credit> {
    if credits == [] then []
    else
      var n := |credits| - 1;
      Rename(f, credits[..n]) + [Credit(f(credits[n].owner), credits[n].metric, credits[n].value)]
  }

  lemma {:induction false} RenameConcat(f: string -> string, a: seq<Credit>, b: seq<Credit>)
    ensures Rename(f, a + b) == Rename(f, a) + Rename(f, b)
    decreases |b|
  {
    if b == [] {
      assert a + b == a;
    } else {
      var n := |b| - 1;
      RenameConcat(f, a, b[..n]);
      assert (a + b)[..|a + b| - 1] == a + b[..n];
    }
  }

  lemma {:induction false} RenameOne(f: string -> string, c: Credit)
    ensures Rename(f, [c]) == [Credit(f(c.owner), c.metric, c.value)]
  {
    assert [c][..0] == [];
  }

  ghost predicate OwnersWithin(credits: seq<Credit>, owners: set<string>) {
    forall c :: c in credits ==> c.owner in owners
  }

  lemma {:induction false} RenamedSumStep(init: seq<Credit>, last: Credit, f: string -> string, c: string, x: Metric)
    ensures Sum(Rename(f, init + [last]), c, x) == Sum(Rename(f, init), c, x) + if f(last.owner) == c then Worth(last, last.owner, x) else 0
  {
    var renamed := Credit(f(last.owner), last.metric, last.value);
    RenameConcat(f, init, [last]);
    RenameOne(f, last);
    SumConcat(Rename(f, init), [renamed], c, x);
    SumOfOne(renamed, c, x);
  }

  lemma {:induction false} FiberSumStep(init: seq<Credit>, last: Credit, owners: set<string>, f: string -> string, c: string, x: Metric)
    requires last.owner in owners
    ensures FiberSum(owners, f, c, k => Sum(init + [last], k, x))
      == FiberSum(owners, f, c, k => Sum(init, k, x)) + if f(last.owner) == c then Worth(last, last.owner, x) else 0
  {
    var g, w, h := k => Sum(init, k, x), k => Worth(last, k, x), k => Sum(init + [last], k, x);
    forall k ensures h(k) == g(k) + w(k) {
      SumConcat(init, [last], k, x);
      SumOfOne(last, k, x);
    }
    FiberSumPlus(owners, f, c, g, w, h);
    FiberSumOfOne(owners, f, c, w, last.owner);
  }

  /** Renaming regroups: a new owner's sum is the sum over the old owners renamed to it. */
  lemma {:induction false} RenamedSum(credits: seq<Credit>, owners: set<string>, f: string -> string, c: string, x: Metric)
    requires OwnersWithin(credits, owners)
    ensures Sum(Rename(f, credits), c, x) == FiberSum(owners, f, c, k => Sum(credits, k, x))
    decreases |credits|
  {
    if credits == [] {
      FiberSumZero(owners, f, c, k => Sum(credits, k, x));
    } else {
      var init, last := credits[..|credits| - 1], credits[|credits| - 1];
      RenamedSum(init, owners, f, c, x);
      RenamedSumStep(init, last, f, c, x);
      FiberSumStep(init, last, owners, f, c, x);
      assert credits == init + [last];
    }
  }

  // ---- conservation ----

  ghost function SumOver(owners: set<string>, h: string -> int): int {
    FiberSum(owners, k => "", "", h)
  }

  function Total(credits: seq<Credit>, x: Metric): int {
    if credits == [] then 0
    else Total(credits[..|credits| - 1], x) + if credits[|credits| - 1].metric == x then credits[|credits| - 1].value else 0
  }

  lemma {:induction false} TotalOfRenamed(f: string -> string, credits: seq<Credit>, x: Metric)
    requires forall k :: f(k) == ""
    ensures Sum(Rename(f, credits), "", x) == Total(credits, x)
    decreases |credits|
  {
    if credits != [] {
      var n := |credits| - 1;
      TotalOfRenamed(f, credits[..n], x);
      var renamed := Credit("", credits[n].metric, credits[n].value);
      assert Rename(f, credits) == Rename(f, credits[..n]) + [renamed];
      SumConcat(Rename(f, credits[..n]), [renamed], "", x);
      SumOfOne(renamed, "", x);
    }
  }

  lemma {:induction false} SumOverCredits(credits: seq<Credit>, owners: set<string>, x: Metric)
    requires OwnersWithin(credits, owners)
    ensures SumOver(owners, k => Sum(credits, k, x)) == Total(credits, x)
  {
    var f := (k: string) => "";
    RenamedSum(credits, owners, f, "", x);
    TotalOfRenamed(f, credits, x);
  }

  // ---- aliasing a season ----

  /** The canonical key behind a key of the table without aliases. */
  function Regroup(aliases: Aliases): string -> string {
    k => if k in aliases then aliases[k] else k
  }

  /** The shared entry of blank and "Unknown" owners is not sent elsewhere. */
  ghost predicate KeepsUnknown(aliases: Aliases) {
    "Unknown" in aliases ==> aliases["Unknown"] == "Unknown"
  }

  ghost predicate MergedAliases(aliases: Aliases) {
    Flat(aliases) && KeepsUnknown(aliases)
  }

  lemma {:induction false} AliasedOwner(owner: string, aliases: Aliases)
    requires MergedAliases(aliases)
    ensures Key(NormalizeOwner(owner, aliases)) == Regroup(aliases)(Key(NormalizeOwner(owner, map[])))
    ensures NormalizeOwner(owner, aliases) == "" <==> NormalizeOwner(owner, map[]) == ""
    ensures NormalizeOwner(owner, map[]) != "" ==> NormalizeOwner(owner, aliases) == Regroup(aliases)(NormalizeOwner(owner, map[]))
  {
    var c := Clean(owner);
    assert NormalizeOwner(owner, map[]) == c;
    NormalizeOwnerOnFlatMap(owner, aliases);
    if c in aliases {
      CleanNormalForm(aliases[c]);
    }
  }

  function Raw(season: SeasonInput): SeasonInput {
    Canonical(season, map[])
  }

  lemma {:induction false} AliasedTeamCredits(teams: seq<TeamInput>, aliases: Aliases, aliased: seq<TeamInput>, raw: seq<TeamInput>)
    requires MergedAliases(aliases) && |aliased| == |raw| == |teams|
    requires forall i :: 0 <= i < |teams| ==> aliased[i] == CanonicalTeam(teams[i], aliases) && raw[i] == CanonicalTeam(teams[i], map[])
    ensures TeamCredits(aliased) == Rename(Regroup(aliases), TeamCredits(raw))
    decreases |teams|
  {
    if teams != [] {
      var n := |teams| - 1;
      var f := Regroup(aliases);
      AliasedTeamCredits(teams[..n], aliases, aliased[..n], raw[..n]);
      RenameConcat(f, TeamCredits(raw[..n]), TeamCredit(raw[n]));
      AliasedOwner(teams[n].owner, aliases);
      RenameTeamCredit(f, raw[n], aliased[n]);
    }
  }

  lemma {:induction false} RenameTeamCredit(f: string -> string, raw: TeamInput, aliased: TeamInput)
    requires aliased == raw.(owner := aliased.owner) && Key(aliased.owner) == f(Key(raw.owner))
    ensures TeamCredit(aliased) == Rename(f, TeamCredit(raw))
  {
    RenameEach(f, TeamCredit(raw));
  }

  lemma {:induction false} RenameEach(f: string -> string, credits: seq<Credit>)
    ensures |Rename(f, credits)| == |credits|
    ensures forall i :: 0 <= i < |credits| ==> Rename(f, credits)[i] == Credit(f(credits[i].owner), credits[i].metric, credits[i].value)
    decreases |credits|
  {
    if credits != [] {
      RenameEach(f, credits[..|credits| - 1]);
    }
  }

  /** Two versions of one matchup row whose owners differ by a renaming. */
  ghost predicate RenamedMatchup(f: string -> string, raw: MatchupInput, aliased: MatchupInput) {
    && aliased == raw.(homeOwner := aliased.homeOwner, awayOwner := aliased.awayOwner)
    && Key(aliased.homeOwner) == f(Key(raw.homeOwner)) && Key(aliased.awayOwner) == f(Key(raw.awayOwner))
    && (aliased.homeOwner == "" <==> raw.homeOwner == "") && (aliased.awayOwner == "" <==> raw.awayOwner == "")
  }

  lemma {:induction false} AliasedMatchup(m: MatchupInput, aliases: Aliases)
    requires MergedAliases(aliases)
    ensures RenamedMatchup(Regroup(aliases), CanonicalMatchup(m, map[]), CanonicalMatchup(m, aliases))
  {
    AliasedOwner(m.homeOwner, aliases);
    AliasedOwner(m.awayOwner, aliases);
  }

  ghost predicate RenamedMatchups(f: string -> string, raw: seq<MatchupInput>, aliased: seq<MatchupInput>) {
    |aliased| == |raw| && forall i :: 0 <= i < |raw| ==> RenamedMatchup(f, raw[i], aliased[i])
  }

  lemma {:induction false} AliasedGameCredit(f: string -> string, raw: MatchupInput, aliased: MatchupInput)
    requires RenamedMatchup(f, raw, aliased)
    ensures GameCredit(aliased) == Rename(f, GameCredit(raw))
  {
    RenameEach(f, GameCredit(raw));
  }

  lemma {:induction false} AliasedGameCredits(f: string -> string, raw: seq<MatchupInput>, aliased: seq<MatchupInput>)
    requires RenamedMatchups(f, raw, aliased)
    ensures GameCredits(aliased) == Rename(f, GameCredits(raw))
    decreases |raw|
  {
    if raw != [] {
      var n := |raw| - 1;
      AliasedGameCredits(f, raw[..n], aliased[..n]);
      RenameConcat(f, GameCredits(raw[..n]), GameCredit(raw[n]));
      assert RenamedMatchup(f, raw[n], aliased[n]);
      AliasedGameCredit(f, raw[n], aliased[n]);
    }
  }

  lemma {:induction false} AliasedChampionship(f: string -> string, raw: seq<MatchupInput>, aliased: seq<MatchupInput>)
    requires RenamedMatchups(f, raw, aliased)
    ensures Championship(raw).Some? <==> Championship(aliased).Some?
    ensures Championship(raw).Some? ==> RenamedMatchup(f, Championship(raw).value, Championship(aliased).value)
  {
    forall i | 0 <= i < |raw|
      ensures aliased[i].week == raw[i].week && (ChampionshipCandidate(aliased[i]) <==> ChampionshipCandidate(raw[i]))
    {
      assert RenamedMatchup(f, raw[i], aliased[i]);
    }
    ChampionshipIgnoresOwners(raw, aliased);
  }

  lemma {:induction false} AliasedTitleCredits(f: string -> string, raw: seq<MatchupInput>, aliased: seq<MatchupInput>)
    requires RenamedMatchups(f, raw, aliased)
    ensures TitleCredits(aliased) == Rename(f, TitleCredits(raw))
  {
    AliasedChampionship(f, raw, aliased);
    if TitleCredits(raw) != [] {
      RenameOne(f, TitleCredits(raw)[0]);
    }
  }

  lemma {:induction false} AliasedSeasonMatchups(season: SeasonInput, aliases: Aliases)
    requires MergedAliases(aliases)
    ensures RenamedMatchups(Regroup(aliases), Raw(season).matchups, Canonical(season, aliases).matchups)
  {
    forall i | 0 <= i < |season.matchups|
      ensures RenamedMatchup(Regroup(aliases), Raw(season).matchups[i], Canonical(season, aliases).matchups[i])
    {
      AliasedMatchup(season.matchups[i], aliases);
    }
  }

  lemma {:induction false} AliasedCredits(season: SeasonInput, aliases: Aliases)
    requires MergedAliases(aliases)
    ensures Credits(Canonical(season, aliases)) == Rename(Regroup(aliases), Credits(Raw(season)))
  {
    var f, raw, aliased := Regroup(aliases), Raw(season), Canonical(season, aliases);
    AliasedTeamCredits(season.teams, aliases, aliased.teams, raw.teams);
    AliasedSeasonMatchups(season, aliases);
    AliasedGameCredits(f, raw.matchups, aliased.matchups);
    AliasedTitleCredits(f, raw.matchups, aliased.matchups);
    RenameConcat(f, TeamCredits(raw.teams), TitleCredits(raw.matchups));
    RenameConcat(f, TeamCredits(raw.teams) + TitleCredits(raw.matchups), GameCredits(raw.matchups));
  }

  // ---- owners of a season ----

  /** The set holds the table keys of everyone in the season. */
  ghost predicate Covers(owners: set<string>, season: SeasonInput) {
    && (forall t :: t in season.teams ==> Key(t.owner) in owners)
    && (forall m :: m in season.matchups ==> Key(m.homeOwner) in owners && Key(m.awayOwner) in owners)
  }

  lemma {:induction false} TeamOwnersWithin(teams: seq<TeamInput>, owners: set<string>)
    requires forall t :: t in teams ==> Key(t.owner) in owners
    ensures OwnersWithin(TeamCredits(teams), owners)
    decreases |teams|
  {
    if teams != [] {
      TeamOwnersWithin(teams[..|teams| - 1], owners);
      assert teams[|teams| - 1] in teams;
    }
  }

  lemma {:induction false} GameOwnersWithin(ms: seq<MatchupInput>, owners: set<string>)
    requires forall m :: m in ms ==> Key(m.homeOwner) in owners && Key(m.awayOwner) in owners
    ensures OwnersWithin(GameCredits(ms), owners)
    decreases |ms|
  {
    if ms != [] {
      GameOwnersWithin(ms[..|ms| - 1], owners);
      assert ms[|ms| - 1] in ms;
    }
  }

  lemma {:induction false} SeasonOwnersWithin(season: SeasonInput, owners: set<string>)
    requires Covers(owners, season)
    ensures OwnersWithin(Credits(season), owners)
  {
    TeamOwnersWithin(season.teams, owners);
    GameOwnersWithin(season.matchups, owners);
    var c := Championship(season.matchups);
    if c.Some? {
      assert c.value in season.matchups;
    }
  }

  lemma {:induction false} TripHasSource(f: string -> string, raw: SeasonInput, aliased: SeasonInput, owners: set<string>, c: string) returns (o: string)
    requires RenamedMatchups(f, raw.matchups, aliased.matchups) && Covers(owners, raw) && IsPlayoffOwner(aliased.matchups, c)
    ensures o in owners && f(o) == c && IsPlayoffOwner(raw.matchups, o)
  {
    var i :| 0 <= i < |aliased.matchups| && InPlayoffsFor(aliased.matchups[i], c);
    var m := raw.matchups[i];
    assert RenamedMatchup(f, m, aliased.matchups[i]) && m in raw.matchups;
    o := if m.homePresent && aliased.matchups[i].homeOwner == c then m.homeOwner else m.awayOwner;
  }

  lemma {:induction false} FinalHasSource(f: string -> string, raw: SeasonInput, aliased: SeasonInput, owners: set<string>, c: string) returns (o: string)
    requires RenamedMatchups(f, raw.matchups, aliased.matchups) && Covers(owners, raw) && IsFinalist(aliased.matchups, c)
    ensures o in owners && f(o) == c && IsFinalist(raw.matchups, o)
  {
    AliasedChampionship(f, raw.matchups, aliased.matchups);
    var m := Championship(raw.matchups).value;
    assert m in raw.matchups;
    o := if Championship(aliased.matchups).value.homeOwner == c then m.homeOwner else m.awayOwner;
  }

  lemma {:induction false} PresenceAtMostSum(f: string -> string, raw: SeasonInput, aliased: SeasonInput, owners: set<string>, c: string, x: Metric)
    requires RenamedMatchups(f, raw.matchups, aliased.matchups) && Covers(owners, raw)
    ensures 0 <= Presence(aliased, c, x) <= FiberSum(owners, f, c, k => Presence(raw, k, x))
  {
    var h := k => Presence(raw, k, x);
    FiberSumAtLeast(owners, f, c, h);
    if x == Trips && IsPlayoffOwner(aliased.matchups, c) {
      var o := TripHasSource(f, raw, aliased, owners, c);
      assert h(o) == 1;
    } else if x == Finals && IsFinalist(aliased.matchups, c) {
      var o := FinalHasSource(f, raw, aliased, owners, c);
      assert h(o) == 1;
    }
  }

  ghost predicate Additive(x: Metric) {
    x != Trips && x != Finals
  }

  lemma {:induction false} AliasedSeasonTally(season: SeasonInput, aliases: Aliases, owners: set<string>, c: string, x: Metric)
    requires MergedAliases(aliases) && Covers(owners, Raw(season))
    ensures SeasonTally(Canonical(season, aliases), c, x) <= FiberSum(owners, Regroup(aliases), c, k => SeasonTally(Raw(season), k, x))
    ensures Additive(x) ==> SeasonTally(Canonical(season, aliases), c, x) == FiberSum(owners, Regroup(aliases), c, k => SeasonTally(Raw(season), k, x))
  {
    var f, raw, aliased := Regroup(aliases), Raw(season), Canonical(season, aliases);
    var g := k => Sum(Credits(raw), k, x);
    var h := k => Presence(raw, k, x);
    var both := k => SeasonTally(raw, k, x);
    AliasedCredits(season, aliases);
    SeasonOwnersWithin(raw, owners);
    RenamedSum(Credits(raw), owners, f, c, x);
    AliasedSeasonMatchups(season, aliases);
    PresenceAtMostSum(f, raw, aliased, owners, c, x);
    FiberSumPlus(owners, f, c, g, h, both);
    if Additive(x) { FiberSumZero(owners, f, c, h); }
  }

  // ---- aliasing all seasons ----

  function CanonicalSeasons(seasons: seq<SeasonInput>, aliases: Aliases): (r: seq<SeasonInput>)
    ensures |r| == |seasons|
  {
    if seasons == [] then []
    else CanonicalSeasons(seasons[..|seasons| - 1], aliases) + [Canonical(seasons[|seasons| - 1], aliases)]
  }

  ghost predicate CoversAll(owners: set<string>, seasons: seq<SeasonInput>) {
    forall s :: s in seasons ==> Covers(owners, Raw(s))
  }

  /** The totals of metric `x` in the rollup without aliases. */
  ghost function RawTotals(seasons: seq<SeasonInput>, x: Metric): string -> int {
    k => RollupTally(CanonicalSeasons(seasons, map[]), k, x)
  }

  /** Aliasing commutes with the rollup. Under a merged alias map each canonical owner has, of
      every additive metric, the sum over the raw owners that map to it; of playoff trips and
      finals, which count once a season, at most that sum. */
  lemma {:induction false} AliasingCommutes(seasons: seq<SeasonInput>, aliases: Aliases, owners: set<string>, c: string, x: Metric)
    requires MergedAliases(aliases) && CoversAll(owners, seasons)
    ensures RollupTally(CanonicalSeasons(seasons, aliases), c, x) <= FiberSum(owners, Regroup(aliases), c, RawTotals(seasons, x))
    ensures Additive(x) ==>
      RollupTally(CanonicalSeasons(seasons, aliases), c, x) == FiberSum(owners, Regroup(aliases), c, RawTotals(seasons, x))
    decreases |seasons|
  {
    var f := Regroup(aliases);
    var all := RawTotals(seasons, x);
    if seasons == [] {
      FiberSumZero(owners, f, c, all);
    } else {
      var n := |seasons| - 1;
      var init, last := seasons[..n], seasons[n];
      AliasingCommutes(init, aliases, owners, c, x);
      AliasedSeasonTally(last, aliases, owners, c, x);
      var g := RawTotals(init, x);
      var h := k => SeasonTally(Raw(last), k, x);
      FiberSumPlus(owners, f, c, g, h, all);
    }
  }

  /** The condition on "Unknown" is needed: blank owners are never renamed but share the entry of
      a literal "Unknown", so once that name is an alias one unnamed team is enough to differ. */
  lemma {:induction false} RemappedUnknownFails(aliases: Aliases) returns (seasons: seq<SeasonInput>, owners: set<string>)
    requires Flat(aliases) && !KeepsUnknown(aliases)
    ensures CoversAll(owners, seasons)
    ensures RollupTally(CanonicalSeasons(seasons, aliases), "Unknown", Seasons) == 1
    ensures FiberSum(owners, Regroup(aliases), "Unknown", RawTotals(seasons, Seasons)) == 0
  {
    var season := SeasonInput(0, [TeamInput("", 0, 0, 0, 0, 0, 0)], []);
    seasons, owners := [season], {"Unknown"};
    var raw, all := Raw(season), RawTotals(seasons, Seasons);
    assert CanonicalSeasons(seasons, aliases) == [Canonical(season, aliases)];
    UnnamedTeam(season, aliases);
    RollupOfOne(Canonical(season, aliases), "Unknown", Seasons);
    FiberSumTakeOut(owners, Regroup(aliases), "Unknown", all, "Unknown");
    assert owners - {"Unknown"} == {};
  }

  /** Whatever the seasons, every additive total of a canonical owner is the sum over the raw owners it stands for. */
  ghost predicate TotalsMerge(aliases: Aliases) {
    forall seasons, owners, c, x :: CoversAll(owners, seasons) && Additive(x) ==>
      RollupTally(CanonicalSeasons(seasons, aliases), c, x) == FiberSum(owners, Regroup(aliases), c, RawTotals(seasons, x))
  }

  /** For a flat alias map the totals merge if and only if the map does not rename "Unknown". */
  lemma {:induction false} TotalsMergeExactly(aliases: Aliases)
    requires Flat(aliases)
    ensures TotalsMerge(aliases) <==> KeepsUnknown(aliases)
  {
    if KeepsUnknown(aliases) {
      forall seasons, owners, c, x | CoversAll(owners, seasons) && Additive(x)
        ensures RollupTally(CanonicalSeasons(seasons, aliases), c, x) == FiberSum(owners, Regroup(aliases), c, RawTotals(seasons, x))
      {
        AliasingCommutes(seasons, aliases, owners, c, x);
      }
    } else {
      var seasons, owners := RemappedUnknownFails(aliases);
      assert Additive(Seasons);
    }
  }

  /** A name the rollup does not tell from a literal "Unknown": it cleans to nothing, or means that. */
  predicate Nameless(owner: string, aliases: Aliases) {
    Clean(owner) == "" || NormalizeOwner(owner, aliases) == "Unknown"
  }

  /** Two owners are counted in one entry if and only if they have one canonical name or both are nameless. */
  lemma {:induction false} CountedTogether(a: string, b: string, aliases: Aliases)
    requires Flat(aliases)
    ensures Key(NormalizeOwner(a, aliases)) == Key(NormalizeOwner(b, aliases)) <==>
      NormalizeOwner(a, aliases) == NormalizeOwner(b, aliases) || (Nameless(a, aliases) && Nameless(b, aliases))
  {
    NormalizeOwnerOnFlatMap(a, aliases);
    NormalizeOwnerOnFlatMap(b, aliases);
  }

  lemma {:induction false} UnnamedTeam(season: SeasonInput, aliases: Aliases)
    requires Flat(aliases) && season.teams == [TeamInput("", 0, 0, 0, 0, 0, 0)] && season.matchups == []
    ensures SeasonTally(Canonical(season, aliases), "Unknown", Seasons) == 1
    ensures Covers({"Unknown"}, Raw(season))
  {
    CleanOfEmpty();
    NormalizeOwnerOnFlatMap("", aliases);
    assert NormalizeOwner("", map[]) == "";
    assert Canonical(season, aliases).teams == season.teams && Canonical(season, aliases).matchups == [];
    OneBlankTeam(Canonical(season, aliases), season.teams[0]);
  }

  lemma {:induction false} OneBlankTeam(season: SeasonInput, t: TeamInput)
    requires season.teams == [t] && season.matchups == [] && t.owner == ""
    ensures SeasonTally(season, "Unknown", Seasons) == 1
  {
    assert TeamCredits(season.teams[..0]) == [];
    assert Credits(season) == TeamCredit(t);
    SumOfSix(TeamCredit(t), "Unknown", Seasons);
  }

  // ---- conservation over all seasons ----

  predicate DecidedPlayoffGame(m: MatchupInput) {
    BothPresent(m) && InWinnersBracket(m) && ResultWinner(m) != WinnerUnknown
  }

  function DecidedGames(ms: seq<MatchupInput>): nat {
    if ms == [] then 0 else DecidedGames(ms[..|ms| - 1]) + if DecidedPlayoffGame(ms[|ms| - 1]) then 1 else 0
  }

  function SumTeams(teams: seq<TeamInput>, part: TeamInput -> int): int {
    if teams == [] then 0 else SumTeams(teams[..|teams| - 1], part) + part(teams[|teams| - 1])
  }

  /** The season has a championship won by a named owner. */
  predicate Crowned(ms: seq<MatchupInput>) {
    Championship(ms).Some? && WinnerOwner(Championship(ms).value) != ""
  }

  function TeamPart(x: Metric): TeamInput -> int {
    match x
    case Seasons => t => 1
    case Wins => (t: TeamInput) => t.wins
    case Losses => (t: TeamInput) => t.losses
    case Ties => (t: TeamInput) => t.ties
    case PointsFor => (t: TeamInput) => t.pointsFor
    case PointsAgainst => (t: TeamInput) => t.pointsAgainst
    case _ => t => 0
  }

  /** What the inputs of one season hold of each additive metric. */
  function SeasonInputs(season: SeasonInput, x: Metric): int {
    match x
    case Seasons => |season.teams|
    case Titles => if Crowned(season.matchups) then 1 else 0
    case PlayoffWins => DecidedGames(season.matchups)
    case PlayoffLosses => DecidedGames(season.matchups)
    case _ => SumTeams(season.teams, TeamPart(x))
  }

  function AllInputs(seasons: seq<SeasonInput>, x: Metric): int {
    if seasons == [] then 0 else AllInputs(seasons[..|seasons| - 1], x) + SeasonInputs(seasons[|seasons| - 1], x)
  }

  lemma {:induction false} TotalConcat(a: seq<Credit>, b: seq<Credit>, x: Metric)
    ensures Total(a + b, x) == Total(a, x) + Total(b, x)
    decreases |b|
  {
    if b == [] {
      assert a + b == a;
    } else {
      TotalConcat(a, b[..|b| - 1], x);
      assert (a + b)[..|a + b| - 1] == a + b[..|b| - 1];
    }
  }

  lemma {:induction false} TotalOne(c: Credit, x: Metric)
    ensures Total([c], x) == if c.metric == x then c.value else 0
  {
    assert [c][..0] == [];
  }

  lemma {:induction false} TotalTwo(c: Credit, d: Credit, x: Metric)
    ensures Total([c, d], x) == (if c.metric == x then c.value else 0) + (if d.metric == x then d.value else 0)
  {
    TotalOne(c, x);
    assert [c, d][..1] == [c];
  }

  lemma {:induction false} TotalOfTeam(t: TeamInput, x: Metric)
    ensures Total(TeamCredit(t), x) == TeamPart(x)(t)
  {
    var c := TeamCredit(t);
    TotalTwo(c[0], c[1], x);
    TotalTwo(c[2], c[3], x);
    TotalTwo(c[4], c[5], x);
    TotalConcat([c[0], c[1]], [c[2], c[3]], x);
    TotalConcat([c[0], c[1]] + [c[2], c[3]], [c[4], c[5]], x);
    assert c == [c[0], c[1]] + [c[2], c[3]] + [c[4], c[5]];
  }

  lemma {:induction false} TotalOfTeams(teams: seq<TeamInput>, x: Metric)
    ensures Total(TeamCredits(teams), x) == SumTeams(teams, TeamPart(x))
    decreases |teams|
  {
    if teams != [] {
      var n := |teams| - 1;
      TotalOfTeams(teams[..n], x);
      TotalConcat(TeamCredits(teams[..n]), TeamCredit(teams[n]), x);
      TotalOfTeam(teams[n], x);
    }
  }

  lemma {:induction false} CountTeams(teams: seq<TeamInput>, part: TeamInput -> int, k: int)
    requires forall t :: part(t) == k
    ensures SumTeams(teams, part) == k * |teams|
    decreases |teams|
  {
    if teams != [] {
      CountTeams(teams[..|teams| - 1], part, k);
    }
  }

  lemma {:induction false} TotalOfGames(ms: seq<MatchupInput>, x: Metric)
    ensures Total(GameCredits(ms), x) == if x == PlayoffWins || x == PlayoffLosses then DecidedGames(ms) else 0
    decreases |ms|
  {
    if ms != [] {
      var n := |ms| - 1;
      TotalOfGames(ms[..n], x);
      TotalConcat(GameCredits(ms[..n]), GameCredit(ms[n]), x);
      var c := GameCredit(ms[n]);
      if c != [] {
        TotalTwo(c[0], c[1], x);
        assert c == [c[0], c[1]];
      }
    }
  }

  lemma {:induction false} TotalOfSeason(season: SeasonInput, x: Metric)
    ensures Total(Credits(season), x) == SeasonInputs(season, x)
  {
    TotalOfTeams(season.teams, x);
    TotalOfGames(season.matchups, x);
    var title := TitleCredits(season.matchups);
    if title != [] {
      TotalOne(title[0], x);
      assert title == [title[0]];
    }
    TotalConcat(TeamCredits(season.teams), title, x);
    TotalConcat(TeamCredits(season.teams) + title, GameCredits(season.matchups), x);
    match x
    case Seasons => CountTeams(season.teams, TeamPart(x), 1);
    case Titles => CountTeams(season.teams, TeamPart(x), 0);
    case PlayoffWins => CountTeams(season.teams, TeamPart(x), 0);
    case PlayoffLosses => CountTeams(season.teams, TeamPart(x), 0);
    case _ =>
  }

  ghost predicate CoversCanonical(owners: set<string>, seasons: seq<SeasonInput>) {
    forall s :: s in seasons ==> Covers(owners, s)
  }

  /** Nothing is created or lost: over all owners, each additive metric sums to what the inputs
      hold. In particular playoff wins and playoff losses both sum to the decided winners-bracket
      games, and titles to the crowned seasons. */
  lemma {:induction false} RollupConserves(seasons: seq<SeasonInput>, owners: set<string>, x: Metric)
    requires CoversCanonical(owners, seasons) && Additive(x)
    ensures SumOver(owners, k => RollupTally(seasons, k, x)) == AllInputs(seasons, x)
    decreases |seasons|
  {
    var all := k => RollupTally(seasons, k, x);
    var f := (k: string) => "";
    if seasons == [] {
      FiberSumZero(owners, f, "", all);
    } else {
      var n := |seasons| - 1;
      var init, last := seasons[..n], seasons[n];
      RollupConserves(init, owners, x);
      SeasonOwnersWithin(last, owners);
      SumOverCredits(Credits(last), owners, x);
      TotalOfSeason(last, x);
      var g := k => RollupTally(init, k, x);
      var h := k => Sum(Credits(last), k, x);
      FiberSumPlus(owners, f, "", g, h, all);
    }
  }

  // ---- bounds ----

  lemma {:induction false} NoCredit(credits: seq<Credit>, o: string, x: Metric)
    requires forall c :: c in credits ==> c.metric != x
    ensures Sum(credits, o, x) == 0
    decreases |credits|
  {
    if credits != [] {
      var n := |credits| - 1;
      assert credits[n] in credits;
      NoCredit(credits[..n], o, x);
    }
  }

  lemma {:induction false} TeamMetrics(teams: seq<TeamInput>)
    ensures forall c :: c in TeamCredits(teams) ==> c.metric in {Seasons, Wins, Losses, Ties, PointsFor, PointsAgainst}
    decreases |teams|
  {
    if teams != [] { TeamMetrics(teams[..|teams| - 1]); }
  }

  lemma {:induction false} GameMetrics(ms: seq<MatchupInput>)
    ensures forall c :: c in GameCredits(ms) ==> c.metric in {PlayoffWins, PlayoffLosses}
    decreases |ms|
  {
    if ms != [] { GameMetrics(ms[..|ms| - 1]); }
  }

  lemma {:induction false} NoTeamCredit(teams: seq<TeamInput>, o: string, x: Metric)
    requires x.Titles? || x.Trips? || x.Finals?
    ensures Sum(TeamCredits(teams), o, x) == 0
  {
    TeamMetrics(teams);
    NoCredit(TeamCredits(teams), o, x);
  }

  lemma {:induction false} NoGameCredit(ms: seq<MatchupInput>, o: string, x: Metric)
    requires x.Titles? || x.Trips? || x.Finals?
    ensures Sum(GameCredits(ms), o, x) == 0
  {
    GameMetrics(ms);
    NoCredit(GameCredits(ms), o, x);
  }

  lemma {:induction false} SumOfParts(a: seq<Credit>, b: seq<Credit>, c: seq<Credit>, o: string, x: Metric)
    ensures Sum(a + b + c, o, x) == Sum(a, o, x) + Sum(b, o, x) + Sum(c, o, x)
  {
    SumConcat(a, b, o, x);
    SumConcat(a + b, c, o, x);
  }

  /** Teams and games credit no titles, trips or finals. */
  lemma {:induction false} OnlyTitleCredits(season: SeasonInput, o: string, x: Metric)
    requires x.Titles? || x.Trips? || x.Finals?
    ensures Sum(Credits(season), o, x) == Sum(TitleCredits(season.matchups), o, x)
  {
    SumOfParts(TeamCredits(season.teams), TitleCredits(season.matchups), GameCredits(season.matchups), o, x);
    NoTeamCredit(season.teams, o, x);
    NoGameCredit(season.matchups, o, x);
  }

  lemma {:induction false} TitleSum(ms: seq<MatchupInput>, o: string, x: Metric)
    ensures 0 <= Sum(TitleCredits(ms), o, x) <= 1
    ensures !x.Titles? ==> Sum(TitleCredits(ms), o, x) == 0
    ensures Sum(TitleCredits(ms), o, x) > 0 ==> IsFinalist(ms, o)
  {
    if Crowned(ms) {
      SumOfOne(Credit(WinnerOwner(Championship(ms).value), Titles, 1), o, x);
    }
  }

  /** Of titles, trips and finals a season gives an owner at most one; a title only to a finalist. */
  lemma {:induction false} SeasonBounds(season: SeasonInput, o: string)
    ensures 0 <= SeasonTally(season, o, Titles) <= SeasonTally(season, o, Finals) <= 1
    ensures 0 <= SeasonTally(season, o, Trips) <= 1
  {
    OnlyTitleCredits(season, o, Titles);
    OnlyTitleCredits(season, o, Trips);
    OnlyTitleCredits(season, o, Finals);
    TitleSum(season.matchups, o, Titles);
    TitleSum(season.matchups, o, Trips);
    TitleSum(season.matchups, o, Finals);
  }

  /** Titles never exceed finals, so title conversion lies between 0 and 1; trips and finals
      never exceed the number of seasons. */
  lemma {:induction false} RollupBounds(seasons: seq<SeasonInput>, o: string)
    ensures 0 <= RollupTally(seasons, o, Titles) <= RollupTally(seasons, o, Finals) <= |seasons|
    ensures 0 <= RollupTally(seasons, o, Trips) <= |seasons|
    decreases |seasons|
  {
    if seasons != [] {
      RollupBounds(seasons[..|seasons| - 1], o);
      SeasonBounds(seasons[|seasons| - 1], o);
    }
  }
}
