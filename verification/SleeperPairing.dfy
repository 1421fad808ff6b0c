/** Pairing Sleeper's one-row-per-roster data into games (`normalizeSleeperMatchups`
    in `cmd/api/matchups.go`), and exactly when the pairing is sound. */
module SleeperPairing {
  import opened Results
  import opened SortedStrings

  /** A row of the matchups table. */
  datatype Matchup = Matchup(
    week: int,
    matchupID: int,
    rosterID: int,
    opponent: Option<int>,
    points: string,
    customPoints: Option<string>,
    isPlayoff: bool,
    matchupType: string)

  /** Two rows played as one game, or a single row with nobody to play. */
  datatype Game = Game(home: Matchup, away: Option<Matchup>)

  type Key = (int, int, int)

  function KeyOf(row: Matchup): Key {
    (row.week, row.matchupID, row.rosterID)
  }

  predicate SameGroup(a: Matchup, b: Matchup) {
    a.week == b.week && a.matchupID == b.matchupID
  }

  // ---- the code's choices, as functions of the row list ----

  /** `rowsByKey`: a later row with the same key replaces an earlier one. */
  function RowsByKey(rows: seq<Matchup>): map<Key, Matchup> {
    if rows == [] then map[]
    else RowsByKey(rows[..|rows| - 1])[KeyOf(rows[|rows| - 1]) := rows[|rows| - 1]]
  }

  function LinkKey(row: Matchup): Key
    requires row.opponent.Some?
  {
    (row.week, row.matchupID, row.opponent.value)
  }

  predicate IsOther(candidate: Matchup, row: Matchup) {
    SameGroup(candidate, row) && candidate.rosterID != row.rosterID
  }

  function FirstOther(rows: seq<Matchup>, row: Matchup): Option<Matchup> {
    if rows == [] then None
    else if IsOther(rows[0], row) then Some(rows[0])
    else FirstOther(rows[1..], row)
  }

  /** The row the code takes as the opponent of `row`. */
  function OpponentOf(rows: seq<Matchup>, row: Matchup): Option<Matchup> {
    var byKey := RowsByKey(rows);
    if row.opponent.Some? && LinkKey(row) in byKey then Some(byKey[LinkKey(row)])
    else if row.matchupID > 0 then FirstOther(rows, row)
    else None
  }

  /** The lower roster id is at home; with equal ids, the row being handled. */
  function MakeGame(row: Matchup, opponent: Option<Matchup>): Game {
    if opponent.Some? && opponent.value.rosterID < row.rosterID then Game(opponent.value, Some(row))
    else Game(row, opponent)
  }

  function Handle(handled: set<Key>, row: Matchup, opponent: Option<Matchup>): set<Key> {
    (if opponent.Some? then handled + {KeyOf(opponent.value)} else handled) + {KeyOf(row)}
  }

  /** The games made from the rows from position `i` on. */
  function GamesFrom(rows: seq<Matchup>, i: nat, handled: set<Key>): seq<Game>
    decreases |rows| - i
  {
    if i >= |rows| then []
    else if KeyOf(rows[i]) in handled then GamesFrom(rows, i + 1, handled)
    else
      var opponent := OpponentOf(rows, rows[i]);
      [MakeGame(rows[i], opponent)] + GamesFrom(rows, i + 1, Handle(handled, rows[i], opponent))
  }

  function Games(rows: seq<Matchup>): seq<Game> {
    GamesFrom(rows, 0, {})
  }

  method PairRows(rows: seq<Matchup>) returns (games: seq<Game>)
    ensures games == Games(rows)
  {
    var rowsByKey: map<Key, Matchup> := map[];
    for i := 0 to |rows|
      invariant rowsByKey == RowsByKey(rows[..i])
    {
      rowsByKey := rowsByKey[KeyOf(rows[i]) := rows[i]];
      assert rows[..i + 1][..i] == rows[..i];
    }
    assert rows[..|rows|] == rows;

    var handled: set<Key> := {};
    games := [];
    for i := 0 to |rows|
      invariant games + GamesFrom(rows, i, handled) == Games(rows)
    {
      var row := rows[i];
      if KeyOf(row) !in handled {
        var opponent := ChooseOpponent(rows, rowsByKey, row);
        var home, away := row, opponent;
        if opponent.Some? && opponent.value.rosterID < row.rosterID {
          home, away := opponent.value, Some(row);
        }
        GamesFromStep(rows, i, handled, games);
        if opponent.Some? {
          handled := handled + {KeyOf(opponent.value)};
        }
        handled := handled + {KeyOf(row)};
        games := games + [Game(home, away)];
      }
    }
  }

  lemma {:induction false} GamesFromStep(rows: seq<Matchup>, i: nat, handled: set<Key>, games: seq<Game>)
    requires i < |rows| && KeyOf(rows[i]) !in handled
    ensures var opponent := OpponentOf(rows, rows[i]);
      games + GamesFrom(rows, i, handled) ==
        games + [MakeGame(rows[i], opponent)] + GamesFrom(rows, i + 1, Handle(handled, rows[i], opponent))
  {
  }

  method ChooseOpponent(rows: seq<Matchup>, rowsByKey: map<Key, Matchup>, row: Matchup) returns (opponent: Option<Matchup>)
    requires rowsByKey == RowsByKey(rows)
    ensures opponent == OpponentOf(rows, row)
  {
    opponent := None;
    if row.opponent.Some? && LinkKey(row) in rowsByKey {
      opponent := Some(rowsByKey[LinkKey(row)]);
    }
    if opponent.None? && row.matchupID > 0 {
      opponent := FindOther(rows, row);
    }
  }

  method FindOther(rows: seq<Matchup>, row: Matchup) returns (found: Option<Matchup>)
    ensures found == FirstOther(rows, row)
  {
    for k := 0 to |rows|
      invariant FirstOther(rows, row) == FirstOther(rows[k..], row)
    {
      if SameGroup(rows[k], row) && rows[k].rosterID != row.rosterID {
        return Some(rows[k]);
      }
      assert rows[k..][1..] == rows[k + 1..];
    }
    return None;
  }

  // ---- what pairing should do ----

  /** The rows that take part in the games, with repetition. */
  function Participants(games: seq<Game>): seq<Matchup> {
    if games == [] then []
    else
      var g := games[0];
      [g.home] + (if g.away.Some? then [g.away.value] else []) + Participants(games[1..])
  }

  /** Every row is in exactly one game, once, and nothing else is. */
  ghost predicate Covers(games: seq<Game>, rows: seq<Matchup>) {
    multiset(Participants(games)) == multiset(rows)
  }

  /** The database's uniqueness constraint on (week, matchup, roster) within a league. */
  ghost predicate DistinctKeys(rows: seq<Matchup>) {
    forall i, j :: 0 <= i < j < |rows| ==> KeyOf(rows[i]) != KeyOf(rows[j])
  }

  /** `o` is the row that `r` names as its opponent. */
  predicate Links(r: Matchup, o: Matchup) {
    SameGroup(r, o) && r.opponent == Some(o.rosterID)
  }

  ghost predicate Linked(rows: seq<Matchup>, r: Matchup) {
    exists o :: o in rows && Links(r, o)
  }

  /** In some order of the rows, `r` is given `o` as its opponent. */
  ghost predicate MayFace(rows: seq<Matchup>, r: Matchup, o: Matchup) {
    o in rows && if Linked(rows, r) then Links(r, o) else r.matchupID > 0 && IsOther(o, r)
  }

  /** The condition for sound pairing, readable off the rows: whoever a row may face is another
      row, is the only one it may face, and may face it in return. It rules out a row naming
      itself, one-sided links, and a third row in a group that links do not settle. */
  ghost predicate Pairable(rows: seq<Matchup>) {
    forall r, o :: r in rows && MayFace(rows, r, o) ==>
      r != o && MayFace(rows, o, r) && forall p :: MayFace(rows, r, p) ==> p == o
  }

  // ---- reading the choices off the row set ----

  lemma {:induction false} SameKeySameRow(rows: seq<Matchup>, a: Matchup, b: Matchup)
    requires DistinctKeys(rows) && a in rows && b in rows && KeyOf(a) == KeyOf(b)
    ensures a == b
  {
    var i :| 0 <= i < |rows| && rows[i] == a;
    var j :| 0 <= j < |rows| && rows[j] == b;
  }

  lemma {:induction false} ByKeyFinds(rows: seq<Matchup>, k: Key)
    ensures k in RowsByKey(rows) <==> exists o :: o in rows && KeyOf(o) == k
    ensures k in RowsByKey(rows) ==> RowsByKey(rows)[k] in rows && KeyOf(RowsByKey(rows)[k]) == k
    decreases |rows|
  {
    if rows != [] {
      var init, last := rows[..|rows| - 1], rows[|rows| - 1];
      assert rows == init + [last];
      ByKeyFinds(init, k);
      if o :| o in rows && KeyOf(o) == k {
        assert o in init || o == last;
      }
      if o :| o in init && KeyOf(o) == k {
        assert o in rows;
      }
      assert last in rows;
    }
  }

  lemma {:induction false} FirstOtherFinds(rows: seq<Matchup>, row: Matchup)
    ensures FirstOther(rows, row).Some? <==> exists o :: o in rows && IsOther(o, row)
    ensures FirstOther(rows, row).Some? ==> FirstOther(rows, row).value in rows && IsOther(FirstOther(rows, row).value, row)
    decreases |rows|
  {
    if rows != [] {
      FirstOtherFinds(rows[1..], row);
      assert rows == [rows[0]] + rows[1..];
    }
  }

  /** The opponent the code picks is one the row may face; it picks none only if there is none. */
  lemma {:induction false} OpponentMayFace(rows: seq<Matchup>, row: Matchup)
    requires DistinctKeys(rows)
    ensures OpponentOf(rows, row).Some? ==> MayFace(rows, row, OpponentOf(rows, row).value)
    ensures OpponentOf(rows, row).None? ==> forall o :: !MayFace(rows, row, o)
  {
    FirstOtherFinds(rows, row);
    if row.opponent.Some? {
      var k := LinkKey(row);
      ByKeyFinds(rows, k);
      assert forall o :: KeyOf(o) == k <==> Links(row, o);
      if k in RowsByKey(rows) {
        assert Linked(rows, row);
      }
    } else {
      assert !Linked(rows, row);
    }
  }

  lemma {:induction false} LinkedFacesOne(rows: seq<Matchup>, row: Matchup, o: Matchup, p: Matchup)
    requires DistinctKeys(rows) && Linked(rows, row) && MayFace(rows, row, o) && MayFace(rows, row, p)
    ensures o == p
  {
    SameKeySameRow(rows, o, p);
  }

  /** How Sleeper fills the table: nobody plays itself, a positive matchup id groups at most two
      rosters a week, and outside such groups opponents name each other. */
  ghost predicate WellFilled(rows: seq<Matchup>) {
    && (forall r :: r in rows ==> r.opponent != Some(r.rosterID))
    && (forall r, o, p :: r in rows && o in rows && p in rows && r.matchupID > 0 && IsOther(o, r) && IsOther(p, r) ==> o.rosterID == p.rosterID)
    && (forall r, o :: r in rows && o in rows && r.matchupID <= 0 && Links(r, o) ==> Links(o, r))
  }

  lemma {:induction false} WellFilledIsPairable(rows: seq<Matchup>)
    requires DistinctKeys(rows) && WellFilled(rows)
    ensures Pairable(rows)
  {
    forall r, o | r in rows && MayFace(rows, r, o)
      ensures r != o && MayFace(rows, o, r) && forall p :: MayFace(rows, r, p) ==> p == o
    {
      FacesOther(rows, r, o);
      FacesOther(rows, o, r);
      forall p | MayFace(rows, r, p) ensures p == o {
        if Linked(rows, r) {
          LinkedFacesOne(rows, r, o, p);
        } else {
          SameKeySameRow(rows, o, p);
        }
      }
    }
  }

  /** In a well-filled table facing is mutual. */
  lemma {:induction false} FacesOther(rows: seq<Matchup>, r: Matchup, o: Matchup)
    requires DistinctKeys(rows) && WellFilled(rows) && r in rows && o in rows
    ensures MayFace(rows, r, o) ==> IsOther(o, r) && MayFace(rows, o, r)
  {
    if MayFace(rows, r, o) && r.matchupID > 0 && Linked(rows, o) {
      var p :| p in rows && Links(o, p);
      assert IsOther(p, o) && IsOther(r, o);
      SameKeySameRow(rows, p, r);
    }
  }

  // ---- sound when pairable ----

  /** The rows handled so far: the participants of the games so far, closed under "plays against". */
  ghost predicate HandledSoFar(rows: seq<Matchup>, games: seq<Game>, handled: set<Key>, i: nat) {
    && (forall r :: r in rows ==> (KeyOf(r) in handled <==> r in Participants(games)))
    && (forall r :: r in Participants(games) ==> r in rows)
    && Distinct(Participants(games))
    && (forall r, o :: r in Participants(games) && MayFace(rows, r, o) ==> o in Participants(games))
    && (forall k :: 0 <= k < i && k < |rows| ==> rows[k] in Participants(games))
  }

  lemma {:induction false} ParticipantsConcat(a: seq<Game>, b: seq<Game>)
    ensures Participants(a + b) == Participants(a) + Participants(b)
    decreases |a|
  {
    if a == [] {
      assert a + b == b;
    } else {
      ParticipantsConcat(a[1..], b);
      assert (a + b)[1..] == a[1..] + b;
    }
  }

  ghost function Sides(row: Matchup, opponent: Option<Matchup>): set<Matchup> {
    if opponent.Some? then {row, opponent.value} else {row}
  }

  lemma {:induction false} ParticipantsGrow(games: seq<Game>, row: Matchup, opponent: Option<Matchup>)
    requires opponent.Some? ==> opponent.value != row
    requires Distinct(Participants(games)) && forall x :: x in Sides(row, opponent) ==> x !in Participants(games)
    ensures var games' := games + [MakeGame(row, opponent)];
      && Distinct(Participants(games'))
      && forall x :: x in Participants(games') <==> x in Participants(games) || x in Sides(row, opponent)
  {
    var g := MakeGame(row, opponent);
    ParticipantsConcat(games, [g]);
    var q := [g.home] + (if g.away.Some? then [g.away.value] else []);
    assert Participants([g]) == q + Participants([g][1..]) == q;
    var before := Participants(games);
    var all := before + q;
    forall x ensures x in all <==> x in before || x in Sides(row, opponent) {
      assert x in q <==> x in Sides(row, opponent);
    }
    forall i, j | 0 <= i < j < |all| ensures all[i] != all[j] {
      if i < |before| <= j {
        assert all[i] in before && all[j] in q && all[j] in Sides(row, opponent);
      }
    }
  }

  lemma {:induction false} HandledGrows(rows: seq<Matchup>, games: seq<Game>, handled: set<Key>, i: nat)
    requires DistinctKeys(rows) && Pairable(rows) && i < |rows|
    requires HandledSoFar(rows, games, handled, i) && KeyOf(rows[i]) !in handled
    ensures var opponent := OpponentOf(rows, rows[i]);
      HandledSoFar(rows, games + [MakeGame(rows[i], opponent)], Handle(handled, rows[i], opponent), i + 1)
  {
    var row := rows[i];
    var opponent := OpponentOf(rows, row);
    var sides := Sides(row, opponent);
    OpponentMayFace(rows, row);
    assert row in rows && row !in Participants(games);
    if opponent.Some? {
      var o := opponent.value;
      assert MayFace(rows, row, o) && MayFace(rows, o, row);
      assert o in Participants(games) ==> row in Participants(games);
    }
    ParticipantsGrow(games, row, opponent);
    var games' := games + [MakeGame(row, opponent)];
    var handled' := Handle(handled, row, opponent);
    assert forall x :: x in sides ==> x in rows;
    forall r | r in rows ensures KeyOf(r) in handled' <==> r in Participants(games') {
      if KeyOf(r) == KeyOf(row) { SameKeySameRow(rows, r, row); }
      if opponent.Some? && KeyOf(r) == KeyOf(opponent.value) { SameKeySameRow(rows, r, opponent.value); }
    }
    forall r, o | r in Participants(games') && MayFace(rows, r, o) ensures o in Participants(games') {
      if r in sides {
        FacesWithin(rows, row, opponent, r, o);
      }
    }
  }

  lemma {:induction false} FacesWithin(rows: seq<Matchup>, row: Matchup, opponent: Option<Matchup>, r: Matchup, o: Matchup)
    requires DistinctKeys(rows) && Pairable(rows) && row in rows && opponent == OpponentOf(rows, row)
    requires r in Sides(row, opponent) && MayFace(rows, r, o)
    ensures o in Sides(row, opponent)
  {
    OpponentMayFace(rows, row);
    if r != row {
      assert MayFace(rows, row, r) && MayFace(rows, r, row);
    }
  }

  ghost predicate ListsEachOnce(games: seq<Game>, rows: seq<Matchup>) {
    Distinct(Participants(games)) && forall r :: r in Participants(games) <==> r in rows
  }

  lemma {:induction false} AllHandled(rows: seq<Matchup>, games: seq<Game>, handled: set<Key>)
    requires HandledSoFar(rows, games, handled, |rows|)
    ensures ListsEachOnce(games, rows)
  {
    forall r | r in rows ensures r in Participants(games) {
      var k :| 0 <= k < |rows| && rows[k] == r;
    }
  }

  lemma {:induction false} SkippedIsHandled(rows: seq<Matchup>, games: seq<Game>, handled: set<Key>, i: nat)
    requires i < |rows| && HandledSoFar(rows, games, handled, i) && KeyOf(rows[i]) in handled
    ensures HandledSoFar(rows, games, handled, i + 1)
  {
    assert rows[i] in rows;
  }

  lemma {:induction false} GamesFromSound(rows: seq<Matchup>, games: seq<Game>, handled: set<Key>, i: nat)
    requires DistinctKeys(rows) && Pairable(rows) && i <= |rows| && HandledSoFar(rows, games, handled, i)
    ensures ListsEachOnce(games + GamesFrom(rows, i, handled), rows)
    decreases |rows| - i
  {
    if i == |rows| {
      assert games + [] == games;
      AllHandled(rows, games, handled);
    } else if KeyOf(rows[i]) in handled {
      SkippedIsHandled(rows, games, handled, i);
      GamesFromSound(rows, games, handled, i + 1);
    } else {
      HandledGrows(rows, games, handled, i);
      var opponent := OpponentOf(rows, rows[i]);
      GamesFromSound(rows, games + [MakeGame(rows[i], opponent)], Handle(handled, rows[i], opponent), i + 1);
      GamesFromStep(rows, i, handled, games);
    }
  }

  lemma {:induction false} DistinctSameElements<T>(s: seq<T>, t: seq<T>)
    requires Distinct(s) && Distinct(t) && forall x :: x in s <==> x in t
    ensures multiset(s) == multiset(t)
  {
    forall x ensures multiset(s)[x] == multiset(t)[x] {
      OncePresent(s, x);
      OncePresent(t, x);
      assert x in multiset(s) <==> x in s;
      assert x in multiset(t) <==> x in t;
    }
  }

  lemma {:induction false} DistinctKeysDistinctRows(rows: seq<Matchup>)
    requires DistinctKeys(rows)
    ensures Distinct(rows)
  {
  }

  lemma {:induction false} PairableCovers(rows: seq<Matchup>)
    requires DistinctKeys(rows) && Pairable(rows)
    ensures Distinct(Participants(Games(rows)))
    ensures Covers(Games(rows), rows)
  {
    assert HandledSoFar(rows, [], {}, 0);
    GamesFromSound(rows, [], {}, 0);
    assert [] + GamesFrom(rows, 0, {}) == Games(rows);
    DistinctKeysDistinctRows(rows);
    DistinctSameElements(Participants(Games(rows)), rows);
  }

  // ---- order does not matter ----

  lemma {:induction false} ReorderKeepsKeys(rows: seq<Matchup>, perm: seq<Matchup>)
    requires DistinctKeys(rows) && multiset(perm) == multiset(rows)
    ensures DistinctKeys(perm)
    ensures forall r :: r in perm <==> r in rows
  {
    assert forall r :: r in perm <==> r in multiset(perm);
    assert forall r :: r in rows <==> r in multiset(rows);
    DistinctKeysDistinctRows(rows);
    DistinctArrangement(rows, perm);
    forall i, j | 0 <= i < j < |perm| ensures KeyOf(perm[i]) != KeyOf(perm[j]) {
      if KeyOf(perm[i]) == KeyOf(perm[j]) {
        assert perm[i] in rows && perm[j] in rows;
        SameKeySameRow(rows, perm[i], perm[j]);
      }
    }
  }

  lemma {:induction false} ReorderKeepsFacing(rows: seq<Matchup>, perm: seq<Matchup>)
    requires forall r :: r in perm <==> r in rows
    ensures forall r, o :: MayFace(perm, r, o) <==> MayFace(rows, r, o)
    ensures Pairable(perm) <==> Pairable(rows)
  {
    forall r ensures Linked(perm, r) <==> Linked(rows, r) {
      if o :| o in rows && Links(r, o) { assert o in perm; }
      if o :| o in perm && Links(r, o) { assert o in rows; }
    }
    assert forall r, o :: MayFace(perm, r, o) <==> MayFace(rows, r, o);
  }

  /** `g` is the game of some row and whoever it may face. */
  ghost predicate IsGame(rows: seq<Matchup>, g: Game) {
    exists r :: r in rows && IsGameOf(rows, r, g)
  }

  ghost predicate IsGameOf(rows: seq<Matchup>, r: Matchup, g: Game) {
    if exists o :: MayFace(rows, r, o) then exists o :: MayFace(rows, r, o) && g == MakeGame(r, Some(o))
    else g == MakeGame(r, None)
  }

  lemma {:induction false} MadeGameIsGame(rows: seq<Matchup>, r: Matchup)
    requires DistinctKeys(rows) && r in rows
    ensures IsGameOf(rows, r, MakeGame(r, OpponentOf(rows, r)))
  {
    OpponentMayFace(rows, r);
  }

  lemma {:induction false} GamesFromAreGames(rows: seq<Matchup>, i: nat, handled: set<Key>)
    requires DistinctKeys(rows)
    ensures forall g :: g in GamesFrom(rows, i, handled) ==> IsGame(rows, g)
    decreases |rows| - i
  {
    if i < |rows| {
      if KeyOf(rows[i]) in handled {
        GamesFromAreGames(rows, i + 1, handled);
      } else {
        var opponent := OpponentOf(rows, rows[i]);
        MadeGameIsGame(rows, rows[i]);
        assert rows[i] in rows;
        GamesFromAreGames(rows, i + 1, Handle(handled, rows[i], opponent));
      }
    }
  }

  predicate SideOf(g: Game, r: Matchup) {
    g.home == r || g.away == Some(r)
  }

  lemma {:induction false} ParticipantHasGame(games: seq<Game>, r: Matchup)
    ensures r in Participants(games) <==> exists g :: g in games && SideOf(g, r)
    decreases |games|
  {
    if games != [] {
      ParticipantHasGame(games[1..], r);
      assert games == [games[0]] + games[1..];
      if g :| g in games && SideOf(g, r) {
        assert g == games[0] || g in games[1..];
      }
      if SideOf(games[0], r) {
        assert games[0] in games;
      }
    }
  }

  lemma {:induction false} DistinctTail<T>(a: seq<T>, b: seq<T>)
    requires Distinct(a + b)
    ensures Distinct(b)
    ensures forall x :: x in a ==> x !in b
  {
    var s := a + b;
    forall i, j | 0 <= i < j < |b| ensures b[i] != b[j] {
      assert s[|a| + i] != s[|a| + j];
    }
    forall i, j | 0 <= i < |a| && 0 <= j < |b| ensures a[i] != b[j] {
      assert s[i] != s[|a| + j];
    }
  }

  lemma {:induction false} DistinctParticipantsDistinctGames(games: seq<Game>)
    requires Distinct(Participants(games))
    ensures Distinct(games)
    decreases |games|
  {
    if games != [] {
      var g, rest := games[0], games[1..];
      var q := [g.home] + (if g.away.Some? then [g.away.value] else []);
      DistinctTail(q, Participants(rest));
      DistinctParticipantsDistinctGames(rest);
      assert SideOf(g, g.home) && g.home in q;
      ParticipantHasGame(rest, g.home);
      assert games == [g] + rest;
    }
  }

  lemma {:induction false} GameFromEitherSide(rows: seq<Matchup>, r: Matchup, g: Game, side: Matchup)
    requires DistinctKeys(rows) && Pairable(rows) && r in rows && IsGameOf(rows, r, g) && SideOf(g, side)
    ensures side in rows && IsGameOf(rows, side, g)
  {
    if o :| MayFace(rows, r, o) {
      assert g == MakeGame(r, Some(o));
      assert MayFace(rows, o, r) && r != o;
      assert KeyOf(r) != KeyOf(o) by { if KeyOf(r) == KeyOf(o) { SameKeySameRow(rows, r, o); } }
      assert SameGroup(r, o);
      assert g == MakeGame(o, Some(r));
    }
  }

  lemma {:induction false} OneGamePerRow(rows: seq<Matchup>, r: Matchup, g: Game, h: Game)
    requires Pairable(rows) && r in rows && IsGameOf(rows, r, g) && IsGameOf(rows, r, h)
    ensures g == h
  {
  }

  /** The games made are exactly the games there are, each once. */
  lemma {:induction false} GamesAreAllGames(rows: seq<Matchup>)
    requires DistinctKeys(rows) && Pairable(rows)
    ensures Distinct(Games(rows))
    ensures forall g :: g in Games(rows) <==> IsGame(rows, g)
  {
    PairableCovers(rows);
    DistinctParticipantsDistinctGames(Games(rows));
    GamesFromAreGames(rows, 0, {});
    forall g | IsGame(rows, g) ensures g in Games(rows) {
      var r :| r in rows && IsGameOf(rows, r, g);
      assert r in multiset(rows);
      assert r in multiset(Participants(Games(rows)));
      ParticipantHasGame(Games(rows), r);
      var h :| h in Games(rows) && SideOf(h, r);
      var r' :| r' in rows && IsGameOf(rows, r', h);
      GameFromEitherSide(rows, r', h, r);
      OneGamePerRow(rows, r, g, h);
    }
  }

  /** When pairable, the games do not depend on the order of the rows. */
  lemma {:induction false} GamesOrderFree(rows: seq<Matchup>, perm: seq<Matchup>)
    requires DistinctKeys(rows) && Pairable(rows) && multiset(perm) == multiset(rows)
    ensures multiset(Games(perm)) == multiset(Games(rows))
  {
    ReorderKeepsKeys(rows, perm);
    ReorderKeepsFacing(rows, perm);
    GamesAreAllGames(rows);
    GamesAreAllGames(perm);
    forall g ensures g in Games(perm) <==> g in Games(rows) {
      SameGames(rows, perm, g);
    }
    DistinctSameElements(Games(perm), Games(rows));
  }

  lemma {:induction false} SameGames(rows: seq<Matchup>, perm: seq<Matchup>, g: Game)
    requires forall r :: r in perm <==> r in rows
    requires forall r, o :: MayFace(perm, r, o) <==> MayFace(rows, r, o)
    ensures IsGame(perm, g) <==> IsGame(rows, g)
  {
    forall r ensures IsGameOf(perm, r, g) <==> IsGameOf(rows, r, g) {
    }
  }

  /** The lower roster id is at home, and the two sides share week and matchup id. */
  lemma {:induction false} GamesAreWellMade(rows: seq<Matchup>, g: Game)
    requires DistinctKeys(rows) && Pairable(rows) && g in Games(rows) && g.away.Some?
    ensures SameGroup(g.home, g.away.value) && g.home.rosterID < g.away.value.rosterID
  {
    GamesFromAreGames(rows, 0, {});
    var r :| r in rows && IsGameOf(rows, r, g);
    var o :| MayFace(rows, r, o) && g == MakeGame(r, Some(o));
    if KeyOf(r) == KeyOf(o) { SameKeySameRow(rows, r, o); }
  }

  // ---- unsound otherwise ----

  ghost predicate SomeOrderFails(rows: seq<Matchup>) {
    exists perm: seq<Matchup> :: multiset(perm) == multiset(rows) && !Covers(Games(perm), perm)
  }

  lemma {:induction false} RepeatedParticipant(rows: seq<Matchup>, a: seq<Matchup>, b: seq<Matchup>, x: Matchup)
    requires DistinctKeys(rows) && Participants(Games(rows)) == a + b && x in a && x in b
    ensures !Covers(Games(rows), rows)
  {
    DistinctKeysDistinctRows(rows);
    OncePresent(rows, x);
    assert multiset(a + b)[x] == multiset(a)[x] + multiset(b)[x];
    assert x in multiset(a) && x in multiset(b);
  }

  lemma {:induction false} SplitGame(rows: seq<Matchup>, i: nat, handled: set<Key>)
    requires i < |rows| && KeyOf(rows[i]) !in handled
    ensures var opponent := OpponentOf(rows, rows[i]);
      var g := MakeGame(rows[i], opponent);
      Participants(GamesFrom(rows, i, handled)) ==
        [g.home] + (if g.away.Some? then [g.away.value] else []) + Participants(GamesFrom(rows, i + 1, Handle(handled, rows[i], opponent)))
  {
    var opponent := OpponentOf(rows, rows[i]);
    var rest := GamesFrom(rows, i + 1, Handle(handled, rows[i], opponent));
    assert GamesFrom(rows, i, handled)[1..] == rest;
  }

  /** The row handled first and a later unhandled row that picks one of its sides again. */
  lemma {:induction false} SidePickedAgain(rows: seq<Matchup>, i: nat, x: Matchup)
    requires DistinctKeys(rows) && 0 < i < |rows|
    requires forall k :: 0 < k < i ==> KeyOf(rows[k]) in Handle({}, rows[0], OpponentOf(rows, rows[0]))
    requires KeyOf(rows[i]) !in Handle({}, rows[0], OpponentOf(rows, rows[0]))
    requires x in Sides(rows[0], OpponentOf(rows, rows[0]))
    requires OpponentOf(rows, rows[i]) == Some(x)
    ensures !Covers(Games(rows), rows)
  {
    var opponent := OpponentOf(rows, rows[0]);
    var handled := Handle({}, rows[0], opponent);
    SplitGame(rows, 0, {});
    var g := MakeGame(rows[0], opponent);
    var first := [g.home] + (if g.away.Some? then [g.away.value] else []);
    assert x in first;
    SkipHandled(rows, 1, i, handled);
    SplitGame(rows, i, handled);
    var tail := Participants(GamesFrom(rows, i, handled));
    var h := MakeGame(rows[i], Some(x));
    assert SideOf(h, x);
    assert x in tail;
    RepeatedParticipant(rows, first, tail, x);
  }

  lemma {:induction false} SkipHandled(rows: seq<Matchup>, i: nat, j: nat, handled: set<Key>)
    requires i <= j <= |rows| && forall k :: i <= k < j ==> KeyOf(rows[k]) in handled
    ensures GamesFrom(rows, i, handled) == GamesFrom(rows, j, handled)
    decreases j - i
  {
    if i < j { SkipHandled(rows, i + 1, j, handled); }
  }

  lemma {:induction false} ToFront(rows: seq<Matchup>, x: Matchup) returns (perm: seq<Matchup>)
    requires x in rows
    ensures |perm| > 0 && perm[0] == x && multiset(perm) == multiset(rows)
    ensures multiset(perm[1..]) == multiset(rows) - multiset{x}
  {
    var i :| 0 <= i < |rows| && rows[i] == x;
    assert rows == rows[..i] + [x] + rows[i + 1..];
    perm := [x] + (rows[..i] + rows[i + 1..]);
    assert perm[1..] == rows[..i] + rows[i + 1..];
  }

  lemma {:induction false} ReorderTail(a: seq<Matchup>, b: seq<Matchup>, c: seq<Matchup>)
    requires multiset(b) == multiset(c)
    ensures multiset(a + b) == multiset(a + c)
  {
  }

  lemma {:induction false} TwoToFront(rows: seq<Matchup>, x: Matchup, y: Matchup) returns (perm: seq<Matchup>)
    requires x in rows && y in rows && x != y
    ensures |perm| > 1 && perm[0] == x && perm[1] == y && multiset(perm) == multiset(rows)
  {
    var first := ToFront(rows, x);
    assert y in multiset(rows);
    assert y in multiset(first[1..]);
    var rest := ToFront(first[1..], y);
    ReorderTail([x], rest, first[1..]);
    assert first == [x] + first[1..];
    perm := [x] + rest;
  }

  lemma {:induction false} ThreeToFront(rows: seq<Matchup>, x: Matchup, y: Matchup, z: Matchup) returns (perm: seq<Matchup>)
    requires x in rows && y in rows && z in rows && x != y && x != z && y != z
    ensures |perm| > 2 && perm[0] == x && perm[1] == y && perm[2] == z && multiset(perm) == multiset(rows)
  {
    var first := ToFront(rows, x);
    assert y in multiset(rows) && z in multiset(rows);
    assert y in multiset(first[1..]) && z in multiset(first[1..]);
    var rest := TwoToFront(first[1..], y, z);
    ReorderTail([x], rest, first[1..]);
    assert first == [x] + first[1..];
    perm := [x] + rest;
  }

  /** A row that may face the row put first does face it. */
  lemma {:induction false} FacesTheFirst(rows: seq<Matchup>, r: Matchup)
    requires DistinctKeys(rows) && |rows| > 0 && r in rows && MayFace(rows, r, rows[0])
    ensures OpponentOf(rows, r) == Some(rows[0])
  {
    OpponentMayFace(rows, r);
    if r.opponent.Some? {
      ByKeyFinds(rows, LinkKey(r));
      assert forall o :: o in rows && KeyOf(o) == LinkKey(r) ==> Links(r, o);
    }
    if Linked(rows, r) {
      LinkedFacesOne(rows, r, rows[0], OpponentOf(rows, r).value);
    } else {
      assert IsOther(rows[0], r);
    }
  }

  lemma {:induction false} SelfFails(rows: seq<Matchup>, r: Matchup)
    requires DistinctKeys(rows) && r in rows && MayFace(rows, r, r)
    ensures SomeOrderFails(rows)
  {
    var perm := ToFront(rows, r);
    ReorderKeepsKeys(rows, perm);
    ReorderKeepsFacing(rows, perm);
    FacesTheFirst(perm, r);
    PlaysItself(perm);
  }

  lemma {:induction false} PlaysItself(rows: seq<Matchup>)
    requires DistinctKeys(rows) && |rows| > 0 && OpponentOf(rows, rows[0]) == Some(rows[0])
    ensures !Covers(Games(rows), rows)
  {
    var r := rows[0];
    SplitGame(rows, 0, {});
    var rest := Participants(GamesFrom(rows, 1, Handle({}, r, Some(r))));
    assert [r] + [r] + rest == [r] + ([r] + rest);
    RepeatedParticipant(rows, [r], [r] + rest, r);
  }

  lemma {:induction false} OneSidedFails(rows: seq<Matchup>, r: Matchup, o: Matchup)
    requires DistinctKeys(rows) && r in rows && r != o && MayFace(rows, r, o) && !MayFace(rows, o, r)
    ensures SomeOrderFails(rows)
  {
    var perm := TwoToFront(rows, o, r);
    ReorderKeepsKeys(rows, perm);
    ReorderKeepsFacing(rows, perm);
    OpponentMayFace(perm, o);
    FacesTheFirst(perm, r);
    var p := OpponentOf(perm, o);
    if p.Some? && KeyOf(p.value) == KeyOf(r) { SameKeySameRow(perm, p.value, r); }
    if KeyOf(o) == KeyOf(r) { SameKeySameRow(perm, o, r); }
    SidePickedAgain(perm, 1, o);
  }

  lemma {:induction false} TwoChoicesFail(rows: seq<Matchup>, r: Matchup, o: Matchup, p: Matchup)
    requires DistinctKeys(rows) && r in rows && r != o && r != p && o != p
    requires MayFace(rows, r, o) && MayFace(rows, r, p) && MayFace(rows, o, r) && MayFace(rows, p, r)
    ensures SomeOrderFails(rows)
  {
    if Linked(rows, r) { LinkedFacesOne(rows, r, o, p); }
    var perm := ThreeToFront(rows, r, o, p);
    ReorderKeepsKeys(rows, perm);
    ReorderKeepsFacing(rows, perm);
    FacesTheFirst(perm, p);
    assert OpponentOf(perm, r) == Some(o) by { FirstOfGroup(perm, r, o); }
    if KeyOf(p) == KeyOf(r) { SameKeySameRow(perm, p, r); }
    if KeyOf(p) == KeyOf(o) { SameKeySameRow(perm, p, o); }
    SidePickedAgain(perm, 2, r);
  }

  lemma {:induction false} FirstOfGroup(rows: seq<Matchup>, r: Matchup, o: Matchup)
    requires DistinctKeys(rows) && |rows| > 1 && rows[0] == r && rows[1] == o
    requires MayFace(rows, r, o) && !Linked(rows, r)
    ensures OpponentOf(rows, r) == Some(o)
  {
    if r.opponent.Some? {
      ByKeyFinds(rows, LinkKey(r));
      assert forall x :: KeyOf(x) == LinkKey(r) <==> Links(r, x);
      assert LinkKey(r) !in RowsByKey(rows);
    }
    assert rows[1..][0] == o && IsOther(o, r) && !IsOther(r, r);
    assert FirstOther(rows, r) == FirstOther(rows[1..], r) == Some(o);
  }

  /** Pairing puts every row in exactly one game for every order of the rows, if and only
      if the rows are pairable. */
  lemma {:induction false} PairingSoundExactlyWhenPairable(rows: seq<Matchup>)
    requires DistinctKeys(rows)
    ensures (forall perm: seq<Matchup> :: multiset(perm) == multiset(rows) ==> Covers(Games(perm), perm)) <==> Pairable(rows)
  {
    if Pairable(rows) {
      forall perm: seq<Matchup> | multiset(perm) == multiset(rows) ensures Covers(Games(perm), perm) {
        ReorderKeepsKeys(rows, perm);
        ReorderKeepsFacing(rows, perm);
        PairableCovers(perm);
      }
    } else {
      var r, o :| r in rows && MayFace(rows, r, o) &&
        !(r != o && MayFace(rows, o, r) && forall p :: MayFace(rows, r, p) ==> p == o);
      if r == o {
        SelfFails(rows, r);
      } else if !MayFace(rows, o, r) {
        OneSidedFails(rows, r, o);
      } else {
        var p :| MayFace(rows, r, p) && p != o;
        if p == r {
          SelfFails(rows, r);
        } else if !MayFace(rows, p, r) {
          OneSidedFails(rows, r, p);
        } else {
          TwoChoicesFail(rows, r, o, p);
        }
      }
    }
  }
}
