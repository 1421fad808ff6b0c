/** Filling in missing positions on the draft board (`applyESPNDraftPositionFallback` in
    `cmd/api/drafts.go`): Sleeper is asked first, ESPN for what is still missing. */
module DraftPicks {
  import opened Maps
  import opened Results
  import opened SortedStrings
  import opened Text
  import PositionCache

  /** A pick; `rest` stands for its other columns. */
  datatype Pick = Pick(position: string, playerESPNID: string, rest: string)

  /** A row of Sleeper's player table. */
  datatype PlayerPosition = PlayerPosition(espnID: string, position: string)

  type Positions = map<string, string>

  /** A Go map lookup: blank when absent. */
  function Lookup(positions: Positions, id: string): string {
    if id in positions then positions[id] else ""
  }

  // ---- which ids to ask for ----

  predicate Needs(pick: Pick) {
    pick.position == "" && pick.playerESPNID != "" && pick.playerESPNID != "0"
  }

  /** The ids are those of the picks that need a position, each once. */
  ghost predicate AsksFor(picks: seq<Pick>, ids: seq<string>) {
    Distinct(ids) && forall id :: id in ids <==> exists i :: 0 <= i < |picks| && Needs(picks[i]) && picks[i].playerESPNID == id
  }

  method CollectIDs(picks: array<Pick>) returns (ids: seq<string>)
    ensures AsksFor(picks[..], ids)
  {
    ids := [];
    var seen: set<string> := {};
    for i := 0 to picks.Length
      invariant AsksFor(picks[..i], ids)
      invariant forall id :: id in seen <==> id in ids
    {
      var pick := picks[i];
      AskingGrows(picks[..i], pick, ids);
      assert picks[..i + 1] == picks[..i] + [pick];
      if pick.position == "" && pick.playerESPNID != "" && pick.playerESPNID != "0" {
        if pick.playerESPNID !in seen {
          ids := ids + [pick.playerESPNID];
          seen := seen + {pick.playerESPNID};
        }
      }
    }
    assert picks[..picks.Length] == picks[..];
  }

  lemma {:induction false} AskingGrows(picks: seq<Pick>, pick: Pick, ids: seq<string>)
    requires AsksFor(picks, ids)
    ensures AsksFor(picks + [pick], if Needs(pick) && pick.playerESPNID !in ids then ids + [pick.playerESPNID] else ids)
  {
    var more, ids' := picks + [pick], if Needs(pick) && pick.playerESPNID !in ids then ids + [pick.playerESPNID] else ids;
    forall id ensures id in ids' <==> exists i :: 0 <= i < |more| && Needs(more[i]) && more[i].playerESPNID == id {
      if id in ids {
        var i :| 0 <= i < |picks| && Needs(picks[i]) && picks[i].playerESPNID == id;
        assert more[i] == picks[i];
      }
      if Needs(pick) && pick.playerESPNID == id { assert more[|picks|] == pick; }
      if i :| 0 <= i < |more| && Needs(more[i]) && more[i].playerESPNID == id {
        if i < |picks| { assert picks[i] == more[i]; }
      }
    }
  }

  // ---- the two sources ----

  function SleeperPositions(rows: seq<PlayerPosition>, normalize: string -> string): Positions {
    if rows == [] then map[]
    else
      var row, before := rows[|rows| - 1], SleeperPositions(rows[..|rows| - 1], normalize);
      if TrimSpace(row.espnID) != "" && normalize(row.position) != "" then before[TrimSpace(row.espnID) := normalize(row.position)] else before
  }

  /** The row gives a position for this id. */
  predicate Gives(row: PlayerPosition, normalize: string -> string, id: string) {
    id != "" && TrimSpace(row.espnID) == id && normalize(row.position) != ""
  }

  /** Row `i` is the last to give a position for the id. */
  ghost predicate LastGiver(rows: seq<PlayerPosition>, normalize: string -> string, id: string, i: int) {
    0 <= i < |rows| && Gives(rows[i], normalize, id) && forall j :: i < j < |rows| ==> !Gives(rows[j], normalize, id)
  }

  /** An id has the normalised position of the last row that gives one, and none without such a row. */
  lemma {:induction false} SleeperPositionIs(rows: seq<PlayerPosition>, normalize: string -> string, id: string)
    ensures (forall i :: 0 <= i < |rows| ==> !Gives(rows[i], normalize, id)) ==> Lookup(SleeperPositions(rows, normalize), id) == ""
    ensures forall i :: LastGiver(rows, normalize, id, i) ==> Lookup(SleeperPositions(rows, normalize), id) == normalize(rows[i].position)
    decreases |rows|
  {
    if rows != [] {
      var n := |rows| - 1;
      SleeperPositionIs(rows[..n], normalize, id);
      forall i | LastGiver(rows, normalize, id, i) ensures i == n || LastGiver(rows[..n], normalize, id, i) {
        assert forall j :: 0 <= j < n ==> rows[..n][j] == rows[j];
      }
    }
  }

  /** An absent or failing database counts as one without rows. */
  function SleeperAnswer(rows: Option<seq<PlayerPosition>>, normalize: string -> string): Positions {
    if rows.None? then map[] else SleeperPositions(rows.value, normalize)
  }

  method LoadSleeperPlayerPositions(rows: Option<seq<PlayerPosition>>, normalize: string -> string) returns (positions: Positions)
    ensures positions == SleeperAnswer(rows, normalize)
  {
    positions := map[];
    if rows.None? { return; }
    for i := 0 to |rows.value|
      invariant positions == SleeperPositions(rows.value[..i], normalize)
    {
      var row := rows.value[i];
      assert rows.value[..i + 1][..i] == rows.value[..i];
      var id, position := TrimSpace(row.espnID), normalize(row.position);
      if id != "" && position != "" {
        positions := positions[id := position];
      }
    }
    assert rows.value[..|rows.value|] == rows.value;
  }

  function Missing(ids: seq<string>, positions: Positions): seq<string> {
    if ids == [] then []
    else Missing(ids[..|ids| - 1], positions) + if Lookup(positions, ids[|ids| - 1]) == "" then [ids[|ids| - 1]] else []
  }

  method MissingDraftPositionIDs(ids: seq<string>, positions: Positions) returns (missing: seq<string>)
    ensures missing == Missing(ids, positions)
  {
    missing := [];
    for i := 0 to |ids|
      invariant missing == Missing(ids[..i], positions)
    {
      assert ids[..i + 1][..i] == ids[..i];
      if Lookup(positions, ids[i]) == "" {
        missing := missing + [ids[i]];
      }
    }
    assert ids[..|ids|] == ids;
  }

  lemma {:induction false} MissingIs(ids: seq<string>, positions: Positions, id: string)
    ensures id in Missing(ids, positions) <==> id in ids && Lookup(positions, id) == ""
    decreases |ids|
  {
    if ids != [] {
      MissingIs(ids[..|ids| - 1], positions, id);
      assert ids == ids[..|ids| - 1] + [ids[|ids| - 1]];
    }
  }

  /** The two services, as functions of the ids asked for. */
  datatype Sources = Sources(
    sleeper: seq<string> -> Option<seq<PlayerPosition>>,
    espn: seq<string> -> Option<Positions>,
    normalize: string -> string) {
    function Sleeper(ids: seq<string>): Positions {
      SleeperAnswer(sleeper(ids), normalize)
    }

    /** Sleeper's answers, overlaid with ESPN's for the ids Sleeper left open. */
    function Combined(ids: seq<string>): Positions {
      var missing := Missing(ids, Sleeper(ids));
      if missing == [] || espn(missing).None? then Sleeper(ids) else Sleeper(ids) + espn(missing).value
    }
  }

  function Filled(pick: Pick, positions: Positions): Pick {
    if pick.position != "" || Lookup(positions, pick.playerESPNID) == "" then pick
    else pick.(position := Lookup(positions, pick.playerESPNID))
  }

  ghost predicate FilledFrom(before: seq<Pick>, after: seq<Pick>, positions: Positions) {
    |after| == |before| && forall i :: 0 <= i < |before| ==> after[i] == Filled(before[i], positions)
  }

  /** Writes into the board in place. Without an id to ask for nothing is asked or changed. */
  method ApplyESPNDraftPositionFallback(picks: array<Pick>, sources: Sources) returns (ghost ids: seq<string>)
    modifies picks
    ensures AsksFor(old(picks[..]), ids)
    ensures if ids == [] then picks[..] == old(picks[..]) else FilledFrom(old(picks[..]), picks[..], sources.Combined(ids))
  {
    ghost var before := picks[..];
    var asked := CollectIDs(picks);
    ids := asked;
    if |asked| == 0 { return; }
    var positions := LoadSleeperPlayerPositions(sources.sleeper(asked), sources.normalize);
    var missing := MissingDraftPositionIDs(asked, positions);
    if |missing| > 0 {
      var api := sources.espn(missing);
      if api.Some? {
        positions := Overlay(positions, api.value);
      }
    }
    for i := 0 to picks.Length
      invariant forall k :: 0 <= k < i ==> picks[k] == Filled(before[k], positions)
      invariant forall k :: i <= k < picks.Length ==> picks[k] == before[k]
    {
      if picks[i].position != "" { continue; }
      var position := Lookup(positions, picks[i].playerESPNID);
      if position != "" {
        picks[i] := picks[i].(position := position);
      }
    }
  }

  /** What the fallback writes for a pick in need, once both sources have been asked. */
  function Answer(sources: Sources, ids: seq<string>, id: string): string {
    var missing := Missing(ids, sources.Sleeper(ids));
    if Lookup(sources.Sleeper(ids), id) != "" then Lookup(sources.Sleeper(ids), id)
    else if sources.espn(missing).Some? then Lookup(sources.espn(missing).value, id)
    else ""
  }

  /** The fallback never replaces a known position and prefers Sleeper: a pick in need gets
      Sleeper's answer if there is one, else ESPN's, else stays blank. This needs the lookup behind
      `espn` to answer only for ids it was asked about. */
  lemma {:induction false} PrefersSleeper(before: seq<Pick>, after: seq<Pick>, ids: seq<string>, sources: Sources, i: nat)
    requires AsksFor(before, ids) && FilledFrom(before, after, sources.Combined(ids)) && i < |before|
    requires var missing := Missing(ids, sources.Sleeper(ids));
      sources.espn(missing).Some? ==> PositionCache.Within(sources.espn(missing).value, missing)
    ensures after[i] == before[i].(position := after[i].position)
    ensures before[i].position != "" ==> after[i] == before[i]
    ensures Needs(before[i]) ==> after[i].position == Answer(sources, ids, before[i].playerESPNID)
  {
    var id := before[i].playerESPNID;
    if Needs(before[i]) {
      assert id in ids;
      MissingIs(ids, sources.Sleeper(ids), id);
    }
  }

  /** `espn` is the cached lookup: call `call` of this run, which returned for exactly the missing ids. */
  ghost predicate ThroughCache(sources: Sources, ids: seq<string>, s: PositionCache.State, call: nat) {
    var missing := Missing(ids, sources.Sleeper(ids));
    call in s.calls && s.calls[call].Returned? && s.calls[call].ids == missing &&
    sources.espn(missing) == if s.calls[call].failed then None else Some(s.calls[call].result)
  }

  /** Through the shared cache, however calls interleave: a pick in need gets Sleeper's answer, else
      one the service gave for its id, and stays blank only if the call failed or a miss is recorded
      for its id. */
  lemma {:induction false} FilledThroughCache(
    mayAnswer: PositionCache.Service, run: seq<PositionCache.Event>, call: nat,
    before: seq<Pick>, after: seq<Pick>, ids: seq<string>, sources: Sources, i: nat)
    requires PositionCache.Legal(mayAnswer, PositionCache.EMPTY, run)
    requires ThroughCache(sources, ids, PositionCache.After(PositionCache.EMPTY, run), call)
    requires AsksFor(before, ids) && FilledFrom(before, after, sources.Combined(ids)) && i < |before| && Needs(before[i])
    ensures var s, id := PositionCache.After(PositionCache.EMPTY, run), before[i].playerESPNID;
      && after[i].position == Answer(sources, ids, id)
      && (after[i].position != "" ==> after[i].position == Lookup(sources.Sleeper(ids), id) || mayAnswer(id, after[i].position))
      && (after[i].position == "" ==> s.calls[call].failed || id in s.cache.misses)
  {
    PositionCache.CallsAreAnswered(mayAnswer, run, call);
    PrefersSleeper(before, after, ids, sources, i);
    assert before[i].playerESPNID in ids;
    MissingIs(ids, sources.Sleeper(ids), before[i].playerESPNID);
  }
}
