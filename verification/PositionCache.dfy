/** The cache around the position lookup (`loadESPNAthletePositions` in `cmd/api/drafts.go`):
    two locked sections with the fetch between them, under any interleaving of calls. */
module PositionCache {
  import opened Maps
  import PositionFetch

  /** The contents of the shared cache. */
  datatype Contents = Contents(positions: map<string, string>, misses: set<string>) {
    /** No call fetches this id any more: it has a position, or was recorded as a miss. */
    predicate Settled(id: string) {
      (id in positions && positions[id] != "") || id in misses
    }
  }

  // ---- the two locked sections ----

  function Cached(c: Contents, ids: seq<string>): map<string, string> {
    map id | id in ids && id in c.positions && c.positions[id] != "" :: c.positions[id]
  }

  function Unsettled(c: Contents, ids: seq<string>): seq<string> {
    if ids == [] then []
    else
      var id := ids[|ids| - 1];
      Unsettled(c, ids[..|ids| - 1]) + if c.Settled(id) then [] else [id]
  }

  function Learned(c: Contents, found: map<string, string>, misses: seq<string>): Contents {
    Contents(c.positions + found, c.misses + set id | id in misses)
  }

  class Cache {
    var positions: map<string, string>
    var misses: set<string>

    function Now(): Contents
      reads this
    {
      Contents(positions, misses)
    }

    constructor ()
      ensures Now() == Contents(map[], {})
    {
      positions, misses := map[], {};
    }

    /** First section: what is known, and what has to be fetched. */
    method LookUp(ids: seq<string>) returns (have: map<string, string>, missing: seq<string>)
      ensures have == Cached(Now(), ids) && missing == Unsettled(Now(), ids)
    {
      have, missing := map[], [];
      for i := 0 to |ids|
        invariant have == Cached(Now(), ids[..i]) && missing == Unsettled(Now(), ids[..i])
      {
        var id := ids[i];
        assert ids[..i + 1] == ids[..i] + [id] && ids[..i + 1][..i] == ids[..i];
        if id in positions && positions[id] != "" {
          have := have[id := positions[id]];
          continue;
        }
        if id !in misses {
          missing := missing + [id];
        }
      }
      assert ids[..|ids|] == ids;
    }

    /** Second section: the answers go into the cache and into the caller's map. */
    method Learn(found: map<string, string>, missed: seq<string>, have: map<string, string>) returns (result: map<string, string>)
      modifies this
      ensures Now() == Learned(old(Now()), found, missed)
      ensures result == have + found
    {
      positions := Overlay(positions, found);
      result := Overlay(have, found);
      LearnMisses(missed);
    }

    method LearnMisses(missed: seq<string>)
      modifies this`misses
      ensures misses == old(misses) + set id | id in missed
    {
      for i := 0 to |missed|
        invariant misses == old(misses) + set id | id in missed[..i]
      {
        assert missed[..i + 1] == missed[..i] + [missed[i]];
        misses := misses + {missed[i]};
      }
      assert missed[..|missed|] == missed;
    }
  }

  lemma {:induction false} UnsettledIs(c: Contents, ids: seq<string>, id: string)
    ensures id in Unsettled(c, ids) <==> id in ids && !c.Settled(id)
    decreases |ids|
  {
    if ids != [] {
      var init, last := ids[..|ids| - 1], ids[|ids| - 1];
      UnsettledIs(c, init, id);
      assert ids == init + [last];
    }
  }

  // ---- calls in any interleaving ----

  datatype Call =
    | Starting(ids: seq<string>)
    | Waiting(ids: seq<string>, have: map<string, string>, missing: seq<string>)
    | Answered(ids: seq<string>, have: map<string, string>, missing: seq<string>, found: map<string, string>, missed: seq<string>)
    | Returned(ids: seq<string>, result: map<string, string>, failed: bool)

  datatype State = State(cache: Contents, calls: map<nat, Call>)

  /** One lookup: the ids it was given, the steps it took and what it returned. */
  datatype Fetch = Fetch(missing: seq<string>, run: seq<PositionFetch.Event>, found: map<string, string>, missed: seq<string>)

  datatype Event =
    | Begin(i: nat, ids: seq<string>)
    | First(i: nat)
    | FetchEnds(i: nat, fetch: Fetch)
    | FetchFails(i: nat)
    | Second(i: nat)

  type Service = (string, string) -> bool

  ghost predicate LookedUp(mayAnswer: Service, fetch: Fetch) {
    var q := PositionFetch.Request(fetch.missing, mayAnswer);
    && PositionFetch.CompleteRun(q, fetch.run)
    && fetch.found == PositionFetch.Found(q, PositionFetch.Drained(q, fetch.run))
    && fetch.missed == PositionFetch.Misses(q, PositionFetch.Drained(q, fetch.run))
  }

  /** A fetch that ends went through a lookup of what the call is missing. */
  ghost predicate Enabled(mayAnswer: Service, s: State, e: Event) {
    match e
    case Begin(i, _) => i !in s.calls
    case First(i) => i in s.calls && s.calls[i].Starting?
    case FetchEnds(i, fetch) =>
      i in s.calls && s.calls[i].Waiting? && s.calls[i].missing != [] && fetch.missing == s.calls[i].missing && LookedUp(mayAnswer, fetch)
    case FetchFails(i) => i in s.calls && s.calls[i].Waiting?
    case Second(i) => i in s.calls && s.calls[i].Answered?
  }

  function Next(s: State, e: Event): State {
    match e
    case Begin(i, ids) => s.(calls := s.calls[i := Starting(ids)])
    case First(i) =>
      if i in s.calls && s.calls[i].Starting? then
        var ids := s.calls[i].ids;
        var have, missing := Cached(s.cache, ids), Unsettled(s.cache, ids);
        s.(calls := s.calls[i := if missing == [] then Returned(ids, have, false) else Waiting(ids, have, missing)])
      else s
    case FetchEnds(i, fetch) =>
      if i in s.calls && s.calls[i].Waiting? then
        var w := s.calls[i];
        s.(calls := s.calls[i := Answered(w.ids, w.have, w.missing, fetch.found, fetch.missed)])
      else s
    case FetchFails(i) =>
      if i in s.calls && s.calls[i].Waiting? then s.(calls := s.calls[i := Returned(s.calls[i].ids, s.calls[i].have, true)]) else s
    case Second(i) =>
      if i in s.calls && s.calls[i].Answered? then
        var a := s.calls[i];
        State(Learned(s.cache, a.found, a.missed), s.calls[i := Returned(a.ids, a.have + a.found, false)])
      else s
  }

  ghost predicate Legal(mayAnswer: Service, s: State, run: seq<Event>)
    decreases |run|
  {
    run == [] || (Enabled(mayAnswer, s, run[0]) && Legal(mayAnswer, Next(s, run[0]), run[1..]))
  }

  function After(s: State, run: seq<Event>): State
    decreases |run|
  {
    if run == [] then s else After(Next(s, run[0]), run[1..])
  }

  const EMPTY := State(Contents(map[], {}), map[])

  // ---- what every step keeps ----

  /** Only positions the service gave for their id. */
  ghost predicate Truthful(mayAnswer: Service, m: map<string, string>) {
    forall id :: id in m ==> m[id] != "" && mayAnswer(id, m[id])
  }

  ghost predicate Within(m: map<string, string>, ids: seq<string>) {
    forall id :: id in m ==> id in ids
  }

  /** Every id asked for is answered or, by now, recorded as a miss. */
  ghost predicate Settles(c: Contents, m: map<string, string>, ids: seq<string>) {
    forall id :: id in ids ==> id in m || id in c.misses
  }

  ghost predicate GoodCall(mayAnswer: Service, c: Contents, call: Call) {
    match call
    case Starting(_) => true
    case Waiting(ids, have, missing) =>
      && Truthful(mayAnswer, have) && Within(have, ids) && missing != []
      && (forall id :: id in missing ==> id in ids)
      && forall id :: id in ids ==> id in have || id in c.misses || id in missing
    case Answered(ids, have, missing, found, missed) =>
      && Truthful(mayAnswer, have + found) && Within(have + found, ids)
      && Truthful(mayAnswer, found)
      && forall id :: id in ids ==> id in have || id in c.misses || id in found || id in missed
    case Returned(ids, result, failed) =>
      Truthful(mayAnswer, result) && Within(result, ids) && (!failed ==> Settles(c, result, ids))
  }

  ghost predicate Inv(mayAnswer: Service, s: State) {
    Truthful(mayAnswer, s.cache.positions) && forall i :: i in s.calls ==> GoodCall(mayAnswer, s.cache, s.calls[i])
  }

  /** The cache only grows. */
  ghost predicate Grows(c: Contents, c': Contents) {
    (forall id :: id in c.positions ==> id in c'.positions) && c.misses <= c'.misses
  }

  lemma {:induction false} GoodCallGrows(mayAnswer: Service, c: Contents, c': Contents, call: Call)
    requires GoodCall(mayAnswer, c, call) && Grows(c, c')
    ensures GoodCall(mayAnswer, c', call)
  {
  }

  lemma {:induction false} FirstIsGood(mayAnswer: Service, c: Contents, ids: seq<string>)
    requires Truthful(mayAnswer, c.positions)
    ensures var have, missing := Cached(c, ids), Unsettled(c, ids);
      GoodCall(mayAnswer, c, if missing == [] then Returned(ids, have, false) else Waiting(ids, have, missing))
  {
    forall id ensures id in Unsettled(c, ids) <==> id in ids && !c.Settled(id) { UnsettledIs(c, ids, id); }
  }

  lemma {:induction false} StepKeepsInv(mayAnswer: Service, s: State, e: Event)
    requires Inv(mayAnswer, s) && Enabled(mayAnswer, s, e)
    ensures Inv(mayAnswer, Next(s, e)) && Grows(s.cache, Next(s, e).cache)
  {
    var s' := Next(s, e);
    match e {
      case First(i) => FirstIsGood(mayAnswer, s.cache, s.calls[i].ids);
      case FetchEnds(i, fetch) =>
        assert GoodCall(mayAnswer, s.cache, s.calls[i]);
        PositionFetch.OneResultPerId(PositionFetch.Request(fetch.missing, mayAnswer), fetch.run);
      case Second(i) => assert GoodCall(mayAnswer, s.cache, s.calls[i]);
      case _ =>
    }
    forall i | i in s'.calls ensures GoodCall(mayAnswer, s'.cache, s'.calls[i]) {
      if i in s.calls && s'.calls[i] == s.calls[i] { GoodCallGrows(mayAnswer, s.cache, s'.cache, s.calls[i]); }
    }
  }

  lemma {:induction false} RunKeepsInv(mayAnswer: Service, s: State, run: seq<Event>)
    requires Inv(mayAnswer, s) && Legal(mayAnswer, s, run)
    ensures Inv(mayAnswer, After(s, run)) && Grows(s.cache, After(s, run).cache)
    decreases |run|
  {
    if run != [] {
      StepKeepsInv(mayAnswer, s, run[0]);
      RunKeepsInv(mayAnswer, Next(s, run[0]), run[1..]);
    }
  }

  /** However calls interleave: nothing blank and nothing the service did not say is ever cached
      or returned, a call returns only ids it was asked for, and a call that does not fail
      leaves no id without an answer or a recorded miss. */
  lemma {:induction false} CallsAreAnswered(mayAnswer: Service, run: seq<Event>, i: nat)
    requires Legal(mayAnswer, EMPTY, run)
    ensures var s := After(EMPTY, run);
      && Truthful(mayAnswer, s.cache.positions)
      && (i in s.calls && s.calls[i].Returned? ==>
            && Truthful(mayAnswer, s.calls[i].result) && Within(s.calls[i].result, s.calls[i].ids)
            && (!s.calls[i].failed ==> Settles(s.cache, s.calls[i].result, s.calls[i].ids)))
  {
    RunKeepsInv(mayAnswer, EMPTY, run);
    var s := After(EMPTY, run);
    if i in s.calls { assert GoodCall(mayAnswer, s.cache, s.calls[i]); }
  }

  /** An id once settled stays settled: no later look-up lists it as missing, and a position once
      cached is found by every later look-up. */
  lemma {:induction false} CachedIsNotRefetched(mayAnswer: Service, s: State, run: seq<Event>, id: string, ids: seq<string>)
    requires Inv(mayAnswer, s) && Legal(mayAnswer, s, run) && s.cache.Settled(id)
    ensures After(s, run).cache.Settled(id)
    ensures id !in Unsettled(After(s, run).cache, ids)
    ensures id in s.cache.positions && id in ids ==> id in Cached(After(s, run).cache, ids)
  {
    RunKeepsInv(mayAnswer, s, run);
    UnsettledIs(After(s, run).cache, ids, id);
  }

  /** Call `i` is not fetching this id. */
  predicate Spares(s: State, i: nat, id: string) {
    i in s.calls && (s.calls[i].Waiting? || s.calls[i].Answered?) ==> id !in s.calls[i].missing
  }

  /** An id that is settled before a call has looked it up is in no list that call waits for, and
      in no lookup it makes. */
  lemma {:induction false} SettledIsNotFetched(mayAnswer: Service, s: State, run: seq<Event>, i: nat, id: string)
    requires Inv(mayAnswer, s) && Legal(mayAnswer, s, run) && s.cache.Settled(id) && Spares(s, i, id)
    ensures Spares(After(s, run), i, id)
    ensures forall k :: 0 <= k < |run| && run[k].FetchEnds? && run[k].i == i ==> id !in run[k].fetch.missing
    decreases |run|
  {
    if run != [] {
      var e, s' := run[0], Next(s, run[0]);
      StepKeepsInv(mayAnswer, s, e);
      if e.First? && e.i == i { UnsettledIs(s.cache, s.calls[i].ids, id); }
      SettledIsNotFetched(mayAnswer, s', run[1..], i, id);
      forall k | 0 <= k < |run| && run[k].FetchEnds? && run[k].i == i ensures id !in run[k].fetch.missing {
        if k > 0 { assert run[1..][k - 1] == run[k]; }
      }
    }
  }

  /** Call `i` is going to return a position for the id. */
  predicate WillReturn(s: State, i: nat, id: string) {
    i in s.calls &&
    match s.calls[i]
    case Starting(ids) => id in ids && id in s.cache.positions && s.cache.positions[id] != ""
    case Waiting(_, have, _) => id in have
    case Answered(_, have, _, _, _) => id in have
    case Returned(_, result, _) => id in result
  }

  /** A position cached before a call looks it up is in what the call returns, even if it fails. */
  lemma {:induction false} CachedIsReturned(mayAnswer: Service, s: State, run: seq<Event>, i: nat, id: string)
    requires Inv(mayAnswer, s) && Legal(mayAnswer, s, run) && WillReturn(s, i, id)
    ensures WillReturn(After(s, run), i, id)
    decreases |run|
  {
    if run != [] {
      StepKeepsInv(mayAnswer, s, run[0]);
      StepKeepsReturn(mayAnswer, s, run[0], i, id);
      CachedIsReturned(mayAnswer, Next(s, run[0]), run[1..], i, id);
    }
  }

  lemma {:induction false} StepKeepsReturn(mayAnswer: Service, s: State, e: Event, i: nat, id: string)
    requires Inv(mayAnswer, s) && Enabled(mayAnswer, s, e) && WillReturn(s, i, id)
    ensures WillReturn(Next(s, e), i, id)
  {
    StepKeepsInv(mayAnswer, s, e);
  }

  // ---- what a recorded miss says ----

  /** A call of this run learned what the lookup returned. */
  ghost predicate LearnedFrom(run: seq<Event>, fetch: Fetch) {
    exists i, k, j :: 0 <= k < j < |run| && run[k] == FetchEnds(i, fetch) && run[j] == Second(i)
  }

  /** The goroutine for this id was answered without a position, or gave up. */
  ghost predicate MissedBy(fetch: Fetch, id: string, w: nat) {
    w < |fetch.missing| && fetch.missing[w] == id && (PositionFetch.AnsweredBlank(fetch.run, w) || PositionFetch.GaveUp(fetch.run, w))
  }

  ghost predicate EndedIn(run: seq<Event>, i: nat, missed: seq<string>) {
    exists k :: 0 <= k < |run| && run[k].FetchEnds? && run[k].i == i && run[k].fetch.missed == missed
  }

  ghost predicate LearnedMiss(run: seq<Event>, id: string) {
    exists fetch :: LearnedFrom(run, fetch) && id in fetch.missed
  }

  ghost predicate History(s: State, past: seq<Event>) {
    && (forall id :: id in s.cache.misses ==> LearnedMiss(past, id))
    && forall i :: i in s.calls && s.calls[i].Answered? ==> EndedIn(past, i, s.calls[i].missed)
  }

  lemma {:induction false} LearnedFromStays(past: seq<Event>, e: Event, fetch: Fetch)
    requires LearnedFrom(past, fetch)
    ensures LearnedFrom(past + [e], fetch)
  {
    var i, k, j :| 0 <= k < j < |past| && past[k] == FetchEnds(i, fetch) && past[j] == Second(i);
    assert (past + [e])[k] == past[k] && (past + [e])[j] == past[j];
  }

  lemma {:induction false} SecondLearns(past: seq<Event>, i: nat, missed: seq<string>, id: string)
    requires EndedIn(past, i, missed) && id in missed
    ensures LearnedMiss(past + [Second(i)], id)
  {
    var k :| 0 <= k < |past| && past[k].FetchEnds? && past[k].i == i && past[k].fetch.missed == missed;
    var run := past + [Second(i)];
    assert run[k] == FetchEnds(i, past[k].fetch) && run[|past|] == Second(i);
    assert LearnedFrom(run, past[k].fetch);
  }

  lemma {:induction false} StepKeepsHistory(mayAnswer: Service, s: State, past: seq<Event>, e: Event)
    requires History(s, past) && Enabled(mayAnswer, s, e)
    ensures History(Next(s, e), past + [e])
  {
    var s' := Next(s, e);
    forall id | id in s'.cache.misses ensures LearnedMiss(past + [e], id) {
      if id in s.cache.misses {
        var fetch :| LearnedFrom(past, fetch) && id in fetch.missed;
        LearnedFromStays(past, e, fetch);
      } else {
        SecondLearns(past, e.i, s.calls[e.i].missed, id);
      }
    }
    forall i | i in s'.calls && s'.calls[i].Answered? ensures EndedIn(past + [e], i, s'.calls[i].missed) {
      if i in s.calls && s.calls[i] == s'.calls[i] {
        var k :| 0 <= k < |past| && past[k].FetchEnds? && past[k].i == i && past[k].fetch.missed == s.calls[i].missed;
        assert (past + [e])[k] == past[k];
      } else {
        assert (past + [e])[|past|] == e;
      }
    }
  }

  lemma {:induction false} RunHistory(mayAnswer: Service, s: State, past: seq<Event>, run: seq<Event>)
    requires History(s, past) && Legal(mayAnswer, s, run)
    ensures History(After(s, run), past + run)
    decreases |run|
  {
    if run == [] {
      assert past + run == past;
    } else {
      StepKeepsHistory(mayAnswer, s, past, run[0]);
      RunHistory(mayAnswer, Next(s, run[0]), past + [run[0]], run[1..]);
      assert past + [run[0]] + run[1..] == past + run;
    }
  }

  /** What an answered call has missed is recorded once it learns. */
  lemma {:induction false} AnsweredIsLearned(mayAnswer: Service, s: State, run: seq<Event>, i: nat, j: nat, id: string)
    requires Legal(mayAnswer, s, run) && j < |run| && run[j] == Second(i)
    requires i in s.calls && s.calls[i].Answered? && id in s.calls[i].missed
    ensures id in After(s, run).cache.misses
    decreases |run|
  {
    if run[0] == Second(i) {
      MissesStay(mayAnswer, Next(s, run[0]), run[1..], id);
    } else {
      AnsweredIsLearned(mayAnswer, Next(s, run[0]), run[1..], i, j - 1, id);
    }
  }

  lemma {:induction false} MissesStay(mayAnswer: Service, s: State, run: seq<Event>, id: string)
    requires Legal(mayAnswer, s, run) && id in s.cache.misses
    ensures id in After(s, run).cache.misses
    decreases |run|
  {
    if run != [] { MissesStay(mayAnswer, Next(s, run[0]), run[1..], id); }
  }

  lemma {:induction false} LearnedIsRecorded(mayAnswer: Service, s: State, run: seq<Event>, i: nat, k: nat, j: nat, id: string)
    requires Legal(mayAnswer, s, run) && k < j < |run| && run[k].FetchEnds? && run[k].i == i && run[j] == Second(i)
    requires id in run[k].fetch.missed
    ensures id in After(s, run).cache.misses && LookedUp(mayAnswer, run[k].fetch)
    decreases |run|
  {
    if k == 0 {
      AnsweredIsLearned(mayAnswer, Next(s, run[0]), run[1..], i, j - 1, id);
    } else {
      LearnedIsRecorded(mayAnswer, Next(s, run[0]), run[1..], i, k - 1, j - 1, id);
    }
  }

  lemma {:induction false} EndedLookedUp(mayAnswer: Service, s: State, run: seq<Event>, k: nat)
    requires Legal(mayAnswer, s, run) && k < |run| && run[k].FetchEnds?
    ensures LookedUp(mayAnswer, run[k].fetch)
    decreases |run|
  {
    if k > 0 { EndedLookedUp(mayAnswer, Next(s, run[0]), run[1..], k - 1); }
  }

  lemma {:induction false} LearnedLookedUp(mayAnswer: Service, s: State, run: seq<Event>, fetch: Fetch)
    requires Legal(mayAnswer, s, run) && LearnedFrom(run, fetch)
    ensures LookedUp(mayAnswer, fetch)
  {
    var i, k, j :| 0 <= k < j < |run| && run[k] == FetchEnds(i, fetch) && run[j] == Second(i);
    EndedLookedUp(mayAnswer, s, run, k);
  }

  /** A lookup returns an id as missed exactly when a goroutine for it was answered blank or gave up. */
  lemma {:induction false} MissedExactly(mayAnswer: Service, fetch: Fetch, id: string)
    requires LookedUp(mayAnswer, fetch)
    ensures id in fetch.missed <==> exists w: nat :: MissedBy(fetch, id, w)
  {
    var q := PositionFetch.Request(fetch.missing, mayAnswer);
    var received := PositionFetch.Drained(q, fetch.run);
    PositionFetch.OneResultPerId(q, fetch.run);
    PositionFetch.MissesHas(q, received, id);
    forall w: nat | w < |q.ids| ensures PositionFetch.Missed(q, fetch.run, w) <==> PositionFetch.AnsweredBlank(fetch.run, w) || PositionFetch.GaveUp(fetch.run, w) {
      PositionFetch.MissedUnaskedExactly(q, fetch.run, w);
    }
    if id in fetch.missed {
      var k :| 0 <= k < |received| && received[k].worker < |q.ids| && q.ids[received[k].worker] == id && received[k].position == "";
      assert received[k] == PositionFetch.Reply(received[k].worker, "");
      assert PositionFetch.Missed(q, fetch.run, received[k].worker);
      assert MissedBy(fetch, id, received[k].worker);
    }
    if w: nat :| MissedBy(fetch, id, w) {
      assert PositionFetch.Missed(q, fetch.run, w);
    }
  }

  /** Some call learned from a lookup in which a goroutine for the id was answered blank or gave up. */
  ghost predicate MissLearned(run: seq<Event>, id: string) {
    exists fetch, w: nat :: LearnedFrom(run, fetch) && MissedBy(fetch, id, w)
  }

  lemma {:induction false} LearnedByWorker(mayAnswer: Service, run: seq<Event>, fetch: Fetch, id: string)
    requires Legal(mayAnswer, EMPTY, run) && LearnedFrom(run, fetch)
    ensures id in fetch.missed ==> MissLearned(run, id)
    ensures (exists w: nat :: MissedBy(fetch, id, w)) ==> id in fetch.missed
  {
    LearnedLookedUp(mayAnswer, EMPTY, run, fetch);
    MissedExactly(mayAnswer, fetch, id);
  }

  lemma {:induction false} LearningRecords(mayAnswer: Service, run: seq<Event>, fetch: Fetch, id: string)
    requires Legal(mayAnswer, EMPTY, run) && LearnedFrom(run, fetch) && id in fetch.missed
    ensures id in After(EMPTY, run).cache.misses
  {
    var i, k, j :| 0 <= k < j < |run| && run[k] == FetchEnds(i, fetch) && run[j] == Second(i);
    LearnedIsRecorded(mayAnswer, EMPTY, run, i, k, j, id);
  }

  lemma {:induction false} RecordsAreLearned(mayAnswer: Service, run: seq<Event>, id: string)
    requires Legal(mayAnswer, EMPTY, run) && id in After(EMPTY, run).cache.misses
    ensures LearnedMiss(run, id)
  {
    RunHistory(mayAnswer, EMPTY, [], run);
    assert [] + run == run;
  }

  /** However calls interleave, the cache records a miss if and only if some call learned from a
      lookup in which a goroutine for the id was answered blank or gave up. */
  lemma {:induction false} RecordedMissExactly(mayAnswer: Service, run: seq<Event>, id: string)
    requires Legal(mayAnswer, EMPTY, run)
    ensures id in After(EMPTY, run).cache.misses <==> MissLearned(run, id)
  {
    if id in After(EMPTY, run).cache.misses {
      RecordsAreLearned(mayAnswer, run, id);
      var fetch :| LearnedFrom(run, fetch) && id in fetch.missed;
      LearnedByWorker(mayAnswer, run, fetch, id);
    }
    if MissLearned(run, id) {
      var fetch, w: nat :| LearnedFrom(run, fetch) && MissedBy(fetch, id, w);
      LearnedByWorker(mayAnswer, run, fetch, id);
      LearningRecords(mayAnswer, run, fetch, id);
    }
  }

  /** Some lookup that the cache learned from asked the service for the id and got no position. */
  ghost predicate BlankAnswer(run: seq<Event>, id: string) {
    exists fetch, w: nat :: LearnedFrom(run, fetch) && w < |fetch.missing| && fetch.missing[w] == id && PositionFetch.AnsweredBlank(fetch.run, w)
  }

  ghost predicate NoneCancelled(run: seq<Event>) {
    forall k :: 0 <= k < |run| && run[k].FetchEnds? ==> PositionFetch.NeverCancelled(run[k].fetch.run)
  }

  ghost predicate MissesAreBlankAnswers(run: seq<Event>) {
    forall id :: id in After(EMPTY, run).cache.misses ==> BlankAnswer(run, id)
  }

  /** Every recorded miss of every run stands for an answer without a position if and only if no
      lookup is ever cancelled. */
  lemma {:induction false} MissesAreAnswersExactly(mayAnswer: Service, mayCancel: bool)
    ensures (forall run :: Legal(mayAnswer, EMPTY, run) && (mayCancel || NoneCancelled(run)) ==> MissesAreBlankAnswers(run))
      <==> !mayCancel
  {
    if mayCancel {
      var run := UnaskedMiss(mayAnswer, "1");
      assert !MissesAreBlankAnswers(run);
    } else {
      forall run, id | Legal(mayAnswer, EMPTY, run) && NoneCancelled(run) && id in After(EMPTY, run).cache.misses ensures BlankAnswer(run, id) {
        UncancelledMiss(mayAnswer, run, id);
      }
    }
  }

  lemma {:induction false} UncancelledMiss(mayAnswer: Service, run: seq<Event>, id: string)
    requires Legal(mayAnswer, EMPTY, run) && NoneCancelled(run) && id in After(EMPTY, run).cache.misses
    ensures BlankAnswer(run, id)
  {
    RecordedMissExactly(mayAnswer, run, id);
    var fetch, w: nat :| LearnedFrom(run, fetch) && MissedBy(fetch, id, w);
    LearnedLookedUp(mayAnswer, EMPTY, run, fetch);
    var q := PositionFetch.Request(fetch.missing, mayAnswer);
    PositionFetch.GivingUpNeedsCancel(q, PositionFetch.Initial(q), fetch.run, w);
  }

  /** For every id there is a run that records a miss for it without the service being asked. */
  lemma {:induction false} UnaskedMiss(mayAnswer: Service, id: string) returns (run: seq<Event>)
    ensures Legal(mayAnswer, EMPTY, run)
    ensures id in After(EMPTY, run).cache.misses && !BlankAnswer(run, id)
  {
    var q := PositionFetch.Request([id], mayAnswer);
    var steps := PositionFetch.CancelledIdIsMissed(q);
    var received := PositionFetch.Drained(q, steps);
    var fetch := Fetch([id], steps, PositionFetch.Found(q, received), PositionFetch.Misses(q, received));
    run := [Begin(0, [id]), First(0), FetchEnds(0, fetch), Second(0)];
    var s1 := Next(EMPTY, run[0]);
    var s2 := Next(s1, run[1]);
    UnsettledIs(EMPTY.cache, [id], id);
    assert Unsettled(EMPTY.cache, [id]) == [id] by {
      assert Unsettled(EMPTY.cache, [id][..0]) == [];
    }
    assert s2.calls[0] == Waiting([id], Cached(EMPTY.cache, [id]), [id]);
    assert Enabled(mayAnswer, s2, run[2]);
    var s3 := Next(s2, run[2]);
    var s4 := Next(s3, run[3]);
    assert id in s4.cache.misses;
    OneStep(mayAnswer, s3, run[3..]);
    OneStep(mayAnswer, s2, run[2..]);
    OneStep(mayAnswer, s1, run[1..]);
    OneStep(mayAnswer, EMPTY, run);
  }

  lemma {:induction false} OneStep(mayAnswer: Service, s: State, run: seq<Event>)
    requires run != []
    ensures Legal(mayAnswer, s, run) <==> Enabled(mayAnswer, s, run[0]) && Legal(mayAnswer, Next(s, run[0]), run[1..])
    ensures After(s, run) == After(Next(s, run[0]), run[1..])
  {
  }

  // ---- what is cached ----

  /** Some call of this run learned this position for the id from its lookup. */
  ghost predicate PositionLearned(run: seq<Event>, id: string, position: string) {
    exists fetch :: LearnedFrom(run, fetch) && id in fetch.found && fetch.found[id] == position
  }

  ghost predicate FoundIn(run: seq<Event>, i: nat, found: map<string, string>) {
    exists k :: 0 <= k < |run| && run[k].FetchEnds? && run[k].i == i && run[k].fetch.found == found
  }

  ghost predicate PositionHistory(s: State, past: seq<Event>) {
    && (forall id :: id in s.cache.positions ==> PositionLearned(past, id, s.cache.positions[id]))
    && forall i :: i in s.calls && s.calls[i].Answered? ==> FoundIn(past, i, s.calls[i].found)
  }

  lemma {:induction false} SecondLearnsPosition(past: seq<Event>, i: nat, found: map<string, string>, id: string)
    requires FoundIn(past, i, found) && id in found
    ensures PositionLearned(past + [Second(i)], id, found[id])
  {
    var k :| 0 <= k < |past| && past[k].FetchEnds? && past[k].i == i && past[k].fetch.found == found;
    var run := past + [Second(i)];
    assert run[k] == FetchEnds(i, past[k].fetch) && run[|past|] == Second(i);
    assert LearnedFrom(run, past[k].fetch);
  }

  lemma {:induction false} StepKeepsPositionHistory(mayAnswer: Service, s: State, past: seq<Event>, e: Event)
    requires PositionHistory(s, past) && Enabled(mayAnswer, s, e)
    ensures PositionHistory(Next(s, e), past + [e])
  {
    var s' := Next(s, e);
    forall id | id in s'.cache.positions ensures PositionLearned(past + [e], id, s'.cache.positions[id]) {
      if e.Second? && id in s.calls[e.i].found {
        SecondLearnsPosition(past, e.i, s.calls[e.i].found, id);
      } else {
        var fetch :| LearnedFrom(past, fetch) && id in fetch.found && fetch.found[id] == s.cache.positions[id];
        LearnedFromStays(past, e, fetch);
      }
    }
    forall i | i in s'.calls && s'.calls[i].Answered? ensures FoundIn(past + [e], i, s'.calls[i].found) {
      if i in s.calls && s.calls[i] == s'.calls[i] {
        var k :| 0 <= k < |past| && past[k].FetchEnds? && past[k].i == i && past[k].fetch.found == s.calls[i].found;
        assert (past + [e])[k] == past[k];
      } else {
        assert (past + [e])[|past|] == e;
      }
    }
  }

  lemma {:induction false} RunPositionHistory(mayAnswer: Service, s: State, past: seq<Event>, run: seq<Event>)
    requires PositionHistory(s, past) && Legal(mayAnswer, s, run)
    ensures PositionHistory(After(s, run), past + run)
    decreases |run|
  {
    if run == [] {
      assert past + run == past;
    } else {
      StepKeepsPositionHistory(mayAnswer, s, past, run[0]);
      RunPositionHistory(mayAnswer, Next(s, run[0]), past + [run[0]], run[1..]);
      assert past + [run[0]] + run[1..] == past + run;
    }
  }

  lemma {:induction false} PositionsStay(mayAnswer: Service, s: State, run: seq<Event>, id: string)
    requires Legal(mayAnswer, s, run) && id in s.cache.positions
    ensures id in After(s, run).cache.positions
    decreases |run|
  {
    if run != [] { PositionsStay(mayAnswer, Next(s, run[0]), run[1..], id); }
  }

  lemma {:induction false} AnsweredIsCached(mayAnswer: Service, s: State, run: seq<Event>, i: nat, j: nat, id: string)
    requires Legal(mayAnswer, s, run) && j < |run| && run[j] == Second(i)
    requires i in s.calls && s.calls[i].Answered? && id in s.calls[i].found
    ensures id in After(s, run).cache.positions
    decreases |run|
  {
    if run[0] == Second(i) {
      PositionsStay(mayAnswer, Next(s, run[0]), run[1..], id);
    } else {
      AnsweredIsCached(mayAnswer, Next(s, run[0]), run[1..], i, j - 1, id);
    }
  }

  lemma {:induction false} FoundIsCached(mayAnswer: Service, s: State, run: seq<Event>, i: nat, k: nat, j: nat, id: string)
    requires Legal(mayAnswer, s, run) && k < j < |run| && run[k].FetchEnds? && run[k].i == i && run[j] == Second(i)
    requires id in run[k].fetch.found
    ensures id in After(s, run).cache.positions
    decreases |run|
  {
    if k == 0 {
      AnsweredIsCached(mayAnswer, Next(s, run[0]), run[1..], i, j - 1, id);
    } else {
      FoundIsCached(mayAnswer, Next(s, run[0]), run[1..], i, k - 1, j - 1, id);
    }
  }

  lemma {:induction false} CachedWasLearned(mayAnswer: Service, run: seq<Event>, id: string)
    requires Legal(mayAnswer, EMPTY, run) && id in After(EMPTY, run).cache.positions
    ensures PositionLearned(run, id, After(EMPTY, run).cache.positions[id])
  {
    RunPositionHistory(mayAnswer, EMPTY, [], run);
    assert [] + run == run;
  }

  lemma {:induction false} LearningCaches(mayAnswer: Service, run: seq<Event>, fetch: Fetch, id: string)
    requires Legal(mayAnswer, EMPTY, run) && LearnedFrom(run, fetch) && id in fetch.found
    ensures id in After(EMPTY, run).cache.positions
  {
    var i, k, j :| 0 <= k < j < |run| && run[k] == FetchEnds(i, fetch) && run[j] == Second(i);
    FoundIsCached(mayAnswer, EMPTY, run, i, k, j, id);
  }

  /** However calls interleave, an id has a cached position if and only if some call learned one for
      it, and the position is one that was learned. */
  lemma {:induction false} CachedPositionExactly(mayAnswer: Service, run: seq<Event>, id: string)
    requires Legal(mayAnswer, EMPTY, run)
    ensures id in After(EMPTY, run).cache.positions <==> exists position :: PositionLearned(run, id, position)
    ensures id in After(EMPTY, run).cache.positions ==> PositionLearned(run, id, After(EMPTY, run).cache.positions[id])
  {
    if id in After(EMPTY, run).cache.positions { CachedWasLearned(mayAnswer, run, id); }
    if position :| PositionLearned(run, id, position) {
      var fetch :| LearnedFrom(run, fetch) && id in fetch.found && fetch.found[id] == position;
      LearningCaches(mayAnswer, run, fetch, id);
    }
  }

  // ---- which calls fail ----

  predicate HasFailed(s: State, i: nat) {
    i in s.calls && s.calls[i].Returned? && s.calls[i].failed
  }

  lemma {:induction false} RunFailsExactly(mayAnswer: Service, s: State, run: seq<Event>, i: nat)
    requires Legal(mayAnswer, s, run)
    ensures HasFailed(After(s, run), i) <==> HasFailed(s, i) || FetchFails(i) in run
    decreases |run|
  {
    if run != [] {
      RunFailsExactly(mayAnswer, Next(s, run[0]), run[1..], i);
      assert run == [run[0]] + run[1..];
    }
  }

  /** However calls interleave, a call reports an error if and only if its lookup did. */
  lemma {:induction false} CallFailsExactly(mayAnswer: Service, run: seq<Event>, i: nat)
    requires Legal(mayAnswer, EMPTY, run)
    requires i in After(EMPTY, run).calls && After(EMPTY, run).calls[i].Returned?
    ensures After(EMPTY, run).calls[i].failed <==> FetchFails(i) in run
  {
    RunFailsExactly(mayAnswer, EMPTY, run, i);
  }

  function StepsLeft(call: Call): nat {
    match call
    case Starting(_) => 3
    case Waiting(_, _, _) => 2
    case Answered(_, _, _, _, _) => 1
    case Returned(_, _, _) => 0
  }

  /** An event that brings the call nearer to its return without failing it. */
  lemma {:induction false} CallMoves(mayAnswer: Service, s: State, i: nat) returns (e: Event)
    requires Inv(mayAnswer, s) && i in s.calls && !s.calls[i].Returned?
    ensures Enabled(mayAnswer, s, e) && e != FetchFails(i)
    ensures i in Next(s, e).calls && StepsLeft(Next(s, e).calls[i]) < StepsLeft(s.calls[i])
  {
    match s.calls[i]
    case Starting(_) => e := First(i);
    case Waiting(_, _, missing) =>
      assert GoodCall(mayAnswer, s.cache, s.calls[i]);
      var q := PositionFetch.Request(missing, mayAnswer);
      var steps := PositionFetch.CancelledIdIsMissed(q);
      var received := PositionFetch.Drained(q, steps);
      e := FetchEnds(i, Fetch(missing, steps, PositionFetch.Found(q, received), PositionFetch.Misses(q, received)));
    case Answered(_, _, _, _, _) => e := Second(i);
  }

  /** From any reachable state a call can return without an error, whatever the others are doing. */
  lemma {:induction false} CallCanReturn(mayAnswer: Service, s: State, i: nat) returns (run: seq<Event>)
    requires Inv(mayAnswer, s) && i in s.calls
    ensures Legal(mayAnswer, s, run) && FetchFails(i) !in run
    ensures i in After(s, run).calls && After(s, run).calls[i].Returned?
    decreases StepsLeft(s.calls[i])
  {
    if s.calls[i].Returned? {
      run := [];
    } else {
      var e := CallMoves(mayAnswer, s, i);
      StepKeepsInv(mayAnswer, s, e);
      var rest := CallCanReturn(mayAnswer, Next(s, e), i);
      run := [e] + rest;
      assert run[1..] == rest;
    }
  }
}
