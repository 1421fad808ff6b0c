/** Owner aliases (`cmd/api/owner_identities.go`): an alias map is a functional
    graph on names. Merging cleans two such graphs, lays one over the other and
    replaces every link by the end of its chain, so that one lookup is enough. */
module OwnerAliases {
  import opened OwnerNames
  import opened Results
  import opened SortedStrings
  import opened Text

  datatype AliasError =
    | BlankAlias(source: string)
    | ConflictingAlias(source: string, alias: string, existing: string, canonical: string)
    | AliasCycle(cycle: seq<string>)

  // ---- the graph ----

  /** A chain ends at a name that is unmapped or mapped to itself. */
  predicate Stops(m: Aliases, a: string) {
    a in m ==> m[a] == a
  }

  /** The name reached from `a` after following `n` links. */
  function Walk(m: Aliases, a: string, n: nat): string {
    if n == 0 then a
    else
      var b := Walk(m, a, n - 1);
      if b in m then m[b] else b
  }

  ghost predicate Settles(m: Aliases, a: string) {
    exists n: nat :: Stops(m, Walk(m, a, n))
  }

  /** The end of the chain from `a`. */
  ghost function Target(m: Aliases, a: string): (t: string)
    requires Settles(m, a)
  {
    var n: nat :| Stops(m, Walk(m, a, n));
    Walk(m, a, n)
  }

  /** A closed walk through at least two names, none visited twice. */
  ghost predicate IsLoop(m: Aliases, c: seq<string>) {
    && |c| >= 3
    && c[0] == c[|c| - 1]
    && (forall i :: 0 <= i < |c| - 1 ==> c[i] in m && m[c[i]] == c[i + 1])
    && (forall i, j :: 0 <= i < j < |c| - 1 ==> c[i] != c[j])
  }

  /** A loop written down canonically: from its least name back to it. */
  ghost predicate IsReport(m: Aliases, c: seq<string>) {
    IsLoop(m, c) && forall i :: 0 < i < |c| - 1 ==> Less(c[0], c[i])
  }

  ghost predicate Enters(m: Aliases, a: string, c: seq<string>) {
    |c| > 0 && exists n: nat :: Walk(m, a, n) == c[0]
  }

  lemma {:induction false} StopsForever(m: Aliases, a: string, n: nat, k: nat)
    requires Stops(m, Walk(m, a, n)) && n <= k
    ensures Walk(m, a, k) == Walk(m, a, n)
    decreases k
  {
    if n < k { StopsForever(m, a, n, k - 1); }
  }

  lemma {:induction false} TargetIs(m: Aliases, a: string, n: nat)
    requires Stops(m, Walk(m, a, n))
    ensures Settles(m, a) && Target(m, a) == Walk(m, a, n)
  {
    var k: nat :| Stops(m, Walk(m, a, k)) && Target(m, a) == Walk(m, a, k);
    if n <= k { StopsForever(m, a, n, k); } else { StopsForever(m, a, k, n); }
  }

  lemma {:induction false} StaysInLoop(m: Aliases, a: string, c: seq<string>, n: nat, k: nat) returns (i: nat)
    requires IsLoop(m, c) && Walk(m, a, n) == c[0] && n <= k
    ensures i < |c| - 1 && Walk(m, a, k) == c[i]
    decreases k
  {
    if n == k {
      i := 0;
    } else {
      i := StaysInLoop(m, a, c, n, k - 1);
      i := if i == |c| - 2 then 0 else i + 1;
    }
  }

  lemma {:induction false} LoopNeverStops(m: Aliases, c: seq<string>, i: nat)
    requires IsLoop(m, c) && i < |c| - 1
    ensures !Stops(m, c[i])
  {
    assert m[c[i]] == c[i + 1];
    if i == |c| - 2 { assert c[0] != c[i]; } else { assert c[i] != c[i + 1]; }
  }

  /** A chain that runs into a loop has no end. */
  lemma {:induction false} EnteringALoopNeverSettles(m: Aliases, a: string, c: seq<string>)
    requires IsLoop(m, c) && Enters(m, a, c)
    ensures !Settles(m, a)
  {
    var n: nat :| Walk(m, a, n) == c[0];
    forall k: nat ensures !Stops(m, Walk(m, a, k)) {
      if k < n {
        if Stops(m, Walk(m, a, k)) {
          StopsForever(m, a, k, n);
          LoopNeverStops(m, c, 0);
        }
      } else {
        var i := StaysInLoop(m, a, c, n, k);
        LoopNeverStops(m, c, i);
      }
    }
  }

  lemma {:induction false} LoopFollowsLoop(m: Aliases, c: seq<string>, d: seq<string>, i: nat)
    requires IsLoop(m, c) && IsLoop(m, d) && c[0] == d[0]
    requires i < |c| && i < |d|
    ensures c[i] == d[i]
  {
    if i > 0 { LoopFollowsLoop(m, c, d, i - 1); }
  }

  lemma {:induction false} SameStartSameLoop(m: Aliases, c: seq<string>, d: seq<string>)
    requires IsLoop(m, c) && IsLoop(m, d) && c[0] == d[0]
    ensures c == d
  {
    forall i | 0 <= i < |c| && i < |d| ensures c[i] == d[i] { LoopFollowsLoop(m, c, d, i); }
    assert !(|c| < |d|) && !(|d| < |c|);
  }

  lemma {:induction false} LoopReaches(m: Aliases, c: seq<string>, d: seq<string>, i: nat, k: nat) returns (j: nat)
    requires IsLoop(m, c) && IsLoop(m, d)
    requires i < |c| - 1 && c[0] == Walk(m, c[0], 0)
    requires k < |d| - 1 && c[i] == d[k]
    ensures j < |d| - 1 && d[j] == c[0]
    decreases |c| - i
  {
    var k' := if k == |d| - 2 then 0 else k + 1;
    assert d[k'] == m[d[k]];
    if i == |c| - 2 {
      j := k';
    } else {
      j := LoopReaches(m, c, d, i + 1, k');
    }
  }

  /** The report is canonical: any two aliases whose chains share a loop (here, any two
      reports with a name in common) are told the same sequence. */
  lemma {:induction false} ReportsThatMeetAreEqual(m: Aliases, c: seq<string>, d: seq<string>, i: nat, k: nat)
    requires IsReport(m, c) && IsReport(m, d)
    requires i < |c| - 1 && k < |d| - 1 && c[i] == d[k]
    ensures c == d
  {
    var j := LoopReaches(m, c, d, i, k);
    var j' := LoopReaches(m, d, c, k, i);
    if j > 0 && j' > 0 {
      LessTransitive(c[0], d[0], c[0]);
      LessIrreflexive(c[0]);
    }
    SameStartSameLoop(m, c, d);
  }

  /** One alias can only be told one report. */
  lemma {:induction false} ReportUnique(m: Aliases, a: string, c: seq<string>, d: seq<string>)
    requires IsReport(m, c) && IsReport(m, d) && Enters(m, a, c) && Enters(m, a, d)
    ensures c == d
  {
    var n: nat :| Walk(m, a, n) == c[0];
    var k: nat :| Walk(m, a, k) == d[0];
    if n <= k {
      var i := StaysInLoop(m, a, c, n, k);
      ReportsThatMeetAreEqual(m, c, d, i, 0);
    } else {
      var i := StaysInLoop(m, a, d, k, n);
      ReportsThatMeetAreEqual(m, c, d, 0, i);
    }
  }

  // ---- resolving one alias ----

  /** The part of a walk between two visits of one name, started at its least
      element and closed, is a report. */
  lemma {:induction false} RotationIsReport(m: Aliases, cycle: seq<string>, first: nat)
    requires |cycle| >= 2 && first < |cycle|
    requires forall i :: 0 <= i < |cycle| ==> cycle[i] in m
    requires forall i :: 0 <= i < |cycle| - 1 ==> m[cycle[i]] == cycle[i + 1]
    requires m[cycle[|cycle| - 1]] == cycle[0]
    requires forall i, j :: 0 <= i < j < |cycle| ==> cycle[i] != cycle[j]
    requires forall i :: 0 <= i < |cycle| && i != first ==> Less(cycle[first], cycle[i])
    ensures IsReport(m, cycle[first..] + cycle[..first] + [cycle[first]])
  {
    var n := |cycle|;
    var c := cycle[first..] + cycle[..first] + [cycle[first]];
    forall i | 0 <= i < n
      ensures c[i] == if i < n - first then cycle[i + first] else cycle[i + first - n]
    {
    }
  }

  /** Rotates a cycle to start at its least name and closes it. */
  method CycleReport(cycle: seq<string>, ghost m: Aliases) returns (report: seq<string>)
    requires |cycle| >= 2
    requires forall i :: 0 <= i < |cycle| ==> cycle[i] in m
    requires forall i :: 0 <= i < |cycle| - 1 ==> m[cycle[i]] == cycle[i + 1]
    requires m[cycle[|cycle| - 1]] == cycle[0]
    requires forall i, j :: 0 <= i < j < |cycle| ==> cycle[i] != cycle[j]
    ensures IsReport(m, report) && report[0] in cycle
  {
    var first := 0;
    for i := 1 to |cycle|
      invariant first < i
      invariant forall k :: 0 <= k < i && k != first ==> Less(cycle[first], cycle[k])
    {
      if Less(cycle[i], cycle[first]) {
        forall k | 0 <= k < i && k != first ensures Less(cycle[i], cycle[k]) {
          LessTransitive(cycle[i], cycle[first], cycle[k]);
        }
        first := i;
      } else {
        LessTotal(cycle[i], cycle[first]);
      }
    }
    RotationIsReport(m, cycle, first);
    var rotated := cycle[first..] + cycle[..first];
    report := rotated + [rotated[0]];
  }

  /** `path` lists the first names of the walk from `a`: distinct, all mapped, each linked to the next. */
  ghost predicate Trail(m: Aliases, a: string, path: seq<string>) {
    && (forall i :: 0 <= i < |path| ==> path[i] == Walk(m, a, i) && path[i] in m)
    && (forall i :: 0 <= i < |path| - 1 ==> m[path[i]] == path[i + 1])
    && (forall i, j :: 0 <= i < j < |path| ==> path[i] != path[j])
  }

  ghost predicate Positions(positions: map<string, nat>, path: seq<string>) {
    && (forall i :: 0 <= i < |path| ==> path[i] in positions && positions[path[i]] == i)
    && (forall a :: a in positions ==> positions[a] < |path| && path[positions[a]] == a)
  }

  /** Where a trail leads: the first name not on it yet. */
  function NextAfter(m: Aliases, a: string, path: seq<string>): string {
    if path == [] then a
    else if path[|path| - 1] in m then m[path[|path| - 1]]
    else path[|path| - 1]
  }

  lemma {:induction false} TrailGrows(m: Aliases, a: string, path: seq<string>, positions: map<string, nat>)
    requires Trail(m, a, path) && Positions(positions, path)
    ensures NextAfter(m, a, path) == Walk(m, a, |path|)
    ensures NextAfter(m, a, path) in m && NextAfter(m, a, path) !in positions ==>
      && Trail(m, a, path + [NextAfter(m, a, path)])
    ensures NextAfter(m, a, path) !in positions ==>
      && Positions(positions[NextAfter(m, a, path) := |path|], path + [NextAfter(m, a, path)])
  {
    assert path != [] ==> path[|path| - 1] == Walk(m, a, |path| - 1);
  }

  lemma {:induction false} ReportOnTrail(m: Aliases, a: string, path: seq<string>, start: nat, c: seq<string>)
    requires Trail(m, a, path) && start < |path|
    requires IsReport(m, c) && c[0] in path[start..]
    ensures Enters(m, a, c) && !Settles(m, a)
  {
    var i :| start <= i < |path| && path[i] == c[0];
    assert Walk(m, a, i) == c[0];
    EnteringALoopNeverSettles(m, a, c);
  }

  method ResolveOwnerAlias(alias: string, aliases: Aliases) returns (r: Result<string, AliasError>)
    ensures r.Ok? <==> Settles(aliases, alias)
    ensures r.Ok? ==> r.value == Target(aliases, alias)
    ensures r.Err? ==> r.error.AliasCycle? && IsReport(aliases, r.error.cycle) && Enters(aliases, alias, r.error.cycle)
  {
    var path: seq<string> := [];
    var positions: map<string, nat> := map[];
    var current := alias;
    while true
      invariant Trail(aliases, alias, path) && Positions(positions, path)
      invariant current == NextAfter(aliases, alias, path) && current !in positions
      decreases aliases.Keys - positions.Keys
    {
      ghost var unvisited := aliases.Keys - positions.Keys;
      TrailGrows(aliases, alias, path, positions);
      positions := positions[current := |path|];
      path := path + [current];

      if current !in aliases || aliases[current] == current {
        TargetIs(aliases, alias, |path| - 1);
        return Ok(current);
      }
      var next := aliases[current];
      assert next == NextAfter(aliases, alias, path);
      if next in positions {
        var start := positions[next];
        assert path[start] == next && start < |path| - 1;
        var cycle := CycleReport(path[start..], aliases);
        ReportOnTrail(aliases, alias, path, start, cycle);
        return Err(AliasCycle(cycle));
      }
      assert current in unvisited && aliases.Keys - positions.Keys == unvisited - {current};
      current := next;
    }
  }

  // ---- cleaning one alias map ----

  ghost predicate BlankEntry(m: Aliases, k: string)
    requires k in m
  {
    Clean(k) == "" || Clean(m[k]) == ""
  }

  /** Two spellings of one alias that disagree on its canonical name. */
  ghost predicate Clashes(m: Aliases, j: string, k: string)
    requires j in m && k in m
  {
    Clean(j) == Clean(k) && Clean(m[j]) != Clean(m[k])
  }

  ghost predicate Normalizable(m: Aliases) {
    && (forall k :: k in m ==> !BlankEntry(m, k))
    && (forall j, k :: j in m && k in m ==> !Clashes(m, j, k))
  }

  ghost function Image(f: string -> string, s: set<string>): set<string> {
    if s == {} then {} else var x :| x in s; Image(f, s - {x}) + {f(x)}
  }

  lemma {:induction false} ImageHas(f: string -> string, s: set<string>, x: string)
    requires x in s
    ensures f(x) in Image(f, s)
    decreases |s|
  {
    var y :| y in s && Image(f, s) == Image(f, s - {y}) + {f(y)};
    if x != y { ImageHas(f, s - {y}, x); }
  }

  ghost function ImageSource(f: string -> string, s: set<string>, c: string): (x: string)
    requires c in Image(f, s)
    ensures x in s && f(x) == c
    decreases |s|
  {
    var y :| y in s && Image(f, s) == Image(f, s - {y}) + {f(y)};
    if c == f(y) then y else ImageSource(f, s - {y}, c)
  }

  lemma {:induction false} ImageStep(f: string -> string, s: set<string>, x: string)
    ensures Image(f, s + {x}) == Image(f, s) + {f(x)}
  {
    forall c | c in Image(f, s + {x}) ensures c in Image(f, s) + {f(x)} {
      var y := ImageSource(f, s + {x}, c);
      if y in s { ImageHas(f, s, y); }
    }
    forall c | c in Image(f, s) ensures c in Image(f, s + {x}) {
      var y := ImageSource(f, s, c);
      ImageHas(f, s + {x}, y);
    }
    ImageHas(f, s + {x}, x);
  }

  /** `n` is `m` restricted to `done`, its keys and values rewritten by `clean`. */
  ghost predicate Rewrites(clean: string -> string, m: Aliases, done: set<string>, n: Aliases) {
    && done <= m.Keys
    && n.Keys == Image(clean, done)
    && forall k {:trigger n[clean(k)]} :: k in done && clean(k) in n ==> n[clean(k)] == clean(m[k])
  }

  lemma {:induction false} RewritesOneWay(clean: string -> string, m: Aliases, done: set<string>, n: Aliases, p: Aliases)
    requires Rewrites(clean, m, done, n) && Rewrites(clean, m, done, p)
    ensures n == p
  {
    forall c | c in n ensures n[c] == p[c] {
      var k := ImageSource(clean, done, c);
      assert n[clean(k)] == p[clean(k)];
    }
  }

  lemma {:induction false} RewritesOneMore(clean: string -> string, m: Aliases, done: set<string>, n: Aliases, k: string)
    requires Rewrites(clean, m, done, n) && k in m
    requires clean(k) in n ==> n[clean(k)] == clean(m[k])
    ensures Rewrites(clean, m, done + {k}, n[clean(k) := clean(m[k])])
  {
    var n' := n[clean(k) := clean(m[k])];
    ImageStep(clean, done, k);
    forall l {:trigger n'[clean(l)]} | l in done + {k} && clean(l) in n' ensures n'[clean(l)] == clean(m[l]) {
      if l != k {
        ImageHas(clean, done, l);
        assert n[clean(l)] == clean(m[l]);
      }
    }
  }

  lemma {:induction false} NormalizedExists(m: Aliases)
    requires Normalizable(m)
    ensures exists n :: Rewrites(Clean, m, m.Keys, n)
  {
    var n: Aliases := map c | c in Image(Clean, m.Keys) :: Clean(m[ImageSource(Clean, m.Keys, c)]);
    forall k {:trigger n[Clean(k)]} | k in m.Keys && Clean(k) in n ensures n[Clean(k)] == Clean(m[k]) {
      var j := ImageSource(Clean, m.Keys, Clean(k));
      assert !Clashes(m, j, k);
    }
    assert Rewrites(Clean, m, m.Keys, n);
  }

  /** The cleaned map: every key and value replaced by its clean form. */
  ghost function Normalized(m: Aliases): (n: Aliases)
    requires Normalizable(m)
    ensures Rewrites(Clean, m, m.Keys, n)
  {
    NormalizedExists(m);
    var n :| Rewrites(Clean, m, m.Keys, n);
    n
  }

  ghost predicate ClashesEarlier(m: Aliases, k: string)
    requires k in m
  {
    exists j :: j in m && Less(j, k) && Clashes(m, j, k)
  }

  ghost predicate Passes(m: Aliases, k: string)
    requires k in m
  {
    !BlankEntry(m, k) && !ClashesEarlier(m, k)
  }

  /** The error for `m` is about the first key, in key order, that does not pass. */
  ghost predicate FirstFailure(m: Aliases, k: string) {
    k in m && !Passes(m, k) && forall j :: j in m && Less(j, k) ==> Passes(m, j)
  }

  ghost predicate ErrorAt(m: Aliases, k: string, source: string, e: AliasError)
    requires k in m
  {
    if BlankEntry(m, k) then e == BlankAlias(source)
    else
      exists j :: j in m && Less(j, k) && Clashes(m, j, k)
        && e == ConflictingAlias(source, Clean(k), Clean(m[j]), Clean(m[k]))
  }

  ghost predicate NormalizeError(m: Aliases, source: string, e: AliasError) {
    exists k :: FirstFailure(m, k) && ErrorAt(m, k, source, e)
  }

  lemma {:induction false} ErrorAtUnique(m: Aliases, k: string, source: string, e: AliasError, f: AliasError)
    requires FirstFailure(m, k) && ErrorAt(m, k, source, e) && ErrorAt(m, k, source, f)
    ensures e == f
  {
    if !BlankEntry(m, k) {
      var i :| i in m && Less(i, k) && Clashes(m, i, k) && e == ConflictingAlias(source, Clean(k), Clean(m[i]), Clean(m[k]));
      var j :| j in m && Less(j, k) && Clashes(m, j, k) && f == ConflictingAlias(source, Clean(k), Clean(m[j]), Clean(m[k]));
      LessTotal(i, j);
      assert Passes(m, i) && Passes(m, j);
      if Less(i, j) {
        assert !Clashes(m, i, j);
      } else if Less(j, i) {
        assert !Clashes(m, j, i);
      }
    }
  }

  /** Nothing about the error is left to the map's iteration order. */
  lemma {:induction false} NormalizeErrorUnique(m: Aliases, source: string, e: AliasError, f: AliasError)
    requires NormalizeError(m, source, e) && NormalizeError(m, source, f)
    ensures e == f
  {
    var k :| FirstFailure(m, k) && ErrorAt(m, k, source, e);
    var l :| FirstFailure(m, l) && ErrorAt(m, l, source, f);
    LessTotal(k, l);
    assert k == l;
    ErrorAtUnique(m, k, source, e, f);
  }

  lemma {:induction false} FailureMeansNotNormalizable(m: Aliases, k: string)
    requires k in m && !Passes(m, k)
    ensures !Normalizable(m)
  {
    if !BlankEntry(m, k) {
      var j :| j in m && Less(j, k) && Clashes(m, j, k);
    }
  }

  /** What the loop has built once the keys in `done` are through. */
  ghost predicate NormalizesPart(m: Aliases, done: set<string>, n: Aliases) {
    Rewrites(Clean, m, done, n) && forall k :: k in done ==> Passes(m, k)
  }

  lemma {:induction false} NormalizedIsWholePart(m: Aliases, n: Aliases)
    requires NormalizesPart(m, m.Keys, n)
    ensures Normalizable(m) && n == Normalized(m)
  {
    NothingClashes(m);
    RewritesOneWay(Clean, m, m.Keys, n, Normalized(m));
  }

  lemma {:induction false} PartGrows(m: Aliases, done: set<string>, n: Aliases, k: string)
    requires NormalizesPart(m, done, n) && k in m && Passes(m, k)
    requires Clean(k) in n ==> n[Clean(k)] == Clean(m[k])
    ensures NormalizesPart(m, done + {k}, n[Clean(k) := Clean(m[k])])
  {
    RewritesOneMore(Clean, m, done, n, k);
  }

  /** The lookup in the map built so far detects exactly a clash with an earlier key. */
  lemma {:induction false} NoEarlierClash(m: Aliases, done: set<string>, n: Aliases, k: string, source: string)
    requires NormalizesPart(m, done, n) && k in m && !BlankEntry(m, k)
    requires forall j :: j in done <==> j in m && Less(j, k)
    ensures Passes(m, k) <==> (Clean(k) in n ==> n[Clean(k)] == Clean(m[k]))
    ensures !Passes(m, k) ==>
      Clean(k) in n && ErrorAt(m, k, source, ConflictingAlias(source, Clean(k), n[Clean(k)], Clean(m[k])))
  {
    if Clean(k) in n {
      var j := ImageSource(Clean, done, Clean(k));
      assert n[Clean(j)] == Clean(m[j]);
      if n[Clean(k)] != Clean(m[k]) {
        assert Clashes(m, j, k);
      } else {
        forall i | i in m && Less(i, k) ensures !Clashes(m, i, k) {
          ImageHas(Clean, done, i);
          assert n[Clean(i)] == Clean(m[i]);
        }
      }
    } else {
      forall i | i in m && Less(i, k) ensures !Clashes(m, i, k) {
        ImageHas(Clean, done, i);
      }
    }
  }

  method NormalizeOwnerAliasMap(aliases: Aliases, source: string) returns (r: Result<Aliases, AliasError>)
    ensures r.Ok? <==> Normalizable(aliases)
    ensures r.Ok? ==> r.value == Normalized(aliases)
    ensures r.Err? ==> NormalizeError(aliases, source, r.error)
  {
    var keys := SortedKeys(aliases);
    var normalized: Aliases := map[];
    for i := 0 to |keys|
      invariant NormalizesPart(aliases, KeySet(keys[..i]), normalized)
    {
      var alias := keys[i];
      var normalizedAlias := Clean(alias);
      EarlierKeys(aliases, keys, i);
      var normalizedCanonical := Clean(aliases[alias]);
      if normalizedAlias == "" || normalizedCanonical == "" {
        FailsAt(aliases, KeySet(keys[..i]), normalized, alias, source, BlankAlias(source));
        return Err(BlankAlias(source));
      }
      NoEarlierClash(aliases, KeySet(keys[..i]), normalized, alias, source);
      if normalizedAlias in normalized && normalized[normalizedAlias] != normalizedCanonical {
        r := Err(ConflictingAlias(source, normalizedAlias, normalized[normalizedAlias], normalizedCanonical));
        FailsAt(aliases, KeySet(keys[..i]), normalized, alias, source, r.error);
        return;
      }
      PartGrows(aliases, KeySet(keys[..i]), normalized, alias);
      KeySetStep(keys, i);
      normalized := normalized[normalizedAlias := normalizedCanonical];
    }
    KeySetFull(keys);
    NormalizedIsWholePart(aliases, normalized);
    r := Ok(normalized);
  }

  lemma {:induction false} FailsAt(m: Aliases, done: set<string>, n: Aliases, k: string, source: string, e: AliasError)
    requires NormalizesPart(m, done, n) && k in m && !Passes(m, k) && ErrorAt(m, k, source, e)
    requires forall j :: j in done <==> j in m && Less(j, k)
    ensures NormalizeError(m, source, e) && !Normalizable(m)
  {
    assert FirstFailure(m, k);
    FailureMeansNotNormalizable(m, k);
  }

  lemma {:induction false} EarlierKeys(m: Aliases, keys: seq<string>, i: nat)
    requires Ascending(keys) && i < |keys| && KeySet(keys) == m.Keys
    ensures keys[i] in m
    ensures forall j :: j in KeySet(keys[..i]) <==> j in m && Less(j, keys[i])
  {
    KeySetIsElements(keys);
    KeySetIsElements(keys[..i]);
    forall j | j in m && Less(j, keys[i]) ensures j in keys[..i] {
      var l :| 0 <= l < |keys| && keys[l] == j;
      if l >= i {
        LessIrreflexive(j);
        if l > i { LessTransitive(j, keys[i], j); }
      }
    }
  }

  lemma {:induction false} NothingClashes(m: Aliases)
    requires forall k :: k in m ==> Passes(m, k)
    ensures Normalizable(m)
  {
    forall j, k | j in m && k in m ensures !Clashes(m, j, k) {
      LessTotal(j, k);
      if Less(j, k) {
        assert !ClashesEarlier(m, k);
      } else if Less(k, j) {
        assert !ClashesEarlier(m, j) && !Clashes(m, k, j);
      }
    }
  }

  // ---- merging ----

  ghost predicate HasLoop(m: Aliases) {
    exists c :: IsLoop(m, c)
  }

  ghost function Flattened(m: Aliases): (f: Aliases)
    requires forall k :: k in m ==> Settles(m, k)
  {
    map k | k in m :: Target(m, k)
  }

  ghost predicate FirstEndless(m: Aliases, a: string) {
    a in m && !Settles(m, a) && forall b :: b in m && Less(b, a) ==> Settles(m, b)
  }

  ghost predicate LoopError(m: Aliases, e: AliasError) {
    e.AliasCycle? && IsReport(m, e.cycle) && exists a :: FirstEndless(m, a) && Enters(m, a, e.cycle)
  }

  const BASE_SOURCE := "owner identity aliases"
  const OVERRIDES_SOURCE := "OWNER_ALIASES_JSON"

  /** The merged graph before flattening: overrides win. */
  ghost function Overlay(base: Aliases, overrides: Aliases): Aliases
    requires Normalizable(base) && Normalizable(overrides)
  {
    Normalized(base) + Normalized(overrides)
  }

  ghost predicate Mergeable(base: Aliases, overrides: Aliases) {
    Normalizable(base) && Normalizable(overrides) && !HasLoop(Overlay(base, overrides))
  }

  /** Which error a failing merge reports: the base map's, else the overrides', else the
      loop that the least alias with an endless chain runs into. */
  ghost predicate MergeError(base: Aliases, overrides: Aliases, e: AliasError) {
    if !Normalizable(base) then NormalizeError(base, BASE_SOURCE, e)
    else if !Normalizable(overrides) then NormalizeError(overrides, OVERRIDES_SOURCE, e)
    else LoopError(Overlay(base, overrides), e)
  }

  /** Flattens a cleaned graph, in key order. */
  method FlattenAliases(merged: Aliases) returns (r: Result<Aliases, AliasError>)
    ensures r.Ok? <==> !HasLoop(merged)
    ensures r.Ok? ==> (forall k :: k in merged ==> Settles(merged, k)) && r.value == Flattened(merged)
    ensures r.Err? ==> LoopError(merged, r.error)
  {
    var keys := SortedKeys(merged);
    var flattened: Aliases := map[];
    for i := 0 to |keys|
      invariant FlattensPart(merged, KeySet(keys[..i]), flattened)
    {
      EarlierKeys(merged, keys, i);
      var canonical := ResolveOwnerAlias(keys[i], merged);
      if canonical.Err? {
        assert FirstEndless(merged, keys[i]) && IsLoop(merged, canonical.error.cycle);
        return Err(canonical.error);
      }
      KeySetStep(keys, i);
      flattened := flattened[keys[i] := canonical.value];
    }
    KeySetFull(keys);
    NoLoopWhenAllSettle(merged);
    r := Ok(flattened);
  }

  ghost predicate FlattensPart(m: Aliases, done: set<string>, f: Aliases) {
    f.Keys == done && forall k :: k in done ==> Settles(m, k) && f[k] == Target(m, k)
  }

  lemma {:induction false} NoLoopWhenAllSettle(m: Aliases)
    requires forall k :: k in m ==> Settles(m, k)
    ensures !HasLoop(m)
  {
    if HasLoop(m) {
      var c :| IsLoop(m, c);
      assert Walk(m, c[0], 0) == c[0];
      EnteringALoopNeverSettles(m, c[0], c);
    }
  }

  method MergeOwnerAliases(base: Aliases, overrides: Aliases) returns (r: Result<Aliases, AliasError>)
    ensures r.Ok? <==> Mergeable(base, overrides)
    ensures r.Ok? ==> (forall k :: k in Overlay(base, overrides) ==> Settles(Overlay(base, overrides), k))
    ensures r.Ok? ==> r.value == Flattened(Overlay(base, overrides))
    ensures r.Ok? ==> Flat(r.value)
    ensures r.Err? ==> MergeError(base, overrides, r.error)
  {
    var normalizedBase := NormalizeOwnerAliasMap(base, BASE_SOURCE);
    if normalizedBase.Err? { return normalizedBase; }
    var normalizedOverrides := NormalizeOwnerAliasMap(overrides, OVERRIDES_SOURCE);
    if normalizedOverrides.Err? { return normalizedOverrides; }

    var merged := normalizedBase.value + normalizedOverrides.value;
    r := FlattenAliases(merged);
    if r.Ok? {
      OverlayIsClean(base, overrides);
      FlattenedIsFlat(merged);
    }
  }

  lemma {:induction false} MergeErrorUnique(base: Aliases, overrides: Aliases, e: AliasError, f: AliasError)
    requires MergeError(base, overrides, e) && MergeError(base, overrides, f)
    ensures e == f
  {
    if !Normalizable(base) {
      NormalizeErrorUnique(base, BASE_SOURCE, e, f);
    } else if !Normalizable(overrides) {
      NormalizeErrorUnique(overrides, OVERRIDES_SOURCE, e, f);
    } else {
      var m := Overlay(base, overrides);
      var a :| FirstEndless(m, a) && Enters(m, a, e.cycle);
      var b :| FirstEndless(m, b) && Enters(m, b, f.cycle);
      LessTotal(a, b);
      assert a == b;
      ReportUnique(m, a, e.cycle, f.cycle);
    }
  }

  // ---- what merging is for ----

  lemma {:induction false} RewrittenCleanly(m: Aliases, done: set<string>, n: Aliases)
    requires Rewrites(Clean, m, done, n)
    requires forall k :: k in done ==> !BlankEntry(m, k)
    ensures forall c :: c in n ==> IsClean(c) && c != "" && IsClean(n[c]) && n[c] != ""
  {
    forall c | c in n ensures IsClean(c) && c != "" && IsClean(n[c]) && n[c] != "" {
      var k := ImageSource(Clean, done, c);
      assert !BlankEntry(m, k) && n[Clean(k)] == Clean(m[k]);
      CleanNormalForm(k);
      CleanNormalForm(m[k]);
    }
  }

  ghost predicate AllClean(m: Aliases) {
    forall c :: c in m ==> IsClean(c) && c != "" && IsClean(m[c]) && m[c] != ""
  }

  lemma {:induction false} OverlayIsClean(base: Aliases, overrides: Aliases)
    requires Normalizable(base) && Normalizable(overrides)
    ensures AllClean(Overlay(base, overrides))
  {
    RewrittenCleanly(base, base.Keys, Normalized(base));
    RewrittenCleanly(overrides, overrides.Keys, Normalized(overrides));
  }

  lemma {:induction false} WalkIsClean(m: Aliases, a: string, n: nat)
    requires AllClean(m) && a in m
    ensures IsClean(Walk(m, a, n)) && Walk(m, a, n) != ""
  {
    if n > 0 { WalkIsClean(m, a, n - 1); }
  }

  lemma {:induction false} FlattenedIsFlat(m: Aliases)
    requires AllClean(m) && forall k :: k in m ==> Settles(m, k)
    ensures Flat(Flattened(m))
  {
    var f := Flattened(m);
    forall k | k in f ensures IsClean(k) && k != "" && IsClean(f[k]) && f[k] != "" {
      var n: nat :| Stops(m, Walk(m, k, n));
      TargetIs(m, k, n);
      WalkIsClean(m, k, n);
    }
    forall k, c | k in f && c in f && f[k] == c ensures f[c] == c {
      assert Stops(m, Walk(m, c, 0));
      TargetIs(m, c, 0);
    }
  }

  /** One lookup in the flattened map finds the end of the whole chain in the merged one. */
  lemma {:induction false} OneLookupIsEnough(m: Aliases, owner: string)
    requires AllClean(m) && forall k :: k in m ==> Settles(m, k)
    ensures Settles(m, Clean(owner))
    ensures NormalizeOwner(owner, Flattened(m)) == Target(m, Clean(owner))
  {
    var c := Clean(owner);
    FlattenedIsFlat(m);
    if c in m {
      CleanNormalForm(Flattened(m)[c]);
    } else {
      assert Stops(m, Walk(m, c, 0));
      TargetIs(m, c, 0);
    }
  }

  lemma {:induction false} NormalizingFlatChangesNothing(f: Aliases)
    requires Flat(f)
    ensures Normalizable(f) && Normalized(f) == f
  {
    forall k | k in f ensures !BlankEntry(f, k) && Clean(k) == k && Clean(f[k]) == f[k] {
      CleanNormalForm(k);
      CleanNormalForm(f[k]);
    }
    forall j, k | j in f && k in f ensures !Clashes(f, j, k) {
    }
    ImageOfFixedPoints(Clean, f.Keys);
    assert Rewrites(Clean, f, f.Keys, f);
    RewritesOneWay(Clean, f, f.Keys, f, Normalized(f));
  }

  lemma {:induction false} ImageOfFixedPoints(f: string -> string, s: set<string>)
    requires forall x :: x in s ==> f(x) == x
    ensures Image(f, s) == s
  {
    forall c | c in Image(f, s) ensures c in s { var x := ImageSource(f, s, c); }
    forall c | c in s ensures c in Image(f, s) { ImageHas(f, s, c); }
  }

  lemma {:induction false} NormalizingNothing(none: Aliases)
    requires none == map[]
    ensures Normalizable(none) && Normalized(none) == none
  {
    RewritesOneWay(Clean, none, none.Keys, Normalized(none), none);
  }

  lemma {:induction false} FlatLinkIsTarget(f: Aliases, k: string)
    requires Flat(f) && k in f
    ensures Settles(f, k) && Target(f, k) == f[k]
  {
    assert Walk(f, k, 0) == k;
    assert Walk(f, k, 1) == f[k];
    TargetIs(f, k, 1);
  }

  lemma {:induction false} OverlayingNothing(f: Aliases, none: Aliases)
    requires Normalizable(f) && Normalizable(none) && Normalized(f) == f && Normalized(none) == none == map[]
    ensures Overlay(f, none) == f
  {
    assert f + none == f;
  }

  /** Merging a flat map with nothing is the identity: it succeeds and returns the map. */
  lemma {:induction false} MergingFlatChangesNothing(f: Aliases)
    requires Flat(f)
    ensures Mergeable(f, map[])
    ensures forall k :: k in Overlay(f, map[]) ==> Settles(Overlay(f, map[]), k)
    ensures Flattened(Overlay(f, map[])) == f
  {
    var none: Aliases := map[];
    NormalizingFlatChangesNothing(f);
    NormalizingNothing(none);
    OverlayingNothing(f, none);
    FlatIsFlattened(f);
  }

  lemma {:induction false} FlatIsFlattened(f: Aliases)
    requires Flat(f)
    ensures !HasLoop(f)
    ensures forall k :: k in f ==> Settles(f, k)
    ensures Flattened(f) == f
  {
    forall k | k in f ensures Settles(f, k) && Target(f, k) == f[k] {
      FlatLinkIsTarget(f, k);
    }
    NoLoopWhenAllSettle(f);
  }
}
