/** Go's `sort.Strings` on a list without repeats. */
module SortedStrings {
  import opened Sorting
  import opened Text

  ghost predicate Ascending(s: seq<string>) {
    forall i, j :: 0 <= i < j < |s| ==> Less(s[i], s[j])
  }

  ghost predicate Distinct<T>(s: seq<T>) {
    forall i, j :: 0 <= i < j < |s| ==> s[i] != s[j]
  }

  lemma {:induction false} TwicePresent<T>(s: seq<T>, i: nat, j: nat)
    requires i < j < |s| && s[i] == s[j]
    ensures multiset(s)[s[i]] >= 2
  {
    assert s == s[..i] + [s[i]] + s[i + 1..j] + [s[j]] + s[j + 1..];
  }

  lemma {:induction false} OncePresent<T>(s: seq<T>, x: T)
    requires Distinct(s)
    ensures multiset(s)[x] <= 1
    decreases |s|
  {
    if |s| > 0 {
      var t := s[..|s| - 1];
      assert s == t + [s[|s| - 1]];
      OncePresent(t, x);
      if x == s[|s| - 1] {
        assert x !in t;
      }
    }
  }

  lemma {:induction false} DistinctArrangement<T>(seen: seq<T>, s: seq<T>)
    requires multiset(s) == multiset(seen) && Distinct(seen)
    ensures Distinct(s)
  {
    forall i, j | 0 <= i < j < |s| ensures s[i] != s[j] {
      if s[i] == s[j] {
        TwicePresent(s, i, j);
        OncePresent(seen, s[i]);
      }
    }
  }

  method SortStrings(s: seq<string>) returns (r: seq<string>)
    requires Distinct(s)
    ensures Ascending(r)
    ensures forall x :: x in r <==> x in s
  {
    LessIsStrictTotal();
    r := SortBy(s, Less);
    DistinctArrangement(s, r);
    assert forall x :: x in r <==> x in multiset(r);
    assert forall x :: x in s <==> x in multiset(s);
  }

  ghost function KeySet(keys: seq<string>): set<string> {
    if keys == [] then {} else KeySet(keys[..|keys| - 1]) + {keys[|keys| - 1]}
  }

  lemma {:induction false} KeySetIsElements(keys: seq<string>)
    ensures forall k :: k in KeySet(keys) <==> k in keys
    decreases |keys|
  {
    if keys != [] {
      KeySetIsElements(keys[..|keys| - 1]);
      assert keys == keys[..|keys| - 1] + [keys[|keys| - 1]];
    }
  }

  lemma {:induction false} KeySetStep(keys: seq<string>, i: nat)
    requires i < |keys|
    ensures KeySet(keys[..i + 1]) == KeySet(keys[..i]) + {keys[i]}
  {
    assert keys[..i + 1][..i] == keys[..i];
  }

  lemma {:induction false} KeySetFull(keys: seq<string>)
    ensures KeySet(keys[..|keys|]) == KeySet(keys)
  {
    assert keys[..|keys|] == keys;
  }

  /** The keys of a map in the order of a Go range followed by `sort.Strings`. */
  method SortedKeys<V>(m: map<string, V>) returns (keys: seq<string>)
    ensures Ascending(keys) && KeySet(keys) == m.Keys
  {
    keys := [];
    var remaining := m.Keys;
    while remaining != {}
      invariant Distinct(keys) && remaining <= m.Keys
      invariant forall k :: k in m.Keys <==> k in keys || k in remaining
      invariant forall k :: k in keys ==> k !in remaining
      decreases remaining
    {
      var k :| k in remaining;
      remaining := remaining - {k};
      keys := keys + [k];
    }
    keys := SortStrings(keys);
    KeySetIsElements(keys);
  }

  lemma {:induction false} AscendingIsDistinct(s: seq<string>)
    requires Ascending(s)
    ensures Distinct(s)
  {
    forall i, j | 0 <= i < j < |s| ensures s[i] != s[j] {
      LessIrreflexive(s[i]);
    }
  }

  /** A set has one ascending listing. */
  lemma {:induction false} AscendingUnique(r: seq<string>, s: seq<string>)
    requires Ascending(r) && Ascending(s) && forall x :: x in r <==> x in s
    ensures r == s
    decreases |r|
  {
    assert s != [] ==> s[0] in r;
    if |r| > 0 {
      assert r[0] in s && s[0] in r;
      AscendingIsDistinct(r);
      AscendingIsDistinct(s);
      var i :| 0 <= i < |r| && r[i] == s[0];
      var j :| 0 <= j < |s| && s[j] == r[0];
      if i > 0 && j > 0 {
        LessTransitive(r[0], s[0], r[0]);
        LessIrreflexive(r[0]);
      }
      forall x ensures x in r[1..] <==> x in s[1..] {
        assert x in r[1..] ==> x != r[0];
        assert x in s[1..] ==> x != s[0];
        assert x in r <==> x == r[0] || x in r[1..];
        assert x in s <==> x == s[0] || x in s[1..];
      }
      AscendingUnique(r[1..], s[1..]);
      assert r == [r[0]] + r[1..] && s == [s[0]] + s[1..];
    }
  }
}
