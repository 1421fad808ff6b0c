/** Sorting by a Go `less` callback. A sort is any arrangement of the same
    elements with no later element less than an earlier one; where the callback
    leaves ties, several arrangements qualify and callers may rely on none. */
module Sorting {

  ghost predicate StrictOrder<T(!new)>(less: (T, T) -> bool) {
    && (forall a :: !less(a, a))
    && (forall a, b, c :: less(a, b) && less(b, c) ==> less(a, c))
  }

  /** What `sort.Slice` demands: incomparability is transitive as well. */
  ghost predicate StrictWeakOrder<T(!new)>(less: (T, T) -> bool) {
    && StrictOrder(less)
    && (forall a, b, c :: !less(a, b) && !less(b, c) ==> !less(a, c))
  }

  /** A callback that asks `first`, and `next` when `first` finds no difference. */
  function ThenBy<T>(first: (T, T) -> bool, next: (T, T) -> bool): (T, T) -> bool {
    (a, b) => first(a, b) || (!first(b, a) && next(a, b))
  }

  lemma {:induction false} ThenByIsOrder<T(!new)>(first: (T, T) -> bool, next: (T, T) -> bool)
    requires StrictWeakOrder(first) && StrictWeakOrder(next)
    ensures StrictWeakOrder(ThenBy(first, next))
  {
    var less := ThenBy(first, next);
    forall a, b, c | less(a, b) && less(b, c) ensures less(a, c) {
      assert !first(b, a) && !first(c, b);
    }
    forall a, b, c | !less(a, b) && !less(b, c) ensures !less(a, c) {
      assert !first(a, b) && !first(b, c);
    }
  }

  ghost predicate Sorted<T>(s: seq<T>, less: (T, T) -> bool) {
    forall i, j :: 0 <= i < j < |s| ==> !less(s[j], s[i])
  }

  ghost predicate Arranges<T>(r: seq<T>, s: seq<T>, less: (T, T) -> bool) {
    multiset(r) == multiset(s) && Sorted(r, less)
  }

  /** Inserting `x` behind everything it does not precede keeps a sorted sequence sorted. */
  lemma {:induction false} InsertKeepsSorted<T(!new)>(r: seq<T>, k: nat, x: T, less: (T, T) -> bool)
    requires StrictWeakOrder(less) && Sorted(r, less)
    requires k <= |r|
    requires k > 0 ==> !less(x, r[k - 1])
    requires forall j :: k <= j < |r| ==> less(x, r[j])
    ensures Sorted(r[..k] + [x] + r[k..], less)
  {
    var t := r[..k] + [x] + r[k..];
    forall i, j | 0 <= i < j < |t| ensures !less(t[j], t[i]) {
      if j == k {
        assert t[i] == r[i] && t[j] == x;
        if i < k - 1 {
          assert !less(r[k - 1], r[i]);
        }
      } else if i == k {
        assert t[i] == x && t[j] == r[j - 1];
        assert less(x, r[j - 1]);
      } else {
        var i' := if i < k then i else i - 1;
        var j' := if j < k then j else j - 1;
        assert t[i] == r[i'] && t[j] == r[j'];
      }
    }
  }

  lemma {:induction false} Without<T>(s: seq<T>, i: nat)
    requires i < |s|
    ensures s == s[..i] + [s[i]] + s[i + 1..]
    ensures multiset(s) == multiset(s[..i] + s[i + 1..]) + multiset{s[i]}
  {
    assert s == s[..i] + [s[i]] + s[i + 1..];
    assert multiset(s) == multiset(s[..i]) + multiset([s[i]]) + multiset(s[i + 1..]);
  }

  lemma {:induction false} Inserted<T>(r: seq<T>, k: nat, s: seq<T>, i: nat)
    requires k <= |r| && i < |s| && multiset(r) == multiset(s[..i])
    ensures multiset(r[..k] + [s[i]] + r[k..]) == multiset(s[..i + 1])
  {
    var t := r[..k] + [s[i]] + r[k..];
    Without(t, k);
    assert t[..k] + t[k + 1..] == r;
    assert s[..i + 1] == s[..i] + [s[i]];
  }

  /** Where `x` goes: behind everything it does not precede. */
  function Place<T>(r: seq<T>, x: T, less: (T, T) -> bool): (k: nat)
    ensures k <= |r| && (k > 0 ==> !less(x, r[k - 1])) && forall j :: k <= j < |r| ==> less(x, r[j])
  {
    if r == [] || !less(x, r[|r| - 1]) then |r| else Place(r[..|r| - 1], x, less)
  }

  /** One arrangement of the many there may be. */
  function Insertion<T(!new)>(s: seq<T>, less: (T, T) -> bool): (r: seq<T>)
    requires StrictWeakOrder(less)
    ensures Arranges(r, s, less)
  {
    if s == [] then []
    else
      var n := |s| - 1;
      var r := Insertion(s[..n], less);
      var k := Place(r, s[n], less);
      InsertKeepsSorted(r, k, s[n], less);
      Inserted(r, k, s, n);
      assert s[..n + 1] == s;
      r[..k] + [s[n]] + r[k..]
  }

  /** `sort.Slice`: callers learn only that the result is some arrangement. */
  method SortBy<T(!new)>(s: seq<T>, less: (T, T) -> bool) returns (r: seq<T>)
    requires StrictWeakOrder(less)
    ensures Arranges(r, s, less)
  {
    r := Insertion(s, less);
  }

  lemma {:induction false} SameHead<T(!new)>(r: seq<T>, s: seq<T>, less: (T, T) -> bool)
    requires StrictOrder(less)
    requires forall a, b :: a in r && b in r && a != b ==> less(a, b) || less(b, a)
    requires |r| > 0 && |s| > 0 && Sorted(r, less) && Sorted(s, less)
    requires s[0] in r && r[0] in s
    ensures r[0] == s[0]
  {
    var i :| 0 <= i < |r| && r[i] == s[0];
    var j :| 0 <= j < |s| && s[j] == r[0];
    assert i > 0 ==> !less(r[i], r[0]);
    assert j > 0 ==> !less(s[j], s[0]);
  }

  lemma {:induction false} SplitHead<T>(s: seq<T>)
    requires s != []
    ensures s == [s[0]] + s[1..] && multiset(s) == multiset(s[1..]) + multiset{s[0]}
  {
    assert s == [s[0]] + s[1..];
    assert multiset(s) == multiset([s[0]]) + multiset(s[1..]);
  }

  lemma {:induction false} Cancel<T>(p: multiset<T>, q: multiset<T>, x: T)
    requires p + multiset{x} == q + multiset{x}
    ensures p == q
  {
    assert p == p + multiset{x} - multiset{x};
    assert q == q + multiset{x} - multiset{x};
  }

  /** Two arrangements under an order that separates the elements are the same sequence. */
  lemma {:induction false} ArrangementUnique<T(!new)>(r: seq<T>, s: seq<T>, less: (T, T) -> bool)
    requires StrictOrder(less)
    requires forall a, b :: a in r && b in r && a != b ==> less(a, b) || less(b, a)
    requires multiset(r) == multiset(s) && Sorted(r, less) && Sorted(s, less)
    ensures r == s
    decreases |r|
  {
    if |r| == 0 {
      assert |multiset(s)| == 0;
    } else {
      assert r[0] in multiset(s);
      assert |s| > 0 && s[0] in multiset(r);
      SameHead(r, s, less);
      var r', s' := r[1..], s[1..];
      SplitHead(r);
      SplitHead(s);
      Cancel(multiset(r'), multiset(s'), r[0]);
      assert forall a :: a in r' ==> a in r;
      TailSorted(r, less);
      TailSorted(s, less);
      ArrangementUnique(r', s', less);
    }
  }

  lemma {:induction false} TailSorted<T>(r: seq<T>, less: (T, T) -> bool)
    requires |r| > 0 && Sorted(r, less)
    ensures Sorted(r[1..], less)
  {
    var t := r[1..];
    forall i, j | 0 <= i < j < |t| ensures !less(t[j], t[i]) {
      assert t[i] == r[i + 1] && t[j] == r[j + 1];
    }
  }

  /** A reordering of a list holds the list's first element somewhere, and around it a reordering of the rest. */
  lemma {:induction false} AroundHead<T>(s: seq<T>, perm: seq<T>) returns (a: seq<T>, b: seq<T>)
    requires multiset(perm) == multiset(s) && s != []
    ensures perm == a + [s[0]] + b && multiset(a + b) == multiset(s[1..])
    ensures s == [] + [s[0]] + s[1..] && [] + s[1..] == s[1..]
  {
    assert s[0] in multiset(perm);
    var i :| 0 <= i < |perm| && perm[i] == s[0];
    a, b := perm[..i], perm[i + 1..];
    Without(perm, i);
    Without(s, 0);
    assert s[..0] == [] && [] + s[1..] == s[1..];
    Cancel(multiset(a + b), multiset(s[1..]), s[0]);
  }

  lemma {:induction false} ReorderOfNone<T>(perm: seq<T>)
    requires multiset(perm) == multiset{}
    ensures perm == []
  {
    assert |perm| == |multiset(perm)|;
  }

  /** `f` of each element. */
  function Mapped<T, U>(s: seq<T>, f: T -> U): (r: seq<U>)
    ensures |r| == |s|
  {
    seq(|s|, i requires 0 <= i < |s| => f(s[i]))
  }

  lemma {:induction false} MappedAround<T, U>(a: seq<T>, x: T, b: seq<T>, f: T -> U)
    ensures multiset(Mapped(a + [x] + b, f)) == multiset(Mapped(a + b, f)) + multiset{f(x)}
  {
    var r := Mapped(a + [x] + b, f);
    Without(r, |a|);
    assert r[..|a|] + r[|a| + 1..] == Mapped(a + b, f);
  }

  /** Mapping commutes with reordering. */
  lemma {:induction false} MappedReorder<T, U>(s: seq<T>, perm: seq<T>, f: T -> U)
    requires multiset(perm) == multiset(s)
    ensures multiset(Mapped(perm, f)) == multiset(Mapped(s, f))
    decreases |s|
  {
    if s == [] {
      ReorderOfNone(perm);
    } else {
      var a, b := AroundHead(s, perm);
      MappedReorder(s[1..], a + b, f);
      MappedAround(a, s[0], b, f);
      MappedAround([], s[0], s[1..], f);
    }
  }
}
