/** Sums and counts over lists: they split at any point and do not depend on order. */
module Sums {
  import opened Sorting

  function SumOf<T>(s: seq<T>, f: T -> int): int {
    if s == [] then 0 else SumOf(s[..|s| - 1], f) + f(s[|s| - 1])
  }

  lemma {:induction false} SumOfSingle<T>(x: T, f: T -> int)
    ensures SumOf([x], f) == f(x)
  {
    assert [x][..0] == [];
  }

  lemma {:induction false} SumOfConcat<T>(a: seq<T>, b: seq<T>, f: T -> int)
    ensures SumOf(a + b, f) == SumOf(a, f) + SumOf(b, f)
    decreases |b|
  {
    if b == [] {
      assert a + b == a;
    } else {
      SumOfConcat(a, b[..|b| - 1], f);
      assert (a + b)[..|a + b| - 1] == a + b[..|b| - 1];
    }
  }

  lemma {:induction false} SumOfAround<T>(a: seq<T>, x: T, b: seq<T>, f: T -> int)
    ensures SumOf(a + [x] + b, f) == SumOf(a + b, f) + f(x)
  {
    SumOfConcat(a, [x], f);
    SumOfConcat(a + [x], b, f);
    SumOfConcat(a, b, f);
    SumOfSingle(x, f);
  }

  lemma {:induction false} SumOfReorder<T>(s: seq<T>, perm: seq<T>, f: T -> int)
    requires multiset(perm) == multiset(s)
    ensures SumOf(perm, f) == SumOf(s, f)
    decreases |s|
  {
    if s == [] {
      ReorderOfNone(perm);
    } else {
      var a, b := AroundHead(s, perm);
      SumOfReorder(s[1..], a + b, f);
      SumOfAround(a, s[0], b, f);
      SumOfAround([], s[0], s[1..], f);
    }
  }

  /** Equal summands, place by place. */
  lemma {:induction false} SumOfSame<T, U>(s: seq<T>, t: seq<U>, f: T -> int, g: U -> int)
    requires |s| == |t| && forall i :: 0 <= i < |s| ==> f(s[i]) == g(t[i])
    ensures SumOf(s, f) == SumOf(t, g)
    decreases |s|
  {
    if s != [] {
      SumOfSame(s[..|s| - 1], t[..|t| - 1], f, g);
    }
  }

  // ---- counting ----

  function CountIf<T>(s: seq<T>, p: T -> bool): nat {
    if s == [] then 0 else CountIf(s[..|s| - 1], p) + if p(s[|s| - 1]) then 1 else 0
  }

  lemma {:induction false} CountConcat<T>(a: seq<T>, b: seq<T>, p: T -> bool)
    ensures CountIf(a + b, p) == CountIf(a, p) + CountIf(b, p)
    decreases |b|
  {
    if b == [] {
      assert a + b == a;
    } else {
      CountConcat(a, b[..|b| - 1], p);
      assert (a + b)[..|a + b| - 1] == a + b[..|b| - 1];
    }
  }

  lemma {:induction false} CountAround<T>(a: seq<T>, x: T, b: seq<T>, p: T -> bool)
    ensures CountIf(a + [x] + b, p) == CountIf(a + b, p) + if p(x) then 1 else 0
  {
    CountConcat(a, [x], p);
    CountConcat(a + [x], b, p);
    CountConcat(a, b, p);
    assert [x][..0] == [];
  }

  lemma {:induction false} CountOrderFree<T>(s: seq<T>, perm: seq<T>, p: T -> bool)
    requires multiset(perm) == multiset(s)
    ensures CountIf(perm, p) == CountIf(s, p)
    decreases |s|
  {
    if s == [] {
      ReorderOfNone(perm);
    } else {
      var a, b := AroundHead(s, perm);
      CountOrderFree(s[1..], a + b, p);
      CountAround(a, s[0], b, p);
      CountAround([], s[0], s[1..], p);
    }
  }

  lemma {:induction false} CountAll<T>(s: seq<T>, p: T -> bool)
    requires forall x :: x in s ==> p(x)
    ensures CountIf(s, p) == |s|
    decreases |s|
  {
    if s != [] {
      assert s[|s| - 1] in s;
      CountAll(s[..|s| - 1], p);
    }
  }

  lemma {:induction false} CountNone<T>(s: seq<T>, p: T -> bool)
    requires forall x :: x in s ==> !p(x)
    ensures CountIf(s, p) == 0
    decreases |s|
  {
    if s != [] {
      assert s[|s| - 1] in s;
      CountNone(s[..|s| - 1], p);
    }
  }

  lemma {:induction false} CountAtMost<T>(s: seq<T>, p: T -> bool)
    ensures CountIf(s, p) <= |s|
    decreases |s|
  {
    if s != [] { CountAtMost(s[..|s| - 1], p); }
  }

  lemma {:induction false} CountSplit<T>(s: seq<T>, k: nat, p: T -> bool)
    requires k <= |s|
    ensures (forall x :: x in s[..k] ==> p(x)) ==> CountIf(s, p) >= k
    ensures (forall x :: x in s[k..] ==> !p(x)) ==> CountIf(s, p) <= k
  {
    CountConcat(s[..k], s[k..], p);
    assert s == s[..k] + s[k..];
    CountAtMost(s[..k], p);
    if forall x :: x in s[..k] ==> p(x) { CountAll(s[..k], p); }
    if forall x :: x in s[k..] ==> !p(x) { CountNone(s[k..], p); }
  }

  lemma {:induction false} CountSame<T, U>(s: seq<T>, t: seq<U>, p: T -> bool, q: U -> bool)
    requires |s| == |t| && forall i :: 0 <= i < |s| ==> (p(s[i]) <==> q(t[i]))
    ensures CountIf(s, p) == CountIf(t, q)
    decreases |s|
  {
    if s != [] {
      CountSame(s[..|s| - 1], t[..|t| - 1], p, q);
    }
  }
}
