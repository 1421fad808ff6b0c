/** Copying one Go map over another. */
module Maps {

  lemma {:induction false} OneMore<K, V>(base: map<K, V>, added: map<K, V>, remaining: set<K>, k: K)
    requires k in remaining && remaining <= added.Keys
    ensures (base + (added - remaining))[k := added[k]] == base + (added - (remaining - {k}))
  {
    var before, after := added - remaining, added - (remaining - {k});
    assert after == before[k := added[k]];
  }

  /** The loop that copies every entry of `added`, in whatever order it is ranged over. */
  method Overlay<K(==), V>(base: map<K, V>, added: map<K, V>) returns (r: map<K, V>)
    ensures r == base + added
  {
    r := base;
    var remaining := added.Keys;
    assert added - remaining == map[];
    while remaining != {}
      invariant remaining <= added.Keys
      invariant r == base + (added - remaining)
      decreases remaining
    {
      var k :| k in remaining;
      OneMore(base, added, remaining, k);
      remaining := remaining - {k};
      r := r[k := added[k]];
    }
    assert added - remaining == added;
  }
}
