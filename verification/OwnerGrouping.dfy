/** Grouping owners into entries (`cmd/api/owner_identities.go`): the second half of
    building the starter file, stated over what is known of each name and owner id. */
module OwnerGrouping {
  import opened OwnerIdentities
  import opened SortedStrings
  import opened Text

  type Identities = map<string, OwnerIdentity>

  /** `ownerIdentitySleeper`. */
  datatype SleeperOwner = SleeperOwner(ownerIDs: seq<string>, usernames: seq<string>, displayNames: seq<string>)

  type SleeperOwners = map<string, SleeperOwner>

  // ---- unique sorted lists ----

  /** `appendUniqueSorted`: the distinct non-blank clean forms of both lists, ascending. */
  method AppendUniqueSorted(values: seq<string>, additions: seq<string>) returns (r: seq<string>)
    ensures Ascending(r)
    ensures forall x :: x in r <==> x != "" && Lists(values + additions, x)
  {
    var all := values + additions;
    var seen: set<string> := {};
    r := [];
    for i := 0 to |all|
      invariant Distinct(r)
      invariant forall x :: x in r <==> x in seen
      invariant forall x :: x in seen <==> x != "" && Lists(all[..i], x)
    {
      var cleaned := Clean(all[i]);
      forall x ensures Lists(all[..i + 1], x) <==> Lists(all[..i], x) || x == cleaned {
        ListsOneMore(all, i, x);
      }
      if cleaned != "" && cleaned !in seen {
        seen := seen + {cleaned};
        r := r + [cleaned];
      }
    }
    assert all[..|all|] == all;
    r := SortStrings(r);
  }

  /** On values already clean, that is their union with the additions. */
  method AddToList(values: seq<string>, additions: seq<string>) returns (r: seq<string>)
    requires forall x :: x in values || x in additions ==> x != "" && Clean(x) == x
    ensures Ascending(r)
    ensures forall x :: x in r <==> x in values || x in additions
  {
    r := AppendUniqueSorted(values, additions);
    var all := values + additions;
    forall x ensures x in r <==> x in values || x in additions {
      assert x in all <==> x in values || x in additions;
      if x != "" && Lists(all, x) {
        var raw :| raw in all && Clean(raw) == x;
        assert raw == x;
      }
      if x in all {
        assert Lists(all, x);
      }
    }
  }

  lemma {:induction false} SingletonListing(r: seq<string>, x: string)
    requires Ascending(r) && forall y :: y in r <==> y == x
    ensures r == [x]
  {
    assert Ascending([x]);
    AscendingUnique(r, [x]);
  }

  // ---- what is known ----

  /** Facts about the archives: the ESPN owner names; the entry name of an owner id; the
      display names and user names an owner id has had. */
  datatype Facts = Facts(
    espnName: string -> bool,
    namedBy: (string, string) -> bool,
    displays: (string, string) -> bool,
    uses: (string, string) -> bool)

  ghost predicate GoodName(x: string) {
    x != "" && Clean(x) == x
  }

  ghost predicate Good(f: Facts) {
    && (forall n :: f.espnName(n) ==> GoodName(n))
    && (forall id, n :: f.namedBy(id, n) ==> GoodName(id) && GoodName(n))
    && (forall id, n, p :: f.namedBy(id, n) && f.namedBy(id, p) ==> n == p)
    && (forall id, d :: f.displays(id, d) ==> GoodName(d))
    && (forall id, u :: f.uses(id, u) ==> GoodName(u))
  }

  // ---- entries ----

  ghost predicate NamedIn(f: Facts, done: set<string>, id: string, n: string) {
    id in done && f.namedBy(id, n)
  }

  ghost predicate GroupDisplays(f: Facts, done: set<string>, n: string, d: string) {
    exists id :: NamedIn(f, done, id, n) && f.displays(id, d)
  }

  ghost predicate GroupUses(f: Facts, done: set<string>, n: string, u: string) {
    exists id :: NamedIn(f, done, id, n) && f.uses(id, u)
  }

  /** Entry `e` holds what the owners in `done` named `n` have. */
  ghost predicate Group(e: OwnerIdentity, f: Facts, done: set<string>, n: string) {
    && e.name == n
    && e.espnNames == (if f.espnName(n) then [n] else [])
    && Ascending(e.ownerIDs) && (forall id :: id in e.ownerIDs <==> NamedIn(f, done, id, n))
    && Ascending(e.displayNames) && (forall d :: d in e.displayNames <==> GroupDisplays(f, done, n, d))
    && Ascending(e.usernames) && (forall u :: u in e.usernames <==> GroupUses(f, done, n, u))
  }

  ghost predicate IsEntryName(f: Facts, done: set<string>, n: string) {
    f.espnName(n) || exists id :: NamedIn(f, done, id, n)
  }

  ghost predicate Grouped(m: Identities, f: Facts, done: set<string>) {
    forall n :: (n in m <==> IsEntryName(f, done, n)) && (n in m ==> Group(m[n], f, done, n))
  }

  /** `identityForName`, for a name already clean. */
  function IdentityForName(m: Identities, name: string): OwnerIdentity {
    if name in m then m[name] else OwnerIdentity(name, [], [], [], [])
  }

  /** The record collected for owner `id`. */
  ghost predicate RecordFor(r: SleeperOwner, f: Facts, id: string) {
    && r.ownerIDs == [id]
    && Ascending(r.displayNames) && (forall d :: d in r.displayNames <==> f.displays(id, d))
    && Ascending(r.usernames) && (forall u :: u in r.usernames <==> f.uses(id, u))
  }

  /** `starterSleeperOwnerName`. */
  function StarterSleeperOwnerName(owner: SleeperOwner): string {
    if |owner.displayNames| > 0 then owner.displayNames[0]
    else if |owner.usernames| > 0 then owner.usernames[0]
    else if |owner.ownerIDs| > 0 then owner.ownerIDs[0]
    else "Unknown"
  }

  lemma {:induction false} EmptyGroup(f: Facts, done: set<string>, n: string)
    requires !IsEntryName(f, done, n)
    ensures Group(OwnerIdentity(n, [], [], [], []), f, done, n)
  {
  }

  lemma {:induction false} SameGroup(e: OwnerIdentity, f: Facts, done: set<string>, id: string, n: string)
    requires !f.namedBy(id, n)
    ensures IsEntryName(f, done + {id}, n) <==> IsEntryName(f, done, n)
    ensures Group(e, f, done, n) ==> Group(e, f, done + {id}, n)
  {
    var more := done + {id};
    assert forall x :: NamedIn(f, more, x, n) <==> NamedIn(f, done, x, n);
    assert forall d :: GroupDisplays(f, more, n, d) <==> GroupDisplays(f, done, n, d);
    assert forall u :: GroupUses(f, more, n, u) <==> GroupUses(f, done, n, u);
  }

  lemma {:induction false} GroupsOfOthers(m: Identities, m': Identities, f: Facts, done: set<string>, id: string, name: string)
    requires Good(f) && Grouped(m, f, done) && f.namedBy(id, name)
    requires name in m' && m' == m[name := m'[name]] && Group(m'[name], f, done + {id}, name)
    ensures Grouped(m', f, done + {id})
  {
    var more := done + {id};
    forall n ensures (n in m' <==> IsEntryName(f, more, n)) && (n in m' ==> Group(m'[n], f, more, n)) {
      if n == name {
        assert NamedIn(f, more, id, n);
      } else {
        assert n in m <==> IsEntryName(f, done, n);
        SameGroup(if n in m then m[n] else m'[name], f, done, id, n);
      }
    }
  }

  lemma {:induction false} GroupGrows(f: Facts, done: set<string>, id: string, name: string)
    requires f.namedBy(id, name)
    ensures forall x :: NamedIn(f, done + {id}, x, name) <==> NamedIn(f, done, x, name) || x == id
    ensures forall d :: GroupDisplays(f, done + {id}, name, d) <==> GroupDisplays(f, done, name, d) || f.displays(id, d)
    ensures forall u :: GroupUses(f, done + {id}, name, u) <==> GroupUses(f, done, name, u) || f.uses(id, u)
  {
    var more := done + {id};
    assert NamedIn(f, more, id, name);
    assert forall x :: NamedIn(f, done, x, name) ==> NamedIn(f, more, x, name);
  }

  lemma {:induction false} GroupListsGood(e: OwnerIdentity, f: Facts, done: set<string>, n: string)
    requires Good(f) && Group(e, f, done, n)
    ensures forall x :: x in e.ownerIDs ==> GoodName(x)
    ensures forall x :: x in e.displayNames ==> GoodName(x)
    ensures forall x :: x in e.usernames ==> GoodName(x)
  {
  }

  lemma {:induction false} RecordListsGood(r: SleeperOwner, f: Facts, id: string, n: string)
    requires Good(f) && RecordFor(r, f, id) && f.namedBy(id, n)
    ensures forall x :: x in r.ownerIDs ==> GoodName(x)
    ensures forall x :: x in r.displayNames ==> GoodName(x)
    ensures forall x :: x in r.usernames ==> GoodName(x)
  {
  }

  lemma {:induction false} GroupJoined(e: OwnerIdentity, e': OwnerIdentity, r: SleeperOwner, f: Facts, done: set<string>, id: string, n: string)
    requires Group(e, f, done, n) && RecordFor(r, f, id) && f.namedBy(id, n)
    requires e'.name == e.name && e'.espnNames == e.espnNames
    requires Ascending(e'.ownerIDs) && forall x :: x in e'.ownerIDs <==> x in e.ownerIDs || x in r.ownerIDs
    requires Ascending(e'.displayNames) && forall x :: x in e'.displayNames <==> x in e.displayNames || x in r.displayNames
    requires Ascending(e'.usernames) && forall x :: x in e'.usernames <==> x in e.usernames || x in r.usernames
    ensures Group(e', f, done + {id}, n)
  {
    GroupGrows(f, done, id, n);
  }

  /** One owner's record joins the entry of its name. */
  method AddToGroup(e: OwnerIdentity, record: SleeperOwner, ghost f: Facts, ghost done: set<string>, ghost id: string, ghost name: string)
    returns (e': OwnerIdentity)
    requires Good(f) && Group(e, f, done, name) && RecordFor(record, f, id) && f.namedBy(id, name)
    ensures Group(e', f, done + {id}, name)
  {
    GroupListsGood(e, f, done, name);
    RecordListsGood(record, f, id, name);
    var ids := AddToList(e.ownerIDs, record.ownerIDs);
    var displayNames := AddToList(e.displayNames, record.displayNames);
    var usernames := AddToList(e.usernames, record.usernames);
    e' := e.(ownerIDs := ids, displayNames := displayNames, usernames := usernames);
    GroupJoined(e, e', record, f, done, id, name);
  }

  /** The step of the loop over owner ids. */
  method AddOwner(m: Identities, record: SleeperOwner, ghost f: Facts, ghost done: set<string>, ghost id: string) returns (m': Identities)
    requires Good(f) && Grouped(m, f, done)
    requires RecordFor(record, f, id) && f.namedBy(id, StarterSleeperOwnerName(record))
    ensures Grouped(m', f, done + {id})
  {
    var name := StarterSleeperOwnerName(record);
    if name !in m { EmptyGroup(f, done, name); }
    var grown := AddToGroup(IdentityForName(m, name), record, f, done, id, name);
    m' := m[name := grown];
    GroupsOfOthers(m, m', f, done, id, name);
  }

  ghost predicate RecordsFor(owners: SleeperOwners, f: Facts) {
    forall id :: id in owners ==> RecordFor(owners[id], f, id) && f.namedBy(id, StarterSleeperOwnerName(owners[id]))
  }

  ghost predicate ListsKeys(ids: seq<string>, owners: SleeperOwners) {
    forall id :: id in ids <==> id in owners
  }

  ghost function Taken(ids: seq<string>, i: nat): set<string>
    requires i <= |ids|
  {
    set k | 0 <= k < i :: ids[k]
  }

  method AddListedOwner(m: Identities, owners: SleeperOwners, ids: seq<string>, i: nat, ghost f: Facts) returns (m': Identities)
    requires i < |ids| && ListsKeys(ids, owners)
    requires Good(f) && RecordsFor(owners, f) && Grouped(m, f, Taken(ids, i))
    ensures Grouped(m', f, Taken(ids, i + 1))
  {
    TakenStep(ids, i);
    ListedRecord(owners, ids, i, f);
    m' := AddOwner(m, owners[ids[i]], f, Taken(ids, i), ids[i]);
  }

  lemma {:induction false} TakenStep(ids: seq<string>, i: nat)
    requires i < |ids|
    ensures Taken(ids, i + 1) == Taken(ids, i) + {ids[i]}
  {
  }

  lemma {:induction false} ListedRecord(owners: SleeperOwners, ids: seq<string>, i: nat, f: Facts)
    requires i < |ids| && ListsKeys(ids, owners) && RecordsFor(owners, f)
    ensures ids[i] in owners
    ensures RecordFor(owners[ids[i]], f, ids[i]) && f.namedBy(ids[i], StarterSleeperOwnerName(owners[ids[i]]))
  {
    assert ids[i] in ids;
  }

  lemma {:induction false} AllTaken(ids: seq<string>, owners: SleeperOwners)
    requires ListsKeys(ids, owners)
    ensures Taken(ids, |ids|) == owners.Keys
  {
    forall id ensures id in Taken(ids, |ids|) <==> id in owners.Keys {
      assert id in ids <==> id in owners;
    }
  }

  method GroupOwners(m: Identities, owners: SleeperOwners, ghost f: Facts) returns (r: Identities)
    requires Good(f) && Grouped(m, f, {}) && RecordsFor(owners, f)
    ensures Grouped(r, f, owners.Keys)
  {
    var ids := SortedKeys(owners);
    KeySetIsElements(ids);
    r := m;
    assert Taken(ids, 0) == {};
    for i := 0 to |ids|
      invariant Grouped(r, f, Taken(ids, i))
    {
      r := AddListedOwner(r, owners, ids, i, f);
    }
    AllTaken(ids, owners);
  }

  /** The entries, in name order: one for every name, holding everything that goes by it. */
  ghost predicate EntriesFor(entries: seq<OwnerIdentity>, f: Facts, done: set<string>) {
    && (forall i, j :: 0 <= i < j < |entries| ==> Less(entries[i].name, entries[j].name))
    && (forall e :: e in entries ==> Group(e, f, done, e.name))
    && (forall n :: IsEntryName(f, done, n) <==> exists e :: e in entries && e.name == n)
  }

  /** Collects the entries in map order and sorts them by name. */
  method SortedEntries(m: Identities, ghost f: Facts, ghost done: set<string>) returns (entries: seq<OwnerIdentity>)
    requires Grouped(m, f, done)
    ensures EntriesFor(entries, f, done)
  {
    var names := SortedKeys(m);
    KeySetIsElements(names);
    entries := [];
    for i := 0 to |names|
      invariant |entries| == i
      invariant forall k :: 0 <= k < i ==> entries[k] == m[names[k]]
    {
      assert names[i] in names;
      entries := entries + [m[names[i]]];
    }
    EntriesListed(m, f, done, names, entries);
  }

  lemma {:induction false} EntriesListed(m: Identities, f: Facts, done: set<string>, names: seq<string>, entries: seq<OwnerIdentity>)
    requires Grouped(m, f, done) && Ascending(names) && forall n :: n in names <==> n in m
    requires |entries| == |names| && forall k :: 0 <= k < |names| ==> names[k] in m && entries[k] == m[names[k]]
    ensures EntriesFor(entries, f, done)
  {
    forall k | 0 <= k < |names| ensures entries[k].name == names[k] && Group(entries[k], f, done, names[k]) {
      assert names[k] in m;
    }
    forall n ensures IsEntryName(f, done, n) <==> exists e :: e in entries && e.name == n {
      assert n in m <==> IsEntryName(f, done, n);
      if n in m {
        var k :| 0 <= k < |names| && names[k] == n;
        assert entries[k] in entries && entries[k].name == n;
      }
      if e :| e in entries && e.name == n {
        var k :| 0 <= k < |entries| && entries[k] == e;
      }
    }
  }

  // ---- reading entries back ----

  /** `a` identifies the person whose entry is named `n`. */
  ghost predicate Identifies(f: Facts, done: set<string>, a: string, n: string) {
    || (a == n && IsEntryName(f, done, n))
    || NamedIn(f, done, a, n) || GroupDisplays(f, done, n, a) || GroupUses(f, done, n, a)
  }

  lemma {:induction false} ListsCleanly(s: seq<string>, a: string)
    requires forall x :: x in s ==> GoodName(x)
    ensures Lists(s, a) <==> a in s
  {
    if a in s { assert Clean(a) == a; }
  }

  lemma {:induction false} GroupClaims(e: OwnerIdentity, f: Facts, done: set<string>, a: string)
    requires Good(f) && Group(e, f, done, e.name) && IsEntryName(f, done, e.name)
    ensures Clean(e.name) == e.name
    ensures Lists(AliasesForIdentity(e), a) <==> Identifies(f, done, a, e.name)
  {
    assert GoodName(e.name);
    var all := AliasesForIdentity(e);
    assert forall x :: x in all <==> x == e.name || x in e.espnNames || x in e.ownerIDs || x in e.usernames || x in e.displayNames;
    assert forall x :: x in e.ownerIDs ==> GoodName(x);
    assert forall x :: x in e.displayNames ==> GoodName(x);
    assert forall x :: x in e.usernames ==> GoodName(x);
    ListsCleanly(all, a);
  }

  /** The identifiers the file claims are those the facts establish. */
  lemma {:induction false} EntriesClaim(entries: seq<OwnerIdentity>, f: Facts, done: set<string>, a: string, n: string)
    requires Good(f) && EntriesFor(entries, f, done)
    ensures Claims(entries, a, n) <==> Identifies(f, done, a, n)
  {
    forall e | e in entries
      ensures Clean(e.name) == e.name && (Lists(AliasesForIdentity(e), a) <==> Identifies(f, done, a, e.name))
    {
      GroupClaims(e, f, done, a);
    }
    if Identifies(f, done, a, n) {
      assert IsEntryName(f, done, n);
      var e :| e in entries && e.name == n;
      assert Lists(AliasesForIdentity(e), a);
    }
  }
}
