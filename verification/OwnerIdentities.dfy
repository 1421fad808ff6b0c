/** The owner identities file (`cmd/api/owner_identities.go`): parsing it into an
    alias map, and generating a starter from the two archives. The JSON layer is
    the identity here: parsing starts from the decoded value. */
module OwnerIdentities {
  import opened OwnerNames
  import opened Results
  import opened Text

  datatype OwnerIdentity = OwnerIdentity(
    name: string,
    espnNames: seq<string>,
    ownerIDs: seq<string>,
    usernames: seq<string>,
    displayNames: seq<string>)

  /** `owners` is absent when the file has no owners member or a null one. */
  datatype IdentitiesFile = IdentitiesFile(schemaVersion: int, owners: Option<seq<OwnerIdentity>>)

  datatype FileError =
    | WrongSchemaVersion
    | OwnersMissing
    | BlankOwnerName
    | BlankIdentifier
    | AliasConflict(alias: string, existing: string, canonical: string)

  const SCHEMA_VERSION := 1

  function AliasesForIdentity(owner: OwnerIdentity): seq<string> {
    [owner.name] + owner.espnNames + owner.ownerIDs + owner.usernames + owner.displayNames
  }

  // ---- what a file says ----

  ghost predicate Lists(raws: seq<string>, a: string) {
    exists raw :: raw in raws && Clean(raw) == a
  }

  /** Some entry named `c` lists the identifier `a` (both cleaned). */
  ghost predicate Claims(owners: seq<OwnerIdentity>, a: string, c: string) {
    exists o :: o in owners && Clean(o.name) == c && Lists(AliasesForIdentity(o), a)
  }

  ghost predicate NoBlanks(owners: seq<OwnerIdentity>) {
    forall c :: !Claims(owners, "", c)
  }

  /** No identifier belongs to two entries with different names. */
  ghost predicate NoSharing(owners: seq<OwnerIdentity>) {
    forall a, c, c' :: Claims(owners, a, c) && Claims(owners, a, c') ==> c == c'
  }

  ghost predicate Acceptable(file: IdentitiesFile) {
    && file.schemaVersion == 1
    && file.owners.Some?
    && NoBlanks(file.owners.value)
    && NoSharing(file.owners.value)
  }

  /** `m` sends exactly the listed identifiers to their entries' names. */
  ghost predicate Describes(m: map<string, string>, owners: seq<OwnerIdentity>) {
    forall a, c :: Claims(owners, a, c) <==> a in m && m[a] == c
  }

  // ---- parsing ----

  /** What has been read after `n` entries and `k` identifiers of the next. */
  ghost predicate Read(owners: seq<OwnerIdentity>, n: nat, k: nat, a: string, c: string)
    requires n < |owners| && k <= |AliasesForIdentity(owners[n])|
  {
    Claims(owners[..n], a, c) || (Clean(owners[n].name) == c && Lists(AliasesForIdentity(owners[n])[..k], a))
  }

  ghost predicate ReadInto(m: map<string, string>, owners: seq<OwnerIdentity>, n: nat, k: nat)
    requires n < |owners| && k <= |AliasesForIdentity(owners[n])|
  {
    forall a, c :: Read(owners, n, k, a, c) <==> a in m && m[a] == c
  }

  lemma {:induction false} ListsOneMore(raws: seq<string>, k: nat, a: string)
    requires k < |raws|
    ensures Lists(raws[..k + 1], a) <==> Lists(raws[..k], a) || a == Clean(raws[k])
  {
    assert raws[..k + 1] == raws[..k] + [raws[k]];
    if Lists(raws[..k], a) {
      var raw :| raw in raws[..k] && Clean(raw) == a;
      assert raw in raws[..k + 1];
    }
    if a == Clean(raws[k]) {
      assert raws[k] in raws[..k + 1];
    }
  }

  lemma {:induction false} ReadStart(m: map<string, string>, owners: seq<OwnerIdentity>, n: nat)
    requires n < |owners| && Describes(m, owners[..n])
    ensures ReadInto(m, owners, n, 0)
  {
    assert AliasesForIdentity(owners[n])[..0] == [];
    forall a, c ensures Read(owners, n, 0, a, c) <==> a in m && m[a] == c {
      assert !Lists([], a);
      assert Claims(owners[..n], a, c) <==> a in m && m[a] == c;
    }
  }

  lemma {:induction false} ReadStep(m: map<string, string>, owners: seq<OwnerIdentity>, n: nat, k: nat, alias: string, canonical: string)
    requires n < |owners| && k < |AliasesForIdentity(owners[n])| && ReadInto(m, owners, n, k)
    requires alias == Clean(AliasesForIdentity(owners[n])[k]) && canonical == Clean(owners[n].name)
    requires alias in m ==> m[alias] == canonical
    ensures ReadInto(m[alias := canonical], owners, n, k + 1)
  {
    var m', k' := m[alias := canonical], k + 1;
    forall a, c ensures Read(owners, n, k', a, c) <==> a in m' && m'[a] == c {
      ListsOneMore(AliasesForIdentity(owners[n]), k, a);
      assert Read(owners, n, k, a, c) <==> a in m && m[a] == c;
    }
  }

  lemma {:induction false} ClaimsOneMore(owners: seq<OwnerIdentity>, n: nat, a: string, c: string)
    requires n < |owners|
    ensures Claims(owners[..n + 1], a, c) <==> Claims(owners[..n], a, c) || (Clean(owners[n].name) == c && Lists(AliasesForIdentity(owners[n]), a))
  {
    assert owners[..n + 1] == owners[..n] + [owners[n]];
    if Claims(owners[..n], a, c) {
      var o :| o in owners[..n] && Clean(o.name) == c && Lists(AliasesForIdentity(o), a);
      assert o in owners[..n + 1];
    }
    if Clean(owners[n].name) == c && Lists(AliasesForIdentity(owners[n]), a) {
      assert owners[n] in owners[..n + 1];
    }
  }

  lemma {:induction false} ReadEnd(m: map<string, string>, owners: seq<OwnerIdentity>, n: nat)
    requires n < |owners| && ReadInto(m, owners, n, |AliasesForIdentity(owners[n])|)
    ensures Describes(m, owners[..n + 1])
  {
    var raws := AliasesForIdentity(owners[n]);
    assert raws[..|raws|] == raws;
    var read := owners[..n + 1];
    forall a, c ensures Claims(read, a, c) <==> a in m && m[a] == c {
      ClaimsOneMore(owners, n, a, c);
      assert Read(owners, n, |raws|, a, c) <==> a in m && m[a] == c;
    }
  }

  lemma {:induction false} ReadIsClaimed(owners: seq<OwnerIdentity>, n: nat, k: nat, a: string, c: string)
    requires n < |owners| && k <= |AliasesForIdentity(owners[n])| && Read(owners, n, k, a, c)
    ensures Claims(owners, a, c)
  {
    if Claims(owners[..n], a, c) {
      var o :| o in owners[..n] && Clean(o.name) == c && Lists(AliasesForIdentity(o), a);
      assert o in owners;
    } else {
      var raw :| raw in AliasesForIdentity(owners[n])[..k] && Clean(raw) == a;
      assert raw in AliasesForIdentity(owners[n]);
      assert owners[n] in owners;
    }
  }

  lemma {:induction false} CurrentIsClaimed(owners: seq<OwnerIdentity>, n: nat, k: nat)
    requires n < |owners| && k < |AliasesForIdentity(owners[n])|
    ensures Claims(owners, Clean(AliasesForIdentity(owners[n])[k]), Clean(owners[n].name))
  {
    var raw := AliasesForIdentity(owners[n])[k];
    assert raw in AliasesForIdentity(owners[n]) && owners[n] in owners;
  }

  /** A successful reading is a function, so nothing was shared, and nothing was blank. */
  lemma {:induction false} DescribedIsUnshared(m: map<string, string>, owners: seq<OwnerIdentity>)
    requires Describes(m, owners)
    ensures NoSharing(owners)
  {
    forall a, c, c' | Claims(owners, a, c) && Claims(owners, a, c') ensures c == c' {
      assert m[a] == c && m[a] == c';
    }
  }

  /** `addOwnerIdentityAlias`; the map it writes through is returned. */
  method AddOwnerIdentityAlias(aliases: map<string, string>, alias: string, canonical: string)
    returns (r: Result<map<string, string>, FileError>)
    ensures r.Ok? <==> Clean(alias) != "" && Clean(canonical) != "" && (Clean(alias) in aliases ==> aliases[Clean(alias)] == Clean(canonical))
    ensures r.Ok? ==> r.value == aliases[Clean(alias) := Clean(canonical)]
    ensures r.Err? && Clean(alias) == "" ==> r.error == BlankIdentifier
    ensures r.Err? && Clean(alias) != "" && Clean(canonical) == "" ==> r.error == BlankOwnerName
    ensures r.Err? && Clean(alias) != "" && Clean(canonical) != "" ==>
      Clean(alias) in aliases && r.error == AliasConflict(Clean(alias), aliases[Clean(alias)], Clean(canonical))
  {
    var a, c := Clean(alias), Clean(canonical);
    if a == "" { return Err(BlankIdentifier); }
    if c == "" { return Err(BlankOwnerName); }
    if a in aliases && aliases[a] != c {
      return Err(AliasConflict(a, aliases[a], c));
    }
    return Ok(aliases[a := c]);
  }

  /** Reads the identifiers of entry `n` into the map. */
  method ParseIdentity(owners: seq<OwnerIdentity>, n: nat, aliases: map<string, string>)
    returns (r: Result<map<string, string>, FileError>)
    requires n < |owners| && Describes(aliases, owners[..n]) && "" !in aliases
    ensures r.Ok? ==> Describes(r.value, owners[..n + 1]) && "" !in r.value
    ensures r.Err? ==> !NoBlanks(owners) || !NoSharing(owners)
    ensures r.Err? && r.error.AliasConflict? ==>
      && r.error.existing != r.error.canonical
      && Claims(owners, r.error.alias, r.error.existing) && Claims(owners, r.error.alias, r.error.canonical)
  {
    var owner := owners[n];
    var canonical := Clean(owner.name);
    var listed := AliasesForIdentity(owner);
    if canonical == "" {
      assert listed[0] == owner.name;
      CurrentIsClaimed(owners, n, 0);
      return Err(BlankOwnerName);
    }
    CleanNormalForm(owner.name);
    var m := aliases;
    ReadStart(m, owners, n);
    for k := 0 to |listed|
      invariant ReadInto(m, owners, n, k) && "" !in m
    {
      CurrentIsClaimed(owners, n, k);
      var added := AddOwnerIdentityAlias(m, listed[k], canonical);
      if added.Err? {
        if Clean(listed[k]) != "" {
          ReadIsClaimed(owners, n, k, Clean(listed[k]), m[Clean(listed[k])]);
        }
        return Err(added.error);
      }
      ReadStep(m, owners, n, k, Clean(listed[k]), canonical);
      m := added.value;
    }
    ReadEnd(m, owners, n);
    r := Ok(m);
  }

  method ParseOwnerIdentitiesFile(file: IdentitiesFile) returns (r: Result<map<string, string>, FileError>)
    ensures r.Ok? <==> Acceptable(file)
    ensures r.Ok? ==> Describes(r.value, file.owners.value)
    ensures r.Err? && r.error.AliasConflict? ==>
      && file.owners.Some? && r.error.existing != r.error.canonical
      && Claims(file.owners.value, r.error.alias, r.error.existing)
      && Claims(file.owners.value, r.error.alias, r.error.canonical)
  {
    if file.schemaVersion != SCHEMA_VERSION { return Err(WrongSchemaVersion); }
    if file.owners.None? { return Err(OwnersMissing); }
    var owners := file.owners.value;
    var aliases: map<string, string> := map[];
    assert Describes(aliases, owners[..0]);
    for n := 0 to |owners|
      invariant Describes(aliases, owners[..n]) && "" !in aliases
    {
      r := ParseIdentity(owners, n, aliases);
      if r.Err? { return; }
      aliases := r.value;
    }
    assert owners[..|owners|] == owners;
    DescribedIsUnshared(aliases, owners);
    r := Ok(aliases);
  }

  lemma {:induction false} DescribesOneWay(owners: seq<OwnerIdentity>, m: map<string, string>, n: map<string, string>)
    requires Describes(m, owners) && Describes(n, owners)
    ensures m == n
  {
    forall a | a in m ensures a in n && m[a] == n[a] {
      assert Claims(owners, a, m[a]);
    }
    forall a | a in n ensures a in m {
      assert Claims(owners, a, n[a]);
    }
  }

  lemma {:induction false} ClaimedAreClean(owners: seq<OwnerIdentity>, a: string, c: string)
    requires Claims(owners, a, c)
    ensures IsClean(a) && IsClean(c) && Claims(owners, c, c)
  {
    var o :| o in owners && Clean(o.name) == c && Lists(AliasesForIdentity(o), a);
    var raw :| raw in AliasesForIdentity(o) && Clean(raw) == a;
    CleanNormalForm(raw);
    CleanNormalForm(o.name);
    assert AliasesForIdentity(o)[0] == o.name;
  }

  /** An accepted file is already flat: its canonical names are aliases of themselves, so
      merging it with no overrides leaves it as it is (`MergingFlatChangesNothing`). */
  lemma {:induction false} AcceptedFileIsFlat(owners: seq<OwnerIdentity>, m: map<string, string>)
    requires NoBlanks(owners) && Describes(m, owners)
    ensures Flat(m)
    ensures forall c :: c in m.Values ==> c in m && m[c] == c
  {
    forall a | a in m
      ensures IsClean(a) && a != "" && IsClean(m[a]) && m[a] != "" && Claims(owners, m[a], m[a])
    {
      ClaimedAreClean(owners, a, m[a]);
      assert !Claims(owners, "", m[a]);
      assert !Claims(owners, "", "");
    }
    forall c | c in m.Values ensures c in m && m[c] == c {
      var a :| a in m && m[a] == c;
      assert Claims(owners, c, c);
    }
  }
}
