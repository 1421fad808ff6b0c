/** The starter identities file (`cmd/api/owner_identities.go`): the names found in
    the two archives, grouped into entries. Database queries are parameters. */
module OwnerStarter {
  import opened OwnerGrouping
  import opened OwnerIdentities
  import opened Results
  import opened SortedStrings
  import opened Text

  /** A list query: rows, `sql.ErrNoRows`, or another error. */
  datatype Query<+T> = Rows(rows: seq<T>) | NoRows | Failed

  datatype SleeperTeam = SleeperTeam(ownerID: string, displayName: string, username: string)

  // ---- what the archives hold ----

  ghost predicate IsEspnName(espn: seq<string>, n: string) {
    n != "" && exists o :: o in espn && Clean(o) == n
  }

  ghost predicate IsOwnerID(teams: seq<SleeperTeam>, id: string) {
    id != "" && exists t :: t in teams && Clean(t.ownerID) == id
  }

  /** The owner `id` played under display name `d` in some season. */
  ghost predicate HasDisplayName(teams: seq<SleeperTeam>, id: string, d: string) {
    id != "" && d != "" && exists t :: t in teams && Clean(t.ownerID) == id && Clean(t.displayName) == d
  }

  ghost predicate HasUsername(teams: seq<SleeperTeam>, id: string, u: string) {
    id != "" && u != "" && exists t :: t in teams && Clean(t.ownerID) == id && Clean(t.username) == u
  }

  ghost predicate NotAbove(a: string, b: string) {
    a == b || Less(a, b)
  }

  /** The name an owner's entry gets: the least display name, else the least username, else the id. */
  ghost predicate NamedBy(teams: seq<SleeperTeam>, id: string, n: string) {
    && IsOwnerID(teams, id)
    && if exists d :: HasDisplayName(teams, id, d) then
         HasDisplayName(teams, id, n) && forall d :: HasDisplayName(teams, id, d) ==> NotAbove(n, d)
       else if exists u :: HasUsername(teams, id, u) then
         HasUsername(teams, id, n) && forall u :: HasUsername(teams, id, u) ==> NotAbove(n, u)
       else n == id
  }

  lemma {:induction false} NamedByOneName(teams: seq<SleeperTeam>, id: string, n: string, p: string)
    requires NamedBy(teams, id, n) && NamedBy(teams, id, p)
    ensures n == p
  {
    if Less(n, p) && Less(p, n) {
      LessTransitive(n, p, n);
      LessIrreflexive(n);
    }
  }

  // ---- ESPN names ----

  ghost predicate EspnPart(m: Identities, espn: seq<string>) {
    forall n :: (n in m <==> IsEspnName(espn, n)) && (n in m ==> m[n] == OwnerIdentity(n, [n], [], [], []))
  }

  method AddEspnOwner(m: Identities, ghost espn: seq<string>, owners: string) returns (m': Identities)
    requires EspnPart(m, espn)
    ensures EspnPart(m', espn + [owners])
  {
    var name := Clean(owners);
    CleanNormalForm(owners);
    EspnNamesOneMore(espn, owners);
    if name == "" { return m; }
    var identity := IdentityForName(m, name);
    var names := AddToList(identity.espnNames, [name]);
    SingletonListing(names, name);
    m' := m[name := identity.(espnNames := names)];
  }

  lemma {:induction false} EspnNamesOneMore(espn: seq<string>, owners: string)
    ensures forall n :: IsEspnName(espn + [owners], n) <==> IsEspnName(espn, n) || (n != "" && n == Clean(owners))
  {
    forall n ensures IsEspnName(espn + [owners], n) <==> IsEspnName(espn, n) || (n != "" && n == Clean(owners)) {
      if IsEspnName(espn, n) {
        var o :| o in espn && Clean(o) == n;
        assert o in espn + [owners];
      }
      assert owners in espn + [owners];
    }
  }

  // ---- Sleeper owners ----

  ghost predicate NamesFor(r: SleeperOwner, teams: seq<SleeperTeam>, id: string) {
    && Ascending(r.displayNames) && (forall d :: d in r.displayNames <==> HasDisplayName(teams, id, d))
    && Ascending(r.usernames) && (forall u :: u in r.usernames <==> HasUsername(teams, id, u))
  }

  ghost predicate Holds(r: SleeperOwner, teams: seq<SleeperTeam>, id: string) {
    r.ownerIDs == [id] && NamesFor(r, teams, id)
  }

  ghost predicate SleeperPart(m: SleeperOwners, teams: seq<SleeperTeam>) {
    forall id :: (id in m <==> IsOwnerID(teams, id)) && (id in m ==> Holds(m[id], teams, id))
  }

  lemma {:induction false} NamesAreClean(teams: seq<SleeperTeam>, id: string)
    ensures IsOwnerID(teams, id) ==> Clean(id) == id
    ensures forall d :: HasDisplayName(teams, id, d) ==> Clean(d) == d && d != ""
    ensures forall u :: HasUsername(teams, id, u) ==> Clean(u) == u && u != ""
  {
    forall t | t in teams
      ensures Clean(Clean(t.ownerID)) == Clean(t.ownerID)
      ensures Clean(Clean(t.displayName)) == Clean(t.displayName)
      ensures Clean(Clean(t.username)) == Clean(t.username)
    {
      CleanNormalForm(t.ownerID);
      CleanNormalForm(t.displayName);
      CleanNormalForm(t.username);
    }
  }

  lemma {:induction false} TeamsOneMore(teams: seq<SleeperTeam>, t: SleeperTeam, id: string)
    ensures IsOwnerID(teams + [t], id) <==> IsOwnerID(teams, id) || (id != "" && id == Clean(t.ownerID))
    ensures forall d :: HasDisplayName(teams + [t], id, d) <==>
      HasDisplayName(teams, id, d) || (id != "" && d != "" && id == Clean(t.ownerID) && d == Clean(t.displayName))
    ensures forall u :: HasUsername(teams + [t], id, u) <==>
      HasUsername(teams, id, u) || (id != "" && u != "" && id == Clean(t.ownerID) && u == Clean(t.username))
  {
    var more := teams + [t];
    assert forall x :: x in more <==> x in teams || x == t;
  }

  /** Adds a cleaned value to a list unless it is blank. */
  method AddUnlessBlank(values: seq<string>, raw: string) returns (r: seq<string>)
    requires Ascending(values) && forall x :: x in values ==> x != "" && Clean(x) == x
    ensures Ascending(r)
    ensures forall x :: x in r <==> x in values || (x != "" && x == Clean(raw))
  {
    CleanNormalForm(raw);
    r := values;
    var cleaned := Clean(raw);
    if cleaned != "" {
      r := AddToList(values, [cleaned]);
    }
  }

  method ExtendRecord(record: SleeperOwner, ghost teams: seq<SleeperTeam>, team: SleeperTeam) returns (r: SleeperOwner)
    requires Clean(team.ownerID) != "" && NamesFor(record, teams, Clean(team.ownerID))
    requires record.ownerIDs == [] || record.ownerIDs == [Clean(team.ownerID)]
    ensures r.ownerIDs == [Clean(team.ownerID)] && NamesFor(r, teams + [team], Clean(team.ownerID))
  {
    var ownerID := Clean(team.ownerID);
    CleanNormalForm(team.ownerID);
    NamesAreClean(teams, ownerID);
    TeamsOneMore(teams, team, ownerID);
    var ids := AddToList(record.ownerIDs, [ownerID]);
    SingletonListing(ids, ownerID);
    var displayNames := AddUnlessBlank(record.displayNames, team.displayName);
    var usernames := AddUnlessBlank(record.usernames, team.username);
    r := SleeperOwner(ids, usernames, displayNames);
  }

  method AddSleeperTeam(m: SleeperOwners, ghost teams: seq<SleeperTeam>, team: SleeperTeam) returns (m': SleeperOwners)
    requires SleeperPart(m, teams)
    ensures SleeperPart(m', teams + [team])
  {
    var ownerID := Clean(team.ownerID);
    if ownerID == "" {
      SameRecords(m, teams, team);
      return m;
    }
    if ownerID !in m { NoRecordYet(m, teams, ownerID); }
    var record := if ownerID in m then m[ownerID] else SleeperOwner([], [], []);
    var extended := ExtendRecord(record, teams, team);
    m' := m[ownerID := extended];
    OtherRecords(m, m', teams, team, ownerID);
  }

  lemma {:induction false} NoRecordYet(m: SleeperOwners, teams: seq<SleeperTeam>, id: string)
    requires SleeperPart(m, teams) && id !in m
    ensures forall d :: !HasDisplayName(teams, id, d)
    ensures forall u :: !HasUsername(teams, id, u)
  {
    assert !IsOwnerID(teams, id);
  }

  lemma {:induction false} SameRecords(m: SleeperOwners, teams: seq<SleeperTeam>, team: SleeperTeam)
    requires SleeperPart(m, teams) && Clean(team.ownerID) == ""
    ensures SleeperPart(m, teams + [team])
  {
    var more := teams + [team];
    forall id ensures (id in m <==> IsOwnerID(more, id)) && (id in m ==> Holds(m[id], more, id)) {
      TeamsOneMore(teams, team, id);
    }
  }

  lemma {:induction false} OtherRecords(m: SleeperOwners, m': SleeperOwners, teams: seq<SleeperTeam>, team: SleeperTeam, ownerID: string)
    requires SleeperPart(m, teams) && ownerID == Clean(team.ownerID) != ""
    requires ownerID in m' && m' == m[ownerID := m'[ownerID]] && Holds(m'[ownerID], teams + [team], ownerID)
    ensures SleeperPart(m', teams + [team])
  {
    var more := teams + [team];
    forall id ensures (id in m' <==> IsOwnerID(more, id)) && (id in m' ==> Holds(m'[id], more, id)) {
      TeamsOneMore(teams, team, id);
    }
  }

  // ---- running the queries ----

  function RowsOf<T>(q: Query<T>): seq<T> {
    match q
    case Rows(rows) => rows
    case _ => []
  }

  /** All rows the per-league queries returned, in order. */
  function Gather<T>(qs: seq<Query<T>>): seq<T> {
    if qs == [] then [] else Gather(qs[..|qs| - 1]) + RowsOf(qs[|qs| - 1])
  }

  /** A listing of leagues whose teams are queried one league at a time; absent when the
      database is not configured. */
  type Archive<T> = Option<Query<Query<T>>>

  function Leagues<T>(archive: Archive<T>): seq<Query<T>> {
    if archive.Some? then RowsOf(archive.value) else []
  }

  ghost predicate Fails<T>(archive: Archive<T>) {
    archive.Some? && (archive.value.Failed? || exists q :: q in Leagues(archive) && q.Failed?)
  }

  /** Every team row of an archive, over all its leagues. */
  method ListTeams<T>(archive: Archive<T>) returns (r: Option<seq<T>>)
    ensures r.None? <==> Fails(archive)
    ensures r.Some? ==> r.value == Gather(Leagues(archive))
  {
    if archive.None? || archive.value.NoRows? { return Some([]); }
    if archive.value.Failed? { return None; }
    var leagues := archive.value.rows;
    var teams: seq<T> := [];
    for i := 0 to |leagues|
      invariant teams == Gather(leagues[..i])
      invariant forall q :: q in leagues[..i] ==> !q.Failed?
    {
      assert leagues[..i + 1][..i] == leagues[..i];
      assert leagues[..i + 1] == leagues[..i] + [leagues[i]];
      assert leagues[i] in leagues;
      match leagues[i] {
        case Failed => return None;
        case NoRows =>
        case Rows(rows) => teams := teams + rows;
      }
    }
    assert leagues[..|leagues|] == leagues;
    r := Some(teams);
  }

  // ---- the starter file ----

  lemma {:induction false} HeadIsLeast(s: seq<string>)
    requires Ascending(s) && |s| > 0
    ensures forall x :: x in s ==> NotAbove(s[0], x)
  {
  }

  /** The name read off an owner's record is the one `NamedBy` describes. */
  lemma {:induction false} RecordGivesName(r: SleeperOwner, teams: seq<SleeperTeam>, id: string)
    requires Holds(r, teams, id) && IsOwnerID(teams, id)
    ensures NamedBy(teams, id, StarterSleeperOwnerName(r))
  {
    if |r.displayNames| > 0 {
      HeadIsLeast(r.displayNames);
      assert r.displayNames[0] in r.displayNames;
    } else if |r.usernames| > 0 {
      HeadIsLeast(r.usernames);
      assert r.usernames[0] in r.usernames;
      assert forall d :: !HasDisplayName(teams, id, d);
    } else {
      assert forall d :: !HasDisplayName(teams, id, d);
      assert forall u :: !HasUsername(teams, id, u);
    }
  }

  /** What the team rows say about names and owner ids. */
  ghost function ArchiveFacts(espn: seq<string>, teams: seq<SleeperTeam>): Facts {
    Facts(
      n => IsEspnName(espn, n),
      (id, n) => NamedBy(teams, id, n),
      (id, d) => HasDisplayName(teams, id, d),
      (id, u) => HasUsername(teams, id, u))
  }

  lemma {:induction false} NameIsClean(teams: seq<SleeperTeam>, id: string, n: string)
    requires NamedBy(teams, id, n)
    ensures GoodName(id) && GoodName(n)
  {
    NamesAreClean(teams, id);
  }

  lemma {:induction false} ArchiveFactsGood(espn: seq<string>, teams: seq<SleeperTeam>)
    ensures Good(ArchiveFacts(espn, teams))
  {
    var f := ArchiveFacts(espn, teams);
    forall n | f.espnName(n) ensures GoodName(n) {
      var o :| o in espn && Clean(o) == n;
      CleanNormalForm(o);
    }
    forall id, n | f.namedBy(id, n) ensures GoodName(id) && GoodName(n) { NameIsClean(teams, id, n); }
    forall id, n, p | f.namedBy(id, n) && f.namedBy(id, p) ensures n == p { NamedByOneName(teams, id, n, p); }
    forall id, d | f.displays(id, d) ensures GoodName(d) { NamesAreClean(teams, id); }
    forall id, u | f.uses(id, u) ensures GoodName(u) { NamesAreClean(teams, id); }
  }

  lemma {:induction false} EspnPartIsGrouped(m: Identities, espn: seq<string>, teams: seq<SleeperTeam>)
    requires EspnPart(m, espn)
    ensures Grouped(m, ArchiveFacts(espn, teams), {})
  {
    var f := ArchiveFacts(espn, teams);
    forall n ensures (n in m <==> IsEntryName(f, {}, n)) && (n in m ==> Group(m[n], f, {}, n)) {
      assert n in m <==> IsEspnName(espn, n);
      if n in m {
        assert m[n] == OwnerIdentity(n, [n], [], [], []);
      }
    }
  }

  lemma {:induction false} SleeperPartRecords(m: SleeperOwners, espn: seq<string>, teams: seq<SleeperTeam>)
    requires SleeperPart(m, teams)
    ensures RecordsFor(m, ArchiveFacts(espn, teams))
    ensures m.Keys == OwnerIDs(teams)
  {
    var f := ArchiveFacts(espn, teams);
    forall id | id in m ensures RecordFor(m[id], f, id) && f.namedBy(id, StarterSleeperOwnerName(m[id])) {
      assert Holds(m[id], teams, id);
      RecordGivesName(m[id], teams, id);
    }
    forall id ensures id in m.Keys <==> id in OwnerIDs(teams) {
      assert id in m <==> IsOwnerID(teams, id);
    }
  }

  ghost function OwnerIDs(teams: seq<SleeperTeam>): set<string> {
    set t | t in teams && Clean(t.ownerID) != "" :: Clean(t.ownerID)
  }

  /** The starter's entries: in name order, one for every name, holding everything that goes by it. */
  ghost predicate StarterEntries(owners: seq<OwnerIdentity>, espn: seq<string>, teams: seq<SleeperTeam>) {
    EntriesFor(owners, ArchiveFacts(espn, teams), OwnerIDs(teams))
  }

  method CollectEspn(espn: seq<string>) returns (m: Identities)
    ensures EspnPart(m, espn)
  {
    m := map[];
    for i := 0 to |espn|
      invariant EspnPart(m, espn[..i])
    {
      m := AddEspnOwner(m, espn[..i], espn[i]);
      assert espn[..i + 1] == espn[..i] + [espn[i]];
    }
    assert espn[..|espn|] == espn;
  }

  method CollectSleeper(teams: seq<SleeperTeam>) returns (m: SleeperOwners)
    ensures SleeperPart(m, teams)
  {
    m := map[];
    for i := 0 to |teams|
      invariant SleeperPart(m, teams[..i])
    {
      m := AddSleeperTeam(m, teams[..i], teams[i]);
      assert teams[..i + 1] == teams[..i] + [teams[i]];
    }
    assert teams[..|teams|] == teams;
  }

  method BuildStarterOwnerIdentities(espn: Archive<string>, sleeper: Archive<SleeperTeam>) returns (r: Option<IdentitiesFile>)
    ensures r.None? <==> Fails(espn) || Fails(sleeper)
    ensures r.Some? ==>
      && r.value.schemaVersion == SCHEMA_VERSION && r.value.owners.Some?
      && StarterEntries(r.value.owners.value, Gather(Leagues(espn)), Gather(Leagues(sleeper)))
  {
    var espnTeams := ListTeams(espn);
    if espnTeams.None? { return None; }
    var identities := CollectEspn(espnTeams.value);
    var teams := ListTeams(sleeper);
    if teams.None? { return None; }
    var owners := CollectSleeper(teams.value);
    ArchiveFactsGood(espnTeams.value, teams.value);
    EspnPartIsGrouped(identities, espnTeams.value, teams.value);
    SleeperPartRecords(owners, espnTeams.value, teams.value);
    ghost var f := ArchiveFacts(espnTeams.value, teams.value);
    identities := GroupOwners(identities, owners, f);
    var entries := SortedEntries(identities, f, owners.Keys);
    r := Some(IdentitiesFile(SCHEMA_VERSION, Some(entries)));
  }

  // ---- reading the starter back ----

  /** What the archives themselves say: `a` identifies the person whose entry is named `n`. */
  ghost predicate PointsTo(espn: seq<string>, teams: seq<SleeperTeam>, a: string, n: string) {
    || (a == n && IsEspnName(espn, n))
    || exists id :: NamedBy(teams, id, n) && (a == n || a == id || HasDisplayName(teams, id, a) || HasUsername(teams, id, a))
  }

  /** No display name, username, id or ESPN name points to two entries. */
  ghost predicate Unambiguous(espn: seq<string>, teams: seq<SleeperTeam>) {
    forall a, n, p :: PointsTo(espn, teams, a, n) && PointsTo(espn, teams, a, p) ==> n == p
  }

  lemma {:induction false} PointsToIdentifies(espn: seq<string>, teams: seq<SleeperTeam>, a: string, n: string)
    ensures PointsTo(espn, teams, a, n) <==> Identifies(ArchiveFacts(espn, teams), OwnerIDs(teams), a, n)
  {
    var f, done := ArchiveFacts(espn, teams), OwnerIDs(teams);
    forall id ensures NamedBy(teams, id, n) <==> NamedIn(f, done, id, n) {
      assert id in done <==> IsOwnerID(teams, id);
    }
  }

  /** The parser takes the starter back exactly when no identifier in the archives points to
      two entries; it then sends every ESPN name and every Sleeper owner id to its entry's name. */
  lemma {:induction false} StarterReadsBack(owners: seq<OwnerIdentity>, espn: seq<string>, teams: seq<SleeperTeam>)
    requires StarterEntries(owners, espn, teams)
    ensures Acceptable(IdentitiesFile(SCHEMA_VERSION, Some(owners))) <==> Unambiguous(espn, teams)
    ensures forall m :: Describes(m, owners) ==>
      && (forall n :: IsEspnName(espn, n) ==> n in m && m[n] == n)
      && (forall id, n :: NamedBy(teams, id, n) ==> id in m && m[id] == n)
  {
    forall a, n ensures Claims(owners, a, n) <==> PointsTo(espn, teams, a, n) {
      ArchiveFactsGood(espn, teams);
      EntriesClaim(owners, ArchiveFacts(espn, teams), OwnerIDs(teams), a, n);
      PointsToIdentifies(espn, teams, a, n);
    }
    forall n ensures !PointsTo(espn, teams, "", n) { NothingBlank(espn, teams, n); }
    assert NoBlanks(owners);
    forall m: map<string, string> | Describes(m, owners)
      ensures forall n :: IsEspnName(espn, n) ==> n in m && m[n] == n
      ensures forall id, n :: NamedBy(teams, id, n) ==> id in m && m[id] == n
    {
      forall n | IsEspnName(espn, n) ensures n in m && m[n] == n {
        assert PointsTo(espn, teams, n, n);
        assert Claims(owners, n, n);
      }
      forall id, n | NamedBy(teams, id, n) ensures id in m && m[id] == n {
        assert PointsTo(espn, teams, id, n);
        assert Claims(owners, id, n);
      }
    }
  }

  lemma {:induction false} NothingBlank(espn: seq<string>, teams: seq<SleeperTeam>, n: string)
    ensures !PointsTo(espn, teams, "", n)
  {
    if id :| NamedBy(teams, id, n) {
      NameIsClean(teams, id, n);
    }
  }

  lemma {:induction false} OwnDisplayName(teams: seq<SleeperTeam>, t: SleeperTeam)
    requires t in teams && GoodName(t.ownerID) && GoodName(t.displayName)
    requires forall o :: o in teams && Clean(o.ownerID) == t.ownerID ==> o == t
    ensures NamedBy(teams, t.ownerID, t.displayName)
  {
    assert HasDisplayName(teams, t.ownerID, t.displayName);
  }

  /** Not every generated starter reads back: two people who play under their own display
      names but have the same user name. */
  lemma {:induction false} SharedUsernameIsAmbiguous(t1: SleeperTeam, t2: SleeperTeam, username: string)
    requires GoodName(t1.ownerID) && GoodName(t2.ownerID) && t1.ownerID != t2.ownerID
    requires GoodName(t1.displayName) && GoodName(t2.displayName) && t1.displayName != t2.displayName
    requires t1.username == t2.username == username && GoodName(username)
    ensures !Unambiguous([], [t1, t2])
  {
    var teams := [t1, t2];
    OwnDisplayName(teams, t1);
    OwnDisplayName(teams, t2);
    assert HasUsername(teams, t1.ownerID, username) && HasUsername(teams, t2.ownerID, username);
    assert PointsTo([], teams, username, t1.displayName);
    assert PointsTo([], teams, username, t2.displayName);
  }
}
