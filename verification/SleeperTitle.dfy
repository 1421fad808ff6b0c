/** The view and the statistics each look for the title game, the one before sorting
    and the other after (`cmd/api/matchups.go`, `cmd/api/stats.go`): when they agree. */
module SleeperTitle {
  import opened SleeperPairing
  import opened SleeperSchedule
  import opened SleeperView
  import opened SortedStrings
  import opened Sorting

  // ---- base rows do not depend on row order ----

  /** For pairable rows, the rows of the view before labelling are the same, as a multiset,
      in whatever order the database returns its rows. */
  lemma {:induction false} BaseRowsOrderFree(rows: seq<Matchup>, perm: seq<Matchup>, teams: seq<Team>, compare: Comparison)
    requires DistinctKeys(rows) && Pairable(rows) && multiset(perm) == multiset(rows)
    ensures multiset(BaseRows(perm, teams, compare)) == multiset(BaseRows(rows, teams, compare))
  {
    GamesOrderFree(rows, perm);
    MappedReorder(Games(rows), Games(perm), (g: Game) => RowOf(g, TeamsByRoster(teams), compare));
    FilterOrderFree(RowsOf(Games(rows), TeamsByRoster(teams), compare), RowsOf(Games(perm), TeamsByRoster(teams), compare));
  }

  /** The two sides of a played row are ordered by roster, and a roster has one team name. */
  ghost predicate WellMade(rows: seq<MatchupRow>) {
    && (forall r :: r in rows && Played(r) ==> r.homeRosterID < r.awayRosterID)
    && (forall r, q :: r in rows && q in rows && r.homeRosterID == q.homeRosterID ==> r.homeTeamName == q.homeTeamName)
  }

  lemma {:induction false} FilteredIsMade(rows: seq<MatchupRow>, all: seq<MatchupRow>, row: MatchupRow)
    requires row in OfActiveWeeks(rows, all)
    ensures row in rows
  {
    FilterKeepsActiveWeeks(rows, all, row);
    assert row in multiset(OfActiveWeeks(rows, all));
    assert row in multiset(rows);
  }

  lemma {:induction false} BaseRowIsOfGame(rows: seq<Matchup>, teams: seq<Team>, compare: Comparison, row: MatchupRow) returns (g: Game)
    requires row in BaseRows(rows, teams, compare)
    ensures g in Games(rows) && row == RowOf(g, TeamsByRoster(teams), compare)
  {
    var made := RowsOf(Games(rows), TeamsByRoster(teams), compare);
    FilteredIsMade(made, made, row);
    var i :| 0 <= i < |made| && made[i] == row;
    g := Games(rows)[i];
  }

  lemma {:induction false} BaseRowsWellMade(rows: seq<Matchup>, teams: seq<Team>, compare: Comparison)
    requires DistinctKeys(rows) && Pairable(rows)
    ensures WellMade(BaseRows(rows, teams, compare))
  {
    var base := BaseRows(rows, teams, compare);
    forall r | r in base && Played(r) ensures r.homeRosterID < r.awayRosterID {
      var g := BaseRowIsOfGame(rows, teams, compare, r);
      GamesAreWellMade(rows, g);
    }
    forall r, q | r in base && q in base && r.homeRosterID == q.homeRosterID ensures r.homeTeamName == q.homeTeamName {
      var g := BaseRowIsOfGame(rows, teams, compare, r);
      var h := BaseRowIsOfGame(rows, teams, compare, q);
    }
  }

  // ---- the flag ----

  /** No two games between the title pair in the last week they meet in the playoffs. */
  ghost predicate OneLatestMeeting(base: seq<MatchupRow>, c: Resolution) {
    forall i, j :: LatestMeeting(base, c, i) && LatestMeeting(base, c, j) ==> i == j
  }

  /** Row `k`, and no other, carries the championship flag. */
  ghost predicate FlagsExactly(view: seq<MatchupRow>, k: int) {
    forall j :: 0 <= j < |view| ==> (view[j].isChampionship <==> j == k)
  }

  lemma {:induction false} LabelsKeepMeetings(base: seq<MatchupRow>, index: int, c: Resolution, i: int)
    requires 0 <= i < |base|
    ensures TitleMeeting(Labelled(base, index, c)[i], c) <==> TitleMeeting(base[i], c)
    ensures Labelled(base, index, c)[i].week == base[i].week
    ensures Labelled(base, index, c)[i].isChampionship <==> i == index
    ensures Labelled(base, index, c)[i].homeTeamName == base[i].homeTeamName
    ensures Labelled(base, index, c)[i].homeRosterID == base[i].homeRosterID
  {
  }

  lemma {:induction false} LabelsKeepLatest(base: seq<MatchupRow>, index: int, c: Resolution, i: int)
    ensures LatestMeeting(Labelled(base, index, c), c, i) <==> LatestMeeting(base, c, i)
  {
    var l := Labelled(base, index, c);
    forall j | 0 <= j < |base| ensures (TitleMeeting(l[j], c) <==> TitleMeeting(base[j], c)) && l[j].week == base[j].week {
      LabelsKeepMeetings(base, index, c, j);
    }
  }

  /** A latest meeting at one place of an arrangement is one at some place of the original. */
  lemma {:induction false} LatestElsewhere(l: seq<MatchupRow>, s: seq<MatchupRow>, c: Resolution, k: int) returns (m: int)
    requires multiset(s) == multiset(l) && LatestMeeting(s, c, k)
    ensures LatestMeeting(l, c, m) && l[m] == s[k]
  {
    assert s[k] in multiset(l);
    m :| 0 <= m < |l| && l[m] == s[k];
    forall j | 0 <= j < |l| && TitleMeeting(l[j], c) ensures l[j].week <= l[m].week {
      assert l[j] in multiset(s);
      var j' :| 0 <= j' < |s| && s[j'] == l[j];
    }
  }

  /** Only one row of a labelled list carries the flag, so an arrangement has it once. */
  lemma {:induction false} FlaggedOnce(base: seq<MatchupRow>, index: int, c: Resolution, s: seq<MatchupRow>, i: int, j: int)
    requires multiset(s) == multiset(Labelled(base, index, c))
    requires 0 <= i < |s| && 0 <= j < |s| && s[i].isChampionship && s[j].isChampionship
    ensures i == j
  {
    var l := Labelled(base, index, c);
    forall k | 0 <= k < |l| ensures l[k].isChampionship <==> k == index { LabelsKeepMeetings(base, index, c, k); }
    assert s[i] in multiset(l) && s[j] in multiset(l);
    assert s[i] == l[index] && s[j] == l[index];
    if i != j {
      TwicePresent(s, if i < j then i else j, if i < j then j else i);
      OnlyOnce(l, index);
    }
  }

  lemma {:induction false} OnlyOnce(l: seq<MatchupRow>, index: int)
    requires 0 <= index < |l| && forall k :: 0 <= k < |l| ==> (l[k].isChampionship <==> k == index)
    ensures multiset(l)[l[index]] == 1
  {
    var x := l[index];
    var a, b := l[..index], l[index + 1..];
    assert l == a + [x] + b;
    assert x !in a && x !in b;
    assert x !in multiset(a) && x !in multiset(b);
  }

  lemma {:induction false} OneMeetingAgrees(base: seq<MatchupRow>, index: int, c: Resolution, s: seq<MatchupRow>, k: int)
    requires IsSchedule(s, base, index, c) && IsTitleIndex(s, c, k) && OneLatestMeeting(base, c)
    ensures FlagsExactly(s, k)
  {
    var l := Labelled(base, index, c);
    if index != -1 {
      LabelsKeepMeetings(base, index, c, index);
      assert l[index] in multiset(s);
      var j :| 0 <= j < |s| && s[j] == l[index];
      assert TitleMeeting(s[j], c);
    }
    if exists j :: 0 <= j < |s| && TitleMeeting(s[j], c) {
      var m := LatestElsewhere(l, s, c, k);
      LabelsKeepLatest(base, index, c, m);
      assert exists j :: 0 <= j < |base| && TitleMeeting(base[j], c);
      assert m == index;
      LabelsKeepMeetings(base, index, c, m);
      forall j | 0 <= j < |s| && s[j].isChampionship ensures j == k { FlaggedOnce(base, index, c, s, j, k); }
    } else {
      forall j | 0 <= j < |s| ensures !s[j].isChampionship {
        assert s[j] in multiset(l);
        var i :| 0 <= i < |l| && l[i] == s[j];
        LabelsKeepMeetings(base, index, c, i);
      }
    }
  }

  // ---- when it fails ----

  lemma {:induction false} MeetingsShareHome(base: seq<MatchupRow>, c: Resolution, i: int, j: int)
    requires WellMade(base) && LatestMeeting(base, c, i) && LatestMeeting(base, c, j)
    ensures base[i].homeTeamName == base[j].homeTeamName && base[i].week == base[j].week
  {
    assert base[i] in base && base[j] in base;
  }

  function Swap<T>(s: seq<T>, i: int, j: int): seq<T>
    requires 0 <= i < |s| && 0 <= j < |s|
  {
    s[i := s[j]][j := s[i]]
  }

  lemma {:induction false} SwapReorders<T>(s: seq<T>, i: int, j: int)
    requires 0 <= i < j < |s|
    ensures multiset(Swap(s, i, j)) == multiset(s)
  {
    assert s == s[..i] + [s[i]] + s[i + 1..j] + [s[j]] + s[j + 1..];
    assert Swap(s, i, j) == s[..i] + [s[j]] + s[i + 1..j] + [s[i]] + s[j + 1..];
  }

  lemma {:induction false} SwapArranges(s: seq<MatchupRow>, l: seq<MatchupRow>, i: int, j: int)
    requires Arranges(s, l, BySchedule) && 0 <= i < j < |s|
    requires s[i].week == s[j].week && s[i].homeTeamName == s[j].homeTeamName
    ensures Arranges(Swap(s, i, j), l, BySchedule)
  {
    var t := Swap(s, i, j);
    SwapReorders(s, i, j);
    forall a, b | 0 <= a < b < |t| ensures !BySchedule(t[b], t[a]) {
      assert t[a].week == s[a].week && t[a].homeTeamName == s[a].homeTeamName;
      assert t[b].week == s[b].week && t[b].homeTeamName == s[b].homeTeamName;
      assert !BySchedule(s[b], s[a]);
    }
  }

  lemma {:induction false} SwapKeepsLatest(s: seq<MatchupRow>, c: Resolution, i: int, j: int, k: int)
    requires LatestMeeting(s, c, i) && LatestMeeting(s, c, j)
    ensures LatestMeeting(Swap(s, i, j), c, k) <==> LatestMeeting(s, c, k)
  {
    var t := Swap(s, i, j);
    assert forall m :: 0 <= m < |s| ==> (TitleMeeting(t[m], c) <==> TitleMeeting(s[m], c)) && t[m].week == s[m].week;
  }

  ghost predicate SomeScheduleDisagrees(base: seq<MatchupRow>, index: int, c: Resolution) {
    exists s, k :: IsSchedule(s, base, index, c) && IsTitleIndex(s, c, k) && !FlagsExactly(s, k)
  }

  /** With two latest meetings, a sort that puts the unflagged one first misleads the statistics. */
  lemma {:induction false} TwoMeetingsDisagree(base: seq<MatchupRow>, index: int, c: Resolution, j: int)
    requires WellMade(base) && IsTitleIndex(base, c, index)
    requires LatestMeeting(base, c, j) && j != index
    ensures SomeScheduleDisagrees(base, index, c)
  {
    var l := Labelled(base, index, c);
    assert LatestMeeting(base, c, index);
    ByScheduleIsOrder();
    var s := Insertion(l, BySchedule);
    var k := TitleGame(s, c);
    LabelsKeepLatest(base, index, c, index);
    LabelsKeepLatest(base, index, c, j);
    LabelsKeepMeetings(base, index, c, index);
    LabelsKeepMeetings(base, index, c, j);
    var i' := LatestElsewhere(s, l, c, index);
    var j' := LatestElsewhere(s, l, c, j);
    assert s[i'].isChampionship && !s[j'].isChampionship;
    assert LatestMeeting(s, c, k);
    if FlagsExactly(s, k) {
      assert k == i' && k < j';
      MeetingsShareHome(base, c, index, j);
      SwapArranges(s, l, k, j');
      var t := Swap(s, k, j');
      forall m ensures LatestMeeting(t, c, m) <==> LatestMeeting(s, c, m) { SwapKeepsLatest(s, c, k, j', m); }
      assert IsTitleIndex(t, c, k);
      assert !t[k].isChampionship;
    }
  }

  /** The row flagged before sorting is the row the statistics find after sorting, whatever a
      non-stable sort does with ties, if and only if the pair's last playoff week has one meeting. */
  lemma {:induction false} ViewAndStatisticsAgree(base: seq<MatchupRow>, index: int, c: Resolution)
    requires WellMade(base) && IsTitleIndex(base, c, index)
    ensures !SomeScheduleDisagrees(base, index, c) <==> OneLatestMeeting(base, c)
  {
    if OneLatestMeeting(base, c) {
      if s, k :| IsSchedule(s, base, index, c) && IsTitleIndex(s, c, k) && !FlagsExactly(s, k) {
        OneMeetingAgrees(base, index, c, s, k);
      }
    } else {
      var i, j :| LatestMeeting(base, c, i) && LatestMeeting(base, c, j) && i != j;
      TwoMeetingsDisagree(base, index, c, if i == index then j else i);
    }
  }

  /** At most one row of a schedule is the championship, and it has exactly one winner: the
      side whose roster the resolution names. */
  lemma {:induction false} OneChampionshipOneWinner(s: seq<MatchupRow>, base: seq<MatchupRow>, index: int, c: Resolution)
    requires IsSchedule(s, base, index, c)
    ensures forall i, j :: 0 <= i < |s| && 0 <= j < |s| && s[i].isChampionship && s[j].isChampionship ==> i == j
    ensures forall i :: 0 <= i < |s| && s[i].isChampionship ==>
      && TitleMeeting(s[i], c)
      && (s[i].homeWinner <==> s[i].homeRosterID == c.winner)
      && (s[i].awayWinner <==> s[i].awayRosterID == c.winner)
      && s[i].homeWinner != s[i].awayWinner
  {
    forall i, j | 0 <= i < |s| && 0 <= j < |s| && s[i].isChampionship && s[j].isChampionship ensures i == j {
      FlaggedOnce(base, index, c, s, i, j);
    }
    var l := Labelled(base, index, c);
    forall i | 0 <= i < |s| && s[i].isChampionship
      ensures TitleMeeting(s[i], c)
      ensures (s[i].homeWinner <==> s[i].homeRosterID == c.winner) && (s[i].awayWinner <==> s[i].awayRosterID == c.winner)
      ensures s[i].homeWinner != s[i].awayWinner
    {
      assert s[i] in multiset(l);
      var m :| 0 <= m < |l| && l[m] == s[i];
      LabelsKeepMeetings(base, index, c, m);
      assert LatestMeeting(base, c, index);
    }
  }
}
