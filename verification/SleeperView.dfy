/** The Sleeper matchups view (`cmd/api/matchups.go`): resolving the title pair,
    labelling the one title game, and sorting the schedule. */
module SleeperView {
  import opened Results
  import opened Sorting
  import opened Text

  /** A row of the teams table. */
  datatype Team = Team(
    rosterID: int,
    ownerID: string,
    displayName: string,
    username: string,
    teamName: string,
    wins: int,
    losses: int,
    ties: int,
    finalStanding: int,
    pointsFor: string,
    pointsAgainst: string)

  /** A row of the playoff bracket table. */
  datatype Bracket = Bracket(
    bracketType: string,
    placement: Option<int>,
    slot1: Option<int>,
    slot2: Option<int>,
    winner: Option<int>,
    loser: Option<int>)

  /** `sleeperChampionshipResolution`. */
  datatype Resolution = Resolution(first: int, second: int, winner: int) {
    predicate Valid() {
      && first >= 1 && second >= 1 && first != second
      && (winner == first || winner == second)
    }
  }

  const UNRESOLVED := Resolution(0, 0, 0)

  // ---- which pair played for the title ----

  /** `unicode.ToLower` as far as the letters of "winner" can tell. */
  function LowerChar(c: char): char {
    if 'A' <= c <= 'Z' then ((c as int) + 32) as char
    else if c == '\U{0130}' then 'i'
    else c
  }

  function Lower(s: string): string {
    seq(|s|, i requires 0 <= i < |s| => LowerChar(s[i]))
  }

  predicate Contains(s: string, part: string) {
    exists i :: 0 <= i <= |s| && part <= s[i..]
  }

  predicate IsWinnersBracket(bracketType: string) {
    Contains(Lower(TrimSpace(bracketType)), "winner")
  }

  /** The word is at position `i`, in whatever case. */
  predicate WinnerAt(s: string, i: nat) {
    && i + 6 <= |s|
    && s[i] in {'w', 'W'} && s[i + 1] in {'i', 'I', '\U{0130}'} && s[i + 2] in {'n', 'N'}
    && s[i + 3] in {'n', 'N'} && s[i + 4] in {'e', 'E'} && s[i + 5] in {'r', 'R'}
  }

  lemma {:induction false} PrefixAt(s: string, i: nat, word: string, k: nat)
    requires i <= |s| && word <= s[i..] && k < |word|
    ensures i + k < |s| && s[i + k] == word[k]
  {
    assert s[i..][k] == word[k];
  }

  lemma {:induction false} WinnersBracketIs(bracketType: string)
    ensures IsWinnersBracket(bracketType) <==> exists i :: WinnerAt(TrimSpace(bracketType), i)
  {
    var s := TrimSpace(bracketType);
    var l := Lower(s);
    forall i: nat | i <= |s| ensures "winner" <= l[i..] <==> WinnerAt(s, i) {
      if WinnerAt(s, i) { assert l[i..][..6] == "winner"; }
      if "winner" <= l[i..] {
        PrefixAt(l, i, "winner", 0);
        PrefixAt(l, i, "winner", 1);
        PrefixAt(l, i, "winner", 2);
        PrefixAt(l, i, "winner", 3);
        PrefixAt(l, i, "winner", 4);
        PrefixAt(l, i, "winner", 5);
      }
    }
  }

  predicate IsTitleRow(b: Bracket) {
    IsWinnersBracket(b.bracketType) && b.placement == Some(1)
  }

  /** `sleeperBracketChampionship`: none when the row does not settle a valid pair. */
  function BracketChampionship(b: Bracket): Option<Resolution> {
    if b.winner.None? then None
    else
      var r :=
        if b.loser.Some? then Resolution(b.winner.value, b.loser.value, b.winner.value)
        else if b.slot1.Some? && b.slot2.Some? then Resolution(b.slot1.value, b.slot2.value, b.winner.value)
        else Resolution(0, 0, b.winner.value);
      if r.Valid() then Some(r) else None
  }

  /** Title row `b` settles the pair and winner as `r`. */
  predicate Settles(b: Bracket, r: Resolution) {
    IsTitleRow(b) && BracketChampionship(b) == Some(r)
  }

  function CountStanding(teams: seq<Team>, standing: int): nat {
    if teams == [] then 0
    else CountStanding(teams[..|teams| - 1], standing) + if teams[|teams| - 1].finalStanding == standing then 1 else 0
  }

  /** The standings name one champion and one runner-up, and they are two real rosters. */
  ghost predicate StandingsSettle(teams: seq<Team>, r: Resolution) {
    && CountStanding(teams, 1) == 1 && CountStanding(teams, 2) == 1
    && (exists t :: t in teams && t.finalStanding == 1 && t.rosterID == r.first)
    && (exists t :: t in teams && t.finalStanding == 2 && t.rosterID == r.second)
    && r.winner == r.first && r.Valid()
  }

  /** The answer the data supports. Brackets come first and must agree; the standings speak
      only if no title row exists; otherwise nothing is claimed. */
  ghost predicate IsAnswer(brackets: seq<Bracket>, teams: seq<Team>, r: Resolution) {
    if exists b, q :: b in brackets && Settles(b, q) then
      if forall b, c, q, q' :: b in brackets && c in brackets && Settles(b, q) && Settles(c, q') ==> q == q'
      then exists b :: b in brackets && Settles(b, r)
      else r == UNRESOLVED
    else if exists b :: b in brackets && IsTitleRow(b) then r == UNRESOLVED
    else if exists q :: StandingsSettle(teams, q) then StandingsSettle(teams, r)
    else r == UNRESOLVED
  }

  lemma {:induction false} CountStandingPositive(teams: seq<Team>, standing: int)
    ensures CountStanding(teams, standing) > 0 <==> exists t :: t in teams && t.finalStanding == standing
    decreases |teams|
  {
    if teams != [] {
      var init, last := teams[..|teams| - 1], teams[|teams| - 1];
      CountStandingPositive(init, standing);
      assert teams == init + [last];
      if t :| t in teams && t.finalStanding == standing { assert t in init || t == last; }
      if t :| t in init && t.finalStanding == standing { assert t in teams; }
      assert last in teams;
    }
  }

  lemma {:induction false} OneOfStanding(teams: seq<Team>, standing: int, t: Team, u: Team)
    requires CountStanding(teams, standing) == 1
    requires t in teams && u in teams && t.finalStanding == standing && u.finalStanding == standing
    ensures t == u
    decreases |teams|
  {
    var init, last := teams[..|teams| - 1], teams[|teams| - 1];
    assert teams == init + [last];
    CountStandingPositive(init, standing);
    if last.finalStanding == standing {
      assert t !in init && u !in init;
    } else {
      OneOfStanding(init, standing, t, u);
    }
  }

  lemma {:induction false} StandingsSettleOnce(teams: seq<Team>, q: Resolution, r: Resolution)
    requires StandingsSettle(teams, q) && StandingsSettle(teams, r)
    ensures q == r
  {
    var t :| t in teams && t.finalStanding == 1 && t.rosterID == q.first;
    var t' :| t' in teams && t'.finalStanding == 1 && t'.rosterID == r.first;
    OneOfStanding(teams, 1, t, t');
    var u :| u in teams && u.finalStanding == 2 && u.rosterID == q.second;
    var u' :| u' in teams && u'.finalStanding == 2 && u'.rosterID == r.second;
    OneOfStanding(teams, 2, u, u');
  }

  lemma {:induction false} AnswerUnique(brackets: seq<Bracket>, teams: seq<Team>, q: Resolution, r: Resolution)
    requires IsAnswer(brackets, teams, q) && IsAnswer(brackets, teams, r)
    ensures q == r
  {
    if StandingsSettle(teams, q) && StandingsSettle(teams, r) { StandingsSettleOnce(teams, q, r); }
  }

  lemma {:induction false} CountStandingConcat(a: seq<Team>, b: seq<Team>, standing: int)
    ensures CountStanding(a + b, standing) == CountStanding(a, standing) + CountStanding(b, standing)
    decreases |b|
  {
    if b == [] {
      assert a + b == a;
    } else {
      CountStandingConcat(a, b[..|b| - 1], standing);
      assert (a + b)[..|a + b| - 1] == a + b[..|b| - 1];
    }
  }

  lemma {:induction false} CountStandingReorder(teams: seq<Team>, perm: seq<Team>, standing: int)
    requires multiset(perm) == multiset(teams)
    ensures CountStanding(perm, standing) == CountStanding(teams, standing)
    decreases |teams|
  {
    if teams == [] {
      ReorderOfNone(perm);
    } else {
      var a, b := AroundHead(teams, perm);
      CountStandingReorder(teams[1..], a + b, standing);
      CountStandingAround(a, teams[0], b, standing);
      CountStandingAround([], teams[0], teams[1..], standing);
    }
  }

  lemma {:induction false} CountStandingAround(a: seq<Team>, t: Team, b: seq<Team>, standing: int)
    ensures CountStanding(a + [t] + b, standing) == CountStanding(a + b, standing) + CountStanding([t], standing)
  {
    CountStandingConcat(a, [t], standing);
    CountStandingConcat(a + [t], b, standing);
    CountStandingConcat(a, b, standing);
  }

  /** The answer depends only on which rows there are, not on their order. */
  lemma {:induction false} AnswerOrderFree(brackets: seq<Bracket>, teams: seq<Team>, brackets': seq<Bracket>, teams': seq<Team>, r: Resolution)
    requires multiset(brackets') == multiset(brackets) && multiset(teams') == multiset(teams)
    requires IsAnswer(brackets, teams, r)
    ensures IsAnswer(brackets', teams', r)
  {
    assert forall b :: b in brackets' <==> b in multiset(brackets');
    assert forall b :: b in brackets <==> b in multiset(brackets);
    assert forall t :: t in teams' <==> t in multiset(teams');
    assert forall t :: t in teams <==> t in multiset(teams);
    CountStandingReorder(teams, teams', 1);
    CountStandingReorder(teams, teams', 2);
    assert forall q :: StandingsSettle(teams', q) <==> StandingsSettle(teams, q);
  }

  /** It never guesses: a valid answer is one that every settled title row gives, or, with no
      title row at all, the one the standings give; its winner is one of two distinct rosters. */
  lemma {:induction false} AnswerIsSupported(brackets: seq<Bracket>, teams: seq<Team>, r: Resolution)
    requires IsAnswer(brackets, teams, r)
    ensures r.Valid() <==> r != UNRESOLVED
    ensures r.Valid() ==>
      || ((exists b :: b in brackets && Settles(b, r)) && forall b, q :: b in brackets && Settles(b, q) ==> q == r)
      || ((forall b :: b in brackets ==> !IsTitleRow(b)) && StandingsSettle(teams, r))
  {
    if exists b, q :: b in brackets && Settles(b, q) {
      if forall b, c, q, q' :: b in brackets && c in brackets && Settles(b, q) && Settles(c, q') ==> q == q' {
        var b :| b in brackets && Settles(b, r);
      }
    }
  }

  /** The bracket row names `winner` as winner and `first` and `second` as the two rosters that
      played: winner and loser if both are named, else the two slots. */
  predicate NamesPair(b: Bracket, first: int, second: int, winner: int) {
    && b.winner == Some(winner)
    && if b.loser.Some?
       then (first == winner && second == b.loser.value) || (second == winner && first == b.loser.value)
       else (b.slot1 == Some(first) && b.slot2 == Some(second)) || (b.slot1 == Some(second) && b.slot2 == Some(first))
  }

  /** A bracket row settles a title exactly when it names a winner and two distinct positive
      rosters, the winner one of them; and then it settles it for that pair and that winner. */
  lemma {:induction false} SettlesExactly(b: Bracket)
    ensures (exists r :: Settles(b, r)) <==>
      IsTitleRow(b) && exists first, second, winner ::
        NamesPair(b, first, second, winner) && first >= 1 && second >= 1 && first != second && (winner == first || winner == second)
    ensures forall r :: Settles(b, r) ==> NamesPair(b, r.first, r.second, r.winner)
  {
    if exists first, second, winner :: IsTitleRow(b) && NamesPair(b, first, second, winner) && first >= 1 && second >= 1 && first != second && (winner == first || winner == second) {
      assert Settles(b, BracketChampionship(b).value);
    }
    if r :| Settles(b, r) {
      assert NamesPair(b, r.first, r.second, r.winner);
    }
  }

  /** Whoever is resolved as champion while a title row exists is the winner that a first-place row
      of the winners bracket names, and the pair is the one that row names. */
  lemma {:induction false} BracketAnswer(brackets: seq<Bracket>, teams: seq<Team>, r: Resolution)
    requires IsAnswer(brackets, teams, r) && r.Valid() && exists b :: b in brackets && IsTitleRow(b)
    ensures exists b :: b in brackets && b.placement == Some(1) && IsWinnersBracket(b.bracketType) && NamesPair(b, r.first, r.second, r.winner)
  {
    AnswerIsSupported(brackets, teams, r);
    var b :| b in brackets && Settles(b, r);
    SettlesExactly(b);
  }

  method SleeperChampionshipFromStandings(teams: seq<Team>) returns (r: Resolution)
    ensures if exists q :: StandingsSettle(teams, q) then StandingsSettle(teams, r) else r == UNRESOLVED
  {
    r := UNRESOLVED;
    var championCount, runnerUpCount := 0, 0;
    for i := 0 to |teams|
      invariant championCount == CountStanding(teams[..i], 1) && runnerUpCount == CountStanding(teams[..i], 2)
      invariant championCount > 0 ==> r.winner == r.first && exists t :: t in teams && t.finalStanding == 1 && t.rosterID == r.first
      invariant runnerUpCount > 0 ==> exists t :: t in teams && t.finalStanding == 2 && t.rosterID == r.second
    {
      var team := teams[i];
      assert team in teams && teams[..i + 1][..i] == teams[..i];
      if team.finalStanding == 1 {
        r := r.(first := team.rosterID, winner := team.rosterID);
        championCount := championCount + 1;
      } else if team.finalStanding == 2 {
        r := r.(second := team.rosterID);
        runnerUpCount := runnerUpCount + 1;
      }
    }
    assert teams[..|teams|] == teams;
    if championCount != 1 || runnerUpCount != 1 || !r.Valid() {
      if q :| StandingsSettle(teams, q) {
        SameChampions(teams, q, r);
      }
      return UNRESOLVED;
    }
    assert StandingsSettle(teams, r);
  }

  lemma {:induction false} SameChampions(teams: seq<Team>, q: Resolution, r: Resolution)
    requires StandingsSettle(teams, q)
    requires r.winner == r.first && exists t :: t in teams && t.finalStanding == 1 && t.rosterID == r.first
    requires exists t :: t in teams && t.finalStanding == 2 && t.rosterID == r.second
    ensures q == r
  {
    var t :| t in teams && t.finalStanding == 1 && t.rosterID == q.first;
    var t' :| t' in teams && t'.finalStanding == 1 && t'.rosterID == r.first;
    OneOfStanding(teams, 1, t, t');
    var u :| u in teams && u.finalStanding == 2 && u.rosterID == q.second;
    var u' :| u' in teams && u'.finalStanding == 2 && u'.rosterID == r.second;
    OneOfStanding(teams, 2, u, u');
  }

  method ResolveSleeperChampionship(brackets: seq<Bracket>, teams: seq<Team>) returns (r: Resolution)
    ensures IsAnswer(brackets, teams, r)
  {
    var bracketResolution := UNRESOLVED;
    var foundPlacement, foundResolution := false, false;
    for i := 0 to |brackets|
      invariant foundPlacement <==> exists b :: b in brackets[..i] && IsTitleRow(b)
      invariant foundResolution ==> exists b :: b in brackets && Settles(b, bracketResolution)
      invariant forall b, q :: b in brackets[..i] && Settles(b, q) ==> foundResolution && q == bracketResolution
    {
      var bracket := brackets[i];
      assert bracket in brackets && brackets[..i + 1] == brackets[..i] + [bracket];
      if IsTitleRow(bracket) {
        foundPlacement := true;
        var resolution := BracketChampionship(bracket);
        if resolution.Some? {
          assert Settles(bracket, resolution.value);
          if foundResolution && resolution.value != bracketResolution {
            return UNRESOLVED;
          }
          bracketResolution := resolution.value;
          foundResolution := true;
        }
      }
    }
    assert brackets[..|brackets|] == brackets;
    if foundResolution { return bracketResolution; }
    if foundPlacement { return UNRESOLVED; }
    r := SleeperChampionshipFromStandings(teams);
  }
}
