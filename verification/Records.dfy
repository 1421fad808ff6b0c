/** Record books (`recordBook` and `updateRecordBook` in `internal/stats/stats.go`). */
module Records {
  import opened Results
  import opened StatsSeason

  /** `singleGameRecord`, without its display text. */
  datatype SingleGame = SingleGame(
    score: int,
    margin: int,
    owner: string,
    teamName: string,
    opponent: string,
    year: int,
    week: int)

  /** A game shown to a record book. */
  datatype Fed = Fed(game: MatchupInput, year: int)

  function HomeGame(f: Fed): SingleGame {
    var m := f.game;
    SingleGame(m.homeScore, 0, m.homeOwner, m.homeTeamName, m.awayTeamName, f.year, m.week)
  }

  function AwayGame(f: Fed): SingleGame {
    var m := f.game;
    SingleGame(m.awayScore, 0, m.awayOwner, m.awayTeamName, m.homeTeamName, f.year, m.week)
  }

  function Abs(x: int): nat {
    if x < 0 then -x else x
  }

  /** The winner's side of a game with a winner, the margin taken without its sign. */
  function WinGame(f: Fed): SingleGame
    requires ResultWinner(f.game) != WinnerUnknown
  {
    var won := if ResultWinner(f.game) == WinnerAway then AwayGame(f) else HomeGame(f);
    won.(margin := Abs(f.game.homeScore - f.game.awayScore))
  }

  /** All sides of the games, home before away. */
  function Sides(fed: seq<Fed>): seq<SingleGame> {
    if fed == [] then []
    else Sides(fed[..|fed| - 1]) + [HomeGame(fed[|fed| - 1]), AwayGame(fed[|fed| - 1])]
  }

  /** The winners of the games that have one. */
  function Wins(fed: seq<Fed>): seq<SingleGame> {
    if fed == [] then []
    else Wins(fed[..|fed| - 1]) + if ResultWinner(fed[|fed| - 1].game) != WinnerUnknown then [WinGame(fed[|fed| - 1])] else []
  }

  type Measure = SingleGame -> int

  const HIGH_SCORE: Measure := (g: SingleGame) => g.score
  const LOW_SCORE: Measure := (g: SingleGame) => -g.score
  const WIDE_MARGIN: Measure := (g: SingleGame) => g.margin
  const NARROW_MARGIN: Measure := (g: SingleGame) => -g.margin

  ghost predicate FirstMaxAt(games: seq<SingleGame>, key: Measure, i: int) {
    && 0 <= i < |games|
    && (forall j :: 0 <= j < i ==> key(games[j]) < key(games[i]))
    && (forall j :: 0 <= j < |games| ==> key(games[j]) <= key(games[i]))
  }

  /** `r` is the first game of greatest measure; there is none exactly when there are no games. */
  ghost predicate IsFirstMax(games: seq<SingleGame>, key: Measure, r: Option<SingleGame>) {
    match r
    case None => games == []
    case Some(g) => exists i :: FirstMaxAt(games, key, i) && games[i] == g
  }

  lemma {:induction false} FirstMaxUnique(games: seq<SingleGame>, key: Measure, r: Option<SingleGame>, q: Option<SingleGame>)
    requires IsFirstMax(games, key, r) && IsFirstMax(games, key, q)
    ensures r == q
  {
    if r.Some? && q.Some? {
      var i :| FirstMaxAt(games, key, i) && games[i] == r.value;
      var k :| FirstMaxAt(games, key, k) && games[k] == q.value;
      assert !(i < k) && !(k < i);
    }
  }

  /** Keeps the current record unless the new game beats it strictly. */
  function Better(current: Option<SingleGame>, g: SingleGame, key: Measure): Option<SingleGame> {
    if current.None? || key(g) > key(current.value) then Some(g) else current
  }

  lemma {:induction false} FirstMaxAppend(games: seq<SingleGame>, g: SingleGame, key: Measure, r: Option<SingleGame>)
    requires IsFirstMax(games, key, r)
    ensures IsFirstMax(games + [g], key, Better(r, g, key))
  {
    var more := games + [g];
    if r.None? {
      assert FirstMaxAt(more, key, 0);
    } else {
      var i :| FirstMaxAt(games, key, i) && games[i] == r.value;
      if key(g) > key(r.value) {
        assert FirstMaxAt(more, key, |games|);
      } else {
        assert FirstMaxAt(more, key, i);
      }
    }
  }

  lemma {:induction false} FirstMaxAppendTwo(games: seq<SingleGame>, g: SingleGame, h: SingleGame, key: Measure, r: Option<SingleGame>)
    requires IsFirstMax(games, key, r)
    ensures IsFirstMax(games + [g, h], key, Better(Better(r, g, key), h, key))
  {
    FirstMaxAppend(games, g, key, r);
    FirstMaxAppend(games + [g], h, key, Better(r, g, key));
    assert games + [g] + [h] == games + [g, h];
  }

  /** A record over some of the games never beats the record over all of them. */
  lemma {:induction false} RecordBounded(some: seq<SingleGame>, all: seq<SingleGame>, key: Measure, r: Option<SingleGame>, q: Option<SingleGame>)
    requires IsFirstMax(some, key, r) && IsFirstMax(all, key, q)
    requires forall g :: g in some ==> g in all
    ensures r.Some? ==> q.Some? && key(r.value) <= key(q.value)
  {
    if r.Some? {
      var i :| FirstMaxAt(some, key, i) && some[i] == r.value;
      assert some[i] in all;
      var k :| 0 <= k < |all| && all[k] == r.value;
    }
  }

  lemma {:induction false} SidesWithin(some: seq<Fed>, all: seq<Fed>)
    requires forall f :: f in some ==> f in all
    ensures forall g :: g in Sides(some) ==> g in Sides(all)
    ensures forall g :: g in Wins(some) ==> g in Wins(all)
    decreases |some|
  {
    if some != [] {
      var init, last := some[..|some| - 1], some[|some| - 1];
      SidesWithin(init, all);
      assert last in all;
      SidesOf(all, last);
    }
  }

  lemma {:induction false} SidesOf(fed: seq<Fed>, f: Fed)
    requires f in fed
    ensures HomeGame(f) in Sides(fed) && AwayGame(f) in Sides(fed)
    ensures ResultWinner(f.game) != WinnerUnknown ==> WinGame(f) in Wins(fed)
    decreases |fed|
  {
    var init, last := fed[..|fed| - 1], fed[|fed| - 1];
    if f in init {
      SidesOf(init, f);
    } else {
      assert fed == init + [last];
    }
  }

  /** The contents of a record book. */
  datatype Book = Book(highest: Option<SingleGame>, lowest: Option<SingleGame>, blowout: Option<SingleGame>, closest: Option<SingleGame>)

  const EMPTY := Book(None, None, None, None)

  /** The records are what a scan of all games shown would find. */
  ghost predicate BookOf(fed: seq<Fed>, book: Book) {
    && IsFirstMax(Sides(fed), HIGH_SCORE, book.highest)
    && IsFirstMax(Sides(fed), LOW_SCORE, book.lowest)
    && IsFirstMax(Wins(fed), WIDE_MARGIN, book.blowout)
    && IsFirstMax(Wins(fed), NARROW_MARGIN, book.closest)
  }

  /** The book after one more game. */
  function Shown(book: Book, f: Fed): Book {
    Book(
      Better(Better(book.highest, HomeGame(f), HIGH_SCORE), AwayGame(f), HIGH_SCORE),
      Better(Better(book.lowest, HomeGame(f), LOW_SCORE), AwayGame(f), LOW_SCORE),
      if ResultWinner(f.game) == WinnerUnknown then book.blowout else Better(book.blowout, WinGame(f), WIDE_MARGIN),
      if ResultWinner(f.game) == WinnerUnknown then book.closest else Better(book.closest, WinGame(f), NARROW_MARGIN))
  }

  lemma {:induction false} BookGrows(fed: seq<Fed>, f: Fed, book: Book)
    requires BookOf(fed, book)
    ensures BookOf(fed + [f], Shown(book, f))
  {
    var more := fed + [f];
    assert more[..|more| - 1] == fed;
    FirstMaxAppendTwo(Sides(fed), HomeGame(f), AwayGame(f), HIGH_SCORE, book.highest);
    FirstMaxAppendTwo(Sides(fed), HomeGame(f), AwayGame(f), LOW_SCORE, book.lowest);
    if ResultWinner(f.game) != WinnerUnknown {
      FirstMaxAppend(Wins(fed), WinGame(f), WIDE_MARGIN, book.blowout);
      FirstMaxAppend(Wins(fed), WinGame(f), NARROW_MARGIN, book.closest);
    } else {
      assert Wins(more) == Wins(fed);
    }
  }

  class RecordBook {
    var highestScore: Option<SingleGame>
    var lowestScore: Option<SingleGame>
    var biggestBlowout: Option<SingleGame>
    var closestWin: Option<SingleGame>

    function Contents(): Book
      reads this
    {
      Book(highestScore, lowestScore, biggestBlowout, closestWin)
    }

    constructor ()
      ensures Contents() == EMPTY
    {
      highestScore, lowestScore, biggestBlowout, closestWin := None, None, None, None;
    }

    /** `updateRecordBook`. */
    method Update(matchup: MatchupInput, year: int)
      modifies this
      ensures Contents() == Shown(old(Contents()), Fed(matchup, year))
    {
      var homeGame, awayGame := HomeGame(Fed(matchup, year)), AwayGame(Fed(matchup, year));
      UpdateScores(homeGame, awayGame);
      var winnerSide := ResultWinner(matchup);
      if winnerSide == WinnerUnknown { return; }
      var margin := homeGame.score - awayGame.score;
      if margin < 0 { margin := -margin; }
      var winner, loser := homeGame, awayGame;
      if winnerSide == WinnerAway { winner, loser := awayGame, homeGame; }
      winner := winner.(margin := margin, opponent := loser.teamName);
      if biggestBlowout.None? || winner.margin > biggestBlowout.value.margin { biggestBlowout := Some(winner); }
      if closestWin.None? || winner.margin < closestWin.value.margin { closestWin := Some(winner); }
    }

    method UpdateScores(homeGame: SingleGame, awayGame: SingleGame)
      modifies this`highestScore, this`lowestScore
      ensures highestScore == Better(Better(old(highestScore), homeGame, HIGH_SCORE), awayGame, HIGH_SCORE)
      ensures lowestScore == Better(Better(old(lowestScore), homeGame, LOW_SCORE), awayGame, LOW_SCORE)
    {
      if highestScore.None? || homeGame.score > highestScore.value.score { highestScore := Some(homeGame); }
      if highestScore.None? || awayGame.score > highestScore.value.score { highestScore := Some(awayGame); }
      if lowestScore.None? || homeGame.score < lowestScore.value.score { lowestScore := Some(homeGame); }
      if lowestScore.None? || awayGame.score < lowestScore.value.score { lowestScore := Some(awayGame); }
    }
  }

  /** The book after a list of games, from empty. */
  function ShownAll(fed: seq<Fed>): Book {
    if fed == [] then EMPTY else Shown(ShownAll(fed[..|fed| - 1]), fed[|fed| - 1])
  }

  /** A record book equals a from-scratch scan of the games shown to it: the first among the
      best, and empty exactly when there was nothing to record. */
  lemma {:induction false} BookIsScan(fed: seq<Fed>)
    ensures BookOf(fed, ShownAll(fed))
    decreases |fed|
  {
    if fed != [] {
      var init, last := fed[..|fed| - 1], fed[|fed| - 1];
      BookIsScan(init);
      BookGrows(init, last, ShownAll(init));
      assert fed == init + [last];
    }
  }

  lemma {:induction false} ShownAllStep(fed: seq<Fed>, f: Fed)
    ensures ShownAll(fed + [f]) == Shown(ShownAll(fed), f)
  {
    assert (fed + [f])[..|fed|] == fed;
  }

  /** A book over some of the games is bounded, record by record, by a book over all. */
  lemma {:induction false} BooksBounded(some: seq<Fed>, all: seq<Fed>, part: Book, whole: Book)
    requires forall f :: f in some ==> f in all
    requires BookOf(some, part) && BookOf(all, whole)
    ensures part.highest.Some? ==> whole.highest.Some? && part.highest.value.score <= whole.highest.value.score
    ensures part.lowest.Some? ==> whole.lowest.Some? && whole.lowest.value.score <= part.lowest.value.score
    ensures part.blowout.Some? ==> whole.blowout.Some? && part.blowout.value.margin <= whole.blowout.value.margin
    ensures part.closest.Some? ==> whole.closest.Some? && whole.closest.value.margin <= part.closest.value.margin
  {
    SidesWithin(some, all);
    RecordBounded(Sides(some), Sides(all), HIGH_SCORE, part.highest, whole.highest);
    RecordBounded(Sides(some), Sides(all), LOW_SCORE, part.lowest, whole.lowest);
    RecordBounded(Wins(some), Wins(all), WIDE_MARGIN, part.blowout, whole.blowout);
    RecordBounded(Wins(some), Wins(all), NARROW_MARGIN, part.closest, whole.closest);
  }
}
