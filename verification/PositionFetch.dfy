/** The concurrent position lookup (`fetchESPNAthletePositions` in `cmd/api/drafts.go`): one
    goroutine per id, a semaphore of eight, a buffered channel, a wait group and a context that
    may be cancelled at any moment, as a state machine of single steps. */
module PositionFetch {
  import opened SortedStrings

  const SLOTS := 8

  /** A goroutine. `held` says whether it took a slot before sending. */
  datatype Worker =
    | NotStarted
    | Queued
    | Fetching
    | Sending(position: string, held: bool)
    | Releasing
    | Finishing
    | Gone

  datatype Main = Spawning(next: nat) | Joining | Closing | Draining | Returned

  /** Result of worker `worker`; a blank position is a miss. */
  datatype Reply = Reply(worker: nat, position: string)

  datatype State = State(
    main: Main,
    workers: seq<Worker>,
    slots: nat,
    group: nat,
    channel: seq<Reply>,
    closed: bool,
    cancelled: bool,
    received: seq<Reply>)

  datatype Event =
    | Spawn
    | AllSpawned
    | Acquire(w: nat)
    | GiveUp(w: nat)
    | Fetch(w: nat, position: string)
    | Send(w: nat)
    | Release(w: nat)
    | Finish(w: nat)
    | Join
    | Close
    | Receive
    | End
    | Cancel

  /** The ids asked for and the answers the remote service may give for an id. */
  datatype Request = Request(ids: seq<string>, mayAnswer: (string, string) -> bool)

  predicate At(s: State, w: nat, stage: Worker) {
    w < |s.workers| && s.workers[w] == stage
  }

  predicate IsSending(s: State, w: nat) {
    w < |s.workers| && s.workers[w].Sending?
  }

  /** A step that is possible now. A full channel would block `Send`, and a closed one would panic. */
  predicate Enabled(q: Request, s: State, e: Event) {
    match e
    case Spawn => s.main.Spawning? && s.main.next < |q.ids| && At(s, s.main.next, NotStarted)
    case AllSpawned => s.main.Spawning? && s.main.next >= |q.ids|
    case Acquire(w) => At(s, w, Queued) && s.slots < SLOTS
    case GiveUp(w) => At(s, w, Queued) && s.cancelled
    case Fetch(w, position) => At(s, w, Fetching) && w < |q.ids| && (position == "" || q.mayAnswer(q.ids[w], position))
    case Send(w) => IsSending(s, w) && |s.channel| < |q.ids| && !s.closed
    case Release(w) => At(s, w, Releasing) && s.slots > 0
    case Finish(w) => At(s, w, Finishing) && s.group > 0
    case Join => s.main.Joining? && s.group == 0
    case Close => s.main.Closing?
    case Receive => s.main.Draining? && s.channel != []
    case End => s.main.Draining? && s.closed && s.channel == []
    case Cancel => !s.cancelled
  }

  function Move(s: State, w: nat, stage: Worker): State
    requires w < |s.workers|
  {
    s.(workers := s.workers[w := stage])
  }

  function Next(q: Request, s: State, e: Event): State
    requires Enabled(q, s, e)
  {
    match e
    case Spawn => Move(s, s.main.next, Queued).(main := Spawning(s.main.next + 1), group := s.group + 1)
    case AllSpawned => s.(main := Joining)
    case Acquire(w) => Move(s, w, Fetching).(slots := s.slots + 1)
    case GiveUp(w) => Move(s, w, Sending("", false))
    case Fetch(w, position) => Move(s, w, Sending(position, true))
    case Send(w) =>
      var stage := s.workers[w];
      Move(s, w, if stage.held then Releasing else Finishing).(channel := s.channel + [Reply(w, stage.position)])
    case Release(w) => Move(s, w, Finishing).(slots := s.slots - 1)
    case Finish(w) => Move(s, w, Gone).(group := s.group - 1)
    case Join => s.(main := Closing)
    case Close => s.(main := Draining, closed := true)
    case Receive => s.(channel := s.channel[1..], received := s.received + [s.channel[0]])
    case End => s.(main := Returned)
    case Cancel => s.(cancelled := true)
  }

  predicate Legal(q: Request, s: State, run: seq<Event>)
    decreases |run|
  {
    run == [] || (Enabled(q, s, run[0]) && Legal(q, Next(q, s, run[0]), run[1..]))
  }

  function After(q: Request, s: State, run: seq<Event>): State
    requires Legal(q, s, run)
    decreases |run|
  {
    if run == [] then s else After(q, Next(q, s, run[0]), run[1..])
  }

  function Initial(q: Request): State {
    State(Spawning(0), seq(|q.ids|, i => NotStarted), 0, 0, [], false, false, [])
  }

  // ---- what every step keeps ----

  predicate Holds(stage: Worker) {
    stage.Fetching? || stage.Releasing? || (stage.Sending? && stage.held)
  }

  predicate Running(stage: Worker) {
    !stage.NotStarted? && !stage.Gone?
  }

  predicate HasSent(stage: Worker) {
    stage.Releasing? || stage.Finishing? || stage.Gone?
  }

  ghost function Holders(workers: seq<Worker>): set<nat> {
    set w: nat | w < |workers| && Holds(workers[w])
  }

  ghost function Unfinished(workers: seq<Worker>): set<nat> {
    set w: nat | w < |workers| && Running(workers[w])
  }

  /** Everything sent so far, oldest first. */
  function Sent(s: State): seq<Reply> {
    s.received + s.channel
  }

  ghost predicate HasReply(replies: seq<Reply>, w: nat) {
    exists k :: 0 <= k < |replies| && replies[k].worker == w
  }

  ghost predicate RepliesInOrder(q: Request, s: State) {
    && (forall k :: 0 <= k < |Sent(s)| ==> GoodReply(q, s, Sent(s)[k]))
    && (forall j, k :: 0 <= j < k < |Sent(s)| ==> Sent(s)[j].worker != Sent(s)[k].worker)
    && (forall w: nat :: w < |s.workers| && HasSent(s.workers[w]) ==> HasReply(Sent(s), w))
  }

  ghost predicate GoodReply(q: Request, s: State, r: Reply) {
    && r.worker < |s.workers| && r.worker < |q.ids| && HasSent(s.workers[r.worker])
    && (r.position == "" || q.mayAnswer(q.ids[r.worker], r.position))
  }

  ghost predicate MainInOrder(q: Request, s: State) {
    && (s.main.Spawning? ==> s.main.next <= |q.ids| && forall w: nat :: w < |s.workers| ==> (s.workers[w].NotStarted? <==> w >= s.main.next))
    && (!s.main.Spawning? ==> forall w: nat :: w < |s.workers| ==> !s.workers[w].NotStarted?)
    && (s.main.Closing? || s.main.Draining? || s.main.Returned? ==> forall w: nat :: w < |s.workers| ==> s.workers[w].Gone?)
    && (s.closed <==> s.main.Draining? || s.main.Returned?)
    && (s.main.Returned? ==> s.channel == [])
  }

  /** The semaphore and the wait group count what they should, and nobody is sending a made-up answer. */
  ghost predicate Counts(q: Request, s: State) {
    && |s.workers| == |q.ids|
    && s.slots == |Holders(s.workers)| <= SLOTS
    && s.group == |Unfinished(s.workers)|
    && (forall w: nat :: w < |q.ids| && s.workers[w].Sending? ==> s.workers[w].position == "" || q.mayAnswer(q.ids[w], s.workers[w].position))
  }

  ghost predicate Inv(q: Request, s: State) {
    Counts(q, s) && MainInOrder(q, s) && RepliesInOrder(q, s)
  }

  lemma {:induction false} InitialInv(q: Request)
    ensures Inv(q, Initial(q))
  {
    assert Holders(Initial(q).workers) == {};
    assert Unfinished(Initial(q).workers) == {};
  }

  /** Moving one worker changes the two sets at that worker only. */
  lemma {:induction false} MoveSets(workers: seq<Worker>, w: nat, stage: Worker)
    requires w < |workers|
    ensures |Holders(workers[w := stage])| + (if Holds(workers[w]) then 1 else 0) == |Holders(workers)| + (if Holds(stage) then 1 else 0)
    ensures |Unfinished(workers[w := stage])| + (if Running(workers[w]) then 1 else 0) == |Unfinished(workers)| + (if Running(stage) then 1 else 0)
  {
    var after := workers[w := stage];
    assert Holders(after) - {w} == Holders(workers) - {w};
    assert Unfinished(after) - {w} == Unfinished(workers) - {w};
    TakeOut(Holders(after), w);
    TakeOut(Holders(workers), w);
    TakeOut(Unfinished(after), w);
    TakeOut(Unfinished(workers), w);
  }

  lemma {:induction false} TakeOut(all: set<nat>, w: nat)
    ensures |all| == |all - {w}| + if w in all then 1 else 0
  {
    if w !in all { assert all - {w} == all; }
  }

  lemma {:induction false} MoveKeepsCounts(q: Request, s: State, s': State, w: nat, stage: Worker)
    requires Counts(q, s) && w < |s.workers| && s'.workers == s.workers[w := stage] && s'.slots <= SLOTS
    requires s'.slots + (if Holds(s.workers[w]) then 1 else 0) == s.slots + (if Holds(stage) then 1 else 0)
    requires s'.group + (if Running(s.workers[w]) then 1 else 0) == s.group + (if Running(stage) then 1 else 0)
    requires stage.Sending? ==> stage.position == "" || q.mayAnswer(q.ids[w], stage.position)
    ensures Counts(q, s')
  {
    MoveSets(s.workers, w, stage);
  }

  lemma {:induction false} StepKeepsCounts(q: Request, s: State, e: Event)
    requires Counts(q, s) && Enabled(q, s, e)
    ensures Counts(q, Next(q, s, e))
  {
    var s' := Next(q, s, e);
    match e
    case Spawn => MoveKeepsCounts(q, s, s', s.main.next, Queued);
    case Acquire(w) => MoveKeepsCounts(q, s, s', w, Fetching);
    case GiveUp(w) => MoveKeepsCounts(q, s, s', w, Sending("", false));
    case Fetch(w, position) => MoveKeepsCounts(q, s, s', w, Sending(position, true));
    case Send(w) => MoveKeepsCounts(q, s, s', w, if s.workers[w].held then Releasing else Finishing);
    case Release(w) => MoveKeepsCounts(q, s, s', w, Finishing);
    case Finish(w) => MoveKeepsCounts(q, s, s', w, Gone);
    case _ =>
  }

  lemma {:induction false} EmptySet(all: set<nat>, w: nat)
    requires |all| == 0
    ensures w !in all
  {
  }

  lemma {:induction false} StepKeepsMain(q: Request, s: State, e: Event)
    requires Inv(q, s) && Enabled(q, s, e)
    ensures MainInOrder(q, Next(q, s, e))
  {
    if e.Join? {
      forall w: nat | w < |q.ids| ensures s.workers[w].Gone? {
        EmptySet(Unfinished(s.workers), w);
        assert !Running(s.workers[w]);
      }
    }
  }

  lemma {:induction false} SendKeepsReplies(q: Request, s: State, w: nat)
    requires RepliesInOrder(q, s) && |s.workers| == |q.ids| && Enabled(q, s, Send(w))
    requires s.workers[w].position == "" || q.mayAnswer(q.ids[w], s.workers[w].position)
    ensures RepliesInOrder(q, Next(q, s, Send(w)))
  {
    var s' := Next(q, s, Send(w));
    assert Sent(s') == Sent(s) + [Reply(w, s.workers[w].position)];
    forall k | 0 <= k < |Sent(s)| ensures Sent(s)[k].worker != w && GoodReply(q, s', Sent(s)[k]) {
      assert GoodReply(q, s, Sent(s)[k]);
    }
    forall v: nat | v < |s'.workers| && HasSent(s'.workers[v]) ensures HasReply(Sent(s'), v) {
      if v == w {
        assert Sent(s')[|Sent(s)|].worker == v;
      } else {
        var k :| 0 <= k < |Sent(s)| && Sent(s)[k].worker == v;
        assert Sent(s')[k].worker == v;
      }
    }
  }

  lemma {:induction false} OthersKeepReplies(q: Request, s: State, e: Event)
    requires RepliesInOrder(q, s) && Enabled(q, s, e) && !e.Send?
    ensures RepliesInOrder(q, Next(q, s, e))
  {
    var s' := Next(q, s, e);
    assert Sent(s') == Sent(s);
    forall k | 0 <= k < |Sent(s')| ensures GoodReply(q, s', Sent(s')[k]) { assert GoodReply(q, s, Sent(s)[k]); }
    forall v: nat | v < |s'.workers| && HasSent(s'.workers[v]) ensures HasReply(Sent(s'), v) {
      assert HasSent(s.workers[v]);
    }
  }

  lemma {:induction false} StepKeepsReplies(q: Request, s: State, e: Event)
    requires Inv(q, s) && Enabled(q, s, e)
    ensures RepliesInOrder(q, Next(q, s, e))
  {
    if e.Send? {
      SendKeepsReplies(q, s, e.w);
    } else {
      OthersKeepReplies(q, s, e);
    }
  }

  lemma {:induction false} StepKeepsInv(q: Request, s: State, e: Event)
    requires Inv(q, s) && Enabled(q, s, e)
    ensures Inv(q, Next(q, s, e))
  {
    StepKeepsCounts(q, s, e);
    StepKeepsMain(q, s, e);
    StepKeepsReplies(q, s, e);
  }

  lemma {:induction false} RunInv(q: Request, s: State, run: seq<Event>)
    requires Inv(q, s) && Legal(q, s, run)
    ensures Inv(q, After(q, s, run))
    decreases |run|
  {
    if run != [] {
      StepKeepsInv(q, s, run[0]);
      RunInv(q, Next(q, s, run[0]), run[1..]);
    }
  }

  // ---- safety ----

  function RepliedWorkers(replies: seq<Reply>): seq<nat> {
    seq(|replies|, k requires 0 <= k < |replies| => replies[k].worker)
  }

  /** Distinct numbers below `n` are at most `n` many. */
  lemma {:induction false} Pigeonhole(s: seq<nat>, n: nat)
    requires Distinct(s) && forall i :: 0 <= i < |s| ==> s[i] < n
    ensures |s| <= n
    decreases n
  {
    if s != [] {
      assert s[0] < n;
      if i :| 0 <= i < |s| && s[i] == n - 1 {
        Pigeonhole(s[..i] + s[i + 1..], n - 1);
      } else {
        Pigeonhole(s, n - 1);
      }
    }
  }

  /** At most eight goroutines hold a slot; nobody who wants to send finds the channel full or closed. */
  lemma {:induction false} SafeAlways(q: Request, run: seq<Event>)
    requires Legal(q, Initial(q), run)
    ensures var s := After(q, Initial(q), run);
      && |Holders(s.workers)| <= 8
      && forall w: nat :: IsSending(s, w) ==> Enabled(q, s, Send(w))
  {
    InitialInv(q);
    RunInv(q, Initial(q), run);
    var s := After(q, Initial(q), run);
    forall w: nat | IsSending(s, w) ensures Enabled(q, s, Send(w)) { RoomToSend(q, s, w); }
  }

  lemma {:induction false} RoomToSend(q: Request, s: State, w: nat)
    requires Inv(q, s) && IsSending(s, w)
    ensures Enabled(q, s, Send(w))
  {
    var all := RepliedWorkers(Sent(s)) + [w];
    forall k | 0 <= k < |Sent(s)| ensures all[k] < |q.ids| && all[k] != w { assert GoodReply(q, s, Sent(s)[k]); }
    Pigeonhole(all, |q.ids|);
  }

  // ---- progress ----

  lemma {:induction false} SomeHolder(q: Request, s: State) returns (w: nat)
    requires Inv(q, s) && s.slots > 0
    ensures w < |s.workers| && Holds(s.workers[w])
  {
    w :| w in Holders(s.workers);
  }

  /** A goroutine that has started and is not gone can move, or one that holds a slot can. */
  lemma {:induction false} WorkerMoves(q: Request, s: State, w: nat) returns (e: Event)
    requires Inv(q, s) && w < |q.ids| && Running(s.workers[w]) && (s.workers[w].Queued? ==> s.slots < SLOTS)
    ensures Enabled(q, s, e) && !e.Cancel?
    ensures (e.Acquire? ==> s.workers[w].Queued?) && (e.Fetch? ==> s.workers[w].Fetching?)
  {
    match s.workers[w]
    case Queued => e := Acquire(w);
    case Fetching => e := Fetch(w, "");
    case Sending(_, _) =>
      RoomToSend(q, s, w);
      e := Send(w);
    case Releasing =>
      assert w in Holders(s.workers);
      e := Release(w);
    case Finishing =>
      assert w in Unfinished(s.workers);
      e := Finish(w);
  }

  /** It never deadlocks: until the call returns some step other than a cancellation is possible. */
  lemma {:induction false} NeverStuck(q: Request, run: seq<Event>) returns (e: Event)
    requires Legal(q, Initial(q), run) && !After(q, Initial(q), run).main.Returned?
    ensures Enabled(q, After(q, Initial(q), run), e) && !e.Cancel?
  {
    InitialInv(q);
    RunInv(q, Initial(q), run);
    e := CanMove(q, After(q, Initial(q), run));
  }

  lemma {:induction false} CanMove(q: Request, s: State) returns (e: Event)
    requires Inv(q, s) && !s.main.Returned?
    ensures Enabled(q, s, e) && !e.Cancel?
  {
    match s.main
    case Spawning(next) => e := if next < |q.ids| then Spawn else AllSpawned;
    case Joining =>
      if w: nat :| w < |q.ids| && Running(s.workers[w]) {
        if s.workers[w].Queued? && s.slots >= SLOTS {
          var h := SomeHolder(q, s);
          e := WorkerMoves(q, s, h);
        } else {
          e := WorkerMoves(q, s, w);
        }
      } else {
        assert Unfinished(s.workers) == {};
        e := Join;
      }
    case Closing => e := Close;
    case Draining => e := if s.channel != [] then Receive else End;
  }

  function Rank(stage: Worker): nat {
    match stage
    case NotStarted => 7
    case Queued => 6
    case Fetching => 5
    case Sending(_, _) => 4
    case Releasing => 2
    case Finishing => 1
    case Gone => 0
  }

  function RankSum(workers: seq<Worker>): nat {
    if workers == [] then 0 else RankSum(workers[..|workers| - 1]) + Rank(workers[|workers| - 1])
  }

  lemma {:induction false} MoveRank(workers: seq<Worker>, w: nat, stage: Worker)
    requires w < |workers|
    ensures RankSum(workers[w := stage]) + Rank(workers[w]) == RankSum(workers) + Rank(stage)
    decreases |workers|
  {
    var n := |workers| - 1;
    if w == n {
      assert workers[w := stage][..n] == workers[..n];
    } else {
      MoveRank(workers[..n], w, stage);
      assert workers[w := stage][..n] == workers[..n][w := stage];
    }
  }

  function MainRank(n: nat, main: Main): nat {
    match main
    case Spawning(next) => (if next <= n then n - next else 0) + 4
    case Joining => 3
    case Closing => 2
    case Draining => 1
    case Returned => 0
  }

  /** What is left to do. */
  function Measure(q: Request, s: State): nat {
    RankSum(s.workers) + |s.channel| + MainRank(|q.ids|, s.main) + if s.cancelled then 0 else 1
  }

  /** A step that moves worker `w` and nothing else but counters and, for a send, the channel. */
  lemma {:induction false} WorkerStepDecreases(q: Request, s: State, s': State, w: nat, stage: Worker)
    requires w < |s.workers| && s'.workers == s.workers[w := stage]
    requires s'.cancelled == s.cancelled
    requires MainRank(|q.ids|, s'.main) <= MainRank(|q.ids|, s.main)
    requires Rank(stage) + |s'.channel| < Rank(s.workers[w]) + |s.channel|
    ensures Measure(q, s') < Measure(q, s)
  {
    MoveRank(s.workers, w, stage);
  }

  /** Every step, whoever takes it, brings the call nearer to its end. */
  lemma {:induction false} StepDecreases(q: Request, s: State, e: Event)
    requires Enabled(q, s, e)
    ensures Measure(q, Next(q, s, e)) < Measure(q, s)
  {
    var s' := Next(q, s, e);
    match e
    case Spawn => WorkerStepDecreases(q, s, s', s.main.next, Queued);
    case Acquire(w) => WorkerStepDecreases(q, s, s', w, Fetching);
    case GiveUp(w) => WorkerStepDecreases(q, s, s', w, Sending("", false));
    case Fetch(w, position) => WorkerStepDecreases(q, s, s', w, Sending(position, true));
    case Send(w) => WorkerStepDecreases(q, s, s', w, if s.workers[w].held then Releasing else Finishing);
    case Release(w) => WorkerStepDecreases(q, s, s', w, Finishing);
    case Finish(w) => WorkerStepDecreases(q, s, s', w, Gone);
    case _ =>
  }

  lemma {:induction false} RunShortens(q: Request, s: State, run: seq<Event>)
    requires Inv(q, s) && Legal(q, s, run)
    ensures |run| + Measure(q, After(q, s, run)) <= Measure(q, s)
    decreases |run|
  {
    if run != [] {
      StepDecreases(q, s, run[0]);
      StepKeepsInv(q, s, run[0]);
      RunShortens(q, Next(q, s, run[0]), run[1..]);
    }
  }

  lemma {:induction false} InitialRank(n: nat)
    ensures RankSum(seq(n, i => NotStarted)) == 7 * n
    decreases n
  {
    if n > 0 {
      InitialRank(n - 1);
      assert seq(n, i => NotStarted)[..n - 1] == seq(n - 1, i => NotStarted);
    }
  }

  /** However the goroutines interleave, a run has at most 8 steps per id and 5 more. */
  lemma {:induction false} RunsEnd(q: Request, run: seq<Event>)
    requires Legal(q, Initial(q), run)
    ensures |run| <= 8 * |q.ids| + 5
  {
    InitialInv(q);
    RunShortens(q, Initial(q), run);
    InitialRank(|q.ids|);
  }

  // ---- the answer ----

  /** The drain loop: a blank position is a miss. */
  function Found(q: Request, replies: seq<Reply>): map<string, string> {
    if replies == [] then map[]
    else
      var r := replies[|replies| - 1];
      var before := Found(q, replies[..|replies| - 1]);
      if r.position != "" && r.worker < |q.ids| then before[q.ids[r.worker] := r.position] else before
  }

  function Misses(q: Request, replies: seq<Reply>): seq<string> {
    if replies == [] then []
    else
      var r := replies[|replies| - 1];
      Misses(q, replies[..|replies| - 1]) + if r.position == "" && r.worker < |q.ids| then [q.ids[r.worker]] else []
  }

  lemma {:induction false} FoundHas(q: Request, replies: seq<Reply>, id: string)
    ensures id in Found(q, replies) ==>
      exists k :: 0 <= k < |replies| && replies[k].worker < |q.ids| && q.ids[replies[k].worker] == id
        && replies[k].position == Found(q, replies)[id] != ""
    ensures forall k :: 0 <= k < |replies| && replies[k].worker < |q.ids| && replies[k].position != "" ==> q.ids[replies[k].worker] in Found(q, replies)
    decreases |replies|
  {
    if replies != [] {
      var init := replies[..|replies| - 1];
      FoundHas(q, init, id);
      forall k | 0 <= k < |replies| && replies[k].worker < |q.ids| && replies[k].position != ""
        ensures q.ids[replies[k].worker] in Found(q, replies)
      {
        if k < |init| { assert init[k] == replies[k]; }
      }
    }
  }

  lemma {:induction false} MissesHas(q: Request, replies: seq<Reply>, id: string)
    ensures id in Misses(q, replies) <==> exists k :: 0 <= k < |replies| && replies[k].worker < |q.ids| && q.ids[replies[k].worker] == id && replies[k].position == ""
    decreases |replies|
  {
    if replies != [] {
      var init := replies[..|replies| - 1];
      MissesHas(q, init, id);
      if k :| 0 <= k < |replies| && replies[k].worker < |q.ids| && q.ids[replies[k].worker] == id && replies[k].position == "" {
        if k < |init| { assert init[k] == replies[k]; }
      }
    }
  }

  lemma {:induction false} MissesDistinct(q: Request, replies: seq<Reply>)
    requires Distinct(q.ids) && forall j, k :: 0 <= j < k < |replies| ==> replies[j].worker != replies[k].worker
    ensures Distinct(Misses(q, replies))
    decreases |replies|
  {
    if replies != [] {
      var init, r := replies[..|replies| - 1], replies[|replies| - 1];
      MissesDistinct(q, init);
      if r.position == "" && r.worker < |q.ids| {
        MissesHas(q, init, q.ids[r.worker]);
        assert q.ids[r.worker] !in Misses(q, init);
      }
    }
  }

  /** The drained results are one per goroutine. */
  ghost predicate OneEach(q: Request, received: seq<Reply>) {
    && (forall w: nat :: w < |q.ids| ==> HasReply(received, w))
    && (forall j, k :: 0 <= j < k < |received| ==> received[j].worker != received[k].worker)
  }

  ghost predicate Answered(q: Request, received: seq<Reply>) {
    forall k :: 0 <= k < |received| ==>
      received[k].worker < |q.ids| && (received[k].position == "" || q.mayAnswer(q.ids[received[k].worker], received[k].position))
  }

  lemma {:induction false} AllReceived(q: Request, s: State)
    requires Inv(q, s) && s.main.Returned?
    ensures OneEach(q, s.received) && Answered(q, s.received)
  {
    assert Sent(s) == s.received;
    forall w: nat | w < |q.ids| ensures HasReply(s.received, w) { assert HasSent(s.workers[w]); }
    forall k | 0 <= k < |s.received|
      ensures s.received[k].worker < |q.ids| && (s.received[k].position == "" || q.mayAnswer(q.ids[s.received[k].worker], s.received[k].position))
    {
      assert GoodReply(q, s, Sent(s)[k]);
    }
  }

  /** What a finished lookup says: each id is found or missed, and what is found is an answer given for it. */
  ghost predicate Answers(q: Request, found: map<string, string>, misses: seq<string>) {
    && (forall id :: id in q.ids <==> id in found || id in misses)
    && (forall id :: id in found ==> found[id] != "" && q.mayAnswer(id, found[id]))
  }

  /** Found and missed do not overlap, and no miss is listed twice. */
  ghost predicate Splits(found: map<string, string>, misses: seq<string>) {
    Distinct(misses) && forall id :: !(id in found && id in misses)
  }

  lemma {:induction false} FoundIsAnswered(q: Request, received: seq<Reply>, id: string)
    requires Answered(q, received) && id in Found(q, received)
    ensures Found(q, received)[id] != "" && q.mayAnswer(id, Found(q, received)[id])
  {
    FoundHas(q, received, id);
  }

  /** When the call returns there is exactly one result per goroutine: every id is found or
      missed, with an answer the service gave for it, and for distinct ids the two split the request. */
  lemma {:induction false} OneResultPerId(q: Request, run: seq<Event>)
    requires Legal(q, Initial(q), run) && After(q, Initial(q), run).main.Returned?
    ensures var received := After(q, Initial(q), run).received;
      && OneEach(q, received)
      && Answers(q, Found(q, received), Misses(q, received))
      && (Distinct(q.ids) ==> Splits(Found(q, received), Misses(q, received)))
  {
    InitialInv(q);
    RunInv(q, Initial(q), run);
    var received := After(q, Initial(q), run).received;
    AllReceived(q, After(q, Initial(q), run));
    forall id ensures id in q.ids <==> id in Found(q, received) || id in Misses(q, received) { EitherWay(q, received, id); }
    forall id | id in Found(q, received) ensures Found(q, received)[id] != "" && q.mayAnswer(id, Found(q, received)[id]) {
      FoundIsAnswered(q, received, id);
    }
    if Distinct(q.ids) {
      MissesDistinct(q, received);
      forall id ensures !(id in Found(q, received) && id in Misses(q, received)) { NotBoth(q, received, id); }
    }
  }

  lemma {:induction false} EitherWay(q: Request, received: seq<Reply>, id: string)
    requires OneEach(q, received)
    ensures id in q.ids <==> id in Found(q, received) || id in Misses(q, received)
  {
    FoundHas(q, received, id);
    MissesHas(q, received, id);
    if id in q.ids {
      var w: nat :| w < |q.ids| && q.ids[w] == id;
      assert HasReply(received, w);
    }
  }

  lemma {:induction false} NotBoth(q: Request, received: seq<Reply>, id: string)
    requires Distinct(q.ids) && OneEach(q, received)
    ensures !(id in Found(q, received) && id in Misses(q, received))
  {
    FoundHas(q, received, id);
    MissesHas(q, received, id);
  }

  /** The loop over the drained channel. */
  method Drain(q: Request, replies: seq<Reply>) returns (positions: map<string, string>, misses: seq<string>)
    requires forall k :: 0 <= k < |replies| ==> replies[k].worker < |q.ids|
    ensures positions == Found(q, replies) && misses == Misses(q, replies)
  {
    positions, misses := map[], [];
    for i := 0 to |replies|
      invariant positions == Found(q, replies[..i]) && misses == Misses(q, replies[..i])
    {
      var result := replies[i];
      assert replies[..i + 1][..i] == replies[..i];
      if result.position != "" {
        positions := positions[q.ids[result.worker] := result.position];
      } else {
        misses := misses + [q.ids[result.worker]];
      }
    }
    assert replies[..|replies|] == replies;
  }

  // ---- which misses were asked for ----

  /** A lookup from its start to its return. */
  ghost predicate CompleteRun(q: Request, run: seq<Event>) {
    Legal(q, Initial(q), run) && After(q, Initial(q), run).main.Returned?
  }

  /** What the drain loop of a finished lookup has read. */
  ghost function Drained(q: Request, run: seq<Event>): seq<Reply>
    requires CompleteRun(q, run)
  {
    After(q, Initial(q), run).received
  }

  /** The step in which the goroutine of worker `w` asks the service or gives up. */
  predicate Decides(e: Event, w: nat) {
    (e.Fetch? || e.GiveUp?) && e.w == w
  }

  ghost predicate Undecided(past: seq<Event>, w: nat) {
    forall i :: 0 <= i < |past| ==> !Decides(past[i], w)
  }

  /** Event `i`, and no other, decides for `w`. */
  ghost predicate DecidedAt(past: seq<Event>, w: nat, i: int) {
    0 <= i < |past| && Decides(past[i], w) && forall j :: 0 <= j < |past| && Decides(past[j], w) ==> j == i
  }

  /** Exactly one event decides for `w`. */
  ghost predicate Decided(past: seq<Event>, w: nat) {
    exists i :: DecidedAt(past, w, i)
  }

  /** The event accounts for the position sent: the answer of the service, or blank when it was not asked. */
  predicate Gives(e: Event, w: nat, position: string) {
    e == Fetch(w, position) || (e == GiveUp(w) && position == "")
  }

  ghost predicate Accounted(past: seq<Event>, w: nat, position: string) {
    exists i :: DecidedAt(past, w, i) && Gives(past[i], w, position)
  }

  /** What the past must hold for a worker at this stage. */
  ghost predicate WorkerPast(past: seq<Event>, w: nat, stage: Worker) {
    match stage
    case NotStarted => Undecided(past, w)
    case Queued => Undecided(past, w)
    case Fetching => Undecided(past, w)
    case Sending(position, _) => Accounted(past, w, position)
    case _ => Decided(past, w)
  }

  ghost predicate History(s: State, past: seq<Event>) {
    && (forall w: nat :: w < |s.workers| ==> WorkerPast(past, w, s.workers[w]))
    && (forall k :: 0 <= k < |Sent(s)| ==> Accounted(past, Sent(s)[k].worker, Sent(s)[k].position))
  }

  lemma {:induction false} DecidedStays(past: seq<Event>, e: Event, w: nat, i: int)
    requires DecidedAt(past, w, i) && !Decides(e, w)
    ensures DecidedAt(past + [e], w, i) && (past + [e])[i] == past[i]
  {
  }

  lemma {:induction false} AccountedStays(past: seq<Event>, e: Event, w: nat, position: string)
    requires Accounted(past, w, position) && !Decides(e, w)
    ensures Accounted(past + [e], w, position)
  {
    var i :| DecidedAt(past, w, i) && Gives(past[i], w, position);
    DecidedStays(past, e, w, i);
  }

  lemma {:induction false} WorkerPastStays(past: seq<Event>, e: Event, w: nat, stage: Worker)
    requires WorkerPast(past, w, stage) && !Decides(e, w)
    ensures WorkerPast(past + [e], w, stage)
  {
    if stage.Sending? {
      AccountedStays(past, e, w, stage.position);
    } else if HasSent(stage) {
      var i :| DecidedAt(past, w, i);
      DecidedStays(past, e, w, i);
    }
  }

  lemma {:induction false} DecidesNow(past: seq<Event>, e: Event, w: nat, position: string)
    requires Undecided(past, w) && Gives(e, w, position)
    ensures Accounted(past + [e], w, position)
  {
    assert DecidedAt(past + [e], w, |past|);
  }

  lemma {:induction false} StepKeepsWorkerPast(q: Request, s: State, past: seq<Event>, e: Event, w: nat)
    requires History(s, past) && Enabled(q, s, e) && w < |s.workers|
    ensures WorkerPast(past + [e], w, Next(q, s, e).workers[w])
  {
    assert WorkerPast(past, w, s.workers[w]);
    if Decides(e, w) {
      DecidesNow(past, e, w, if e.Fetch? then e.position else "");
    } else {
      WorkerPastStays(past, e, w, s.workers[w]);
    }
  }

  lemma {:induction false} StepKeepsHistory(q: Request, s: State, past: seq<Event>, e: Event)
    requires History(s, past) && RepliesInOrder(q, s) && Enabled(q, s, e)
    ensures History(Next(q, s, e), past + [e])
  {
    var s' := Next(q, s, e);
    forall w: nat | w < |s'.workers| ensures WorkerPast(past + [e], w, s'.workers[w]) {
      StepKeepsWorkerPast(q, s, past, e, w);
    }
    forall k | 0 <= k < |Sent(s)| ensures Accounted(past + [e], Sent(s)[k].worker, Sent(s)[k].position) {
      assert GoodReply(q, s, Sent(s)[k]);
      AccountedStays(past, e, Sent(s)[k].worker, Sent(s)[k].position);
    }
    if e.Send? {
      assert Sent(s') == Sent(s) + [Reply(e.w, s.workers[e.w].position)];
      assert WorkerPast(past, e.w, s.workers[e.w]);
      AccountedStays(past, e, e.w, s.workers[e.w].position);
    } else {
      assert Sent(s') == Sent(s);
    }
  }

  lemma {:induction false} RunHistory(q: Request, s: State, past: seq<Event>, run: seq<Event>)
    requires Inv(q, s) && History(s, past) && Legal(q, s, run)
    ensures History(After(q, s, run), past + run)
    decreases |run|
  {
    if run == [] {
      assert past + run == past;
    } else {
      StepKeepsHistory(q, s, past, run[0]);
      StepKeepsInv(q, s, run[0]);
      RunHistory(q, Next(q, s, run[0]), past + [run[0]], run[1..]);
      assert past + [run[0]] + run[1..] == past + run;
    }
  }

  /** In every complete run each goroutine decides exactly once, and its result is what the service
      answered, or blank because it gave up. */
  lemma {:induction false} OneDecisionEach(q: Request, run: seq<Event>)
    requires CompleteRun(q, run)
    ensures forall w: nat :: w < |q.ids| ==> Decided(run, w)
    ensures forall r :: r in Drained(q, run) ==> Accounted(run, r.worker, r.position)
  {
    InitialInv(q);
    RunInv(q, Initial(q), run);
    RunHistory(q, Initial(q), [], run);
    assert [] + run == run;
    var s := After(q, Initial(q), run);
    assert Sent(s) == s.received;
    forall w: nat | w < |q.ids| ensures Decided(run, w) {
      assert s.workers[w].Gone?;
      assert WorkerPast(run, w, s.workers[w]);
    }
    forall r | r in s.received ensures Accounted(run, r.worker, r.position) {
      var k :| 0 <= k < |Sent(s)| && Sent(s)[k] == r;
    }
  }

  /** What the one decision says about asking. */
  lemma {:induction false} OnlyDecision(run: seq<Event>, w: nat, i: int, position: string)
    requires DecidedAt(run, w, i) && Gives(run[i], w, position)
    ensures Asked(run, w) <==> run[i].Fetch?
    ensures GaveUp(run, w) <==> run[i].GiveUp?
    ensures AnsweredBlank(run, w) <==> run[i] == Fetch(w, "")
  {
    assert forall j :: 0 <= j < |run| && (run[j].Fetch? || run[j].GiveUp?) && run[j].w == w ==> Decides(run[j], w);
  }

  ghost predicate Asked(run: seq<Event>, w: nat) {
    exists i :: 0 <= i < |run| && run[i].Fetch? && run[i].w == w
  }

  ghost predicate AnsweredBlank(run: seq<Event>, w: nat) {
    Fetch(w, "") in run
  }

  ghost predicate GaveUp(run: seq<Event>, w: nat) {
    GiveUp(w) in run
  }

  /** The id of worker `w` came back without a position. */
  ghost predicate Missed(q: Request, run: seq<Event>, w: nat)
    requires CompleteRun(q, run)
  {
    Reply(w, "") in Drained(q, run)
  }

  /** For every goroutine of every complete run: the service was asked if and only if the goroutine
      did not give up; the id was missed if and only if the service answered blank or it gave up;
      so it was missed without asking exactly when the goroutine gave up. */
  lemma {:induction false} MissedUnaskedExactly(q: Request, run: seq<Event>, w: nat)
    requires CompleteRun(q, run) && w < |q.ids|
    ensures Asked(run, w) <==> !GaveUp(run, w)
    ensures Missed(q, run, w) <==> AnsweredBlank(run, w) || GaveUp(run, w)
    ensures Missed(q, run, w) && !Asked(run, w) <==> GaveUp(run, w)
  {
    OneDecisionEach(q, run);
    InitialInv(q);
    RunInv(q, Initial(q), run);
    AllReceived(q, After(q, Initial(q), run));
    var received := Drained(q, run);
    assert HasReply(received, w);
    var k :| 0 <= k < |received| && received[k].worker == w;
    var position := received[k].position;
    assert received[k] in received && Accounted(run, w, position);
    var i :| DecidedAt(run, w, i) && Gives(run[i], w, position);
    OnlyDecision(run, w, i, position);
    assert forall r :: r in received && r.worker == w ==> r == received[k];
    assert Missed(q, run, w) <==> position == "";
  }

  ghost predicate NeverCancelled(run: seq<Event>) {
    forall i :: 0 <= i < |run| ==> !run[i].Cancel?
  }

  lemma {:induction false} GivingUpNeedsCancel(q: Request, s: State, run: seq<Event>, w: nat)
    requires Legal(q, s, run) && !s.cancelled && NeverCancelled(run)
    ensures !GaveUp(run, w)
    decreases |run|
  {
    if run != [] {
      assert !run[0].Cancel?;
      GivingUpNeedsCancel(q, Next(q, s, run[0]), run[1..], w);
      assert run == [run[0]] + run[1..];
    }
  }

  /** A run whose context is not cancelled asks the service about every id. */
  lemma {:induction false} UncancelledAsksAll(q: Request, run: seq<Event>, w: nat)
    requires CompleteRun(q, run) && NeverCancelled(run) && w < |q.ids|
    ensures Asked(run, w) && (Missed(q, run, w) <==> AnsweredBlank(run, w))
  {
    GivingUpNeedsCancel(q, Initial(q), run, w);
    MissedUnaskedExactly(q, run, w);
  }

  // ---- a cancelled run that asks about nothing ----

  ghost predicate NothingFetched(run: seq<Event>) {
    forall i :: 0 <= i < |run| ==> !run[i].Fetch?
  }

  ghost predicate NobodyFetching(s: State) {
    forall w: nat :: w < |s.workers| ==> !s.workers[w].Fetching?
  }

  /** Once the context is cancelled the lookup can go on without anyone asking. */
  lemma {:induction false} QuietMove(q: Request, s: State) returns (e: Event)
    requires Inv(q, s) && !s.main.Returned? && s.cancelled && NobodyFetching(s)
    ensures Enabled(q, s, e) && !e.Fetch? && !e.Acquire?
  {
    match s.main
    case Spawning(next) => e := if next < |q.ids| then Spawn else AllSpawned;
    case Joining =>
      if w: nat :| w < |q.ids| && Running(s.workers[w]) {
        if s.workers[w].Queued? {
          e := GiveUp(w);
        } else {
          e := WorkerMoves(q, s, w);
        }
      } else {
        assert Unfinished(s.workers) == {};
        e := Join;
      }
    case Closing => e := Close;
    case Draining => e := if s.channel != [] then Receive else End;
  }

  lemma {:induction false} QuietEnd(q: Request, s: State) returns (run: seq<Event>)
    requires Inv(q, s) && s.cancelled && NobodyFetching(s)
    ensures Legal(q, s, run) && After(q, s, run).main.Returned? && NothingFetched(run)
    decreases Measure(q, s)
  {
    if s.main.Returned? {
      run := [];
    } else {
      var e := QuietMove(q, s);
      StepDecreases(q, s, e);
      StepKeepsInv(q, s, e);
      var rest := QuietEnd(q, Next(q, s, e));
      run := [e] + rest;
      assert run[1..] == rest;
    }
  }

  /** A miss need not mean that the service has no position: for every request there is a run,
      cancelled at once, that asks about nothing and reports every id missed. */
  lemma {:induction false} CancelledIdIsMissed(q: Request) returns (run: seq<Event>)
    ensures CompleteRun(q, run) && NothingFetched(run)
    ensures forall w: nat :: w < |q.ids| ==> Missed(q, run, w) && !Asked(run, w) && GaveUp(run, w)
    ensures forall id :: id in q.ids <==> id in Misses(q, Drained(q, run))
  {
    InitialInv(q);
    StepKeepsInv(q, Initial(q), Cancel);
    var rest := QuietEnd(q, Next(q, Initial(q), Cancel));
    run := [Cancel] + rest;
    assert run[1..] == rest;
    OneResultPerId(q, run);
    var received := Drained(q, run);
    forall w: nat | w < |q.ids| ensures Missed(q, run, w) && !Asked(run, w) && GaveUp(run, w) {
      MissedUnaskedExactly(q, run, w);
    }
    forall id | id in q.ids ensures id in Misses(q, received) {
      var w: nat :| w < |q.ids| && q.ids[w] == id;
      assert Missed(q, run, w);
      MissesHas(q, received, id);
    }
  }

  ghost predicate EveryMissAsked(q: Request, run: seq<Event>)
    requires CompleteRun(q, run)
  {
    forall w: nat :: w < |q.ids| && Missed(q, run, w) ==> Asked(run, w)
  }

  /** Every miss of every run was asked of the service if and only if the context is never
      cancelled, or nothing is looked up. */
  lemma {:induction false} MissesAskedExactly(q: Request, mayCancel: bool)
    ensures (forall run :: CompleteRun(q, run) && (mayCancel || NeverCancelled(run)) ==> EveryMissAsked(q, run))
      <==> !mayCancel || q.ids == []
  {
    if mayCancel && q.ids != [] {
      var run := CancelledIdIsMissed(q);
      assert Missed(q, run, 0) && !Asked(run, 0);
      assert !EveryMissAsked(q, run);
    } else if !mayCancel {
      forall run | CompleteRun(q, run) && (mayCancel || NeverCancelled(run)) ensures EveryMissAsked(q, run) {
        forall w: nat | w < |q.ids| ensures Asked(run, w) { UncancelledAsksAll(q, run, w); }
      }
    }
  }
}
