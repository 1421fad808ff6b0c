/** Publishing the starter identities file (`ensureOwnerIdentitiesFile` in
    `cmd/api/owner_identities.go`): several processes, failing system calls, kills and
    power losses, as a state machine whose steps are single system calls. */
module Publish {
  import opened Results

  type Bytes = seq<bv8>

  /** A file. Until it is synced its durable content may be anything. */
  datatype Inode = Inode(author: Option<nat>, content: Bytes, durable: Bytes, synced: bool)

  /** The directory as processes see it and as the disk holds it. */
  datatype Disk = Disk(inodes: map<nat, Inode>, path: Option<nat>, temps: set<nat>, durablePath: Option<nat>, durableTemps: set<nat>)

  /** A nil return says whether this process published the file or found it there. */
  datatype Outcome = Nil(published: bool) | Failed

  datatype Stage =
    | Stat | Build | Mkdir | Encode | CreateTemp
    | Write | Chmod | Sync | Close | Link | RemoveTemp
    | OpenDir | SyncDir | CloseDir
    | Cleanup(outcome: Outcome)
    | Done(outcome: Outcome)
    | Killed

  /** `file` is the inode a publisher created; `temp` is its temporary name while the deferred
      removal is still armed; `leftTemp` records that the removal failed. */
  datatype Publisher = Publisher(stage: Stage, file: Option<nat>, temp: Option<nat>, leftTemp: bool)

  datatype State = State(disk: Disk, pubs: map<nat, Publisher>)

  /** Whether the path is blank, what each process would write, and what was there before. */
  datatype Config = Config(blank: bool, bytes: nat -> Bytes, earlier: Option<Bytes>)

  datatype Reply = Good | Missing | Present | Fault

  datatype Event =
    | Spawn(p: nat)
    | Run(p: nat, reply: Reply, id: nat, junk: Bytes)
    | Kill(p: nat)
    | FlushFile(id: nat, junk: Bytes)
    | FlushPath
    | FlushTemps
    | PowerLoss

  // ---- one system call ----

  function Finish(b: Publisher, outcome: Outcome): Publisher {
    b.(stage := if b.file.Some? then Cleanup(outcome) else Done(outcome))
  }

  function Advance(b: Publisher, reply: Reply, next: Stage): Publisher {
    if reply.Good? then b.(stage := next) else Finish(b, Failed)
  }

  /** The replies the system can give at this point. */
  predicate CanReply(c: Config, d: Disk, b: Publisher, reply: Reply, id: nat) {
    match b.stage
    case Stat => c.blank || reply.Fault? || (if d.path.Some? then reply.Good? else reply.Missing?)
    case CreateTemp => reply.Fault? || (reply.Good? && id !in d.inodes)
    case Link => reply.Fault? || (if d.path.Some? then reply.Present? else reply.Good?)
    case Done(_) => false
    case Killed => false
    case _ => reply.Good? || reply.Fault?
  }

  function Written(d: Disk, b: Publisher, content: Bytes): Disk {
    if b.file.Some? && b.file.value in d.inodes
    then d.(inodes := d.inodes[b.file.value := d.inodes[b.file.value].(content := content)])
    else d
  }

  function Synced(d: Disk, b: Publisher): Disk {
    if b.file.Some? && b.file.value in d.inodes
    then d.(inodes := d.inodes[b.file.value := d.inodes[b.file.value].(durable := d.inodes[b.file.value].content, synced := true)])
    else d
  }

  /** The next system call of publisher `p`; `junk` is whatever a failed call left behind. */
  function Call(c: Config, d: Disk, p: nat, b: Publisher, reply: Reply, id: nat, junk: Bytes): (Disk, Publisher) {
    match b.stage
    case Stat =>
      (d, if c.blank || reply.Good? then Finish(b, Nil(false))
          else if reply.Missing? then b.(stage := Build)
          else Finish(b, Failed))
    case Build => (d, Advance(b, reply, Mkdir))
    case Mkdir => (d, Advance(b, reply, Encode))
    case Encode => (d, Advance(b, reply, CreateTemp))
    case CreateTemp =>
      if !reply.Good? then (d, Finish(b, Failed))
      else (d.(inodes := d.inodes[id := Inode(Some(p), [], [], false)], temps := d.temps + {id}),
            b.(stage := Write, file := Some(id), temp := Some(id)))
    case Write =>
      (Written(d, b, if reply.Good? then c.bytes(p) else junk), Advance(b, reply, Chmod))
    case Chmod => (d, Advance(b, reply, Sync))
    case Sync =>
      (if reply.Good? then Synced(d, b) else d, Advance(b, reply, Close))
    case Close => (d, Advance(b, reply, Link))
    case Link =>
      if reply.Good? then (d.(path := b.file), b.(stage := RemoveTemp))
      else (d, Finish(b, if reply.Present? then Nil(false) else Failed))
    case RemoveTemp =>
      if reply.Good? then (Unlink(d, b), b.(stage := OpenDir, temp := None)) else (d, Finish(b, Failed))
    case OpenDir => (d, Advance(b, reply, SyncDir))
    case SyncDir =>
      (if reply.Good? then d.(durablePath := d.path, durableTemps := d.temps) else d, Advance(b, reply, CloseDir))
    case CloseDir => (d, if reply.Good? then Finish(b, Nil(true)) else Finish(b, Failed))
    case Cleanup(outcome) =>
      if b.temp.None? then (d, b.(stage := Done(outcome)))
      else if reply.Good? then (Unlink(d, b), b.(stage := Done(outcome), temp := None))
      else (d, b.(stage := Done(outcome), leftTemp := true))
    case _ => (d, b)
  }

  function Unlink(d: Disk, b: Publisher): Disk {
    if b.temp.Some? then d.(temps := d.temps - {b.temp.value}) else d
  }

  // ---- events ----

  predicate Enabled(c: Config, s: State, e: Event) {
    match e
    case Spawn(p) => p !in s.pubs
    case Run(p, reply, id, _) => p in s.pubs && CanReply(c, s.disk, s.pubs[p], reply, id)
    case Kill(p) => p in s.pubs
    case FlushFile(id, _) => id in s.disk.inodes && !s.disk.inodes[id].synced
    case _ => true
  }

  function Restarted(f: Inode): Inode {
    f.(content := f.durable)
  }

  function Next(c: Config, s: State, e: Event): State
    requires Enabled(c, s, e)
  {
    var d := s.disk;
    match e
    case Spawn(p) => s.(pubs := s.pubs[p := Publisher(Stat, None, None, false)])
    case Run(p, reply, id, junk) =>
      var (d', b') := Call(c, d, p, s.pubs[p], reply, id, junk);
      State(d', s.pubs[p := b'])
    case Kill(p) => s.(pubs := s.pubs[p := s.pubs[p].(stage := Killed)])
    case FlushFile(id, junk) => s.(disk := d.(inodes := d.inodes[id := d.inodes[id].(durable := junk)]))
    case FlushPath => s.(disk := d.(durablePath := d.path))
    case FlushTemps => s.(disk := d.(durableTemps := d.temps))
    case PowerLoss =>
      State(
        Disk(map i | i in d.inodes :: Restarted(d.inodes[i]), d.durablePath, d.durableTemps, d.durablePath, d.durableTemps),
        map p | p in s.pubs :: s.pubs[p].(stage := Killed))
  }

  predicate Legal(c: Config, s: State, run: seq<Event>)
    decreases |run|
  {
    run == [] || (Enabled(c, s, run[0]) && Legal(c, Next(c, s, run[0]), run[1..]))
  }

  function After(c: Config, s: State, run: seq<Event>): State
    requires Legal(c, s, run)
    decreases |run|
  {
    if run == [] then s else After(c, Next(c, s, run[0]), run[1..])
  }

  /** Nobody has started; the path is absent or durably holds what was there before. */
  ghost predicate Initial(c: Config, s: State) {
    && s.pubs == map[] && (forall id :: id in s.disk.inodes ==> s.disk.inodes[id].author.None?)
    && s.disk.temps == s.disk.durableTemps == {} && s.disk.path == s.disk.durablePath
    && match c.earlier
       case None => s.disk.path.None?
       case Some(bytes) =>
         s.disk.path.Some? && s.disk.path.value in s.disk.inodes
         && s.disk.inodes[s.disk.path.value] == Inode(None, bytes, bytes, true)
  }

  // ---- what every step keeps ----

  /** The file is complete and on disk: the earlier contents, or all that one process meant to write. */
  ghost predicate Complete(c: Config, d: Disk, id: nat) {
    && id in d.inodes
    && var f := d.inodes[id];
       f.synced && f.content == f.durable
       && match f.author case None => c.earlier == Some(f.content) case Some(p) => f.content == c.bytes(p)
  }

  predicate PastLink(b: Publisher) {
    b.stage.RemoveTemp? || b.stage.OpenDir? || b.stage.SyncDir? || b.stage.CloseDir?
  }

  predicate PublishedNil(b: Publisher) {
    (b.stage.Cleanup? || b.stage.Done?) && b.stage.outcome == Nil(true)
  }

  predicate ReturnsNil(b: Publisher) {
    (b.stage.Cleanup? || b.stage.Done?) && b.stage.outcome.Nil?
  }

  predicate Early(b: Publisher) {
    b.stage.Stat? || b.stage.Build? || b.stage.Mkdir? || b.stage.Encode? || b.stage.CreateTemp?
  }

  predicate HoldsTemp(b: Publisher) {
    b.stage.Write? || b.stage.Chmod? || b.stage.Sync? || b.stage.Close? || b.stage.Link? || b.stage.RemoveTemp?
  }

  /** What is known of one publisher. */
  ghost predicate Sound(c: Config, d: Disk, p: nat, b: Publisher) {
    && (Early(b) ==> b.file.None?)
    && (b.file.None? ==> b.temp.None?)
    && (HoldsTemp(b) ==> b.file.Some? && b.temp == b.file)
    && (b.stage.Cleanup? || PastLink(b) ==> b.file.Some?)
    && (b.file.Some? ==> b.file.value in d.inodes && d.inodes[b.file.value].author == Some(p))
    && (b.stage.Write? || b.stage.Chmod? || b.stage.Sync? ==> d.path != b.file)
    && (b.stage.Chmod? || b.stage.Sync? ==> d.inodes[b.file.value].content == c.bytes(p))
    && (b.stage.Close? || b.stage.Link? ==> Complete(c, d, b.file.value))
    && (PastLink(b) ==> d.path == b.file)
    && (b.stage.CloseDir? || PublishedNil(b) ==> b.file.Some? && d.path == d.durablePath == b.file)
    && (ReturnsNil(b) && !c.blank ==> d.path.Some?)
    && (b.stage.Done? && !b.leftTemp ==> b.temp.None?)
  }

  /** Every temporary name belongs to a publisher that still means to remove it, could not, or was stopped. */
  ghost predicate TempOwned(s: State, id: nat) {
    && id in s.disk.inodes && s.disk.inodes[id].author.Some?
    && var p := s.disk.inodes[id].author.value;
       p in s.pubs && (s.pubs[p].temp == Some(id) || s.pubs[p].leftTemp || s.pubs[p].stage.Killed?)
  }

  ghost predicate TempKnown(s: State, id: nat) {
    id in s.disk.inodes && s.disk.inodes[id].author.Some? && s.disk.inodes[id].author.value in s.pubs
  }

  ghost predicate Inv(c: Config, s: State) {
    && (s.disk.path.Some? ==> Complete(c, s.disk, s.disk.path.value))
    && (s.disk.durablePath.Some? ==> s.disk.path == s.disk.durablePath)
    && (forall p :: p in s.pubs ==> Sound(c, s.disk, p, s.pubs[p]))
    && (forall id :: id in s.disk.temps ==> TempOwned(s, id))
    && (forall id :: id in s.disk.durableTemps ==> TempKnown(s, id))
    && (forall id :: id in s.disk.inodes && s.disk.inodes[id].author.Some? ==> s.disk.inodes[id].author.value in s.pubs)
    && (c.earlier.Some? ==> s.disk.durablePath.Some?)
  }

  /** One step changes a path entry only from absent to present, unless the power fails. */
  ghost predicate PathKept(s: State, s': State) {
    s.disk.path.Some? ==> s'.disk.path == s.disk.path && SameFile(s, s', s.disk.path.value)
  }

  ghost predicate DurableKept(s: State, s': State) {
    s.disk.durablePath.Some? ==>
      s'.disk.durablePath == s'.disk.path == s.disk.durablePath && SameFile(s, s', s.disk.durablePath.value)
  }

  ghost predicate SameFile(s: State, s': State, id: nat) {
    id in s.disk.inodes && id in s'.disk.inodes && s'.disk.inodes[id].content == s.disk.inodes[id].content
  }

  // ---- the proof ----

  lemma {:induction false} InitialInv(c: Config, s: State)
    requires Initial(c, s)
    ensures Inv(c, s)
  {
  }

  /** What a call of publisher `p` may do to the disk. */
  ghost predicate Moves(c: Config, d: Disk, d': Disk, p: nat) {
    && (forall id :: id in d.inodes ==> id in d'.inodes && d'.inodes[id].author == d.inodes[id].author)
    && (forall id :: id in d.inodes && (d.inodes[id].author != Some(p) || d.path == Some(id)) ==> d'.inodes[id] == d.inodes[id])
    && (forall id :: id in d'.inodes && id !in d.inodes ==> d'.inodes[id].author == Some(p))
    && (d'.path == d.path || (d.path.None? && d'.path.value in d.inodes && d.inodes[d'.path.value].author == Some(p) && Complete(c, d', d'.path.value)))
    && (d'.durablePath == d.durablePath || d'.durablePath == d'.path)
  }

  lemma {:induction false} OthersStaySound(c: Config, d: Disk, d': Disk, p: nat, q: nat, b: Publisher)
    requires Moves(c, d, d', p) && q != p && Sound(c, d, q, b)
    requires d.durablePath.Some? ==> d.path == d.durablePath
    ensures Sound(c, d', q, b)
  {
    if b.file.Some? {
      assert d.inodes[b.file.value].author != Some(p);
    }
  }

  ghost predicate PathSound(c: Config, d: Disk) {
    && (d.path.Some? ==> Complete(c, d, d.path.value))
    && (d.durablePath.Some? ==> d.path == d.durablePath)
  }

  lemma {:induction false} CallMoves(c: Config, d: Disk, p: nat, b: Publisher, reply: Reply, id: nat, junk: Bytes)
    requires PathSound(c, d) && Sound(c, d, p, b) && CanReply(c, d, b, reply, id)
    ensures Moves(c, d, Call(c, d, p, b, reply, id, junk).0, p)
  {
  }

  predicate Writing(b: Publisher) {
    b.stage.CreateTemp? || b.stage.Write? || b.stage.Chmod? || b.stage.Sync? || b.stage.Close?
  }

  lemma {:induction false} EarlyCallKeepsSound(c: Config, d: Disk, p: nat, b: Publisher, reply: Reply, id: nat, junk: Bytes)
    requires PathSound(c, d) && Sound(c, d, p, b) && CanReply(c, d, b, reply, id)
    requires Early(b) && !Writing(b)
    ensures var (d', b') := Call(c, d, p, b, reply, id, junk); Sound(c, d', p, b')
  {
  }

  lemma {:induction false} WritingCallKeepsSound(c: Config, d: Disk, p: nat, b: Publisher, reply: Reply, id: nat, junk: Bytes)
    requires PathSound(c, d) && Sound(c, d, p, b) && CanReply(c, d, b, reply, id)
    requires Writing(b)
    ensures var (d', b') := Call(c, d, p, b, reply, id, junk); Sound(c, d', p, b')
  {
  }

  lemma {:induction false} LateCallKeepsSound(c: Config, d: Disk, p: nat, b: Publisher, reply: Reply, id: nat, junk: Bytes)
    requires PathSound(c, d) && Sound(c, d, p, b) && CanReply(c, d, b, reply, id)
    requires !Early(b) && !Writing(b)
    ensures var (d', b') := Call(c, d, p, b, reply, id, junk); Sound(c, d', p, b')
  {
  }

  lemma {:induction false} CallKeepsOwnSound(c: Config, d: Disk, p: nat, b: Publisher, reply: Reply, id: nat, junk: Bytes)
    requires PathSound(c, d) && Sound(c, d, p, b) && CanReply(c, d, b, reply, id)
    ensures var (d', b') := Call(c, d, p, b, reply, id, junk); Sound(c, d', p, b')
  {
    if Writing(b) {
      WritingCallKeepsSound(c, d, p, b, reply, id, junk);
    } else if Early(b) {
      EarlyCallKeepsSound(c, d, p, b, reply, id, junk);
    } else {
      LateCallKeepsSound(c, d, p, b, reply, id, junk);
    }
  }

  lemma {:induction false} CallKeepsTemps(c: Config, s: State, p: nat, reply: Reply, id: nat, junk: Bytes, t: nat)
    requires p in s.pubs && PathSound(c, s.disk) && Sound(c, s.disk, p, s.pubs[p]) && CanReply(c, s.disk, s.pubs[p], reply, id)
    requires t in s.disk.temps ==> TempOwned(s, t)
    requires t in s.disk.durableTemps ==> TempKnown(s, t)
    ensures t in Next(c, s, Run(p, reply, id, junk)).disk.temps ==> TempOwned(Next(c, s, Run(p, reply, id, junk)), t)
    ensures t in Next(c, s, Run(p, reply, id, junk)).disk.durableTemps ==> TempKnown(Next(c, s, Run(p, reply, id, junk)), t)
  {
    CallMoves(c, s.disk, p, s.pubs[p], reply, id, junk);
  }

  lemma {:induction false} RunKeepsInv(c: Config, s: State, p: nat, reply: Reply, id: nat, junk: Bytes)
    requires Inv(c, s) && p in s.pubs && CanReply(c, s.disk, s.pubs[p], reply, id)
    ensures Inv(c, Next(c, s, Run(p, reply, id, junk)))
  {
    var s' := Next(c, s, Run(p, reply, id, junk));
    CallMoves(c, s.disk, p, s.pubs[p], reply, id, junk);
    CallKeepsOwnSound(c, s.disk, p, s.pubs[p], reply, id, junk);
    forall q | q in s'.pubs ensures Sound(c, s'.disk, q, s'.pubs[q]) {
      if q != p { OthersStaySound(c, s.disk, s'.disk, p, q, s.pubs[q]); }
    }
    forall t ensures (t in s'.disk.temps ==> TempOwned(s', t)) && (t in s'.disk.durableTemps ==> TempKnown(s', t)) {
      CallKeepsTemps(c, s, p, reply, id, junk, t);
    }
  }

  lemma {:induction false} ProcessEventsKeepInv(c: Config, s: State, e: Event)
    requires Inv(c, s) && Enabled(c, s, e) && (e.Spawn? || e.Kill?)
    ensures Inv(c, Next(c, s, e))
  {
    var s' := Next(c, s, e);
    forall q | q in s'.pubs ensures Sound(c, s'.disk, q, s'.pubs[q]) {
      if q in s.pubs { assert Sound(c, s.disk, q, s.pubs[q]); }
    }
    forall t | t in s'.disk.temps ensures TempOwned(s', t) { assert TempOwned(s, t); }
    forall t | t in s'.disk.durableTemps ensures TempKnown(s', t) { assert TempKnown(s, t); }
  }

  lemma {:induction false} FlushesKeepInv(c: Config, s: State, e: Event)
    requires Inv(c, s) && Enabled(c, s, e) && (e.FlushFile? || e.FlushPath? || e.FlushTemps?)
    ensures Inv(c, Next(c, s, e))
  {
    var s' := Next(c, s, e);
    forall q | q in s'.pubs ensures Sound(c, s'.disk, q, s'.pubs[q]) { assert Sound(c, s.disk, q, s.pubs[q]); }
    forall t | t in s'.disk.temps ensures TempOwned(s', t) { assert TempOwned(s, t); }
    forall t | t in s'.disk.durableTemps ensures TempKnown(s', t) {
      if e.FlushTemps? { assert TempOwned(s, t); } else { assert TempKnown(s, t); }
    }
  }

  lemma {:induction false} PowerLossKeepsInv(c: Config, s: State)
    requires Inv(c, s)
    ensures Inv(c, Next(c, s, PowerLoss))
  {
    var s' := Next(c, s, PowerLoss);
    forall q | q in s'.pubs ensures Sound(c, s'.disk, q, s'.pubs[q]) {
      assert Sound(c, s.disk, q, s.pubs[q]);
    }
    forall t | t in s'.disk.temps || t in s'.disk.durableTemps ensures TempOwned(s', t) && TempKnown(s', t) {
      assert TempKnown(s, t);
    }
  }

  lemma {:induction false} StepKeepsInv(c: Config, s: State, e: Event)
    requires Inv(c, s) && Enabled(c, s, e)
    ensures Inv(c, Next(c, s, e))
  {
    if e.Run? {
      RunKeepsInv(c, s, e.p, e.reply, e.id, e.junk);
    } else if e.PowerLoss? {
      PowerLossKeepsInv(c, s);
    } else if e.Spawn? || e.Kill? {
      ProcessEventsKeepInv(c, s, e);
    } else {
      FlushesKeepInv(c, s, e);
    }
  }

  lemma {:induction false} StepKeepsPath(c: Config, s: State, e: Event)
    requires Inv(c, s) && Enabled(c, s, e)
    ensures !e.PowerLoss? ==> PathKept(s, Next(c, s, e))
    ensures DurableKept(s, Next(c, s, e))
  {
    if e.Run? { CallMoves(c, s.disk, e.p, s.pubs[e.p], e.reply, e.id, e.junk); }
  }

  lemma {:induction false} RunInv(c: Config, s: State, run: seq<Event>)
    requires Inv(c, s) && Legal(c, s, run)
    ensures Inv(c, After(c, s, run))
    decreases |run|
  {
    if run != [] {
      StepKeepsInv(c, s, run[0]);
      RunInv(c, Next(c, s, run[0]), run[1..]);
    }
  }

  // ---- what holds over all runs ----

  /** What a reader of the path sees: nothing, the earlier contents, or everything that one
      process meant to write; and what is seen is already on disk. */
  lemma {:induction false} PathIsWhole(c: Config, s: State, run: seq<Event>)
    requires Initial(c, s) && Legal(c, s, run)
    ensures var s' := After(c, s, run);
      s'.disk.path.Some? ==>
        && s'.disk.path.value in s'.disk.inodes
        && var f := s'.disk.inodes[s'.disk.path.value];
           f.durable == f.content
           && match f.author
              case None => c.earlier == Some(f.content)
              case Some(p) => p in s'.pubs && f.content == c.bytes(p)
  {
    InitialInv(c, s);
    RunInv(c, s, run);
  }

  /** Once present the file never changes, short of a power loss. */
  lemma {:induction false} PresentStays(c: Config, s: State, run: seq<Event>)
    requires Inv(c, s) && Legal(c, s, run) && forall i :: 0 <= i < |run| ==> !run[i].PowerLoss?
    ensures PathKept(s, After(c, s, run))
    decreases |run|
  {
    if run != [] {
      StepKeepsPath(c, s, run[0]);
      StepKeepsInv(c, s, run[0]);
      PresentStays(c, Next(c, s, run[0]), run[1..]);
    }
  }

  /** Once durable it never changes at all. */
  lemma {:induction false} DurableStays(c: Config, s: State, run: seq<Event>)
    requires Inv(c, s) && Legal(c, s, run)
    ensures DurableKept(s, After(c, s, run))
    decreases |run|
  {
    if run != [] {
      StepKeepsPath(c, s, run[0]);
      StepKeepsInv(c, s, run[0]);
      DurableStays(c, Next(c, s, run[0]), run[1..]);
    }
  }

  /** An existing file is never overwritten, whatever the processes and the machine do. */
  lemma {:induction false} EarlierFileStays(c: Config, s: State, run: seq<Event>)
    requires Initial(c, s) && Legal(c, s, run) && c.earlier.Some?
    ensures var d := After(c, s, run).disk;
      d.path.Some? && d.path.value in d.inodes && d.inodes[d.path.value].content == c.earlier.value
  {
    InitialInv(c, s);
    DurableStays(c, s, run);
  }

  /** A nil return for a path that is not blank means the file exists; if the process published
      it, it is that process's bytes and survives a power loss. */
  lemma {:induction false} NilMeansPresent(c: Config, s: State, run: seq<Event>, p: nat)
    requires Initial(c, s) && Legal(c, s, run) && !c.blank
    requires p in After(c, s, run).pubs && After(c, s, run).pubs[p].stage.Done? && After(c, s, run).pubs[p].stage.outcome.Nil?
    ensures var s' := After(c, s, run);
      && s'.disk.path.Some? && Complete(c, s'.disk, s'.disk.path.value)
      && (s'.pubs[p].stage.outcome.published ==>
           s'.disk.durablePath == s'.disk.path && s'.disk.inodes[s'.disk.path.value].content == c.bytes(p))
  {
    InitialInv(c, s);
    RunInv(c, s, run);
    assert Sound(c, After(c, s, run).disk, p, After(c, s, run).pubs[p]);
  }

  /** A process that returned leaves no temporary file of its own, unless the removal failed. */
  lemma {:induction false} NoTempLeft(c: Config, s: State, run: seq<Event>, p: nat, t: nat)
    requires Initial(c, s) && Legal(c, s, run)
    requires p in After(c, s, run).pubs && After(c, s, run).pubs[p].stage.Done? && !After(c, s, run).pubs[p].leftTemp
    requires t in After(c, s, run).disk.temps
    ensures t in After(c, s, run).disk.inodes && After(c, s, run).disk.inodes[t].author != Some(p)
  {
    InitialInv(c, s);
    RunInv(c, s, run);
    var s' := After(c, s, run);
    assert TempOwned(s', t) && Sound(c, s'.disk, p, s'.pubs[p]);
  }

  // ---- termination ----

  /** How many more calls a publisher makes at most. */
  function CallsLeft(b: Publisher): nat {
    match b.stage
    case Stat => 15
    case Build => 14
    case Mkdir => 13
    case Encode => 12
    case CreateTemp => 11
    case Write => 10
    case Chmod => 9
    case Sync => 8
    case Close => 7
    case Link => 6
    case RemoveTemp => 5
    case OpenDir => 4
    case SyncDir => 3
    case CloseDir => 2
    case Cleanup(_) => 1
    case _ => 0
  }

  /** Every call brings its publisher nearer to returning, and until it returns some reply is
      always possible: no publisher waits for another. */
  lemma {:induction false} EveryCallAdvances(c: Config, d: Disk, p: nat, b: Publisher, reply: Reply, id: nat, junk: Bytes)
    ensures CanReply(c, d, b, reply, id) ==> CallsLeft(Call(c, d, p, b, reply, id, junk).1) < CallsLeft(b)
    ensures CallsLeft(b) > 0 <==> CanReply(c, d, b, Fault, id)
  {
    match b.stage
    case Stat =>
    case Cleanup(_) =>
    case Link =>
    case _ =>
  }

  // ---- which nil returns last ----

  ghost predicate Reaches(c: Config, s: State, s': State) {
    exists run :: Legal(c, s, run) && After(c, s, run) == s'
  }

  lemma {:induction false} RunThen(c: Config, s: State, run: seq<Event>, e: Event)
    requires Legal(c, s, run) && Enabled(c, After(c, s, run), e)
    ensures Legal(c, s, run + [e]) && After(c, s, run + [e]) == Next(c, After(c, s, run), e)
    decreases |run|
  {
    if run == [] {
      assert [e][1..] == [];
    } else {
      RunThen(c, Next(c, s, run[0]), run[1..], e);
      assert (run + [e])[1..] == run[1..] + [e];
    }
  }

  lemma {:induction false} ReachesThen(c: Config, s: State, s': State, e: Event, s'': State)
    requires Reaches(c, s, s') && Enabled(c, s', e) && Next(c, s', e) == s''
    ensures Reaches(c, s, s'')
  {
    var run :| Legal(c, s, run) && After(c, s, run) == s';
    RunThen(c, s, run, e);
  }

  lemma {:induction false} FreshInode(ids: set<nat>) returns (id: nat)
    ensures forall i :: i in ids ==> i < id
    decreases |ids|
  {
    if ids == {} {
      id := 0;
    } else {
      var i :| i in ids;
      var above := FreshInode(ids - {i});
      id := if i < above then above else i + 1;
      assert ids == ids - {i} + {i};
    }
  }

  type Inodes = map<nat, Inode>

  /** Publisher 0 before it has created a file, on a disk without the path. */
  function Starting(inodes: Inodes, stage: Stage): State {
    State(Disk(inodes, None, {}, None, {}), map[0 := Publisher(stage, None, None, false)])
  }

  /** Publisher 0 at some stage of its work, its file `id` holding `content`. */
  function Working(inodes: Inodes, id: nat, stage: Stage, content: Bytes, durable: Bytes, synced: bool): State {
    State(Disk(inodes[id := Inode(Some(0), content, durable, synced)], None, {id}, None, {}), map[0 := Publisher(stage, Some(id), Some(id), false)])
  }

  function Linked(inodes: Inodes, id: nat, bytes: Bytes, pubs: map<nat, Publisher>): State {
    State(Disk(inodes[id := Inode(Some(0), bytes, bytes, true)], Some(id), {id}, None, {}), pubs)
  }

  /** A disk without the path, and an unused inode on it. */
  ghost predicate FreshStart(c: Config, s0: State, id: nat) {
    !c.blank && c.earlier.None? && Initial(c, s0) && id !in s0.disk.inodes
  }

  lemma {:induction false} ReachesMkdir(c: Config, s0: State, id: nat)
    requires FreshStart(c, s0, id)
    ensures Reaches(c, s0, Starting(s0.disk.inodes, Mkdir))
  {
    var inodes := s0.disk.inodes;
    assert Legal(c, s0, []) && After(c, s0, []) == s0;
    ReachesThen(c, s0, s0, Spawn(0), Starting(inodes, Stat));
    ReachesThen(c, s0, Starting(inodes, Stat), Run(0, Missing, 0, []), Starting(inodes, Build));
    ReachesThen(c, s0, Starting(inodes, Build), Run(0, Good, 0, []), Starting(inodes, Mkdir));
  }

  lemma {:induction false} ReachesWriting(c: Config, s0: State, id: nat)
    requires FreshStart(c, s0, id)
    ensures Reaches(c, s0, Working(s0.disk.inodes, id, Write, [], [], false))
  {
    var inodes := s0.disk.inodes;
    ReachesMkdir(c, s0, id);
    ReachesThen(c, s0, Starting(inodes, Mkdir), Run(0, Good, 0, []), Starting(inodes, Encode));
    ReachesThen(c, s0, Starting(inodes, Encode), Run(0, Good, 0, []), Starting(inodes, CreateTemp));
    ReachesThen(c, s0, Starting(inodes, CreateTemp), Run(0, Good, id, []), Working(inodes, id, Write, [], [], false));
  }

  lemma {:induction false} ReachesSync(c: Config, s0: State, id: nat)
    requires FreshStart(c, s0, id)
    ensures Reaches(c, s0, Working(s0.disk.inodes, id, Sync, c.bytes(0), [], false))
  {
    var inodes, bytes := s0.disk.inodes, c.bytes(0);
    ReachesWriting(c, s0, id);
    ReachesThen(c, s0, Working(inodes, id, Write, [], [], false), Run(0, Good, 0, []), Working(inodes, id, Chmod, bytes, [], false));
    ReachesThen(c, s0, Working(inodes, id, Chmod, bytes, [], false), Run(0, Good, 0, []), Working(inodes, id, Sync, bytes, [], false));
  }

  lemma {:induction false} ReachesLink(c: Config, s0: State, id: nat)
    requires FreshStart(c, s0, id)
    ensures Reaches(c, s0, Working(s0.disk.inodes, id, Link, c.bytes(0), c.bytes(0), true))
  {
    var inodes, bytes := s0.disk.inodes, c.bytes(0);
    ReachesSync(c, s0, id);
    ReachesThen(c, s0, Working(inodes, id, Sync, bytes, [], false), Run(0, Good, 0, []), Working(inodes, id, Close, bytes, bytes, true));
    ReachesThen(c, s0, Working(inodes, id, Close, bytes, bytes, true), Run(0, Good, 0, []), Working(inodes, id, Link, bytes, bytes, true));
  }

  lemma {:induction false} ReachesLinked(c: Config, s0: State, id: nat)
    requires FreshStart(c, s0, id)
    ensures Reaches(c, s0, Linked(s0.disk.inodes, id, c.bytes(0), map[0 := Publisher(RemoveTemp, Some(id), Some(id), false)]))
  {
    var inodes, bytes := s0.disk.inodes, c.bytes(0);
    ReachesLink(c, s0, id);
    ReachesThen(c, s0, Working(inodes, id, Link, bytes, bytes, true), Run(0, Good, 0, []),
      Linked(inodes, id, bytes, map[0 := Publisher(RemoveTemp, Some(id), Some(id), false)]));
  }

  /** Wherever there is no earlier file: a process finds the file in place and returns nil before
      the publisher that linked it has synced the directory, and a power loss takes the file away. */
  lemma {:induction false} FoundFileMayVanish(c: Config, s0: State) returns (s: State)
    requires Initial(c, s0) && !c.blank && c.earlier.None?
    ensures Reaches(c, s0, s) && 1 in s.pubs && s.pubs[1].stage == Done(Nil(false))
    ensures s.disk.path.Some? && Next(c, s, PowerLoss).disk.path.None?
  {
    var id := FreshInode(s0.disk.inodes.Keys);
    assert id !in s0.disk.inodes.Keys;
    var inodes, bytes := s0.disk.inodes, c.bytes(0);
    var linked := Publisher(RemoveTemp, Some(id), Some(id), false);
    ReachesLinked(c, s0, id);
    var looking := Linked(inodes, id, bytes, map[0 := linked, 1 := Publisher(Stat, None, None, false)]);
    ReachesThen(c, s0, Linked(inodes, id, bytes, map[0 := linked]), Spawn(1), looking);
    s := Linked(inodes, id, bytes, map[0 := linked, 1 := Publisher(Done(Nil(false)), None, None, false)]);
    ReachesThen(c, s0, looking, Run(1, Good, 0, []), s);
  }

  /** The file is there and stays as it is whatever happens next, power losses included. */
  ghost predicate Lasts(c: Config, s: State) {
    s.disk.path.Some? && forall later :: Legal(c, s, later) ==> PathKept(s, After(c, s, later))
  }

  ghost predicate ReturnedNil(s: State, p: nat, published: bool) {
    p in s.pubs && s.pubs[p].stage == Done(Nil(published))
  }

  lemma {:induction false} DurableLasts(c: Config, s0: State, run: seq<Event>, p: nat, published: bool)
    requires Initial(c, s0) && !c.blank && Legal(c, s0, run) && ReturnedNil(After(c, s0, run), p, published)
    requires published || c.earlier.Some?
    ensures Lasts(c, After(c, s0, run))
  {
    var s := After(c, s0, run);
    InitialInv(c, s0);
    RunInv(c, s0, run);
    NilMeansPresent(c, s0, run, p);
    forall later | Legal(c, s, later) ensures PathKept(s, After(c, s, later)) { DurableStays(c, s, later); }
  }

  lemma {:induction false} FoundRunDoesNotLast(c: Config, s0: State) returns (run: seq<Event>)
    requires Initial(c, s0) && !c.blank && c.earlier.None?
    ensures Legal(c, s0, run) && ReturnedNil(After(c, s0, run), 1, false) && !Lasts(c, After(c, s0, run))
  {
    var s := FoundFileMayVanish(c, s0);
    run :| Legal(c, s0, run) && After(c, s0, run) == s;
    assert [PowerLoss][1..] == [];
    assert Legal(c, s, [PowerLoss]) && After(c, s, [PowerLoss]) == Next(c, s, PowerLoss);
    assert !PathKept(s, After(c, s, [PowerLoss]));
  }

  /** Which nil returns for a path that is not blank mean that the file is there for good: every
      one of this kind does, in every run, if and only if the process published the file itself or
      the file was there before anyone started. */
  lemma {:induction false} NilLastsExactly(c: Config, s0: State, published: bool)
    requires Initial(c, s0) && !c.blank
    ensures (forall run, p :: Legal(c, s0, run) && ReturnedNil(After(c, s0, run), p, published) ==> Lasts(c, After(c, s0, run)))
      <==> published || c.earlier.Some?
  {
    if published || c.earlier.Some? {
      forall run, p | Legal(c, s0, run) && ReturnedNil(After(c, s0, run), p, published) ensures Lasts(c, After(c, s0, run)) {
        DurableLasts(c, s0, run, p, published);
      }
    } else {
      var run := FoundRunDoesNotLast(c, s0);
      assert ReturnedNil(After(c, s0, run), 1, published) && !Lasts(c, After(c, s0, run));
    }
  }

  // ---- which calls succeed ----

  /** A system call of process `p` fails before the deferred cleanup. */
  predicate FaultNow(s: State, e: Event, p: nat) {
    e.Run? && e.p == p && e.reply.Fault? && p in s.pubs && !s.pubs[p].stage.Cleanup?
  }

  ghost predicate Faulted(c: Config, s: State, run: seq<Event>, p: nat)
    requires Legal(c, s, run)
    decreases |run|
  {
    run != [] && (FaultNow(s, run[0], p) || Faulted(c, Next(c, s, run[0]), run[1..], p))
  }

  /** The process is bound to report an error. */
  predicate Failing(s: State, p: nat) {
    p in s.pubs && (s.pubs[p].stage.Cleanup? || s.pubs[p].stage.Done?) && s.pubs[p].stage.outcome.Failed?
  }

  predicate IsKilled(s: State, p: nat) {
    p in s.pubs && s.pubs[p].stage.Killed?
  }

  lemma {:induction false} CallFailsExactly(c: Config, d: Disk, p: nat, b: Publisher, reply: Reply, id: nat, junk: Bytes)
    requires !c.blank && CanReply(c, d, b, reply, id)
    ensures var stage := Call(c, d, p, b, reply, id, junk).1.stage;
      (stage.Cleanup? || stage.Done?) && stage.outcome.Failed? <==>
        if b.stage.Cleanup? then b.stage.outcome.Failed? else reply.Fault?
  {
  }

  lemma {:induction false} StepFailsExactly(c: Config, s: State, e: Event, p: nat)
    requires !c.blank && Enabled(c, s, e) && !IsKilled(Next(c, s, e), p)
    ensures Failing(Next(c, s, e), p) <==> Failing(s, p) || FaultNow(s, e, p)
    ensures !IsKilled(s, p)
  {
    if e.Run? && e.p == p { CallFailsExactly(c, s.disk, p, s.pubs[p], e.reply, e.id, e.junk); }
  }

  lemma {:induction false} RunFailsExactly(c: Config, s: State, run: seq<Event>, p: nat)
    requires !c.blank && Legal(c, s, run) && !IsKilled(After(c, s, run), p)
    ensures Failing(After(c, s, run), p) <==> Failing(s, p) || Faulted(c, s, run, p)
    ensures !IsKilled(s, p)
    decreases |run|
  {
    if run != [] {
      RunFailsExactly(c, Next(c, s, run[0]), run[1..], p);
      StepFailsExactly(c, s, run[0], p);
    }
  }

  /** Over every run: a process that has returned reports an error if and only if one of its
      system calls failed before the cleanup; so one without such a failure returned nil. */
  lemma {:induction false} FailsExactly(c: Config, s0: State, run: seq<Event>, p: nat)
    requires Initial(c, s0) && !c.blank && Legal(c, s0, run)
    requires p in After(c, s0, run).pubs && After(c, s0, run).pubs[p].stage.Done?
    ensures After(c, s0, run).pubs[p].stage.outcome.Failed? <==> Faulted(c, s0, run, p)
    ensures After(c, s0, run).pubs[p].stage.outcome.Nil? <==> !Faulted(c, s0, run, p)
  {
    RunFailsExactly(c, s0, run, p);
  }

  /** Until it has returned a process can be answered without a failure. */
  lemma {:induction false} SomeReplyWorks(c: Config, d: Disk, b: Publisher) returns (reply: Reply, id: nat)
    requires CallsLeft(b) > 0
    ensures CanReply(c, d, b, reply, id) && !reply.Fault?
  {
    id := FreshInode(d.inodes.Keys);
    assert id !in d.inodes.Keys;
    reply :=
      if b.stage.Stat? && d.path.None? then Missing
      else if b.stage.Link? && d.path.Some? then Present
      else Good;
  }

  /** From any state a started process can return without a failure, whatever the others have done. */
  lemma {:induction false} CanReturn(c: Config, s: State, p: nat) returns (run: seq<Event>)
    requires p in s.pubs && !s.pubs[p].stage.Killed?
    ensures Legal(c, s, run) && !Faulted(c, s, run, p)
    ensures p in After(c, s, run).pubs && After(c, s, run).pubs[p].stage.Done?
    decreases CallsLeft(s.pubs[p])
  {
    if s.pubs[p].stage.Done? {
      run := [];
    } else {
      var reply, id := SomeReplyWorks(c, s.disk, s.pubs[p]);
      var e := Run(p, reply, id, []);
      EveryCallAdvances(c, s.disk, p, s.pubs[p], reply, id, []);
      CallKeepsRunning(c, s.disk, p, s.pubs[p], reply, id, []);
      var rest := CanReturn(c, Next(c, s, e), p);
      run := [e] + rest;
      assert run[1..] == rest;
    }
  }

  lemma {:induction false} CallKeepsRunning(c: Config, d: Disk, p: nat, b: Publisher, reply: Reply, id: nat, junk: Bytes)
    requires !b.stage.Killed?
    ensures !Call(c, d, p, b, reply, id, junk).1.stage.Killed?
  {
  }

  /** The file of publisher 0 is in place under its final name alone. */
  function Published(inodes: Inodes, id: nat, bytes: Bytes, stage: Stage, durable: Option<nat>): State {
    State(Disk(inodes[id := Inode(Some(0), bytes, bytes, true)], Some(id), {}, durable, {}), map[0 := Publisher(stage, Some(id), None, false)])
  }

  lemma {:induction false} ReachesSynced(c: Config, s0: State, id: nat)
    requires FreshStart(c, s0, id)
    ensures Reaches(c, s0, Published(s0.disk.inodes, id, c.bytes(0), CloseDir, Some(id)))
  {
    var inodes, bytes := s0.disk.inodes, c.bytes(0);
    ReachesLinked(c, s0, id);
    ReachesThen(c, s0, Linked(inodes, id, bytes, map[0 := Publisher(RemoveTemp, Some(id), Some(id), false)]), Run(0, Good, 0, []),
      Published(inodes, id, bytes, OpenDir, None));
    ReachesThen(c, s0, Published(inodes, id, bytes, OpenDir, None), Run(0, Good, 0, []), Published(inodes, id, bytes, SyncDir, None));
    ReachesThen(c, s0, Published(inodes, id, bytes, SyncDir, None), Run(0, Good, 0, []), Published(inodes, id, bytes, CloseDir, Some(id)));
  }

  /** Wherever there is no earlier file publishing can work: some run ends with a process that
      returned nil as the publisher, its bytes at the path and on disk, and no temporary name left. */
  lemma {:induction false} PublishingWorks(c: Config, s0: State) returns (s: State)
    requires Initial(c, s0) && !c.blank && c.earlier.None?
    ensures Reaches(c, s0, s) && ReturnedNil(s, 0, true)
    ensures s.disk.path.Some? && s.disk.durablePath == s.disk.path && s.disk.path.value in s.disk.inodes
    ensures s.disk.inodes[s.disk.path.value].durable == s.disk.inodes[s.disk.path.value].content == c.bytes(0) && s.disk.temps == {}
  {
    var id := FreshInode(s0.disk.inodes.Keys);
    assert id !in s0.disk.inodes.Keys;
    var inodes, bytes := s0.disk.inodes, c.bytes(0);
    ReachesSynced(c, s0, id);
    ReachesThen(c, s0, Published(inodes, id, bytes, CloseDir, Some(id)), Run(0, Good, 0, []),
      Published(inodes, id, bytes, Cleanup(Nil(true)), Some(id)));
    s := Published(inodes, id, bytes, Done(Nil(true)), Some(id));
    ReachesThen(c, s0, Published(inodes, id, bytes, Cleanup(Nil(true)), Some(id)), Run(0, Good, 0, []), s);
  }

  /** Every process only looked: no file was created and no temporary name made. */
  ghost predicate Untouched(s: State) {
    && s.disk.path.Some? && s.disk.durablePath == s.disk.path && s.disk.temps == s.disk.durableTemps == {}
    && (forall id :: id in s.disk.inodes ==> s.disk.inodes[id].author.None?)
    && forall p :: p in s.pubs ==>
         s.pubs[p].file.None? && (s.pubs[p].stage.Stat? || s.pubs[p].stage.Done? || s.pubs[p].stage.Killed?)
  }

  lemma {:induction false} StepTouchesNothing(c: Config, s: State, e: Event)
    requires Untouched(s) && Enabled(c, s, e)
    ensures Untouched(Next(c, s, e))
  {
  }

  lemma {:induction false} RunTouchesNothing(c: Config, s: State, run: seq<Event>)
    requires Untouched(s) && Legal(c, s, run)
    ensures Untouched(After(c, s, run))
    decreases |run|
  {
    if run != [] {
      StepTouchesNothing(c, s, run[0]);
      RunTouchesNothing(c, Next(c, s, run[0]), run[1..]);
    }
  }

  /** Where the file was there before, no process ever gets further than looking at it. */
  lemma {:induction false} EarlierFileStopsPublishing(c: Config, s0: State, run: seq<Event>)
    requires Initial(c, s0) && c.earlier.Some? && Legal(c, s0, run)
    ensures Untouched(After(c, s0, run))
  {
    RunTouchesNothing(c, s0, run);
  }
}
