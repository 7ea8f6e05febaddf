/** The live phase as a step relation: websocket pushes interleaved with the three non-atomic phases of
    the flusher, failing saves, and crashes followed by a reload. */
module Flushing {
  import opened Wrappers
  import opened Candles
  import opened Symbols
  import opened Store
  import opened Files
  import opened Handler

  /** Where the single flusher is: between flushes, about to take the head of its queue, with the
      head's temporary file written, or with the head renamed into place and its flag still set. */
  datatype Phase = Idle | Picking(queue: seq<Snapshot>) | Staged(queue: seq<Snapshot>) | Renamed(queue: seq<Snapshot>)

  datatype State = State(mem: StoreState, disk: Disk, phase: Phase)

  datatype Event =
    | Message(frame: Frame)
    | Begin(order: seq<Snapshot>)
    | Skip
    | Stage(now: int, outcome: TempOutcome)
    | Replace(ok: bool, removed: bool)
    | Clear
    | Finish
    | Crash

  // ---------------------------------------------------------------- keys and their files

  /** The files of the configured pairs: where start-up reads each key's file and which symbol and
      interval it fills in, and how the flusher resolves a snapshot. */
  datatype Config = Config(
    paths: map<string, string>,
    names: map<string, (string, string)>,
    resolve: Snapshot -> Result<string, PathError>)
  {
    ghost predicate Covers(mem: StoreState) {
      mem.Keys == paths.Keys == names.Keys
    }

    /** Every key has a file of its own, no file is another's temporary file, and a snapshot that
        matches its key is flushed to that key's file. */
    ghost predicate LaidOut() {
      && (forall j, k :: j in paths && k in paths && j != k ==> paths[j] != paths[k])
      && (forall j, k :: j in paths && k in paths ==> paths[j] != TempPath(paths[k]))
      && (forall s: Snapshot :: s.key in paths && s.key == KeyFor(s.file.symbol, s.file.interval) ==>
            resolve(s) == Ok(paths[s.key]))
    }
  }

  // ---------------------------------------------------------------- steps

  /** The cache after a restart: every configured pair is loaded from its file again. */
  function Restarted(cfg: Config, disk: Disk): StoreState
    requires cfg.paths.Keys == cfg.names.Keys
  {
    map k | k in cfg.paths :: EntryView(Defaulted(Reloaded(disk, cfg.paths[k]), cfg.names[k].0, cfg.names[k].1), false)
  }

  ghost predicate Step(cfg: Config, s: State, e: Event, s': State) {
    match e
    case Message(frame) => s' == s.(mem := Handled(s.mem, frame))
    case Begin(order) => s.phase.Idle? && SnapshotsOf(order, s.mem) && s' == s.(phase := Picking(order))
    case Skip =>
      s.phase.Picking? && s.phase.queue != [] && cfg.resolve(s.phase.queue[0]).Err?
      && s' == s.(phase := Picking(s.phase.queue[1..]))
    case Stage(now, outcome) =>
      s.phase.Picking? && s.phase.queue != [] && cfg.resolve(s.phase.queue[0]).Ok?
      && var q := s.phase.queue;
         s' == State(s.mem,
                     WriteTemp(s.disk, cfg.resolve(q[0]).value, q[0].file.(updatedAt := now), outcome),
                     if outcome == Written then Staged(q) else Picking(q[1..]))
    case Replace(ok, removed) =>
      s.phase.Staged? && s.phase.queue != [] && cfg.resolve(s.phase.queue[0]).Ok?
      && var q, path := s.phase.queue, cfg.resolve(s.phase.queue[0]).value;
         TempPath(path) in s.disk
         && s' == State(s.mem, RenameTemp(s.disk, path, ok, removed), if ok then Renamed(q) else Picking(q[1..]))
    case Clear =>
      s.phase.Renamed? && s.phase.queue != []
      && s' == State(ClearState(s.mem, s.phase.queue[0].key), s.disk, Picking(s.phase.queue[1..]))
    case Finish => s.phase == Picking([]) && s' == s.(phase := Idle)
    case Crash => cfg.paths.Keys == cfg.names.Keys && s' == State(Restarted(cfg, s.disk), s.disk, Idle)
  }

  /** The event is an accepted push for k. */
  predicate Pushes(mem: StoreState, e: Event, k: string) {
    e.Message? && Accepted(mem, e.frame) && KeyFor(e.frame.push.value.symbol, e.frame.push.value.interval) == k
  }

  /** A successful rename. */
  predicate Renames(e: Event) {
    e.Replace? && e.ok
  }

  function MemList(s: State, k: string): seq<Candle>
    requires k in s.mem
  {
    s.mem[k].file.candles
  }

  function FileList(cfg: Config, s: State, k: string): seq<Candle>
    requires k in cfg.paths
  {
    Reloaded(s.disk, cfg.paths[k]).candles
  }

  predicate AtHead(s: State, k: string) {
    !s.phase.Idle? && s.phase.queue != [] && s.phase.queue[0].key == k
  }

  // ---------------------------------------------------------------- steps make up the flush loop

  /** A course of events from s. */
  ghost predicate Course(cfg: Config, s: State, events: seq<Event>, states: seq<State>) {
    && |states| == |events| + 1 && states[0] == s
    && forall i :: 0 <= i < |events| ==> Step(cfg, states[i], events[i], states[i + 1])
  }

  /** Undisturbed, the steps for one snapshot do exactly what one round of the flush loop does. */
  lemma {:induction false} StepsMakeOneRound(cfg: Config, base: string, s: State, now: string -> int,
                                             fault: string -> SaveFault)
    returns (events: seq<Event>, states: seq<State>)
    requires s.phase.Picking? && s.phase.queue != [] && cfg.resolve(s.phase.queue[0]) == PathFor(base, s.phase.queue[0])
    ensures Course(cfg, s, events, states)
    ensures var end := states[|events|];
            && World(end.mem, end.disk) == FlushOne(World(s.mem, s.disk), base, s.phase.queue[0], now, fault).0
            && end.phase == Picking(s.phase.queue[1..])
  {
    hide PathFor, SnapshotsOf, Handled, Restarted, ClearState, TempPath;
    var q := s.phase.queue;
    var rest := Picking(q[1..]);
    if cfg.resolve(q[0]).Err? {
      events, states := [Skip], [s, s.(phase := rest)];
    } else {
      var path := cfg.resolve(q[0]).value;
      var file := q[0].file.(updatedAt := now(path));
      var written := WriteTemp(s.disk, path, file, Written);
      var staged := State(s.mem, written, Staged(q));
      match fault(path)
      case DirFault =>
        events := [Stage(now(path), DirFails)];
        states := [s, State(s.mem, WriteTemp(s.disk, path, file, DirFails), rest)];
      case TornFault =>
        events := [Stage(now(path), Torn)];
        states := [s, State(s.mem, WriteTemp(s.disk, path, file, Torn), rest)];
      case RenameFault(removed) =>
        events := [Stage(now(path), Written), Replace(false, removed)];
        states := [s, staged, State(s.mem, RenameTemp(written, path, false, removed), rest)];
      case NoFault =>
        var renamed := State(s.mem, RenameTemp(written, path, true, false), Renamed(q));
        events := [Stage(now(path), Written), Replace(true, false), Clear];
        states := [s, staged, renamed, State(ClearState(s.mem, q[0].key), renamed.disk, rest)];
    }
  }

  lemma {:induction false} CoursesJoin(cfg: Config, s: State, e: seq<Event>, x: seq<State>, f: seq<Event>,
                                       y: seq<State>)
    requires Course(cfg, s, e, x) && Course(cfg, x[|e|], f, y)
    ensures Course(cfg, s, e + f, x + y[1..]) && (x + y[1..])[|e + f|] == y[|f|]
  {
    hide Step;
    var events, states := e + f, x + y[1..];
    forall i | 0 <= i < |events| ensures Step(cfg, states[i], events[i], states[i + 1]) {
      if i >= |e| {
        assert events[i] == f[i - |e|] && states[i] == y[i - |e|] && states[i + 1] == y[i - |e| + 1];
      }
    }
  }

  lemma {:induction false} StepsMakeRounds(cfg: Config, base: string, s: State, now: string -> int,
                                           fault: string -> SaveFault, n: nat)
    returns (events: seq<Event>, states: seq<State>)
    requires s.phase.Picking? && n <= |s.phase.queue|
    requires forall i :: 0 <= i < |s.phase.queue| ==> cfg.resolve(s.phase.queue[i]) == PathFor(base, s.phase.queue[i])
    ensures Course(cfg, s, events, states)
    ensures var end := states[|events|];
            && World(end.mem, end.disk) == FlushAll(World(s.mem, s.disk), base, s.phase.queue[..n], now, fault).0
            && end.phase == Picking(s.phase.queue[n..])
  {
    hide Step, PathFor, FlushOne;
    var q := s.phase.queue;
    if n == 0 {
      events, states := [], [s];
    } else {
      var before, passed := StepsMakeRounds(cfg, base, s, now, fault, n - 1);
      var here := passed[|before|];
      assert here.phase.queue[0] == q[n - 1] && here.phase.queue[1..] == q[n..];
      var round, more := StepsMakeOneRound(cfg, base, here, now, fault);
      CoursesJoin(cfg, s, before, passed, round, more);
      FlushAllStep(World(s.mem, s.disk), base, q, now, fault, n - 1);
      events, states := before + round, passed + more[1..];
    }
  }

  /** Undisturbed from snapshot to finish, the steps of a flush do exactly what the flush loop does. */
  lemma {:induction false} StepsMakeTheFlush(cfg: Config, base: string, s: State, order: seq<Snapshot>,
                                             now: string -> int, fault: string -> SaveFault)
    returns (events: seq<Event>, states: seq<State>)
    requires s.phase.Idle? && SnapshotsOf(order, s.mem)
    requires forall i :: 0 <= i < |order| ==> cfg.resolve(order[i]) == PathFor(base, order[i])
    ensures Course(cfg, s, events, states)
    ensures var (world, _) := FlushAll(World(s.mem, s.disk), base, order, now, fault);
            states[|events|] == State(world.mem, world.disk, Idle)
  {
    hide PathFor, SnapshotsOf, FlushAll, Handled, Restarted, WriteTemp, RenameTemp, ClearState;
    var begun := s.(phase := Picking(order));
    events, states := StepsMakeRounds(cfg, base, begun, now, fault, |order|);
    assert order[..|order|] == order && order[|order|..] == [];
    var flushed := states[|events|];
    CoursesJoin(cfg, begun, events, states, [Finish], [flushed, flushed.(phase := Idle)]);
    events, states := events + [Finish], states + [flushed, flushed.(phase := Idle)][1..];
    CoursesJoin(cfg, s, [Begin(order)], [s, begun], events, states);
    events, states := [Begin(order)] + events, [s, begun] + states[1..];
  }

  // ---------------------------------------------------------------- what every step keeps

  /** What is still queued: matching snapshots of distinct entries that are still dirty. */
  ghost predicate Queued(q: seq<Snapshot>, mem: StoreState) {
    && (forall i :: 0 <= i < |q| ==>
          q[i].key in mem && mem[q[i].key].dirty && q[i].key == KeyFor(q[i].file.symbol, q[i].file.interval))
    && (forall i, j :: 0 <= i < j < |q| ==> q[i].key != q[j].key)
  }

  lemma {:induction false} QueuedTail(q: seq<Snapshot>, mem: StoreState)
    requires Queued(q, mem) && q != []
    ensures Queued(q[1..], mem) && Queued(q[1..], ClearState(mem, q[0].key))
  {
    forall i | 0 <= i < |q[1..]| ensures q[1..][i] == q[i + 1] && q[i + 1].key != q[0].key {
    }
  }

  ghost predicate QueueOk(cfg: Config, s: State) {
    s.phase.Idle? ||
    var q := s.phase.queue;
    && Queued(q, s.mem)
    && (s.phase.Staged? ==>
          q != [] && q[0].key in cfg.paths && var temp := TempPath(cfg.paths[q[0].key]);
          temp in s.disk && s.disk[temp].Whole? && Unstamped(s.disk[temp].file) == Unstamped(q[0].file))
    && (s.phase.Renamed? ==> q != [])
  }

  ghost predicate Inv(cfg: Config, s: State) {
    cfg.LaidOut() && cfg.Covers(s.mem) && DirtyMatchesKey(s.mem) && QueueOk(cfg, s)
  }

  /** What one event does to one key: only an accepted push or a restart changes its list in memory,
      only a successful rename of its own snapshot changes its file, and the flag falls only at a
      clear or a restart. */
  ghost predicate Effect(cfg: Config, s: State, e: Event, s': State, k: string)
    requires k in s.mem && k in s'.mem && k in cfg.paths
  {
    && FileList(cfg, s', k) == (if Renames(e) && AtHead(s, k) then s.phase.queue[0].file.candles
                                else FileList(cfg, s, k))
    && MemList(s', k) == (if e.Crash? then FileList(cfg, s, k)
                          else if Pushes(s.mem, e, k) then Upserted(MemList(s, k), e.frame.push.value.candle)
                          else MemList(s, k))
    && s'.mem[k].dirty == (if e.Crash? then false
                           else if Pushes(s.mem, e, k) then true
                           else if e.Clear? && AtHead(s, k) then false
                           else s.mem[k].dirty)
  }

  // Which part of the state each event leaves alone.

  lemma {:induction false} DiskStays(cfg: Config, s: State, e: Event, s': State)
    requires Step(cfg, s, e, s') && !e.Stage? && !e.Replace?
    ensures s'.disk == s.disk
  {
    hide Handled, Restarted, ClearState, SnapshotsOf;
  }

  lemma {:induction false} MemoryStays(cfg: Config, s: State, e: Event, s': State)
    requires Step(cfg, s, e, s') && !e.Message? && !e.Clear? && !e.Crash?
    ensures s'.mem == s.mem
  {
    hide WriteTemp, RenameTemp, SnapshotsOf;
  }

  // The invariant, event by event.

  lemma {:induction false} HandledEntry(st: StoreState, frame: Frame, k: string)
    requires k in st
    ensures k in Handled(st, frame)
    ensures Handled(st, frame)[k].file.candles ==
            if Pushes(st, Message(frame), k) then Upserted(st[k].file.candles, frame.push.value.candle)
                else st[k].file.candles
    ensures Handled(st, frame)[k].dirty == (st[k].dirty || Pushes(st, Message(frame), k))
  {
    hide KeyFor, Upserted;
  }

  lemma {:induction false} HandlingKeepsMatching(st: StoreState, frame: Frame)
    requires DirtyMatchesKey(st)
    ensures DirtyMatchesKey(Handled(st, frame)) && Handled(st, frame).Keys == st.Keys
  {
    HandlingKeepsKeys(st, frame);
    if Accepted(st, frame) {
      var p := frame.push.value;
      UpsertKeepsDirtyMatching(st, p.symbol, p.interval, p.candle);
    }
  }

  lemma {:induction false} HandlingKeepsQueued(q: seq<Snapshot>, st: StoreState, frame: Frame)
    requires Queued(q, st)
    ensures Queued(q, Handled(st, frame))
  {
    hide KeyFor, Handled, Pushes;
    forall i | 0 <= i < |q| ensures q[i].key in Handled(st, frame) && Handled(st, frame)[q[i].key].dirty {
      HandledEntry(st, frame, q[i].key);
    }
  }

  lemma {:induction false} MessageKeepsInv(cfg: Config, s: State, frame: Frame)
    requires Inv(cfg, s)
    ensures Inv(cfg, s.(mem := Handled(s.mem, frame)))
  {
    hide KeyFor, Handled, DirtyMatchesKey, Queued;
    HandlingKeepsMatching(s.mem, frame);
    if !s.phase.Idle? {
      HandlingKeepsQueued(s.phase.queue, s.mem, frame);
    }
  }

  lemma {:induction false} HeadResolves(cfg: Config, s: State)
    requires Inv(cfg, s) && !s.phase.Idle? && s.phase.queue != []
    ensures s.phase.queue[0].key in cfg.paths
    ensures cfg.resolve(s.phase.queue[0]) == Ok(cfg.paths[s.phase.queue[0].key])
  {
    hide KeyFor, DirtyMatchesKey, TempPath;
    HeadMatches(s.phase.queue, s.mem);
  }

  lemma {:induction false} HeadMatches(q: seq<Snapshot>, mem: StoreState)
    requires Queued(q, mem) && q != []
    ensures q[0].key in mem && q[0].key == KeyFor(q[0].file.symbol, q[0].file.interval)
  {
    hide KeyFor;
  }

  lemma {:induction false} StageKeepsInv(cfg: Config, s: State, now: int, outcome: TempOutcome, s': State)
    requires Inv(cfg, s) && Step(cfg, s, Stage(now, outcome), s')
    ensures Inv(cfg, s')
  {
    hide KeyFor, Config.LaidOut, DirtyMatchesKey, Queued;
    HeadResolves(cfg, s);
    QueuedTail(s.phase.queue, s.mem);
  }

  lemma {:induction false} ReplaceKeepsInv(cfg: Config, s: State, ok: bool, removed: bool, s': State)
    requires Inv(cfg, s) && Step(cfg, s, Replace(ok, removed), s')
    ensures Inv(cfg, s')
  {
    hide KeyFor, RenameTemp, Config.LaidOut, DirtyMatchesKey, Queued;
    QueuedTail(s.phase.queue, s.mem);
  }

  lemma {:induction false} ClearKeepsInv(cfg: Config, s: State, s': State)
    requires Inv(cfg, s) && Step(cfg, s, Clear, s')
    ensures Inv(cfg, s')
  {
    hide KeyFor, Config.LaidOut, DirtyMatchesKey, Queued;
    ClearKeepsDirtyMatching(s.mem, s.phase.queue[0].key);
    QueuedTail(s.phase.queue, s.mem);
    assert s'.mem.Keys == s.mem.Keys;
    hide KeyFor, ClearState, DirtyMatchesKey;
  }

  lemma {:induction false} BeginKeepsInv(cfg: Config, s: State, order: seq<Snapshot>, s': State)
    requires Inv(cfg, s) && Step(cfg, s, Begin(order), s')
    ensures Inv(cfg, s')
  {
    hide KeyFor;
    forall i | 0 <= i < |order| ensures order[i].key == KeyFor(order[i].file.symbol, order[i].file.interval) {
      assert order[i].key in DirtyKeys(s.mem);
    }
  }

  lemma {:induction false} CrashKeepsInv(cfg: Config, s: State, s': State)
    requires Inv(cfg, s) && Step(cfg, s, Crash, s')
    ensures Inv(cfg, s')
  {
    hide KeyFor, Reloaded, Defaulted;
  }

  /** Every step keeps the invariant and, with it, the key set. */
  lemma {:induction false} StepKeepsInv(cfg: Config, s: State, e: Event, s': State)
    requires Inv(cfg, s) && Step(cfg, s, e, s')
    ensures Inv(cfg, s') && s'.mem.Keys == s.mem.Keys
  {
    match e
    case Message(frame) => MessageKeepsInv(cfg, s, frame);
    case Begin(order) => BeginKeepsInv(cfg, s, order, s');
    case Skip =>
      HeadResolves(cfg, s);
      assert false;
    case Stage(now, outcome) => StageKeepsInv(cfg, s, now, outcome, s');
    case Replace(ok, removed) => ReplaceKeepsInv(cfg, s, ok, removed, s');
    case Clear => ClearKeepsInv(cfg, s, s');
    case Finish =>
    case Crash => CrashKeepsInv(cfg, s, s');
    hide Handled, WriteTemp, RenameTemp, Restarted, ClearState, DirtyMatchesKey, QueueOk, SnapshotsOf;
  }

  // The effect on one key, event by event.

  lemma {:induction false} StageLeavesFiles(cfg: Config, s: State, e: Event, s': State, k: string)
    requires Inv(cfg, s) && k in cfg.paths && Step(cfg, s, e, s') && e.Stage?
    ensures LoadFile(s'.disk, cfg.paths[k]) == LoadFile(s.disk, cfg.paths[k])
  {
    HeadResolves(cfg, s);
    assert cfg.paths[k] != TempPath(cfg.paths[s.phase.queue[0].key]);
    hide KeyFor, DirtyMatchesKey, TempPath, QueueOk;
  }

  lemma {:induction false} ReplaceInstallsHead(cfg: Config, s: State, e: Event, s': State, k: string)
    requires Inv(cfg, s) && k in cfg.paths && Step(cfg, s, e, s') && e.Replace?
    ensures Unstamped(Reloaded(s'.disk, cfg.paths[k]))
            == Unstamped(if e.ok && AtHead(s, k) then s.phase.queue[0].file else Reloaded(s.disk, cfg.paths[k]))
  {
    HeadResolves(cfg, s);
    var head := s.phase.queue[0].key;
    assert cfg.paths[k] != TempPath(cfg.paths[head]) && (k != head ==> cfg.paths[k] != cfg.paths[head]);
    hide KeyFor, DirtyMatchesKey, TempPath, Queued;
  }

  /** What a rename installs is the head snapshot whole, names and list, time stamp aside; no other event changes
      a data file. */
  lemma {:induction false} WholeSnapshotsInstalled(cfg: Config, s: State, e: Event, s': State, k: string)
    requires Inv(cfg, s) && k in cfg.paths && Step(cfg, s, e, s')
    ensures Unstamped(Reloaded(s'.disk, cfg.paths[k]))
            == Unstamped(if Renames(e) && AtHead(s, k) then s.phase.queue[0].file else Reloaded(s.disk, cfg.paths[k]))
  {
    hide Inv, Step, LoadFile;
    if e.Stage? {
      StageLeavesFiles(cfg, s, e, s', k);
    } else if e.Replace? {
      ReplaceInstallsHead(cfg, s, e, s', k);
    } else {
      DiskStays(cfg, s, e, s');
    }
  }

  lemma {:induction false} ClearEffect(st: StoreState, key: string, k: string)
    requires k in st
    ensures k in ClearState(st, key) && ClearState(st, key)[k] == if k == key then st[k].(dirty := false) else st[k]
  {
  }

  lemma {:induction false} FileEffect(cfg: Config, s: State, e: Event, s': State, k: string)
    requires Inv(cfg, s) && k in s.mem && Step(cfg, s, e, s')
    ensures k in cfg.paths
    ensures FileList(cfg, s', k) == if Renames(e) && AtHead(s, k) then s.phase.queue[0].file.candles
                                    else FileList(cfg, s, k)
  {
    hide Step, DirtyMatchesKey, QueueOk, Reloaded;
    WholeSnapshotsInstalled(cfg, s, e, s', k);
  }

  /** Every step has exactly its stated effect on each key. */
  lemma {:induction false} StepEffect(cfg: Config, s: State, e: Event, s': State, k: string)
    requires Inv(cfg, s) && k in s.mem && Step(cfg, s, e, s')
    ensures k in s'.mem && k in cfg.paths && Effect(cfg, s, e, s', k)
  {
    StepKeepsInv(cfg, s, e, s');
    FileEffect(cfg, s, e, s', k);
    MemoryEffect(cfg, s, e, s', k);
    hide Step, DirtyMatchesKey, QueueOk, FileList, Pushes, Upserted;
  }

  lemma {:induction false} MemoryEffect(cfg: Config, s: State, e: Event, s': State, k: string)
    requires Inv(cfg, s) && k in s.mem && Step(cfg, s, e, s')
    ensures k in s'.mem && k in cfg.paths
    ensures MemList(s', k) == if e.Crash? then FileList(cfg, s, k)
                              else if Pushes(s.mem, e, k) then Upserted(MemList(s, k), e.frame.push.value.candle)
                              else MemList(s, k)
    ensures s'.mem[k].dirty == if e.Crash? then false
                               else if Pushes(s.mem, e, k) then true
                               else if e.Clear? && AtHead(s, k) then false
                               else s.mem[k].dirty
  {
    match e
    case Message(frame) => HandledEntry(s.mem, frame, k);
    case Clear => ClearEffect(s.mem, s.phase.queue[0].key, k);
    case Crash =>
    case _ => MemoryStays(cfg, s, e, s');
    hide Handled, ClearState, Accepted, WriteTemp, RenameTemp, SnapshotsOf, DirtyMatchesKey, QueueOk, Upserted,
         Reloaded;
  }
}
