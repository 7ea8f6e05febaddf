/** Whatever the order of the workers' steps, an uncancelled start-up ends as if every pair had run alone. */
module Confluence {
  import opened Wrappers
  import opened Candles
  import opened Symbols
  import opened Store
  import opened Files
  import opened Rest
  import opened Bootstrap
  import opened Pool

  // ---------------------------------------------------------------- what each pair is bound to do

  /** The file pair i starts from. */
  function Own(plan: Plan, disk0: Disk, i: nat): CandleFile
    requires i < |plan.jobs|
  {
    Existing(disk0, plan.jobs[i].path, plan.jobs[i].wire, plan.jobs[i].interval)
  }

  /** What the exchange adds to it. */
  function Gain(plan: Plan, disk0: Disk, i: nat): Result<seq<Candle>, FetchError>
    requires i < |plan.jobs|
  {
    CatchUp(plan.src, plan.jobs[i].wire, plan.jobs[i].interval, Own(plan, disk0, i).candles)
  }

  predicate Merges(plan: Plan, disk0: Disk, i: nat)
    requires i < |plan.jobs|
  {
    Gain(plan, disk0, i).Ok? && plan.src.fault(plan.jobs[i].path) == NoFault
  }

  /** The merged file of pair i, time stamp aside. */
  function Goal(plan: Plan, disk0: Disk, i: nat): CandleFile
    requires i < |plan.jobs| && Gain(plan, disk0, i).Ok?
  {
    MergedFile(plan.jobs[i].wire, plan.jobs[i].interval, 0, Own(plan, disk0, i), Gain(plan, disk0, i).value)
  }

  /** The cache after the preload: every pair's entry shows its file. */
  ghost predicate Preloaded(plan: Plan, mem: StoreState, disk: Disk) {
    forall i :: 0 <= i < |plan.jobs| ==>
      plan.jobs[i].key in mem && mem[plan.jobs[i].key] == CleanEntry(Own(plan, disk, i))
  }

  // ---------------------------------------------------------------- the invariant of one pair

  ghost predicate EntryAsPreloaded(plan: Plan, disk0: Disk, s: State, i: nat)
    requires i < |plan.jobs|
  {
    plan.jobs[i].key in s.mem && s.mem[plan.jobs[i].key] == CleanEntry(Own(plan, disk0, i))
  }

  ghost predicate FileAsBefore(plan: Plan, disk0: Disk, s: State, i: nat)
    requires i < |plan.jobs|
  {
    LoadFile(s.disk, plan.jobs[i].path) == LoadFile(disk0, plan.jobs[i].path)
  }

  ghost predicate FileMerged(plan: Plan, disk0: Disk, s: State, i: nat)
    requires i < |plan.jobs|
  {
    && Merges(plan, disk0, i)
    && LoadFile(s.disk, plan.jobs[i].path).Ok?
    && Unstamped(LoadFile(s.disk, plan.jobs[i].path).value) == Goal(plan, disk0, i)
  }

  ghost predicate EntryMerged(plan: Plan, disk0: Disk, s: State, i: nat)
    requires i < |plan.jobs|
  {
    && Merges(plan, disk0, i)
    && plan.jobs[i].key in s.mem && !s.mem[plan.jobs[i].key].dirty
    && Unstamped(s.mem[plan.jobs[i].key].file) == Goal(plan, disk0, i)
  }

  /** Pair i's temporary file holds the merge. */
  ghost predicate TempMerged(plan: Plan, disk0: Disk, s: State, i: nat)
    requires i < |plan.jobs|
  {
    var temp := TempPath(plan.jobs[i].path);
    && Gain(plan, disk0, i).Ok? && temp in s.disk && s.disk[temp].Whole?
    && Unstamped(s.disk[temp].file) == Goal(plan, disk0, i)
  }

  /** A pair is where its status says, whatever the others are doing. */
  ghost predicate Local(plan: Plan, disk0: Disk, s: State, i: nat)
    requires i < |plan.jobs| == |s.workers|
  {
    match s.workers[i]
    case Loaded(existing) =>
      existing == Own(plan, disk0, i) && EntryAsPreloaded(plan, disk0, s, i) && FileAsBefore(plan, disk0, s, i)
    case Refused =>
      Gain(plan, disk0, i) == Err(ContractNotExist) && EntryAsPreloaded(plan, disk0, s, i)
          && FileAsBefore(plan, disk0, s, i)
    case Answered(existing, fetched) =>
      && existing == Own(plan, disk0, i) && Gain(plan, disk0, i) == Ok(fetched)
      && EntryAsPreloaded(plan, disk0, s, i) && FileAsBefore(plan, disk0, s, i)
    case Opened(existing, fetched) =>
      && existing == Own(plan, disk0, i) && Gain(plan, disk0, i) == Ok(fetched)
      && EntryAsPreloaded(plan, disk0, s, i) && FileAsBefore(plan, disk0, s, i)
    case Staged(merged, count) =>
      && TempMerged(plan, disk0, s, i) && EntryAsPreloaded(plan, disk0, s, i) && FileAsBefore(plan, disk0, s, i)
      && Unstamped(merged) == Goal(plan, disk0, i) && count == |Gain(plan, disk0, i).value|
    case Stored(merged, count) =>
      && FileMerged(plan, disk0, s, i) && EntryAsPreloaded(plan, disk0, s, i)
      && Unstamped(merged) == Goal(plan, disk0, i) && count == |Gain(plan, disk0, i).value|
    case Finished(outcome) => Settled(plan, disk0, s, i, outcome)
    case Released(outcome) => Settled(plan, disk0, s, i, outcome)
    case _ => EntryAsPreloaded(plan, disk0, s, i) && FileAsBefore(plan, disk0, s, i)
  }

  ghost predicate Settled(plan: Plan, disk0: Disk, s: State, i: nat, outcome: Outcome)
    requires i < |plan.jobs|
  {
    match outcome
    case Done(count) =>
      FileMerged(plan, disk0, s, i) && EntryMerged(plan, disk0, s, i) && count == |Gain(plan, disk0, i).value|
    case Missing =>
      Gain(plan, disk0, i) == Err(ContractNotExist) && EntryAsPreloaded(plan, disk0, s, i)
          && FileAsBefore(plan, disk0, s, i)
    case _ =>
      !Merges(plan, disk0, i) && EntryAsPreloaded(plan, disk0, s, i) && FileAsBefore(plan, disk0, s, i)
  }

  ghost predicate AllLocal(plan: Plan, disk0: Disk, s: State) {
    |s.workers| == |plan.jobs| && forall i :: 0 <= i < |plan.jobs| ==> Local(plan, disk0, s, i)
  }

  // ---------------------------------------------------------------- other pairs do not interfere

  /** Steps of other pairs, even between their own temporary write and rename, leave pair i's entry, its
      file, its temporary file and its status alone. */
  lemma {:induction false} OthersDoNotInterfere(plan: Plan, disk0: Disk, s: State, e: Event, i: nat)
    requires plan.Separate() && Enabled(plan, s, e) && i < |plan.jobs| && i != Mover(s, e) && Local(plan, disk0, s, i)
    ensures Local(plan, disk0, Next(plan, s, e), i)
  {
    hide Moved, NextMem, NextDisk, Merges, Own, Gain, Goal, Unstamped, LoadFile, TempPath;
    OtherEntriesStay(plan, s, e, i);
    OtherFilesStay(plan, s, e, i);
  }

  lemma {:induction false} OtherEntriesStay(plan: Plan, s: State, e: Event, i: nat)
    requires plan.Separate() && Enabled(plan, s, e) && i < |plan.jobs| && i != Mover(s, e)
    ensures var key, mem' := plan.jobs[i].key, Next(plan, s, e).mem;
            (key in mem' <==> key in s.mem) && (key in s.mem ==> mem'[key] == s.mem[key])
  {
    hide Moved, NextDisk, KeyFor, TempPath, Existing;
    if e.Load? || e.Publish? {
      assert plan.jobs[e.i].key != plan.jobs[i].key;
    }
  }

  /** The disk holds the same at a path. */
  ghost predicate SameAt(d: Disk, d': Disk, path: string) {
    (path in d <==> path in d') && (path in d ==> d[path] == d'[path])
  }

  lemma {:induction false} TempPathInjective(a: string, b: string)
    ensures TempPath(a) == TempPath(b) <==> a == b
  {
    assert TempPath(a)[..|TempPath(a)| - 4] == a && TempPath(b)[..|TempPath(b)| - 4] == b;
  }

  lemma {:induction false} OtherFilesStay(plan: Plan, s: State, e: Event, i: nat)
    requires plan.Separate() && Enabled(plan, s, e) && i < |plan.jobs| && i != Mover(s, e)
    ensures SameAt(s.disk, Next(plan, s, e).disk, plan.jobs[i].path)
    ensures SameAt(s.disk, Next(plan, s, e).disk, TempPath(plan.jobs[i].path))
    ensures LoadFile(Next(plan, s, e).disk, plan.jobs[i].path) == LoadFile(s.disk, plan.jobs[i].path)
  {
    hide Moved, NextMem, KeyFor, TempPath, MergedFile;
    if e.Open? || e.Fill? || e.Replace? {
      assert plan.jobs[i].path != plan.jobs[e.i].path && plan.jobs[i].path != TempPath(plan.jobs[e.i].path)
          && plan.jobs[e.i].path != TempPath(plan.jobs[i].path);
      TempPathInjective(plan.jobs[i].path, plan.jobs[e.i].path);
    }
  }

  // ---------------------------------------------------------------- a pair's own moves

  /** A skipped pair would not have merged anything: some pair of its symbol was refused, and refusal
      is a verdict on the symbol. */
  lemma {:induction false} SkippingIsHarmless(plan: Plan, disk0: Disk, s: State, i: nat)
    requires plan.RefusalIsPerSymbol() && Safe(plan, s) && AllLocal(plan, disk0, s)
    requires i < |plan.jobs| && plan.jobs[i].wire in s.invalid
    ensures !Merges(plan, disk0, i)
  {
    hide Held, Total, Existing, ComputeStart, TrimNewest, EntryAsPreloaded, FileAsBefore;
    assert MarkedBy(plan, s, plan.jobs[i].wire);
    var j :| 0 <= j < |s.workers| && Ended(s.workers[j]) && s.workers[j].outcome == Missing
        && plan.jobs[j].wire == plan.jobs[i].wire;
    assert Local(plan, disk0, s, j);
    assert Gain(plan, disk0, j) == Err(ContractNotExist);
    RefusedByFetch(plan, disk0, j);
  }

  lemma {:induction false} RefusedByFetch(plan: Plan, disk0: Disk, j: nat)
    requires j < |plan.jobs| && Gain(plan, disk0, j) == Err(ContractNotExist)
    ensures exists start: Option<int> ::
            plan.src.fetch(plan.jobs[j].wire, plan.jobs[j].interval, start) == Err(ContractNotExist)
  {
    hide Existing, TrimNewest;
    var start :=
        Asked(ComputeStart(Own(plan, disk0, j).candles, plan.jobs[j].interval, plan.src.limit, plan.src.now).value);
    assert plan.src.fetch(plan.jobs[j].wire, plan.jobs[j].interval, start) == Err(ContractNotExist);
  }

  lemma {:induction false} OwnLoad(plan: Plan, disk0: Disk, s: State, i: nat)
    requires Enabled(plan, s, Load(i)) && Local(plan, disk0, s, i)
    ensures Local(plan, disk0, Next(plan, s, Load(i)), i)
  {
    hide LoadFile, KeyFor, Gain, Merges;
  }

  lemma {:induction false} OwnFetch(plan: Plan, disk0: Disk, s: State, i: nat)
    requires Enabled(plan, s, Fetch(i, false)) && Local(plan, disk0, s, i)
    ensures Local(plan, disk0, Next(plan, s, Fetch(i, false)), i)
  {
    hide LoadFile, KeyFor, CatchUp, Existing, Goal;
  }

  lemma {:induction false} OwnOpen(plan: Plan, disk0: Disk, s: State, i: nat)
    requires Enabled(plan, s, Open(i)) && Local(plan, disk0, s, i)
    ensures Local(plan, disk0, Next(plan, s, Open(i)), i)
  {
    hide KeyFor, Existing, Merged, CatchUp;
    TempIsAnother(plan.jobs[i].path);
    hide TempPath;
  }

  lemma {:induction false} TempIsAnother(path: string)
    ensures TempPath(path) != path
  {
    assert |TempPath(path)| == |path| + 4;
  }

  lemma {:induction false} OwnFill(plan: Plan, disk0: Disk, s: State, i: nat, mergedAt: int, savedAt: int)
    requires Enabled(plan, s, Fill(i, mergedAt, savedAt)) && Local(plan, disk0, s, i)
    ensures Local(plan, disk0, Next(plan, s, Fill(i, mergedAt, savedAt)), i)
  {
    hide KeyFor, Existing, Merged, CatchUp;
    TempIsAnother(plan.jobs[i].path);
    hide TempPath;
  }

  lemma {:induction false} OwnReplace(plan: Plan, disk0: Disk, s: State, i: nat)
    requires Enabled(plan, s, Replace(i)) && Local(plan, disk0, s, i)
    ensures Local(plan, disk0, Next(plan, s, Replace(i)), i)
  {
    hide KeyFor, Existing, Merged, CatchUp;
    TempIsAnother(plan.jobs[i].path);
    hide TempPath;
  }

  lemma {:induction false} OwnPublish(plan: Plan, disk0: Disk, s: State, i: nat)
    requires Enabled(plan, s, Publish(i)) && Local(plan, disk0, s, i)
    ensures Local(plan, disk0, Next(plan, s, Publish(i)), i)
  {
    hide LoadFile, KeyFor, Gain, Merges, Own, Goal;
  }

  lemma {:induction false} OwnBookkeeping(plan: Plan, disk0: Disk, s: State, e: Event, i: nat)
    requires Enabled(plan, s, e) && i == Mover(s, e) && i < |s.workers| && Local(plan, disk0, s, i)
    requires e.Launch? || e.Refuse? || e.Release? || e.Check?
    requires e.Launch? ==> s.workers[i].Pending?
    requires e.Check? && plan.jobs[i].wire in s.invalid ==> !Merges(plan, disk0, i)
    ensures Local(plan, disk0, Next(plan, s, e), i)
  {
    hide LoadFile, KeyFor, Gain, Merges, Own, Goal;
  }

  // ---------------------------------------------------------------- whole schedules

  lemma {:induction false} StepKeepsLocal(plan: Plan, disk0: Disk, s: State, e: Event)
    requires plan.Separate() && plan.RefusalIsPerSymbol()
    requires Safe(plan, s) && AllLocal(plan, disk0, s) && Enabled(plan, s, e) && !s.cancelled
    ensures AllLocal(plan, disk0, Next(plan, s, e))
  {
    hide Moved, NextMem, NextDisk, Local, Held, Total, MarkedBy, Merges;
    var s' := Next(plan, s, e);
    forall i | 0 <= i < |plan.jobs| ensures Local(plan, disk0, s', i) {
      if i != Mover(s, e) {
        OthersDoNotInterfere(plan, disk0, s, e, i);
      } else {
        if e.Load? {
          OwnLoad(plan, disk0, s, i);
        } else if e.Fetch? {
          OwnFetch(plan, disk0, s, i);
        } else if e.Open? {
          OwnOpen(plan, disk0, s, i);
        } else if e.Fill? {
          OwnFill(plan, disk0, s, i, e.mergedAt, e.savedAt);
        } else if e.Replace? {
          OwnReplace(plan, disk0, s, i);
        } else if e.Publish? {
          OwnPublish(plan, disk0, s, i);
        } else {
          if e.Check? && plan.jobs[i].wire in s.invalid {
            SkippingIsHarmless(plan, disk0, s, i);
          }
          OwnBookkeeping(plan, disk0, s, e, i);
        }
      }
    }
  }

  lemma {:induction false} ScheduleKeepsLocal(plan: Plan, mem: StoreState, disk: Disk, schedule: seq<Event>)
    requires plan.Separate() && plan.RefusalIsPerSymbol() && Preloaded(plan, mem, disk)
    requires After(plan, Initial(plan, mem, disk), schedule).Some?
    requires !After(plan, Initial(plan, mem, disk), schedule).value.cancelled
    ensures AllLocal(plan, disk, After(plan, Initial(plan, mem, disk), schedule).value)
  {
    hide Own, Enabled, Safe, NextMem, NextDisk, Moved;
    if schedule == [] {
    } else {
      hide AllLocal;
      var n := |schedule| - 1;
      var s := After(plan, Initial(plan, mem, disk), schedule[..n]).value;
      assert !s.cancelled;
      ScheduleKeepsLocal(plan, mem, disk, schedule[..n]);
      ScheduleKeepsSafe(plan, mem, disk, schedule[..n]);
      StepKeepsLocal(plan, disk, s, schedule[n]);
    }
  }

  /** Keys and files no pair owns are never touched. */
  lemma {:induction false} OutsideKeyStays(plan: Plan, mem: StoreState, disk: Disk, schedule: seq<Event>, key: string)
    requires After(plan, Initial(plan, mem, disk), schedule).Some?
    requires forall i :: 0 <= i < |plan.jobs| ==> key != plan.jobs[i].key
    ensures var s := After(plan, Initial(plan, mem, disk), schedule).value;
            (key in s.mem <==> key in mem) && (key in mem ==> s.mem[key] == mem[key])
  {
    hide Moved, NextDisk, Existing;
    if schedule != [] {
      OutsideKeyStays(plan, mem, disk, schedule[..|schedule| - 1], key);
    }
  }

  lemma {:induction false} OutsidePathStays(plan: Plan, mem: StoreState, disk: Disk, schedule: seq<Event>, path: string)
    requires After(plan, Initial(plan, mem, disk), schedule).Some?
    requires forall i :: 0 <= i < |plan.jobs| ==> path != plan.jobs[i].path && path != TempPath(plan.jobs[i].path)
    ensures LoadFile(After(plan, Initial(plan, mem, disk), schedule).value.disk, path) == LoadFile(disk, path)
  {
    hide Moved, NextMem, TempPath, MergedFile;
    if schedule != [] {
      OutsidePathStays(plan, mem, disk, schedule[..|schedule| - 1], path);
    }
  }

  // ---------------------------------------------------------------- the result

  /** Pair i has ended as if it had run alone from the preloaded state, time stamps aside. */
  ghost predicate AsIfAlone(plan: Plan, mem: StoreState, disk: Disk, s: State, i: nat)
    requires i < |plan.jobs| == |s.workers|
  {
    var job := plan.jobs[i];
    var (w, r) := PairRun(World(mem, disk), plan.src, job.path, job.wire, job.interval);
    && Ended(s.workers[i])
    && (s.workers[i].outcome.Done? <==> r.Ok?) && (r.Ok? ==> s.workers[i].outcome.count == r.value)
    && (s.workers[i].outcome.Missing? ==> r == Err(FetchFailed(ContractNotExist)))
    && job.key in s.mem && job.key in w.mem
    && s.mem[job.key].dirty == w.mem[job.key].dirty
    && Unstamped(s.mem[job.key].file) == Unstamped(w.mem[job.key].file)
    && SameFile(LoadFile(s.disk, job.path), LoadFile(w.disk, job.path))
  }

  ghost predicate SameFile(a: Result<CandleFile, LoadError>, b: Result<CandleFile, LoadError>) {
    if a.Ok? && b.Ok? then Unstamped(a.value) == Unstamped(b.value) else a == b
  }

  lemma {:induction false} LocalIsAsIfAlone(plan: Plan, mem: StoreState, disk: Disk, s: State, i: nat)
    requires plan.Separate() && Preloaded(plan, mem, disk) && i < |plan.jobs| == |s.workers|
    requires Local(plan, disk, s, i) && s.workers[i].Released?
    ensures AsIfAlone(plan, mem, disk, s, i)
  {
    hide PairRun, CatchUp, UpsertAll, Upserted;
    var job := plan.jobs[i];
    PairEnds(World(mem, disk), plan.src, job.path, job.wire, job.interval);
  }

  /** Every complete uncancelled schedule ends each pair as if it had run alone. */
  lemma {:induction false} EveryScheduleIsSequential(plan: Plan, mem: StoreState, disk: Disk, schedule: seq<Event>,
                                                     i: nat)
    requires plan.Separate() && plan.RefusalIsPerSymbol() && Preloaded(plan, mem, disk) && i < |plan.jobs|
    requires After(plan, Initial(plan, mem, disk), schedule).Some?
    requires var s := After(plan, Initial(plan, mem, disk), schedule).value; Complete(plan, s) && !s.cancelled
    ensures AsIfAlone(plan, mem, disk, After(plan, Initial(plan, mem, disk), schedule).value, i)
  {
    hide Local, Own, AsIfAlone;
    ScheduleKeepsLocal(plan, mem, disk, schedule);
    LocalIsAsIfAlone(plan, mem, disk, After(plan, Initial(plan, mem, disk), schedule).value, i);
  }

  lemma {:induction false} TotalsAgree(a: seq<Worker>, b: seq<Worker>)
    requires |a| == |b| && forall i :: 0 <= i < |a| ==> CountOf(a[i]) == CountOf(b[i])
    ensures Total(a) == Total(b)
  {
    if a != [] {
      TotalsAgree(a[..|a| - 1], b[..|b| - 1]);
    }
  }

  ghost predicate EndsAt(plan: Plan, mem: StoreState, disk: Disk, schedule: seq<Event>, s: State) {
    After(plan, Initial(plan, mem, disk), schedule) == Some(s) && Complete(plan, s) && !s.cancelled
  }

  /** The cache agrees on every key, time stamps aside. */
  lemma {:induction false} CachesAgree(plan: Plan, mem: StoreState, disk: Disk, x: seq<Event>, y: seq<Event>,
                                       s: State, t: State, key: string)
    requires plan.Separate() && plan.RefusalIsPerSymbol() && Preloaded(plan, mem, disk)
    requires EndsAt(plan, mem, disk, x, s) && EndsAt(plan, mem, disk, y, t)
    ensures key in s.mem <==> key in t.mem
    ensures key in s.mem ==>
              s.mem[key].dirty == t.mem[key].dirty && Unstamped(s.mem[key].file) == Unstamped(t.mem[key].file)
  {
    hide After, PairRun, Own, Unstamped, SameFile, Initial;
    if i :| 0 <= i < |plan.jobs| && key == plan.jobs[i].key {
      EveryScheduleIsSequential(plan, mem, disk, x, i);
      EveryScheduleIsSequential(plan, mem, disk, y, i);
    } else {
      OutsideKeyStays(plan, mem, disk, x, key);
      OutsideKeyStays(plan, mem, disk, y, key);
    }
  }

  /** So does every file that is not a temporary one. */
  lemma {:induction false} FilesAgree(plan: Plan, mem: StoreState, disk: Disk, x: seq<Event>, y: seq<Event>, s: State,
                                      t: State, path: string)
    requires plan.Separate() && plan.RefusalIsPerSymbol() && Preloaded(plan, mem, disk)
    requires EndsAt(plan, mem, disk, x, s) && EndsAt(plan, mem, disk, y, t)
    requires forall i :: 0 <= i < |plan.jobs| ==> path != TempPath(plan.jobs[i].path)
    ensures SameFile(LoadFile(s.disk, path), LoadFile(t.disk, path))
  {
    hide After, PairRun, Own, Unstamped, LoadFile, Initial;
    if i :| 0 <= i < |plan.jobs| && path == plan.jobs[i].path {
      EveryScheduleIsSequential(plan, mem, disk, x, i);
      EveryScheduleIsSequential(plan, mem, disk, y, i);
    } else {
      OutsidePathStays(plan, mem, disk, x, path);
      OutsidePathStays(plan, mem, disk, y, path);
    }
  }

  /** Start-up is confluent: any two complete schedules end with the same cache, the same files and
      the same number of loaded candles. */
  lemma {:induction false} StartUpIsConfluent(plan: Plan, mem: StoreState, disk: Disk, x: seq<Event>, y: seq<Event>,
                                              s: State, t: State)
    requires plan.Separate() && plan.RefusalIsPerSymbol() && Preloaded(plan, mem, disk)
    requires EndsAt(plan, mem, disk, x, s) && EndsAt(plan, mem, disk, y, t)
    ensures s.mem.Keys == t.mem.Keys
    ensures forall key :: key in s.mem ==>
              s.mem[key].dirty == t.mem[key].dirty && Unstamped(s.mem[key].file) == Unstamped(t.mem[key].file)
    ensures forall path :: (forall i :: 0 <= i < |plan.jobs| ==> path != TempPath(plan.jobs[i].path)) ==>
              SameFile(LoadFile(s.disk, path), LoadFile(t.disk, path))
    ensures s.loaded == t.loaded
  {
    hide After, PairRun, Own, Unstamped, LoadFile, Initial, SameFile, Preloaded;
    forall key ensures key in s.mem <==> key in t.mem {
      CachesAgree(plan, mem, disk, x, y, s, t, key);
    }
    forall key | key in s.mem
      ensures s.mem[key].dirty == t.mem[key].dirty && Unstamped(s.mem[key].file) == Unstamped(t.mem[key].file)
    {
      CachesAgree(plan, mem, disk, x, y, s, t, key);
    }
    forall path | forall i :: 0 <= i < |plan.jobs| ==> path != TempPath(plan.jobs[i].path)
      ensures SameFile(LoadFile(s.disk, path), LoadFile(t.disk, path))
    {
      FilesAgree(plan, mem, disk, x, y, s, t, path);
    }
    LoadedAgree(plan, mem, disk, x, y, s, t);
  }

  lemma {:induction false} LoadedAgree(plan: Plan, mem: StoreState, disk: Disk, x: seq<Event>, y: seq<Event>,
                                       s: State, t: State)
    requires plan.Separate() && plan.RefusalIsPerSymbol() && Preloaded(plan, mem, disk)
    requires EndsAt(plan, mem, disk, x, s) && EndsAt(plan, mem, disk, y, t)
    ensures s.loaded == t.loaded
  {
    hide After, PairRun, Own, Unstamped, LoadFile, Initial, SameFile, Held, Total, MarkedBy, Preloaded;
    ScheduleKeepsSafe(plan, mem, disk, x);
    ScheduleKeepsSafe(plan, mem, disk, y);
    forall i | 0 <= i < |plan.jobs| ensures CountOf(s.workers[i]) == CountOf(t.workers[i]) {
      EveryScheduleIsSequential(plan, mem, disk, x, i);
      EveryScheduleIsSequential(plan, mem, disk, y, i);
    }
    TotalsAgree(s.workers, t.workers);
  }

  /** What pair i loads when it runs alone: the candles fetched if they end up on disk, and nothing otherwise. */
  function AloneCount(plan: Plan, mem: StoreState, disk: Disk, i: nat): nat
    requires i < |plan.jobs|
  {
    var job := plan.jobs[i];
    match PairRun(World(mem, disk), plan.src, job.path, job.wire, job.interval).1
    case Ok(count) => count
    case Err(_) => 0
  }

  /** The reported total of a complete start-up is the sum of what the pairs load alone. */
  lemma {:induction false} LoadedIsTheSum(plan: Plan, mem: StoreState, disk: Disk, x: seq<Event>, s: State)
    requires plan.Separate() && plan.RefusalIsPerSymbol() && Preloaded(plan, mem, disk)
    requires EndsAt(plan, mem, disk, x, s)
    ensures s.loaded == Sum(seq(|plan.jobs|, i requires 0 <= i < |plan.jobs| => AloneCount(plan, mem, disk, i)))
  {
    hide After, PairRun, Own, Unstamped, LoadFile, Initial, SameFile, Held, Total, MarkedBy, Preloaded;
    ScheduleKeepsSafe(plan, mem, disk, x);
    var counts := seq(|plan.jobs|, i requires 0 <= i < |plan.jobs| => AloneCount(plan, mem, disk, i));
    forall i | 0 <= i < |plan.jobs| ensures CountOf(s.workers[i]) == counts[i] {
      EveryScheduleIsSequential(plan, mem, disk, x, i);
    }
    TotalIsSum(s.workers, counts);
  }

  lemma {:induction false} TotalIsSum(ws: seq<Worker>, counts: seq<nat>)
    requires |ws| == |counts| && forall i :: 0 <= i < |ws| ==> CountOf(ws[i]) == counts[i]
    ensures Total(ws) == Sum(counts)
  {
    if ws != [] {
      TotalIsSum(ws[..|ws| - 1], counts[..|ws| - 1]);
    }
  }
}
