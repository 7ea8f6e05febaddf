/** What holds over whole runs of the live phase, however pushes, flush steps, failures and crashes
    interleave. */
module FlushRuns {
  import opened Wrappers
  import opened Candles
  import opened Symbols
  import opened Store
  import opened Files
  import opened Handler
  import opened Flushing

  datatype Run = Run(cfg: Config, states: seq<State>, events: seq<Event>) {
    predicate Shaped() {
      |states| == |events| + 1
    }

    /** A run starts between flushes with every list in memory equal to its file. */
    ghost predicate Valid() {
      && Shaped()
      && Inv(cfg, states[0]) && states[0].phase.Idle?
      && (forall k :: k in states[0].mem ==> MemList(states[0], k) == FileList(cfg, states[0], k))
      && (forall i :: 0 <= i < |events| ==> Step(cfg, states[i], events[i], states[i + 1]))
    }

    // ------------------------------------------------------------ reading a run

    /** The moment of the latest flush snapshot taken before n. */
    function BegunAt(n: nat): (m: nat)
      requires Shaped() && n <= |events|
      ensures m <= n
    {
      if n == 0 then 0 else if events[n - 1].Begin? then n - 1 else BegunAt(n - 1)
    }

    /** The event at i moves a snapshot of k over k's file. */
    predicate Installs(i: nat, k: string)
      requires Shaped() && i < |events|
    {
      Renames(events[i]) && AtHead(states[i], k)
    }

    predicate Clears(i: nat, k: string)
      requires Shaped() && i < |events|
    {
      events[i].Clear? && AtHead(states[i], k)
    }

    /** The moment whose memory the file of k shows at n. */
    function SavedAt(n: nat, k: string): nat
      requires Shaped() && n <= |events|
    {
      if n == 0 then 0 else if Installs(n - 1, k) then BegunAt(n - 1) else SavedAt(n - 1, k)
    }

    /** seen, extended by the candle that event i pushes to k, if it does. */
    function Extended(seen: seq<Candle>, i: nat, k: string): seq<Candle>
      requires Shaped() && i < |events|
    {
      if Pushes(states[i].mem, events[i], k) then seen + [events[i].frame.push.value.candle] else seen
    }

    /** The pushes to k since the latest flush snapshot. */
    function SinceBegin(n: nat, k: string): seq<Candle>
      requires Shaped() && n <= |events|
    {
      if n == 0 || events[n - 1].Begin? || events[n - 1].Crash? then [] else Extended(SinceBegin(n - 1, k), n - 1, k)
    }

    /** The pushes to k that its file does not show yet. */
    function Unsaved(n: nat, k: string): seq<Candle>
      requires Shaped() && n <= |events|
    {
      if n == 0 || events[n - 1].Crash? then []
      else if Installs(n - 1, k) then SinceBegin(n - 1, k)
      else Extended(Unsaved(n - 1, k), n - 1, k)
    }

    /** The pushes to k that landed between the snapshot and the clear of its latest completed flush. */
    function Raced(n: nat, k: string): seq<Candle>
      requires Shaped() && n <= |events|
    {
      if n == 0 || events[n - 1].Crash? then []
      else if Clears(n - 1, k) then SinceBegin(n - 1, k)
      else Raced(n - 1, k)
    }
  }

  // ---------------------------------------------------------------- the invariant at every moment

  lemma {:induction false} RunKeepsInv(run: Run, n: nat)
    requires run.Valid() && n <= |run.events|
    ensures Inv(run.cfg, run.states[n]) && run.states[n].mem.Keys == run.states[0].mem.Keys
  {
    hide Inv, Step;
    if n > 0 {
      RunKeepsInv(run, n - 1);
      StepKeepsInv(run.cfg, run.states[n - 1], run.events[n - 1], run.states[n]);
    }
  }

  lemma {:induction false} CoveredKey(run: Run, n: nat, k: string)
    requires run.Valid() && n <= |run.events| && k in run.states[n].mem
    ensures k in run.cfg.paths
  {
    RunKeepsInv(run, n);
    hide Step, DirtyMatchesKey, QueueOk;
  }

  /** Within a flush the queue only loses its head; only Begin fills it. */
  lemma {:induction false} QueueShrinks(cfg: Config, s: State, e: Event, s': State)
    requires Step(cfg, s, e, s') && !s'.phase.Idle? && !e.Begin?
    ensures !s.phase.Idle?
    ensures s'.phase.queue == s.phase.queue || (s.phase.queue != [] && s'.phase.queue == s.phase.queue[1..])
    ensures s'.phase.Renamed? ==> (s.phase.Renamed? && e.Message? && s'.phase == s.phase) || Renames(e)
    ensures Renames(e) ==> s'.phase == Renamed(s.phase.queue)
  {
    hide Handled, WriteTemp, RenameTemp, ClearState, Restarted, SnapshotsOf;
  }

  lemma {:induction false} UpsertOneMore(s: seq<Candle>, cs: seq<Candle>, c: Candle)
    ensures UpsertAll(s, cs + [c]) == Upserted(UpsertAll(s, cs), c)
  {
    assert (cs + [c])[..|cs|] == cs;
  }

  /** A list that is base plus the pushes seen stays so through a push or an unrelated event. */
  lemma {:induction false} ListFollows(run: Run, n: nat, k: string, base: seq<Candle>, seen: seq<Candle>)
    requires run.Valid() && n < |run.events| && !run.events[n].Crash?
    requires Inv(run.cfg, run.states[n]) && k in run.states[n].mem
    requires MemList(run.states[n], k) == UpsertAll(base, seen)
    ensures k in run.states[n + 1].mem && MemList(run.states[n + 1], k) == UpsertAll(base, run.Extended(seen, n, k))
  {
    hide Inv, Step, UpsertAll, Upserted, FileList;
    MemoryEffect(run.cfg, run.states[n], run.events[n], run.states[n + 1], k);
    if Pushes(run.states[n].mem, run.events[n], k) {
      UpsertOneMore(base, seen, run.events[n].frame.push.value.candle);
    }
  }

  // ---------------------------------------------------------------- the snapshots still queued

  /** Every queued snapshot of k plus the pushes since the snapshot is what memory holds, and it is
      what memory held when the flush began. */
  ghost predicate QueueTracks(run: Run, n: nat, k: string)
    requires run.Shaped() && n <= |run.events|
  {
    var s, b := run.states[n], run.states[run.BegunAt(n)];
    !s.phase.Idle? && k in s.mem && k in b.mem ==>
      forall i :: 0 <= i < |s.phase.queue| && s.phase.queue[i].key == k ==>
        s.phase.queue[i].file.candles == MemList(b, k)
        && MemList(s, k) == UpsertAll(MemList(b, k), run.SinceBegin(n, k))
  }

  lemma {:induction false} BeginTakesMemory(cfg: Config, s: State, e: Event, s': State, k: string)
    requires Step(cfg, s, e, s') && e.Begin? && k in s.mem
    ensures s'.mem == s.mem && !s'.phase.Idle?
    ensures forall i :: 0 <= i < |s'.phase.queue| && s'.phase.queue[i].key == k ==>
              s'.phase.queue[i].file == s.mem[k].file
  {
    hide Handled, WriteTemp, RenameTemp, ClearState, Restarted, KeyFor;
  }

  lemma {:induction false} ValidIsShaped(run: Run)
    requires run.Valid()
    ensures run.Shaped()
  {
    hide Inv, Step;
  }

  lemma {:induction false} StepBefore(run: Run, n: nat)
    requires run.Valid() && 0 < n <= |run.events|
    ensures Step(run.cfg, run.states[n - 1], run.events[n - 1], run.states[n])
  {
    hide Inv, Step;
  }

  /** Between snapshots memory stays the list of the latest snapshot plus the pushes since. */
  lemma {:induction false} FollowsBegin(run: Run, n: nat, k: string, b: seq<Candle>)
    requires run.Valid() && 0 < n <= |run.events| && k in run.states[0].mem
    requires !run.events[n - 1].Begin? && !run.states[n].phase.Idle?
    ensures !run.states[n - 1].phase.Idle? && k in run.states[n - 1].mem && k in run.states[n].mem
    ensures MemList(run.states[n - 1], k) == UpsertAll(b, run.SinceBegin(n - 1, k)) ==>
              MemList(run.states[n], k) == UpsertAll(b, run.SinceBegin(n, k))
  {
    hide Run.Valid, Inv, Step, Pushes, UpsertAll, Run.SinceBegin, MemList;
    ValidIsShaped(run);
    RunKeepsInv(run, n);
    RunKeepsInv(run, n - 1);
    StepBefore(run, n);
    var s, e, s' := run.states[n - 1], run.events[n - 1], run.states[n];
    QueueShrinks(run.cfg, s, e, s');
    CrashGoesIdle(run.cfg, s, e, s');
    if MemList(s, k) == UpsertAll(b, run.SinceBegin(n - 1, k)) {
      ListFollows(run, n - 1, k, b, run.SinceBegin(n - 1, k));
      SinceBeginExtends(run, n, k);
    }
  }

  lemma {:induction false} TrackedFurther(run: Run, n: nat, k: string)
    requires run.Valid() && 0 < n <= |run.events| && k in run.states[0].mem
    requires QueueTracks(run, n - 1, k) && !run.events[n - 1].Begin? && !run.states[n].phase.Idle?
    ensures QueueTracks(run, n, k)
  {
    hide Run.Valid, Inv, Step, Pushes, UpsertAll, Run.SinceBegin, MemList;
    ValidIsShaped(run);
    RunKeepsInv(run, run.BegunAt(n - 1));
    StepBefore(run, n);
    var s, s' := run.states[n - 1], run.states[n];
    FollowsBegin(run, n, k, MemList(run.states[run.BegunAt(n - 1)], k));
    QueueShrinks(run.cfg, s, run.events[n - 1], s');
    ShrunkQueue(s.phase.queue, s'.phase.queue, k);
  }

  lemma {:induction false} SinceBeginExtends(run: Run, n: nat, k: string)
    requires run.Shaped() && 0 < n <= |run.events| && !run.events[n - 1].Begin? && !run.events[n - 1].Crash?
    ensures run.SinceBegin(n, k) == run.Extended(run.SinceBegin(n - 1, k), n - 1, k)
  {
    hide Run.Extended;
  }

  lemma {:induction false} TrackedFromBegin(run: Run, n: nat, k: string)
    requires run.Valid() && 0 < n <= |run.events| && k in run.states[0].mem && run.events[n - 1].Begin?
    ensures QueueTracks(run, n, k)
  {
    hide Inv, Step, Pushes, UpsertAll, Upserted, FileList, DirtyMatchesKey;
    RunKeepsInv(run, n);
    RunKeepsInv(run, n - 1);
    var s, s' := run.states[n - 1], run.states[n];
    BeginTakesMemory(run.cfg, s, run.events[n - 1], s', k);
    NothingUpserted(MemList(s, k));
  }

  lemma {:induction false} QueueAlwaysTracks(run: Run, n: nat, k: string)
    requires run.Valid() && n <= |run.events| && k in run.states[0].mem
    ensures QueueTracks(run, n, k)
  {
    hide Inv, Step, UpsertAll, Run.SinceBegin, Run.BegunAt;
    RunKeepsInv(run, n);
    if n > 0 {
      QueueAlwaysTracks(run, n - 1, k);
      if run.events[n - 1].Begin? {
        TrackedFromBegin(run, n, k);
      } else if !run.states[n].phase.Idle? {
        TrackedFurther(run, n, k);
      }
    }
  }

  lemma {:induction false} ShrunkQueue(q: seq<Snapshot>, q': seq<Snapshot>, k: string)
    requires q' == q || (q != [] && q' == q[1..])
    ensures forall i :: 0 <= i < |q'| && q'[i].key == k ==> exists j :: 0 <= j < |q| && q[j].key == k && q[j] == q'[i]
  {
    forall i | 0 <= i < |q'| && q'[i].key == k ensures exists j :: 0 <= j < |q| && q[j].key == k && q[j] == q'[i] {
      var j := if q' == q then i else i + 1;
      assert q[j] == q'[i];
    }
  }

  lemma {:induction false} CrashGoesIdle(cfg: Config, s: State, e: Event, s': State)
    requires Step(cfg, s, e, s') && !s'.phase.Idle?
    ensures !e.Crash?
  {
    hide Handled, WriteTemp, RenameTemp, ClearState, Restarted, SnapshotsOf;
  }

  lemma {:induction false} NothingUpserted(s: seq<Candle>)
    ensures UpsertAll(s, []) == s
  {
  }

  // ---------------------------------------------------------------- files show real past memory

  lemma {:induction false} SavedBeforeBegin(run: Run, n: nat, k: string)
    requires run.Shaped() && n <= |run.events|
    ensures run.SavedAt(n, k) <= run.BegunAt(n)
  {
    if n > 0 {
      SavedBeforeBegin(run, n - 1, k);
    }
  }

  /** In every run, through failed saves and crashes, each file holds a complete list that its entry
      really held in memory at an earlier moment. */
  lemma {:induction false} FilesShowPastMemory(run: Run, n: nat, k: string)
    requires run.Valid() && n <= |run.events| && k in run.states[0].mem
    ensures run.SavedAt(n, k) <= n && k in run.states[run.SavedAt(n, k)].mem && k in run.cfg.paths
    ensures FileList(run.cfg, run.states[n], k) == MemList(run.states[run.SavedAt(n, k)], k)
  {
    hide Inv, Step, UpsertAll, FileList;
    SavedBeforeBegin(run, n, k);
    RunKeepsInv(run, run.SavedAt(n, k));
    CoveredKey(run, 0, k);
    if n > 0 {
      RunKeepsInv(run, n - 1);
      RunKeepsInv(run, run.BegunAt(n - 1));
      FilesShowPastMemory(run, n - 1, k);
      FileEffect(run.cfg, run.states[n - 1], run.events[n - 1], run.states[n], k);
      if run.Installs(n - 1, k) {
        QueueAlwaysTracks(run, n - 1, k);
      }
    }
  }

  /** Successive versions of a file never go back in time. */
  lemma {:induction false} SavesNeverGoBack(run: Run, m: nat, n: nat, k: string)
    requires run.Shaped() && m <= n <= |run.events|
    ensures run.SavedAt(m, k) <= run.SavedAt(n, k)
  {
    if m < n {
      SavesNeverGoBack(run, m, n - 1, k);
      SavedBeforeBegin(run, n - 1, k);
    }
  }

  lemma {:induction false} StepKeepsReadable(cfg: Config, s: State, e: Event, s': State, k: string)
    requires Inv(cfg, s) && k in cfg.paths && Step(cfg, s, e, s')
    ensures LoadFile(s'.disk, cfg.paths[k]).Err? ==> LoadFile(s.disk, cfg.paths[k]).Err?
  {
    hide KeyFor, DirtyMatchesKey, TempPath, Queued, Handled, ClearState, Restarted, SnapshotsOf;
    if e.Stage? || e.Replace? {
      HeadResolves(cfg, s);
      var head := s.phase.queue[0].key;
      assert cfg.paths[k] != TempPath(cfg.paths[head]) && (k != head ==> cfg.paths[k] != cfg.paths[head]);
    }
  }

  /** No reader ever finds a half-written data file. */
  lemma {:induction false} FilesStayReadable(run: Run, n: nat, k: string)
    requires run.Valid() && n <= |run.events| && k in run.cfg.paths
    ensures LoadFile(run.states[n].disk, run.cfg.paths[k]).Err? ==> LoadFile(run.states[0].disk, run.cfg.paths[k]).Err?
  {
    hide Step, Inv, LoadFile;
    if n > 0 {
      RunKeepsInv(run, n - 1);
      FilesStayReadable(run, n - 1, k);
      StepKeepsReadable(run.cfg, run.states[n - 1], run.events[n - 1], run.states[n], k);
    }
  }

  // ---------------------------------------------------------------- clean means saved, exactly

  /** Memory is always the file plus the pushes counted as unsaved. */
  lemma {:induction false} MemoryIsFilePlusUnsaved(run: Run, n: nat, k: string)
    requires run.Valid() && n <= |run.events| && k in run.states[0].mem
    ensures k in run.states[n].mem && k in run.cfg.paths
    ensures MemList(run.states[n], k) == UpsertAll(FileList(run.cfg, run.states[n], k), run.Unsaved(n, k))
  {
    hide Inv, Step, UpsertAll, Upserted, FileList, Pushes;
    RunKeepsInv(run, n);
    CoveredKey(run, n, k);
    if n == 0 {
      NothingUpserted(FileList(run.cfg, run.states[0], k));
    } else {
      var s, e, s' := run.states[n - 1], run.events[n - 1], run.states[n];
      RunKeepsInv(run, n - 1);
      MemoryIsFilePlusUnsaved(run, n - 1, k);
      FileEffect(run.cfg, s, e, s', k);
      MemoryEffect(run.cfg, s, e, s', k);
      if e.Crash? {
        NothingUpserted(FileList(run.cfg, s', k));
      } else if run.Installs(n - 1, k) {
        MemoryStays(run.cfg, s, e, s');
        QueueAlwaysTracks(run, n - 1, k);
        RunKeepsInv(run, run.BegunAt(n - 1));
      } else {
        ListFollows(run, n - 1, k, FileList(run.cfg, s, k), run.Unsaved(n - 1, k));
      }
    }
  }

  /** Whatever a clean entry has unsaved arrived in the window of its latest flush; and once its
      snapshot is in place, everything unsaved arrived after the snapshot. */
  ghost predicate FlagTracks(run: Run, n: nat, k: string)
    requires run.Shaped() && n <= |run.events|
  {
    var s := run.states[n];
    && (k in s.mem && !s.mem[k].dirty ==> run.Unsaved(n, k) == run.Raced(n, k))
    && (s.phase.Renamed? && AtHead(s, k) ==> run.Unsaved(n, k) == run.SinceBegin(n, k))
  }

  lemma {:induction false} RenamedTracks(run: Run, n: nat, k: string)
    requires run.Valid() && 0 < n <= |run.events| && FlagTracks(run, n - 1, k)
    requires run.states[n].phase.Renamed? && AtHead(run.states[n], k)
    ensures run.Unsaved(n, k) == run.SinceBegin(n, k)
  {
    hide Inv, Step, Accepted;
    if !run.events[n - 1].Begin? {
      QueueShrinks(run.cfg, run.states[n - 1], run.events[n - 1], run.states[n]);
    } else {
      BeginGoesPicking(run.cfg, run.states[n - 1], run.events[n - 1], run.states[n]);
    }
  }

  lemma {:induction false} BeginGoesPicking(cfg: Config, s: State, e: Event, s': State)
    requires Step(cfg, s, e, s') && e.Begin?
    ensures s'.phase.Picking?
  {
  }

  lemma {:induction false} HeadIsDirty(cfg: Config, s: State, k: string)
    requires Inv(cfg, s) && AtHead(s, k)
    ensures k in s.mem && s.mem[k].dirty
  {
    hide KeyFor;
  }

  lemma {:induction false} ClearNeedsRenamed(cfg: Config, s: State, e: Event, s': State)
    requires Step(cfg, s, e, s') && e.Clear?
    ensures s.phase.Renamed?
  {
  }

  lemma {:induction false} FlagAlwaysTracks(run: Run, n: nat, k: string)
    requires run.Valid() && n <= |run.events| && k in run.states[0].mem
    ensures FlagTracks(run, n, k)
  {
    hide Inv, Step, Pushes, Upserted, FileList, Effect;
    if n > 0 {
      var s, e, s' := run.states[n - 1], run.events[n - 1], run.states[n];
      FlagAlwaysTracks(run, n - 1, k);
      RunKeepsInv(run, n - 1);
      MemoryEffect(run.cfg, s, e, s', k);
      if s'.phase.Renamed? && AtHead(s', k) {
        RenamedTracks(run, n, k);
      }
      if run.Clears(n - 1, k) {
        ClearNeedsRenamed(run.cfg, s, e, s');
        ClearIsNoPush(s, e, k);
      } else if run.Installs(n - 1, k) {
        HeadIsDirty(run.cfg, s, k);
        ClearIsNoPush(s, e, k);
      }
    }
  }

  lemma {:induction false} ClearIsNoPush(s: State, e: Event, k: string)
    requires !e.Message?
    ensures !Pushes(s.mem, e, k)
  {
  }

  /** A clean entry differs from its file exactly when the pushes that landed between its snapshot
      and its clear change what the file says. */
  lemma {:induction false} CleanIsSavedIff(run: Run, n: nat, k: string)
    requires run.Valid() && n <= |run.events| && k in run.states[n].mem && !run.states[n].mem[k].dirty
    requires k in run.cfg.paths && Ascending(FileList(run.cfg, run.states[n], k))
    ensures var file := FileList(run.cfg, run.states[n], k);
            MemList(run.states[n], k) == file <==> Timeline(file) + Timeline(run.Raced(n, k)) == Timeline(file)
  {
    hide Inv, Step, FileList, Timeline, Upserted, Bisect;
    RunKeepsInv(run, n);
    MemoryIsFilePlusUnsaved(run, n, k);
    FlagAlwaysTracks(run, n, k);
    var file := FileList(run.cfg, run.states[n], k);
    RunsAgreeIffOverridesAgree(file, run.Raced(n, k), []);
    NothingUpserted(file);
    EmptyTimeline(Timeline(file));
  }

  lemma {:induction false} EmptyTimeline(m: map<int, Candle>)
    ensures m + Timeline([]) == m
  {
  }

  /** In particular a flush no push lands in leaves the entry saved, whatever was lost before. */
  lemma {:induction false} UndisturbedFlushSaves(run: Run, n: nat, k: string)
    requires run.Valid() && 0 < n <= |run.events| && k in run.states[0].mem
    requires run.Clears(n - 1, k) && run.SinceBegin(n - 1, k) == []
    ensures k in run.states[n].mem && k in run.cfg.paths && !run.states[n].mem[k].dirty
    ensures MemList(run.states[n], k) == FileList(run.cfg, run.states[n], k)
  {
    hide Inv, Step, FileList, Upserted, Pushes;
    RunKeepsInv(run, n - 1);
    MemoryEffect(run.cfg, run.states[n - 1], run.events[n - 1], run.states[n], k);
    ClearIsNoPush(run.states[n - 1], run.events[n - 1], k);
    FlagAlwaysTracks(run, n, k);
    MemoryIsFilePlusUnsaved(run, n, k);
    NothingUpserted(FileList(run.cfg, run.states[n], k));
  }

  /** While every save of k fails, k's flag stays set. */
  lemma {:induction false} FailedSavesKeepFlag(run: Run, m: nat, n: nat, k: string)
    requires run.Valid() && m <= n <= |run.events| && k in run.states[m].mem && run.states[m].mem[k].dirty
    requires !(run.states[m].phase.Renamed? && AtHead(run.states[m], k))
    requires forall j :: m <= j < n ==> !run.Installs(j, k) && !run.events[j].Crash?
    ensures k in run.states[n].mem && run.states[n].mem[k].dirty
    ensures !(run.states[n].phase.Renamed? && AtHead(run.states[n], k))
  {
    hide Inv, Step, Pushes, Upserted, FileList;
    if m < n {
      FailedSavesKeepFlag(run, m, n - 1, k);
      var s, e, s' := run.states[n - 1], run.events[n - 1], run.states[n];
      RunKeepsInv(run, n - 1);
      MemoryEffect(run.cfg, s, e, s', k);
      if e.Clear? {
        ClearNeedsRenamed(run.cfg, s, e, s');
      }
      if e.Begin? {
        BeginGoesPicking(run.cfg, s, e, s');
      } else if !s'.phase.Idle? {
        QueueShrinks(run.cfg, s, e, s');
      }
      assert !run.Installs(n - 1, k);
    }
  }

  lemma {:induction false} ListsStayAscending(run: Run, n: nat, k: string)
    requires run.Valid() && n <= |run.events| && k in run.states[0].mem && Ascending(MemList(run.states[0], k))
    ensures k in run.states[n].mem && Ascending(MemList(run.states[n], k))
    ensures k in run.cfg.paths && Ascending(FileList(run.cfg, run.states[n], k))
  {
    hide Inv, Step, FileList, Upserted, Ascending, Pushes;
    RunKeepsInv(run, n);
    FilesShowPastMemory(run, n, k);
    if n > 0 {
      RunKeepsInv(run, n - 1);
      ListsStayAscending(run, n - 1, k);
      var s, e := run.states[n - 1], run.events[n - 1];
      MemoryEffect(run.cfg, s, e, run.states[n], k);
      if Pushes(s.mem, e, k) {
        PushIsMessage(s.mem, e, k);
        UpsertedStaysAscending(MemList(s, k), e.frame.push.value.candle);
      }
      if run.SavedAt(n, k) < n {
        ListsStayAscending(run, run.SavedAt(n, k), k);
      }
    }
  }

  lemma {:induction false} PushIsMessage(mem: StoreState, e: Event, k: string)
    requires Pushes(mem, e, k)
    ensures e.Message? && e.frame.Frame? && e.frame.push.Some?
  {
  }

  // ---------------------------------------------------------------- names

  /** k was built from the two colon-free names configured for it. */
  predicate Fits(cfg: Config, k: string) {
    k in cfg.names && ':' !in cfg.names[k].0 && ':' !in cfg.names[k].1 && k == KeyFor(cfg.names[k].0, cfg.names[k].1)
  }

  /** The file's names are those configured for k, or blank. */
  predicate OwnOrBlank(cfg: Config, f: CandleFile, k: string)
    requires k in cfg.names
  {
    f.symbol in {"", cfg.names[k].0} && f.interval in {"", cfg.names[k].1}
  }

  predicate EntryNamed(cfg: Config, mem: StoreState, k: string)
    requires k in cfg.names
  {
    k in mem && mem[k].file.symbol == cfg.names[k].0 && mem[k].file.interval == cfg.names[k].1
  }

  lemma {:induction false} HandlingKeepsNames(cfg: Config, mem: StoreState, frame: Frame, k: string)
    requires Fits(cfg, k) && EntryNamed(cfg, mem, k)
    ensures EntryNamed(cfg, Handled(mem, frame), k)
  {
    hide KeyFor, Upserted;
    if Accepted(mem, frame) {
      var p := frame.push.value;
      if KeyFor(p.symbol, p.interval) == k {
        PlainKeyIsUnique(cfg.names[k].0, cfg.names[k].1, p.symbol, p.interval);
      }
    }
  }

  lemma {:induction false} ReloadingSetsNames(cfg: Config, disk: Disk, k: string)
    requires cfg.paths.Keys == cfg.names.Keys && k in cfg.names && OwnOrBlank(cfg, Reloaded(disk, cfg.paths[k]), k)
    ensures EntryNamed(cfg, Restarted(cfg, disk), k)
  {
    hide Reloaded;
  }

  lemma {:induction false} StepKeepsEntryNamed(cfg: Config, s: State, e: Event, s': State, k: string)
    requires Inv(cfg, s) && Step(cfg, s, e, s') && Fits(cfg, k) && EntryNamed(cfg, s.mem, k) && k in cfg.paths
    requires OwnOrBlank(cfg, Reloaded(s.disk, cfg.paths[k]), k)
    ensures EntryNamed(cfg, s'.mem, k)
  {
    match e
    case Message(frame) => HandlingKeepsNames(cfg, s.mem, frame, k);
    case Clear => ClearEffect(s.mem, s.phase.queue[0].key, k);
    case Crash => ReloadingSetsNames(cfg, s.disk, k);
    case _ => MemoryStays(cfg, s, e, s');
    hide Inv, Handled, ClearState, Restarted, KeyFor, WriteTemp, RenameTemp, SnapshotsOf, Reloaded;
  }

  lemma {:induction false} HeadNames(cfg: Config, s: State, k: string)
    requires Inv(cfg, s) && Fits(cfg, k) && AtHead(s, k)
    ensures OwnOrBlank(cfg, s.phase.queue[0].file, k)
  {
    hide KeyFor, Config.LaidOut, DirtyMatchesKey;
    HeadMatches(s.phase.queue, s.mem);
    var f := s.phase.queue[0].file;
    PlainKeyIsUnique(cfg.names[k].0, cfg.names[k].1, f.symbol, f.interval);
  }

  lemma {:induction false} StepKeepsFileNamed(cfg: Config, s: State, e: Event, s': State, k: string)
    requires Inv(cfg, s) && Step(cfg, s, e, s') && Fits(cfg, k) && k in cfg.paths
    requires OwnOrBlank(cfg, Reloaded(s.disk, cfg.paths[k]), k)
    ensures OwnOrBlank(cfg, Reloaded(s'.disk, cfg.paths[k]), k)
  {
    hide Inv, Step, KeyFor, Reloaded;
    WholeSnapshotsInstalled(cfg, s, e, s', k);
    if Renames(e) && AtHead(s, k) {
      HeadNames(cfg, s, k);
    }
  }

  /** Every entry keeps the names configured for its key, and every file shows them or blanks, through pushes,
      flushes, failures and crashes. So each later start-up finds the names it looks for. */
  lemma {:induction false} NamesSurvive(run: Run, n: nat, k: string)
    requires run.Valid() && n <= |run.events| && Fits(run.cfg, k) && k in run.cfg.paths
    requires EntryNamed(run.cfg, run.states[0].mem, k)
    requires OwnOrBlank(run.cfg, Reloaded(run.states[0].disk, run.cfg.paths[k]), k)
    ensures EntryNamed(run.cfg, run.states[n].mem, k)
    ensures OwnOrBlank(run.cfg, Reloaded(run.states[n].disk, run.cfg.paths[k]), k)
  {
    hide Inv, Step, EntryNamed, OwnOrBlank, Fits;
    if n > 0 {
      NamesSurvive(run, n - 1, k);
      RunKeepsInv(run, n - 1);
      StepKeepsEntryNamed(run.cfg, run.states[n - 1], run.events[n - 1], run.states[n], k);
      StepKeepsFileNamed(run.cfg, run.states[n - 1], run.events[n - 1], run.states[n], k);
    }
  }

  // ---------------------------------------------------------------- the last flush before exit

  /** From the snapshot at b to the end at n the flush runs without a push to k, a failed save of k, a
      crash or another snapshot. Other keys may be pushed to and their saves may fail. */
  ghost predicate CalmFlush(run: Run, b: nat, n: nat, k: string) {
    && run.Shaped() && b + 1 < n <= |run.events|
    && run.events[b].Begin? && run.events[n - 1] == Finish
    && forall i :: b < i < n ==> CalmFor(run.states[i], run.events[i], k)
  }

  predicate CalmFor(s: State, e: Event, k: string) {
    && !Pushes(s.mem, e, k)
    && match e
       case Stage(_, outcome) => AtHead(s, k) ==> outcome == Written
       case Replace(ok, _) => AtHead(s, k) ==> ok
       case Begin(_) => false
       case Crash => false
       case _ => true
  }

  ghost predicate Waiting(s: State, k: string) {
    !s.phase.Idle? && Queues(s.phase.queue, k)
  }

  ghost predicate Queues(q: seq<Snapshot>, k: string) {
    exists i :: 0 <= i < |q| && q[i].key == k
  }

  lemma {:induction false} QueuesTail(q: seq<Snapshot>, k: string)
    requires q != []
    ensures Queues(q, k) <==> q[0].key == k || Queues(q[1..], k)
  {
    if i :| 0 <= i < |q| && q[i].key == k && i > 0 {
      assert q[1..][i - 1].key == k;
    }
    if i :| 0 <= i < |q[1..]| && q[1..][i].key == k {
      assert q[i + 1].key == k;
    }
  }

  /** Within a calm flush the queue loses k only at its clear. */
  lemma {:induction false} CalmQueue(cfg: Config, s: State, e: Event, s': State, k: string)
    requires Inv(cfg, s) && Step(cfg, s, e, s') && CalmFor(s, e, k)
    ensures Waiting(s', k) ==> Waiting(s, k)
    ensures s'.phase.Idle? ==> !Waiting(s, k)
    ensures Waiting(s, k) && !Waiting(s', k) ==> e.Clear? && AtHead(s, k)
  {
    hide Handled, WriteTemp, RenameTemp, ClearState, SnapshotsOf, KeyFor, Queues, Pushes, Config.LaidOut,
         DirtyMatchesKey, TempPath, Queued;
    if !s.phase.Idle? && s.phase.queue != [] {
      HeadResolves(cfg, s);
      QueuesTail(s.phase.queue, k);
    }
    NothingQueued(k);
  }

  lemma {:induction false} NothingQueued(k: string)
    ensures !Queues([], k)
  {
  }

  lemma {:induction false} CalmStep(run: Run, b: nat, n: nat, i: nat, k: string)
    requires run.Valid() && CalmFlush(run, b, n, k) && b < i < n && k in run.states[i].mem
    ensures !Pushes(run.states[i].mem, run.events[i], k) && !run.events[i].Begin? && !run.events[i].Crash?
    ensures Waiting(run.states[i], k) && !Waiting(run.states[i + 1], k) ==> run.Clears(i, k)
    ensures run.states[i + 1].phase.Idle? ==> !Waiting(run.states[i], k)
    ensures Waiting(run.states[i + 1], k) ==> Waiting(run.states[i], k)
  {
    hide Inv, Step, Waiting, Run.Valid;
    ValidIsShaped(run);
    RunKeepsInv(run, i);
    StepBefore(run, i + 1);
    assert CalmFor(run.states[i], run.events[i], k);
    CalmQueue(run.cfg, run.states[i], run.events[i], run.states[i + 1], k);
  }

  lemma {:induction false} BeginQueuesDirty(cfg: Config, s: State, e: Event, s': State, k: string)
    requires Step(cfg, s, e, s') && e.Begin? && k in s.mem && s.mem[k].dirty
    ensures Waiting(s', k)
  {
    assert k in DirtyKeys(s.mem);
    hide Handled, WriteTemp, RenameTemp, ClearState, Restarted, KeyFor;
  }

  /** A dirty entry waits in the queue until it is cleared, and nothing races with it. */
  lemma {:induction false} CalmFlushOfDirty(run: Run, b: nat, n: nat, i: nat, k: string)
    requires run.Valid() && CalmFlush(run, b, n, k) && b < i <= n
    requires k in run.states[b].mem && run.states[b].mem[k].dirty
    ensures k in run.states[i].mem && run.SinceBegin(i, k) == []
    ensures MemList(run.states[i], k) == MemList(run.states[b], k)
    ensures if run.states[i].mem[k].dirty then Waiting(run.states[i], k) else run.Raced(i, k) == []
    decreases i
  {
    hide Inv, Step, Upserted, FileList, Waiting, Accepted;
    var s, e, s' := run.states[i - 1], run.events[i - 1], run.states[i];
    RunKeepsInv(run, i - 1);
    RunKeepsInv(run, b);
    MemoryEffect(run.cfg, s, e, s', k);
    if i == b + 1 {
      BeginQueuesDirty(run.cfg, s, e, s', k);
    } else {
      CalmFlushOfDirty(run, b, n, i - 1, k);
      CalmStep(run, b, n, i - 1, k);
    }
  }

  lemma {:induction false} CalmFlushOfClean(run: Run, b: nat, n: nat, i: nat, k: string)
    requires run.Valid() && CalmFlush(run, b, n, k) && b <= i <= n
    requires k in run.states[b].mem && !run.states[b].mem[k].dirty && k in run.cfg.paths
    ensures k in run.states[i].mem && !run.states[i].mem[k].dirty
    ensures MemList(run.states[i], k) == MemList(run.states[b], k)
    ensures FileList(run.cfg, run.states[i], k) == FileList(run.cfg, run.states[b], k)
    decreases i
  {
    hide Inv, Step, Upserted, FileList, Accepted;
    if b < i {
      var s, e, s' := run.states[i - 1], run.events[i - 1], run.states[i];
      CalmFlushOfClean(run, b, n, i - 1, k);
      RunKeepsInv(run, i - 1);
      MemoryEffect(run.cfg, s, e, s', k);
      FileEffect(run.cfg, s, e, s', k);
      if b < i - 1 {
        CalmStep(run, b, n, i - 1, k);
      }
      if AtHead(s, k) {
        HeadIsDirty(run.cfg, s, k);
      }
    }
  }

  /** The shutdown flush, with no push to k while it runs and no failed save of k, leaves k saved exactly
      when it was dirty, or saved already, when that flush took its snapshots. */
  lemma {:induction false} FinalFlushSavesIff(run: Run, b: nat, n: nat, k: string)
    requires run.Valid() && CalmFlush(run, b, n, k) && k in run.states[b].mem && k in run.cfg.paths
    ensures k in run.states[n].mem && !run.states[n].mem[k].dirty
    ensures MemList(run.states[n], k) == MemList(run.states[b], k)
    ensures MemList(run.states[n], k) == FileList(run.cfg, run.states[n], k)
            <==> run.states[b].mem[k].dirty || MemList(run.states[b], k) == FileList(run.cfg, run.states[b], k)
  {
    hide Inv, Upserted, FileList, Accepted, Handled, WriteTemp, RenameTemp, ClearState, Restarted, SnapshotsOf;
    if run.states[b].mem[k].dirty {
      assert Step(run.cfg, run.states[n - 1], Finish, run.states[n]);
      CalmFlushOfDirty(run, b, n, n, k);
      RunKeepsInv(run, b);
      FlagAlwaysTracks(run, n, k);
      MemoryIsFilePlusUnsaved(run, n, k);
      NothingUpserted(FileList(run.cfg, run.states[n], k));
    } else {
      CalmFlushOfClean(run, b, n, n, k);
    }
  }

  // ---------------------------------------------------------------- the race, exhibited

  const RACE_KEY := KeyFor("A", "M")

  const RACE_CONFIG := Config(map[RACE_KEY := "p"], map[RACE_KEY := ("A", "M")], (s: Snapshot) => Ok("p"))

  lemma {:induction false} RaceConfigIsLaidOut()
    ensures RACE_CONFIG.LaidOut()
  {
  }

  function RaceFile(list: seq<Candle>): CandleFile {
    CandleFile("A", "M", 0, list)
  }

  function RaceMemory(list: seq<Candle>, dirty: bool): StoreState {
    map[RACE_KEY := EntryView(RaceFile(list), dirty)]
  }

  function RacePush(c: Candle): Event {
    Message(Frame(PUSH_KLINE, Some(Push("A", "M", c))))
  }

  /** A clean run in which a push arrives after its entry's snapshot and before the clear. */
  function RacedRun(first: Candle, second: Candle): Run {
    var q := [Snapshot(RACE_KEY, RaceFile([first]))];
    var saved := Whole(RaceFile([first]).(updatedAt := 7));
    Run(RACE_CONFIG,
        [ State(RaceMemory([], false), map[], Idle),
          State(RaceMemory([first], true), map[], Idle),
          State(RaceMemory([first], true), map[], Picking(q)),
          State(RaceMemory([first, second], true), map[], Picking(q)),
          State(RaceMemory([first, second], true), map[TempPath("p") := saved], Staged(q)),
          State(RaceMemory([first, second], true), map["p" := saved], Renamed(q)),
          State(RaceMemory([first, second], false), map["p" := saved], Picking([])),
          State(RaceMemory([first, second], false), map["p" := saved], Idle) ],
        [ RacePush(first), Begin(q), RacePush(second), Stage(7, Written), Replace(true, false), Clear, Finish ])
  }

  lemma {:induction false} RaceStarts(first: Candle, second: Candle)
    requires first.t < second.t
    ensures var run := RacedRun(first, second);
            Inv(run.cfg, run.states[0])
                && MemList(run.states[0], RACE_KEY) == FileList(run.cfg, run.states[0], RACE_KEY)
  {
  }

  lemma {:induction false} RacePushes(first: Candle, second: Candle)
    requires first.t < second.t
    ensures var run := RacedRun(first, second);
            && Step(run.cfg, run.states[0], run.events[0], run.states[1])
            && Step(run.cfg, run.states[2], run.events[2], run.states[3])
  {
    assert Upserted([], first) == [first];
    assert Upserted([first], second) == [first, second];
    hide Upserted, Bisect, SnapshotsOf, Config.LaidOut;
  }

  lemma {:induction false} RaceSnapshot(first: Candle, second: Candle)
    ensures var run := RacedRun(first, second); Step(run.cfg, run.states[1], run.events[1], run.states[2])
  {
    var run := RacedRun(first, second);
    var q := [Snapshot(RACE_KEY, RaceFile([first]))];
    assert SnapshotsOf(q, RaceMemory([first], true)) by {
      assert DirtyKeys(RaceMemory([first], true)) == {RACE_KEY};
      assert q[0].key == RACE_KEY;
    }
  }

  lemma {:induction false} RaceSave(first: Candle, second: Candle)
    ensures var run := RacedRun(first, second);
            && Step(run.cfg, run.states[3], run.events[3], run.states[4])
            && Step(run.cfg, run.states[4], run.events[4], run.states[5])
  {
  }

  lemma {:induction false} RaceClear(first: Candle, second: Candle)
    ensures var run := RacedRun(first, second);
            && Step(run.cfg, run.states[5], run.events[5], run.states[6])
            && Step(run.cfg, run.states[6], run.events[6], run.states[7])
  {
  }

  lemma {:induction false} RacedRunIsValid(first: Candle, second: Candle)
    requires first.t < second.t
    ensures RacedRun(first, second).Valid()
  {
    hide Step, Inv, FileList;
    RaceStarts(first, second);
    var run := RacedRun(first, second);
    forall i | 0 <= i < |run.events| ensures Step(run.cfg, run.states[i], run.events[i], run.states[i + 1]) {
      RaceSteps(first, second, i);
    }
  }

  lemma {:induction false} RaceSteps(first: Candle, second: Candle, i: nat)
    requires first.t < second.t && i < 7
    ensures var run := RacedRun(first, second); Step(run.cfg, run.states[i], run.events[i], run.states[i + 1])
  {
    hide Step;
    if i == 0 || i == 2 {
      RacePushes(first, second);
    } else if i == 1 {
      RaceSnapshot(first, second);
    } else if i <= 4 {
      RaceSave(first, second);
    } else {
      RaceClear(first, second);
    }
  }

  /** Clean does not mean saved: the second candle is in memory, its flag is down, and the file lacks it. */
  lemma {:induction false} RaceLosesThePush(first: Candle, second: Candle)
    requires first.t < second.t
    ensures var run := RacedRun(first, second);
            && run.Valid() && run.states[7].phase.Idle? && !run.states[7].mem[RACE_KEY].dirty
            && MemList(run.states[7], RACE_KEY) == [first, second]
            && FileList(run.cfg, run.states[7], RACE_KEY) == [first]
  {
    RacedRunIsValid(first, second);
    hide Inv, Step;
  }
}
