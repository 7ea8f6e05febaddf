/** Start-up cut short: cancellations and crashes at any step of any schedule of the worker pool. */
module Interrupted {
  import opened Wrappers
  import opened Candles
  import opened Symbols
  import opened Store
  import opened Files
  import opened Rest
  import opened Bootstrap
  import opened Pool
  import opened Confluence

  /** The file of pair i is the one start-up found, or that file merged with everything fetched. */
  ghost predicate FileIntact(plan: Plan, disk0: Disk, s: State, i: nat)
    requires i < |plan.jobs|
  {
    FileAsBefore(plan, disk0, s, i) || FileMerged(plan, disk0, s, i)
  }

  /** Up to its save a pair works on the file it found, whatever happens to the context. */
  ghost predicate Midway(plan: Plan, disk0: Disk, s: State, i: nat)
    requires i < |plan.jobs| == |s.workers|
  {
    match s.workers[i]
    case Loaded(existing) => existing == Own(plan, disk0, i) && FileAsBefore(plan, disk0, s, i)
    case Answered(existing, fetched) =>
      existing == Own(plan, disk0, i) && Gain(plan, disk0, i) == Ok(fetched) && FileAsBefore(plan, disk0, s, i)
    case Opened(existing, fetched) =>
      existing == Own(plan, disk0, i) && Gain(plan, disk0, i) == Ok(fetched) && FileAsBefore(plan, disk0, s, i)
    case Staged(_, _) => TempMerged(plan, disk0, s, i) && FileAsBefore(plan, disk0, s, i)
    case Stored(_, _) => FileIntact(plan, disk0, s, i)
    case Finished(_) => FileIntact(plan, disk0, s, i)
    case Released(_) => FileIntact(plan, disk0, s, i)
    case _ => FileAsBefore(plan, disk0, s, i)
  }

  ghost predicate AllMidway(plan: Plan, disk0: Disk, s: State) {
    |s.workers| == |plan.jobs| && forall i :: 0 <= i < |plan.jobs| ==> Midway(plan, disk0, s, i)
  }

  lemma {:induction false} SameDiskSameFacts(plan: Plan, disk0: Disk, s: State, s': State, i: nat)
    requires i < |plan.jobs| == |s.workers| == |s'.workers| && s'.workers[i] == s.workers[i]
             && Midway(plan, disk0, s, i)
    requires LoadFile(s'.disk, plan.jobs[i].path) == LoadFile(s.disk, plan.jobs[i].path)
    requires SameAt(s.disk, s'.disk, TempPath(plan.jobs[i].path))
    ensures Midway(plan, disk0, s', i)
  {
    hide LoadFile, Own, Gain, Goal, Merges, Unstamped, TempPath;
  }

  lemma {:induction false} SaveKeepsMidway(plan: Plan, disk0: Disk, s: State, e: Event, i: nat)
    requires Enabled(plan, s, e) && i == Mover(s, e) && i < |s.workers| && Midway(plan, disk0, s, i)
    requires e.Open? || e.Fill? || e.Replace?
    ensures Midway(plan, disk0, Next(plan, s, e), i)
  {
    hide KeyFor, Existing, CatchUp, NextMem;
    TempIsAnother(plan.jobs[i].path);
    hide TempPath;
  }

  lemma {:induction false} OtherMovesKeepMidway(plan: Plan, disk0: Disk, s: State, e: Event, i: nat)
    requires Enabled(plan, s, e) && i == Mover(s, e) && i < |s.workers| && Midway(plan, disk0, s, i)
    requires !e.Open? && !e.Fill? && !e.Replace? && (e.Launch? ==> s.workers[i].Pending?)
    ensures Midway(plan, disk0, Next(plan, s, e), i)
  {
    hide LoadFile, KeyFor, CatchUp, Goal, Merges, NextMem, TempPath;
  }

  lemma {:induction false} StepKeepsMidway(plan: Plan, disk0: Disk, s: State, e: Event)
    requires plan.Separate() && Safe(plan, s) && Enabled(plan, s, e) && AllMidway(plan, disk0, s)
    ensures AllMidway(plan, disk0, Next(plan, s, e))
  {
    hide Moved, NextMem, NextDisk, Midway, Held, Total, MarkedBy, LoadFile, SameAt;
    forall i | 0 <= i < |plan.jobs| ensures Midway(plan, disk0, Next(plan, s, e), i) {
      if i != Mover(s, e) {
        OtherFilesStay(plan, s, e, i);
        SameDiskSameFacts(plan, disk0, s, Next(plan, s, e), i);
      } else if e.Open? || e.Fill? || e.Replace? {
        SaveKeepsMidway(plan, disk0, s, e, i);
      } else {
        OtherMovesKeepMidway(plan, disk0, s, e, i);
      }
    }
  }

  lemma {:induction false} ScheduleKeepsMidway(plan: Plan, mem: StoreState, disk: Disk, schedule: seq<Event>)
    requires plan.Separate() && After(plan, Initial(plan, mem, disk), schedule).Some?
    ensures AllMidway(plan, disk, After(plan, Initial(plan, mem, disk), schedule).value)
  {
    hide Enabled, Safe, Next, LoadFile;
    if schedule == [] {
    } else {
      hide AllMidway;
      var n := |schedule| - 1;
      ScheduleKeepsMidway(plan, mem, disk, schedule[..n]);
      ScheduleKeepsSafe(plan, mem, disk, schedule[..n]);
      StepKeepsMidway(plan, disk, After(plan, Initial(plan, mem, disk), schedule[..n]).value, schedule[n]);
    }
  }

  /** Stop start-up wherever you like, by a crash or by cancelling it, with temporary files open, half written
      or about to be renamed: every data file is the one it found or the complete merge, never anything in
      between. */
  lemma {:induction false} FilesSurviveAnyStop(plan: Plan, mem: StoreState, disk: Disk, schedule: seq<Event>, i: nat)
    requires plan.Separate() && i < |plan.jobs| && After(plan, Initial(plan, mem, disk), schedule).Some?
    ensures FileIntact(plan, disk, After(plan, Initial(plan, mem, disk), schedule).value, i)
  {
    hide Own, Gain, Goal, Merges, Unstamped, LoadFile, After;
    ScheduleKeepsMidway(plan, mem, disk, schedule);
    assert Midway(plan, disk, After(plan, Initial(plan, mem, disk), schedule).value, i);
  }

  // ---------------------------------------------------------------- starting again

  /** The exchange answers requests for this pair from one history. */
  ghost predicate Honest(src: Source, wire: string, interval: string, history: seq<Candle>) {
    forall start: Option<int> :: src.fetch(wire, interval, start) == Ok(Answer(history, start))
  }

  /** Cache and file show the history, in open times and REST fields, and the entry is clean. */
  ghost predicate Shows(mem: StoreState, disk: Disk, job: Job, history: seq<Candle>) {
    && job.key in mem && !mem[job.key].dirty && ProjectAll(mem[job.key].file.candles) == history
    && LoadFile(disk, job.path).Ok? && ProjectAll(LoadFile(disk, job.path).value.candles) == history
  }

  lemma {:induction false} MergingPairIsDone(plan: Plan, disk0: Disk, s: State, i: nat)
    requires i < |plan.jobs| == |s.workers| && Local(plan, disk0, s, i) && s.workers[i].Released?
             && Merges(plan, disk0, i)
    ensures var job, merged := plan.jobs[i], Merged(Own(plan, disk0, i).candles, Gain(plan, disk0, i).value);
            && job.key in s.mem && !s.mem[job.key].dirty && s.mem[job.key].file.candles == merged
            && LoadFile(s.disk, job.path).Ok? && LoadFile(s.disk, job.path).value.candles == merged
  {
    hide Merged, CatchUp, LoadFile, TempPath;
  }

  /** After any complete start-up whose save of the pair succeeds, cache and file show exactly the exchange's
      history if and only if the fetch reached the file's last candle, or missed only that one and it was
      current. */
  lemma {:induction false} StartUpRecoversIff(plan: Plan, mem: StoreState, disk: Disk, schedule: seq<Event>, s: State,
                                              i: nat, history: seq<Candle>)
    requires plan.Separate() && plan.RefusalIsPerSymbol() && Preloaded(plan, mem, disk) && i < |plan.jobs|
    requires EndsAt(plan, mem, disk, schedule, s) && plan.src.fault(plan.jobs[i].path).NoFault?
    requires Honest(plan.src, plan.jobs[i].wire, plan.jobs[i].interval, history)
    requires Behind(Own(plan, disk, i).candles, history)
    ensures var own := Own(plan, disk, i).candles;
            var f := FirstFetched(own, history, plan.src.limit);
            Shows(s.mem, s.disk, plan.jobs[i], history)
            <==> f < |own| || (f == |own| && Project(own[|own| - 1]) == history[|own| - 1])
  {
    hide Plan.Separate, Plan.RefusalIsPerSymbol, Preloaded, After, Initial, Own, Local, Honest, Behind, ComputeStart,
         FirstFetched, Merged, LoadFile, Fetched;
    var job, own := plan.jobs[i], Own(plan, disk, i).candles;
    FetchesFrom(plan.src, job.wire, job.interval, own, history);
    ScheduleKeepsLocal(plan, mem, disk, schedule);
    MergingPairIsDone(plan, disk, s, i);
    CatchUpRecoversIff(own, history, job.interval, plan.src.limit, plan.src.now);
  }

  /** At least two candles in the file and no more than limit to fetch. */
  predicate WithinReach(list: seq<Candle>, history: seq<Candle>, limit: int) {
    |list| >= 2 && (limit <= 0 || |history| - (|list| - 1) <= limit)
  }

  lemma {:induction false} WithinReachIsFetched(list: seq<Candle>, history: seq<Candle>, limit: int)
    requires Behind(list, history) && WithinReach(list, history, limit)
    ensures FirstFetched(list, history, limit) < |list|
  {
  }

  /** Wherever a first start-up was cut short, a complete one after it leaves cache and file showing the
      exchange's history. */
  lemma {:induction false} StartingAgainRecovers(plan: Plan, mem: StoreState, disk: Disk, schedule: seq<Event>, i: nat,
                                                 again: Plan, mem': StoreState, schedule': seq<Event>, t: State,
                                                 history: seq<Candle>)
    requires plan.Separate() && i < |plan.jobs| && After(plan, Initial(plan, mem, disk), schedule).Some?
    requires Honest(plan.src, plan.jobs[i].wire, plan.jobs[i].interval, history)
    requires Behind(Own(plan, disk, i).candles, history)
    requires WithinReach(Own(plan, disk, i).candles, history, plan.src.limit)
    requires again.jobs == plan.jobs && again.src.limit == plan.src.limit && again.RefusalIsPerSymbol()
    requires Honest(again.src, plan.jobs[i].wire, plan.jobs[i].interval, history)
    requires again.src.fault(plan.jobs[i].path).NoFault?
    requires var left := After(plan, Initial(plan, mem, disk), schedule).value.disk;
             Preloaded(again, mem', left) && EndsAt(again, mem', left, schedule', t)
    ensures Shows(t.mem, t.disk, plan.jobs[i], history)
  {
    var left := After(plan, Initial(plan, mem, disk), schedule).value.disk;
    CutShortIsBehind(plan, mem, disk, schedule, i, history);
    assert again.Separate();
    assert Own(again, left, i) == Existing(left, plan.jobs[i].path, plan.jobs[i].wire, plan.jobs[i].interval);
    hide *;
    WithinReachIsFetched(Own(again, left, i).candles, history, again.src.limit);
    StartUpRecoversIff(again, mem', left, schedule', t, i, history);
  }

  /** A start-up cut short leaves a file that is behind the same history, and no less within reach. */
  lemma {:induction false} CutShortIsBehind(plan: Plan, mem: StoreState, disk: Disk, schedule: seq<Event>, i: nat,
                                            history: seq<Candle>)
    requires plan.Separate() && i < |plan.jobs| && After(plan, Initial(plan, mem, disk), schedule).Some?
    requires Honest(plan.src, plan.jobs[i].wire, plan.jobs[i].interval, history)
    requires Behind(Own(plan, disk, i).candles, history)
    requires WithinReach(Own(plan, disk, i).candles, history, plan.src.limit)
    ensures var left := After(plan, Initial(plan, mem, disk), schedule).value.disk;
            var list := Existing(left, plan.jobs[i].path, plan.jobs[i].wire, plan.jobs[i].interval).candles;
            Behind(list, history) && WithinReach(list, history, plan.src.limit)
  {
    hide After, Initial, Merged, Plan.Separate, LoadFile, ComputeStart, Answer, Honest, FirstFetched, Existing;
    var job, s := plan.jobs[i], After(plan, Initial(plan, mem, disk), schedule).value;
    var own := Own(plan, disk, i).candles;
    FilesSurviveAnyStop(plan, mem, disk, schedule, i);
    var list := Existing(s.disk, job.path, job.wire, job.interval).candles;
    IntactList(plan, disk, s, i);
    if list != own {
      FetchesFrom(plan.src, job.wire, job.interval, own, history);
      WithinReachIsFetched(own, history, plan.src.limit);
      CatchUpRecoversIff(own, history, job.interval, plan.src.limit, plan.src.now);
      CaughtUpIsBehind(list, history);
    }
  }

  lemma {:induction false} IntactList(plan: Plan, disk0: Disk, s: State, i: nat)
    requires i < |plan.jobs| && FileIntact(plan, disk0, s, i)
    ensures var list := Existing(s.disk, plan.jobs[i].path, plan.jobs[i].wire, plan.jobs[i].interval).candles;
            list == Own(plan, disk0, i).candles
            || (Gain(plan, disk0, i).Ok? && list == Merged(Own(plan, disk0, i).candles, Gain(plan, disk0, i).value))
  {
    hide CatchUp, LoadFile;
  }

  lemma {:induction false} FetchesFrom(src: Source, wire: string, interval: string, list: seq<Candle>,
                                       history: seq<Candle>)
    requires Honest(src, wire, interval, history) && Behind(list, history)
    ensures ComputeStart(list, interval, src.limit, src.now).Ok?
    ensures CatchUp(src, wire, interval, list)
            == Ok(Fetched(history, ComputeStart(list, interval, src.limit, src.now).value, src.limit))
  {
    hide Answer, TrimNewest;
  }

  lemma {:induction false} CaughtUpIsBehind(list: seq<Candle>, history: seq<Candle>)
    requires ProjectAll(list) == history && history != [] && Ascending(history)
    ensures Behind(list, history)
  {
    forall i | 0 <= i < |list| ensures Project(list[i]) == history[i] && list[i].t == history[i].t {
      assert ProjectAll(list)[i] == history[i];
    }
  }
}
