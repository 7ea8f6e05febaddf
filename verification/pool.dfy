/** The bounded start-up worker pool as a step relation over all pairs at once. */
module Pool {
  import opened Wrappers
  import opened Candles
  import opened Symbols
  import opened Store
  import opened Files
  import opened Rest
  import opened Bootstrap

  // ---------------------------------------------------------------- the work

  datatype Job = Job(key: string, path: string, wire: string, interval: string)

  datatype Plan = Plan(jobs: seq<Job>, workers: int, src: Source) {
    /** At least one slot, whatever is configured. */
    function Slots(): (n: nat)
      ensures n >= 1
    {
      if workers <= 0 then 1 else workers
    }

    /** Jobs have keys and files of their own, and no file is another job's temporary file. */
    ghost predicate Separate() {
      && (forall i :: 0 <= i < |jobs| ==> jobs[i].key == KeyFor(jobs[i].wire, jobs[i].interval))
      && (forall i, j :: 0 <= i < |jobs| && 0 <= j < |jobs| && i != j ==>
            jobs[i].key != jobs[j].key && jobs[i].path != jobs[j].path)
      && (forall i, j :: 0 <= i < |jobs| && 0 <= j < |jobs| ==> jobs[i].path != TempPath(jobs[j].path))
    }

    /** "Contract does not exist" is a verdict on the symbol: every request for it gets that answer. */
    ghost predicate RefusalIsPerSymbol() {
      forall wire: string, interval: string, start: Option<int>, interval': string, start': Option<int> ::
        src.fetch(wire, interval, start) == Err(ContractNotExist) ==>
            src.fetch(wire, interval', start') == Err(ContractNotExist)
    }
  }

  // ---------------------------------------------------------------- states and steps

  datatype Outcome = Skipped | Missing | Failed | Done(count: nat)

  datatype Worker =
    | Pending                                             // not launched
    | Acquired                                            // holds a slot
    | Admitted                                            // its symbol was not known to be invalid
    | Loaded(existing: CandleFile)                        // its file is in the cache
    | Refused                                             // the exchange does not know the symbol
    | Answered(existing: CandleFile, fetched: seq<Candle>)
    | Opened(existing: CandleFile, fetched: seq<Candle>)  // its temporary file is open and incomplete
    | Staged(merged: CandleFile, count: nat)              // its temporary file holds the merge
    | Stored(merged: CandleFile, count: nat)              // the merge is on disk
    | Finished(outcome: Outcome)                          // about to give the slot back
    | Released(outcome: Outcome)

  datatype State = State(
    workers: seq<Worker>, launched: nat, tokens: nat, invalid: set<string>, loaded: nat,
    cancelled: bool, stopped: bool, mem: StoreState, disk: Disk)

  datatype Event =
    | Launch | Cancel | Stop
    | Check(i: nat) | Load(i: nat) | Fetch(i: nat, interrupted: bool) | Refuse(i: nat)
    | Open(i: nat) | Fill(i: nat, mergedAt: int, savedAt: int) | Replace(i: nat)
    | Publish(i: nat) | Release(i: nat)

  predicate Enabled(plan: Plan, s: State, e: Event) {
    |s.workers| == |plan.jobs| &&
    match e
    case Launch => !s.stopped && s.launched < |plan.jobs| && s.tokens < plan.Slots()
    case Cancel => !s.cancelled
    case Stop => s.cancelled && !s.stopped
    case Check(i) => i < |s.workers| && s.workers[i].Acquired?
    case Load(i) => i < |s.workers| && s.workers[i].Admitted?
    case Fetch(i, interrupted) => i < |s.workers| && s.workers[i].Loaded? && (interrupted ==> s.cancelled)
    case Refuse(i) => i < |s.workers| && s.workers[i].Refused?
    case Open(i) => i < |s.workers| && s.workers[i].Answered?
    case Fill(i, _, _) => i < |s.workers| && s.workers[i].Opened?
    case Replace(i) => i < |s.workers| && s.workers[i].Staged?
    case Publish(i) => i < |s.workers| && s.workers[i].Stored?
    case Release(i) => i < |s.workers| && s.workers[i].Finished? && s.tokens > 0
  }

  /** The worker an event moves, if any. */
  function Mover(s: State, e: Event): int {
    match e
    case Launch => s.launched
    case Cancel => -1
    case Stop => -1
    case Check(i) => i
    case Load(i) => i
    case Fetch(i, _) => i
    case Refuse(i) => i
    case Open(i) => i
    case Fill(i, _, _) => i
    case Replace(i) => i
    case Publish(i) => i
    case Release(i) => i
  }

  /** The worker's next status. */
  function Moved(plan: Plan, s: State, e: Event): Worker
    requires Enabled(plan, s, e) && 0 <= Mover(s, e) < |plan.jobs|
  {
    var job := plan.jobs[Mover(s, e)];
    match e
    case Launch => Acquired
    case Check(i) => if job.wire in s.invalid then Finished(Skipped) else Admitted
    case Load(i) => Loaded(Existing(s.disk, job.path, job.wire, job.interval))
    case Fetch(i, interrupted) =>
      var existing := s.workers[i].existing;
      if interrupted then Finished(Failed)
      else (match CatchUp(plan.src, job.wire, job.interval, existing.candles)
            case Err(e) => if e == ContractNotExist then Refused else Finished(Failed)
            case Ok(fetched) => Answered(existing, fetched))
    case Refuse(i) => Finished(Missing)
    case Open(i) =>
      if plan.src.fault(job.path).DirFault? then Finished(Failed)
          else Opened(s.workers[i].existing, s.workers[i].fetched)
    case Fill(i, mergedAt, savedAt) =>
      var w := s.workers[i];
      if plan.src.fault(job.path).TornFault? then Finished(Failed)
      else Staged(MergedFile(job.wire, job.interval, mergedAt, w.existing, w.fetched), |w.fetched|)
    case Replace(i) =>
      if plan.src.fault(job.path).NoFault? && TempPath(job.path) in s.disk
      then Stored(s.workers[i].merged, s.workers[i].count)
      else Finished(Failed)
    case Publish(i) => Finished(Done(s.workers[i].count))
    case Release(i) => Released(s.workers[i].outcome)
    case Cancel => Pending
    case Stop => Pending
  }

  function CleanEntry(f: CandleFile): EntryView {
    EntryView(f, false)
  }

  function NextMem(plan: Plan, s: State, e: Event): StoreState
    requires Enabled(plan, s, e)
  {
    match e
    case Load(i) =>
      var job := plan.jobs[i];
      s.mem[job.key := CleanEntry(Existing(s.disk, job.path, job.wire, job.interval))]
    case Publish(i) => s.mem[plan.jobs[i].key := CleanEntry(s.workers[i].merged)]
    case _ => s.mem
  }

  function NextDisk(plan: Plan, s: State, e: Event): Disk
    requires Enabled(plan, s, e)
  {
    match e
    case Open(i) =>
      var path := plan.jobs[i].path;
      WriteTemp(s.disk, path, NO_FILE, if plan.src.fault(path).DirFault? then DirFails else Torn)
    case Fill(i, mergedAt, savedAt) =>
      var job, w := plan.jobs[i], s.workers[i];
      WriteTemp(s.disk, job.path, MergedFile(job.wire, job.interval, savedAt, w.existing, w.fetched),
                if plan.src.fault(job.path).TornFault? then Torn else Written)
    case Replace(i) =>
      var path := plan.jobs[i].path;
      var fault := plan.src.fault(path);
      if TempPath(path) in s.disk
      then RenameTemp(s.disk, path, fault.NoFault?, fault.RenameFault? && fault.removed)
      else s.disk
    case _ => s.disk
  }

  function Next(plan: Plan, s: State, e: Event): State
    requires Enabled(plan, s, e)
  {
    var j := Mover(s, e);
    State(
      if 0 <= j < |s.workers| then s.workers[j := Moved(plan, s, e)] else s.workers,
      if e.Launch? then s.launched + 1 else s.launched,
      if e.Launch? then s.tokens + 1 else if e.Release? then s.tokens - 1 else s.tokens,
      if e.Refuse? then s.invalid + {plan.jobs[j].wire} else s.invalid,
      if e.Publish? then s.loaded + s.workers[j].count else s.loaded,
      s.cancelled || e.Cancel?,
      s.stopped || e.Stop?,
      NextMem(plan, s, e),
      NextDisk(plan, s, e))
  }

  function Initial(plan: Plan, mem: StoreState, disk: Disk): State {
    State(seq(|plan.jobs|, _ => Pending), 0, 0, {}, 0, false, false, mem, disk)
  }

  /** The state a schedule leads to; None once an event was not possible when it was due. */
  function After(plan: Plan, s0: State, schedule: seq<Event>): Option<State> {
    if schedule == [] then Some(s0)
    else
      match After(plan, s0, schedule[..|schedule| - 1])
      case None => None
      case Some(s) =>
        if Enabled(plan, s, schedule[|schedule| - 1]) then Some(Next(plan, s, schedule[|schedule| - 1])) else None
  }

  /** Every pair has given its slot back. */
  ghost predicate Complete(plan: Plan, s: State) {
    |s.workers| == |plan.jobs| && forall i :: 0 <= i < |s.workers| ==> s.workers[i].Released?
  }

  // ---------------------------------------------------------------- pool safety

  predicate HoldsSlot(w: Worker) {
    !w.Pending? && !w.Released?
  }

  function Held(ws: seq<Worker>): nat {
    if ws == [] then 0 else Held(ws[..|ws| - 1]) + (if HoldsSlot(ws[|ws| - 1]) then 1 else 0)
  }

  function CountOf(w: Worker): nat {
    if (w.Finished? || w.Released?) && w.outcome.Done? then w.outcome.count else 0
  }

  function Total(ws: seq<Worker>): nat {
    if ws == [] then 0 else Total(ws[..|ws| - 1]) + CountOf(ws[|ws| - 1])
  }

  lemma {:induction false} MoveCounts(ws: seq<Worker>, i: nat, w: Worker)
    requires i < |ws|
    ensures Held(ws[i := w]) == Held(ws) - (if HoldsSlot(ws[i]) then 1 else 0) + (if HoldsSlot(w) then 1 else 0)
    ensures Total(ws[i := w]) == Total(ws) - CountOf(ws[i]) + CountOf(w)
  {
    var n := |ws| - 1;
    if i < n {
      MoveCounts(ws[..n], i, w);
      assert ws[i := w][..n] == ws[..n][i := w];
    } else {
      assert ws[i := w][..n] == ws[..n];
    }
  }

  lemma {:induction false} NothingHeld(n: nat)
    ensures Held(seq(n, _ => Pending)) == 0 && Total(seq(n, _ => Pending)) == 0
  {
    if n > 0 {
      NothingHeld(n - 1);
      assert seq(n, _ => Pending)[..n - 1] == seq(n - 1, _ => Pending);
    }
  }

  /** What the pool keeps: slots are counted exactly and never exceeded, pairs are launched in order,
      the loaded total is that of the successful pairs, and a symbol is marked invalid only by a pair
      that found it missing. */
  ghost predicate Safe(plan: Plan, s: State) {
    && |s.workers| == |plan.jobs| && s.launched <= |plan.jobs|
    && s.tokens == Held(s.workers) && s.tokens <= plan.Slots()
    && s.loaded == Total(s.workers)
    && (forall i :: 0 <= i < |s.workers| ==> (s.workers[i].Pending? <==> i >= s.launched))
    && (forall wire :: wire in s.invalid <==> MarkedBy(plan, s, wire))
    && (forall i :: 0 <= i < |s.workers| && Ended(s.workers[i]) && s.workers[i].outcome.Skipped? ==>
          plan.jobs[i].wire in s.invalid)
    && (s.stopped ==> s.cancelled)
  }

  predicate Ended(w: Worker) {
    w.Finished? || w.Released?
  }

  ghost predicate MarkedBy(plan: Plan, s: State, wire: string)
    requires |s.workers| == |plan.jobs|
  {
    exists j :: 0 <= j < |s.workers| && Ended(s.workers[j]) && s.workers[j].outcome == Missing
        && plan.jobs[j].wire == wire
  }

  lemma {:induction false} InitialIsSafe(plan: Plan, mem: StoreState, disk: Disk)
    ensures Safe(plan, Initial(plan, mem, disk))
  {
    NothingHeld(|plan.jobs|);
  }

  /** How one move changes the mover: it takes the slot at Launch, returns it at Release, adds its
      count at Publish, and an ended pair only ever releases, keeping its outcome. */
  lemma {:induction false} MoverFacts(plan: Plan, s: State, e: Event)
    requires Enabled(plan, s, e) && Safe(plan, s) && !e.Cancel? && !e.Stop?
    ensures 0 <= Mover(s, e) < |s.workers|
    ensures var before, after := s.workers[Mover(s, e)], Moved(plan, s, e);
            && (before.Pending? <==> e.Launch?) && !after.Pending?
            && (HoldsSlot(before) <==> !e.Launch?) && (HoldsSlot(after) <==> !e.Release?)
            && CountOf(after) == CountOf(before) + (if e.Publish? then s.workers[Mover(s, e)].count else 0)
            && (Ended(before) ==> e.Release? && after == Released(before.outcome))
            && (Ended(after) && after.outcome == Skipped && !Ended(before) ==> plan.jobs[Mover(s, e)].wire in s.invalid)
            && (e.Refuse? ==> after == Finished(Missing))
            && (Ended(after) && after.outcome == Missing && !Ended(before) ==> e.Refuse?)
  {
    hide CatchUp, Existing, MergedFile, Held, Total, MarkedBy;
  }

  lemma {:induction false} MarksStay(plan: Plan, s: State, e: Event, wire: string)
    requires Enabled(plan, s, e) && Safe(plan, s)
             && (MarkedBy(plan, s, wire) || (e.Refuse? && wire == plan.jobs[e.i].wire))
    ensures MarkedBy(plan, Next(plan, s, e), wire)
  {
    hide Held, Total, CatchUp, Existing, MergedFile, NextMem, NextDisk, Moved;
    var s' := Next(plan, s, e);
    if !e.Cancel? && !e.Stop? {
      MoverFacts(plan, s, e);
    }
    if e.Refuse? && wire == plan.jobs[e.i].wire {
      assert Ended(s'.workers[e.i]) && s'.workers[e.i].outcome == Missing;
    } else {
      var j :| 0 <= j < |s.workers| && Ended(s.workers[j]) && s.workers[j].outcome == Missing
          && plan.jobs[j].wire == wire;
      assert Ended(s'.workers[j]) && s'.workers[j].outcome == Missing;
    }
  }

  /** Nobody but a refused pair adds a mark. */
  lemma {:induction false} MarksAreOld(plan: Plan, s: State, e: Event, wire: string)
    requires Enabled(plan, s, e) && Safe(plan, s) && MarkedBy(plan, Next(plan, s, e), wire)
    ensures MarkedBy(plan, s, wire) || (e.Refuse? && wire == plan.jobs[e.i].wire)
  {
    hide Held, Total, CatchUp, Existing, MergedFile, NextMem, NextDisk, Moved;
    var s' := Next(plan, s, e);
    if !e.Cancel? && !e.Stop? {
      MoverFacts(plan, s, e);
    }
    var j :| 0 <= j < |s'.workers| && Ended(s'.workers[j]) && s'.workers[j].outcome == Missing
        && plan.jobs[j].wire == wire;
    if s.workers[j] == s'.workers[j] || Ended(s.workers[j]) {
      assert Ended(s.workers[j]) && s.workers[j].outcome == Missing;
    }
  }

  lemma {:induction false} StepKeepsMarks(plan: Plan, s: State, e: Event)
    requires Safe(plan, s) && Enabled(plan, s, e)
    ensures |Next(plan, s, e).workers| == |plan.jobs|
    ensures forall wire :: wire in Next(plan, s, e).invalid <==> MarkedBy(plan, Next(plan, s, e), wire)
  {
    hide Held, Total, CatchUp, Existing, MergedFile, NextMem, NextDisk, Moved, MarkedBy, HoldsSlot, CountOf;
    var s' := Next(plan, s, e);
    forall wire ensures wire in s'.invalid <==> MarkedBy(plan, s', wire) {
      if wire in s'.invalid {
        MarksStay(plan, s, e, wire);
      }
      if MarkedBy(plan, s', wire) {
        MarksAreOld(plan, s, e, wire);
      }
    }
  }

  /** Every step keeps the pool safe. */
  lemma {:induction false} StepKeepsSafe(plan: Plan, s: State, e: Event)
    requires Safe(plan, s) && Enabled(plan, s, e)
    ensures Safe(plan, Next(plan, s, e))
  {
    StepKeepsMarks(plan, s, e);
    hide Held, Total, CatchUp, Existing, MergedFile, NextMem, NextDisk, Moved, MarkedBy, HoldsSlot, CountOf;
    if !e.Cancel? && !e.Stop? {
      MoverFacts(plan, s, e);
      MoveCounts(s.workers, Mover(s, e), Moved(plan, s, e));
    }
  }

  lemma {:induction false} ScheduleKeepsSafe(plan: Plan, mem: StoreState, disk: Disk, schedule: seq<Event>)
    requires After(plan, Initial(plan, mem, disk), schedule).Some?
    ensures Safe(plan, After(plan, Initial(plan, mem, disk), schedule).value)
  {
    hide Next, Enabled, Safe;
    if schedule == [] {
      InitialIsSafe(plan, mem, disk);
    } else {
      var n := |schedule| - 1;
      ScheduleKeepsSafe(plan, mem, disk, schedule[..n]);
      StepKeepsSafe(plan, After(plan, Initial(plan, mem, disk), schedule[..n]).value, schedule[n]);
    }
  }

  lemma {:induction false} HeldIsCount(ws: seq<Worker>)
    ensures Held(ws) == |set i | 0 <= i < |ws| && !ws[i].Pending? && !ws[i].Released?|
  {
    var all := set i | 0 <= i < |ws| && !ws[i].Pending? && !ws[i].Released?;
    if ws == [] {
      assert all == {};
    } else {
      var n := |ws| - 1;
      HeldIsCount(ws[..n]);
      var front := set i | 0 <= i < |ws[..n]| && !ws[..n][i].Pending? && !ws[..n][i].Released?;
      assert all == if HoldsSlot(ws[n]) then front + {n} else front;
    }
  }

  /** At every moment of every schedule at most the configured number of pairs is running, and one if
      none is configured; a pair more can be launched exactly while fewer are. */
  lemma {:induction false} RunningNeverExceedsWorkers(plan: Plan, mem: StoreState, disk: Disk, schedule: seq<Event>)
    requires After(plan, Initial(plan, mem, disk), schedule).Some?
    ensures var s := After(plan, Initial(plan, mem, disk), schedule).value;
            var running := |set i | 0 <= i < |s.workers| && !s.workers[i].Pending? && !s.workers[i].Released?|;
            && s.tokens == running
            && (plan.workers >= 1 ==> running <= plan.workers)
            && (plan.workers < 1 ==> running <= 1)
            && (Enabled(plan, s, Launch)
                <==> !s.stopped && s.launched < |plan.jobs|
                     && running < (if plan.workers >= 1 then plan.workers else 1))
  {
    ScheduleKeepsSafe(plan, mem, disk, schedule);
    hide After, MarkedBy, Total, Held;
    HeldIsCount(After(plan, Initial(plan, mem, disk), schedule).value.workers);
  }

  /** A pair is skipped exactly when some pair of its symbol has ended because the exchange does not
      know it; no pair is skipped for any other reason. */
  lemma {:induction false} SkippedIffFoundMissing(plan: Plan, mem: StoreState, disk: Disk, schedule: seq<Event>, i: nat)
    requires After(plan, Initial(plan, mem, disk), schedule).Some?
    ensures var s := After(plan, Initial(plan, mem, disk), schedule).value;
            Enabled(plan, s, Check(i)) ==>
              (Next(plan, s, Check(i)).workers[i] == Finished(Skipped)
               <==> exists j ::
                      0 <= j < |s.workers| && plan.jobs[j].wire == plan.jobs[i].wire
                      && s.workers[j] in {Finished(Missing), Released(Missing)})
              && Next(plan, s, Check(i)).workers[i] in {Finished(Skipped), Admitted}
  {
    ScheduleKeepsSafe(plan, mem, disk, schedule);
    hide After, Total, Held, NextMem, NextDisk;
    var s := After(plan, Initial(plan, mem, disk), schedule).value;
    if Enabled(plan, s, Check(i)) {
      var wire := plan.jobs[i].wire;
      assert wire in s.invalid <==> MarkedBy(plan, s, wire);
    }
  }

  // ---------------------------------------------------------------- the pool always finishes

  lemma {:induction false} SomeoneHolds(ws: seq<Worker>)
    ensures Held(ws) > 0 <==> exists i :: 0 <= i < |ws| && HoldsSlot(ws[i])
  {
    if ws != [] {
      var n := |ws| - 1;
      SomeoneHolds(ws[..n]);
      if Held(ws[..n]) > 0 {
        var i :| 0 <= i < n && HoldsSlot(ws[..n][i]);
        assert HoldsSlot(ws[i]);
      } else if HoldsSlot(ws[n]) {
      } else {
        assert forall i :: 0 <= i < n ==> ws[i] == ws[..n][i];
      }
    }
  }

  /** An uncancelled pool that is not finished can always move, without waiting for a cancellation. */
  lemma {:induction false} PoolNeverStuck(plan: Plan, s: State) returns (e: Event)
    requires Safe(plan, s) && !s.stopped && !Complete(plan, s)
    ensures Enabled(plan, s, e) && !e.Cancel? && !e.Stop?
  {
    hide MarkedBy, Total, Held;
    SomeoneHolds(s.workers);
    if i :| 0 <= i < |s.workers| && HoldsSlot(s.workers[i]) {
      match s.workers[i]
      case Acquired => e := Check(i);
      case Admitted => e := Load(i);
      case Loaded(_) => e := Fetch(i, false);
      case Refused => e := Refuse(i);
      case Answered(_, _) => e := Open(i);
      case Opened(_, _) => e := Fill(i, 0, 0);
      case Staged(_, _) => e := Replace(i);
      case Stored(_, _) => e := Publish(i);
      case Finished(_) => e := Release(i);
    } else {
      e := Launch;
    }
  }

  function Rank(w: Worker): nat {
    match w
    case Pending => 0
    case Acquired => 1
    case Admitted => 2
    case Loaded(_) => 3
    case Refused => 4
    case Answered(_, _) => 4
    case Opened(_, _) => 5
    case Staged(_, _) => 6
    case Stored(_, _) => 7
    case Finished(_) => 8
    case Released(_) => 9
  }

  function Ranks(ws: seq<Worker>): (r: nat)
    ensures r <= 9 * |ws|
  {
    if ws == [] then 0 else Ranks(ws[..|ws| - 1]) + Rank(ws[|ws| - 1])
  }

  lemma {:induction false} MoveRanks(ws: seq<Worker>, i: nat, w: Worker)
    requires i < |ws|
    ensures Ranks(ws[i := w]) == Ranks(ws) - Rank(ws[i]) + Rank(w)
  {
    var n := |ws| - 1;
    if i < n {
      MoveRanks(ws[..n], i, w);
      assert ws[i := w][..n] == ws[..n][i := w];
    } else {
      assert ws[i := w][..n] == ws[..n];
    }
  }

  lemma {:induction false} MoveRises(plan: Plan, s: State, e: Event)
    requires Enabled(plan, s, e) && Safe(plan, s) && !e.Cancel? && !e.Stop?
    ensures 0 <= Mover(s, e) < |s.workers| && Rank(Moved(plan, s, e)) > Rank(s.workers[Mover(s, e)])
  {
    hide CatchUp, Existing, MergedFile, Held, Total, MarkedBy;
  }

  lemma {:induction false} NothingRanked(n: nat)
    ensures Ranks(seq(n, _ => Pending)) == 0
  {
    if n > 0 {
      NothingRanked(n - 1);
      assert seq(n, _ => Pending)[..n - 1] == seq(n - 1, _ => Pending);
    }
  }

  /** Schedules are bounded: nine moves a pair, one cancellation, one stop. */
  lemma {:induction false} SchedulesAreBounded(plan: Plan, mem: StoreState, disk: Disk, schedule: seq<Event>)
    requires After(plan, Initial(plan, mem, disk), schedule).Some?
    ensures var s := After(plan, Initial(plan, mem, disk), schedule).value;
            && |s.workers| == |plan.jobs|
            && |schedule| <= Ranks(s.workers) + (if s.cancelled then 1 else 0) + (if s.stopped then 1 else 0)
            && |schedule| <= 9 * |plan.jobs| + 2
  {
    ScheduleKeepsSafe(plan, mem, disk, schedule);
    hide Safe, NextMem, NextDisk, Moved, Ranks;
    if schedule == [] {
      NothingRanked(|plan.jobs|);
    } else {
      var n := |schedule| - 1;
      SchedulesAreBounded(plan, mem, disk, schedule[..n]);
      ScheduleKeepsSafe(plan, mem, disk, schedule[..n]);
      var s, e := After(plan, Initial(plan, mem, disk), schedule[..n]).value, schedule[n];
      if !e.Cancel? && !e.Stop? {
        MoveRises(plan, s, e);
        MoveRanks(s.workers, Mover(s, e), Moved(plan, s, e));
      }
    }
    assert Ranks(After(plan, Initial(plan, mem, disk), schedule).value.workers) <= 9 * |plan.jobs|;
  }

  /** A finished pool has every slot back: nothing is held when start-up returns. */
  lemma {:induction false} CompleteReturnsEverySlot(plan: Plan, s: State)
    requires Safe(plan, s)
    ensures s.tokens == 0 <==> forall i :: 0 <= i < |s.workers| ==> s.workers[i].Pending? || s.workers[i].Released?
    ensures Complete(plan, s) ==> s.tokens == 0
  {
    hide MarkedBy, Total, Held;
    SomeoneHolds(s.workers);
  }
}
