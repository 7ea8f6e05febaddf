/** The snapshot writer's compare-and-swap gate, shared by fire-and-forget writers and a spinning blocking
    writer, as a step relation over every call in flight. One protocol, two sinks: a file replaced by
    renaming, or a Redis key set in one request. */
module Gate {
  import opened Wrappers

  datatype Sink = FileSink | RedisSink

  datatype Depth = Depth(version: int, body: string)

  datatype Mode = FireAndForget | Blocking

  datatype Outcome = Skipped | Cancelled | Succeeded | Failed | Crashed

  datatype Status =
    | Entering               // about to try the flag
    | Waiting                // blocking, pausing after a failed try
    | Holding                // owns the gate, nothing written yet
    | Filling                // its temporary file is open and incomplete
    | Staged                 // its temporary file is complete
    | Installed              // its snapshot is at the destination
    | Broken                 // its write failed
    | Finished(outcome: Outcome)

  datatype Call = Call(snap: Depth, mode: Mode, status: Status)

  datatype Bytes = Torn | Whole(snap: Depth)

  /** The calls made so far, the flag, and the two places written to; with the order in which calls
      won the gate, and, as ranks in that order, the order in which snapshots reached the destination. */
  datatype State = State(calls: seq<Call>, flag: bool, temp: Option<Bytes>, dest: Option<Bytes>,
                         accepted: seq<nat>, installed: seq<int>)

  datatype Event =
    | Submit(snap: Depth, mode: Mode)
    | Acquire(i: nat) | Miss(i: nat) | Retry(i: nat) | Abandon(i: nat)
    | Fail(i: nat) | Open(i: nat) | Fill(i: nat) | Replace(i: nat, ok: bool, removed: bool)
    | Put(i: nat, landed: bool, ok: bool)
    | Release(i: nat) | Crash

  predicate At(s: State, i: nat, status: Status) {
    i < |s.calls| && s.calls[i].status == status
  }

  predicate Enabled(sink: Sink, s: State, e: Event) {
    match e
    case Submit(_, _) => true
    case Crash => true
    case Acquire(i) => At(s, i, Entering) && !s.flag
    case Miss(i) => At(s, i, Entering) && s.flag
    case Retry(i) => At(s, i, Waiting)
    case Abandon(i) => i < |s.calls| && s.calls[i].status == (if s.calls[i].mode.Blocking? then Waiting else Entering)
    case Fail(i) => At(s, i, Holding) || At(s, i, Filling)
    case Open(i) => sink.FileSink? && At(s, i, Holding)
    case Fill(i) => At(s, i, Filling)
    case Replace(i, ok, removed) => At(s, i, Staged)
    case Put(i, landed, ok) => sink.RedisSink? && At(s, i, Holding) && (ok ==> landed)
    case Release(i) => At(s, i, Installed) || At(s, i, Broken)
  }

  /** The new status of the call an event moves. */
  function Moved(c: Call, e: Event): Status {
    match e
    case Submit(_, _) => Entering
    case Acquire(_) => Holding
    case Miss(_) => if c.mode.Blocking? then Waiting else Finished(Skipped)
    case Retry(_) => Entering
    case Abandon(_) => Finished(Cancelled)
    case Fail(_) => Broken
    case Open(_) => Filling
    case Fill(_) => Staged
    case Replace(_, ok, _) => if ok then Installed else Broken
    case Put(_, _, ok) => if ok then Installed else Broken
    case Release(_) => Finished(if c.status.Installed? then Succeeded else Failed)
    case Crash => Finished(Crashed)
  }

  /** The snapshot reaches the destination in this step. */
  predicate Lands(e: Event) {
    (e.Replace? && e.ok) || (e.Put? && e.landed)
  }

  function Vanish(calls: seq<Call>): seq<Call> {
    seq(|calls|, i requires 0 <= i < |calls| =>
      if calls[i].status.Finished? then calls[i] else calls[i].(status := Finished(Crashed)))
  }

  function NextTemp(s: State, e: Event): Option<Bytes>
    requires e.Fill? ==> e.i < |s.calls|
  {
    if e.Open? then Some(Torn)
    else if e.Fill? then Some(Whole(s.calls[e.i].snap))
    else if e.Replace? && (e.ok || e.removed) then None
    else s.temp
  }

  function NextDest(s: State, e: Event): Option<Bytes>
    requires e.Put? ==> e.i < |s.calls|
  {
    if e.Replace? && e.ok then s.temp else if e.Put? && e.landed then Some(Whole(s.calls[e.i].snap)) else s.dest
  }

  function Next(sink: Sink, s: State, e: Event): State
    requires Enabled(sink, s, e)
  {
    if e.Submit? then s.(calls := s.calls + [Call(e.snap, e.mode, Entering)])
    else if e.Crash? then s.(calls := Vanish(s.calls), flag := false)
    else
      State(
        s.calls[e.i := s.calls[e.i].(status := Moved(s.calls[e.i], e))],
        if e.Acquire? then true else if e.Release? then false else s.flag,
        NextTemp(s, e),
        NextDest(s, e),
        if e.Acquire? then s.accepted + [e.i] else s.accepted,
        if Lands(e) then s.installed + [|s.accepted| - 1] else s.installed)
  }

  /** The state a schedule leads to; None once an event was not possible when it was due. */
  function After(sink: Sink, s0: State, schedule: seq<Event>): Option<State> {
    if schedule == [] then Some(s0)
    else
      match After(sink, s0, schedule[..|schedule| - 1])
      case None => None
      case Some(s) =>
        if Enabled(sink, s, schedule[|schedule| - 1]) then Some(Next(sink, s, schedule[|schedule| - 1])) else None
  }

  /** No call yet, whatever lies at the two places. */
  function Fresh(temp: Option<Bytes>, dest: Option<Bytes>): State {
    State([], false, temp, dest, [], [])
  }

  // ---------------------------------------------------------------- what every step keeps

  predicate Owns(status: Status) {
    status.Holding? || status.Filling? || status.Staged? || status.Installed? || status.Broken?
  }

  predicate Trying(status: Status) {
    status.Entering? || status.Waiting?
  }

  /** The flag is up exactly while one call owns the gate: the last one that won it. */
  ghost predicate OneOwner(s: State) {
    && (s.flag ==> s.accepted != [] && Last(s.accepted) < |s.calls| && Owns(s.calls[Last(s.accepted)].status))
    && (forall i :: 0 <= i < |s.calls| && Owns(s.calls[i].status) ==> s.flag && i == Last(s.accepted))
  }

  function Last<T(0)>(xs: seq<T>): T
    requires xs != []
  {
    xs[|xs| - 1]
  }

  /** Calls win the gate once, and none that won is still trying. */
  ghost predicate WonOnce(s: State) {
    && (forall r :: 0 <= r < |s.accepted| ==> s.accepted[r] < |s.calls| && !Trying(s.calls[s.accepted[r]].status))
    && (forall q, r :: 0 <= q < r < |s.accepted| ==> s.accepted[q] != s.accepted[r])
  }

  /** Snapshots reach the destination in the order in which their calls won the gate. */
  ghost predicate InOrder(s: State) {
    && (forall a :: 0 <= a < |s.installed| ==> 0 <= s.installed[a] < |s.accepted|)
    && (forall a, b :: 0 <= a < b < |s.installed| ==> s.installed[a] < s.installed[b])
  }

  /** The owner's snapshot is among those that reached the destination exactly when its status says so. */
  ghost predicate OwnerPlaced(s: State)
    requires OneOwner(s)
  {
    s.flag ==>
      var status := s.calls[Last(s.accepted)].status;
      && (status.Holding? || status.Filling? || status.Staged? ==> |s.accepted| - 1 !in s.installed)
      && (status.Installed? ==> s.installed != [] && Last(s.installed) == |s.accepted| - 1)
      && (status.Staged? ==> s.temp == Some(Whole(s.calls[Last(s.accepted)].snap)))
  }

  /** The snapshot that reached the destination last, or what was there in the first place. */
  function Shown(s: State, dest0: Option<Bytes>): Option<Bytes>
    requires s.installed != [] ==> 0 <= Last(s.installed) < |s.accepted| && s.accepted[Last(s.installed)] < |s.calls|
  {
    if s.installed == [] then dest0 else Some(Whole(s.calls[s.accepted[Last(s.installed)]].snap))
  }

  ghost predicate Safe(s: State, dest0: Option<Bytes>) {
    OneOwner(s) && WonOnce(s) && InOrder(s) && OwnerPlaced(s) && s.dest == Shown(s, dest0)
  }

  lemma {:induction false} FreshIsSafe(temp: Option<Bytes>, dest: Option<Bytes>)
    ensures Safe(Fresh(temp, dest), dest)
  {
  }

  /** An owner's step is a step of the last call that won the gate. */
  lemma {:induction false} MoverOwns(sink: Sink, s: State, e: Event)
    requires Enabled(sink, s, e) && OneOwner(s)
    requires e.Fail? || e.Open? || e.Fill? || e.Replace? || e.Put? || e.Release?
    ensures s.flag && e.i == Last(s.accepted) && Owns(s.calls[e.i].status)
  {
  }

  lemma {:induction false} StepKeepsOneOwner(sink: Sink, s: State, e: Event)
    requires Enabled(sink, s, e) && OneOwner(s)
    ensures OneOwner(Next(sink, s, e))
  {
  }

  lemma {:induction false} StepKeepsWonOnce(sink: Sink, s: State, e: Event)
    requires Enabled(sink, s, e) && WonOnce(s)
    ensures WonOnce(Next(sink, s, e))
  {
  }

  lemma {:induction false} StepKeepsInOrder(sink: Sink, s: State, e: Event)
    requires Enabled(sink, s, e) && OneOwner(s) && InOrder(s) && OwnerPlaced(s)
    ensures InOrder(Next(sink, s, e))
  {
    hide Moved, NextTemp, NextDest, Vanish;
    if Lands(e) {
      MoverOwns(sink, s, e);
    }
  }

  lemma {:induction false} StepKeepsPlaced(sink: Sink, s: State, e: Event)
    requires Enabled(sink, s, e) && OneOwner(s) && InOrder(s) && OwnerPlaced(s)
    ensures OneOwner(Next(sink, s, e)) && OwnerPlaced(Next(sink, s, e))
  {
    StepKeepsOneOwner(sink, s, e);
    if !e.Submit? && !e.Crash? && !Trying(s.calls[e.i].status) {
      MoverOwns(sink, s, e);
    }
  }

  lemma {:induction false} StepKeepsShown(sink: Sink, s: State, e: Event, dest0: Option<Bytes>)
    requires Enabled(sink, s, e) && Safe(s, dest0)
    ensures WonOnce(Next(sink, s, e)) && InOrder(Next(sink, s, e))
    ensures Next(sink, s, e).dest == Shown(Next(sink, s, e), dest0)
  {
    StepKeepsWonOnce(sink, s, e);
    StepKeepsInOrder(sink, s, e);
    if Lands(e) {
      MoverOwns(sink, s, e);
    }
  }

  lemma {:induction false} StepKeepsSafe(sink: Sink, s: State, e: Event, dest0: Option<Bytes>)
    requires Enabled(sink, s, e) && Safe(s, dest0)
    ensures Safe(Next(sink, s, e), dest0)
  {
    hide OneOwner, WonOnce, InOrder, OwnerPlaced, Shown, Next, Enabled;
    StepKeepsPlaced(sink, s, e);
    StepKeepsShown(sink, s, e, dest0);
  }

  // ---------------------------------------------------------------- whole runs

  lemma {:induction false} RunKeepsSafe(sink: Sink, s: State, schedule: seq<Event>, dest0: Option<Bytes>)
    requires Safe(s, dest0) && After(sink, s, schedule).Some?
    ensures Safe(After(sink, s, schedule).value, dest0)
  {
    hide Safe, Enabled, Next;
    if schedule != [] {
      var n := |schedule| - 1;
      RunKeepsSafe(sink, s, schedule[..n], dest0);
      StepKeepsSafe(sink, After(sink, s, schedule[..n]).value, schedule[n], dest0);
    }
  }

  lemma {:induction false} ScheduleKeepsSafe(sink: Sink, temp: Option<Bytes>, dest: Option<Bytes>, schedule: seq<Event>)
    requires After(sink, Fresh(temp, dest), schedule).Some?
    ensures Safe(After(sink, Fresh(temp, dest), schedule).value, dest)
  {
    hide Safe, After;
    FreshIsSafe(temp, dest);
    RunKeepsSafe(sink, Fresh(temp, dest), schedule, dest);
  }

  /** Neither place is ever touched except by the one call that owns the gate. */
  lemma {:induction false} OnlyTheOwnerWrites(sink: Sink, s: State, e: Event, dest0: Option<Bytes>)
    requires Enabled(sink, s, e) && Safe(s, dest0)
    requires Next(sink, s, e).temp != s.temp || Next(sink, s, e).dest != s.dest
    ensures s.flag && !e.Submit? && !e.Crash? && Owns(s.calls[e.i].status)
    ensures forall j :: 0 <= j < |s.calls| && j != e.i ==> !Owns(s.calls[j].status)
  {
    MoverOwns(sink, s, e);
  }

  /** At every moment, crashes included, the destination holds what was there first or one complete
      submitted snapshot, the one that got there last. */
  lemma {:induction false} DestinationIsWhole(sink: Sink, temp: Option<Bytes>, dest: Option<Bytes>,
                                              schedule: seq<Event>)
    requires After(sink, Fresh(temp, dest), schedule).Some?
    ensures var s := After(sink, Fresh(temp, dest), schedule).value;
            || s.dest == dest
            || exists i :: 0 <= i < |s.calls| && s.dest == Some(Whole(s.calls[i].snap)) && i in s.accepted
  {
    ScheduleKeepsSafe(sink, temp, dest, schedule);
    hide OneOwner, OwnerPlaced, After;
  }

  /** A call that returns success has its own snapshot in place as it gives the gate back. */
  lemma {:induction false} SuccessIsInPlace(sink: Sink, s: State, i: nat, dest0: Option<Bytes>)
    requires Enabled(sink, s, Release(i)) && Safe(s, dest0)
    ensures Next(sink, s, Release(i)).calls[i].status
            == Finished(if s.calls[i].status.Installed? then Succeeded else Failed)
    ensures !Next(sink, s, Release(i)).flag
    ensures s.calls[i].status.Installed? ==> Next(sink, s, Release(i)).dest == Some(Whole(s.calls[i].snap))
  {
    MoverOwns(sink, s, Release(i));
  }

  /** The owner's snapshot is not among those that reached the destination if its write has failed. */
  ghost predicate FailureLeftNothing(s: State)
    requires OneOwner(s)
  {
    s.flag && s.calls[Last(s.accepted)].status.Broken? ==> |s.accepted| - 1 !in s.installed
  }

  lemma {:induction false} FileStepLeavesNothing(s: State, e: Event, dest0: Option<Bytes>)
    requires Enabled(FileSink, s, e) && Safe(s, dest0) && FailureLeftNothing(s)
    ensures OneOwner(Next(FileSink, s, e)) && FailureLeftNothing(Next(FileSink, s, e))
  {
    hide Vanish, NextTemp, NextDest;
    StepKeepsOneOwner(FileSink, s, e);
    if !e.Submit? && !e.Crash? && !Trying(s.calls[e.i].status) {
      MoverOwns(FileSink, s, e);
    }
  }

  lemma {:induction false} FileRunLeavesNothing(temp: Option<Bytes>, dest: Option<Bytes>, schedule: seq<Event>)
    requires After(FileSink, Fresh(temp, dest), schedule).Some?
    ensures var s := After(FileSink, Fresh(temp, dest), schedule).value; OneOwner(s) && FailureLeftNothing(s)
  {
    hide Enabled, Next, OneOwner, WonOnce, InOrder, OwnerPlaced, Shown, FailureLeftNothing;
    ScheduleKeepsSafe(FileSink, temp, dest, schedule);
    if schedule == [] {
      FreshLeftNothing(temp, dest);
    } else {
      var n := |schedule| - 1;
      FileRunLeavesNothing(temp, dest, schedule[..n]);
      ScheduleKeepsSafe(FileSink, temp, dest, schedule[..n]);
      FileStepLeavesNothing(After(FileSink, Fresh(temp, dest), schedule[..n]).value, schedule[n], dest);
    }
  }

  lemma {:induction false} FreshLeftNothing(temp: Option<Bytes>, dest: Option<Bytes>)
    ensures OneOwner(Fresh(temp, dest)) && FailureLeftNothing(Fresh(temp, dest))
  {
  }

  /** With a file behind the gate success means exactly that: a call succeeds if and only if its snapshot is the
      one that reached the destination last. */
  lemma {:induction false} FileSuccessIffLast(temp: Option<Bytes>, dest: Option<Bytes>, schedule: seq<Event>, i: nat)
    requires After(FileSink, Fresh(temp, dest), schedule).Some?
    requires Enabled(FileSink, After(FileSink, Fresh(temp, dest), schedule).value, Release(i))
    ensures var s := After(FileSink, Fresh(temp, dest), schedule).value;
            Next(FileSink, s, Release(i)).calls[i].status == Finished(Succeeded)
            <==> s.installed != [] && s.accepted != [] && Last(s.installed) == |s.accepted| - 1 && Last(s.accepted) == i
  {
    var s := After(FileSink, Fresh(temp, dest), schedule).value;
    ScheduleKeepsSafe(FileSink, temp, dest, schedule);
    FileRunLeavesNothing(temp, dest, schedule);
    hide After, WonOnce, InOrder, Shown;
    MoverOwns(FileSink, s, Release(i));
  }

  /** With Redis it does not: a request that is reported as failed may have reached the server. */
  lemma {:induction false} RedisFailureMayHaveLanded(temp: Option<Bytes>, dest: Option<Bytes>, snap: Depth, mode: Mode)
    ensures var schedule := [Submit(snap, mode), Acquire(0), Put(0, true, false), Release(0)];
            var end := After(RedisSink, Fresh(temp, dest), schedule);
            && end.Some? && end.value.dest == Some(Whole(snap)) && |end.value.calls| == 1
            && end.value.calls[0].status == Finished(Failed)
  {
    hide Vanish, NextTemp;
    var s0 := Fresh(temp, dest);
    var schedule := [Submit(snap, mode), Acquire(0), Put(0, true, false), Release(0)];
    var s1 := Next(RedisSink, s0, schedule[0]);
    AfterFront(RedisSink, s0, schedule);
    AfterFront(RedisSink, s1, schedule[1..]);
    AfterFront(RedisSink, Next(RedisSink, s1, schedule[1]), schedule[2..]);
    AfterFront(RedisSink, Next(RedisSink, Next(RedisSink, s1, schedule[1]), schedule[2]), schedule[3..]);
  }

  // ---------------------------------------------------------------- composing schedules

  lemma {:induction false} AfterOne(sink: Sink, s0: State, schedule: seq<Event>, e: Event)
    requires After(sink, s0, schedule).Some? && Enabled(sink, After(sink, s0, schedule).value, e)
    ensures After(sink, s0, schedule + [e]) == Some(Next(sink, After(sink, s0, schedule).value, e))
  {
    assert (schedule + [e])[..|schedule|] == schedule;
  }

  lemma {:induction false} AfterConcat(sink: Sink, s0: State, xs: seq<Event>, ys: seq<Event>)
    requires After(sink, s0, xs).Some?
    ensures After(sink, s0, xs + ys) == After(sink, After(sink, s0, xs).value, ys)
  {
    hide Enabled, Next;
    if ys == [] {
      assert xs + ys == xs;
    } else {
      var n := |ys| - 1;
      AfterConcat(sink, s0, xs, ys[..n]);
      assert (xs + ys)[..|xs| + n] == xs + ys[..n];
    }
  }

  lemma {:induction false} AfterFront(sink: Sink, s: State, schedule: seq<Event>)
    requires schedule != [] && Enabled(sink, s, schedule[0])
    ensures After(sink, s, schedule) == After(sink, Next(sink, s, schedule[0]), schedule[1..])
  {
    hide Enabled, Next;
    assert schedule[..1][..0] == [];
    AfterConcat(sink, s, schedule[..1], schedule[1..]);
    assert schedule == schedule[..1] + schedule[1..];
  }
}
