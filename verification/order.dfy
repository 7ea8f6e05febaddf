/** In which order snapshots can reach the destination: exactly when no course of events takes it back to an
    older one. */
module Order {
  import opened Wrappers
  import opened Gate

  // ---------------------------------------------------------------- the guard

  /** The call's snapshot may still reach the destination. */
  predicate MayLand(status: Status) {
    Trying(status) || status.Holding? || status.Filling? || status.Staged?
  }

  predicate Older(a: Option<Bytes>, b: Option<Bytes>) {
    a.Some? && a.value.Whole? && b.Some? && b.value.Whole? && a.value.snap.version < b.value.snap.version
  }

  /** Nothing that may still land is older than what is shown, and nothing that is still trying is older than
      anything else that may land. */
  ghost predicate Ordered(s: State) {
    && (forall i :: 0 <= i < |s.calls| && MayLand(s.calls[i].status) ==> !Older(Some(Whole(s.calls[i].snap)), s.dest))
    && (forall i, j ::
          0 <= i < |s.calls| && 0 <= j < |s.calls| && Trying(s.calls[i].status) && MayLand(s.calls[j].status) ==>
          s.calls[i].snap.version >= s.calls[j].snap.version)
  }

  /** What a caller can check before it submits: the snapshot is no older than anything shown or pending, and
      no newer than anything still trying. */
  lemma {:induction false} SubmitKeepsOrderedIff(sink: Sink, s: State, snap: Depth, mode: Mode)
    ensures Ordered(Next(sink, s, Submit(snap, mode))) <==>
            && Ordered(s) && !Older(Some(Whole(snap)), s.dest)
            && forall j :: 0 <= j < |s.calls| && MayLand(s.calls[j].status) ==>
                 && s.calls[j].snap.version <= snap.version
                 && (Trying(s.calls[j].status) ==> s.calls[j].snap.version == snap.version)
  {
    var t := Next(sink, s, Submit(snap, mode));
    assert t.calls[|s.calls|] == Call(snap, mode, Entering);
    assert forall j :: 0 <= j < |s.calls| ==> t.calls[j] == s.calls[j];
    hide Older, MayLand;
    NewIsTrying();
  }

  lemma {:induction false} NewIsTrying()
    ensures Trying(Entering) && MayLand(Entering)
  {
  }

  predicate Quiet(schedule: seq<Event>) {
    forall k :: 0 <= k < |schedule| ==> !schedule[k].Submit?
  }

  /** After m of the events the destination shows a newer snapshot than at their end. */
  ghost predicate TakesBack(sink: Sink, s: State, schedule: seq<Event>, m: nat) {
    && m <= |schedule| && After(sink, s, schedule[..m]).Some? && After(sink, s, schedule).Some?
    && Older(After(sink, s, schedule).value.dest, After(sink, s, schedule[..m]).value.dest)
  }

  /** Whatever the calls made so far go on to do, the destination is never taken back. */
  ghost predicate NeverGoesBack(sink: Sink, s: State) {
    forall schedule, m: nat :: Quiet(schedule) ==> !TakesBack(sink, s, schedule, m)
  }

  // ---------------------------------------------------------------- the guard suffices

  /** If a holds a snapshot, b holds one that is no older. */
  predicate NoOlder(a: Option<Bytes>, b: Option<Bytes>) {
    a.Some? && a.value.Whole? ==> b.Some? && b.value.Whole? && a.value.snap.version <= b.value.snap.version
  }

  /** What a landing step puts in place is its own call's snapshot. */
  lemma {:induction false} LandingShowsOwn(sink: Sink, s: State, e: Event, dest0: Option<Bytes>)
    requires Enabled(sink, s, e) && Safe(s, dest0)
    ensures if Lands(e) then MayLand(s.calls[e.i].status) && !Trying(s.calls[e.i].status)
                             && Next(sink, s, e).dest == Some(Whole(s.calls[e.i].snap))
            else Next(sink, s, e).dest == s.dest
  {
    if Lands(e) {
      MoverOwns(sink, s, e);
    }
  }

  lemma {:induction false} StepKeepsOrdered(sink: Sink, s: State, e: Event, dest0: Option<Bytes>)
    requires Enabled(sink, s, e) && !e.Submit? && Safe(s, dest0) && Ordered(s)
    ensures Ordered(Next(sink, s, e)) && NoOlder(s.dest, Next(sink, s, e).dest)
  {
    LandingShowsOwn(sink, s, e, dest0);
    MovesForward(sink, s, e, dest0);
    hide Safe, Enabled, Next;
  }

  /** Without new calls, nothing starts to try or to be pending, and a landing ends its own call's chance. */
  lemma {:induction false} MovesForward(sink: Sink, s: State, e: Event, dest0: Option<Bytes>)
    requires Enabled(sink, s, e) && !e.Submit? && Safe(s, dest0)
    ensures var t := Next(sink, s, e);
            && |t.calls| == |s.calls|
            && forall i :: 0 <= i < |s.calls| ==>
                 && t.calls[i].snap == s.calls[i].snap
                 && (Trying(t.calls[i].status) ==> Trying(s.calls[i].status))
                 && (MayLand(t.calls[i].status) ==> MayLand(s.calls[i].status))
                 && (Lands(e) && MayLand(t.calls[i].status) ==> Trying(s.calls[i].status))
  {
    hide NextTemp, NextDest, WonOnce, InOrder, OwnerPlaced, Shown;
    if Lands(e) {
      MoverOwns(sink, s, e);
    }
  }

  lemma {:induction false} OrderedNeverGoesBack(sink: Sink, s: State, schedule: seq<Event>, m: nat,
                                                dest0: Option<Bytes>)
    requires Safe(s, dest0) && Ordered(s) && Quiet(schedule) && m <= |schedule| && After(sink, s, schedule).Some?
    ensures After(sink, s, schedule[..m]).Some? && Ordered(After(sink, s, schedule).value)
    ensures NoOlder(After(sink, s, schedule[..m]).value.dest, After(sink, s, schedule).value.dest)
  {
    hide Safe, Ordered, Enabled, Next;
    if schedule == [] {
    } else {
      var n := |schedule| - 1;
      assert !schedule[n].Submit? && Quiet(schedule[..n]);
      OrderedNeverGoesBack(sink, s, schedule[..n], if m <= n then m else n, dest0);
      RunKeepsSafe(sink, s, schedule[..n], dest0);
      StepKeepsOrdered(sink, After(sink, s, schedule[..n]).value, schedule[n], dest0);
      if m <= n {
        assert schedule[..n][..m] == schedule[..m];
      } else {
        assert schedule[..m] == schedule;
      }
    }
  }

  // ---------------------------------------------------------------- the guard is needed

  /** The next event on the way to landing call i: first whoever owns the gate fails or finishes. */
  function Toward(sink: Sink, s: State, i: nat): Event
    requires i < |s.calls| && (s.flag ==> s.accepted != [] && Last(s.accepted) < |s.calls|)
  {
    match s.calls[i].status
    case Waiting => Retry(i)
    case Holding => if sink.FileSink? then Open(i) else Put(i, true, true)
    case Filling => Fill(i)
    case Staged => Replace(i, true, false)
    case _ =>
      if !s.flag then Acquire(i)
      else
        var o := Last(s.accepted);
        if s.calls[o].status.Staged? then Replace(o, false, true)
        else if s.calls[o].status.Holding? || s.calls[o].status.Filling? then Fail(o)
        else Release(o)
  }

  function Distance(s: State, i: nat): nat
    requires i < |s.calls| && (s.flag ==> s.accepted != [] && Last(s.accepted) < |s.calls|)
  {
    var held := if !s.flag then 0 else if MayLand(s.calls[Last(s.accepted)].status) then 2 else 1;
    match s.calls[i].status
    case Waiting => 5 + held
    case Entering => 4 + held
    case Holding => 3
    case Filling => 2
    case _ => 1
  }

  /** Every such event is possible, keeps the others' chances, and brings the landing closer. */
  lemma {:induction false} TowardStep(sink: Sink, s: State, i: nat, dest0: Option<Bytes>)
    requires Safe(s, dest0) && i < |s.calls| && MayLand(s.calls[i].status)
    ensures var e := Toward(sink, s, i);
            && Enabled(sink, s, e) && !e.Submit?
            && var t := Next(sink, s, e);
            && |t.calls| == |s.calls| && t.calls[i].snap == s.calls[i].snap
            && (forall j :: 0 <= j < |s.calls| && j != i && Trying(s.calls[j].status) ==> t.calls[j] == s.calls[j])
            && (if Lands(e) then t.dest == Some(Whole(s.calls[i].snap))
                else t.dest == s.dest && MayLand(t.calls[i].status) && OneOwner(t) && Distance(t, i) < Distance(s, i))
  {
    hide WonOnce, InOrder, Shown;
    StepKeepsOneOwner(sink, s, Toward(sink, s, i));
  }

  /** Any call that may still land can be made to, with nothing else landing before it. */
  lemma {:induction false} CanLand(sink: Sink, s: State, i: nat, dest0: Option<Bytes>) returns (schedule: seq<Event>)
    requires Safe(s, dest0) && i < |s.calls| && MayLand(s.calls[i].status)
    ensures Quiet(schedule) && After(sink, s, schedule).Some?
    ensures var t := After(sink, s, schedule).value;
            && Safe(t, dest0) && t.dest == Some(Whole(s.calls[i].snap)) && |t.calls| == |s.calls|
            && forall j :: 0 <= j < |s.calls| && j != i && Trying(s.calls[j].status) ==> t.calls[j] == s.calls[j]
    decreases Distance(s, i)
  {
    TowardStep(sink, s, i, dest0);
    var e := Toward(sink, s, i);
    hide Safe, Enabled, Next, Toward, Distance, MayLand;
    StepKeepsSafe(sink, s, e, dest0);
    var t := Next(sink, s, e);
    if Lands(e) {
      schedule := [e];
      AfterFront(sink, s, schedule);
    } else {
      var rest := CanLand(sink, t, i, dest0);
      schedule := [e] + rest;
      assert schedule[1..] == rest;
      AfterFront(sink, s, schedule);
    }
  }

  /** A call that is still trying can always land behind any other that may land. */
  lemma {:induction false} CanLandBehind(sink: Sink, s: State, i: nat, j: nat, dest0: Option<Bytes>)
    returns (schedule: seq<Event>, m: nat)
    requires Safe(s, dest0) && i < |s.calls| && j < |s.calls| && i != j
    requires Trying(s.calls[i].status) && MayLand(s.calls[j].status)
    ensures Quiet(schedule) && m <= |schedule|
    ensures After(sink, s, schedule[..m]).Some?
            && After(sink, s, schedule[..m]).value.dest == Some(Whole(s.calls[j].snap))
    ensures After(sink, s, schedule).Some? && After(sink, s, schedule).value.dest == Some(Whole(s.calls[i].snap))
  {
    hide Safe, After;
    var first := CanLand(sink, s, j, dest0);
    var t := After(sink, s, first).value;
    var second := CanLand(sink, t, i, dest0);
    AfterConcat(sink, s, first, second);
    schedule, m := first + second, |first|;
    assert schedule[..m] == first;
  }

  lemma {:induction false} DisorderGoesBack(sink: Sink, s: State, dest0: Option<Bytes>)
    returns (schedule: seq<Event>, m: nat)
    requires Safe(s, dest0) && !Ordered(s)
    ensures Quiet(schedule) && TakesBack(sink, s, schedule, m)
  {
    hide Safe, After, MayLand;
    if i :| 0 <= i < |s.calls| && MayLand(s.calls[i].status) && Older(Some(Whole(s.calls[i].snap)), s.dest) {
      schedule := CanLand(sink, s, i, dest0);
      m := 0;
      NothingDone(sink, s, schedule);
    } else {
      var i, j :| 0 <= i < |s.calls| && 0 <= j < |s.calls| && Trying(s.calls[i].status) && MayLand(s.calls[j].status)
                  && s.calls[i].snap.version < s.calls[j].snap.version;
      schedule, m := CanLandBehind(sink, s, i, j, dest0);
    }
  }

  lemma {:induction false} NothingDone(sink: Sink, s: State, schedule: seq<Event>)
    ensures After(sink, s, schedule[..0]) == Some(s)
  {
  }

  /** Exactly when order is kept: no continuation of a reachable state takes the destination back if and only
      if nothing that may land is older than what is shown, and nothing still trying is older than anything
      else that may land. */
  lemma {:induction false} NeverGoesBackIff(sink: Sink, s: State, dest0: Option<Bytes>)
    requires Safe(s, dest0)
    ensures NeverGoesBack(sink, s) <==> Ordered(s)
  {
    hide Safe, After, Ordered;
    if Ordered(s) {
      forall schedule, m: nat | Quiet(schedule) ensures !TakesBack(sink, s, schedule, m) {
        if m <= |schedule| && After(sink, s, schedule).Some? {
          OrderedNeverGoesBack(sink, s, schedule, m, dest0);
        }
      }
    } else {
      var schedule, m := DisorderGoesBack(sink, s, dest0);
    }
  }

  /** The same from the start: for whatever calls were made and however far they have come. */
  lemma {:induction false} ReachableNeverGoesBackIff(sink: Sink, temp: Option<Bytes>, dest: Option<Bytes>,
                                                     schedule: seq<Event>)
    requires After(sink, Fresh(temp, dest), schedule).Some?
    ensures var s := After(sink, Fresh(temp, dest), schedule).value; NeverGoesBack(sink, s) <==> Ordered(s)
  {
    hide Safe, After, Ordered, NeverGoesBack;
    ScheduleKeepsSafe(sink, temp, dest, schedule);
    NeverGoesBackIff(sink, After(sink, Fresh(temp, dest), schedule).value, dest);
  }

  // ---------------------------------------------------------------- one caller

  /** Nobody is trying the flag, and no blocking call is under way. */
  ghost predicate Returned(s: State) {
    forall i :: 0 <= i < |s.calls| ==>
      !Trying(s.calls[i].status) && (s.calls[i].mode.Blocking? ==> s.calls[i].status.Finished?)
  }

  /** A single caller makes its next call only once the one before has returned to it. */
  ghost predicate SingleCaller(sink: Sink, s0: State, schedule: seq<Event>) {
    schedule == [] ||
    var n := |schedule| - 1;
    SingleCaller(sink, s0, schedule[..n])
    && (schedule[n].Submit? && After(sink, s0, schedule[..n]).Some? ==> Returned(After(sink, s0, schedule[..n]).value))
  }

  /** Calls win in the order they were made, and only the newest may still be trying. */
  ghost predicate Tidy(s: State) {
    && (forall q, r :: 0 <= q < r < |s.accepted| ==> s.accepted[q] < s.accepted[r])
    && (forall r :: 0 <= r < |s.accepted| ==> s.accepted[r] < |s.calls|)
    && (forall i :: 0 <= i < |s.calls| && Trying(s.calls[i].status) ==> i == |s.calls| - 1 && i !in s.accepted)
  }

  lemma {:induction false} AcquireKeepsOrder(sink: Sink, s: State, e: Event)
    requires Enabled(sink, s, e) && Tidy(s)
    ensures forall q, r :: 0 <= q < r < |Next(sink, s, e).accepted| ==>
              Next(sink, s, e).accepted[q] < Next(sink, s, e).accepted[r]
    ensures forall r :: 0 <= r < |Next(sink, s, e).accepted| ==> Next(sink, s, e).accepted[r] < |s.calls|
  {
    hide NextTemp, NextDest, Moved, Lands;
    if e.Acquire? {
      forall r | 0 <= r < |s.accepted| ensures s.accepted[r] < e.i {
        assert s.accepted[r] in s.accepted;
      }
    }
  }

  lemma {:induction false} StepKeepsTidy(sink: Sink, s: State, e: Event)
    requires Enabled(sink, s, e) && Tidy(s) && (e.Submit? ==> Returned(s))
    ensures Tidy(Next(sink, s, e))
  {
    hide NextTemp, NextDest, Lands;
    AcquireKeepsOrder(sink, s, e);
  }

  lemma {:induction false} SingleCallerIsTidy(sink: Sink, temp: Option<Bytes>, dest: Option<Bytes>,
                                              schedule: seq<Event>)
    requires After(sink, Fresh(temp, dest), schedule).Some? && SingleCaller(sink, Fresh(temp, dest), schedule)
    ensures Tidy(After(sink, Fresh(temp, dest), schedule).value)
  {
    hide Tidy, Enabled, Next, Returned;
    if schedule == [] {
      assert Tidy(Fresh(temp, dest)) by { FreshIsTidy(temp, dest); }
    } else {
      var n := |schedule| - 1;
      SingleCallerIsTidy(sink, temp, dest, schedule[..n]);
      ScheduleKeepsSafe(sink, temp, dest, schedule[..n]);
      StepKeepsTidy(sink, After(sink, Fresh(temp, dest), schedule[..n]).value, schedule[n]);
    }
  }

  lemma {:induction false} FreshIsTidy(temp: Option<Bytes>, dest: Option<Bytes>)
    ensures Tidy(Fresh(temp, dest))
  {
  }

  /** The calls of s are those of t, or a beginning of them, with the same snapshots; likewise for the
      two orders. */
  ghost predicate Extends(s: State, t: State) {
    && |s.calls| <= |t.calls| && (forall i :: 0 <= i < |s.calls| ==> t.calls[i].snap == s.calls[i].snap)
    && s.accepted <= t.accepted && s.installed <= t.installed
  }

  lemma {:induction false} StepExtends(sink: Sink, s: State, e: Event)
    requires Enabled(sink, s, e)
    ensures Extends(s, Next(sink, s, e))
  {
  }

  lemma {:induction false} RunExtends(sink: Sink, s0: State, schedule: seq<Event>, m: nat)
    requires m <= |schedule| && After(sink, s0, schedule).Some?
    ensures After(sink, s0, schedule[..m]).Some?
    ensures Extends(After(sink, s0, schedule[..m]).value, After(sink, s0, schedule).value)
  {
    hide Enabled, Next;
    var n := |schedule| - 1;
    if m == |schedule| {
      assert schedule[..m] == schedule;
    } else {
      assert schedule[..n][..m] == schedule[..m];
      RunExtends(sink, s0, schedule[..n], m);
      StepExtends(sink, After(sink, s0, schedule[..n]).value, schedule[n]);
    }
  }

  /** Submissions carry versions that never decrease. */
  ghost predicate Monotone(s: State) {
    forall i, j :: 0 <= i < j < |s.calls| ==> s.calls[i].snap.version <= s.calls[j].snap.version
  }

  /** A single caller with rising versions always meets the guard. */
  lemma {:induction false} SingleCallerIsOrdered(s: State, dest0: Option<Bytes>)
    requires Safe(s, dest0) && Tidy(s) && Monotone(s) && s.installed != []
    ensures Ordered(s) && s.dest.Some? && s.dest.value.Whole?
  {
    hide WonOnce, OwnerPlaced;
    var shown := s.accepted[Last(s.installed)];
    forall i | 0 <= i < |s.calls| && MayLand(s.calls[i].status) ensures shown <= i {
      if !Trying(s.calls[i].status) {
        assert Last(s.installed) <= |s.accepted| - 1;
      }
    }
    assert forall i, j :: 0 <= i <= j < |s.calls| ==> s.calls[i].snap.version <= s.calls[j].snap.version;
  }

  lemma {:induction false} MonotoneBefore(s: State, t: State)
    requires Extends(s, t) && Monotone(t)
    ensures Monotone(s)
  {
  }

  /** What one caller submits in version order is persisted in version order: the destination never goes
      back to an older snapshot, however many calls are skipped, cancelled or fail on the way. */
  lemma {:induction false} PersistedNeverGoesBack(sink: Sink, temp: Option<Bytes>, dest: Option<Bytes>,
                                                  schedule: seq<Event>, m: nat)
    requires m <= |schedule| && After(sink, Fresh(temp, dest), schedule).Some?
    requires SingleCaller(sink, Fresh(temp, dest), schedule)
    requires Monotone(After(sink, Fresh(temp, dest), schedule).value)
    ensures After(sink, Fresh(temp, dest), schedule[..m]).Some?
    ensures var s, t := After(sink, Fresh(temp, dest), schedule[..m]).value,
            After(sink, Fresh(temp, dest), schedule).value;
            s.installed != [] ==> s.dest.Some? && s.dest.value.Whole? && NoOlder(s.dest, t.dest)
  {
    hide Safe, Tidy, Monotone, Enabled, Next, Returned, Ordered, Extends;
    ScheduleKeepsSafe(sink, temp, dest, schedule);
    SingleCallerIsTidy(sink, temp, dest, schedule);
    var s0, t := Fresh(temp, dest), After(sink, Fresh(temp, dest), schedule).value;
    if m == |schedule| {
      assert schedule[..m] == schedule;
      if t.installed != [] {
        SingleCallerIsOrdered(t, dest);
      }
    } else {
      var n := |schedule| - 1;
      var u := After(sink, s0, schedule[..n]).value;
      assert schedule[..n][..m] == schedule[..m];
      StepExtends(sink, u, schedule[n]);
      MonotoneBefore(u, t);
      PersistedNeverGoesBack(sink, temp, dest, schedule[..n], m);
      ScheduleKeepsSafe(sink, temp, dest, schedule[..n]);
      SingleCallerIsTidy(sink, temp, dest, schedule[..n]);
      RunExtends(sink, s0, schedule[..n], m);
      if After(sink, s0, schedule[..m]).value.installed != [] {
        LongerInstalled(After(sink, s0, schedule[..m]).value, u);
        SingleCallerIsOrdered(u, dest);
        NextIsNoOlder(sink, u, schedule[n], dest);
      }
    }
  }

  lemma {:induction false} LongerInstalled(s: State, t: State)
    requires Extends(s, t) && s.installed != []
    ensures t.installed != []
  {
  }

  lemma {:induction false} NextIsNoOlder(sink: Sink, s: State, e: Event, dest0: Option<Bytes>)
    requires Enabled(sink, s, e) && Safe(s, dest0) && Ordered(s)
    ensures NoOlder(s.dest, Next(sink, s, e).dest)
  {
    if !e.Submit? {
      StepKeepsOrdered(sink, s, e, dest0);
    }
  }

  // ---------------------------------------------------------------- two callers

  lemma {:induction false} BothEnter(sink: Sink, a: Depth, b: Depth)
    ensures After(sink, Fresh(None, None), [Submit(a, Blocking), Submit(b, FireAndForget)])
            == Some(Fresh(None, None).(calls := [Call(a, Blocking, Entering), Call(b, FireAndForget, Entering)]))
  {
    var schedule := [Submit(a, Blocking), Submit(b, FireAndForget)];
    var s := Next(sink, Fresh(None, None), schedule[0]);
    AfterFront(sink, Fresh(None, None), schedule);
    AfterFront(sink, s, schedule[1..]);
    assert schedule[1..][1..] == [];
    assert s.calls == [Call(a, Blocking, Entering)];
    assert s.calls + [Call(b, FireAndForget, Entering)]
        == [Call(a, Blocking, Entering), Call(b, FireAndForget, Entering)];
  }

  /** Two callers break it, with a file or with Redis behind the gate: the older snapshot loses the race for
      the gate and then replaces the newer. */
  lemma {:induction false} TwoCallersCanGoBack(sink: Sink, older: Depth, newer: Depth)
    returns (schedule: seq<Event>, m: nat)
    ensures m <= |schedule| && [Submit(older, Blocking), Submit(newer, FireAndForget)] <= schedule
    ensures var s, t := After(sink, Fresh(None, None), schedule[..m]), After(sink, Fresh(None, None), schedule);
            s.Some? && t.Some? && s.value.dest == Some(Whole(newer)) && t.value.dest == Some(Whole(older))
  {
    hide After, Safe;
    var s0, both := Fresh(None, None), [Submit(older, Blocking), Submit(newer, FireAndForget)];
    BothEnter(sink, older, newer);
    ScheduleKeepsSafe(sink, None, None, both);
    var rest, k := CanLandBehind(sink, After(sink, s0, both).value, 0, 1, None);
    AfterConcat(sink, s0, both, rest);
    AfterConcat(sink, s0, both, rest[..k]);
    schedule, m := both + rest, |both| + k;
    assert schedule[..m] == both + rest[..k];
  }
}
