/** The file-backed snapshot writer itself: the atomic flag, the background write and the spinning blocking
    write. A ghost trace records the protocol event each statement stands for. */
module Writer {
  import opened Wrappers
  import opened Gate

  /** Where a write gives up, if it does. */
  datatype Fault = NoFault | NotEncoded | TempNotOpened | TempCutShort | NotRenamed(removed: bool)

  datatype Submission = Started | AlreadyWriting | ContextDone

  datatype WriteError = StillHeld | WriteFailed(fault: Fault)

  datatype Job = Job(snap: Depth, fault: Fault)

  /** What others do while the blocking caller pauses. */
  datatype Happening = BackgroundEnds | OtherWrites(job: Job)

  datatype Pause = Deadline | Sleep(happenings: seq<Happening>)

  // ---------------------------------------------------------------- what the writer computes

  /** The write running behind a call that returned, and the two places. */
  datatype View = View(background: Option<Job>, temp: Option<Bytes>, dest: Option<Bytes>)

  function TempLeft(temp: Option<Bytes>, job: Job): Option<Bytes> {
    match job.fault
    case NoFault => None
    case NotEncoded => temp
    case TempNotOpened => temp
    case TempCutShort => Some(Torn)
    case NotRenamed(removed) => if removed then None else Some(Whole(job.snap))
  }

  function DestLeft(dest: Option<Bytes>, job: Job): Option<Bytes> {
    if job.fault.NoFault? then Some(Whole(job.snap)) else dest
  }

  function Written(v: View, job: Job): View {
    View(None, TempLeft(v.temp, job), DestLeft(v.dest, job))
  }

  function Happened(v: View, h: Happening): View {
    match h
    case BackgroundEnds => if v.background.Some? then Written(v, v.background.value) else v
    case OtherWrites(job) => if v.background.Some? then v else v.(background := Some(job))
  }

  function Slept(v: View, hs: seq<Happening>): View {
    if hs == [] then v else Happened(Slept(v, hs[..|hs| - 1]), hs[|hs| - 1])
  }

  /** What a pause brings, one thing after the other: another caller's write takes the gate only while it is free,
      and a write that ends leaves at the two places what its fault says. */
  lemma {:induction false} PauseBrings(v: View, hs: seq<Happening>, job: Job)
    ensures Slept(v, []) == v
    ensures var w := Slept(v, hs);
            Slept(v, hs + [OtherWrites(job)]) == if w.background.None? then View(Some(job), w.temp, w.dest) else w
    ensures var w, w' := Slept(v, hs), Slept(v, hs + [BackgroundEnds]);
            if w.background.None? then w' == w
            else
              var write := w.background.value;
              && w'.background == None
              && w'.dest == (if write.fault.NoFault? then Some(Whole(write.snap)) else w.dest)
              && w'.temp == (match write.fault
                             case NoFault => None
                             case TempCutShort => Some(Torn)
                             case NotRenamed(removed) => if removed then None else Some(Whole(write.snap))
                             case _ => w.temp)
  {
    assert (hs + [OtherWrites(job)])[..|hs|] == hs && (hs + [BackgroundEnds])[..|hs|] == hs;
  }

  /** What the blocking caller waits through, and whether it finds the gate free in the end. Its deadline falls
      at the end of the list at the latest. */
  function Awaited(v: View, pauses: seq<Pause>): (r: (View, bool))
    ensures r.1 <==> r.0.background.None?
    decreases |pauses|
  {
    if v.background.None? then (v, true)
    else if pauses == [] || pauses[0].Deadline? then (v, false)
    else Awaited(Slept(v, pauses[0].happenings), pauses[1..])
  }

  /** The same waits without looking whether the gate is free in between. */
  function Rested(v: View, pauses: seq<Pause>): View
    decreases |pauses|
  {
    if pauses == [] then v
    else if pauses[0].Deadline? then Rested(v, pauses[1..])
    else Rested(Slept(v, pauses[0].happenings), pauses[1..])
  }

  /** The caller gets through exactly if the gate is free after some of its pauses, all before its deadline. */
  lemma {:induction false} GetsThroughIff(v: View, pauses: seq<Pause>)
    ensures Awaited(v, pauses).1 <==>
            exists n :: 0 <= n <= |pauses| && (forall k :: 0 <= k < n ==> pauses[k].Sleep?) && FreeAfter(v, pauses, n)
    decreases |pauses|
  {
    hide Slept;
    if v.background.None? {
      assert FreeAfter(v, pauses, 0);
    } else if pauses != [] && pauses[0].Sleep? {
      var next := Slept(v, pauses[0].happenings);
      GetsThroughIff(next, pauses[1..]);
      forall n | 0 < n <= |pauses| ensures FreeAfter(v, pauses, n) <==> FreeAfter(next, pauses[1..], n - 1) {
        assert pauses[..n][1..] == pauses[1..][..n - 1];
      }
      if n :| 0 <= n <= |pauses[1..]|
              && (forall k :: 0 <= k < n ==> pauses[1..][k].Sleep?) && FreeAfter(next, pauses[1..], n) {
        assert FreeAfter(v, pauses, n + 1);
        assert forall k :: 0 < k < n + 1 ==> pauses[k] == pauses[1..][k - 1];
      }
    }
  }

  /** It waits no longer than it has to: what it finds is what the first pause with a free gate at its end left. */
  lemma {:induction false} StopsAtFirstFree(v: View, pauses: seq<Pause>, n: nat)
    requires n <= |pauses| && FreeAfter(v, pauses, n)
    requires forall k :: 0 <= k < n ==> pauses[k].Sleep? && !FreeAfter(v, pauses, k)
    ensures Awaited(v, pauses) == (Rested(v, pauses[..n]), true)
    decreases n
  {
    hide Slept;
    if n > 0 {
      assert !FreeAfter(v, pauses, 0);
      var next := Slept(v, pauses[0].happenings);
      assert pauses[0].Sleep?;
      forall k | 0 < k <= n
        ensures FreeAfter(v, pauses, k) <==> FreeAfter(next, pauses[1..], k - 1) {
        assert pauses[..k][1..] == pauses[1..][..k - 1];
      }
      forall k | 0 <= k < n - 1 ensures pauses[1..][k].Sleep? && !FreeAfter(next, pauses[1..], k) {
        assert !FreeAfter(v, pauses, k + 1);
      }
      StopsAtFirstFree(next, pauses[1..], n - 1);
      assert pauses[..n][1..] == pauses[1..][..n - 1];
    }
  }

  predicate FreeAfter(v: View, pauses: seq<Pause>, n: nat)
    requires n <= |pauses|
  {
    Rested(v, pauses[..n]).background.None?
  }

  // ---------------------------------------------------------------- the writer

  class SnapshotWriter {
    var inProgress: bool
    var temp: Option<Bytes>
    var dest: Option<Bytes>
    var background: Option<Job>

    ghost const Start: State      // no call yet
    ghost var Trace: seq<Event>   // the protocol events so far
    ghost var Proto: State        // where they lead

    ghost predicate OnTrack()
      reads this
    {
      After(FileSink, Start, Trace) == Some(Proto)
    }

    /** The fields are those of a state the protocol reaches. */
    ghost predicate InStep()
      reads this
    {
      OnTrack() && Proto.flag == inProgress && Proto.temp == temp && Proto.dest == dest
    }

    ghost predicate Holds(i: nat, job: Job)
      reads this
    {
      At(Proto, i, Holding) && Proto.calls[i].snap == job.snap
    }

    /** Between calls the flag is up exactly while a background write is running. */
    ghost predicate Valid()
      reads this
    {
      && InStep() && (inProgress <==> background.Some?)
      && (background.Some? ==> Proto.accepted != [] && Holds(Last(Proto.accepted), background.value))
    }

    ghost function Now(): View
      reads this
    {
      View(background, temp, dest)
    }

    constructor (temp: Option<Bytes>, dest: Option<Bytes>)
      ensures Valid() && !inProgress && Now() == View(None, temp, dest)
      ensures Start == Fresh(temp, dest) && Trace == []
    {
      inProgress, this.temp, this.dest, background := false, temp, dest, None;
      Start, Trace, Proto := Fresh(temp, dest), [], Fresh(temp, dest);
    }

    /** Records the protocol event that the statement beside it stands for. */
    ghost method Take(e: Event)
      requires OnTrack() && Enabled(FileSink, Proto, e)
      modifies this`Trace, this`Proto
      ensures OnTrack() && Proto == Next(FileSink, old(Proto), e) && Trace == old(Trace) + [e]
    {
      hide Enabled, Next;
      AfterOne(FileSink, Start, Trace, e);
      Proto := Next(FileSink, Proto, e);
      Trace := Trace + [e];
    }

    /** The same for an event of a call already made, with its effect spelled out. */
    ghost method Move(e: Event)
      requires OnTrack() && Enabled(FileSink, Proto, e) && !e.Submit? && !e.Crash?
      modifies this`Trace, this`Proto
      ensures OnTrack() && Trace == old(Trace) + [e] && OthersStay(e.i)
      ensures Proto.calls[e.i] == old(Proto.calls)[e.i].(status := Moved(old(Proto.calls)[e.i], e))
      ensures Proto.flag == if e.Acquire? then true else if e.Release? then false else old(Proto.flag)
      ensures Proto.temp == NextTemp(old(Proto), e) && Proto.dest == NextDest(old(Proto), e)
      ensures Proto.accepted == if e.Acquire? then old(Proto.accepted) + [e.i] else old(Proto.accepted)
    {
      hide After, Moved, NextTemp, NextDest;
      Take(e);
    }

    method CompareAndSwap(expected: bool, next: bool) returns (swapped: bool)
      modifies this`inProgress
      ensures swapped <==> old(inProgress) == expected
      ensures inProgress == if swapped then next else old(inProgress)
    {
      swapped := inProgress == expected;
      if swapped {
        inProgress := next;
      }
    }

    /** One try for the flag by call i. */
    method TryGate(ghost i: nat) returns (won: bool)
      requires InStep() && At(Proto, i, Entering)
      modifies this`inProgress, this`Trace, this`Proto
      ensures InStep() && OthersStay(i) && old(Trace) <= Trace && inProgress && won == !old(inProgress)
      ensures Proto.calls[i].snap == old(Proto.calls)[i].snap && Proto.calls[i].mode == old(Proto.calls)[i].mode
      ensures Proto.accepted == if won then old(Proto.accepted) + [i] else old(Proto.accepted)
      ensures At(Proto, i, if won then Holding
                           else if Proto.calls[i].mode.Blocking? then Waiting
                           else Finished(Skipped))
      ensures Proto.temp == old(Proto.temp) && Proto.dest == old(Proto.dest)
    {
      hide After, Next;
      won := CompareAndSwap(false, true);
      if won {
        Move(Acquire(i));
      } else {
        Move(Miss(i));
      }
    }

    /** All calls but i are as they were. */
    twostate predicate OthersStay(i: nat)
      reads this
    {
      && |Proto.calls| == |old(Proto.calls)|
      && forall j :: 0 <= j < |Proto.calls| && j != i ==> Proto.calls[j] == old(Proto.calls)[j]
    }

    /** Encode, write the temporary file, rename it over the destination, by the call that holds the gate. */
    method WriteOut(job: Job, ghost i: nat) returns (ok: bool)
      requires InStep() && Holds(i, job)
      modifies this`temp, this`dest, this`Trace, this`Proto
      ensures InStep() && OthersStay(i) && Proto.accepted == old(Proto.accepted)
      ensures At(Proto, i, if ok then Installed else Broken) && Proto.calls[i].snap == job.snap
      ensures ok <==> job.fault.NoFault?
      ensures temp == TempLeft(old(temp), job) && dest == DestLeft(old(dest), job) && old(Trace) <= Trace
      ensures match job.fault
              case NoFault => dest == Some(Whole(job.snap)) && temp == None
              case NotEncoded => dest == old(dest) && temp == old(temp)
              case TempNotOpened => dest == old(dest) && temp == old(temp)
              case TempCutShort => dest == old(dest) && temp == Some(Torn)
              case NotRenamed(removed) => dest == old(dest) && temp == if removed then None else Some(Whole(job.snap))
    {
      hide After, Next, Enabled;
      var staged := WriteTemp(job, i);
      if !staged {
        return false;
      }
      ok := RenameTemp(job, i);
    }

    /** Encodes the snapshot and writes it to the temporary file. */
    method WriteTemp(job: Job, ghost i: nat) returns (ok: bool)
      requires InStep() && Holds(i, job)
      modifies this`temp, this`Trace, this`Proto
      ensures InStep() && OthersStay(i) && Proto.accepted == old(Proto.accepted) && old(Trace) <= Trace
      ensures At(Proto, i, if ok then Staged else Broken) && Proto.calls[i].snap == job.snap
      ensures ok <==> job.fault.NoFault? || job.fault.NotRenamed?
      ensures temp == if ok then Some(Whole(job.snap)) else TempLeft(old(temp), job)
    {
      hide After, Next;
      if job.fault.NotEncoded? || job.fault.TempNotOpened? {
        Move(Fail(i));
        return false;
      }
      temp := Some(Torn);
      Move(Open(i));
      if job.fault.TempCutShort? {
        Move(Fail(i));
        return false;
      }
      temp := Some(Whole(job.snap));
      Move(Fill(i));
      return true;
    }

    /** Renames it over the destination, or tries to remove it. */
    method RenameTemp(job: Job, ghost i: nat) returns (ok: bool)
      requires InStep() && At(Proto, i, Staged) && Proto.calls[i].snap == job.snap && temp == Some(Whole(job.snap))
      requires job.fault.NoFault? || job.fault.NotRenamed?
      modifies this`temp, this`dest, this`Trace, this`Proto
      ensures InStep() && OthersStay(i) && Proto.accepted == old(Proto.accepted) && old(Trace) <= Trace
      ensures At(Proto, i, if ok then Installed else Broken) && Proto.calls[i].snap == job.snap
      ensures ok <==> job.fault.NoFault?
      ensures temp == TempLeft(old(temp), job) && dest == DestLeft(old(dest), job)
    {
      hide After, Next;
      if job.fault.NotRenamed? {
        if job.fault.removed {
          temp := None;
        }
        Move(Replace(i, false, job.fault.removed));
        return false;
      }
      dest := temp;
      temp := None;
      Move(Replace(i, true, false));
      return true;
    }

    /** Starts a background write unless the context is done or a write is running. */
    method WriteSnapshot(job: Job, done: bool) returns (r: Submission)
      requires Valid()
      modifies this
      ensures Valid() && old(Trace) <= Trace
      ensures r == if done then ContextDone else if old(inProgress) then AlreadyWriting else Started
      ensures Now() == if r.Started? then old(Now()).(background := Some(job)) else old(Now())
      ensures |Proto.calls| == |old(Proto.calls)| + 1
      ensures forall j :: 0 <= j < |old(Proto.calls)| ==> Proto.calls[j] == old(Proto.calls)[j]
      ensures At(Proto, |old(Proto.calls)|, match r case Started => Holding
                                                   case AlreadyWriting => Finished(Skipped)
                                                   case ContextDone => Finished(Cancelled))
    {
      hide After;
      ghost var i := |Proto.calls|;
      Take(Submit(job.snap, FireAndForget));
      if done {
        Move(Abandon(i));
        return ContextDone;
      }
      var won := TryGate(i);
      if !won {
        return AlreadyWriting;
      }
      background := Some(job);
      return Started;
    }

    /** The rest of the background write: errors are only logged, the gate is always given back. */
    method FinishBackground()
      requires Valid() && background.Some?
      modifies this
      ensures Valid() && !inProgress && old(Trace) <= Trace
      ensures Now() == Written(old(Now()), old(background.value))
      ensures OthersStay(Last(old(Proto.accepted)))
    {
      hide After, Next;
      ghost var i := Last(Proto.accepted);
      var _ := WriteOut(background.value, i);
      background := None;
      inProgress := false;
      GiveBack(i);
    }

    /** One pause of the blocking caller: background writes end, and other callers may take the gate. */
    method Pausing(happenings: seq<Happening>, ghost i: nat)
      requires Valid() && At(Proto, i, Waiting)
      modifies this
      ensures Valid() && old(Trace) <= Trace && Now() == Slept(old(Now()), happenings)
      ensures At(Proto, i, Waiting) && Proto.calls[i] == old(Proto.calls)[i]
    {
      hide After;
      assert happenings[..0] == [];
      for n := 0 to |happenings|
        invariant Valid() && old(Trace) <= Trace && Now() == Slept(old(Now()), happenings[..n])
        invariant At(Proto, i, Waiting) && Proto.calls[i] == old(Proto.calls)[i]
      {
        assert happenings[..n + 1][..n] == happenings[..n];
        match happenings[n] {
          case BackgroundEnds =>
            if background.Some? {
              FinishBackground();
            }
          case OtherWrites(job) =>
            var _ := WriteSnapshot(job, false);
        }
      }
      assert happenings[..|happenings|] == happenings;
    }

    /** Spins until the gate is free or the context ends. */
    method Spin(pauses: seq<Pause>, ghost i: nat) returns (won: bool)
      requires Valid() && At(Proto, i, Entering) && Proto.calls[i].mode == Blocking
      modifies this
      ensures old(Trace) <= Trace && (Now(), won) == Awaited(old(Now()), pauses)
      ensures i < |Proto.calls| && Proto.calls[i].snap == old(Proto.calls)[i].snap
      ensures if won then InStep() && At(Proto, i, Holding) && inProgress
              else Valid() && At(Proto, i, Finished(Cancelled))
    {
      hide After, Next, Slept, Enabled;
      ghost var snap := Proto.calls[i].snap;
      var n := 0;
      assert pauses[0..] == pauses;
      won := TryGate(i);
      while !won
        invariant n <= |pauses| && old(Trace) <= Trace
        invariant i < |Proto.calls| && Proto.calls[i].snap == snap && Proto.calls[i].mode == Blocking
        invariant Awaited(old(Now()), pauses) == Awaited(Now(), pauses[n..])
        invariant if won then InStep() && At(Proto, i, Holding) && inProgress && background.None?
                  else Valid() && At(Proto, i, Waiting) && inProgress
        decreases |pauses| - n, !won
      {
        if n == |pauses| || pauses[n].Deadline? {
          GiveUp(i);
          return false;
        }
        assert pauses[n..][1..] == pauses[n + 1..];
        Pausing(pauses[n].happenings, i);
        n := n + 1;
        Again(i);
        won := TryGate(i);
      }
    }

    /** The deadline of a waiting call. */
    ghost method GiveUp(i: nat)
      requires Valid() && At(Proto, i, Waiting) && Proto.calls[i].mode == Blocking
      modifies this`Trace, this`Proto
      ensures Valid() && OthersStay(i) && old(Trace) <= Trace && At(Proto, i, Finished(Cancelled))
      ensures Proto.calls[i].snap == old(Proto.calls)[i].snap
    {
      hide After, Next;
      Move(Abandon(i));
    }

    /** The end of a waiting call's pause. */
    ghost method Again(i: nat)
      requires Valid() && At(Proto, i, Waiting)
      modifies this`Trace, this`Proto
      ensures Valid() && OthersStay(i) && old(Trace) <= Trace
      ensures Proto.calls[i] == old(Proto.calls)[i].(status := Entering)
    {
      hide After, Next;
      Move(Retry(i));
    }

    /** Spins until the gate is free or the context ends, then writes in the foreground. If it gets through, its
        own write comes last and the gate ends free; otherwise only the others' doings remain. */
    method WriteSnapshotBlocking(job: Job, pauses: seq<Pause>) returns (r: Result<(), WriteError>)
      requires Valid()
      modifies this
      ensures Valid() && old(Trace) <= Trace
      ensures var (v, through) := Awaited(old(Now()), pauses);
              && Now() == (if through then Written(v, job) else v)
              && r == (if !through then Err(StillHeld)
                       else if job.fault.NoFault? then Ok(())
                       else Err(WriteFailed(job.fault)))
              && At(Proto, |old(Proto.calls)|,
                    Finished(if !through then Cancelled else if job.fault.NoFault? then Succeeded else Failed))
      ensures r.Ok? ==> !inProgress && dest == Some(Whole(job.snap)) && temp == None
    {
      hide After, Next, Awaited, Enabled;
      ghost var i := |Proto.calls|;
      Call(job.snap);
      var won := Spin(pauses, i);
      if !won {
        return Err(StillHeld);
      }
      var ok := WriteOut(job, i);
      inProgress := false;
      GiveBack(i);
      return if ok then Ok(()) else Err(WriteFailed(job.fault));
    }

    /** The owner gives the gate back. */
    ghost method GiveBack(i: nat)
      requires OnTrack() && (At(Proto, i, Installed) || At(Proto, i, Broken))
      modifies this`Trace, this`Proto
      ensures OnTrack() && OthersStay(i) && old(Trace) <= Trace && !Proto.flag
      ensures Proto.temp == old(Proto.temp) && Proto.dest == old(Proto.dest)
      ensures At(Proto, i, Finished(if At(old(Proto), i, Installed) then Succeeded else Failed))
    {
      hide After, Next;
      Move(Release(i));
    }

    /** A blocking call comes in. */
    ghost method Call(snap: Depth)
      requires Valid()
      modifies this`Trace, this`Proto
      ensures Valid() && old(Trace) <= Trace && At(Proto, |old(Proto.calls)|, Entering)
      ensures Proto.calls[|old(Proto.calls)|] == Gate.Call(snap, Blocking, Entering)
    {
      hide After;
      Take(Submit(snap, Blocking));
    }
  }
}
