/** The order book client's connection loops: back-off, reconnect notices, and the registry of live sockets. */
module Reconnect {
  import opened Wrappers

  // ---------------------------------------------------------------- back-off

  function Pow2(k: nat): (p: int)
    ensures p >= 1
  {
    if k == 0 then 1 else 2 * Pow2(k - 1)
  }

  /** The powers of two: every step doubles. */
  lemma {:induction false} Pow2Adds(j: nat, k: nat)
    ensures Pow2(0) == 1 && Pow2(1) == 2 && Pow2(j + k) == Pow2(j) * Pow2(k)
  {
    if j > 0 {
      Pow2Adds(j - 1, k);
      assert Pow2(j + k) == 2 * (Pow2(j - 1) * Pow2(k)) == (2 * Pow2(j - 1)) * Pow2(k);
    }
  }

  /** The delay before the k-th retry of one outage, as the loop computes it. */
  function Delay(base: int, cap: int, k: nat): int {
    if k == 0 then base else Min(Delay(base, cap, k - 1) * 2, cap)
  }

  /** Closed form: doubling from the base until the cap. */
  lemma {:induction false} DelayClosedForm(base: int, cap: int, k: nat)
    requires 1 <= base <= cap
    ensures Delay(base, cap, k) == Min(base * Pow2(k), cap)
    ensures base <= Delay(base, cap, k) <= cap
  {
    if k > 0 {
      DelayClosedForm(base, cap, k - 1);
      assert base * Pow2(k) == (base * Pow2(k - 1)) * 2;
    }
  }

  lemma {:induction false} DelayNeverShrinks(base: int, cap: int, j: nat, k: nat)
    requires 1 <= base <= cap && j <= k
    ensures Delay(base, cap, j) <= Delay(base, cap, k)
  {
    if j < k {
      DelayNeverShrinks(base, cap, j, k - 1);
      DelayClosedForm(base, cap, k - 1);
    }
  }

  lemma {:induction false} Pow2Grows(k: nat)
    ensures Pow2(k) > k
  {
    if k > 0 {
      Pow2Grows(k - 1);
    }
  }

  /** Long outages reach the cap. */
  lemma {:induction false} DelayReachesCap(base: int, cap: int)
    requires 1 <= base <= cap
    ensures Delay(base, cap, cap) == cap
  {
    hide Delay, Pow2;
    DelayClosedForm(base, cap, cap);
    Pow2Grows(cap);
    TimesGrows(base, Pow2(cap));
  }

  lemma {:induction false} TimesGrows(a: int, b: int)
    requires a >= 1 && b >= 0
    ensures a * b >= b
  {
    if a > 1 {
      TimesGrows(a - 1, b);
      assert a * b == (a - 1) * b + b;
    }
  }

  const MAX_INT64 := 0x7FFF_FFFF_FFFF_FFFF
  const SECOND := 1_000_000_000

  /** No delay, doubled or turned into nanoseconds, ever leaves 64 bits, exactly when the cap itself fits. */
  lemma {:induction false} NoOverflowIff(base: int, cap: int)
    requires 1 <= base <= cap
    ensures (forall k: nat :: Delay(base, cap, k) * SECOND <= MAX_INT64 && Delay(base, cap, k) * 2 <= MAX_INT64)
            <==> cap * SECOND <= MAX_INT64
  {
    if cap * SECOND <= MAX_INT64 {
      forall k: nat ensures Delay(base, cap, k) * SECOND <= MAX_INT64 && Delay(base, cap, k) * 2 <= MAX_INT64 {
        DelayClosedForm(base, cap, k);
      }
    } else {
      DelayReachesCap(base, cap);
      var k: nat := cap;
      assert !(Delay(base, cap, k) * SECOND <= MAX_INT64);
    }
  }

  // ---------------------------------------------------------------- one connection loop

  datatype Config = Config(base: int, cap: int, notify: bool)

  datatype Stop = Never | BeforeWait | DuringWait

  /** A frame either decodes to a depth event or is dropped. */
  datatype Frame = Depth(event: int) | Dropped

  /** What the network and the context bring to one attempt; when the list ends the context has ended. */
  datatype Attempt = Fails(stop: Stop) | Session(frames: seq<Frame>, stopped: bool)

  datatype Notice = Waiting(delay: int) | Connected | Reconnected | Delivered(event: int) | Lost

  function Deliveries(frames: seq<Frame>): (out: seq<Notice>)
    ensures forall i :: 0 <= i < |out| ==> out[i].Delivered?
  {
    if frames == [] then []
    else
      var rest, last := Deliveries(frames[..|frames| - 1]), frames[|frames| - 1];
      if last.Depth? then rest + [Delivered(last.event)] else rest
  }

  /** out is the events of the depth frames in the order of the frames: at says which frame each comes from, and
      every depth frame is there exactly once. */
  ghost predicate InFrameOrder(frames: seq<Frame>, out: seq<Notice>, at: seq<nat>) {
    && |at| == |out| && (forall j, k :: 0 <= j < k < |at| ==> at[j] < at[k])
    && (forall k :: 0 <= k < |at| ==>
          at[k] < |frames| && frames[at[k]].Depth? && out[k] == Delivered(frames[at[k]].event))
    && (forall i :: 0 <= i < |frames| && frames[i].Depth? ==> i in at)
  }

  lemma {:induction false} DeliveriesInFrameOrder(frames: seq<Frame>) returns (at: seq<nat>)
    ensures InFrameOrder(frames, Deliveries(frames), at)
  {
    at := [];
    if frames != [] {
      var n := |frames| - 1;
      at := DeliveriesInFrameOrder(frames[..n]);
      if frames[n].Depth? {
        at := at + [n];
      }
    }
  }

  function SessionTrace(cfg: Config, frames: seq<Frame>, once: bool): seq<Notice> {
    [Connected] + (if once && cfg.notify then [Reconnected] else []) + Deliveries(frames) + [Lost]
  }

  /** What the loop does with the attempts ahead: once says whether it has ever been connected, delay is
      its current back-off. */
  function Trace(cfg: Config, script: seq<Attempt>, once: bool, delay: int): seq<Notice> {
    if script == [] then []
    else match script[0]
      case Fails(stop) =>
        if stop == BeforeWait then []
        else if stop == DuringWait then [Waiting(delay)]
        else [Waiting(delay)] + Trace(cfg, script[1..], once, Min(delay * 2, cfg.cap))
      case Session(frames, stopped) =>
        SessionTrace(cfg, frames, once) + if stopped then [] else Trace(cfg, script[1..], true, cfg.base)
  }

  class WSClient {
    const cfg: Config
    var conns: map<int, nat>   // live sockets by connection id; a socket is its serial number
    var dialled: nat

    constructor (cfg: Config)
      ensures this.cfg == cfg && conns == map[] && dialled == 0
    {
      this.cfg, conns, dialled := cfg, map[], 0;
    }

    method RegisterConnection(id: int, socket: nat)
      modifies this`conns
      ensures conns == old(conns)[id := socket]
    {
      conns := conns[id := socket];
    }

    /** Removes the socket only while it is still the current one. */
    method UnregisterConnection(id: int, socket: nat)
      modifies this`conns
      ensures conns == if id in old(conns) && old(conns)[id] == socket then old(conns) - {id} else old(conns)
    {
      if id in conns && conns[id] == socket {
        conns := conns - {id};
      }
    }

    /** Tries until it is connected or told to stop, waiting longer after every failure. */
    method ConnectWithBackoff(script: seq<Attempt>, from: nat, ghost once: bool)
      returns (waits: seq<Notice>, next: nat, connected: bool)
      requires from <= |script|
      ensures from <= next <= |script|
      ensures connected ==> next < |script| && script[next].Session?
      ensures forall i :: 0 <= i < |waits| ==> waits[i].Waiting?
      ensures Trace(cfg, script[from..], once, cfg.base)
              == waits + if connected then Trace(cfg, script[next..], once, cfg.base) else []
    {
      hide Trace;
      var delay := cfg.base;
      waits, next := [], from;
      while next < |script| && script[next].Fails?
        invariant from <= next <= |script| && forall i :: 0 <= i < |waits| ==> waits[i].Waiting?
        invariant Trace(cfg, script[from..], once, cfg.base) == waits + Trace(cfg, script[next..], once, delay)
      {
        var stop := script[next].stop;
        FailureFirst(cfg, script, next, once, delay);
        next := next + 1;
        if stop == BeforeWait {
          return waits, next, false;
        }
        waits := waits + [Waiting(delay)];
        if stop == DuringWait {
          return waits, next, false;
        }
        delay := Min(delay * 2, cfg.cap);
      }
      TraceAtEnd(cfg, script[next..], once, delay);
      return waits, next, next < |script|;
    }

    /** The read loop: events in order, frames that do not decode are skipped. */
    method ReadLoop(frames: seq<Frame>) returns (out: seq<Notice>, ghost at: seq<nat>)
      ensures out == Deliveries(frames)
      ensures InFrameOrder(frames, out, at)
    {
      out := [];
      for i := 0 to |frames|
        invariant out == Deliveries(frames[..i])
      {
        assert frames[..i + 1][..i] == frames[..i];
        if frames[i].Depth? {
          out := out + [Delivered(frames[i].event)];
        }
      }
      assert frames[..|frames|] == frames;
      at := DeliveriesInFrameOrder(frames);
    }

    /** One connection from its registration to its end; the callback fires unless it is the first. */
    method RunSession(id: int, frames: seq<Frame>, once: bool) returns (trace: seq<Notice>)
      modifies this
      ensures trace == SessionTrace(cfg, frames, once)
      ensures conns == old(conns) - {id}
    {
      dialled := dialled + 1;
      var socket := dialled;
      RegisterConnection(id, socket);
      trace := [Connected];
      if once && cfg.notify {
        trace := trace + [Reconnected];
      }
      var out, _ := ReadLoop(frames);
      trace := trace + out + [Lost];
      UnregisterConnection(id, socket);
    }

    /** One turn of the loop: connect, notify, read, unregister. */
    method RunOnce(id: int, script: seq<Attempt>, from: nat, once: bool)
      returns (trace: seq<Notice>, next: nat, again: bool)
      requires from <= |script|
      modifies this
      ensures from <= next <= |script| && (again ==> from < next && Connected in trace)
      ensures Trace(cfg, script[from..], once, cfg.base)
              == trace + if again then Trace(cfg, script[next..], true, cfg.base) else []
      ensures conns == if Connected in trace then old(conns) - {id} else old(conns)
    {
      hide SessionTrace, Trace;
      var connected;
      trace, next, connected := ConnectWithBackoff(script, from, once);
      if !connected {
        return trace, next, false;
      }
      SessionFirst(cfg, script[next..], once);
      var session := RunSession(id, script[next].frames, once);
      trace := trace + session;
      assert script[next..][1..] == script[next + 1..];
      again := !script[next].stopped;
      next := next + 1;
    }

    /** The whole life of one connection id. A socket it registered is never left behind. */
    method RunConnection(id: int, script: seq<Attempt>) returns (trace: seq<Notice>)
      modifies this
      ensures trace == Trace(cfg, script, false, cfg.base)
      ensures conns == if Connected in trace then old(conns) - {id} else old(conns)
    {
      hide Trace;
      trace := [];
      var connectedOnce, n, again := false, 0, true;
      assert script[0..] == script;
      while again
        invariant n <= |script|
        invariant Trace(cfg, script, false, cfg.base)
                  == trace + if again then Trace(cfg, script[n..], connectedOnce, cfg.base) else []
        invariant connectedOnce ==> Connected in trace
        invariant !connectedOnce && again ==> Connected !in trace
        invariant conns == if Connected in trace then old(conns) - {id} else old(conns)
        decreases |script| - n, again
      {
        var more;
        more, n, again := RunOnce(id, script, n, connectedOnce);
        trace := trace + more;
        connectedOnce := connectedOnce || again;
      }
    }
  }

  lemma {:induction false} FailureFirst(cfg: Config, script: seq<Attempt>, n: nat, once: bool, delay: int)
    requires n < |script| && script[n].Fails?
    ensures Trace(cfg, script[n..], once, delay) ==
            if script[n].stop == BeforeWait then []
            else if script[n].stop == DuringWait then [Waiting(delay)]
            else [Waiting(delay)] + Trace(cfg, script[n + 1..], once, Min(delay * 2, cfg.cap))
  {
    assert script[n..][0] == script[n] && script[n..][1..] == script[n + 1..];
  }

  /** Where the next attempt is no failure the back-off no longer matters. */
  lemma {:induction false} TraceAtEnd(cfg: Config, script: seq<Attempt>, once: bool, delay: int)
    requires script == [] || script[0].Session?
    ensures Trace(cfg, script, once, delay) == Trace(cfg, script, once, cfg.base)
    ensures script == [] ==> Trace(cfg, script, once, delay) == []
  {
  }

  lemma {:induction false} SessionFirst(cfg: Config, script: seq<Attempt>, once: bool)
    requires script != [] && script[0].Session?
    ensures Trace(cfg, script, once, cfg.base)
            == SessionTrace(cfg, script[0].frames, once) + if script[0].stopped then []
                else Trace(cfg, script[1..], true, cfg.base)
    ensures Connected in SessionTrace(cfg, script[0].frames, once)
  {
    assert SessionTrace(cfg, script[0].frames, once)[0] == Connected;
  }

  // ---------------------------------------------------------------- what every run of a loop shows

  lemma {:induction false} SessionCounts(cfg: Config, frames: seq<Frame>, once: bool)
    ensures multiset(SessionTrace(cfg, frames, once))[Connected] == 1
    ensures multiset(SessionTrace(cfg, frames, once))[Reconnected] == if once && cfg.notify then 1 else 0
  {
    hide Deliveries;
    var head := [Connected] + (if once && cfg.notify then [Reconnected] else []);
    var events := Deliveries(frames);
    assert Connected !in events && Reconnected !in events;
    assert multiset(SessionTrace(cfg, frames, once)) == multiset(head) + multiset(events) + multiset([Lost]);
    assert multiset(events)[Connected] == 0 && multiset(events)[Reconnected] == 0;
  }

  lemma {:induction false} ReconnectsFrom(cfg: Config, script: seq<Attempt>, once: bool, delay: int)
    requires cfg.notify
    ensures var notices := multiset(Trace(cfg, script, once, delay));
            notices[Reconnected] + (if !once && notices[Connected] > 0 then 1 else 0) == notices[Connected]
  {
    hide SessionTrace;
    if script != [] {
      var trace := Trace(cfg, script, once, delay);
      match script[0]
      case Fails(stop) =>
        if stop == Never {
          var rest := Trace(cfg, script[1..], once, Min(delay * 2, cfg.cap));
          ReconnectsFrom(cfg, script[1..], once, Min(delay * 2, cfg.cap));
          assert multiset(trace) == multiset([Waiting(delay)]) + multiset(rest);
        }
      case Session(frames, stopped) =>
        var session := SessionTrace(cfg, frames, once);
        var rest := if stopped then [] else Trace(cfg, script[1..], true, cfg.base);
        ReconnectsFrom(cfg, script[1..], true, cfg.base);
        SessionCounts(cfg, frames, once);
        assert multiset(trace) == multiset(session) + multiset(rest);
    }
  }

  /** The callback fires once less than the loop connects, and never for the first connection. */
  lemma {:induction false} ReconnectsAreConnectsMinusOne(cfg: Config, script: seq<Attempt>)
    requires cfg.notify
    ensures var notices := multiset(Trace(cfg, script, false, cfg.base));
            notices[Reconnected] == if notices[Connected] == 0 then 0 else notices[Connected] - 1
  {
    hide Trace;
    ReconnectsFrom(cfg, script, false, cfg.base);
  }

  /** There was a connection before position k, or before the trace began. */
  predicate Seen(trace: seq<Notice>, k: nat, once: bool) {
    once || exists j :: 0 <= j < k && j < |trace| && trace[j] == Connected
  }

  /** A reconnect notice stands right behind every connect but the first, and nowhere else. */
  ghost predicate WellPlaced(cfg: Config, trace: seq<Notice>, once: bool) {
    forall k :: 0 <= k < |trace| ==> WellPlacedAt(cfg, trace, once, k)
  }

  ghost predicate WellPlacedAt(cfg: Config, trace: seq<Notice>, once: bool, k: nat)
    requires k < |trace|
  {
    trace[k] == Reconnected <==> cfg.notify && k > 0 && trace[k - 1] == Connected && Seen(trace, k - 1, once)
  }

  lemma {:induction false} SessionPlaced(cfg: Config, frames: seq<Frame>, once: bool, rest: seq<Notice>)
    requires WellPlaced(cfg, rest, true)
    ensures WellPlaced(cfg, SessionTrace(cfg, frames, once) + rest, once)
  {
    var session := SessionTrace(cfg, frames, once);
    var trace, n := session + rest, |session|;
    assert session[0] == Connected && session[n - 1] == Lost;
    forall k | 0 <= k < |trace| ensures WellPlacedAt(cfg, trace, once, k) {
      if k > n {
        assert trace[0] == Connected;
        assert trace[k] == rest[k - n] && trace[k - 1] == rest[k - n - 1];
        assert WellPlacedAt(cfg, rest, true, k - n);
      } else if k == n {
        assert trace[k] == rest[0];
        assert WellPlacedAt(cfg, rest, true, 0);
      } else if k > 1 {
        assert session[k - 1] != Connected && session[k] != Reconnected;
      }
    }
  }

  lemma {:induction false} NoticesAreWellPlaced(cfg: Config, script: seq<Attempt>, once: bool, delay: int)
    ensures WellPlaced(cfg, Trace(cfg, script, once, delay), once)
  {
    if script != [] {
      match script[0]
      case Fails(stop) =>
        if stop == Never {
          var rest := Trace(cfg, script[1..], once, Min(delay * 2, cfg.cap));
          NoticesAreWellPlaced(cfg, script[1..], once, Min(delay * 2, cfg.cap));
          WaitPlaced(cfg, delay, rest, once);
        }
      case Session(frames, stopped) =>
        NoticesAreWellPlaced(cfg, script[1..], true, cfg.base);
        SessionPlaced(cfg, frames, once, if stopped then [] else Trace(cfg, script[1..], true, cfg.base));
    }
  }

  lemma {:induction false} WaitPlaced(cfg: Config, delay: int, rest: seq<Notice>, once: bool)
    requires WellPlaced(cfg, rest, once)
    ensures WellPlaced(cfg, [Waiting(delay)] + rest, once)
  {
    var trace := [Waiting(delay)] + rest;
    forall k | 0 <= k < |trace| ensures WellPlacedAt(cfg, trace, once, k) {
      if k > 0 {
        assert trace[k] == rest[k - 1];
        assert WellPlacedAt(cfg, rest, once, k - 1);
      }
      if k > 1 {
        assert trace[k - 1] == rest[k - 2];
        SeenBehind(delay, rest, k - 2, once);
      }
    }
  }

  lemma {:induction false} SeenBehind(delay: int, rest: seq<Notice>, k: nat, once: bool)
    ensures Seen([Waiting(delay)] + rest, k + 1, once) <==> Seen(rest, k, once)
  {
    var trace := [Waiting(delay)] + rest;
    if j :| 0 <= j < k + 1 && j < |trace| && trace[j] == Connected {
      assert rest[j - 1] == Connected;
    }
    if j :| 0 <= j < k && j < |rest| && rest[j] == Connected {
      assert trace[j + 1] == Connected;
    }
  }

  /** How many waits stand right before position k. */
  function Streak(trace: seq<Notice>, k: nat): (n: nat)
    requires k <= |trace|
    ensures n <= k
  {
    if k == 0 || !trace[k - 1].Waiting? then 0 else 1 + Streak(trace, k - 1)
  }

  lemma {:induction false} StreakBehind(front: seq<Notice>, rest: seq<Notice>, k: nat)
    requires k <= |rest| && front != []
    ensures Streak(front + rest, |front| + k) ==
            if Streak(rest, k) == k then k + Streak(front, |front|) else Streak(rest, k)
  {
    if k > 0 {
      StreakBehind(front, rest, k - 1);
      assert (front + rest)[|front| + k - 1] == rest[k - 1];
    } else {
      StreakOfPrefix(front, rest, |front|);
    }
  }

  lemma {:induction false} StreakOfPrefix(front: seq<Notice>, rest: seq<Notice>, k: nat)
    requires k <= |front|
    ensures Streak(front + rest, k) == Streak(front, k)
  {
    if k > 0 {
      StreakOfPrefix(front, rest, k - 1);
    }
  }

  /** Before the loop has been connected again, m failures of this outage already lie behind it. */
  lemma {:induction false} WaitsFollowDelays(cfg: Config, script: seq<Attempt>, once: bool, m: nat, k: nat)
    requires k < |Trace(cfg, script, once, Delay(cfg.base, cfg.cap, m))|
    ensures var trace := Trace(cfg, script, once, Delay(cfg.base, cfg.cap, m));
            trace[k].Waiting? ==>
              trace[k].delay == Delay(cfg.base, cfg.cap, Streak(trace, k) + if Streak(trace, k) == k then m else 0)
  {
    hide SessionTrace;
    if script[0].Fails? {
      if k > 0 {
        WaitsFollowDelays(cfg, script[1..], once, m + 1, k - 1);
        WaitAhead(Delay(cfg.base, cfg.cap, m), Trace(cfg, script[1..], once, Delay(cfg.base, cfg.cap, m + 1)), k - 1);
      }
    } else {
      var front := SessionTrace(cfg, script[0].frames, once);
      var rest := if script[0].stopped then [] else Trace(cfg, script[1..], true, Delay(cfg.base, cfg.cap, 0));
      SessionAhead(cfg, script[0].frames, once, rest, k);
      if k >= |front| {
        WaitsFollowDelays(cfg, script[1..], true, 0, k - |front|);
      }
    }
  }

  lemma {:induction false} WaitAhead(delay: int, rest: seq<Notice>, k: nat)
    requires k <= |rest|
    ensures Streak([Waiting(delay)] + rest, k + 1) == if Streak(rest, k) == k then k + 1 else Streak(rest, k)
  {
    StreakBehind([Waiting(delay)], rest, k);
    assert Streak([Waiting(delay)], 1) == 1;
  }

  /** A session has no waits in it, and ends the streak before it. */
  lemma {:induction false} SessionAhead(cfg: Config, frames: seq<Frame>, once: bool, rest: seq<Notice>, k: nat)
    requires k < |SessionTrace(cfg, frames, once) + rest|
    ensures var front := SessionTrace(cfg, frames, once);
            if k < |front| then !(front + rest)[k].Waiting?
            else (front + rest)[k] == rest[k - |front|] && Streak(front + rest, k) == Streak(rest, k - |front|)
                 && Streak(front + rest, k) < k
  {
    var front := SessionTrace(cfg, frames, once);
    if k >= |front| {
      StreakBehind(front, rest, k - |front|);
      assert front[|front| - 1] == Lost;
    }
  }

  lemma {:induction false} StreakIs(trace: seq<Notice>, k: nat, n: nat)
    requires n <= k <= |trace| && (forall j :: k - n <= j < k ==> trace[j].Waiting?)
    requires n < k ==> !trace[k - n - 1].Waiting?
    ensures Streak(trace, k) == n
  {
    if n > 0 {
      StreakIs(trace, k - 1, n - 1);
    }
  }

  /** In every run, whatever fails and whenever: a wait with n waits right before it is the base doubled n times,
      cut off at the cap, and a connection starts the count again. */
  lemma {:induction false} WaitsClosedForm(cfg: Config, script: seq<Attempt>, k: nat, n: nat)
    requires 1 <= cfg.base <= cfg.cap && n <= k < |Trace(cfg, script, false, cfg.base)|
    requires forall j :: k - n <= j <= k ==> Trace(cfg, script, false, cfg.base)[j].Waiting?
    requires n < k ==> !Trace(cfg, script, false, cfg.base)[k - n - 1].Waiting?
    ensures Trace(cfg, script, false, cfg.base)[k].delay == Min(cfg.base * Pow2(n), cfg.cap)
  {
    hide Trace;
    StreakIs(Trace(cfg, script, false, cfg.base), k, n);
    WaitsFollowDelays(cfg, script, false, 0, k);
    DelayClosedForm(cfg.base, cfg.cap, n);
  }

  // ---------------------------------------------------------------- a run, attempt by attempt

  /** After this attempt the loop makes another. */
  predicate GoesOn(a: Attempt) {
    if a.Fails? then a.stop == Never else !a.stopped
  }

  /** There was a session before the k-th attempt, or before the script began. */
  ghost predicate HadSession(script: seq<Attempt>, once: bool, k: nat) {
    once || exists j :: 0 <= j < k && j < |script| && script[j].Session?
  }

  /** The events of a session stand between its connect and its end, in frame order. */
  ghost predicate ShowsSession(frames: seq<Frame>, again: bool, part: seq<Notice>) {
    exists out: seq<Notice>, at: seq<nat> ::
      InFrameOrder(frames, out, at)
      && part == (if again then [Connected, Reconnected] else [Connected]) + out + [Lost]
  }

  /** What the k-th attempt leaves in the trace. */
  ghost predicate Shows(cfg: Config, script: seq<Attempt>, once: bool, k: nat, part: seq<Notice>)
    requires k < |script|
  {
    match script[k]
    case Fails(stop) => if stop == BeforeWait then part == [] else |part| == 1 && part[0].Waiting?
    case Session(frames, _) => ShowsSession(frames, HadSession(script, once, k) && cfg.notify, part)
  }

  /** The trace falls into consecutive parts, one for each attempt made. */
  ghost predicate ShowsEach(cfg: Config, script: seq<Attempt>, once: bool, trace: seq<Notice>, start: seq<nat>) {
    && 0 < |start| <= |script| + 1 && start[0] == 0 && start[|start| - 1] == |trace|
    && (forall k :: 0 <= k < |start| - 1 ==> PartAt(cfg, script, once, trace, start, k))
  }

  ghost predicate PartAt(cfg: Config, script: seq<Attempt>, once: bool, trace: seq<Notice>, start: seq<nat>, k: nat)
    requires k < |start| - 1 <= |script|
  {
    start[k] <= start[k + 1] <= |trace| && Shows(cfg, script, once, k, trace[start[k]..start[k + 1]])
  }

  /** A whole run, attempt by attempt: p is the first one the loop does not go on from, if any, and the trace is
      what the attempts up to there leave, one part after the other. A failure leaves one wait, unless the
      context ends first; a session leaves its connect, the notice unless it is the first session, the
      events of its depth frames in order, and its end. */
  lemma {:induction false} TraceShowsEachAttempt(cfg: Config, script: seq<Attempt>, once: bool, delay: int, p: nat)
    returns (start: seq<nat>)
    requires p <= |script| && (forall k :: 0 <= k < p ==> GoesOn(script[k])) && (p < |script| ==> !GoesOn(script[p]))
    ensures |start| == if p < |script| then p + 2 else p + 1
    ensures ShowsEach(cfg, script, once, Trace(cfg, script, once, delay), start)
  {
    hide SessionTrace, ShowsSession, HadSession;
    if script == [] {
      start := [0];
    } else {
      var first, once', delay' := FirstPart(cfg, script, once, delay);
      var trace := Trace(cfg, script, once, delay);
      if p == 0 {
        start := [0, |trace|];
        assert trace[0..|trace|] == first;
        assert PartAt(cfg, script, once, trace, start, 0);
      } else {
        var rest := script[1..];
        assert forall k :: 0 <= k < |rest| ==> rest[k] == script[k + 1];
        var start' := TraceShowsEachAttempt(cfg, rest, once', delay', p - 1);
        start := PartBefore(cfg, script, once, first, once', Trace(cfg, rest, once', delay'), start');
      }
    }
  }

  /** The first attempt's part, and what the loop carries over to the next. */
  lemma {:induction false} FirstPart(cfg: Config, script: seq<Attempt>, once: bool, delay: int)
    returns (first: seq<Notice>, once': bool, delay': int)
    requires script != []
    ensures once' == (once || script[0].Session?) && Shows(cfg, script, once, 0, first)
    ensures Trace(cfg, script, once, delay)
            == first + if GoesOn(script[0]) then Trace(cfg, script[1..], once', delay') else []
  {
    if script[0].Session? {
      var frames := script[0].frames;
      once', delay' := true, cfg.base;
      first := SessionTrace(cfg, frames, once);
      var at := DeliveriesInFrameOrder(frames);
      assert HadSession(script, once, 0) == once;
      assert InFrameOrder(frames, Deliveries(frames), at);
      assert first == (if once && cfg.notify then [Connected, Reconnected] else [Connected])
                      + Deliveries(frames) + [Lost];
      assert ShowsSession(frames, once && cfg.notify, first);
    } else {
      once', delay' := once, Min(delay * 2, cfg.cap);
      first := if script[0].stop == BeforeWait then [] else [Waiting(delay)];
    }
  }

  /** One more part in front. */
  lemma {:induction false} PartBefore(cfg: Config, script: seq<Attempt>, once: bool, first: seq<Notice>, once': bool,
                                      trace': seq<Notice>, start': seq<nat>)
    returns (start: seq<nat>)
    requires script != [] && once' == (once || script[0].Session?) && Shows(cfg, script, once, 0, first)
    requires ShowsEach(cfg, script[1..], once', trace', start')
    ensures |start| == |start'| + 1 && ShowsEach(cfg, script, once, first + trace', start)
  {
    hide Shows;
    var n, trace := |first|, first + trace';
    start := [0] + seq(|start'|, i requires 0 <= i < |start'| => n + start'[i]);
    forall k | 0 <= k < |start| - 1 ensures PartAt(cfg, script, once, trace, start, k) {
      if k == 0 {
        assert trace[0..n] == first;
      } else {
        assert PartAt(cfg, script[1..], once', trace', start', k - 1);
        assert trace[start[k]..start[k + 1]] == trace'[start'[k - 1]..start'[k]];
        SameShow(cfg, script, once, once', k, trace'[start'[k - 1]..start'[k]]);
      }
    }
  }

  lemma {:induction false} SameShow(cfg: Config, script: seq<Attempt>, once: bool, once': bool, k: nat,
                                    part: seq<Notice>)
    requires 0 < k < |script| && once' == (once || script[0].Session?) && Shows(cfg, script[1..], once', k - 1, part)
    ensures Shows(cfg, script, once, k, part)
  {
    hide ShowsSession;
    assert HadSession(script, once, k) == HadSession(script[1..], once', k - 1) by {
      if j :| 0 <= j < k && script[j].Session? {
        assert j > 0 ==> script[1..][j - 1].Session?;
      }
      if j :| 0 <= j < k - 1 && script[1..][j].Session? {
        assert script[j + 1].Session?;
      }
    }
  }

  // ---------------------------------------------------------------- the registry under any interleaving

  datatype Op = Register(id: int, socket: nat) | Unregister(id: int, socket: nat) | CloseAll

  function Registry(ops: seq<Op>): map<int, nat> {
    if ops == [] then map[]
    else
      var conns := Registry(ops[..|ops| - 1]);
      match ops[|ops| - 1]
      case Register(id, socket) => conns[id := socket]
      case Unregister(id, socket) => if id in conns && conns[id] == socket then conns - {id} else conns
      case CloseAll => map[]
  }

  /** The operation takes the socket out of the registry or puts another in its place. */
  predicate Displaces(op: Op, id: int, socket: nat) {
    match op
    case Register(i, _) => i == id
    case Unregister(i, s) => i == id && s == socket
    case CloseAll => true
  }

  ghost predicate LiveSince(ops: seq<Op>, id: int, socket: nat, n: nat) {
    n < |ops| && ops[n] == Register(id, socket) && forall m :: n < m < |ops| ==> !Displaces(ops[m], id, socket)
  }

  /** Whoever registers and unregisters in whatever order: a socket is in the registry exactly when
      nothing since its registration replaced it, removed that very socket, or closed everything. In
      particular unregistering an older socket never removes a newer one. */
  lemma {:induction false} RegisteredIffLive(ops: seq<Op>, id: int, socket: nat)
    ensures (id in Registry(ops) && Registry(ops)[id] == socket) <==> exists n: nat :: LiveSince(ops, id, socket, n)
  {
    if ops != [] {
      var k := |ops| - 1;
      RegisteredIffLive(ops[..k], id, socket);
      if n: nat :| LiveSince(ops[..k], id, socket, n) && !Displaces(ops[k], id, socket) {
        assert LiveSince(ops, id, socket, n);
      }
      if n: nat :| LiveSince(ops, id, socket, n) {
        if n < k {
          assert LiveSince(ops[..k], id, socket, n);
        }
      }
      if ops[k] == Register(id, socket) {
        assert LiveSince(ops, id, socket, k);
      }
    }
  }
}
