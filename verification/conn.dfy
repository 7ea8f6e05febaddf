/** One kline connection: dial, subscribe, read, and a back-off that a delivered message resets. */
module Conn {
  import opened Wrappers
  import opened Sharding

  const MAX_BACKOFF := 60

  function NextBackoff(current: int): int {
    var next := current * 2;
    if next > MAX_BACKOFF then MAX_BACKOFF else next
  }

  /** What one read brings: a message that is handed on, a message that arrives as the context ends and
      is not, or a failure. When the list ends the context has ended. */
  datatype Read = Message(payload: string) | Unforwarded(payload: string) | ReadError

  /** One pass of the loop: the dial fails, the subscription with this number cannot be sent, or the
      session is read. quit: the context ends during the wait that follows. */
  datatype Attempt =
    | DialFails(quit: bool)
    | SubscribeFails(at: nat, quit: bool)
    | Session(frames: seq<Read>, quit: bool)

  /** The messages handed on, in order. */
  function Forwarded(frames: seq<Read>): seq<string> {
    if frames == [] || !frames[0].Message? then [] else [frames[0].payload] + Forwarded(frames[1..])
  }

  /** The session ends in an error rather than with the context. */
  predicate Breaks(frames: seq<Read>) {
    frames != [] && (frames[0].ReadError? || (frames[0].Message? && Breaks(frames[1..])))
  }

  predicate HadMessage(frames: seq<Read>) {
    frames != [] && !frames[0].ReadError?
  }

  predicate Resets(a: Attempt) {
    a.Session? && HadMessage(a.frames)
  }

  /** The attempt is followed by a wait; otherwise the loop returns without one. */
  predicate Waits(a: Attempt) {
    a.Session? ==> Breaks(a.frames)
  }

  /** The waits of a run, in seconds. */
  function Delays(script: seq<Attempt>, backoff: int): seq<int> {
    if script == [] || !Waits(script[0]) then []
    else
      var wait := if Resets(script[0]) then 1 else backoff;
      [wait] + if script[0].quit then [] else Delays(script[1..], NextBackoff(wait))
  }

  /** The messages of a run, over all its sessions. */
  function Delivered(script: seq<Attempt>): seq<string> {
    if script == [] then []
    else
      (if script[0].Session? then Forwarded(script[0].frames) else [])
      + if Waits(script[0]) && !script[0].quit then Delivered(script[1..]) else []
  }

  class KlineConn {
    const subscriptions: seq<Subscription>
    var conn: Option<nat>   // the open socket, by serial number
    var dialled: nat

    constructor (subscriptions: seq<Subscription>)
      ensures this.subscriptions == subscriptions && conn == None
    {
      this.subscriptions, conn, dialled := subscriptions, None, 0;
    }

    method Close()
      modifies this`conn
      ensures conn == None
    {
      if conn.Some? {
        conn := None;
      }
    }

    /** Sends every subscription in order, up to the first that fails. */
    method SubscribeAll(failsAt: Option<nat>) returns (sent: seq<Subscription>, ok: bool)
      ensures ok <==> (conn.Some? && (failsAt.None? || failsAt.value >= |subscriptions|)) || subscriptions == []
      ensures ok ==> sent == subscriptions
      ensures !ok ==> sent == if conn.None? then [] else subscriptions[..failsAt.value]
    {
      sent := [];
      for i := 0 to |subscriptions|
        invariant sent == subscriptions[..i]
        invariant i > 0 ==> conn.Some? && (failsAt.None? || failsAt.value >= i)
      {
        if conn.None? || failsAt == Some(i) {
          return sent, false;
        }
        sent := sent + [subscriptions[i]];
      }
      return sent, true;
    }

    /** Hands messages on until the socket fails or the context ends. */
    method ReadLoop(frames: seq<Read>) returns (out: seq<string>, hadMessage: bool, broke: bool)
      ensures out == Forwarded(frames)
      ensures hadMessage <==> frames != [] && !frames[0].ReadError?
      ensures broke <==> Breaks(frames)
    {
      out, hadMessage := [], false;
      var i := 0;
      while i < |frames|
        invariant i <= |frames|
        invariant Forwarded(frames) == out + Forwarded(frames[i..])
        invariant Breaks(frames) <==> Breaks(frames[i..])
        invariant if i == 0 then !hadMessage else hadMessage && HadMessage(frames)
      {
        assert frames[i..][1..] == frames[i + 1..];
        if frames[i].ReadError? {
          return out, hadMessage, true;
        }
        hadMessage := true;
        if frames[i].Unforwarded? {
          return out, hadMessage, false;
        }
        out := out + [frames[i].payload];
        i := i + 1;
      }
      return out, hadMessage, false;
    }

    /** One pass; afterwards no socket is open. */
    method RunOnce(attempt: Attempt) returns (out: seq<string>, waits: bool, reset: bool)
      requires conn == None && (attempt.SubscribeFails? ==> attempt.at < |subscriptions|)
      modifies this
      ensures conn == None
      ensures out == if attempt.Session? then Forwarded(attempt.frames) else []
      ensures waits <==> Waits(attempt)
      ensures waits ==> (reset <==> Resets(attempt))
    {
      if attempt.DialFails? {
        return [], true, false;
      }
      dialled := dialled + 1;
      conn := Some(dialled);
      var _, ok := SubscribeAll(if attempt.SubscribeFails? then Some(attempt.at) else None);
      if !ok {
        Close();
        return [], true, false;
      }
      var hadMessage, broke;
      out, hadMessage, broke := ReadLoop(attempt.frames);
      Close();
      return out, broke, hadMessage;
    }

    /** The reconnect loop. Whichever way it returns, no socket is left open. */
    method Run(script: seq<Attempt>) returns (waits: seq<int>, out: seq<string>)
      requires conn == None
      requires forall i :: 0 <= i < |script| && script[i].SubscribeFails? ==> script[i].at < |subscriptions|
      modifies this
      ensures conn == None
      ensures waits == Delays(script, 1)
      ensures out == Delivered(script)
    {
      hide *;
      waits, out := [], [];
      var backoff, n, again := 1, 0, true;
      assert script[0..] == script;
      NothingAhead(1);
      while again && n < |script|
        invariant n <= |script| && conn == None
        invariant Delays(script, 1) == waits + if again then Delays(script[n..], backoff) else []
        invariant Delivered(script) == out + if again then Delivered(script[n..]) else []
        decreases |script| - n
      {
        OneAhead(script, n, backoff);
        var more, waiting, reset := RunOnce(script[n]);
        again := waiting && !script[n].quit;
        Associates(out, more, if again then Delivered(script[n + 1..]) else []);
        out := out + more;
        if waiting && reset {
          backoff := 1;
        }
        var wait := if waiting then [backoff] else [];
        Associates(waits, wait, if again then Delays(script[n + 1..], NextBackoff(backoff)) else []);
        waits := waits + wait;
        backoff := NextBackoff(backoff);
        n := n + 1;
      }
      assert script[|script|..] == [];
      NothingAhead(backoff);
    }
  }

  lemma {:induction false} Associates<T>(a: seq<T>, b: seq<T>, c: seq<T>)
    ensures a + (b + c) == (a + b) + c
  {
  }

  lemma {:induction false} NothingAhead(backoff: int)
    ensures Delays([], backoff) == [] && Delivered([]) == []
  {
  }

  lemma {:induction false} OneAhead(script: seq<Attempt>, n: nat, backoff: int)
    requires n < |script|
    ensures var a := script[n];
            var wait, again := if Resets(a) then 1 else backoff, Waits(a) && !a.quit;
            && Delays(script[n..], backoff)
               == (if Waits(a) then [wait] else []) + (if again then Delays(script[n + 1..], NextBackoff(wait)) else [])
            && Delivered(script[n..])
               == (if a.Session? then Forwarded(a.frames) else []) + (if again then Delivered(script[n + 1..]) else [])
  {
    hide NextBackoff, Waits, Resets, Forwarded;
    assert script[n..][1..] == script[n + 1..] && script[n..][0] == script[n];
  }

  /** What is handed on is the payloads of the leading messages, and nothing after them. */
  lemma {:induction false} ForwardedIsPrefix(frames: seq<Read>, n: nat)
    requires n <= |frames| && (forall i :: 0 <= i < n ==> frames[i].Message?) && (n < |frames| ==> !frames[n].Message?)
    ensures |Forwarded(frames)| == n && forall i :: 0 <= i < n ==> Forwarded(frames)[i] == frames[i].payload
    ensures Breaks(frames) <==> n < |frames| && frames[n].ReadError?
    ensures HadMessage(frames) <==> n > 0 || (n < |frames| && frames[n].Unforwarded?)
  {
    if n > 0 {
      ForwardedIsPrefix(frames[1..], n - 1);
    }
  }

  // ---------------------------------------------------------------- the back-off of a whole run

  lemma {:induction false} DelaysAreBounded(script: seq<Attempt>, backoff: int)
    ensures |Delays(script, backoff)| <= |script|
  {
    hide NextBackoff, Waits, Resets;
    if script != [] {
      DelaysAreBounded(script[1..], NextBackoff(if Resets(script[0]) then 1 else backoff));
    }
  }

  lemma {:induction false} DelayAt(script: seq<Attempt>, backoff: int, i: nat)
    requires i < |Delays(script, backoff)|
    ensures i < |script|
    ensures Delays(script, backoff)[i] ==
            if Resets(script[i]) then 1
            else if i == 0 then backoff
            else NextBackoff(Delays(script, backoff)[i - 1])
  {
    hide NextBackoff, Waits, Resets;
    if i > 0 {
      DelayAt(script[1..], NextBackoff(if Resets(script[0]) then 1 else backoff), i - 1);
    }
  }

  /** Closed form over every failure run: from the start, and again from each wait behind a session in which
      something other than a failure was read first, the delays are 1, 2, 4, 8, 16 and 32 seconds and then a
      minute each. */
  lemma {:induction false} DelaysClosedForm(script: seq<Attempt>, r: nat, i: nat)
    requires r <= i < |Delays(script, 1)|
    requires r == 0 || (r < |script| && script[r].Session? && script[r].frames != [] && !script[r].frames[0].ReadError?)
    requires forall k :: r < k <= i && k < |script| && script[k].Session? ==>
               script[k].frames == [] || script[k].frames[0].ReadError?
    ensures i < |script|
    ensures Delays(script, 1)[i] == if i - r < 6 then [1, 2, 4, 8, 16, 32][i - r] else 60
  {
    hide Waits, Delays;
    DelayAt(script, 1, i);
    if r < i {
      DelaysClosedForm(script, r, i - 1);
    }
  }

  /** A wait is one second exactly when the loop has just started or something other than a failure was the
      first thing read in the session before it. */
  lemma {:induction false} OneSecondIffReset(script: seq<Attempt>, i: nat)
    requires i < |Delays(script, 1)|
    ensures i < |script|
    ensures Delays(script, 1)[i] == 1
            <==> i == 0 || (script[i].Session? && script[i].frames != [] && !script[i].frames[0].ReadError?)
  {
    hide Waits, Delays;
    DelayAt(script, 1, i);
    if i > 0 && !Resets(script[i]) {
      DelaysArePositive(script, i - 1);
    }
  }

  lemma {:induction false} DelaysArePositive(script: seq<Attempt>, i: nat)
    requires i < |Delays(script, 1)|
    ensures Delays(script, 1)[i] >= 1
  {
    hide Waits, Resets, Delays;
    DelayAt(script, 1, i);
    if i > 0 {
      DelaysArePositive(script, i - 1);
    }
  }

  // ---------------------------------------------------------------- how far a run goes

  lemma {:induction false} FlattenFirst<T>(first: seq<T>, rest: seq<seq<T>>)
    ensures Flatten([first] + rest) == first + Flatten(rest)
  {
    var all := [first] + rest;
    if rest == [] {
      assert all[..0] == [];
    } else {
      var n := |rest| - 1;
      assert all[..n + 1] == [first] + rest[..n];
      FlattenFirst(first, rest[..n]);
    }
  }

  /** What each attempt hands on. */
  function Shares(script: seq<Attempt>): (r: seq<seq<string>>)
    ensures |r| == |script|
    ensures forall k :: 0 <= k < |r| ==> r[k] == if script[k].Session? then Forwarded(script[k].frames) else []
  {
    seq(|script|, k requires 0 <= k < |script| => if script[k].Session? then Forwarded(script[k].frames) else [])
  }

  /** The loop goes on to the next attempt as long as attempts fail, or their sessions break, and no wait is cut
      short. p is the first attempt it does not go on from, if any: there is one wait for each attempt before,
      one more if p fails or breaks too, and the messages handed on are those of p and of the attempts before. */
  lemma {:induction false} RunGoesOnUntil(script: seq<Attempt>, p: nat, backoff: int)
    requires p <= |script|
    requires forall k :: 0 <= k < p ==> !script[k].quit && (script[k].Session? ==> Breaks(script[k].frames))
    requires p < |script| ==> script[p].quit || (script[p].Session? && !Breaks(script[p].frames))
    ensures |Delays(script, backoff)|
            == p + if p < |script| && (script[p].Session? ==> Breaks(script[p].frames)) then 1 else 0
    ensures Delivered(script) == Flatten(Shares(script[..if p < |script| then p + 1 else p]))
  {
    hide Breaks, Forwarded, Resets, NextBackoff, Flatten;
    if script == [] {
      NothingShared();
    } else {
      var done := script[..if p < |script| then p + 1 else p];
      SharesPeel(done);
      if p == 0 {
        assert done[1..] == [];
        NothingShared();
      } else {
        var rest := script[1..];
        assert forall k :: 0 <= k < |rest| ==> rest[k] == script[k + 1];
        RunGoesOnUntil(rest, p - 1, NextBackoff(if Resets(script[0]) then 1 else backoff));
        assert done[1..] == rest[..if p < |script| then p else p - 1];
      }
    }
  }

  lemma {:induction false} NothingShared()
    ensures Shares([]) == [] && Flatten(Shares([])) == []
  {
  }

  lemma {:induction false} SharesPeel(done: seq<Attempt>)
    requires done != []
    ensures Flatten(Shares(done)) == Shares(done)[0] + Flatten(Shares(done[1..]))
  {
    hide Flatten, Forwarded;
    FlattenFirst(Shares(done)[0], Shares(done[1..]));
    assert Shares(done) == [Shares(done)[0]] + Shares(done[1..]);
  }
}
