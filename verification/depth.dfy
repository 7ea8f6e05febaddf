/** Fetching a depth snapshot over REST: three requests at most, and what is retried. */
module DepthRest {
  import opened Wrappers

  const MAX_RETRIES := 3
  const SECOND := 1_000_000_000
  const RETRY_DELAY := 2 * SECOND
  const RATE_LIMIT_FALLBACK := 5 * SECOND
  const TWO_TO_63 := 0x8000_0000_0000_0000

  /** A Retry-After header: absent, a 64-bit number, a date so many nanoseconds away, or neither. */
  datatype RetryAfter = Missing | Seconds(n: int) | Date(until: int) | Unreadable

  /** Multiplication of 64-bit durations wraps. */
  function Wrapped(n: int): int {
    (n + TWO_TO_63) % (2 * TWO_TO_63) - TWO_TO_63
  }

  function ParseRetryAfter(header: RetryAfter, fallback: int): int {
    match header
    case Missing => fallback
    case Seconds(n) => if n > 0 then Wrapped(n * SECOND) else fallback
    case Date(until) => if until <= 0 then fallback else until
    case Unreadable => fallback
  }

  /** A positive number of seconds is honoured to the letter exactly up to the 64-bit limit. */
  lemma {:induction false} SecondsHonouredIff(n: int, fallback: int)
    requires 0 < n < TWO_TO_63
    ensures ParseRetryAfter(Seconds(n), fallback) == n * SECOND <==> n <= 9_223_372_036
  {
    if n <= 9_223_372_036 {
      assert n * SECOND < TWO_TO_63;
    } else {
      assert n * SECOND >= TWO_TO_63;
    }
  }

  /** Beyond it the product wraps around: what is waited for is the one 64-bit number that differs from it by a
      multiple of two to the 64th. Dates are waited for until they are due; everything else, and whatever is
      not in the future, gets the fallback. */
  lemma {:induction false} RetryAfterIs(header: RetryAfter, fallback: int)
    ensures match header
            case Seconds(n) =>
              var wait := ParseRetryAfter(header, fallback);
              if n > 0
              then -0x8000_0000_0000_0000 <= wait < 0x8000_0000_0000_0000
                   && exists k :: n * 1_000_000_000 == wait + k * 0x1_0000_0000_0000_0000
              else wait == fallback
            case Date(until) => ParseRetryAfter(header, fallback) == if until > 0 then until else fallback
            case _ => ParseRetryAfter(header, fallback) == fallback
  {
    if header.Seconds? && header.n > 0 {
      var x := header.n * 1_000_000_000;
      var k := (x + TWO_TO_63) / (2 * TWO_TO_63);
      assert x == ParseRetryAfter(header, fallback) + k * 0x1_0000_0000_0000_0000;
    }
  }

  datatype Answer = Unreachable | Response(status: int, retryAfter: RetryAfter, body: Option<string>)

  datatype Fault = RequestFailed | RateLimited | ServerError(status: int) | Undecodable

  datatype Outcome = Fetched(snapshot: string) | Refused(status: int) | Interrupted | Exhausted(last: Fault)

  /** Why an answer is worth another try; None if it settles the matter. */
  function FaultOf(a: Answer): Option<Fault> {
    match a
    case Unreachable => Some(RequestFailed)
    case Response(status, _, body) =>
      if status == 429 then Some(RateLimited)
      else if status >= 500 then Some(ServerError(status))
      else if status == 200 && body.None? then Some(Undecodable)
      else None
  }

  function WaitFor(a: Answer): int
    requires FaultOf(a).Some?
  {
    if FaultOf(a) == Some(RateLimited) then ParseRetryAfter(a.retryAfter, RATE_LIMIT_FALLBACK) else RETRY_DELAY
  }

  /** A faulty answer is followed by a wait, except that only a rate limit makes the last try wait. */
  predicate Pauses(answers: nat -> Answer, attempt: nat) {
    FaultOf(answers(attempt)).Some? && (attempt < MAX_RETRIES || FaultOf(answers(attempt)) == Some(RateLimited))
  }

  /** Which answers are tried again, which of them are followed by a wait, and for how long: a rate limit for as
      long as its header says or five seconds, even on the third try; no answer, a server error and a body that
      does not decode for two seconds, but not on the third try. */
  lemma {:induction false} RetriedIff(answers: nat -> Answer, attempt: nat)
    ensures var a := answers(attempt);
            var limited := a.Response? && a.status == 429;
            var broken := a.Unreachable? || a.status >= 500 || (a.status == 200 && a.body.None?);
            && (FaultOf(a).Some? <==> limited || broken)
            && (limited ==> FaultOf(a) == Some(RateLimited))
            && (a.Unreachable? ==> FaultOf(a) == Some(RequestFailed))
            && (a.Response? && a.status >= 500 ==> FaultOf(a) == Some(ServerError(a.status)))
            && (a.Response? && a.status == 200 && a.body.None? ==> FaultOf(a) == Some(Undecodable))
            && (Pauses(answers, attempt) <==> limited || (broken && attempt < 3))
            && (limited ==> WaitFor(a) == ParseRetryAfter(a.retryAfter, 5_000_000_000))
            && (broken ==> WaitFor(a) == 2_000_000_000)
  {
    hide ParseRetryAfter;
  }

  /** The outcome a run of this many requests must have. */
  ghost predicate Justified(answers: nat -> Answer, cut: nat -> bool, requests: nat, r: Outcome) {
    && 1 <= requests <= MAX_RETRIES
    && (forall k :: 1 <= k < requests ==> FaultOf(answers(k)).Some? && !cut(k))
    && match r
       case Fetched(snapshot) => answers(requests).Response? && answers(requests).status == 200
           && answers(requests).body == Some(snapshot)
       case Refused(status) =>
         answers(requests).Response? && answers(requests).status == status && status != 200 && status != 429
             && status < 500
       case Interrupted => Pauses(answers, requests) && cut(requests)
       case Exhausted(last) =>
         requests == MAX_RETRIES && FaultOf(answers(requests)) == Some(last)
             && !(Pauses(answers, requests) && cut(requests))
  }

  /** answers(k) is what the k-th request brings; cut(k) says that the context ends during the wait after it. */
  method FetchDepthSnapshot(answers: nat -> Answer, cut: nat -> bool)
    returns (r: Outcome, requests: nat, waits: seq<int>)
    ensures Justified(answers, cut, requests, r) && 1 <= requests <= 3
    ensures |waits| == if Pauses(answers, requests) then requests else requests - 1
    ensures forall k :: 0 <= k < |waits| ==> FaultOf(answers(k + 1)).Some? && waits[k] == WaitFor(answers(k + 1))
  {
    hide ParseRetryAfter;
    waits := [];
    var lastFault: Option<Fault> := None;
    var attempt := 1;
    while attempt <= MAX_RETRIES
      invariant 1 <= attempt <= MAX_RETRIES + 1
      invariant forall k :: 1 <= k < attempt ==> FaultOf(answers(k)).Some?
      invariant forall k :: 1 <= k < attempt && Pauses(answers, k) ==> !cut(k)
      invariant attempt > 1 ==> lastFault == FaultOf(answers(attempt - 1))
      invariant |waits| == if attempt > 1 && !Pauses(answers, attempt - 1) then attempt - 2 else attempt - 1
      invariant forall k :: 0 <= k < |waits| ==> FaultOf(answers(k + 1)).Some? && waits[k] == WaitFor(answers(k + 1))
    {
      var a := answers(attempt);
      if a.Response? && a.status != 429 && a.status < 500 && a.status != 200 {
        return Refused(a.status), attempt, waits;
      }
      if a.Response? && a.status == 200 && a.body.Some? {
        return Fetched(a.body.value), attempt, waits;
      }
      lastFault := FaultOf(a);
      if lastFault == Some(RateLimited) || attempt < MAX_RETRIES {
        waits := waits + [WaitFor(a)];
        if cut(attempt) {
          return Interrupted, attempt, waits;
        }
      }
      attempt := attempt + 1;
    }
    return Exhausted(lastFault.value), MAX_RETRIES, waits;
  }

  /** The answers alone decide: no two runs against the same answers differ in outcome or in requests. */
  lemma {:induction false} OutcomeIsDetermined(answers: nat -> Answer, cut: nat -> bool, m: nat, r: Outcome, n: nat,
                                               q: Outcome)
    requires Justified(answers, cut, m, r) && Justified(answers, cut, n, q)
    ensures m == n && r == q
  {
  }

  /** A good answer among the first three is returned exactly when everything before it was worth
      retrying and no wait was cut short. */
  lemma {:induction false} FetchedIff(answers: nat -> Answer, cut: nat -> bool, requests: nat, r: Outcome)
    requires Justified(answers, cut, requests, r)
    ensures r.Fetched? <==> exists n :: 1 <= n <= 3 && Good(answers(n))
                                        && forall k :: 1 <= k < n ==> FaultOf(answers(k)).Some? && !cut(k)
  {
    if r.Fetched? {
      assert Good(answers(requests));
    }
    if n :| 1 <= n <= 3 && Good(answers(n))
            && forall k :: 1 <= k < n ==> FaultOf(answers(k)).Some? && !cut(k) {
      OutcomeIsDetermined(answers, cut, requests, r, n, Fetched(answers(n).body.value));
    }
  }

  /** A response with status 200 whose body decodes. */
  predicate Good(a: Answer) {
    a.Response? && a.status == 200 && a.body.Some?
  }
}
