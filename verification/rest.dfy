/** The REST side of start-up: decoding, trimming, the resume point, and what a catch-up recovers. */
module Rest {
  import opened Wrappers
  import opened Candles

  // ---------------------------------------------------------------- decoding a response

  /** The parallel arrays of a response body; numbers keep their spelling. */
  datatype KlineData = KlineData(
    time: seq<int>, open: seq<string>, close: seq<string>, high: seq<string>,
    low: seq<string>, vol: seq<string>, amount: seq<string>)

  datatype FetchError = ContractNotExist | MismatchedArrays | RequestFailed | UnsupportedInterval

  /** A candle as REST knows it: six fields and nothing else. */
  function Project(c: Candle): Candle {
    Candle(c.t, c.o, c.h, c.l, c.c, c.v, c.a, "", "", "", "", "")
  }

  /** Two candles are the same for REST exactly when they agree in open time, open, high, low, close, volume
      and amount; projecting changes none of these. */
  lemma {:induction false} ProjectSeesSevenFields(c: Candle, d: Candle)
    ensures Project(c) == Project(d)
            <==> c.t == d.t && c.o == d.o && c.h == d.h && c.l == d.l && c.c == d.c && c.v == d.v && c.a == d.a
    ensures Project(c).t == c.t && Project(Project(c)) == Project(c)
  {
  }

  predicate SameLengths(d: KlineData) {
    |d.time| == |d.open| == |d.close| == |d.high| == |d.low| == |d.vol| == |d.amount|
  }

  /** Every row becomes one projected candle, in order; ragged arrays are an error, except that no
      times at all means no candles whatever the other arrays hold. */
  method ToCandles(d: KlineData) returns (r: Result<seq<Candle>, FetchError>)
    ensures d.time == [] ==> r == Ok([])
    ensures d.time != [] && !SameLengths(d) ==> r == Err(MismatchedArrays)
    ensures SameLengths(d) ==>
              && r.Ok? && |r.value| == |d.time|
              && forall i :: 0 <= i < |d.time| ==>
                   r.value[i] == Candle(d.time[i], d.open[i], d.high[i], d.low[i], d.close[i], d.vol[i], d.amount[i],
                                        "", "", "", "", "")
    ensures r.Ok? <==> d.time == []
                       || |d.time| == |d.open| == |d.close| == |d.high| == |d.low| == |d.vol| == |d.amount|
  {
    var n := |d.time|;
    if n == 0 {
      return Ok([]);
    }
    if |d.open| != n || |d.close| != n || |d.high| != n || |d.low| != n || |d.vol| != n || |d.amount| != n {
      return Err(MismatchedArrays);
    }
    var candles := [];
    for i := 0 to n
      invariant |candles| == i
      invariant forall j :: 0 <= j < i ==>
                  candles[j] == Candle(d.time[j], d.open[j], d.high[j], d.low[j], d.close[j], d.vol[j], d.amount[j],
                      "", "", "", "", "")
    {
      candles := candles +
        [Candle(d.time[i], d.open[i], d.high[i], d.low[i], d.close[i], d.vol[i], d.amount[i], "", "", "", "", "")];
    }
    return Ok(candles);
  }

  /** The newest limit candles; a limit that is not positive keeps everything. */
  function TrimNewest(cs: seq<Candle>, limit: int): seq<Candle> {
    if limit > 0 && |cs| > limit then cs[|cs| - limit..] else cs
  }

  /** The candles from start on. */
  function FromStart(history: seq<Candle>, start: int): seq<Candle> {
    if history == [] || history[0].t >= start then history else FromStart(history[1..], start)
  }

  /** A start time goes into a request only if it is positive. */
  function Asked(start: int): Option<int> {
    if start > 0 then Some(start) else None
  }

  /** The exchange's answer: a request without a start time has no lower bound. */
  function Answer(history: seq<Candle>, start: Option<int>): seq<Candle> {
    match start
    case None => history
    case Some(t) => FromStart(history, t)
  }

  function Fetched(history: seq<Candle>, start: int, limit: int): seq<Candle> {
    TrimNewest(Answer(history, Asked(start)), limit)
  }

  // ---------------------------------------------------------------- the resume point

  const INTERVAL_SECONDS: map<string, int> := map[
    "Min1" := 60, "Min5" := 300, "Min15" := 900, "Min30" := 1800, "Min60" := 3600,
    "Hour4" := 14400, "Hour8" := 28800, "Day1" := 86400, "Week1" := 604800, "Month1" := 2592000]

  /** The ten intervals, with the lengths their names say; a month counts as thirty days. */
  lemma {:induction false} IntervalsAreAsNamed()
    ensures INTERVAL_SECONDS.Keys
            == {"Min1", "Min5", "Min15", "Min30", "Min60", "Hour4", "Hour8", "Day1", "Week1", "Month1"}
    ensures var minute, s := 60, INTERVAL_SECONDS;
            && s["Min1"] == minute && s["Min5"] == 5 * minute && s["Min15"] == 15 * minute
            && s["Min30"] == 30 * minute && s["Min60"] == 60 * minute
            && s["Hour4"] == 4 * s["Min60"] && s["Hour8"] == 8 * s["Min60"] && s["Day1"] == 24 * s["Min60"]
            && s["Week1"] == 7 * s["Day1"] && s["Month1"] == 30 * s["Day1"]
  {
  }

  function ComputeStart(candles: seq<Candle>, interval: string, limit: int, now: int): Result<int, FetchError> {
    var limit' := if limit <= 0 then 2000 else limit;
    if |candles| > 0 then
      var idx := if |candles| > 1 then |candles| - 2 else |candles| - 1;
      Ok(candles[idx].t + 1)
    else if interval !in INTERVAL_SECONDS then Err(UnsupportedInterval)
    else Ok(now - limit' * INTERVAL_SECONDS[interval])
  }

  /** The merge of start-up: fetched candles upserted one by one over the existing ones. */
  function Merged(existing: seq<Candle>, fetched: seq<Candle>): seq<Candle> {
    UpsertAll(existing, fetched)
  }

  // ---------------------------------------------------------------- projection and upserts

  function ProjectAll(s: seq<Candle>): (p: seq<Candle>)
    ensures |p| == |s| && forall i :: 0 <= i < |s| ==> p[i] == Project(s[i])
  {
    seq(|s|, i requires 0 <= i < |s| => Project(s[i]))
  }

  lemma {:induction false} BisectSeesTimesOnly(s: seq<Candle>, t: int, lo: nat, hi: nat)
    requires lo <= hi <= |s|
    ensures Bisect(ProjectAll(s), t, lo, hi) == Bisect(s, t, lo, hi)
    decreases hi - lo
  {
    if lo < hi {
      var mid := (lo + hi) / 2;
      BisectSeesTimesOnly(s, t, mid + 1, hi);
      BisectSeesTimesOnly(s, t, lo, mid);
    }
  }

  lemma {:induction false} ProjectUpserted(s: seq<Candle>, c: Candle)
    ensures ProjectAll(Upserted(s, c)) == Upserted(ProjectAll(s), Project(c))
  {
    BisectSeesTimesOnly(s, c.t, 0, |s|);
  }

  /** Projecting after a run of upserts is running the projected upserts. */
  lemma {:induction false} ProjectUpsertAll(s: seq<Candle>, cs: seq<Candle>)
    ensures ProjectAll(UpsertAll(s, cs)) == UpsertAll(ProjectAll(s), ProjectAll(cs))
  {
    if cs == [] {
      assert ProjectAll(cs) == [];
    } else {
      var rest := cs[..|cs| - 1];
      ProjectUpsertAll(s, rest);
      ProjectUpserted(UpsertAll(s, rest), cs[|cs| - 1]);
      assert ProjectAll(cs)[..|cs| - 1] == ProjectAll(rest);
      hide Upserted;
    }
  }

  // ---------------------------------------------------------------- where upserts land

  lemma {:induction false} UpsertReplaces(s: seq<Candle>, c: Candle, i: nat)
    requires Ascending(s) && i < |s| && s[i].t == c.t
    ensures Upserted(s, c) == s[i := c]
  {
    BisectFindsLowerBound(s, c.t, 0, |s|);
  }

  lemma {:induction false} UpsertAppends(s: seq<Candle>, c: Candle)
    requires Ascending(s) && (s == [] || s[|s| - 1].t < c.t)
    ensures Upserted(s, c) == s + [c]
  {
    BisectFindsLowerBound(s, c.t, 0, |s|);
  }

  lemma {:induction false} AscendingPrefix(s: seq<Candle>, c: Candle)
    requires Ascending(s + [c])
    ensures Ascending(s) && (s == [] || s[|s| - 1].t < c.t)
  {
    assert forall i :: 0 <= i < |s| ==> (s + [c])[i] == s[i];
    assert (s + [c])[|s|] == c;
  }

  /** Later candles are simply appended. */
  lemma {:induction false} AppendAll(s: seq<Candle>, cs: seq<Candle>)
    requires Ascending(s + cs)
    ensures UpsertAll(s, cs) == s + cs
  {
    if cs == [] {
      assert s + cs == s;
    } else {
      var rest := cs[..|cs| - 1];
      assert s + cs == (s + rest) + [cs[|cs| - 1]];
      AscendingPrefix(s + rest, cs[|cs| - 1]);
      AppendAll(s, rest);
      UpsertAppends(s + rest, cs[|cs| - 1]);
    }
  }

  lemma {:induction false} UpsertAllHeadFirst(s: seq<Candle>, cs: seq<Candle>)
    requires cs != []
    ensures UpsertAll(s, cs) == UpsertAll(Upserted(s, cs[0]), cs[1..])
  {
    UpsertAllConcat(s, cs[..1], cs[1..]);
    assert cs == cs[..1] + cs[1..];
    assert cs[..1][..0] == [];
    assert UpsertAll(s, cs[..1]) == Upserted(s, cs[0]);
  }

  // ---------------------------------------------------------------- recovery after a restart

  /** history is where a gapless feed has taken the exchange since the moment the file shows: every
      candle but the file's last was final by then, and the last may have moved on since. */
  ghost predicate Behind(file: seq<Candle>, history: seq<Candle>) {
    && file != [] && |file| <= |history| && Ascending(history)
    && (forall i :: 0 <= i < |history| ==> Project(history[i]) == history[i])
    && (forall i :: 0 <= i < |file| - 1 ==> Project(file[i]) == history[i])
    && file[|file| - 1].t == history[|file| - 1].t
  }

  /** The index of the first candle the catch-up asks for. */
  function Resume(file: seq<Candle>): (r: nat)
    ensures r <= |file|
  {
    if file == [] then 0
    else
      var idx := if |file| > 1 then |file| - 2 else |file| - 1;
      if file[idx].t + 1 > 0 then idx + 1 else 0
  }

  /** The index of the first candle the catch-up fetches. */
  function FirstFetched(file: seq<Candle>, history: seq<Candle>, limit: int): int {
    if limit > 0 && |history| - Resume(file) > limit then |history| - limit else Resume(file)
  }

  lemma {:induction false} FromStartIsSuffix(history: seq<Candle>, start: int, r: nat)
    requires r <= |history|
    requires forall i :: 0 <= i < r ==> history[i].t < start
    requires r < |history| ==> start <= history[r].t
    ensures FromStart(history, start) == history[r..]
  {
    if 0 < r {
      FromStartIsSuffix(history[1..], start, r - 1);
      assert history[1..][r - 1..] == history[r..];
    }
  }

  lemma {:induction false} CatchUpFetchesSuffix(
      file: seq<Candle>, history: seq<Candle>, interval: string, limit: int, now: int)
    requires Behind(file, history)
    ensures ComputeStart(file, interval, limit, now).Ok?
    ensures 0 <= FirstFetched(file, history, limit) <= |history|
    ensures Fetched(history, ComputeStart(file, interval, limit, now).value, limit)
            == history[FirstFetched(file, history, limit)..]
  {
    var start := ComputeStart(file, interval, limit, now).value;
    AnswerIsSuffix(file, history, start);
    hide Behind, ComputeStart, Answer, Resume;
    TrimSuffix(history, Resume(file), limit);
  }

  lemma {:induction false} AnswerIsSuffix(file: seq<Candle>, history: seq<Candle>, start: int)
    requires Behind(file, history) && start == file[if |file| > 1 then |file| - 2 else |file| - 1].t + 1
    ensures Answer(history, Asked(start)) == history[Resume(file)..]
  {
    if start > 0 {
      BehindIsAscending(file, history);
      hide Project;
      FromStartIsSuffix(history, start, Resume(file));
    }
  }

  lemma {:induction false} TrimSuffix(history: seq<Candle>, from: nat, limit: int)
    requires from <= |history|
    ensures TrimNewest(history[from..], limit)
            == history[if limit > 0 && |history| - from > limit then |history| - limit else from..]
  {
    var n := |history| - from;
    if limit > 0 && n > limit {
      assert history[from..][n - limit..] == history[|history| - limit..];
    }
  }

  lemma {:induction false} BehindIsAscending(file: seq<Candle>, history: seq<Candle>)
    requires Behind(file, history)
    ensures forall i :: 0 <= i < |file| ==> file[i].t == history[i].t
    ensures Ascending(file)
  {
    forall i | 0 <= i < |file| ensures file[i].t == history[i].t {
      assert i < |file| - 1 ==> Project(file[i]) == history[i];
    }
  }

  /** The shape of the merged list: untouched head, fetched tail. */
  lemma {:induction false} MergedShape(file: seq<Candle>, history: seq<Candle>, f: nat)
    requires Behind(file, history) && f <= |history|
    ensures Merged(file, history[f..]) == file[..if f < |file| then f else |file|] + history[f..]
  {
    BehindIsAscending(file, history);
    if f < |file| {
      Overlap(file, history[f..], f);
    } else {
      assert file[..|file|] == file;
      assert Ascending(file + history[f..]);
      AppendAll(file, history[f..]);
    }
  }

  /** A tail that lies over the end of the list replaces it from there on. */
  lemma {:induction false} Overlap(file: seq<Candle>, tail: seq<Candle>, f: nat)
    requires f < |file| <= f + |tail| && Ascending(file) && Ascending(tail)
    requires forall i :: f <= i < |file| ==> file[i].t == tail[i - f].t
    ensures UpsertAll(file, tail) == file[..f] + tail
    decreases |file| - f
  {
    hide UpsertAll, Upserted, Ascending;
    if f == |file| - 1 {
      OverlapOne(file, tail, f);
    } else {
      var next := file[f := tail[0]];
      UpsertReplaces(file, tail[0], f);
      UpsertAllHeadFirst(file, tail);
      SameTimes(file, tail, f);
      Overlap(next, tail[1..], f + 1);
      Regroup(file, tail, f);
    }
  }

  lemma {:induction false} SameTimes(file: seq<Candle>, tail: seq<Candle>, f: nat)
    requires f < |file| && tail != [] && Ascending(file) && Ascending(tail) && file[f].t == tail[0].t
    ensures Ascending(file[f := tail[0]]) && Ascending(tail[1..])
  {
  }

  lemma {:induction false} Regroup(file: seq<Candle>, tail: seq<Candle>, f: nat)
    requires f < |file| && tail != []
    ensures file[f := tail[0]][..f + 1] + tail[1..] == file[..f] + tail
  {
  }

  lemma {:induction false} OverlapOne(file: seq<Candle>, tail: seq<Candle>, f: nat)
    requires f == |file| - 1 && tail != [] && Ascending(file) && Ascending(tail) && file[f].t == tail[0].t
    ensures UpsertAll(file, tail) == file[..f] + tail
  {
    var head := file[..f];
    assert file == head + [file[f]] && file[f := tail[0]] == head + [tail[0]];
    assert (head + [tail[0]]) + tail[1..] == head + tail by {
      assert [tail[0]] + tail[1..] == tail;
    }
    UpsertReplaces(file, tail[0], f);
    UpsertAllHeadFirst(file, tail);
    hide UpsertAll, Upserted;
    GlueAscending(head, file[f], tail);
    AppendAll(head + [tail[0]], tail[1..]);
  }

  lemma {:induction false} GlueAscending(head: seq<Candle>, c: Candle, tail: seq<Candle>)
    requires Ascending(head + [c]) && Ascending(tail) && tail != [] && tail[0].t == c.t
    ensures Ascending(head + tail)
  {
    var both := head + tail;
    AscendingPrefix(head, c);
    forall i, j | 0 <= i < j < |both| ensures both[i].t < both[j].t {
      if i < |head| <= j {
        assert (head + [c])[i] == head[i] && (head + [c])[|head|] == c;
        assert tail[0].t <= tail[j - |head|].t;
      }
    }
  }

  /** The head of the file and the history from f on make up the history exactly when nothing between them
      is missing and the file's last candle is either replaced or current. */
  lemma {:induction false} GluedIff(file: seq<Candle>, history: seq<Candle>, f: nat)
    requires Behind(file, history) && f <= |history|
    ensures ProjectAll(file[..if f < |file| then f else |file|] + history[f..]) == history
            <==> f < |file| || (f == |file| && Project(file[|file| - 1]) == history[|file| - 1])
  {
    hide Project, Ascending;
    var glued := file[..if f < |file| then f else |file|] + history[f..];
    if f <= |file| {
      assert |glued| == |history|;
      forall i | 0 <= i < |history| && i != |file| - 1 ensures ProjectAll(glued)[i] == history[i] {
        assert glued[i] == if i < f then file[i] else history[i];
      }
      var last := |file| - 1;
      assert glued[last] == if last < f then file[last] else history[last];
    } else {
      assert |ProjectAll(glued)| < |history|;
    }
  }

  /** Restart plus catch-up gives back exactly the exchange history, in open times and REST fields,
      if and only if the fetch reaches back to the file's last candle, or misses only that candle
      and the file already has its current value. */
  lemma {:induction false} CatchUpRecoversIff(
      file: seq<Candle>, history: seq<Candle>, interval: string, limit: int, now: int)
    requires Behind(file, history)
    ensures ComputeStart(file, interval, limit, now).Ok?
    ensures var fetched := Fetched(history, ComputeStart(file, interval, limit, now).value, limit);
            var f := FirstFetched(file, history, limit);
            ProjectAll(Merged(file, fetched)) == history
            <==> f < |file| || (f == |file| && Project(file[|file| - 1]) == history[|file| - 1])
  {
    hide *;
    CatchUpFetchesSuffix(file, history, interval, limit, now);
    var f := FirstFetched(file, history, limit);
    MergedShape(file, history, f);
    GluedIff(file, history, f);
  }

  /** With at least two candles in the file and no more than limit candles after the resume point,
      nothing is missing. */
  lemma {:induction false} CatchUpWithinLimitRecovers(file: seq<Candle>, history: seq<Candle>, interval: string,
                                                      limit: int, now: int)
    requires Behind(file, history) && |file| >= 2 && (limit <= 0 || |history| - (|file| - 1) <= limit)
    ensures ComputeStart(file, interval, limit, now).Ok?
    ensures ProjectAll(Merged(file, Fetched(history, ComputeStart(file, interval, limit, now).value, limit))) == history
  {
    CatchUpRecoversIff(file, history, interval, limit, now);
  }

  // ---------------------------------------------------------------- the cold start

  /** Candles at every open time of a fixed-length interval, the last one still open at now. */
  ghost predicate Regular(history: seq<Candle>, seconds: int, now: int) {
    && seconds > 0 && history != []
    && (forall i :: 0 <= i < |history| ==> history[i].t == history[|history| - 1].t - (|history| - 1 - i) * seconds)
    && history[|history| - 1].t <= now < history[|history| - 1].t + seconds
  }

  /** However long the history is, a cold start keeps exactly its newest limit candles, the open one
      included; the window asked for reaches one candle further exactly when now is an open time. Without a
      positive limit the window of two thousand candles is kept whole, and a window that would start at
      zero or earlier is not asked for at all. */
  lemma {:induction false} ColdStartKeepsNewest(history: seq<Candle>, interval: string, limit: int, now: int)
    requires interval in INTERVAL_SECONDS && Regular(history, INTERVAL_SECONDS[interval], now)
    ensures ComputeStart([], interval, limit, now).Ok?
    ensures var start := ComputeStart([], interval, limit, now).value;
            var window := (if limit <= 0 then 2000 else limit) + (if now == history[|history| - 1].t then 1 else 0);
            var answer := if start > 0 then TrimNewest(history, window) else history;
            && Answer(history, Asked(start)) == answer
            && Fetched(history, start, limit) == if limit <= 0 then answer else TrimNewest(history, limit)
  {
    hide Regular, FromStart;
    RegularHasLast(history, INTERVAL_SECONDS[interval], now);
    var reach := if limit <= 0 then 2000 else limit;
    var w := reach + (if now == history[|history| - 1].t then 1 else 0);
    WindowIsSuffix(history, INTERVAL_SECONDS[interval], reach, w, now);
    hide INTERVAL_SECONDS;
    if limit > 0 {
      TrimTwice(history, w, limit);
    }
  }

  lemma {:induction false} RegularHasLast(history: seq<Candle>, seconds: int, now: int)
    requires Regular(history, seconds, now)
    ensures history != [] && history[|history| - 1].t <= now
  {
  }

  /** Trimming to more and then to fewer is trimming to fewer. */
  lemma {:induction false} TrimTwice(cs: seq<Candle>, more: int, fewer: int)
    requires 0 < fewer <= more
    ensures TrimNewest(TrimNewest(cs, more), fewer) == TrimNewest(cs, fewer)
  {
    var first := if |cs| > more then |cs| - more else 0;
    assert |cs| > fewer ==> cs[first..][|cs| - first - fewer..] == cs[|cs| - fewer..];
  }

  lemma {:induction false} WindowIsSuffix(history: seq<Candle>, seconds: int, limit: int, w: int, now: int)
    requires limit > 0 && Regular(history, seconds, now)
             && w == limit + (if now == history[|history| - 1].t then 1 else 0)
    ensures FromStart(history, now - limit * seconds) == history[if |history| <= w then 0 else |history| - w..]
  {
    var n := |history|;
    var last := history[n - 1].t;
    var first := if n <= w then 0 else n - w;
    WindowEdge(limit, w, seconds, now, last);
    forall i | 0 <= i < first ensures history[i].t < now - limit * seconds {
      Steps(n - 1 - i, w, seconds);
    }
    Steps(w - 1, n - 1 - first, seconds);
    assert history[first].t == last - (n - 1 - first) * seconds;
    FromStartIsSuffix(history, now - limit * seconds, first);
  }

  lemma {:induction false} Steps(k: int, w: int, seconds: int)
    requires k >= w && seconds > 0
    ensures k * seconds >= w * seconds
  {
    assert (k - w) * seconds >= 0;
  }

  lemma {:induction false} WindowEdge(limit: int, w: int, seconds: int, now: int, last: int)
    requires seconds > 0 && last <= now < last + seconds && w == limit + (if now == last then 1 else 0)
    ensures last - w * seconds < now - limit * seconds <= last - (w - 1) * seconds
  {
    if now == last {
      assert w * seconds == limit * seconds + seconds;
    } else {
      assert (w - 1) * seconds == limit * seconds - seconds;
    }
  }
}
