/** End to end: a live phase fed without gaps, a crash at any step, and the catch-up after it. */
module Recovery {
  import opened Candles
  import opened Files
  import opened Flushing
  import opened FlushRuns
  import opened Rest

  // ---------------------------------------------------------------- the exchange

  /** A feed in exchange order: each update revises the candle that is still open or opens a later one. */
  ghost predicate Feed(h0: seq<Candle>, updates: seq<Candle>) {
    && h0 != [] && Ascending(h0)
    && (forall i :: 0 <= i < |h0| ==> Project(h0[i]) == h0[i])
    && (forall i :: 0 <= i < |updates| ==>
          Project(updates[i]) == updates[i] && updates[i].t >= NewestTime(h0, updates, i))
  }

  /** The open time of the newest candle after m updates. */
  function NewestTime(h0: seq<Candle>, updates: seq<Candle>, m: nat): int
    requires m <= |updates| && h0 != []
  {
    if m == 0 then h0[|h0| - 1].t else updates[m - 1].t
  }

  /** The exchange's history after m updates. */
  function Exchange(h0: seq<Candle>, updates: seq<Candle>, m: nat): seq<Candle>
    requires m <= |updates|
  {
    UpsertAll(h0, updates[..m])
  }

  ghost predicate RevisesOrExtends(before: seq<Candle>, after: seq<Candle>, u: Candle) {
    before != [] && ((u.t == before[|before| - 1].t && after == before[|before| - 1 := u]) || after == before + [u])
  }

  /** What the exchange serves: at least one candle, ascending, REST fields only. */
  ghost predicate Proper(e: seq<Candle>) {
    e != [] && Ascending(e) && forall i :: 0 <= i < |e| ==> Project(e[i]) == e[i]
  }

  lemma {:induction false} OneUpdate(e: seq<Candle>, u: Candle)
    requires Proper(e) && Project(u) == u && u.t >= e[|e| - 1].t
    ensures var e' := Upserted(e, u); Proper(e') && e'[|e'| - 1].t == u.t && RevisesOrExtends(e, e', u)
  {
    UpsertedStaysAscending(e, u);
    if u.t == e[|e| - 1].t {
      UpsertReplaces(e, u, |e| - 1);
    } else {
      UpsertAppends(e, u);
    }
    hide Upserted, Project, Ascending;
  }

  lemma {:induction false} FeedAt(h0: seq<Candle>, updates: seq<Candle>, i: nat)
    requires Feed(h0, updates) && i < |updates|
    ensures Project(updates[i]) == updates[i] && updates[i].t >= NewestTime(h0, updates, i)
  {
    hide Project, Ascending;
  }

  lemma {:induction false} FeedStart(h0: seq<Candle>, updates: seq<Candle>)
    requires Feed(h0, updates)
    ensures Proper(h0) && Exchange(h0, updates, 0) == h0
  {
    hide Project, Ascending, Upserted;
    assert updates[..0] == [];
  }

  lemma {:induction false} ExchangeIsProper(h0: seq<Candle>, updates: seq<Candle>, m: nat)
    requires Feed(h0, updates) && m <= |updates|
    ensures Proper(Exchange(h0, updates, m))
    ensures Exchange(h0, updates, m)[|Exchange(h0, updates, m)| - 1].t == NewestTime(h0, updates, m)
  {
    hide Exchange, Upserted, Ascending, Project, RevisesOrExtends, Feed;
    FeedStart(h0, updates);
    if m > 0 {
      ExchangeIsProper(h0, updates, m - 1);
      UnfoldLast(h0, updates, m - 1);
      FeedAt(h0, updates, m - 1);
      OneUpdate(Exchange(h0, updates, m - 1), updates[m - 1]);
    }
  }

  lemma {:induction false} ExchangeStep(h0: seq<Candle>, updates: seq<Candle>, m: nat)
    requires Feed(h0, updates) && m < |updates|
    ensures RevisesOrExtends(Exchange(h0, updates, m), Exchange(h0, updates, m + 1), updates[m])
  {
    hide UpsertAll, Upserted, Ascending, Project, RevisesOrExtends;
    ExchangeIsProper(h0, updates, m);
    UnfoldLast(h0, updates, m);
    OneUpdate(Exchange(h0, updates, m), updates[m]);
  }

  lemma {:induction false} UnfoldLast(h0: seq<Candle>, updates: seq<Candle>, m: nat)
    requires m < |updates|
    ensures Exchange(h0, updates, m + 1) == Upserted(Exchange(h0, updates, m), updates[m])
  {
    assert updates[..m + 1][..m] == updates[..m];
  }

  /** As the feed goes on, every candle but the newest of an earlier moment stays as it was. */
  ghost predicate GrownFrom(e: seq<Candle>, e': seq<Candle>) {
    && e != [] && |e| <= |e'|
    && (forall i :: 0 <= i < |e| - 1 ==> e[i] == e'[i])
    && e[|e| - 1].t == e'[|e| - 1].t
  }

  lemma {:induction false} ExchangeGrows(h0: seq<Candle>, updates: seq<Candle>, m: nat, n: nat)
    requires Feed(h0, updates) && m <= n <= |updates|
    ensures GrownFrom(Exchange(h0, updates, m), Exchange(h0, updates, n))
    decreases n
  {
    hide UpsertAll, Feed;
    if m < n {
      ExchangeGrows(h0, updates, m, n - 1);
      ExchangeStep(h0, updates, n - 1);
    } else {
      ExchangeIsProper(h0, updates, m);
    }
  }

  /** What is behind the exchange at one moment is behind it later on. */
  lemma {:induction false} BehindLater(file: seq<Candle>, h0: seq<Candle>, updates: seq<Candle>, m: nat, n: nat)
    requires Feed(h0, updates) && m <= n <= |updates| && Behind(file, Exchange(h0, updates, m))
    ensures Behind(file, Exchange(h0, updates, n))
  {
    hide Feed, Exchange, Project, Ascending;
    ExchangeGrows(h0, updates, m, n);
    ExchangeIsProper(h0, updates, n);
  }

  // ---------------------------------------------------------------- the live phase

  /** The pushes to k handled by the run up to n. */
  function Pushed(run: Run, n: nat, k: string): seq<Candle>
    requires run.Shaped() && n <= |run.events|
  {
    if n == 0 then [] else run.Extended(Pushed(run, n - 1, k), n - 1, k)
  }

  ghost predicate CrashFree(run: Run, n: nat)
    requires run.Shaped() && n <= |run.events|
  {
    forall i :: 0 <= i < n ==> !run.events[i].Crash?
  }

  lemma {:induction false} MemoryIsPushed(run: Run, n: nat, k: string)
    requires run.Valid() && n <= |run.events| && CrashFree(run, n) && k in run.states[0].mem
    ensures k in run.states[n].mem
    ensures MemList(run.states[n], k) == UpsertAll(MemList(run.states[0], k), Pushed(run, n, k))
  {
    hide Inv, Step, UpsertAll, FileList;
    if n == 0 {
      NothingUpserted(MemList(run.states[0], k));
    } else {
      MemoryIsPushed(run, n - 1, k);
      RunKeepsInv(run, n - 1);
      ListFollows(run, n - 1, k, MemList(run.states[0], k), Pushed(run, n - 1, k));
    }
  }

  lemma {:induction false} PushedGrows(run: Run, m: nat, n: nat, k: string)
    requires run.Shaped() && m <= n <= |run.events|
    ensures Pushed(run, m, k) <= Pushed(run, n, k)
  {
    if m < n {
      PushedGrows(run, m, n - 1, k);
    }
  }

  /** The run's pushes to k are the feed's first updates, in order and without gaps; the exchange
      may be further ahead. */
  ghost predicate Gapless(run: Run, n: nat, k: string, updates: seq<Candle>)
    requires run.Shaped() && n <= |run.events|
  {
    |Pushed(run, n, k)| <= |updates| && ProjectAll(Pushed(run, n, k)) == updates[..|Pushed(run, n, k)|]
  }

  /** At every moment of a gapless run the file is merely behind the exchange. */
  lemma {:induction false} FileIsBehind(run: Run, n: nat, k: string, updates: seq<Candle>, ahead: nat)
    requires run.Valid() && n <= |run.events| && CrashFree(run, n) && k in run.states[0].mem
    requires Feed(ProjectAll(MemList(run.states[0], k)), updates) && Gapless(run, n, k, updates)
    requires |Pushed(run, n, k)| <= ahead <= |updates|
    ensures k in run.cfg.paths
    ensures Behind(FileList(run.cfg, run.states[n], k), Exchange(ProjectAll(MemList(run.states[0], k)), updates, ahead))
  {
    hide Inv, Step, UpsertAll, FileList, Feed;
    var start := MemList(run.states[0], k);
    var h0 := ProjectAll(start);
    var w := run.SavedAt(n, k);
    FilesShowPastMemory(run, n, k);
    MemoryIsPushed(run, w, k);
    PushedGrows(run, w, n, k);
    var pushed := Pushed(run, w, k);
    var file := FileList(run.cfg, run.states[n], k);
    ProjectUpsertAll(start, pushed);
    assert ProjectAll(pushed) == updates[..|pushed|] by {
      assert forall i :: 0 <= i < |pushed| ==> pushed[i] == Pushed(run, n, k)[i];
      assert ProjectAll(Pushed(run, n, k))[..|pushed|] == updates[..|pushed|];
    }
    ExchangeGrows(h0, updates, |pushed|, ahead);
    ExchangeIsProper(h0, updates, ahead);
    assert ProjectAll(file) == Exchange(h0, updates, |pushed|);
  }

  /** Lists never get shorter, in memory or on disk. */
  lemma {:induction false} FileNeverShrinks(run: Run, n: nat, k: string)
    requires run.Valid() && n <= |run.events| && CrashFree(run, n) && k in run.states[0].mem
    ensures k in run.cfg.paths && |FileList(run.cfg, run.states[n], k)| >= |MemList(run.states[0], k)|
  {
    hide Inv, Step, UpsertAll, FileList;
    var w := run.SavedAt(n, k);
    FilesShowPastMemory(run, n, k);
    MemoryIsPushed(run, w, k);
    UpsertAllGrows(MemList(run.states[0], k), Pushed(run, w, k));
  }

  lemma {:induction false} UpsertAllGrows(s: seq<Candle>, cs: seq<Candle>)
    ensures |UpsertAll(s, cs)| >= |s|
  {
    if cs != [] {
      UpsertAllGrows(s, cs[..|cs| - 1]);
    }
  }

  /** Whenever the process dies, restart and catch-up give back exactly the exchange history if and
      only if the fetch reaches the file's last candle, or misses just that one and it was current. */
  lemma {:induction false} CrashAnywhereRecoversIff(
      run: Run, n: nat, k: string, updates: seq<Candle>, ahead: nat, interval: string, limit: int, now: int)
    requires run.Valid() && n <= |run.events| && CrashFree(run, n) && k in run.states[0].mem
    requires Feed(ProjectAll(MemList(run.states[0], k)), updates) && Gapless(run, n, k, updates)
    requires |Pushed(run, n, k)| <= ahead <= |updates|
    ensures k in run.cfg.paths
    ensures var file := FileList(run.cfg, run.states[n], k);
            var history := Exchange(ProjectAll(MemList(run.states[0], k)), updates, ahead);
            var f := FirstFetched(file, history, limit);
            && Behind(file, history) && ComputeStart(file, interval, limit, now).Ok?
            && (ProjectAll(Merged(file, Fetched(history, ComputeStart(file, interval, limit, now).value, limit)))
                == history
                <==> f < |file| || (f == |file| && Project(file[|file| - 1]) == history[|file| - 1]))
  {
    hide Inv, Step, UpsertAll, FileList, Feed, ComputeStart, Fetched;
    FileIsBehind(run, n, k, updates, ahead);
    CatchUpRecoversIff(FileList(run.cfg, run.states[n], k),
        Exchange(ProjectAll(MemList(run.states[0], k)), updates, ahead),
                       interval, limit, now);
  }

  /** The recovered list is a fit starting point for the next live phase: the feed simply goes on. */
  lemma {:induction false} RecoveryRestartsTheFeed(h0: seq<Candle>, updates: seq<Candle>, ahead: nat)
    requires Feed(h0, updates) && ahead <= |updates|
    ensures Feed(Exchange(h0, updates, ahead), updates[ahead..])
    ensures forall m :: ahead <= m <= |updates| ==>
              Exchange(h0, updates, m) == Exchange(Exchange(h0, updates, ahead), updates[ahead..], m - ahead)
  {
    hide UpsertAll, Upserted, Ascending, RevisesOrExtends, Project;
    ExchangeIsProper(h0, updates, ahead);
    forall i | 0 <= i < |updates| - ahead
      ensures updates[ahead..][i] == updates[ahead + i]
      ensures NewestTime(Exchange(h0, updates, ahead), updates[ahead..], i) == NewestTime(h0, updates, ahead + i)
    {
    }
    forall m | ahead <= m <= |updates|
      ensures Exchange(h0, updates, m) == Exchange(Exchange(h0, updates, ahead), updates[ahead..], m - ahead)
    {
      assert updates[..m] == updates[..ahead] + updates[ahead..][..m - ahead];
      UpsertAllConcat(h0, updates[..ahead], updates[ahead..][..m - ahead]);
    }
  }

  // ---------------------------------------------------------------- two histories that are not recovered

  /** One clean candle in file and memory, and a push that revises it before any flush. */
  function LoneRun(first: Candle, revised: Candle): Run {
    var disk := map["p" := Whole(RaceFile([first]))];
    Run(RACE_CONFIG,
        [State(RaceMemory([first], false), disk, Idle), State(RaceMemory([revised], true), disk, Idle)],
        [RacePush(revised)])
  }

  lemma {:induction false} LoneRunIsValid(first: Candle, revised: Candle)
    requires first.t == revised.t
    ensures LoneRun(first, revised).Valid()
  {
    var run := LoneRun(first, revised);
    RaceConfigIsLaidOut();
    assert Step(run.cfg, run.states[0], run.events[0], run.states[1]) by {
      assert Upserted([first], revised) == [revised];
    }
    hide Step, Config.LaidOut;
  }

  lemma {:induction false} LonePushed(first: Candle, revised: Candle)
    ensures Pushed(LoneRun(first, revised), 1, RACE_KEY) == [revised]
  {
    var run := LoneRun(first, revised);
    assert Pushed(run, 0, RACE_KEY) == [];
    assert Pushes(run.states[0].mem, run.events[0], RACE_KEY);
  }

  lemma {:induction false} LoneExchange(first: Candle, revised: Candle)
    requires first.t == revised.t
    ensures Exchange([first], [revised], 1) == [revised]
  {
    assert [revised][..1] == [revised] && [revised][..0] == [];
    NothingUpserted([first]);
    UpsertReplaces([first], revised, 0);
  }

  /** A file with one candle: a revision that was pushed but not flushed when the process died is not fetched
      again, whatever the limit and the time. */
  lemma {:induction false} LoneCandleIsNotRefetched(first: Candle, revised: Candle, interval: string, limit: int,
                                                    now: int)
    requires first.t == revised.t >= 0 && Project(first) == first && Project(revised) == revised && first != revised
    ensures var run, history := LoneRun(first, revised), Exchange([first], [revised], 1);
            && run.Valid() && CrashFree(run, 1) && Gapless(run, 1, RACE_KEY, [revised]) && Feed([first], [revised])
            && FileList(run.cfg, run.states[1], RACE_KEY) == [first]
            && ComputeStart([first], interval, limit, now).Ok?
            && var fetched := Fetched(history, ComputeStart([first], interval, limit, now).value, limit);
               ProjectAll(Merged([first], fetched)) != history
  {
    hide Step, Inv, Run.Valid, Pushed, Merged, Fetched, ComputeStart, Exchange;
    LoneRunIsValid(first, revised);
    LonePushed(first, revised);
    LoneExchange(first, revised);
    LoneFacts(first, revised);
    CatchUpRecoversIff([first], [revised], interval, limit, now);
  }

  lemma {:induction false} LoneFacts(first: Candle, revised: Candle)
    requires first.t == revised.t && Project(first) == first && Project(revised) == revised
    ensures ProjectAll([revised]) == [revised] && ProjectAll([first]) == [first] && Behind([first], [revised])
    ensures Feed([first], [revised]) && FileList(RACE_CONFIG, LoneRun(first, revised).states[1], RACE_KEY) == [first]
    ensures [revised][..1] == [revised]
  {
  }

  /** Candles at the first n full minutes. */
  function Minutes(n: nat): (cs: seq<Candle>)
    ensures |cs| == n && forall i :: 0 <= i < n ==> cs[i].t == 60 * i && Project(cs[i]) == cs[i]
  {
    seq(n, i => Candle(60 * i, "", "", "", "", "", "", "", "", "", "", ""))
  }

  function IdleRun(list: seq<Candle>): Run {
    Run(RACE_CONFIG, [State(RaceMemory(list, false), map["p" := Whole(RaceFile(list))], Idle)], [])
  }

  lemma {:induction false} IdleRunIsValid(list: seq<Candle>)
    ensures IdleRun(list).Valid() && FileList(RACE_CONFIG, IdleRun(list).states[0], RACE_KEY) == list
  {
    RaceConfigIsLaidOut();
    hide Config.LaidOut, Step;
  }

  lemma {:induction false} MinutesGoOn(m: nat, n: nat)
    requires m <= n
    ensures Minutes(n)[..m] == Minutes(m) && Ascending(Minutes(n))
    ensures Exchange(Minutes(m), Minutes(n)[m..], n - m) == Minutes(n)
  {
    assert Minutes(n)[..m] == Minutes(m);
    assert Minutes(n) == Minutes(m) + Minutes(n)[m..];
    assert Minutes(n)[m..][..n - m] == Minutes(n)[m..];
    AppendAll(Minutes(m), Minutes(n)[m..]);
  }

  lemma {:induction false} MinutesFeed(m: nat, n: nat)
    requires 0 < m <= n
    ensures Feed(Minutes(m), Minutes(n)[m..])
  {
    hide Project;
    MinutesGoOn(m, m);
  }

  lemma {:induction false} MinutesBehind(m: nat, n: nat)
    requires 0 < m <= n
    ensures Behind(Minutes(m), Minutes(n))
  {
    hide Project;
    assert forall i :: 0 <= i < m ==> Minutes(m)[i] == Minutes(n)[..m][i];
  }

  /** Down for longer than the limit reaches back: a candle between the file and the newest limit candles is
      lost, for every positive limit. */
  lemma {:induction false} LongGapLosesCandles(interval: string, limit: nat, now: int)
    requires limit > 0
    ensures var run, history := IdleRun(Minutes(2)), Minutes(limit + 3);
            && run.Valid() && FileList(run.cfg, run.states[0], RACE_KEY) == Minutes(2)
            && Feed(Minutes(2), history[2..]) && history == Exchange(Minutes(2), history[2..], limit + 1)
            && ComputeStart(Minutes(2), interval, limit, now).Ok?
            && var fetched := Fetched(history, ComputeStart(Minutes(2), interval, limit, now).value, limit);
               ProjectAll(Merged(Minutes(2), fetched)) != history
  {
    hide Step, Inv, Run.Valid, Merged, Fetched, ComputeStart, Exchange, Feed, Project, FileList, RaceFile, RaceMemory,
         Timeline;
    IdleRunIsValid(Minutes(2));
    MinutesFeed(2, limit + 3);
    MinutesGoOn(2, limit + 3);
    MinutesBehind(2, limit + 3);
    hide Behind, ProjectAll;
    CatchUpRecoversIff(Minutes(2), Minutes(limit + 3), interval, limit, now);
  }
}
