/** The service over any number of lives: start-ups that finish or are cut short, live phases that end in a
    crash at any step, one after the other on the same disk. */
module Lives {
  import opened Wrappers
  import opened Candles
  import opened Files
  import opened Rest
  import opened Bootstrap
  import Pool
  import Confluence
  import opened Interrupted
  import opened Flushing
  import opened FlushRuns
  import opened Recovery
  import opened Startup

  /** One life: the start-up's schedule and, if that finished, the live run up to the step it dies at. seen is
      how many updates the exchange had made when the start-up asked. */
  datatype Life =
    | Full(src: Source, schedule: seq<Pool.Event>, ended: Pool.State, run: Run, stop: nat, seen: nat)
    | Cut(src: Source, schedule: seq<Pool.Event>, seen: nat)

  /** One configured pair and the exchange's side of it. */
  datatype Pair = Pair(cfg: Settings, n: nat, h0: seq<Candle>, updates: seq<Candle>) {
    predicate Exists() {
      n < |cfg.Pairs()|
    }

    function Job(): Pool.Job
      requires Exists()
    {
      JobFor(cfg.base, cfg.Pairs()[n])
    }

    /** The pair's file as a start-up takes it. */
    function FileOn(disk: Disk): seq<Candle>
      requires Exists()
    {
      Existing(disk, Job().path, Job().wire, Job().interval).candles
    }

    ghost predicate Sound() {
      Exists() && cfg.Regular() && Feed(h0, updates)
    }

    /** The exchange's history when a life's start-up asks. */
    function History(life: Life): seq<Candle>
      requires life.seen <= |updates|
    {
      Exchange(h0, updates, life.seen)
    }

    ghost predicate StartsAs(life: Life, disk: Disk)
      requires Exists()
    {
      var plan, mem := PlanFor(cfg, life.src), Preload(map[], disk, cfg.base, cfg.Pairs());
      && life.seen <= |updates| && Honest(life.src, Job().wire, Job().interval, History(life))
      && match life
         case Cut(_, schedule, _) => Pool.After(plan, Pool.Initial(plan, mem, disk), schedule).Some?
         case Full(_, schedule, ended, _, _, _) =>
           && plan.RefusalIsPerSymbol() && life.src.fault(Job().path).NoFault?
           && Confluence.EndsAt(plan, mem, disk, schedule, ended)
    }

    /** The live phase of a full life goes on from its start-up, is fed the next updates without gaps, and
        does not crash before it stops. */
    ghost predicate LivesOn(life: Life)
      requires Exists() && life.Full? && life.seen <= |updates|
    {
      var run := life.run;
      && run.Valid() && run.cfg == ConfigFor(cfg)
      && run.states[0] == State(life.ended.mem, life.ended.disk, Idle)
      && life.stop <= |run.events| && CrashFree(run, life.stop)
          && Gapless(run, life.stop, Job().key, updates[life.seen..])
    }

    ghost predicate Possible(life: Life, disk: Disk) {
      Exists() && StartsAs(life, disk) && (life.Full? ==> LivesOn(life))
    }

    /** How many updates the pair has been told by the end of a life. */
    ghost function Told(life: Life): nat
      requires life.Full? ==> life.run.Shaped() && life.stop <= |life.run.events| && Exists()
    {
      if life.Full? then life.seen + |Pushed(life.run, life.stop, Job().key)| else life.seen
    }

    /** The disk a life leaves behind. */
    ghost function LeftBy(life: Life, disk: Disk): Disk
      requires Possible(life, disk)
    {
      match life
      case Full(_, _, _, run, stop, _) => run.states[stop].disk
      case Cut(src, schedule, _) =>
        var plan := PlanFor(cfg, src);
        Pool.After(plan, Pool.Initial(plan, Preload(map[], disk, cfg.base, cfg.Pairs()), disk), schedule).value.disk
    }

    /** The pair's file is behind the exchange as the life finds it, and within reach of its fetch. */
    ghost predicate Fit(life: Life, disk: Disk)
      requires Exists() && life.seen <= |updates|
    {
      Behind(FileOn(disk), History(life)) && WithinReach(FileOn(disk), History(life), life.src.limit)
    }

    // -------------------------------------------------------------- one life

    lemma {:induction false} StartUpShowsHistory(life: Life, disk: Disk)
      requires Sound() && life.Full? && StartsAs(life, disk) && Fit(life, disk)
      ensures Shows(life.ended.mem, life.ended.disk, Job(), History(life))
    {
      hide Settings.Regular, Settings.Pairs, Preload, Pool.After, Pool.Initial, Pool.Plan.RefusalIsPerSymbol,
           Pool.Plan.Separate, Honest, Behind, Exchange, Feed, Existing, Shows, FirstFetched, Confluence.EndsAt;
      var plan, mem := PlanFor(cfg, life.src), Preload(map[], disk, cfg.base, cfg.Pairs());
      PlanIsSeparate(cfg, life.src);
      PreloadFeedsThePool(cfg, life.src, disk);
      WithinReachIsFetched(FileOn(disk), History(life), life.src.limit);
      StartUpRecoversIff(plan, mem, disk, life.schedule, life.ended, n, History(life));
    }

    /** What a full life leaves is behind the exchange at any later moment, with at least two candles. */
    lemma {:induction false} FullLifeLeavesBehind(life: Life, disk: Disk, later: nat)
      requires Sound() && life.Full? && Possible(life, disk) && Fit(life, disk)
      requires Told(life) <= later <= |updates|
      ensures Behind(FileOn(LeftBy(life, disk)), Exchange(h0, updates, later)) && |FileOn(LeftBy(life, disk))| >= 2
    {
      hide Settings.Regular, Settings.Pairs, Existing, Feed, Exchange, Behind, Run.Valid, Inv, Gapless, Pushed,
           FileList, Indexed, CrashFree, StartsAs, Fit, PairKey, PairPath, Reloaded;
      StartUpShowsHistory(life, disk);
      FitHasTwo(life, disk);
      var run, key := life.run, Job().key;
      ValidIsShaped(run);
      assert ProjectAll(MemList(run.states[0], key)) == History(life);
      RecoveryRestartsTheFeed(h0, updates, life.seen);
      FileIsBehind(run, life.stop, key, updates[life.seen..], later - life.seen);
      FileNeverShrinks(run, life.stop, key);
      OwnFileList(run.states[life.stop]);
    }

    lemma {:induction false} FitHasTwo(life: Life, disk: Disk)
      requires Exists() && life.seen <= |updates| && Fit(life, disk)
      ensures |History(life)| >= 2
    {
      hide Existing, Exchange, Project, Ascending;
    }

    lemma {:induction false} OwnFileList(s: State)
      requires Exists() && cfg.Regular()
      ensures Job().key in ConfigFor(cfg).paths && FileList(ConfigFor(cfg), s, Job().key) == FileOn(s.disk)
    {
      hide Settings.Regular, Settings.Pairs, Indexed, PairKey, PairPath, Reloaded;
      PairIndexed(cfg, n);
    }

    /** So is what a start-up that was cut short leaves. */
    lemma {:induction false} CutLifeLeavesBehind(life: Life, disk: Disk, later: nat)
      requires Sound() && life.Cut? && Possible(life, disk) && Fit(life, disk)
      requires Told(life) <= later <= |updates|
      ensures Behind(FileOn(LeftBy(life, disk)), Exchange(h0, updates, later)) && |FileOn(LeftBy(life, disk))| >= 2
    {
      hide Settings.Regular, Settings.Pairs, Preload, Pool.After, Pool.Initial, Pool.Plan.Separate, Honest, Behind,
           Exchange, Feed, Existing;
      var plan, mem := PlanFor(cfg, life.src), Preload(map[], disk, cfg.base, cfg.Pairs());
      PlanIsSeparate(cfg, life.src);
      CutShortIsBehind(plan, mem, disk, life.schedule, n, History(life));
      BehindLater(FileOn(LeftBy(life, disk)), h0, updates, life.seen, later);
    }

    // -------------------------------------------------------------- any number of lives

    /** The disk after some lives; None if one of them was not possible on the disk it found. */
    ghost function DiskAfter(lives: seq<Life>, disk0: Disk): Option<Disk> {
      if lives == [] then Some(disk0)
      else
        match DiskAfter(lives[..|lives| - 1], disk0)
        case None => None
        case Some(disk) =>
          if Possible(lives[|lives| - 1], disk) then Some(LeftBy(lives[|lives| - 1], disk)) else None
    }

    /** One life more: it must be possible on the disk the lives before it leave, and takes that disk on. */
    lemma {:induction false} LivesGoOn(lives: seq<Life>, disk0: Disk, life: Life)
      ensures DiskAfter([], disk0) == Some(disk0)
      ensures DiskAfter(lives + [life], disk0).Some?
              <==> DiskAfter(lives, disk0).Some? && Possible(life, DiskAfter(lives, disk0).value)
      ensures DiskAfter(lives + [life], disk0).Some? ==>
                DiskAfter(lives + [life], disk0).value == LeftBy(life, DiskAfter(lives, disk0).value)
    {
      hide Possible, LeftBy;
      assert (lives + [life])[..|lives|] == lives;
    }

    /** The exchange has made no more updates than the next fetch can return. */
    ghost predicate Close(life: Life, disk: Disk)
      requires Exists() && life.seen <= |updates|
    {
      life.src.limit <= 0 || |History(life)| - (|FileOn(disk)| - 1) <= life.src.limit
    }

    /** Life i finds a possible disk, its fetch reaches back far enough, and it comes after the life before it.
        The first one finds a file of at least two candles that is behind the exchange. */
    ghost predicate Follows(lives: seq<Life>, disk0: Disk, i: nat)
      requires i < |lives|
    {
      var disk := DiskAfter(lives[..i], disk0);
      && disk.Some? && Possible(lives[i], disk.value) && Close(lives[i], disk.value)
      && (if i == 0 then Behind(FileOn(disk0), History(lives[0])) && |FileOn(disk0)| >= 2
          else TellsBefore(lives[i - 1], lives[i]))
    }

    ghost predicate TellsBefore(life: Life, next: Life)
      requires Exists()
    {
      && life.seen <= |updates| && (life.Full? ==> LivesOn(life)) && Told(life) <= next.seen
    }

    lemma {:induction false} LifeBefore(lives: seq<Life>, disk0: Disk, i: nat)
      requires 0 < i <= |lives| && DiskAfter(lives[..i], disk0).Some?
      ensures DiskAfter(lives[..i - 1], disk0).Some? && Possible(lives[i - 1], DiskAfter(lives[..i - 1], disk0).value)
      ensures DiskAfter(lives[..i], disk0).value == LeftBy(lives[i - 1], DiskAfter(lives[..i - 1], disk0).value)
    {
      hide Possible, LeftBy;
      assert lives[..i][..i - 1] == lives[..i - 1];
    }

    lemma {:induction false} PossibleHasSeen(life: Life, disk: Disk)
      requires Possible(life, disk)
      ensures life.seen <= |updates|
    {
      hide LivesOn, History, Honest;
    }

    lemma {:induction false} LeavesFit(life: Life, disk: Disk, next: Life)
      requires Sound() && Possible(life, disk) && Fit(life, disk)
      requires TellsBefore(life, next) && next.seen <= |updates| && Close(next, LeftBy(life, disk))
      ensures Fit(next, LeftBy(life, disk))
    {
      hide Feed, Behind, Exchange, FileOn, StartsAs, LivesOn, LeftBy, Settings.Regular, Pushed;
      if life.Full? {
        FullLifeLeavesBehind(life, disk, next.seen);
      } else {
        CutLifeLeavesBehind(life, disk, next.seen);
      }
    }

    lemma {:induction false} EveryLifeIsFit(lives: seq<Life>, disk0: Disk, i: nat)
      requires Sound() && i < |lives| && forall j :: 0 <= j <= i ==> Follows(lives, disk0, j)
      ensures DiskAfter(lives[..i], disk0).Some? && Possible(lives[i], DiskAfter(lives[..i], disk0).value)
      ensures Fit(lives[i], DiskAfter(lives[..i], disk0).value)
    {
      hide Sound, Possible, Fit, LeftBy, TellsBefore, Close;
      assert Follows(lives, disk0, i);
      if i == 0 {
        FirstIsFit(lives[0], disk0);
      } else {
        EveryLifeIsFit(lives, disk0, i - 1);
        LifeBefore(lives, disk0, i);
        PossibleHasSeen(lives[i], DiskAfter(lives[..i], disk0).value);
        LeavesFit(lives[i - 1], DiskAfter(lives[..i - 1], disk0).value, lives[i]);
      }
    }

    lemma {:induction false} FirstIsFit(life: Life, disk: Disk)
      requires Possible(life, disk) && Close(life, disk) && Behind(FileOn(disk), History(life)) && |FileOn(disk)| >= 2
      ensures Fit(life, disk)
    {
      hide StartsAs, LivesOn, Behind, FileOn, History;
    }

    /** However often the service dies, during start-up or at any step of its live phase: every start-up that
        finishes leaves cache and file showing exactly the exchange's history of that moment. */
    lemma {:induction false} EveryStartUpRecovers(lives: seq<Life>, disk0: Disk, i: nat)
      requires Sound() && i < |lives| && lives[i].Full? && forall j :: 0 <= j <= i ==> Follows(lives, disk0, j)
      ensures lives[i].seen <= |updates| && Shows(lives[i].ended.mem, lives[i].ended.disk, Job(), History(lives[i]))
    {
      EveryLifeIsFit(lives, disk0, i);
      hide Sound, Fit, LivesOn, Follows, Shows, DiskAfter, History;
      StartUpShowsHistory(lives[i], DiskAfter(lives[..i], disk0).value);
    }
  }

  /** After a crash at any step of a live run, cache and file of the start-up that follows show exactly the
      exchange's history if and only if its fetch reaches the file's last candle, or misses just that one and it
      was current. */
  lemma {:induction false} CrashThenStartUpRecoversIff(
      p: Pair, run: Run, stop: nat, src: Source, schedule: seq<Pool.Event>, s: Pool.State, ahead: nat)
    requires p.Exists() && p.cfg.Regular() && run.Valid() && run.cfg == ConfigFor(p.cfg) && stop <= |run.events|
    requires p.Job().key in run.states[0].mem && p.h0 == ProjectAll(MemList(run.states[0], p.Job().key))
    requires CrashFree(run, stop) && Feed(p.h0, p.updates) && Gapless(run, stop, p.Job().key, p.updates)
    requires |Pushed(run, stop, p.Job().key)| <= ahead <= |p.updates|
    requires p.StartsAs(Full(src, schedule, s, run, stop, ahead), run.states[stop].disk)
    ensures var file, history := p.FileOn(run.states[stop].disk), Exchange(p.h0, p.updates, ahead);
            var f := FirstFetched(file, history, src.limit);
            && Behind(file, history)
            && (Shows(s.mem, s.disk, p.Job(), history)
                <==> f < |file| || (f == |file| && Project(file[|file| - 1]) == history[|file| - 1]))
  {
    hide Settings.Regular, Settings.Pairs, Preload, Pool.After, Pool.Initial, Pool.Plan.RefusalIsPerSymbol,
         Pool.Plan.Separate, Honest, Behind, Exchange, Feed, Existing, Shows, FirstFetched, Confluence.EndsAt,
         Run.Valid, Inv, Gapless, Pushed, FileList, Indexed, CrashFree, PairKey, PairPath, Reloaded, Project;
    ValidIsShaped(run);
    var disk := run.states[stop].disk;
    FileIsBehind(run, stop, p.Job().key, p.updates, ahead);
    p.OwnFileList(run.states[stop]);
    PlanIsSeparate(p.cfg, src);
    PreloadFeedsThePool(p.cfg, src, disk);
    StartUpRecoversIff(PlanFor(p.cfg, src), Preload(map[], disk, p.cfg.base, p.cfg.Pairs()), disk, schedule, s, p.n,
                       Exchange(p.h0, p.updates, ahead));
  }
}
