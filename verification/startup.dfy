/** From the configuration to the live phase: preload, symbol filter, and what the worker pool and the
    flusher may rely on. */
module Startup {
  import opened Wrappers
  import opened Candles
  import opened Symbols
  import opened Products
  import opened Store
  import opened Files
  import opened Handler
  import opened Bootstrap
  import Pool
  import Confluence
  import Flushing
  import FlushRuns

  datatype Settings = Settings(symbols: seq<string>, intervals: seq<string>, base: string, workers: int) {
    function Pairs(): seq<(string, string)> {
      Product(symbols, intervals)
    }

    /** Symbols and intervals that name files and keys, none of them twice. */
    ghost predicate Regular() {
      && (forall i :: 0 <= i < |symbols| ==> RegularSymbol(symbols[i]))
      && (forall j :: 0 <= j < |intervals| ==> RegularInterval(intervals[j]))
      && (forall i, k :: 0 <= i < k < |symbols| ==> Trim(symbols[i]) != Trim(symbols[k]))
      && Distinct(intervals)
    }
  }

  function PairKey(p: (string, string)): string {
    KeyFor(ToMEXC(p.0), p.1)
  }

  function PairPath(base: string, p: (string, string)): string {
    BootstrapPath(base, p.0, p.1)
  }

  function PairFile(disk: Disk, base: string, p: (string, string)): CandleFile {
    Existing(disk, PairPath(base, p), ToMEXC(p.0), p.1)
  }

  /** The pair each key stands for; the last one wins. */
  function Indexed(pairs: seq<(string, string)>): map<string, (string, string)> {
    if pairs == [] then map[] else Indexed(pairs[..|pairs| - 1])[PairKey(pairs[|pairs| - 1]) := pairs[|pairs| - 1]]
  }

  // ---------------------------------------------------------------- preload

  function PreloadPair(mem: StoreState, disk: Disk, base: string, p: (string, string)): StoreState {
    LoadState(mem, ToMEXC(p.0), p.1, PairFile(disk, base, p))
  }

  function Preload(mem: StoreState, disk: Disk, base: string, pairs: seq<(string, string)>): StoreState {
    if pairs == [] then mem
    else PreloadPair(Preload(mem, disk, base, pairs[..|pairs| - 1]), disk, base, pairs[|pairs| - 1])
  }

  lemma {:induction false} PreloadStep(mem: StoreState, disk: Disk, base: string, pairs: seq<(string, string)>,
                                       p: (string, string))
    ensures Preload(mem, disk, base, pairs + [p]) == PreloadPair(Preload(mem, disk, base, pairs), disk, base, p)
  {
    assert (pairs + [p])[..|pairs|] == pairs;
  }

  lemma {:induction false} PreloadEmptyRow(mem: StoreState, disk: Disk, base: string, pairs: seq<(string, string)>,
                                           row: seq<(string, string)>)
    ensures Preload(mem, disk, base, pairs + row[..0]) == Preload(mem, disk, base, pairs)
  {
    assert pairs + row[..0] == pairs;
  }

  method PreloadSymbol(store: CandleStore, files: FileSystem, base: string, fileSymbol: string, intervals: seq<string>,
                       ghost mem: StoreState, ghost before: seq<(string, string)>)
    requires store.Valid() && store.Contents == Preload(mem, files.disk, base, before)
    modifies store
    ensures store.Valid()
    ensures store.Contents == Preload(mem, files.disk, base, before + Row(fileSymbol, intervals))
  {
    hide LoadState, BootstrapPath, Existing, ToMEXC, PairFile;
    var wire := ToMEXC(fileSymbol);
    ghost var row := Row(fileSymbol, intervals);
    ghost var disk := files.disk;
    PreloadEmptyRow(mem, disk, base, before, row);
    for j := 0 to |intervals|
      invariant store.Valid() && files.disk == disk
      invariant store.Contents == Preload(mem, disk, base, before + row[..j])
    {
      PreloadStep(mem, disk, base, before + row[..j], row[j]);
      assert before + row[..j + 1] == before + row[..j] + [row[j]];
      assert PairFile(disk, base, row[j])
             == Existing(disk, BootstrapPath(base, fileSymbol, intervals[j]), wire, intervals[j]) by {
        PairFileIs(disk, base, row[j]);
      }
      var _ := LoadExisting(store, files, BootstrapPath(base, fileSymbol, intervals[j]), wire, intervals[j]);
    }
    assert row[..|intervals|] == row;
  }

  lemma {:induction false} PairFileIs(disk: Disk, base: string, p: (string, string))
    ensures PairFile(disk, base, p) == Existing(disk, BootstrapPath(base, p.0, p.1), ToMEXC(p.0), p.1)
  {
    hide BootstrapPath, Existing, ToMEXC;
  }

  /** Loads every configured pair's file into the cache; a file that cannot be read counts as empty. */
  method PreloadExistingFiles(store: CandleStore, files: FileSystem, cfg: Settings)
    requires store.Valid()
    modifies store
    ensures store.Valid()
    ensures store.Contents == Preload(old(store.Contents), files.disk, cfg.base, cfg.Pairs())
  {
    ghost var mem, disk := store.Contents, files.disk;
    for i := 0 to |cfg.symbols|
      invariant store.Valid() && files.disk == disk
      invariant store.Contents == Preload(mem, disk, cfg.base, Product(cfg.symbols[..i], cfg.intervals))
    {
      assert cfg.symbols[..i + 1][..i] == cfg.symbols[..i];
      PreloadSymbol(store, files, cfg.base, cfg.symbols[i], cfg.intervals, mem,
          Product(cfg.symbols[..i], cfg.intervals));
    }
    assert cfg.symbols[..|cfg.symbols|] == cfg.symbols;
  }

  /** The entries that show the indexed pairs' files. */
  function Shown(disk: Disk, base: string, index: map<string, (string, string)>): StoreState {
    map k | k in index :: Pool.CleanEntry(PairFile(disk, base, index[k]))
  }

  lemma {:induction false} PairIsShown(mem: StoreState, disk: Disk, base: string, p: (string, string))
    ensures PreloadPair(mem, disk, base, p) == mem[PairKey(p) := Pool.CleanEntry(PairFile(disk, base, p))]
  {
    hide KeyFor, ToMEXC, BootstrapPath, Reloaded;
  }

  lemma {:induction false} ShownStep(mem: StoreState, disk: Disk, base: string, index: map<string, (string, string)>,
                                     p: (string, string))
    ensures mem + Shown(disk, base, index[PairKey(p) := p])
            == (mem + Shown(disk, base, index))[PairKey(p) := Pool.CleanEntry(PairFile(disk, base, p))]
  {
    hide PairKey, PairFile;
  }

  /** What the preload amounts to: each configured key shows its file, and no other key is touched. */
  lemma {:induction false} PreloadShowsFiles(mem: StoreState, disk: Disk, base: string, pairs: seq<(string, string)>)
    ensures Preload(mem, disk, base, pairs) == mem + Shown(disk, base, Indexed(pairs))
  {
    hide PairKey, PairFile, PreloadPair;
    if pairs == [] {
      assert Shown(disk, base, Indexed(pairs)) == map[];
    } else {
      hide Shown;
      var n := |pairs| - 1;
      PreloadShowsFiles(mem, disk, base, pairs[..n]);
      PairIsShown(Preload(mem, disk, base, pairs[..n]), disk, base, pairs[n]);
      ShownStep(mem, disk, base, Indexed(pairs[..n]), pairs[n]);
    }
  }

  lemma {:induction false} IndexedFrom(pairs: seq<(string, string)>, k: string)
    ensures k in Indexed(pairs) ==> PairKey(Indexed(pairs)[k]) == k && Indexed(pairs)[k] in pairs
    ensures forall n :: 0 <= n < |pairs| && PairKey(pairs[n]) == k ==> k in Indexed(pairs)
  {
    hide PairKey;
    if pairs != [] {
      IndexedFrom(pairs[..|pairs| - 1], k);
    }
  }

  // ---------------------------------------------------------------- regular configurations

  lemma {:induction false} PairAt(cfg: Settings, n: nat)
    requires cfg.Regular() && n < |cfg.Pairs()|
    ensures RegularSymbol(cfg.Pairs()[n].0) && RegularInterval(cfg.Pairs()[n].1)
  {
    var i, j := ProductSplit(cfg.symbols, cfg.intervals, n);
    assert RegularSymbol(cfg.symbols[i]) && RegularInterval(cfg.intervals[j]);
  }

  lemma {:induction false} PairsApart(cfg: Settings, m: nat, n: nat)
    requires cfg.Regular() && m < n < |cfg.Pairs()|
    ensures Trim(cfg.Pairs()[m].0) != Trim(cfg.Pairs()[n].0) || cfg.Pairs()[m].1 != cfg.Pairs()[n].1
  {
    hide RegularSymbol, RegularInterval, Trim;
    var i, j := ProductSplit(cfg.symbols, cfg.intervals, m);
    var k, l := ProductSplit(cfg.symbols, cfg.intervals, n);
    if i == k {
      assert j < l;
    } else if i < k {
      assert Trim(cfg.symbols[i]) != Trim(cfg.symbols[k]);
    } else {
      assert Trim(cfg.symbols[k]) != Trim(cfg.symbols[i]);
    }
  }

  /** A regular symbol's wire spelling is non-empty and colon-free. */
  lemma {:induction false} WireIsPlain(s: string)
    requires RegularSymbol(s)
    ensures ToMEXC(s) != "" && ':' !in ToMEXC(s)
  {
    WireIsTrimmed(s);
    var k := WireShape(s);
    if k < 3 {
      assert ':' !in Trim(s)[..|Trim(s)| - |SUFFIXES[k]|];
    }
  }

  lemma {:induction false} PairsDiffer(cfg: Settings, m: nat, n: nat)
    requires cfg.Regular() && m < |cfg.Pairs()| && n < |cfg.Pairs()| && m != n
    ensures PairKey(cfg.Pairs()[m]) != PairKey(cfg.Pairs()[n])
    ensures PairPath(cfg.base, cfg.Pairs()[m]) != PairPath(cfg.base, cfg.Pairs()[n])
  {
    hide ToMEXC, KeyFor, Trim, BootstrapPath, RegularInterval, RegularSymbol;
    if m < n { PairsApart(cfg, m, n); } else { PairsApart(cfg, n, m); }
    PairAt(cfg, m);
    PairAt(cfg, n);
    hide *;
    var p, q := cfg.Pairs()[m], cfg.Pairs()[n];
    PairsDifferBy(cfg.base, p, q);
  }

  lemma {:induction false} PairsDifferBy(base: string, p: (string, string), q: (string, string))
    requires RegularSymbol(p.0) && RegularSymbol(q.0) && RegularInterval(p.1) && RegularInterval(q.1)
    ensures PairKey(p) == PairKey(q) <==> Trim(p.0) == Trim(q.0) && p.1 == q.1
    ensures PairPath(base, p) == PairPath(base, q) <==> Trim(p.0) == Trim(q.0) && p.1 == q.1
  {
    hide ToMEXC, KeyFor, Trim, BootstrapPath, RegularInterval, RegularSymbol;
    WireIsPlain(p.0);
    WireIsPlain(q.0);
    ToMEXCInjective(p.0, q.0);
    KeyForInjective(ToMEXC(p.0), p.1, ToMEXC(q.0), q.1);
    DistinctPairsDistinctFiles(base, p.0, p.1, q.0, q.1);
  }

  lemma {:induction false} PairIndexed(cfg: Settings, n: nat)
    requires cfg.Regular() && n < |cfg.Pairs()|
    ensures var p := cfg.Pairs()[n]; PairKey(p) in Indexed(cfg.Pairs()) && Indexed(cfg.Pairs())[PairKey(p)] == p
  {
    var pairs := cfg.Pairs();
    var k := PairKey(pairs[n]);
    hide *;
    IndexedFrom(pairs, k);
    var m :| 0 <= m < |pairs| && pairs[m] == Indexed(pairs)[k];
    if m != n {
      PairsDiffer(cfg, m, n);
      assert false;
    }
  }

  // ---------------------------------------------------------------- what the pool is given

  function JobFor(base: string, p: (string, string)): Pool.Job {
    Pool.Job(PairKey(p), PairPath(base, p), ToMEXC(p.0), p.1)
  }

  function PlanFor(cfg: Settings, src: Source): (plan: Pool.Plan)
    ensures |plan.jobs| == |cfg.Pairs()|
  {
    var pairs := cfg.Pairs();
    Pool.Plan(seq(|pairs|, n requires 0 <= n < |pairs| => JobFor(cfg.base, pairs[n])), cfg.workers, src)
  }

  /** The work is the whole product, symbol by symbol, each pair with the file start-up reads and writes, its
      wire spelling and the key of its entry, under the configured number of workers. */
  lemma {:induction false} PlanCoversTheProduct(cfg: Settings, src: Source, i: nat, j: nat)
    requires i < |cfg.symbols| && j < |cfg.intervals|
    ensures var plan, n := PlanFor(cfg, src), i * |cfg.intervals| + j;
            var symbol, interval := cfg.symbols[i], cfg.intervals[j];
            && plan.workers == cfg.workers && plan.src == src
            && n < |plan.jobs| == |cfg.symbols| * |cfg.intervals|
            && plan.jobs[n] == Pool.Job(ToMEXC(symbol) + ":" + interval, BootstrapPath(cfg.base, symbol, interval),
                                        ToMEXC(symbol), interval)
  {
    hide ToMEXC, BootstrapPath;
    ProductLength(cfg.symbols, cfg.intervals);
    ProductAt(cfg.symbols, cfg.intervals, i, j);
  }

  /** Before the first request every configured pair has a clean entry: its file, with blank names filled in,
      or an empty list under its own names if there is no file that can be read. */
  lemma {:induction false} PreloadedEntryIs(cfg: Settings, disk: Disk, i: nat, j: nat)
    requires cfg.Regular() && i < |cfg.symbols| && j < |cfg.intervals|
    ensures var wire, interval := ToMEXC(cfg.symbols[i]), cfg.intervals[j];
            var path, mem := BootstrapPath(cfg.base, cfg.symbols[i], interval),
              Preload(map[], disk, cfg.base, cfg.Pairs());
            && wire + ":" + interval in mem
            && (if path in disk && disk[path].Whole?
                then var f := disk[path].file;
                     mem[wire + ":" + interval]
                     == EntryView(f.(symbol := if f.symbol == "" then wire else f.symbol,
                                     interval := if f.interval == "" then interval else f.interval), false)
                else mem[wire + ":" + interval] == EntryView(CandleFile(wire, interval, 0, []), false))
  {
    hide ToMEXC, BootstrapPath, Preload, Indexed, Settings.Regular;
    ProductAt(cfg.symbols, cfg.intervals, i, j);
    PairIndexed(cfg, i * |cfg.intervals| + j);
    PreloadShowsFiles(map[], disk, cfg.base, cfg.Pairs());
  }

  /** Pairs of a regular configuration share neither a key nor a file. */
  lemma {:induction false} PlanIsSeparate(cfg: Settings, src: Source)
    requires cfg.Regular()
    ensures PlanFor(cfg, src).Separate()
  {
    hide ToMEXC, KeyFor, BootstrapPath, TempPath, Settings.Regular, Settings.Pairs;
    var jobs := PlanFor(cfg, src).jobs;
    forall i, j | 0 <= i < |jobs| && 0 <= j < |jobs| && i != j
      ensures jobs[i].key != jobs[j].key && jobs[i].path != jobs[j].path {
      PairsDiffer(cfg, i, j);
    }
    forall i, j | 0 <= i < |jobs| && 0 <= j < |jobs| ensures jobs[i].path != TempPath(jobs[j].path) {
      TempIsNoDataFile(cfg.base, cfg.Pairs()[i].0, cfg.Pairs()[i].1, jobs[j].path);
    }
  }

  /** After the preload of an empty cache every job finds its file's contents under its key. */
  lemma {:induction false} PreloadFeedsThePool(cfg: Settings, src: Source, disk: Disk)
    requires cfg.Regular()
    ensures Confluence.Preloaded(PlanFor(cfg, src), Preload(map[], disk, cfg.base, cfg.Pairs()), disk)
  {
    hide ToMEXC, KeyFor, BootstrapPath, Existing, Preload, Indexed, Settings.Regular, Settings.Pairs, PairKey, PairPath;
    PreloadShowsFiles(map[], disk, cfg.base, cfg.Pairs());
    forall n | 0 <= n < |cfg.Pairs()|
      ensures var p := cfg.Pairs()[n]; PairKey(p) in Indexed(cfg.Pairs()) && Indexed(cfg.Pairs())[PairKey(p)] == p {
      PairIndexed(cfg, n);
    }
  }

  // ---------------------------------------------------------------- what the flusher is given

  function ConfigFor(cfg: Settings): (c: Flushing.Config)
    ensures c.paths.Keys == c.names.Keys == Indexed(cfg.Pairs()).Keys
  {
    var index := Indexed(cfg.Pairs());
    Flushing.Config(
      map k | k in index :: PairPath(cfg.base, index[k]),
      map k | k in index :: (ToMEXC(index[k].0), index[k].1),
      s => PathFor(cfg.base, s))
  }

  /** Start-up loads exactly what a restart loads, whatever is configured. */
  lemma {:induction false} PreloadIsRestart(cfg: Settings, disk: Disk)
    ensures Preload(map[], disk, cfg.base, cfg.Pairs()) == Flushing.Restarted(ConfigFor(cfg), disk)
  {
    hide ToMEXC, BootstrapPath, Preload, Indexed, Settings.Pairs, Reloaded;
    PreloadShowsFiles(map[], disk, cfg.base, cfg.Pairs());
  }

  /** A snapshot that matches its key resolves to the file start-up reads for that key. */
  lemma {:induction false} ResolvesToOwnFile(cfg: Settings, n: nat, s: Snapshot)
    requires cfg.Regular() && n < |cfg.Pairs()| && s.key == PairKey(cfg.Pairs()[n])
    requires s.key == KeyFor(s.file.symbol, s.file.interval)
    ensures PathFor(cfg.base, s) == Ok(PairPath(cfg.base, cfg.Pairs()[n]))
  {
    var p := cfg.Pairs()[n];
    PairAt(cfg, n);
    hide ToMEXC, KeyFor, BootstrapPath, Trim, SplitKey, FilePathForEntry;
    WireIsPlain(p.0);
    KeySplitsBack(ToMEXC(p.0), p.1);
    LoneColon(s.file.symbol, s.file.interval);
    FlushPathMeetsBootstrapPath(cfg.base, p.0, p.1);
  }

  /** The flusher and the start-up phase agree on where every pair lives. */
  lemma {:induction false} ConfigIsLaidOut(cfg: Settings)
    requires cfg.Regular()
    ensures ConfigFor(cfg).LaidOut()
  {
    hide ToMEXC, KeyFor, BootstrapPath, TempPath, Settings.Regular, Settings.Pairs, PairKey, PathFor;
    var c, pairs := ConfigFor(cfg), cfg.Pairs();
    var index := Indexed(pairs);
    hide Indexed;
    forall j, k | j in c.paths && k in c.paths && j != k ensures c.paths[j] != c.paths[k] {
      IndexedFrom(pairs, j);
      IndexedFrom(pairs, k);
      var m :| 0 <= m < |pairs| && pairs[m] == index[j];
      var n :| 0 <= n < |pairs| && pairs[n] == index[k];
      PairsDiffer(cfg, m, n);
    }
    forall j, k | j in c.paths && k in c.paths ensures c.paths[j] != TempPath(c.paths[k]) {
      TempIsNoDataFile(cfg.base, index[j].0, index[j].1, c.paths[k]);
    }
    forall s: Snapshot | s.key in c.paths && s.key == KeyFor(s.file.symbol, s.file.interval)
      ensures c.resolve(s) == Ok(c.paths[s.key])
    {
      IndexedFrom(pairs, s.key);
      var n :| 0 <= n < |pairs| && pairs[n] == index[s.key];
      ResolvesToOwnFile(cfg, n, s);
    }
  }

  // ---------------------------------------------------------------- handing over to the live phase

  /** No step of the pool adds or removes a key once every pair is preloaded. */
  lemma {:induction false} PoolKeepsKeys(plan: Pool.Plan, mem: StoreState, disk: Disk, schedule: seq<Pool.Event>)
    requires forall i :: 0 <= i < |plan.jobs| ==> plan.jobs[i].key in mem
    requires Pool.After(plan, Pool.Initial(plan, mem, disk), schedule).Some?
    ensures Pool.After(plan, Pool.Initial(plan, mem, disk), schedule).value.mem.Keys == mem.Keys
  {
    hide Pool.Moved, Pool.NextDisk, Existing;
    if schedule != [] {
      PoolKeepsKeys(plan, mem, disk, schedule[..|schedule| - 1]);
    }
  }

  /** A pair that gave its slot back left a clean entry showing exactly what its file holds. */
  lemma {:induction false} SettledInSync(plan: Pool.Plan, disk0: Disk, s: Pool.State, i: nat)
    requires i < |plan.jobs| == |s.workers| && Confluence.Local(plan, disk0, s, i) && s.workers[i].Released?
    ensures var key := plan.jobs[i].key;
            key in s.mem && !s.mem[key].dirty && s.mem[key].file.candles == Reloaded(s.disk, plan.jobs[i].path).candles
  {
    hide CatchUp, MergedFile, KeyFor;
  }

  /** Every configured key has a clean entry that shows its file. */
  ghost predicate InSync(cfg: Settings, mem: StoreState, disk: Disk) {
    && mem.Keys == Indexed(cfg.Pairs()).Keys
    && forall k :: k in mem ==>
         !mem[k].dirty && mem[k].file.candles == Reloaded(disk, PairPath(cfg.base, Indexed(cfg.Pairs())[k])).candles
  }

  lemma {:induction false} PoolEndsInSync(cfg: Settings, src: Source, disk: Disk, schedule: seq<Pool.Event>,
                                          s: Pool.State)
    requires cfg.Regular() && PlanFor(cfg, src).RefusalIsPerSymbol()
    requires Confluence.EndsAt(PlanFor(cfg, src), Preload(map[], disk, cfg.base, cfg.Pairs()), disk, schedule, s)
    ensures InSync(cfg, s.mem, s.disk)
  {
    var plan, mem := PlanFor(cfg, src), Preload(map[], disk, cfg.base, cfg.Pairs());
    assert mem.Keys == Indexed(cfg.Pairs()).Keys by {
      PreloadIsRestart(cfg, disk);
    }
    assert Confluence.AllLocal(plan, disk, s) by {
      hide *;
      PlanIsSeparate(cfg, src);
      PreloadFeedsThePool(cfg, src, disk);
      EndedLocally(plan, mem, disk, schedule, s);
    }
    assert s.mem.Keys == mem.Keys by {
      PreloadFeedsThePool(cfg, src, disk);
      hide *;
      EndedWithSameKeys(plan, mem, disk, schedule, s);
    }
    SettledMeansInSync(cfg, src, disk, s);
  }

  lemma {:induction false} SettledMeansInSync(cfg: Settings, src: Source, disk: Disk, s: Pool.State)
    requires Confluence.AllLocal(PlanFor(cfg, src), disk, s) && Pool.Complete(PlanFor(cfg, src), s)
    requires s.mem.Keys == Indexed(cfg.Pairs()).Keys
    ensures InSync(cfg, s.mem, s.disk)
  {
    hide Settings.Pairs, Indexed, Confluence.Local, Reloaded, PairKey, PairPath;
    forall k | k in s.mem ensures !s.mem[k].dirty
        && s.mem[k].file.candles == Reloaded(s.disk, PairPath(cfg.base, Indexed(cfg.Pairs())[k])).candles {
      IndexedFrom(cfg.Pairs(), k);
      var n :| 0 <= n < |cfg.Pairs()| && cfg.Pairs()[n] == Indexed(cfg.Pairs())[k];
      SettledInSync(PlanFor(cfg, src), disk, s, n);
    }
  }

  lemma {:induction false} EndedLocally(plan: Pool.Plan, mem: StoreState, disk: Disk, schedule: seq<Pool.Event>,
                                        s: Pool.State)
    requires plan.Separate() && plan.RefusalIsPerSymbol() && Confluence.Preloaded(plan, mem, disk)
    requires Confluence.EndsAt(plan, mem, disk, schedule, s)
    ensures Confluence.AllLocal(plan, disk, s)
  {
    hide Pool.After, Pool.Initial, Pool.Plan.Separate, Pool.Plan.RefusalIsPerSymbol, Confluence.Preloaded,
         Confluence.AllLocal;
    Confluence.ScheduleKeepsLocal(plan, mem, disk, schedule);
  }

  lemma {:induction false} EndedWithSameKeys(plan: Pool.Plan, mem: StoreState, disk: Disk, schedule: seq<Pool.Event>,
                                             s: Pool.State)
    requires Confluence.Preloaded(plan, mem, disk) && Confluence.EndsAt(plan, mem, disk, schedule, s)
    ensures s.mem.Keys == mem.Keys
  {
    hide Pool.After, Pool.Initial, Confluence.Own;
    PoolKeepsKeys(plan, mem, disk, schedule);
  }

  lemma {:induction false} LiveFromSync(cfg: Settings, mem: StoreState, disk: Disk)
    requires cfg.Regular() && InSync(cfg, mem, disk)
    ensures FlushRuns.Run(ConfigFor(cfg), [Flushing.State(mem, disk, Flushing.Idle)], []).Valid()
  {
    ConfigIsLaidOut(cfg);
    hide Settings.Regular, Settings.Pairs, Indexed, Reloaded, Flushing.Config.LaidOut, PairPath, KeyFor, ToMEXC;
  }

  /** An uncancelled start-up of a regular configuration, in whatever order its workers ran, ends in a
      state from which every live run is sound: one clean entry per configured key, equal to its file. */
  lemma {:induction false} StartUpHandsOver(cfg: Settings, src: Source, disk: Disk, schedule: seq<Pool.Event>,
                                            s: Pool.State)
    requires cfg.Regular() && PlanFor(cfg, src).RefusalIsPerSymbol()
    requires Confluence.EndsAt(PlanFor(cfg, src), Preload(map[], disk, cfg.base, cfg.Pairs()), disk, schedule, s)
    ensures s.mem.Keys == Indexed(cfg.Pairs()).Keys
    ensures FlushRuns.Run(ConfigFor(cfg), [Flushing.State(s.mem, s.disk, Flushing.Idle)], []).Valid()
  {
    PoolEndsInSync(cfg, src, disk, schedule, s);
    assert s.mem.Keys == Indexed(cfg.Pairs()).Keys;
    hide *;
    LiveFromSync(cfg, s.mem, s.disk);
  }

  /** The file found for a pair carries that pair's names, or blanks. */
  ghost predicate OwnNames(disk: Disk, base: string, p: (string, string)) {
    var f := Reloaded(disk, PairPath(base, p));
    (f.symbol == "" || f.symbol == ToMEXC(p.0)) && (f.interval == "" || f.interval == p.1)
  }

  /** A settled pair's entry carries the names of its job. */
  lemma {:induction false} SettledNames(plan: Pool.Plan, disk0: Disk, s: Pool.State, i: nat)
    requires i < |plan.jobs| == |s.workers| && Confluence.Local(plan, disk0, s, i) && s.workers[i].Released?
    requires var f := Reloaded(disk0, plan.jobs[i].path);
             (f.symbol == "" || f.symbol == plan.jobs[i].wire)
                 && (f.interval == "" || f.interval == plan.jobs[i].interval)
    ensures var job := plan.jobs[i];
            job.key in s.mem && s.mem[job.key].file.symbol == job.wire && s.mem[job.key].file.interval == job.interval
  {
    hide CatchUp, KeyFor, Reloaded, LoadFile;
  }

  /** If no data file carries another pair's names, every entry ends start-up with the names its key was
      built from. */
  lemma {:induction false} NamesMatchAfterStartUp(cfg: Settings, src: Source, disk: Disk, schedule: seq<Pool.Event>,
                                                  s: Pool.State, k: string)
    requires cfg.Regular() && PlanFor(cfg, src).RefusalIsPerSymbol()
    requires Confluence.EndsAt(PlanFor(cfg, src), Preload(map[], disk, cfg.base, cfg.Pairs()), disk, schedule, s)
    requires forall n :: 0 <= n < |cfg.Pairs()| ==> OwnNames(disk, cfg.base, cfg.Pairs()[n])
    requires k in s.mem
    ensures k in Indexed(cfg.Pairs()) && k == KeyFor(s.mem[k].file.symbol, s.mem[k].file.interval)
    ensures var p := Indexed(cfg.Pairs())[k]; s.mem[k].file.symbol == ToMEXC(p.0) && s.mem[k].file.interval == p.1
  {
    hide Settings.Regular, Settings.Pairs, Indexed, Preload, Pool.After, Pool.Initial, Confluence.Local, Reloaded,
         Pool.Plan.Separate, Pool.Plan.RefusalIsPerSymbol, PairPath, Existing, ToMEXC, KeyFor;
    StartUpHandsOver(cfg, src, disk, schedule, s);
    PlanIsSeparate(cfg, src);
    PreloadFeedsThePool(cfg, src, disk);
    var plan := PlanFor(cfg, src);
    EndedLocally(plan, Preload(map[], disk, cfg.base, cfg.Pairs()), disk, schedule, s);
    IndexedFrom(cfg.Pairs(), k);
    var n :| 0 <= n < |cfg.Pairs()| && cfg.Pairs()[n] == Indexed(cfg.Pairs())[k];
    assert OwnNames(disk, cfg.base, cfg.Pairs()[n]);
    SettledNames(plan, disk, s, n);
  }

  lemma {:induction false} ConfigFits(cfg: Settings, m: nat)
    requires cfg.Regular() && m < |cfg.Pairs()|
    ensures var k := PairKey(cfg.Pairs()[m]);
            && FlushRuns.Fits(ConfigFor(cfg), k)
            && ConfigFor(cfg).names[k] == (ToMEXC(cfg.Pairs()[m].0), cfg.Pairs()[m].1)
            && k in ConfigFor(cfg).paths && ConfigFor(cfg).paths[k] == PairPath(cfg.base, cfg.Pairs()[m])
  {
    hide ToMEXC, KeyFor, BootstrapPath, Indexed, Settings.Regular, Settings.Pairs, RegularSymbol;
    PairIndexed(cfg, m);
    PairAt(cfg, m);
    WireIsPlain(cfg.Pairs()[m].0);
  }

  /** The names a start-up leaves behind last through the whole life that follows, in the cache and in the
      files, so the next start-up finds every file under the names it looks for. */
  lemma {:induction false} NamesPassToTheNextStartUp(cfg: Settings, run: FlushRuns.Run, n: nat, m: nat)
    requires cfg.Regular() && m < |cfg.Pairs()| && run.Valid() && run.cfg == ConfigFor(cfg) && n <= |run.events|
    requires var p, s := cfg.Pairs()[m], run.states[0];
             && OwnNames(s.disk, cfg.base, p) && PairKey(p) in s.mem
             && s.mem[PairKey(p)].file.symbol == ToMEXC(p.0) && s.mem[PairKey(p)].file.interval == p.1
    ensures var p, s := cfg.Pairs()[m], run.states[n];
            && OwnNames(s.disk, cfg.base, p) && PairKey(p) in s.mem
            && s.mem[PairKey(p)].file.symbol == ToMEXC(p.0) && s.mem[PairKey(p)].file.interval == p.1
  {
    hide Settings.Regular, Settings.Pairs, ConfigFor, FlushRuns.Run.Valid, FlushRuns.Fits, PairKey, PairPath, ToMEXC,
         Reloaded;
    ConfigFits(cfg, m);
    FlushRuns.NamesSurvive(run, n, PairKey(cfg.Pairs()[m]));
  }

  // ---------------------------------------------------------------- the symbols worth subscribing to

  /** Some entry that carries this wire symbol holds a candle. */
  ghost predicate HasData(mem: StoreState, wire: string) {
    exists k :: k in mem && mem[k].file.candles != [] && mem[k].file.symbol == wire
  }

  ghost function WithData(mem: StoreState, symbols: seq<string>, wanted: bool): seq<string> {
    if symbols == [] then []
    else
      var init, s := symbols[..|symbols| - 1], symbols[|symbols| - 1];
      if HasData(mem, ToMEXC(s)) == wanted then WithData(mem, init, wanted) + [s] else WithData(mem, init, wanted)
  }

  /** Keeps the symbols with data, or all of them when none has any. */
  method SymbolsWithBootstrapData(store: CandleStore, symbols: seq<string>)
    returns (kept: seq<string>, dropped: seq<string>)
    requires store.Valid()
    ensures var named := WithData(store.Contents, symbols, true); kept == if named == [] then symbols else named
    ensures dropped == WithData(store.Contents, symbols, false)
  {
    hide ToMEXC, KeyFor;
    var hasData := CollectSymbols(store);
    kept, dropped := [], [];
    for n := 0 to |symbols|
      invariant kept == WithData(store.Contents, symbols[..n], true)
      invariant dropped == WithData(store.Contents, symbols[..n], false)
    {
      assert symbols[..n + 1][..n] == symbols[..n];
      if ToMEXC(symbols[n]) in hasData {
        kept := kept + [symbols[n]];
      } else {
        dropped := dropped + [symbols[n]];
      }
    }
    assert symbols[..|symbols|] == symbols;
    if |kept| == 0 {
      kept := symbols;
    }
  }

  method CollectSymbols(store: CandleStore) returns (hasData: set<string>)
    requires store.Valid()
    ensures forall wire :: wire in hasData <==> HasData(store.Contents, wire)
  {
    hide KeyFor;
    var entries := store.All();
    forall k | k in entries ensures entries[k].View() == store.Contents[k] {
      assert entries[k].key == k;
    }
    hasData := SymbolsWithCandles(entries, store.Contents);
  }

  method SymbolsWithCandles(entries: map<string, Entry>, ghost mem: StoreState) returns (hasData: set<string>)
    requires entries.Keys == mem.Keys
    requires forall k :: k in entries ==>
               entries[k].file.symbol == mem[k].file.symbol && entries[k].file.candles.Length == |mem[k].file.candles|
    ensures forall wire :: wire in hasData <==> HasData(mem, wire)
  {
    hasData := {};
    var rest := entries.Keys;
    while rest != {}
      invariant rest <= entries.Keys
      invariant forall wire :: wire in hasData <==> Carried(mem, entries.Keys - rest, wire)
      decreases |rest|
    {
      var k :| k in rest;
      CarriedMore(mem, entries.Keys - rest, k);
      assert entries.Keys - (rest - {k}) == (entries.Keys - rest) + {k};
      rest := rest - {k};
      if entries[k].file.candles.Length != 0 {
        hasData := hasData + {entries[k].file.symbol};
      }
    }
  }

  /** Some entry under one of these keys carries the wire symbol and holds a candle. */
  ghost predicate Carried(mem: StoreState, keys: set<string>, wire: string) {
    exists k :: k in keys && k in mem && mem[k].file.candles != [] && mem[k].file.symbol == wire
  }

  lemma {:induction false} CarriedMore(mem: StoreState, keys: set<string>, k: string)
    requires k in mem
    ensures forall wire :: Carried(mem, keys + {k}, wire) <==>
              Carried(mem, keys, wire) || (mem[k].file.candles != [] && mem[k].file.symbol == wire)
  {
    forall wire | Carried(mem, keys, wire) ensures Carried(mem, keys + {k}, wire) {
      var j :| j in keys && j in mem && mem[j].file.candles != [] && mem[j].file.symbol == wire;
      assert j in keys + {k};
    }
    assert k in keys + {k};
  }

  /** The list is cut down and nothing else: at says where in the list each symbol kept comes from, in the
      order of the list, and every symbol that belongs is there as often as it is listed. */
  lemma {:induction false} WithDataKeepsOrder(mem: StoreState, symbols: seq<string>, wanted: bool)
    returns (at: seq<nat>)
    ensures |at| == |WithData(mem, symbols, wanted)| && forall m, n :: 0 <= m < n < |at| ==> at[m] < at[n]
    ensures forall n :: 0 <= n < |at| ==> at[n] < |symbols| && WithData(mem, symbols, wanted)[n] == symbols[at[n]]
    ensures forall i :: 0 <= i < |symbols| ==> (i in at <==> HasData(mem, ToMEXC(symbols[i])) == wanted)
  {
    hide ToMEXC, HasData;
    if symbols == [] {
      at := [];
    } else {
      var last := |symbols| - 1;
      at := WithDataKeepsOrder(mem, symbols[..last], wanted);
      if HasData(mem, ToMEXC(symbols[last])) == wanted {
        at := at + [last];
      }
    }
  }

  lemma {:induction false} WithDataFrom(mem: StoreState, symbols: seq<string>, wanted: bool, s: string)
    ensures s in WithData(mem, symbols, wanted) <==> s in symbols && HasData(mem, ToMEXC(s)) == wanted
  {
    hide ToMEXC, HasData;
    if symbols != [] {
      WithDataFrom(mem, symbols[..|symbols| - 1], wanted, s);
      assert symbols == symbols[..|symbols| - 1] + [symbols[|symbols| - 1]];
    }
  }

  /** A push for any configured symbol and interval passes the gate in front of the cache, so every
      subscription built from the kept symbols does. */
  lemma {:induction false} SubscriptionsPassTheGate(cfg: Settings, mem: StoreState, s: string, interval: string,
                                                    c: Candle)
    requires cfg.Regular() && mem.Keys == Indexed(cfg.Pairs()).Keys
    requires s in cfg.symbols && interval in cfg.intervals
    ensures Accepted(mem, Frame(PUSH_KLINE, Some(Push(ToMEXC(s), interval, c))))
  {
    hide ToMEXC, KeyFor, Indexed, Settings.Regular, Product, RegularSymbol;
    ProductMembers(cfg.symbols, cfg.intervals, s, interval);
    var n :| 0 <= n < |cfg.Pairs()| && cfg.Pairs()[n] == (s, interval);
    PairAt(cfg, n);
    WireIsPlain(s);
    PairIndexed(cfg, n);
  }

  /** A kept symbol is one with a candle in one of its own intervals, provided the entries with candles
      carry the names their keys were built from. */
  lemma {:induction false} KeptIffOwnCandles(cfg: Settings, mem: StoreState, s: string)
    requires cfg.Regular() && mem.Keys == Indexed(cfg.Pairs()).Keys && s in cfg.symbols
    requires forall k :: k in mem && mem[k].file.candles != [] ==> k == KeyFor(mem[k].file.symbol, mem[k].file.interval)
    ensures s in WithData(mem, cfg.symbols, true) <==>
            exists j :: 0 <= j < |cfg.intervals| && KeyFor(ToMEXC(s), cfg.intervals[j]) in mem
                        && mem[KeyFor(ToMEXC(s), cfg.intervals[j])].file.candles != []
  {
    hide ToMEXC, KeyFor, WithData, Indexed, Settings.Regular, Product, RegularSymbol;
    WithDataFrom(mem, cfg.symbols, true, s);
    if HasData(mem, ToMEXC(s)) {
      var k :| k in mem && mem[k].file.candles != [] && mem[k].file.symbol == ToMEXC(s);
      CarriesConfiguredNames(cfg, k, mem[k].file.symbol, mem[k].file.interval);
    }
    forall j | 0 <= j < |cfg.intervals| && KeyFor(ToMEXC(s), cfg.intervals[j]) in mem
               && mem[KeyFor(ToMEXC(s), cfg.intervals[j])].file.candles != []
      ensures HasData(mem, ToMEXC(s)) {
      var k := KeyFor(ToMEXC(s), cfg.intervals[j]);
      CarriesConfiguredNames(cfg, k, mem[k].file.symbol, mem[k].file.interval);
      CarriesConfiguredNames(cfg, k, ToMEXC(s), cfg.intervals[j]);
    }
  }

  /** The names a configured key was built from are those of its pair. */
  lemma {:induction false} CarriesConfiguredNames(cfg: Settings, k: string, symbol: string, interval: string)
    requires cfg.Regular() && k in Indexed(cfg.Pairs()) && k == KeyFor(symbol, interval)
    ensures interval in cfg.intervals && symbol == ToMEXC(Indexed(cfg.Pairs())[k].0)
            && interval == Indexed(cfg.Pairs())[k].1
  {
    hide ToMEXC, KeyFor, Indexed, Settings.Regular, Product, RegularSymbol, SplitKey;
    IndexedFrom(cfg.Pairs(), k);
    var n :| 0 <= n < |cfg.Pairs()| && cfg.Pairs()[n] == Indexed(cfg.Pairs())[k];
    PairAt(cfg, n);
    var p := cfg.Pairs()[n];
    ProductMembers(cfg.symbols, cfg.intervals, p.0, p.1);
    WireIsPlain(p.0);
    KeySplitsBack(ToMEXC(p.0), p.1);
    LoneColon(symbol, interval);
  }
}
