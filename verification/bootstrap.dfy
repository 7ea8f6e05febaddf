/** One symbol-interval pair at start-up: load, resume, fetch, merge, save, publish. */
module Bootstrap {
  import opened Wrappers
  import opened Candles
  import opened Symbols
  import opened Store
  import opened Files
  import opened Rest

  datatype PairError = FetchFailed(error: FetchError) | SaveFailed

  /** What one pair depends on besides the cache and the disk. */
  datatype Source = Source(
    base: string, limit: int, now: int,
    fetch: (string, string, Option<int>) -> Result<seq<Candle>, FetchError>,
    fault: string -> SaveFault)

  /** The file as start-up takes it: unreadable counts as empty, missing names are filled in. */
  function Existing(disk: Disk, path: string, wire: string, interval: string): CandleFile {
    Defaulted(Reloaded(disk, path), wire, interval)
  }

  /** What the exchange has to add to a list, or why it has nothing. */
  function CatchUp(src: Source, wire: string, interval: string, list: seq<Candle>): Result<seq<Candle>, FetchError> {
    match ComputeStart(list, interval, src.limit, src.now)
    case Err(e) => Err(e)
    case Ok(start) =>
      match src.fetch(wire, interval, Asked(start))
      case Err(e) => Err(e)
      case Ok(answer) => Ok(TrimNewest(answer, src.limit))
  }

  /** The request and what is kept of its answer, step by step: from one second after the last closed
      candle, or a window back from now for an empty list; a start that is not positive is left out; the
      newest limit candles are kept. */
  lemma {:induction false} CatchUpAsksFromResumePoint(src: Source, wire: string, interval: string, list: seq<Candle>)
    ensures list == [] && interval !in INTERVAL_SECONDS ==>
              CatchUp(src, wire, interval, list) == Err(UnsupportedInterval)
    ensures list != [] || interval in INTERVAL_SECONDS ==>
              var window := if src.limit <= 0 then 2000 else src.limit;
              var start := if |list| >= 2 then list[|list| - 2].t + 1
                           else if |list| == 1 then list[0].t + 1
                           else src.now - window * INTERVAL_SECONDS[interval];
              match src.fetch(wire, interval, if start > 0 then Some(start) else None)
              case Err(e) => CatchUp(src, wire, interval, list) == Err(e)
              case Ok(answer) =>
                var n := |answer|;
                var kept := if 0 < src.limit < n then answer[n - src.limit..] else answer;
                CatchUp(src, wire, interval, list) == Ok(kept)
  {
    hide INTERVAL_SECONDS;
  }

  function MergedFile(wire: string, interval: string, now: int, existing: CandleFile,
                      fetched: seq<Candle>): CandleFile {
    CandleFile(wire, interval, now, Merged(existing.candles, fetched))
  }

  /** The whole life of a pair. The cache sees the file first and the merge only once it is on disk. */
  function PairRun(w: World, src: Source, path: string, wire: string, interval: string)
    : (World, Result<nat, PairError>)
  {
    var existing := Existing(w.disk, path, wire, interval);
    var loaded := LoadState(w.mem, wire, interval, existing);
    match CatchUp(src, wire, interval, existing.candles)
    case Err(e) => (World(loaded, w.disk), Err(FetchFailed(e)))
    case Ok(fetched) =>
      var merged := MergedFile(wire, interval, src.now, existing, fetched);
      var (disk, ok) := Saved(w.disk, path, merged, src.fault(path));
      if ok then (World(LoadState(loaded, wire, interval, merged), disk), Ok(|fetched|))
      else (World(loaded, disk), Err(SaveFailed))
  }

  /** How a pair ends. It shows the file it found from the start; a failed fetch or save leaves that and
      the file as they are, and success shows exactly the merge that is on disk. */
  lemma {:induction false} PairEnds(w: World, src: Source, path: string, wire: string, interval: string)
    ensures var (w', r) := PairRun(w, src, path, wire, interval);
            var key := wire + ":" + interval;
            var file := if path in w.disk && w.disk[path].Whole? then w.disk[path].file else CandleFile("", "", 0, []);
            var found := file.(symbol := if file.symbol == "" then wire else file.symbol,
                               interval := if file.interval == "" then interval else file.interval);
            var gain := CatchUp(src, wire, interval, file.candles);
            && w'.mem.Keys == w.mem.Keys + {key} && (forall k :: k in w.mem && k != key ==> w'.mem[k] == w.mem[k])
            && (gain.Err? ==>
                  r == Err(FetchFailed(gain.error)) && w'.disk == w.disk && w'.mem[key] == EntryView(found, false))
            && (gain.Ok? && src.fault(path) != NoFault ==>
                  r == Err(SaveFailed) && LoadFile(w'.disk, path) == LoadFile(w.disk, path)
                  && w'.mem[key] == EntryView(found, false))
            && (gain.Ok? && src.fault(path) == NoFault ==>
                  var merged := CandleFile(wire, interval, src.now, UpsertAll(file.candles, gain.value));
                  && r == Ok(|gain.value|) && w'.mem[key] == EntryView(merged, false)
                  && LoadFile(w'.disk, path) == Ok(merged))
  {
    hide CatchUp, Saved;
    var existing := Existing(w.disk, path, wire, interval);
    var gain := CatchUp(src, wire, interval, existing.candles);
    if gain.Ok? {
      SaveIsAtomic(w.disk, path, MergedFile(wire, interval, src.now, existing, gain.value), src.fault(path));
    }
  }

  /** Upserts the fetched candles one by one; the list it starts from may be shared with the cache
      and is left alone. */
  method MergeInto(existing: array<Candle>, fetched: seq<Candle>) returns (merged: array<Candle>)
    ensures merged[..] == Merged(existing[..], fetched)
    ensures merged == existing || fresh(merged)
  {
    merged := existing;
    for i := 0 to |fetched|
      invariant merged[..] == UpsertAll(existing[..], fetched[..i])
      invariant merged == existing || fresh(merged)
    {
      assert fetched[..i + 1][..i] == fetched[..i];
      merged := Candles.Upsert(merged, fetched[i]);
    }
    assert fetched[..|fetched|] == fetched;
  }

  method LoadExisting(store: CandleStore, files: FileSystem, path: string, wire: string, interval: string)
    returns (existing: FileRef)
    requires store.Valid()
    modifies store
    ensures store.Valid() && existing.Value() == Existing(files.disk, path, wire, interval)
    ensures store.Contents == LoadState(old(store.Contents), wire, interval, existing.Value())
  {
    var file := files.Load(path);
    if file.Ok? {
      existing := file.value;
    } else {
      var none := new Candle[0];
      existing := FileRef("", "", 0, none);
    }
    if existing.symbol == "" { existing := existing.(symbol := wire); }
    if existing.interval == "" { existing := existing.(interval := interval); }
    assert existing.Value() == Existing(files.disk, path, wire, interval);
    store.Load(wire, interval, existing);
  }

  method BootstrapPair(store: CandleStore, files: FileSystem, src: Source, fileSymbol: string, interval: string)
    returns (r: Result<nat, PairError>)
    requires store.Valid()
    modifies store, files
    ensures store.Valid()
    ensures (World(store.Contents, files.disk), r)
            == PairRun(World(old(store.Contents), old(files.disk)), src,
                       BootstrapPath(src.base, fileSymbol, interval), ToMEXC(fileSymbol), interval)
  {
    hide BootstrapPath, ToMEXC, KeyFor, Merged;
    var path, wire := BootstrapPath(src.base, fileSymbol, interval), ToMEXC(fileSymbol);
    var existing := LoadExisting(store, files, path, wire, interval);
    var start := ComputeStart(existing.candles[..], interval, src.limit, src.now);
    if start.Err? {
      return Err(FetchFailed(start.error));
    }
    var answer := src.fetch(wire, interval, Asked(start.value));
    if answer.Err? {
      return Err(FetchFailed(answer.error));
    }
    var fetched := TrimNewest(answer.value, src.limit);
    var list := MergeInto(existing.candles, fetched);
    var merged := FileRef(wire, interval, src.now, list);
    var ok := files.SaveFile(path, merged, src.now, src.fault(path));
    if !ok {
      return Err(SaveFailed);
    }
    store.Load(wire, interval, merged);
    return Ok(|fetched|);
  }
}
