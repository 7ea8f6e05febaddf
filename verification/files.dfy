/** Snapshot files: load, atomic replace, and one undisturbed flush of the dirty entries. */
module Files {
  import opened Wrappers
  import opened Candles
  import opened Symbols
  import opened Store

  // ---------------------------------------------------------------- the disk

  /** A file that exists cannot be read, does not decode, or decodes to a candle file. */
  datatype Content = Unreadable | Damaged | Whole(file: CandleFile)

  type Disk = map<string, Content>

  datatype LoadError = ReadFailed | CorruptFile

  /** A missing file reads as the empty file, an unreadable or undecodable one is an error. */
  function LoadFile(disk: Disk, path: string): Result<CandleFile, LoadError> {
    if path !in disk then Ok(NO_FILE)
    else match disk[path]
      case Unreadable => Err(ReadFailed)
      case Damaged => Err(CorruptFile)
      case Whole(file) => Ok(file)
  }

  /** What every start-up caller makes of a file: an error counts as empty. */
  function Reloaded(disk: Disk, path: string): CandleFile {
    match LoadFile(disk, path)
    case Ok(file) => file
    case Err(_) => NO_FILE
  }

  // ---------------------------------------------------------------- saving, step by step

  datatype TempOutcome = DirFails | Torn | Written

  /** Writing the temporary file: the directory may be missing, the write may stop half way. */
  function WriteTemp(disk: Disk, path: string, file: CandleFile, outcome: TempOutcome): Disk {
    match outcome
    case DirFails => disk
    case Torn => disk[TempPath(path) := Damaged]
    case Written => disk[TempPath(path) := Whole(file)]
  }

  /** Renaming moves the temporary file over the data file in one step; after a failure it is removed,
      unless that fails too. */
  function RenameTemp(disk: Disk, path: string, ok: bool, removed: bool): Disk
    requires TempPath(path) in disk
  {
    if ok then disk[path := disk[TempPath(path)]] - {TempPath(path)}
    else if removed then disk - {TempPath(path)}
    else disk
  }

  /** Where a save gives up: before the temporary file, half way through it, or at the rename. */
  datatype SaveFault = NoFault | DirFault | TornFault | RenameFault(removed: bool)

  function Saved(disk: Disk, path: string, file: CandleFile, fault: SaveFault): (Disk, bool) {
    match fault
    case DirFault => (WriteTemp(disk, path, file, DirFails), false)
    case TornFault => (WriteTemp(disk, path, file, Torn), false)
    case RenameFault(removed) => (RenameTemp(WriteTemp(disk, path, file, Written), path, false, removed), false)
    case NoFault => (RenameTemp(WriteTemp(disk, path, file, Written), path, true, false), true)
  }

  class FileSystem {
    var disk: Disk

    constructor (disk: Disk)
      ensures this.disk == disk
    {
      this.disk := disk;
    }

    /** Decodes a file into a newly allocated list. */
    method Load(path: string) returns (r: Result<FileRef, LoadError>)
      ensures r.Ok? ==> fresh(r.value.candles) && LoadFile(disk, path) == Ok(r.value.Value())
      ensures r.Err? ==> LoadFile(disk, path) == Err(r.error)
      ensures path !in disk ==> r.Ok? && r.value.Value() == CandleFile("", "", 0, [])
      ensures path in disk && disk[path].Whole? ==> r.Ok? && r.value.Value() == disk[path].file
      ensures path in disk && disk[path].Unreadable? ==> r == Err(ReadFailed)
      ensures path in disk && disk[path].Damaged? ==> r == Err(CorruptFile)
    {
      var content := LoadFile(disk, path);
      if content.Err? {
        return Err(content.error);
      }
      var f := content.value;
      var list := new Candle[|f.candles|](i requires 0 <= i < |f.candles| => f.candles[i]);
      assert list[..] == f.candles;
      return Ok(FileRef(f.symbol, f.interval, f.updatedAt, list));
    }

    /** Stamps the file and replaces the data file atomically. */
    method SaveFile(path: string, cf: FileRef, now: int, fault: SaveFault) returns (ok: bool)
      modifies this
      ensures (disk, ok) == Saved(old(disk), path, cf.Value().(updatedAt := now), fault)
    {
      var payload := CandleFile(cf.symbol, cf.interval, now, cf.candles[..]);
      if fault.DirFault? {
        return false;
      }
      if fault.TornFault? {
        disk := WriteTemp(disk, path, payload, Torn);
        return false;
      }
      disk := WriteTemp(disk, path, payload, Written);
      if fault.RenameFault? {
        disk := RenameTemp(disk, path, false, fault.removed);
        return false;
      }
      disk := RenameTemp(disk, path, true, false);
      return true;
    }
  }

  /** A save touches the data file only by installing the new file whole, and nothing else but its
      temporary file, which it leaves behind only when the write is torn or it cannot be removed. */
  lemma {:induction false} SaveIsAtomic(disk: Disk, path: string, file: CandleFile, fault: SaveFault)
    ensures Saved(disk, path, file, fault).1 <==> fault == NoFault
    ensures fault == NoFault ==> LoadFile(Saved(disk, path, file, fault).0, path) == Ok(file)
    ensures fault != NoFault ==> LoadFile(Saved(disk, path, file, fault).0, path) == LoadFile(disk, path)
    ensures forall p :: p != path && p != TempPath(path) ==>
              LoadFile(Saved(disk, path, file, fault).0, p) == LoadFile(disk, p)
    ensures var disk', temp := Saved(disk, path, file, fault).0, path + ".tmp";
            match fault
            case NoFault => path in disk' && disk'[path] == Whole(file) && temp !in disk'
            case DirFault => disk' == disk
            case TornFault => temp in disk' && disk'[temp] == Damaged
            case RenameFault(removed) => if removed then temp !in disk' else temp in disk' && disk'[temp] == Whole(file)
  {
    assert |TempPath(path)| == |path| + 4;
  }

  // ---------------------------------------------------------------- one undisturbed flush

  datatype Snapshot = Snapshot(key: string, file: CandleFile)

  datatype World = World(mem: StoreState, disk: Disk)

  function PathFor(base: string, s: Snapshot): Result<string, PathError> {
    FilePathForEntry(base, s.key, s.file.symbol, s.file.interval)
  }

  /** One round of the flush loop: resolve, save, and only then clear the flag. */
  function FlushOne(w: World, base: string, s: Snapshot, now: string -> int, fault: string -> SaveFault)
    : (World, bool)
  {
    match PathFor(base, s)
    case Err(_) => (w, false)
    case Ok(path) =>
      var (disk, ok) := Saved(w.disk, path, s.file.(updatedAt := now(path)), fault(path));
      (World(if ok then ClearState(w.mem, s.key) else w.mem, disk), ok)
  }

  /** The same round with the count of files written so far. */
  function Round(acc: (World, nat), base: string, s: Snapshot, now: string -> int,
                 fault: string -> SaveFault): (World, nat) {
    var one := FlushOne(acc.0, base, s, now, fault);
    (one.0, if one.1 then acc.1 + 1 else acc.1)
  }

  function FlushAll(w: World, base: string, snaps: seq<Snapshot>, now: string -> int,
                    fault: string -> SaveFault): (World, nat) {
    if snaps == [] then (w, 0)
    else
      Round(FlushAll(w, base, snaps[..|snaps| - 1], now, fault), base, snaps[|snaps| - 1], now, fault)
  }

  lemma {:induction false} FlushAllStep(w: World, base: string, snaps: seq<Snapshot>, now: string -> int,
                                        fault: string -> SaveFault, n: nat)
    requires n < |snaps|
    ensures FlushAll(w, base, snaps[..n + 1], now, fault)
            == Round(FlushAll(w, base, snaps[..n], now, fault), base, snaps[n], now, fault)
  {
    assert snaps[..n + 1][..n] == snaps[..n];
  }

  /** snaps lists the dirty entries of mem, each exactly once. */
  ghost predicate SnapshotsOf(snaps: seq<Snapshot>, mem: StoreState) {
    && (forall i :: 0 <= i < |snaps| ==>
          snaps[i].key in mem && mem[snaps[i].key].dirty && snaps[i].file == mem[snaps[i].key].file)
    && (forall i, j :: 0 <= i < j < |snaps| ==> snaps[i].key != snaps[j].key)
    && (forall k :: k in mem && mem[k].dirty ==> exists i :: 0 <= i < |snaps| && snaps[i].key == k)
  }

  /** One round on the live objects. */
  method FlushEntry(store: CandleStore, files: FileSystem, base: string, entry: Entry, now: string -> int,
                    fault: string -> SaveFault)
    returns (ok: bool)
    requires store.Valid()
    modifies store, files
    ensures store.Valid() && store.Lists == old(store.Lists) && store.issued == old(store.issued)
    ensures (World(store.Contents, files.disk), ok)
            == FlushOne(World(old(store.Contents), old(files.disk)), base, Snapshot(entry.key, entry.file.Value()),
                now, fault)
  {
    var path := FilePathForEntry(base, entry.key, entry.file.symbol, entry.file.interval);
    if path.Err? {
      return false;
    }
    ok := files.SaveFile(path.value, entry.file, now(path.value), fault(path.value));
    if ok {
      store.ClearDirty(entry.key);
    }
  }

  /** The flush loop over the snapshots taken. */
  method FlushEntries(store: CandleStore, files: FileSystem, base: string, dirty: seq<Entry>, now: string -> int,
                      fault: string -> SaveFault, ghost snaps: seq<Snapshot>)
    returns (flushed: nat)
    requires store.Valid() && |snaps| == |dirty|
    requires forall i :: 0 <= i < |dirty| ==> snaps[i] == Snapshot(dirty[i].key, dirty[i].file.Value())
    modifies store, files
    ensures store.Valid() && store.Lists == old(store.Lists) && store.issued == old(store.issued)
    ensures (World(store.Contents, files.disk), flushed)
            == FlushAll(World(old(store.Contents), old(files.disk)), base, snaps, now, fault)
  {
    flushed := 0;
    ghost var start := World(store.Contents, files.disk);
    ghost var acc := (start, 0);
    for n := 0 to |dirty|
      invariant store.Valid() && store.Lists == old(store.Lists) && store.issued == old(store.issued)
      invariant acc == FlushAll(start, base, snaps[..n], now, fault)
      invariant acc.0.mem == store.Contents && acc.0.disk == files.disk && acc.1 == flushed
    {
      FlushAllStep(start, base, snaps, now, fault, n);
      acc := Round(acc, base, snaps[n], now, fault);
      var ok := FlushEntry(store, files, base, dirty[n], now, fault);
      if ok {
        flushed := flushed + 1;
      }
    }
    assert snaps[..|dirty|] == snaps;
  }

  method FlushDirtyEntries(store: CandleStore, files: FileSystem, base: string, now: string -> int,
                           fault: string -> SaveFault)
    returns (flushed: nat, ghost snaps: seq<Snapshot>)
    requires store.Valid()
    modifies store, files
    ensures store.Valid() && store.Lists == old(store.Lists) && store.issued == old(store.issued)
    ensures SnapshotsOf(snaps, old(store.Contents))
    ensures (World(store.Contents, files.disk), flushed)
            == FlushAll(World(old(store.Contents), old(files.disk)), base, snaps, now, fault)
  {
    hide FlushAll;
    var dirty := store.GetDirty();
    ghost var mem := store.Contents;
    snaps := seq(|dirty|, i requires 0 <= i < |dirty| && dirty[i].key in mem =>
                 Snapshot(dirty[i].key, mem[dirty[i].key].file));
    assert SnapshotsOf(snaps, mem) by {
      forall k | k in mem && mem[k].dirty ensures exists i :: 0 <= i < |snaps| && snaps[i].key == k {
        var i :| 0 <= i < |dirty| && dirty[i].key == k;
        assert snaps[i].key == k;
      }
    }
    flushed := FlushEntries(store, files, base, dirty, now, fault, snaps);
  }

  /** The entry s came from is clean with exactly s on disk if its save succeeded, and otherwise it and
      its file are as they were. */
  ghost predicate Settled(w: World, w': World, base: string, s: Snapshot, now: string -> int,
                          fault: string -> SaveFault)
  {
    && s.key in w.mem && s.key in w'.mem
    && match PathFor(base, s)
       case Err(_) => w'.mem[s.key] == w.mem[s.key]
       case Ok(path) =>
         if fault(path) == NoFault
         then w'.mem[s.key] == w.mem[s.key].(dirty := false)
             && LoadFile(w'.disk, path) == Ok(s.file.(updatedAt := now(path)))
         else w'.mem[s.key] == w.mem[s.key] && LoadFile(w'.disk, path) == LoadFile(w.disk, path)
  }

  /** The number a flush reports is that of the snapshots that have a path and whose save succeeds. */
  lemma {:induction false} FlushCountsSaves(w: World, base: string, snaps: seq<Snapshot>, now: string -> int,
                                            fault: string -> SaveFault)
    ensures FlushAll(w, base, snaps, now, fault).1
            == |set i | 0 <= i < |snaps| && PathFor(base, snaps[i]).Ok?
                        && fault(PathFor(base, snaps[i]).value) == NoFault|
  {
    hide PathFor, FlushOne;
    var saved := set i | 0 <= i < |snaps| && PathFor(base, snaps[i]).Ok?
                         && fault(PathFor(base, snaps[i]).value) == NoFault;
    if snaps == [] {
      assert saved == {};
    } else {
      var n, rest := |snaps| - 1, snaps[..|snaps| - 1];
      FlushCountsSaves(w, base, rest, now, fault);
      var front := set i | 0 <= i < |rest| && PathFor(base, rest[i]).Ok?
                           && fault(PathFor(base, rest[i]).value) == NoFault;
      RoundCounts(FlushAll(w, base, rest, now, fault).0, base, snaps[n], now, fault);
      assert saved == if n in saved then front + {n} else front;
    }
  }

  lemma {:induction false} RoundCounts(w: World, base: string, s: Snapshot, now: string -> int,
                                       fault: string -> SaveFault)
    ensures FlushOne(w, base, s, now, fault).1
            <==> PathFor(base, s).Ok? && fault(PathFor(base, s).value) == NoFault
  {
    hide PathFor;
  }

  lemma {:induction false} RoundSettles(w: World, base: string, s: Snapshot, now: string -> int,
                                        fault: string -> SaveFault)
    requires s.key in w.mem
    ensures var w' := FlushOne(w, base, s, now, fault).0;
            && Settled(w, w', base, s, now, fault)
            && w'.mem.Keys == w.mem.Keys
            && (forall k :: k in w.mem && k != s.key ==> w'.mem[k] == w.mem[k])
            && (forall p :: (PathFor(base, s).Ok? ==> Apart(p, PathFor(base, s).value)) ==>
                  LoadFile(w'.disk, p) == LoadFile(w.disk, p))
  {
    hide PathFor;
    if PathFor(base, s).Ok? {
      var path := PathFor(base, s).value;
      SaveIsAtomic(w.disk, path, s.file.(updatedAt := now(path)), fault(path));
    }
  }

  /** p is neither the data file at the path nor its temporary file. */
  predicate Apart(p: string, path: string) {
    p != path && p != path + ".tmp"
  }

  /** Snapshots of different keys; those that resolve to a file have one of their own. */
  ghost predicate SeparateFiles(base: string, snaps: seq<Snapshot>) {
    && (forall j, k :: 0 <= j < k < |snaps| ==> snaps[j].key != snaps[k].key)
    && (forall j, k :: 0 <= j < |snaps| && 0 <= k < |snaps| && j != k
                       && PathFor(base, snaps[j]).Ok? && PathFor(base, snaps[k]).Ok? ==>
          Apart(PathFor(base, snaps[j]).value, PathFor(base, snaps[k]).value))
  }

  /** What one undisturbed flush achieves, entry by entry: a dirty entry whose save succeeds ends
      clean with exactly its own file on disk; one whose save fails stays dirty with its old file, and
      one without a path stays as it is. */
  lemma {:induction false} FlushSettlesEveryEntry(w: World, base: string, snaps: seq<Snapshot>, now: string -> int,
                                                  fault: string -> SaveFault, i: nat)
    requires SeparateFiles(base, snaps) && i < |snaps|
    requires forall j :: 0 <= j < |snaps| ==> snaps[j].key in w.mem
    ensures Settled(w, FlushAll(w, base, snaps, now, fault).0, base, snaps[i], now, fault)
  {
    hide PathFor, FlushOne, LoadFile, Apart;
    var last := snaps[|snaps| - 1];
    var rest := snaps[..|snaps| - 1];
    var before := FlushAll(w, base, rest, now, fault).0;
    var path := if PathFor(base, last).Ok? then PathFor(base, last).value else "";
    FlushLeavesOthers(w, base, rest, now, fault, last.key, path);
    if i < |rest| {
      FlushSettlesEveryEntry(w, base, rest, now, fault, i);
    }
    RoundSettles(before, base, last, now, fault);
  }

  /** A flush touches only the keys and the files of its own snapshots. */
  lemma {:induction false} FlushLeavesOthers(w: World, base: string, snaps: seq<Snapshot>, now: string -> int,
                                             fault: string -> SaveFault, key: string, path: string)
    requires forall j :: 0 <= j < |snaps| ==> snaps[j].key in w.mem
    ensures var w' := FlushAll(w, base, snaps, now, fault).0;
            && w'.mem.Keys == w.mem.Keys
            && ((forall j :: 0 <= j < |snaps| ==> snaps[j].key != key) && key in w.mem ==> w'.mem[key] == w.mem[key])
            && ((forall j :: 0 <= j < |snaps| && PathFor(base, snaps[j]).Ok? ==>
                   Apart(path, PathFor(base, snaps[j]).value))
                ==> LoadFile(w'.disk, path) == LoadFile(w.disk, path))
  {
    hide PathFor, FlushOne, LoadFile, Apart;
    if snaps != [] {
      var rest := snaps[..|snaps| - 1];
      FlushLeavesOthers(w, base, rest, now, fault, key, path);
      RoundSettles(FlushAll(w, base, rest, now, fault).0, base, snaps[|snaps| - 1], now, fault);
    }
  }
}
