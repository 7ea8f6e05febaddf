/** The in-memory candle cache: a map of entries behind one lock, each with a dirty flag. */
module Store {
  import opened Candles
  import opened Symbols

  // ---------------------------------------------------------------- what the cache means

  datatype CandleFile = CandleFile(symbol: string, interval: string, updatedAt: int, candles: seq<Candle>)

  datatype EntryView = EntryView(file: CandleFile, dirty: bool)

  /** The abstract cache. Every operation below is one critical section of the lock, so each is one
      function on this state, and the concurrent models step with the same functions. */
  type StoreState = map<string, EntryView>

  /** A file, time stamp aside. */
  function Unstamped(f: CandleFile): CandleFile {
    f.(updatedAt := 0)
  }

  const NO_FILE := CandleFile("", "", 0, [])

  function UpsertState(st: StoreState, symbol: string, interval: string, c: Candle): StoreState {
    var key := KeyFor(symbol, interval);
    var file := if key in st then st[key].file else NO_FILE;
    st[key := EntryView(CandleFile(symbol, interval, file.updatedAt, Upserted(file.candles, c)), true)]
  }

  /** A push touches one entry: its candle goes into the list, its names are those of the push, the time
      stamp stays, and the entry is dirty. */
  lemma {:induction false} UpsertTouchesOneEntry(st: StoreState, symbol: string, interval: string, c: Candle)
    ensures var key, st' := symbol + ":" + interval, UpsertState(st, symbol, interval, c);
            && st'.Keys == st.Keys + {key}
            && (forall k :: k in st && k != key ==> st'[k] == st[k])
            && st'[key].dirty && st'[key].file.symbol == symbol && st'[key].file.interval == interval
            && st'[key].file.updatedAt == (if key in st then st[key].file.updatedAt else 0)
            && c in st'[key].file.candles
            && (Ascending(if key in st then st[key].file.candles else []) ==>
                  Ascending(st'[key].file.candles)
                  && Timeline(st'[key].file.candles)
                     == (if key in st then Timeline(st[key].file.candles) else map[])[c.t := c])
  {
    hide Upserted, Ascending;
    var key := symbol + ":" + interval;
    var list := if key in st then st[key].file.candles else [];
    UpsertedHas(list, c);
    if Ascending(list) {
      UpsertRefinesMapUpdate(list, c);
    }
  }

  function EnsureState(st: StoreState, key: string, symbol: string, interval: string): StoreState {
    if key in st then st else st[key := EntryView(CandleFile(symbol, interval, 0, []), false)]
  }

  lemma {:induction false} EnsureThenReplace(st: StoreState, symbol: string, interval: string, e: EntryView)
    ensures EnsureState(st, KeyFor(symbol, interval), symbol, interval)[KeyFor(symbol, interval) := e]
            == st[KeyFor(symbol, interval) := e]
  {
  }

  function ClearState(st: StoreState, key: string): StoreState {
    if key in st then st[key := st[key].(dirty := false)] else st
  }

  function Defaulted(f: CandleFile, symbol: string, interval: string): CandleFile {
    f.(symbol := if f.symbol == "" then symbol else f.symbol,
       interval := if f.interval == "" then interval else f.interval)
  }

  function LoadState(st: StoreState, symbol: string, interval: string, f: CandleFile): StoreState {
    st[KeyFor(symbol, interval) := EntryView(Defaulted(f, symbol, interval), false)]
  }

  /** A load touches one entry, which then shows the file, clean, with blank names filled in. */
  lemma {:induction false} LoadTouchesOneEntry(st: StoreState, symbol: string, interval: string, f: CandleFile)
    ensures var key, st' := symbol + ":" + interval, LoadState(st, symbol, interval, f);
            && st'.Keys == st.Keys + {key}
            && (forall k :: k in st && k != key ==> st'[k] == st[k])
            && !st'[key].dirty && st'[key].file.candles == f.candles && st'[key].file.updatedAt == f.updatedAt
            && st'[key].file.symbol == (if f.symbol == "" then symbol else f.symbol)
            && st'[key].file.interval == (if f.interval == "" then interval else f.interval)
  {
  }

  /** A clear touches the flag of one entry and nothing else, and nothing at all for an unknown key. */
  lemma {:induction false} ClearTouchesOneFlag(st: StoreState, key: string)
    ensures var st' := ClearState(st, key);
            && st'.Keys == st.Keys
            && (forall k :: k in st ==> st'[k].file == st[k].file && st'[k].dirty == (k != key && st[k].dirty))
  {
  }

  function DirtyKeys(st: StoreState): set<string> {
    set key | key in st && st[key].dirty
  }

  /** A dirty entry carries the symbol and interval its key was built from. */
  ghost predicate DirtyMatchesKey(st: StoreState) {
    forall key :: key in DirtyKeys(st) ==> key == KeyFor(st[key].file.symbol, st[key].file.interval)
  }

  /** Pushing, clearing and loading all keep dirty entries matching their keys. */
  lemma {:induction false} UpsertKeepsDirtyMatching(st: StoreState, symbol: string, interval: string, c: Candle)
    requires DirtyMatchesKey(st)
    ensures DirtyMatchesKey(UpsertState(st, symbol, interval, c))
  {
    var st' := UpsertState(st, symbol, interval, c);
    forall k | k in DirtyKeys(st') ensures k == KeyFor(st'[k].file.symbol, st'[k].file.interval) {
      assert k != KeyFor(symbol, interval) ==> k in DirtyKeys(st);
    }
  }

  lemma {:induction false} ClearKeepsDirtyMatching(st: StoreState, key: string)
    requires DirtyMatchesKey(st)
    ensures DirtyMatchesKey(ClearState(st, key))
  {
    var st' := ClearState(st, key);
    forall k | k in DirtyKeys(st') ensures k == KeyFor(st'[k].file.symbol, st'[k].file.interval) {
      assert k in DirtyKeys(st);
    }
  }

  lemma {:induction false} LoadKeepsDirtyMatching(st: StoreState, symbol: string, interval: string, f: CandleFile)
    requires DirtyMatchesKey(st)
    ensures DirtyMatchesKey(LoadState(st, symbol, interval, f))
  {
    var st' := LoadState(st, symbol, interval, f);
    forall k | k in DirtyKeys(st') ensures k == KeyFor(st'[k].file.symbol, st'[k].file.interval) {
      assert k in DirtyKeys(st);
    }
  }

  // ---------------------------------------------------------------- the mutable cache

  /** A candle file in memory: a struct whose candle list is a shared array. */
  datatype FileRef = FileRef(symbol: string, interval: string, updatedAt: int, candles: array<Candle>) {
    ghost function Value(): CandleFile
      reads candles
    {
      CandleFile(symbol, interval, updatedAt, candles[..])
    }
  }

  datatype Entry = Entry(key: string, file: FileRef, dirty: bool) {
    ghost function View(): EntryView
      reads file.candles
    {
      EntryView(file.Value(), dirty)
    }

    /** A deep copy: the candle array is not shared with the original. */
    method Clone() returns (out: Entry)
      ensures fresh(out.file.candles) && out.key == key && out.View() == View()
    {
      var list := file.candles;
      var copy := new Candle[list.Length](i requires 0 <= i < list.Length reads list => list[i]);
      assert copy[..] == list[..];
      out := Entry(key, file.(candles := copy), dirty);
    }
  }

  /** One mirror write handed to a background goroutine. */
  datatype MirrorTask = MirrorTask(symbol: string, interval: string, candle: Candle)

  class CandleStore {
    ghost var Contents: StoreState        // what the cache holds
    ghost var Lists: set<array<Candle>>   // candle lists the entries point at; no method writes one
    var entries: map<string, Entry>
    const mirrored: bool                  // a database or Redis client is configured
    var issued: seq<MirrorTask>           // mirror goroutines started so far, in order

    ghost predicate Valid()
      reads this, Lists
    {
      Contents.Keys == entries.Keys && forall k :: k in entries ==> Holds(k)
    }

    ghost predicate Holds(k: string)
      requires k in entries && k in Contents
      reads this, Lists
    {
      entries[k].key == k && entries[k].file.candles in Lists && entries[k].View() == Contents[k]
    }

    constructor (mirrored: bool)
      ensures Valid() && Contents == map[] && issued == [] && Lists == {}
      ensures this.mirrored == mirrored
    {
      Contents, entries, this.mirrored, issued := map[], map[], mirrored, [];
      Lists := {};
    }

    /** Points the key at an entry. */
    method Put(key: string, entry: Entry)
      requires Valid() && entry.key == key
      modifies this`entries, this`Contents, this`Lists
      ensures Valid() && entries == old(entries)[key := entry]
      ensures Contents == old(Contents)[key := entry.View()]
      ensures Lists == old(Lists) + {entry.file.candles}
    {
      entries := entries[key := entry];
      Contents := Contents[key := entry.View()];
      Lists := Lists + {entry.file.candles};
      assert forall k :: k in entries && k != key ==> old(Holds(k));
    }

    /** Copy-on-write: the entry gets a newly allocated list, and every list that existed before,
        in particular every list a snapshot holds, stays outside the modifies clause. */
    method Upsert(symbol: string, interval: string, c: Candle)
      requires Valid()
      modifies this
      ensures Valid() && fresh(Lists - old(Lists))
      ensures Contents == UpsertState(old(Contents), symbol, interval, c)
      ensures KeyFor(symbol, interval) in entries && fresh(entries[KeyFor(symbol, interval)].file.candles)
      ensures issued == old(issued) + if mirrored then [MirrorTask(symbol, interval, c)] else []
    {
      hide KeyFor, Upserted;
      var key := KeyFor(symbol, interval);
      Ensure(key, symbol, interval);
      assert Holds(key);
      var file := entries[key].file;
      var list := Candles.Upsert(file.candles, c);
      EnsureThenReplace(old(Contents), symbol, interval,
          EntryView(CandleFile(symbol, interval, file.updatedAt, list[..]), true));
      Put(key, Entry(key, FileRef(symbol, interval, file.updatedAt, list), true));
      StartMirror(MirrorTask(symbol, interval, c));
    }

    /** Starts the background write, if there is anything to mirror to. */
    method StartMirror(task: MirrorTask)
      requires Valid()
      modifies this`issued
      ensures Valid() && issued == old(issued) + if mirrored then [task] else []
    {
      if mirrored {
        issued := issued + [task];
      }
      assert forall k :: k in entries ==> old(Holds(k));
    }

    /** Makes sure the key has an entry, adding an empty clean one if needed. */
    method Ensure(key: string, symbol: string, interval: string)
      requires Valid()
      modifies this`entries, this`Contents, this`Lists
      ensures Valid() && key in entries && fresh(Lists - old(Lists))
      ensures Contents == EnsureState(old(Contents), key, symbol, interval)
    {
      if key !in entries {
        var none := new Candle[0];
        Put(key, Entry(key, FileRef(symbol, interval, 0, none), false));
      }
    }

    /** e is a deep copy of the entry under its key. */
    ghost predicate SnapshotOf(e: Entry)
      reads this, e.file.candles
    {
      e.key in Contents && e.View() == Contents[e.key]
    }

    /** Deep copies of exactly the dirty entries, one per key, all taken in one critical section. */
    method GetDirty() returns (dirty: seq<Entry>)
      requires Valid()
      ensures forall i :: 0 <= i < |dirty| ==> fresh(dirty[i].file.candles)
      ensures forall i :: 0 <= i < |dirty| ==> SnapshotOf(dirty[i]) && dirty[i].dirty
      ensures forall i, j :: 0 <= i < j < |dirty| ==> dirty[i].key != dirty[j].key
      ensures forall k :: k in Contents && Contents[k].dirty ==> exists i :: 0 <= i < |dirty| && dirty[i].key == k
    {
      dirty := [];
      ghost var at: map<string, nat> := map[];
      var rest := set k | k in entries && entries[k].dirty;
      assert rest == DirtyKeys(Contents) by {
        assert forall k :: k in entries ==> Holds(k);
      }
      while rest != {}
        invariant rest <= DirtyKeys(Contents)
        invariant forall i :: 0 <= i < |dirty| ==>
                    fresh(dirty[i].file.candles) && SnapshotOf(dirty[i]) && dirty[i].dirty && dirty[i].key !in rest
        invariant forall k :: k in DirtyKeys(Contents) - rest ==> k in at && at[k] < |dirty| && dirty[at[k]].key == k
        invariant forall i, j :: 0 <= i < j < |dirty| ==> dirty[i].key != dirty[j].key
        decreases |rest|
      {
        var k :| k in rest;
        assert Holds(k);
        var clone := entries[k].Clone();
        dirty := dirty + [clone];
        at := at[k := |dirty| - 1];
        rest := rest - {k};
      }
      forall k | k in Contents && Contents[k].dirty ensures exists i :: 0 <= i < |dirty| && dirty[i].key == k {
        assert k in DirtyKeys(Contents);
        assert dirty[at[k]].key == k;
      }
    }

    /** Unconditional: the flag is dropped whatever happened since the snapshot. */
    method ClearDirty(key: string)
      requires Valid()
      modifies this
      ensures Valid() && Lists == old(Lists) && issued == old(issued)
      ensures Contents == ClearState(old(Contents), key)
    {
      if key !in entries {
        return;
      }
      assert Holds(key);
      Put(key, entries[key].(dirty := false));
    }

    method Load(symbol: string, interval: string, cf: FileRef)
      requires Valid()
      modifies this
      ensures Valid() && Lists == old(Lists) + {cf.candles} && issued == old(issued)
      ensures Contents == LoadState(old(Contents), symbol, interval, cf.Value())
    {
      var file := cf;
      if file.symbol == "" { file := file.(symbol := symbol); }
      if file.interval == "" { file := file.(interval := interval); }
      var key := KeyFor(symbol, interval);
      Put(key, Entry(key, file, false));
    }

    method All() returns (out: map<string, Entry>)
      requires Valid()
      ensures out.Keys == Contents.Keys
      ensures forall k :: k in out ==> out[k].key == k && SnapshotOf(out[k]) && fresh(out[k].file.candles)
    {
      out := map[];
      var rest := entries.Keys;
      while rest != {}
        invariant rest <= entries.Keys && out.Keys == entries.Keys - rest
        invariant forall k :: k in out ==> out[k].key == k && SnapshotOf(out[k]) && fresh(out[k].file.candles)
        decreases |rest|
      {
        var k :| k in rest;
        assert Holds(k);
        var clone := entries[k].Clone();
        out := out[k := clone];
        rest := rest - {k};
      }
    }

    method Has(symbol: string, interval: string) returns (found: bool)
      requires Valid()
      ensures found <==> KeyFor(symbol, interval) in Contents
    {
      found := KeyFor(symbol, interval) in entries;
    }
  }
}
