/** The cache mirrored into the database by background goroutines that finish in any order. */
module Mirror {
  import opened Wrappers
  import opened Candles
  import opened Symbols
  import opened Store
  import opened Tables

  /** One background write coming to its end. */
  datatype Completion = Completion(task: nat, accepted: bool)

  datatype Place = Place(symbol: string, interval: string, t: int)

  function PlaceOf(task: MirrorTask): Place {
    Place(task.symbol, task.interval, task.candle.t)
  }

  function Row(rows: Rows, place: Place): Option<Record> {
    var p := PartitionOf(rows, place.symbol, place.interval);
    if place.t in p then Some(p[place.t]) else None
  }

  /** The write goes through: the server accepts it and every value is a number. */
  predicate Lands(num: Numerics, issued: seq<MirrorTask>, c: Completion) {
    c.task < |issued| && c.accepted && ToRecord(num, issued[c.task].candle).Some?
  }

  /** A write that comes to its end changes the table exactly when it was accepted and its six fields are
      numbers. */
  lemma {:induction false} LandsIffSixNumbers(num: Numerics, issued: seq<MirrorTask>, c: Completion)
    ensures Lands(num, issued, c)
            <==> c.task < |issued| && c.accepted
                 && var candle := issued[c.task].candle;
                    num.parse(candle.o).Some? && num.parse(candle.h).Some? && num.parse(candle.l).Some?
                    && num.parse(candle.c).Some? && num.parse(candle.v).Some? && num.parse(candle.a).Some?
  {
    hide ToRecord;
    if c.task < |issued| {
      RecordIffSixNumbers(num, issued[c.task].candle);
    }
  }

  function Write(num: Numerics, rows: Rows, task: MirrorTask): Rows
    requires ToRecord(num, task.candle).Some?
  {
    rows[(task.symbol, task.interval) := Inserted(num, PartitionOf(rows, task.symbol, task.interval), task.candle)]
  }

  function TableAfter(num: Numerics, rows0: Rows, issued: seq<MirrorTask>, finished: seq<Completion>): Rows {
    if finished == [] then rows0
    else
      var rows, c := TableAfter(num, rows0, issued, finished[..|finished| - 1]), finished[|finished| - 1];
      if Lands(num, issued, c) then Write(num, rows, issued[c.task]) else rows
  }

  /** One goroutine's write; errors are only logged. */
  method PersistCandle(db: Database, task: MirrorTask, accepted: bool)
    modifies db
    ensures db.rows == TableAfter(db.num, old(db.rows), [task], [Completion(0, accepted)])
    ensures var num, c := db.num, task.candle;
            db.rows ==
            if accepted && num.parse(c.o).Some? && num.parse(c.h).Some? && num.parse(c.l).Some?
               && num.parse(c.c).Some? && num.parse(c.v).Some? && num.parse(c.a).Some?
            then old(db.rows)[(task.symbol, task.interval) :=
                PartitionOf(old(db.rows), task.symbol, task.interval)[c.t :=
                    Record(num.parse(c.o).value, num.parse(c.h).value, num.parse(c.l).value, num.parse(c.c).value,
                           num.parse(c.v).value, num.parse(c.a).value)]]
            else old(db.rows)
  {
    hide ToRecord;
    RecordIffSixNumbers(db.num, task.candle);
    var r := db.UpsertBatch(task.symbol, task.interval, [task.candle], accepted);
    var cs := [task.candle];
    assert cs[..0] == [] && cs[0] == task.candle;
    assert Parses(db.num, cs) <==> ToRecord(db.num, task.candle).Some?;
    if Parses(db.num, cs) {
      assert Applied(db.num, PartitionOf(old(db.rows), task.symbol, task.interval), cs)
          == Inserted(db.num, PartitionOf(old(db.rows), task.symbol, task.interval), task.candle);
    }
    ghost var finished := [Completion(0, accepted)];
    assert finished[..0] == [];
  }

  // ---------------------------------------------------------------- what a row can show

  /** The push whose write reached the place last. */
  function LastLanded(num: Numerics, issued: seq<MirrorTask>, finished: seq<Completion>, place: Place): (r: Option<nat>)
    ensures r.Some? ==>
              && r.value < |issued| && PlaceOf(issued[r.value]) == place
              && ToRecord(num, issued[r.value].candle).Some? && Completion(r.value, true) in finished
    ensures r.None? ==> forall c :: c in finished && Lands(num, issued, c) ==> PlaceOf(issued[c.task]) != place
  {
    if finished == [] then None
    else
      var c := finished[|finished| - 1];
      if Lands(num, issued, c) && PlaceOf(issued[c.task]) == place then Some(c.task)
      else
        var init := finished[..|finished| - 1];
        assert finished == init + [c];
        LastLanded(num, issued, init, place)
  }

  lemma {:induction false} WriteChangesOneRow(num: Numerics, rows: Rows, task: MirrorTask, place: Place)
    requires ToRecord(num, task.candle).Some?
    ensures Row(Write(num, rows, task), place) ==
            if place == PlaceOf(task) then ToRecord(num, task.candle) else Row(rows, place)
  {
    hide ToRecord;
  }

  /** In whatever order the writes finish and whichever of them fail: a row shows the write that
      reached it last, and the initial row if none did. */
  lemma {:induction false} RowIsLastLanded(num: Numerics, rows0: Rows, issued: seq<MirrorTask>,
                                           finished: seq<Completion>, place: Place)
    ensures Row(TableAfter(num, rows0, issued, finished), place) ==
            match LastLanded(num, issued, finished, place)
            case None => Row(rows0, place)
            case Some(i) => ToRecord(num, issued[i].candle)
  {
    hide ToRecord, Row, Write;
    if finished != [] {
      var n := |finished| - 1;
      RowIsLastLanded(num, rows0, issued, finished[..n], place);
      if Lands(num, issued, finished[n]) {
        WriteChangesOneRow(num, TableAfter(num, rows0, issued, finished[..n]), issued[finished[n].task], place);
      }
    }
  }

  /** Every write was accepted and carries numbers only. */
  ghost predicate AllSucceeded(num: Numerics, issued: seq<MirrorTask>, finished: seq<Completion>) {
    forall i :: 0 <= i < |issued| ==> Completion(i, true) in finished && ToRecord(num, issued[i].candle).Some?
  }

  /** Nothing that was pushed is missing once everything has succeeded. */
  lemma {:induction false} AllSucceededAllPresent(num: Numerics, rows0: Rows, issued: seq<MirrorTask>,
                                                  finished: seq<Completion>, i: nat)
    requires AllSucceeded(num, issued, finished) && i < |issued|
    ensures LastLanded(num, issued, finished, PlaceOf(issued[i])).Some?
    ensures Row(TableAfter(num, rows0, issued, finished), PlaceOf(issued[i])).Some?
  {
    hide ToRecord, TableAfter, Row;
    RowIsLastLanded(num, rows0, issued, finished, PlaceOf(issued[i]));
    assert Lands(num, issued, Completion(i, true));
  }

  // ---------------------------------------------------------------- the cache at the same time

  function MemoryAfter(st: StoreState, issued: seq<MirrorTask>): StoreState {
    if issued == [] then st
    else
      var task := issued[|issued| - 1];
      UpsertState(MemoryAfter(st, issued[..|issued| - 1]), task.symbol, task.interval, task.candle)
  }

  /** The push issued last to a place. */
  function LastIssued(issued: seq<MirrorTask>, place: Place): (r: Option<nat>)
    ensures r.Some? ==> r.value < |issued| && PlaceOf(issued[r.value]) == place
    ensures r.Some? ==> forall i :: r.value < i < |issued| ==> PlaceOf(issued[i]) != place
    ensures r.None? ==> forall i :: 0 <= i < |issued| ==> PlaceOf(issued[i]) != place
  {
    if issued == [] then None
    else if PlaceOf(issued[|issued| - 1]) == place then Some(|issued| - 1)
    else LastIssued(issued[..|issued| - 1], place)
  }

  ghost predicate KeysTellApart(issued: seq<MirrorTask>, place: Place) {
    ':' !in place.symbol && forall i :: 0 <= i < |issued| ==> ':' !in issued[i].symbol
  }

  function ListAt(st: StoreState, key: string): seq<Candle> {
    if key in st then st[key].file.candles else []
  }

  /** The cache always shows the candle pushed last. */
  lemma {:induction false} MemoryShowsLastIssued(st: StoreState, issued: seq<MirrorTask>, place: Place)
    requires KeysTellApart(issued, place) && Ascending(ListAt(st, KeyFor(place.symbol, place.interval)))
    ensures var list := ListAt(MemoryAfter(st, issued), KeyFor(place.symbol, place.interval));
            && Ascending(list)
            && (match LastIssued(issued, place)
                case Some(i) => place.t in Timeline(list) && Timeline(list)[place.t] == issued[i].candle
                case None => place.t in Timeline(list) <==>
                    place.t in Timeline(ListAt(st, KeyFor(place.symbol, place.interval))))
  {
    hide KeyFor, Upserted, Timeline;
    if issued != [] {
      var n := |issued| - 1;
      MemoryShowsLastIssued(st, issued[..n], place);
      var task := issued[n];
      KeyForInjective(task.symbol, task.interval, place.symbol, place.interval);
      UpsertRefinesMapUpdate(ListAt(MemoryAfter(st, issued[..n]), KeyFor(place.symbol, place.interval)), task.candle);
    }
  }

  // ---------------------------------------------------------------- when the table follows the cache

  /** Once every write has succeeded, a pushed row agrees with the cache exactly when the write that
      reached it last carries the same record as the push that came last. */
  lemma {:induction false} TableFollowsMemoryIff(num: Numerics, rows0: Rows, st: StoreState, issued: seq<MirrorTask>,
                                                 finished: seq<Completion>, i: nat)
    requires AllSucceeded(num, issued, finished) && i < |issued| && KeysTellApart(issued, PlaceOf(issued[i]))
    requires Ascending(ListAt(st, KeyFor(issued[i].symbol, issued[i].interval)))
    ensures var place := PlaceOf(issued[i]);
            var list := ListAt(MemoryAfter(st, issued), KeyFor(place.symbol, place.interval));
            var landed, last := LastLanded(num, issued, finished, place), LastIssued(issued, place);
            && place.t in Timeline(list) && landed.Some? && last.Some?
            && (Row(TableAfter(num, rows0, issued, finished), place) == ToRecord(num, Timeline(list)[place.t])
                <==> ToRecord(num, issued[landed.value].candle) == ToRecord(num, issued[last.value].candle))
  {
    hide ToRecord, TableAfter, Row, KeyFor, MemoryAfter, Timeline;
    AllSucceededAllPresent(num, rows0, issued, finished, i);
    RowIsLastLanded(num, rows0, issued, finished, PlaceOf(issued[i]));
    MemoryShowsLastIssued(st, issued, PlaceOf(issued[i]));
  }

  /** Writes to one row finish in the order in which they were issued. */
  ghost predicate InIssueOrder(issued: seq<MirrorTask>, finished: seq<Completion>, place: Place) {
    forall a, b :: 0 <= a < b < |finished| && At(issued, finished[a], place) && At(issued, finished[b], place) ==>
      finished[a].task < finished[b].task
  }

  predicate At(issued: seq<MirrorTask>, c: Completion, place: Place) {
    c.task < |issued| && PlaceOf(issued[c.task]) == place
  }

  lemma {:induction false} LastLandedIsAfter(num: Numerics, issued: seq<MirrorTask>, finished: seq<Completion>,
                                             place: Place, a: nat)
    requires InIssueOrder(issued, finished, place) && a < |finished|
    requires Lands(num, issued, finished[a]) && PlaceOf(issued[finished[a].task]) == place
    ensures var r := LastLanded(num, issued, finished, place); r.Some? && finished[a].task <= r.value
  {
    hide ToRecord;
    var n := |finished| - 1;
    if a < n {
      LastLandedIsAfter(num, issued, finished[..n], place, a);
    }
  }

  /** If in addition the writes to a row finish in order, that row is the cached candle, projected. */
  lemma {:induction false} InOrderTableIsMemory(num: Numerics, rows0: Rows, st: StoreState, issued: seq<MirrorTask>,
                                                finished: seq<Completion>, i: nat)
    requires AllSucceeded(num, issued, finished) && i < |issued| && KeysTellApart(issued, PlaceOf(issued[i]))
    requires Ascending(ListAt(st, KeyFor(issued[i].symbol, issued[i].interval)))
    requires InIssueOrder(issued, finished, PlaceOf(issued[i]))
    ensures var place := PlaceOf(issued[i]);
            var list := ListAt(MemoryAfter(st, issued), KeyFor(place.symbol, place.interval));
            place.t in Timeline(list)
            && Row(TableAfter(num, rows0, issued, finished), place) == ToRecord(num, Timeline(list)[place.t])
  {
    hide ToRecord, TableAfter, Row, KeyFor, MemoryAfter, Timeline;
    var place := PlaceOf(issued[i]);
    TableFollowsMemoryIff(num, rows0, st, issued, finished, i);
    var last := LastIssued(issued, place).value;
    var a :| 0 <= a < |finished| && finished[a] == Completion(last, true);
    assert ToRecord(num, issued[last].candle).Some?;
    LastLandedIsAfter(num, issued, finished, place, a);
  }

  /** Out of order, the older push stays in the table for good while the cache shows the newer. */
  lemma {:induction false} OutOfOrderShowsOlder(num: Numerics, rows0: Rows, symbol: string, interval: string,
                                                older: Candle, newer: Candle)
    requires older.t == newer.t && ToRecord(num, older).Some? && ToRecord(num, newer).Some?
    ensures var issued, finished := [MirrorTask(symbol, interval, older), MirrorTask(symbol, interval, newer)],
                                    [Completion(1, true), Completion(0, true)];
            && AllSucceeded(num, issued, finished)
            && Row(TableAfter(num, rows0, issued, finished), Place(symbol, interval, newer.t)) == ToRecord(num, older)
            && LastIssued(issued, Place(symbol, interval, newer.t)) == Some(1)
  {
    hide ToRecord;
    var issued, finished := [MirrorTask(symbol, interval, older), MirrorTask(symbol, interval, newer)],
                            [Completion(1, true), Completion(0, true)];
    RowIsLastLanded(num, rows0, issued, finished, Place(symbol, interval, newer.t));
    assert finished[0] == Completion(1, true) && finished[1] == Completion(0, true);
    assert Lands(num, issued, finished[1]);
  }
}
