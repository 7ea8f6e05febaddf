/** The candle table in the database: one row per symbol, interval and open time. */
module Tables {
  import opened Wrappers
  import opened Candles

  datatype Record = Record(o: real, h: real, l: real, c: real, v: real, a: real)

  /** How the six stored fields are read from and written to strings. */
  datatype Numerics = Numerics(parse: string -> Option<real>, format: real -> string)

  type Partition = map<int, Record>

  type Rows = map<(string, string), Partition>

  datatype TableError = Unparseable | Rejected | QueryFailed | ScanFailed | RowsFailed

  /** Where loading gives up: at the query, at a row, or after the last row. */
  datatype QueryFault = NoQueryFault | QueryFault | ScanFault(at: nat) | RowsFault

  function PartitionOf(rows: Rows, symbol: string, interval: string): Partition {
    if (symbol, interval) in rows then rows[(symbol, interval)] else map[]
  }

  // ---------------------------------------------------------------- candles and records

  /** Six fields survive, and only if every one of them is a number. */
  function ToRecord(num: Numerics, c: Candle): Option<Record> {
    var fields := [num.parse(c.o), num.parse(c.h), num.parse(c.l), num.parse(c.c), num.parse(c.v), num.parse(c.a)];
    if None in fields then None
    else Some(Record(fields[0].value, fields[1].value, fields[2].value, fields[3].value, fields[4].value,
        fields[5].value))
  }

  function FromRecord(num: Numerics, t: int, r: Record): Candle {
    Candle(t, num.format(r.o), num.format(r.h), num.format(r.l), num.format(r.c), num.format(r.v), num.format(r.a),
        "", "", "", "", "")
  }

  /** A candle has a record exactly when its six prices and volumes are numbers, whatever else it carries, and
      the record holds each under its own name. */
  lemma {:induction false} RecordIffSixNumbers(num: Numerics, c: Candle)
    ensures ToRecord(num, c).Some?
            <==> num.parse(c.o).Some? && num.parse(c.h).Some? && num.parse(c.l).Some? && num.parse(c.c).Some?
                 && num.parse(c.v).Some? && num.parse(c.a).Some?
    ensures ToRecord(num, c).Some? ==>
              ToRecord(num, c).value
              == Record(num.parse(c.o).value, num.parse(c.h).value, num.parse(c.l).value, num.parse(c.c).value,
                        num.parse(c.v).value, num.parse(c.a).value)
  {
    var fields := [num.parse(c.o), num.parse(c.h), num.parse(c.l), num.parse(c.c), num.parse(c.v), num.parse(c.a)];
    if None !in fields {
      forall k | 0 <= k < 6 ensures fields[k].Some? {
        assert fields[k] in fields;
      }
    }
  }

  /** So a list can be stored unless one of its candles has something else in one of the six fields. */
  lemma {:induction false} ParsesIffSixNumbersEach(num: Numerics, cs: seq<Candle>)
    ensures !Parses(num, cs)
            <==> exists i ::
                   0 <= i < |cs|
                   && (num.parse(cs[i].o).None? || num.parse(cs[i].h).None? || num.parse(cs[i].l).None?
                       || num.parse(cs[i].c).None? || num.parse(cs[i].v).None? || num.parse(cs[i].a).None?)
  {
    hide ToRecord;
    forall i | 0 <= i < |cs|
      ensures ToRecord(num, cs[i]).None?
              <==> num.parse(cs[i].o).None? || num.parse(cs[i].h).None? || num.parse(cs[i].l).None?
                   || num.parse(cs[i].c).None? || num.parse(cs[i].v).None? || num.parse(cs[i].a).None?
    {
      RecordIffSixNumbers(num, cs[i]);
    }
  }

  predicate Parses(num: Numerics, cs: seq<Candle>) {
    forall i :: 0 <= i < |cs| ==> ToRecord(num, cs[i]).Some?
  }

  /** What a candle looks like after a trip through the table. */
  function Stored(num: Numerics, c: Candle): Candle
    requires ToRecord(num, c).Some?
  {
    FromRecord(num, c.t, ToRecord(num, c).value)
  }

  function Inserted(num: Numerics, p: Partition, c: Candle): Partition
    requires ToRecord(num, c).Some?
  {
    p[c.t := ToRecord(num, c).value]
  }

  function Applied(num: Numerics, p: Partition, cs: seq<Candle>): Partition
    requires Parses(num, cs)
  {
    if cs == [] then p
    else
      assert forall i :: 0 <= i < |cs| - 1 ==> cs[..|cs| - 1][i] == cs[i];
      Inserted(num, Applied(num, p, cs[..|cs| - 1]), cs[|cs| - 1])
  }

  // ---------------------------------------------------------------- the newest rows

  lemma {:induction false} NewestExists(keys: set<int>)
    requires keys != {}
    ensures exists m :: m in keys && forall k :: k in keys ==> k <= m
    decreases |keys|
  {
    if forall k :: k !in keys {
      assert false;
    }
    var k :| k in keys;
    var others := keys - {k};
    assert keys == others + {k};
    var m := k;
    if others != {} {
      NewestExists(others);
      var n :| n in others && forall j :: j in others ==> j <= n;
      m := if n < k then k else n;
    }
    assert m in keys && forall j :: j in keys ==> j <= m;
  }

  function Newest(keys: set<int>): (m: int)
    requires keys != {}
    ensures m in keys && forall k :: k in keys ==> k <= m
  {
    NewestExists(keys);
    var m :| m in keys && forall k :: k in keys ==> k <= m;
    m
  }

  /** The rows of a partition in descending open time, at most n of them. */
  function LatestDesc(p: Partition, n: nat): seq<(int, Record)>
    decreases n
  {
    if n == 0 || p == map[] then []
    else
      assert p.Keys != {};
      var m := Newest(p.Keys);
      [(m, p[m])] + LatestDesc(p - {m}, n - 1)
  }

  lemma {:induction false} LatestDescLength(p: Partition, n: nat)
    ensures |LatestDesc(p, n)| == if n < |p| then n else |p|
    decreases n
  {
    if n > 0 && p != map[] {
      assert p.Keys != {};
      OneFewer(p, Newest(p.Keys));
      LatestDescLength(p - {Newest(p.Keys)}, n - 1);
    }
  }

  function Reversed<T>(s: seq<T>): (r: seq<T>)
    ensures |r| == |s| && forall i :: 0 <= i < |s| ==> r[i] == s[|s| - 1 - i]
  {
    seq(|s|, i requires 0 <= i < |s| => s[|s| - 1 - i])
  }

  /** Swaps the ends inwards. */
  method ReverseCandles(candles: array<Candle>)
    modifies candles
    ensures candles[..] == Reversed(old(candles[..]))
  {
    var i, j := 0, candles.Length - 1;
    while i < j
      invariant 0 <= i && i + j == candles.Length - 1 && i <= j + 1
      invariant forall k :: 0 <= k < i || j < k < candles.Length ==> candles[k] == old(candles[candles.Length - 1 - k])
      invariant forall k :: i <= k <= j ==> candles[k] == old(candles[k])
    {
      candles[i], candles[j] := candles[j], candles[i];
      i, j := i + 1, j - 1;
    }
  }

  function FromRows(num: Numerics, rows: seq<(int, Record)>): (cs: seq<Candle>)
    ensures |cs| == |rows| && forall i :: 0 <= i < |rows| ==> cs[i] == FromRecord(num, rows[i].0, rows[i].1)
  {
    seq(|rows|, i requires 0 <= i < |rows| => FromRecord(num, rows[i].0, rows[i].1))
  }

  /** The newest candles of a partition in ascending open time. */
  function Loaded(num: Numerics, p: Partition, limit: int): seq<Candle> {
    if limit <= 0 then [] else Reversed(FromRows(num, LatestDesc(p, limit)))
  }

  // ---------------------------------------------------------------- the client

  class Database {
    var rows: Rows
    const num: Numerics

    constructor (num: Numerics, rows: Rows)
      ensures this.num == num && this.rows == rows
    {
      this.num, this.rows := num, rows;
    }

    /** One batch, all or nothing: a value that is no number stops it before anything is sent, and what
        is sent is one transaction that the server accepts or rejects. */
    method UpsertBatch(symbol: string, interval: string, candles: seq<Candle>, accepted: bool)
      returns (r: Result<(), TableError>)
      modifies this
      ensures r == if candles == [] then Ok(()) else if !Parses(num, candles) then Err(Unparseable)
                   else if accepted then Ok(()) else Err(Rejected)
      ensures r == Err(Unparseable)
              <==> exists i ::
                     0 <= i < |candles|
                     && (num.parse(candles[i].o).None? || num.parse(candles[i].h).None?
                         || num.parse(candles[i].l).None? || num.parse(candles[i].c).None?
                         || num.parse(candles[i].v).None? || num.parse(candles[i].a).None?)
      ensures r.Err? || candles == [] ==> rows == old(rows)
      ensures r.Ok? && candles != [] ==>
                Parses(num, candles)
                && rows == old(rows)[(symbol, interval) :=
                    Applied(num, PartitionOf(old(rows), symbol, interval), candles)]
    {
      hide ToRecord;
      ParsesIffSixNumbersEach(num, candles);
      if |candles| == 0 {
        return Ok(());
      }
      var batch := Queue(candles);
      if batch.None? {
        return Err(Unparseable);
      }
      if !accepted {
        return Err(Rejected);
      }
      var p := Execute(PartitionOf(rows, symbol, interval), batch.value, candles);
      rows := rows[(symbol, interval) := p];
      return Ok(());
    }

    /** batch carries exactly the rows of the candles. */
    ghost predicate Queued(batch: seq<(int, Record)>, candles: seq<Candle>) {
      |batch| == |candles| && Parses(num, candles)
      && forall k :: 0 <= k < |candles| ==> ToRecord(num, candles[k]) == Some(batch[k].1) && batch[k].0 == candles[k].t
    }

    method Queue(candles: seq<Candle>) returns (queue: Option<seq<(int, Record)>>)
      ensures queue.Some? <==> Parses(num, candles)
      ensures queue.Some? ==> Queued(queue.value, candles)
    {
      hide ToRecord;
      var batch: seq<(int, Record)> := [];
      for i := 0 to |candles|
        invariant Queued(batch, candles[..i])
      {
        var rec := ToRecord(num, candles[i]);
        if rec.None? {
          return None;
        }
        batch := batch + [(candles[i].t, rec.value)];
      }
      assert candles[..|candles|] == candles;
      return Some(batch);
    }

    /** Row by row, in order: insert or replace. */
    method Execute(p0: Partition, batch: seq<(int, Record)>, ghost candles: seq<Candle>) returns (p: Partition)
      requires Queued(batch, candles)
      ensures p == Applied(num, p0, candles)
    {
      hide ToRecord;
      p := p0;
      for i := 0 to |batch|
        invariant Parses(num, candles[..i]) && p == Applied(num, p0, candles[..i])
      {
        p := p[batch[i].0 := batch[i].1];
        assert candles[..i + 1][..i] == candles[..i];
      }
      assert candles[..|candles|] == candles;
    }

    method LoadLatest(symbol: string, interval: string, limit: int, fault: QueryFault)
      returns (r: Result<array<Candle>, TableError>)
      ensures var p := PartitionOf(rows, symbol, interval);
              r.Err? <==> limit > 0 && (fault.QueryFault? || fault.RowsFault?
                                        || (fault.ScanFault? && fault.at < limit && fault.at < |p|))
      ensures r.Err? ==>
                r.error == if fault.QueryFault? then QueryFailed
                           else if fault.RowsFault? then RowsFailed else ScanFailed
      ensures r.Ok? ==> fresh(r.value) && r.value[..] == Loaded(num, PartitionOf(rows, symbol, interval), limit)
    {
      if limit <= 0 {
        var none := new Candle[0];
        return Ok(none);
      }
      LatestDescLength(PartitionOf(rows, symbol, interval), limit);
      if fault.QueryFault? {
        return Err(QueryFailed);
      }
      var answer := LatestDesc(PartitionOf(rows, symbol, interval), limit);
      var scanned: seq<Candle> := [];
      for i := 0 to |answer|
        invariant |scanned| == i && forall k :: 0 <= k < i ==> scanned[k] == FromRows(num, answer)[k]
        invariant fault.ScanFault? ==> fault.at >= i
      {
        if fault == ScanFault(i) {
          return Err(ScanFailed);
        }
        scanned := scanned + [FromRecord(num, answer[i].0, answer[i].1)];
      }
      if fault.RowsFault? {
        return Err(RowsFailed);
      }
      var candles := new Candle[|scanned|](i requires 0 <= i < |scanned| => scanned[i]);
      assert candles[..] == FromRows(num, answer);
      ReverseCandles(candles);
      return Ok(candles);
    }
  }

  // ---------------------------------------------------------------- what comes back

  /** Loading returns the newest candles: ascending, as many as the limit and the partition allow, each
      showing its own row, and none of the rows left out is newer. */
  ghost predicate NewestOf(num: Numerics, p: Partition, n: nat, cs: seq<Candle>) {
    && Ascending(cs)
    && |cs| == (if n < |p| then n else |p|)
    && (forall i :: 0 <= i < |cs| ==> cs[i].t in p && cs[i] == FromRecord(num, cs[i].t, p[cs[i].t]))
    && (forall t, i :: t in p && 0 <= i < |cs| && t > cs[i].t ==> exists j :: i < j < |cs| && cs[j].t == t)
  }

  lemma {:induction false} LatestDescPeels(num: Numerics, p: Partition, n: nat)
    requires n > 0 && p != map[]
    ensures p.Keys != {}
    ensures var m := Newest(p.Keys);
            Loaded(num, p, n) == Loaded(num, p - {m}, n - 1) + [FromRecord(num, m, p[m])]
  {
    assert p.Keys != {};
    var m := Newest(p.Keys);
    var rest := LatestDesc(p - {m}, n - 1);
    assert LatestDesc(p, n) == [(m, p[m])] + rest;
    if n == 1 {
      assert rest == [];
    }
    assert Loaded(num, p - {m}, n - 1) == Reversed(FromRows(num, rest));
  }

  lemma {:induction false} LoadedNothing(num: Numerics, p: Partition, n: nat)
    requires n == 0 || p == map[]
    ensures Loaded(num, p, n) == []
  {
  }

  lemma {:induction false} NothingIsNewest(num: Numerics, p: Partition, n: nat)
    requires n == 0 || p == map[]
    ensures NewestOf(num, p, n, [])
  {
  }

  lemma {:induction false} LoadedIsNewest(num: Numerics, p: Partition, limit: int)
    ensures NewestOf(num, p, if limit > 0 then limit else 0, Loaded(num, p, limit))
  {
    hide Loaded, NewestOf;
    LoadedUpTo(num, p, if limit > 0 then limit else 0);
    if limit <= 0 {
      LoadedNothing(num, p, 0);
      NoLimitLoadsNothing(num, p, limit);
    }
  }

  lemma {:induction false} NoLimitLoadsNothing(num: Numerics, p: Partition, limit: int)
    requires limit <= 0
    ensures Loaded(num, p, limit) == []
  {
  }

  lemma {:induction false} LoadedUpTo(num: Numerics, p: Partition, n: nat)
    ensures NewestOf(num, p, n, Loaded(num, p, n))
    decreases n
  {
    hide *;
    if n == 0 || p == map[] {
      LoadedNothing(num, p, n);
      NothingIsNewest(num, p, n);
    } else {
      LatestDescPeels(num, p, n);
      var m := Newest(p.Keys);
      LoadedUpTo(num, p - {m}, n - 1);
      NewestGrows(num, p, n, m, Loaded(num, p - {m}, n - 1));
    }
  }

  lemma {:induction false} NewestGrows(num: Numerics, p: Partition, n: nat, m: int, cs: seq<Candle>)
    requires n > 0 && m in p && (forall k :: k in p ==> k <= m) && NewestOf(num, p - {m}, n - 1, cs)
    ensures NewestOf(num, p, n, cs + [FromRecord(num, m, p[m])])
  {
    var c := FromRecord(num, m, p[m]);
    assert c.t == m;
    hide FromRecord;
    var out := cs + [c];
    OneFewer(p, m);
    forall t, i | t in p && 0 <= i < |out| && t > out[i].t ensures exists j :: i < j < |out| && out[j].t == t {
      if t == m {
        assert out[|cs|].t == t;
      } else {
        NewerIsIn(num, p - {m}, n - 1, cs, t, i);
        var j :| i < j < |cs| && cs[j].t == t;
        assert out[j].t == t;
      }
    }
  }

  lemma {:induction false} NewerIsIn(num: Numerics, p: Partition, n: nat, cs: seq<Candle>, t: int, i: nat)
    requires NewestOf(num, p, n, cs) && t in p && i < |cs| && t > cs[i].t
    ensures exists j :: i < j < |cs| && cs[j].t == t
  {
    hide FromRecord, Ascending;
  }

  lemma {:induction false} OneFewer(p: Partition, m: int)
    requires m in p
    ensures |p - {m}| == |p| - 1
  {
    assert (p - {m}).Keys == p.Keys - {m};
    assert |p| == |p.Keys| && |p - {m}| == |(p - {m}).Keys|;
  }

  /** A batch means "the partition overridden by the last candle per open time". */
  lemma {:induction false} AppliedOverrides(num: Numerics, p: Partition, cs: seq<Candle>, t: int)
    requires Parses(num, cs)
    ensures t in Applied(num, p, cs) <==> t in p || t in Timeline(cs)
    ensures t in Timeline(cs) ==> ToRecord(num, Timeline(cs)[t]) == Some(Applied(num, p, cs)[t])
    ensures t in p && t !in Timeline(cs) ==> Applied(num, p, cs)[t] == p[t]
  {
    hide ToRecord;
    if cs != [] {
      var n := |cs| - 1;
      assert Parses(num, cs[..n]);
      AppliedOverrides(num, p, cs[..n], t);
    }
  }

  function StoredAll(num: Numerics, cs: seq<Candle>): (r: seq<Candle>)
    requires Parses(num, cs)
    ensures |r| == |cs| && forall i :: 0 <= i < |cs| ==> r[i] == Stored(num, cs[i])
  {
    seq(|cs|, i requires 0 <= i < |cs| => Stored(num, cs[i]))
  }

  /** The last n elements, or all of them. */
  function Tail<T>(s: seq<T>, n: nat): seq<T> {
    if n < |s| then s[|s| - n..] else s
  }

  lemma {:induction false} WithoutLast(num: Numerics, cs: seq<Candle>)
    requires Ascending(cs) && cs != [] && Parses(num, cs)
    ensures var n, last, p := |cs| - 1, cs[|cs| - 1], Applied(num, map[], cs);
            && Parses(num, cs[..n]) && last.t in p && p[last.t] == ToRecord(num, last).value
            && (forall t :: t in p ==> t <= last.t) && p - {last.t} == Applied(num, map[], cs[..n])
  {
    hide ToRecord;
    var n := |cs| - 1;
    assert Parses(num, cs[..n]);
    forall t | t in Applied(num, map[], cs) ensures t <= cs[n].t {
      AppliedOverrides(num, map[], cs, t);
      LastIsGreatest(cs);
    }
    assert cs[n].t !in Applied(num, map[], cs[..n]) by {
      AppliedOverrides(num, map[], cs[..n], cs[n].t);
      TimelineKeys(cs[..n], cs[n].t);
    }
  }

  /** Round trip: an ascending list upserted into an empty partition comes back as its own last
      candles, in ascending order, in the form the table keeps them in. */
  lemma {:induction false} RoundTrip(num: Numerics, cs: seq<Candle>, n: nat)
    requires Ascending(cs) && Parses(num, cs)
    ensures Loaded(num, Applied(num, map[], cs), n) == Tail(StoredAll(num, cs), n)
    decreases n
  {
    hide *;
    if n == 0 || cs == [] {
      TripOfNothing(num, cs, n);
    } else {
      var k := |cs| - 1;
      WithoutLast(num, cs);
      var p := Applied(num, map[], cs);
      assert p != map[];
      LatestDescPeels(num, p, n);
      assert Newest(p.Keys) == cs[k].t;
      PrefixAscends(cs, k);
      RoundTrip(num, cs[..k], n - 1);
      TailGrows(num, cs, n);
    }
  }

  lemma {:induction false} TripOfNothing(num: Numerics, cs: seq<Candle>, n: nat)
    requires (n == 0 || cs == []) && Parses(num, cs)
    ensures Loaded(num, Applied(num, map[], cs), n) == Tail(StoredAll(num, cs), n)
  {
    LoadedNothing(num, Applied(num, map[], cs), n);
  }

  lemma {:induction false} PrefixAscends(cs: seq<Candle>, k: nat)
    requires Ascending(cs) && k <= |cs|
    ensures Ascending(cs[..k])
  {
  }

  lemma {:induction false} TailGrows(num: Numerics, cs: seq<Candle>, n: nat)
    requires n > 0 && cs != [] && Parses(num, cs) && Parses(num, cs[..|cs| - 1])
    ensures var k := |cs| - 1;
            ToRecord(num, cs[k]).Some?
            && Tail(StoredAll(num, cs), n) == Tail(StoredAll(num, cs[..k]), n - 1)
                + [FromRecord(num, cs[k].t, ToRecord(num, cs[k]).value)]
  {
    hide ToRecord, FromRecord;
    assert StoredAll(num, cs) == StoredAll(num, cs[..|cs| - 1]) + [Stored(num, cs[|cs| - 1])];
  }

  /** The trip changes nothing but the five fields the table has no column for when the numbers are
      written the way the table prints them. */
  lemma {:induction false} StoredKeepsCanonical(num: Numerics, c: Candle)
    requires forall s :: s in {c.o, c.h, c.l, c.c, c.v, c.a} ==>
               num.parse(s).Some? && num.format(num.parse(s).value) == s
    ensures ToRecord(num, c).Some?
    ensures Stored(num, c) == c.(q := "", ro := "", rc := "", rh := "", rl := "")
  {
    hide ToRecord;
    RecordIffSixNumbers(num, c);
  }
}
