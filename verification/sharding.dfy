/** Subscriptions cut into websocket connections of bounded size. */
module Sharding {
  import opened Wrappers
  import opened Products
  import opened Symbols

  // ---------------------------------------------------------------- cutting a list

  function CeilDiv(n: nat, size: nat): nat
    requires size > 0
  {
    (n + size - 1) / size
  }

  /** Piece k holds the elements from k*size up to the next multiple of size or the end. */
  ghost predicate Cut<T>(pieces: seq<seq<T>>, xs: seq<T>, size: nat)
    requires size > 0
  {
    |pieces| == CeilDiv(|xs|, size) && Slices(pieces, xs, size)
  }

  ghost predicate Slices<T>(pieces: seq<seq<T>>, xs: seq<T>, size: nat) {
    forall k :: 0 <= k < |pieces| ==> SliceAt(pieces, xs, size, k)
  }

  ghost predicate SliceAt<T>(pieces: seq<seq<T>>, xs: seq<T>, size: nat, k: nat)
    requires k < |pieces|
  {
    0 <= k * size <= Min((k + 1) * size, |xs|) && pieces[k] == xs[k * size..Min((k + 1) * size, |xs|)]
  }

  function Flatten<T>(pieces: seq<seq<T>>): seq<T> {
    if pieces == [] then [] else Flatten(pieces[..|pieces| - 1]) + pieces[|pieces| - 1]
  }

  /** Together the pieces are the list; all but the last are full, and none is empty or too long. */
  ghost predicate Partition<T>(pieces: seq<seq<T>>, xs: seq<T>, size: nat) {
    && Flatten(pieces) == xs
    && (forall k :: 0 <= k < |pieces| - 1 ==> |pieces[k]| == size)
    && (forall k :: 0 <= k < |pieces| ==> 0 < |pieces[k]| <= size)
  }

  lemma {:induction false} CeilIs(n: nat, size: nat, q: int)
    requires size > 0 && (q - 1) * size < n <= q * size
    ensures q == CeilDiv(n, size)
  {
    var r := n + size - 1 - q * size;
    assert 0 <= r < size by {
      assert (q - 1) * size == q * size - size;
    }
    DivIs(n + size - 1, size, q, r);
  }

  lemma {:induction false} DivIs(a: int, size: nat, q: int, r: nat)
    requires r < size && a == q * size + r
    ensures a / size == q && a % size == r
  {
    var d := a / size - q;
    assert a == (a / size) * size + a % size;
    assert d * size == r - a % size;
    if d >= 1 { MulMonotone(1, d, size); }
    if d <= -1 { MulMonotone(d, -1, size); }
  }

  lemma {:induction false} CeilBounds(n: nat, size: nat)
    requires size > 0
    ensures (CeilDiv(n, size) - 1) * size < n <= CeilDiv(n, size) * size
  {
    var q := CeilDiv(n, size);
    assert (q - 1) * size == q * size - size;
  }

  /** Every piece before the last is full and ends inside the list. */
  lemma {:induction false} PieceEnds(n: nat, size: nat, k: nat)
    requires size > 0 && k < CeilDiv(n, size)
    ensures k * size < n && (k + 1) * size == k * size + size
    ensures k + 1 < CeilDiv(n, size) ==> (k + 1) * size < n
    ensures k + 1 == CeilDiv(n, size) ==> n <= (k + 1) * size
  {
    CeilBounds(n, size);
    MulMonotone(k, CeilDiv(n, size) - 1, size);
    if k + 1 < CeilDiv(n, size) {
      MulMonotone(k + 1, CeilDiv(n, size) - 1, size);
    }
  }

  lemma {:induction false} CutFlattens<T>(pieces: seq<seq<T>>, xs: seq<T>, size: nat, k: nat)
    requires size > 0 && Cut(pieces, xs, size) && k <= |pieces|
    ensures 0 <= Min(k * size, |xs|) <= |xs| && Flatten(pieces[..k]) == xs[..Min(k * size, |xs|)]
  {
    if k > 0 {
      CutFlattens(pieces, xs, size, k - 1);
      PieceEnds(|xs|, size, k - 1);
      assert SliceAt(pieces, xs, size, k - 1);
      assert pieces[..k][..k - 1] == pieces[..k - 1];
    }
  }

  lemma {:induction false} FullPrefix<T>(pieces: seq<seq<T>>, xs: seq<T>, size: nat, k: nat)
    requires Partition(pieces, xs, size) && k <= |pieces|
    ensures k < |pieces| ==> |Flatten(pieces[..k])| == k * size
    ensures Flatten(pieces[..k]) <= xs
    ensures k > 0 ==> |Flatten(pieces[..k])| == (k - 1) * size + |pieces[k - 1]|
    decreases k, 0
  {
    if k > 0 {
      assert pieces[..k][..k - 1] == pieces[..k - 1];
      FullPrefix(pieces, xs, size, k - 1);
      assert (k - 1) * size + size == k * size;
    }
    FlattenIsPrefix(pieces, k);
  }

  lemma {:induction false} FlattenIsPrefix<T>(pieces: seq<seq<T>>, k: nat)
    requires k <= |pieces|
    ensures Flatten(pieces[..k]) <= Flatten(pieces)
  {
    if k == |pieces| {
      assert pieces[..k] == pieces;
    } else {
      FlattenIsPrefix(pieces[..|pieces| - 1], k);
      assert pieces[..|pieces| - 1][..k] == pieces[..k];
    }
  }

  /** Cutting by position is the one way to partition a list into full pieces and a shorter last one. */
  lemma {:induction false} CutIffPartition<T>(pieces: seq<seq<T>>, xs: seq<T>, size: nat)
    requires size > 0
    ensures Cut(pieces, xs, size) <==> Partition(pieces, xs, size)
  {
    if Cut(pieces, xs, size) {
      CutIsPartition(pieces, xs, size);
    }
    if Partition(pieces, xs, size) {
      PartitionIsCut(pieces, xs, size);
    }
  }

  lemma {:induction false} CutIsPartition<T>(pieces: seq<seq<T>>, xs: seq<T>, size: nat)
    requires size > 0 && Cut(pieces, xs, size)
    ensures Partition(pieces, xs, size)
  {
    hide Flatten, CeilDiv, Slices;
    var q := |pieces|;
    CeilBounds(|xs|, size);
    CutFlattens(pieces, xs, size, q);
    assert pieces[..q] == pieces && xs[..|xs|] == xs;
    forall k | 0 <= k < q ensures 0 < |pieces[k]| <= size && (k < q - 1 ==> |pieces[k]| == size) {
      PieceSize(pieces, xs, size, k);
    }
  }

  lemma {:induction false} PieceSize<T>(pieces: seq<seq<T>>, xs: seq<T>, size: nat, k: nat)
    requires size > 0 && Cut(pieces, xs, size) && k < |pieces|
    ensures 0 < |pieces[k]| <= size && (k < |pieces| - 1 ==> |pieces[k]| == size)
  {
    hide CeilDiv;
    assert SliceAt(pieces, xs, size, k);
    PieceEnds(|xs|, size, k);
  }

  lemma {:induction false} PartitionIsCut<T>(pieces: seq<seq<T>>, xs: seq<T>, size: nat)
    requires size > 0 && Partition(pieces, xs, size)
    ensures Cut(pieces, xs, size)
  {
    var q := |pieces|;
    FullPrefix(pieces, xs, size, q);
    assert pieces[..q] == pieces;
    if q > 0 {
      assert (q - 1) * size + size == q * size;
    }
    CeilIs(|xs|, size, q);
    forall k | 0 <= k < q ensures SliceAt(pieces, xs, size, k) {
      FullPrefix(pieces, xs, size, k);
      FullPrefix(pieces, xs, size, k + 1);
      assert pieces[..k + 1][..k] == pieces[..k];
      PieceEnds(|xs|, size, k);
    }
  }

  lemma {:induction false} OneMoreSlice<T>(pieces: seq<seq<T>>, xs: seq<T>, size: nat, end: nat)
    requires Slices(pieces, xs, size) && size > 0 && |pieces| * size < |xs|
    requires end == Min(|pieces| * size + size, |xs|)
    ensures Slices(pieces + [xs[|pieces| * size..end]], xs, size)
    ensures |pieces + [xs[|pieces| * size..end]]| * size == |pieces| * size + size
  {
    var n := |pieces|;
    assert (n + 1) * size == n * size + size;
    var more := pieces + [xs[n * size..end]];
    forall k | 0 <= k < |more| ensures SliceAt(more, xs, size, k) {
      if k < n {
        assert SliceAt(pieces, xs, size, k) && more[k] == pieces[k];
      }
    }
  }

  lemma {:induction false} EnoughSlices<T>(pieces: seq<seq<T>>, xs: seq<T>, size: nat)
    requires Slices(pieces, xs, size) && size > 0 && |xs| <= |pieces| * size < |xs| + size
    ensures Cut(pieces, xs, size)
  {
    assert (|pieces| - 1) * size == |pieces| * size - size;
    CeilIs(|xs|, size, |pieces|);
  }

  // ---------------------------------------------------------------- the order book client

  const MAX_SYMBOLS_PER_CONNECTION := 30

  method ChunkSymbols(symbols: seq<string>, chunkSize: nat) returns (chunks: seq<seq<string>>)
    requires chunkSize > 0
    ensures Cut(chunks, symbols, chunkSize)
  {
    chunks := [];
    var start := 0;
    while start < |symbols|
      invariant 0 <= start == |chunks| * chunkSize < |symbols| + chunkSize
      invariant Slices(chunks, symbols, chunkSize)
    {
      var end := start + chunkSize;
      if end > |symbols| {
        end := |symbols|;
      }
      OneMoreSlice(chunks, symbols, chunkSize, end);
      chunks := chunks + [symbols[start..end]];
      start := start + chunkSize;
    }
    EnoughSlices(chunks, symbols, chunkSize);
  }

  /** One connection loop per chunk, numbered from one. */
  method Start(symbols: seq<string>) returns (ids: seq<nat>, chunks: seq<seq<string>>)
    ensures Cut(chunks, symbols, 30)
    ensures |ids| == |chunks| && forall k :: 0 <= k < |ids| ==> ids[k] == k + 1
  {
    chunks := ChunkSymbols(symbols, MAX_SYMBOLS_PER_CONNECTION);
    ids := [];
    for index := 0 to |chunks|
      invariant |ids| == index && forall k :: 0 <= k < index ==> ids[k] == k + 1
    {
      ids := ids + [index + 1];
    }
  }

  // ---------------------------------------------------------------- the kline manager

  /** A wire symbol with an interval. */
  type Subscription = (string, string)

  datatype Shard = Shard(id: nat, subscriptions: seq<Subscription>)

  const DEFAULT_SHARD_SIZE := 50

  function Size(shardSize: int): (size: nat)
    ensures size > 0
  {
    if shardSize <= 0 then DEFAULT_SHARD_SIZE else shardSize
  }

  function Wires(symbols: seq<string>): (wires: seq<string>)
    ensures |wires| == |symbols| && forall i :: 0 <= i < |wires| ==> wires[i] == ToMEXC(symbols[i])
  {
    seq(|symbols|, i requires 0 <= i < |symbols| => ToMEXC(symbols[i]))
  }

  function Subscriptions(symbols: seq<string>, intervals: seq<string>): seq<Subscription> {
    Product(Wires(symbols), intervals)
  }

  function Lists(shards: seq<Shard>): (lists: seq<seq<Subscription>>)
    ensures |lists| == |shards| && forall k :: 0 <= k < |lists| ==> lists[k] == shards[k].subscriptions
  {
    seq(|shards|, k requires 0 <= k < |shards| => shards[k].subscriptions)
  }

  /** All subscriptions, one symbol after the other. */
  method CollectSubscriptions(symbols: seq<string>, intervals: seq<string>) returns (subs: seq<Subscription>)
    ensures subs == Subscriptions(symbols, intervals)
  {
    hide ToMEXC;
    subs := [];
    ghost var wires := Wires(symbols);
    for i := 0 to |symbols|
      invariant subs == Product(wires[..i], intervals)
    {
      var wire := ToMEXC(symbols[i]);
      for j := 0 to |intervals|
        invariant subs == Product(wires[..i], intervals) + Row(wire, intervals)[..j]
      {
        subs := subs + [(wire, intervals[j])];
      }
      assert wires[..i + 1][..i] == wires[..i];
      assert Row(wire, intervals)[..|intervals|] == Row(wire, intervals);
    }
    assert wires[..|symbols|] == wires;
  }

  /** The manager's connections: ids count from one and the subscriptions are partitioned. */
  method New(symbols: seq<string>, intervals: seq<string>, shardSize: int) returns (conns: seq<Shard>)
    ensures forall k :: 0 <= k < |conns| ==> conns[k].id == k + 1
    ensures Cut(Lists(conns), Subscriptions(symbols, intervals), if shardSize >= 1 then shardSize else 50)
  {
    var size := Size(shardSize);
    var subs := CollectSubscriptions(symbols, intervals);
    hide Subscriptions;
    conns := [];
    var i := 0;
    while i < |subs|
      invariant 0 <= i == |conns| * size < |subs| + size
      invariant forall k :: 0 <= k < |conns| ==> conns[k].id == k + 1
      invariant Slices(Lists(conns), subs, size)
    {
      hide Slices;
      var end := i + size;
      if end > |subs| {
        end := |subs|;
      }
      OneMoreSlice(Lists(conns), subs, size, end);
      var conn := Shard(|conns| + 1, subs[i..end]);
      assert Lists(conns + [conn]) == Lists(conns) + [conn.subscriptions];
      conns := conns + [conn];
      i := i + size;
    }
    EnoughSlices(Lists(conns), subs, size);
  }

  /** The number of subscriptions over all shards. */
  method SubscriptionCount(conns: seq<Shard>) returns (total: nat)
    ensures total == |Flatten(Lists(conns))|
  {
    total := 0;
    for k := 0 to |conns|
      invariant total == |Flatten(Lists(conns)[..k])|
    {
      total := total + |conns[k].subscriptions|;
      assert Lists(conns)[..k + 1][..k] == Lists(conns)[..k];
    }
    assert Lists(conns)[..|conns|] == Lists(conns);
  }

  /** Nothing is lost, doubled or reordered: the shards partition the product, there are as few of them as
      their size allows, and their counts add up to symbols times intervals. */
  lemma {:induction false} ShardsPartitionTheProduct(conns: seq<Shard>, symbols: seq<string>, intervals: seq<string>,
                                                     size: nat)
    requires size > 0 && Cut(Lists(conns), Subscriptions(symbols, intervals), size)
    ensures Partition(Lists(conns), Subscriptions(symbols, intervals), size)
    ensures (|conns| - 1) * size < |symbols| * |intervals| <= |conns| * size
    ensures |Flatten(Lists(conns))| == |symbols| * |intervals|
  {
    CutIffPartition(Lists(conns), Subscriptions(symbols, intervals), size);
    ProductLength(Wires(symbols), intervals);
    CeilBounds(|symbols| * |intervals|, size);
  }

  lemma {:induction false} SubscriptionsDistinct(symbols: seq<string>, intervals: seq<string>)
    requires (forall i, k :: 0 <= i < k < |symbols| ==> Trim(symbols[i]) != Trim(symbols[k])) && Distinct(intervals)
    ensures Distinct(Subscriptions(symbols, intervals))
  {
    hide Trim, ToMEXC;
    forall i, k | 0 <= i < k < |symbols| ensures Wires(symbols)[i] != Wires(symbols)[k] {
      ToMEXCInjective(symbols[i], symbols[k]);
    }
    ProductDistinct(Wires(symbols), intervals);
  }

  /** Distinct symbols and intervals are subscribed once: no two places over all shards carry the same one. */
  lemma {:induction false} EachSubscribedOnce(conns: seq<Shard>, symbols: seq<string>, intervals: seq<string>,
                                              size: nat, k: nat, p: nat, l: nat, q: nat)
    requires size > 0 && Cut(Lists(conns), Subscriptions(symbols, intervals), size)
    requires (forall i, j :: 0 <= i < j < |symbols| ==> Trim(symbols[i]) != Trim(symbols[j])) && Distinct(intervals)
    requires k < |conns| && p < |conns[k].subscriptions| && l < |conns| && q < |conns[l].subscriptions|
    ensures conns[k].subscriptions[p] == conns[l].subscriptions[q] <==> k == l && p == q
  {
    hide Trim, Subscriptions, CeilDiv;
    SubscriptionsDistinct(symbols, intervals);
    PlaceIn(Lists(conns), Subscriptions(symbols, intervals), size, k, p);
    PlaceIn(Lists(conns), Subscriptions(symbols, intervals), size, l, q);
    if k * size + p == l * size + q {
      DivIs(k * size + p, size, k, p);
      DivIs(l * size + q, size, l, q);
    }
  }

  lemma {:induction false} PlaceIn<T>(pieces: seq<seq<T>>, xs: seq<T>, size: nat, k: nat, p: nat)
    requires size > 0 && Cut(pieces, xs, size) && k < |pieces| && p < |pieces[k]|
    ensures p < size && 0 <= k * size + p < |xs| && pieces[k][p] == xs[k * size + p]
  {
    hide CeilDiv;
    assert SliceAt(pieces, xs, size, k);
    assert (k + 1) * size == k * size + size;
  }

  /** Where the j-th interval of the i-th symbol is served. */
  lemma {:induction false} PlaceOf(conns: seq<Shard>, symbols: seq<string>, intervals: seq<string>, size: nat, i: nat,
                                   j: nat)
    requires size > 0 && Cut(Lists(conns), Subscriptions(symbols, intervals), size)
    requires i < |symbols| && j < |intervals|
    ensures var p := i * |intervals| + j;
            && 0 <= p / size < |conns| && p % size < |conns[p / size].subscriptions|
            && conns[p / size].subscriptions[p % size] == (ToMEXC(symbols[i]), intervals[j])
  {
    hide ToMEXC, Cut;
    ProductAt(Wires(symbols), intervals, i, j);
    PieceOf(Lists(conns), Subscriptions(symbols, intervals), size, i * |intervals| + j);
  }

  lemma {:induction false} PieceOf<T>(pieces: seq<seq<T>>, xs: seq<T>, size: nat, p: nat)
    requires size > 0 && Cut(pieces, xs, size) && p < |xs|
    ensures 0 <= p / size < |pieces| && p % size < |pieces[p / size]| && pieces[p / size][p % size] == xs[p]
  {
    PieceIndex(|xs|, size, p);
    assert SliceAt(pieces, xs, size, p / size);
    assert pieces[p / size] == xs[p / size * size..Min((p / size + 1) * size, |xs|)];
  }

  lemma {:induction false} PieceIndex(n: nat, size: nat, p: nat)
    requires size > 0 && p < n
    ensures 0 <= p / size < CeilDiv(n, size) && p == p / size * size + p % size < (p / size + 1) * size
  {
    hide CeilDiv;
    var k := p / size;
    CeilBounds(n, size);
    if k >= CeilDiv(n, size) {
      MulMonotone(CeilDiv(n, size), k, size);
    }
    assert (k + 1) * size == k * size + size;
  }
}
