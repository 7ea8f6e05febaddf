/** Candle lists: the copy-on-write binary-search upsert, and what a run of upserts means. */
module Candles {

  /** One OHLCV record; every numeric field except the open time is an opaque string. */
  datatype Candle = Candle(
    t: int, o: string, h: string, l: string, c: string, v: string, a: string,
    q: string, ro: string, rc: string, rh: string, rl: string)

  ghost predicate Ascending(s: seq<Candle>) {
    forall i, j :: 0 <= i < j < |s| ==> s[i].t < s[j].t
  }

  /** The map a candle list stands for: open time to candle, later positions winning. */
  function Timeline(s: seq<Candle>): map<int, Candle> {
    if s == [] then map[] else Timeline(s[..|s| - 1])[s[|s| - 1].t := s[|s| - 1]]
  }

  // ---------------------------------------------------------------- single upsert

  /** The index the bisection settles on between lo and hi, on any list, sorted or not. */
  function Bisect(s: seq<Candle>, t: int, lo: nat, hi: nat): (i: nat)
    requires lo <= hi <= |s|
    ensures lo <= i <= hi
    decreases hi - lo
  {
    if lo == hi then lo
    else
      var mid := (lo + hi) / 2;
      if s[mid].t < t then Bisect(s, t, mid + 1, hi) else Bisect(s, t, lo, mid)
  }

  function Upserted(s: seq<Candle>, c: Candle): seq<Candle> {
    var i := Bisect(s, c.t, 0, |s|);
    if i < |s| && s[i].t == c.t then s[i := c] else s[..i] + [c] + s[i..]
  }

  /** On an ascending list the bisection finds the first open time not below t. */
  lemma {:induction false} BisectFindsLowerBound(s: seq<Candle>, t: int, lo: nat, hi: nat)
    requires Ascending(s) && lo <= hi <= |s|
    requires forall k :: 0 <= k < lo ==> s[k].t < t
    requires forall k :: hi <= k < |s| ==> t <= s[k].t
    ensures forall k :: 0 <= k < Bisect(s, t, lo, hi) ==> s[k].t < t
    ensures forall k :: Bisect(s, t, lo, hi) <= k < |s| ==> t <= s[k].t
    decreases hi - lo
  {
    if lo < hi {
      var mid := (lo + hi) / 2;
      if s[mid].t < t {
        BisectFindsLowerBound(s, t, mid + 1, hi);
      } else {
        BisectFindsLowerBound(s, t, lo, mid);
      }
    }
  }

  /** Just before lo the time is below t, at hi it is not. */
  ghost predicate Brackets(s: seq<Candle>, t: int, lo: nat, hi: nat) {
    lo <= hi <= |s| && (lo > 0 ==> s[lo - 1].t < t) && (hi < |s| ==> t <= s[hi].t)
  }

  /** On any list, sorted or not, it settles on a place where the times step from below t to not below t. */
  lemma {:induction false} BisectFindsAStep(s: seq<Candle>, t: int, lo: nat, hi: nat)
    requires lo <= hi <= |s| && Brackets(s, t, lo, hi)
    ensures Brackets(s, t, Bisect(s, t, lo, hi), Bisect(s, t, lo, hi))
    decreases hi - lo
  {
    hide Brackets;
    if lo < hi {
      var mid := (lo + hi) / 2;
      NarrowBrackets(s, t, lo, mid, hi);
      if s[mid].t < t {
        BisectFindsAStep(s, t, mid + 1, hi);
      } else {
        BisectFindsAStep(s, t, lo, mid);
      }
    }
  }

  lemma {:induction false} NarrowBrackets(s: seq<Candle>, t: int, lo: nat, mid: nat, hi: nat)
    requires lo <= mid < hi && Brackets(s, t, lo, hi)
    ensures mid < |s| && if s[mid].t < t then Brackets(s, t, mid + 1, hi) else Brackets(s, t, lo, mid)
  {
  }

  /** The timeline of a concatenation: the right part overrides the left. */
  lemma {:induction false} TimelineConcat(xs: seq<Candle>, ys: seq<Candle>)
    ensures Timeline(xs + ys) == Timeline(xs) + Timeline(ys)
  {
    if ys == [] {
      assert xs + ys == xs;
    } else {
      TimelineConcat(xs, ys[..|ys| - 1]);
      assert (xs + ys)[..|xs + ys| - 1] == xs + ys[..|ys| - 1];
    }
  }

  /** Every key of a timeline is the open time of some candle of the list, and conversely. */
  lemma {:induction false} TimelineKeys(s: seq<Candle>, t: int)
    ensures t in Timeline(s) <==> exists i :: 0 <= i < |s| && s[i].t == t
  {
    if s != [] {
      var rest := s[..|s| - 1];
      TimelineKeys(rest, t);
      if t in Timeline(rest) {
        var i :| 0 <= i < |rest| && rest[i].t == t;
        assert s[i].t == t;
      } else if t == s[|s| - 1].t {
        assert s[|s| - 1].t == t;
      } else {
        assert forall i :: 0 <= i < |rest| ==> rest[i] == s[i];
      }
    }
  }

  /** What a timeline shows at a time is the last candle of the list with that time. */
  lemma {:induction false} TimelineShowsLast(s: seq<Candle>, i: nat)
    requires i < |s| && forall j :: i < j < |s| ==> s[j].t != s[i].t
    ensures s[i].t in Timeline(s) && Timeline(s)[s[i].t] == s[i]
  {
    if i < |s| - 1 {
      TimelineShowsLast(s[..|s| - 1], i);
    }
  }

  /** The last candle of an ascending list carries the greatest key of its timeline. */
  lemma {:induction false} LastIsGreatest(s: seq<Candle>)
    requires Ascending(s) && s != []
    ensures var last := s[|s| - 1];
            && last.t in Timeline(s) && Timeline(s)[last.t] == last
            && (forall t :: t in Timeline(s) ==> t <= last.t)
            && Timeline(s[..|s| - 1]) == Timeline(s) - {last.t}
  {
    var last, rest := s[|s| - 1], s[..|s| - 1];
    forall t | t in Timeline(rest) ensures t < last.t {
      TimelineKeys(rest, t);
      var i :| 0 <= i < |rest| && rest[i].t == t;
      assert s[i].t < s[|s| - 1].t;
    }
  }

  lemma {:induction false} UpsertedHas(s: seq<Candle>, c: Candle)
    ensures c in Upserted(s, c)
  {
    var i := Bisect(s, c.t, 0, |s|);
    assert Upserted(s, c)[i] == c;
  }

  lemma {:induction false} UpsertedStaysAscending(s: seq<Candle>, c: Candle)
    requires Ascending(s)
    ensures Ascending(Upserted(s, c))
  {
    BisectFindsLowerBound(s, c.t, 0, |s|);
  }

  /** Upsert refines map update: the list stays ascending, and exactly one key of the timeline changes. */
  lemma {:induction false} UpsertRefinesMapUpdate(s: seq<Candle>, c: Candle)
    requires Ascending(s)
    ensures Ascending(Upserted(s, c))
    ensures Timeline(Upserted(s, c)) == Timeline(s)[c.t := c]
  {
    UpsertedStaysAscending(s, c);
    BisectFindsLowerBound(s, c.t, 0, |s|);
    var i := Bisect(s, c.t, 0, |s|);
    if i < |s| && s[i].t == c.t {
      ReplaceInTimeline(s, i, c);
      assert Upserted(s, c) == s[..i] + [c] + s[i + 1..];
    } else {
      InsertInTimeline(s, i, c);
    }
  }

  lemma {:induction false} ReplaceInTimeline(s: seq<Candle>, i: nat, c: Candle)
    requires Ascending(s) && i < |s| && s[i].t == c.t
    ensures Timeline(s[..i] + [c] + s[i + 1..]) == Timeline(s)[c.t := c]
  {
    hide Timeline;
    TimelineKeys(s[i + 1..], c.t);
    SpliceTimeline(s[..i], c, s[i + 1..]);
    SpliceTimeline(s[..i], s[i], s[i + 1..]);
    assert s == s[..i] + [s[i]] + s[i + 1..];
  }

  lemma {:induction false} InsertInTimeline(s: seq<Candle>, i: nat, c: Candle)
    requires i <= |s| && forall k :: i <= k < |s| ==> s[k].t != c.t
    ensures Timeline(s[..i] + [c] + s[i..]) == Timeline(s)[c.t := c]
  {
    hide Timeline;
    TimelineKeys(s[i..], c.t);
    SpliceTimeline(s[..i], c, s[i..]);
    TimelineConcat(s[..i], s[i..]);
    assert s == s[..i] + s[i..];
  }

  lemma {:induction false} SpliceTimeline(front: seq<Candle>, c: Candle, back: seq<Candle>)
    requires c.t !in Timeline(back)
    ensures Timeline(front + [c] + back) == (Timeline(front) + Timeline(back))[c.t := c]
  {
    hide Timeline;
    TimelineConcat(front + [c], back);
    TimelineConcat(front, [c]);
    SingletonTimeline(c);
  }

  lemma {:induction false} SingletonTimeline(c: Candle)
    ensures Timeline([c]) == map[c.t := c]
  {
    assert [c][..0] == [];
  }

  // ---------------------------------------------------------------- the imperative upsert

  /** The library bisection the upsert relies on, as its loop. */
  method Search(s: array<Candle>, t: int) returns (i: nat)
    ensures i == Bisect(s[..], t, 0, s.Length)
    ensures i <= s.Length
  {
    var j: nat := s.Length;
    i := 0;
    while i < j
      invariant i <= j <= s.Length
      invariant Bisect(s[..], t, i, j) == Bisect(s[..], t, 0, s.Length)
    {
      var mid := (i + j) / 2;
      if s[mid].t < t { i := mid + 1; } else { j := mid; }
    }
  }

  /** Copies src[from..to] into dst starting at dst[at]. */
  method CopyInto(dst: array<Candle>, at: nat, src: array<Candle>, from: nat, to: nat)
    requires dst != src && from <= to <= src.Length && at + (to - from) <= dst.Length
    modifies dst
    ensures dst[..] == old(dst[..at]) + src[from..to] + old(dst[at + (to - from)..])
  {
    var k := 0;
    while k < to - from
      invariant 0 <= k <= to - from
      invariant dst[..at] == old(dst[..at])
      invariant dst[at..at + k] == src[from..from + k]
      invariant forall m :: at + k <= m < dst.Length ==> dst[m] == old(dst[m])
    {
      dst[at + k] := src[from + k];
      k := k + 1;
    }
    assert dst[at + (to - from)..] == old(dst[at + (to - from)..]);
    assert dst[..] == dst[..at] + dst[at..at + (to - from)] + dst[at + (to - from)..];
  }

  /** Copy-on-write upsert. The result is always newly allocated and the argument, having no
      modifies clause, is left as it was, so snapshots sharing it are never disturbed. */
  method Upsert(existing: array<Candle>, incoming: Candle) returns (out: array<Candle>)
    ensures fresh(out)
    ensures out[..] == Upserted(existing[..], incoming)
  {
    hide Bisect, Upserted;
    ghost var before := existing[..];
    var idx := Search(existing, incoming.t);
    if idx < existing.Length && existing[idx].t == incoming.t {
      out := new Candle[existing.Length](_ => incoming);
      CopyInto(out, 0, existing, 0, existing.Length);
      assert out[..] == before;
      out[idx] := incoming;
    } else {
      out := new Candle[existing.Length + 1](_ => incoming);
      CopyInto(out, 0, existing, 0, idx);
      out[idx] := incoming;
      assert out[..idx] == before[..idx];
      CopyInto(out, idx + 1, existing, idx, existing.Length);
      assert out[..idx + 1] == before[..idx] + [incoming];
      assert out[..] == before[..idx] + [incoming] + before[idx..];
    }
    UpsertedAt(before, incoming, idx);
  }

  lemma {:induction false} UpsertedAt(s: seq<Candle>, c: Candle, i: nat)
    requires i <= |s| && i == Bisect(s, c.t, 0, |s|)
    ensures Upserted(s, c) == if i < |s| && s[i].t == c.t then s[i := c] else s[..i] + [c] + s[i..]
  {
    hide Bisect;
  }

  // ---------------------------------------------------------------- runs of upserts

  /** The list after upserting the candles of cs one by one, first to last. */
  function UpsertAll(s: seq<Candle>, cs: seq<Candle>): seq<Candle> {
    if cs == [] then s else Upserted(UpsertAll(s, cs[..|cs| - 1]), cs[|cs| - 1])
  }

  /** A run of upserts means "the old timeline overridden by the last write per open time". */
  lemma {:induction false} UpsertAllOverrides(s: seq<Candle>, cs: seq<Candle>)
    requires Ascending(s)
    ensures Ascending(UpsertAll(s, cs))
    ensures Timeline(UpsertAll(s, cs)) == Timeline(s) + Timeline(cs)
  {
    if cs != [] {
      UpsertAllOverrides(s, cs[..|cs| - 1]);
      UpsertRefinesMapUpdate(UpsertAll(s, cs[..|cs| - 1]), cs[|cs| - 1]);
      UpdateAfterOverride(Timeline(s), Timeline(cs[..|cs| - 1]), cs[|cs| - 1].t, cs[|cs| - 1]);
    }
  }

  /** Ascending lists are canonical: equal timelines force equal lists. */
  lemma {:induction false} AscendingIsCanonical(a: seq<Candle>, b: seq<Candle>)
    requires Ascending(a) && Ascending(b) && Timeline(a) == Timeline(b)
    ensures a == b
  {
    if a == [] {
      if b != [] {
        LastIsGreatest(b);
      }
    } else {
      LastIsGreatest(a);
      assert b != [];
      LastIsGreatest(b);
      AscendingIsCanonical(a[..|a| - 1], b[..|b| - 1]);
      assert a == a[..|a| - 1] + [a[|a| - 1]] && b == b[..|b| - 1] + [b[|b| - 1]];
    }
  }

  /** Two runs from the same list end in the same list exactly when their last writes, laid over
      the old timeline, agree. */
  lemma {:induction false} RunsAgreeIffOverridesAgree(s: seq<Candle>, xs: seq<Candle>, ys: seq<Candle>)
    requires Ascending(s)
    ensures UpsertAll(s, xs) == UpsertAll(s, ys) <==> Timeline(s) + Timeline(xs) == Timeline(s) + Timeline(ys)
  {
    UpsertAllOverrides(s, xs);
    UpsertAllOverrides(s, ys);
    if Timeline(s) + Timeline(xs) == Timeline(s) + Timeline(ys) {
      AscendingIsCanonical(UpsertAll(s, xs), UpsertAll(s, ys));
    }
  }

  /** Two upserts commute exactly when their open times differ or they are the same candle. */
  lemma {:induction false} UpsertsCommuteIff(s: seq<Candle>, x: Candle, y: Candle)
    requires Ascending(s)
    ensures Upserted(Upserted(s, x), y) == Upserted(Upserted(s, y), x) <==> x.t != y.t || x == y
  {
    UpsertTwice(s, x, y);
    UpsertTwice(s, y, x);
    UpdatesCommuteIff(Timeline(s), x.t, x, y.t, y);
    if x.t != y.t || x == y {
      AscendingIsCanonical(Upserted(Upserted(s, x), y), Upserted(Upserted(s, y), x));
    }
  }

  lemma {:induction false} UpdatesCommuteIff<K, V>(m: map<K, V>, k: K, v: V, k': K, v': V)
    ensures m[k := v][k' := v'] == m[k' := v'][k := v] <==> k != k' || v == v'
  {
    if k == k' {
      assert m[k := v][k' := v'][k] == v' && m[k' := v'][k := v][k] == v;
    }
  }

  lemma {:induction false} UpdateAfterOverride<K, V>(m: map<K, V>, n: map<K, V>, k: K, v: V)
    ensures (m + n)[k := v] == m + n[k := v]
  {
  }

  lemma {:induction false} UpsertTwice(s: seq<Candle>, x: Candle, y: Candle)
    requires Ascending(s)
    ensures Ascending(Upserted(Upserted(s, x), y))
    ensures Timeline(Upserted(Upserted(s, x), y)) == Timeline(s)[x.t := x][y.t := y]
  {
    UpsertRefinesMapUpdate(s, x);
    UpsertRefinesMapUpdate(Upserted(s, x), y);
  }

  /** Repeating a merge changes nothing. */
  lemma {:induction false} MergeIsIdempotent(s: seq<Candle>, cs: seq<Candle>)
    requires Ascending(s)
    ensures UpsertAll(UpsertAll(s, cs), cs) == UpsertAll(s, cs)
  {
    UpsertAllOverrides(s, cs);
    UpsertAllOverrides(UpsertAll(s, cs), cs);
    AscendingIsCanonical(UpsertAll(UpsertAll(s, cs), cs), UpsertAll(s, cs));
  }

  /** A run splits anywhere: upserting xs + ys is upserting xs, then ys. */
  lemma {:induction false} UpsertAllConcat(s: seq<Candle>, xs: seq<Candle>, ys: seq<Candle>)
    ensures UpsertAll(s, xs + ys) == UpsertAll(UpsertAll(s, xs), ys)
  {
    if ys == [] {
      assert xs + ys == xs;
    } else {
      UpsertAllConcat(s, xs, ys[..|ys| - 1]);
      assert (xs + ys)[..|xs + ys| - 1] == xs + ys[..|ys| - 1];
    }
  }
}
