/** The row-major product of two lists, as the nested configuration loops visit it. */
module Products {

  function Row<A, B>(x: A, ys: seq<B>): (r: seq<(A, B)>)
    ensures |r| == |ys| && forall j :: 0 <= j < |ys| ==> r[j] == (x, ys[j])
  {
    seq(|ys|, j requires 0 <= j < |ys| => (x, ys[j]))
  }

  function Product<A, B>(xs: seq<A>, ys: seq<B>): seq<(A, B)> {
    if xs == [] then [] else Product(xs[..|xs| - 1], ys) + Row(xs[|xs| - 1], ys)
  }

  lemma {:induction false} ProductLength<A, B>(xs: seq<A>, ys: seq<B>)
    ensures |Product(xs, ys)| == |xs| * |ys|
  {
    if xs != [] {
      ProductLength(xs[..|xs| - 1], ys);
      assert |xs| * |ys| == (|xs| - 1) * |ys| + |ys|;
    }
  }

  /** Entry i*m + j pairs the i-th x with the j-th y. */
  lemma {:induction false} ProductAt<A, B>(xs: seq<A>, ys: seq<B>, i: nat, j: nat)
    requires i < |xs| && j < |ys|
    ensures 0 <= i * |ys| + j < |Product(xs, ys)|
    ensures Product(xs, ys)[i * |ys| + j] == (xs[i], ys[j])
  {
    var m := |ys|;
    ProductLength(xs, ys);
    ProductLength(xs[..|xs| - 1], ys);
    assert i * m + j < (i + 1) * m;
    if i < |xs| - 1 {
      assert (i + 1) * m <= (|xs| - 1) * m by { MulMonotone(i + 1, |xs| - 1, m); }
      ProductAt(xs[..|xs| - 1], ys, i, j);
    }
    MulMonotone(i + 1, |xs|, m);
  }

  lemma {:induction false} MulMonotone(a: int, b: int, m: nat)
    requires a <= b
    ensures a * m <= b * m
  {
    assert (b - a) * m >= 0;
  }

  /** Every position of the product is i*m + j for one pair of indices. */
  lemma {:induction false} ProductSplit<A, B>(xs: seq<A>, ys: seq<B>, n: nat) returns (i: nat, j: nat)
    requires n < |Product(xs, ys)|
    ensures i < |xs| && j < |ys| && n == i * |ys| + j && Product(xs, ys)[n] == (xs[i], ys[j])
  {
    ProductLength(xs[..|xs| - 1], ys);
    ProductLength(xs, ys);
    if n < |Product(xs[..|xs| - 1], ys)| {
      i, j := ProductSplit(xs[..|xs| - 1], ys, n);
    } else {
      i, j := |xs| - 1, n - (|xs| - 1) * |ys|;
    }
  }

  ghost predicate Distinct<A>(s: seq<A>) {
    forall i, j :: 0 <= i < j < |s| ==> s[i] != s[j]
  }

  lemma {:induction false} ProductDistinct<A, B>(xs: seq<A>, ys: seq<B>)
    requires Distinct(xs) && Distinct(ys)
    ensures Distinct(Product(xs, ys))
  {
    var p := Product(xs, ys);
    forall a, b | 0 <= a < b < |p| ensures p[a] != p[b] {
      var i, j := ProductSplit(xs, ys, a);
      var k, l := ProductSplit(xs, ys, b);
      if i == k {
        assert j != l;
      }
    }
  }

  lemma {:induction false} ProductMembers<A, B>(xs: seq<A>, ys: seq<B>, x: A, y: B)
    ensures (x, y) in Product(xs, ys) <==> x in xs && y in ys
  {
    var p := Product(xs, ys);
    if (x, y) in p {
      var n :| 0 <= n < |p| && p[n] == (x, y);
      var i, j := ProductSplit(xs, ys, n);
    }
    if x in xs && y in ys {
      var i :| 0 <= i < |xs| && xs[i] == x;
      var j :| 0 <= j < |ys| && ys[j] == y;
      ProductAt(xs, ys, i, j);
    }
  }
}
