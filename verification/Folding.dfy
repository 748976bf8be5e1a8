/** Folds of a binary operation over a non-empty sequence of values, and their
    independence of order when the operation is associative and commutative. */
module Folding {
  import opened Bytes

  type Op = (Bytes, Bytes) -> Bytes

  predicate Associates(op: Op, a: Bytes, b: Bytes, c: Bytes)
  {
    op(op(a, b), c) == op(a, op(b, c))
  }

  predicate Commutes(op: Op, a: Bytes, b: Bytes)
  {
    op(a, b) == op(b, a)
  }

  ghost predicate Associative(op: Op)
  {
    forall a, b, c :: Associates(op, a, b, c)
  }

  ghost predicate Commutative(op: Op)
  {
    forall a, b :: Commutes(op, a, b)
  }

  function FoldFrom(op: Op, a: Bytes, vs: seq<Bytes>): Bytes
    decreases |vs|
  {
    if vs == [] then a else FoldFrom(op, op(a, vs[0]), vs[1..])
  }

  /** functools.reduce(op, vs). */
  function Fold(op: Op, vs: seq<Bytes>): Bytes
    requires vs != []
  {
    FoldFrom(op, vs[0], vs[1..])
  }

  lemma {:induction false} FoldFromConcat(op: Op, a: Bytes, xs: seq<Bytes>, ys: seq<Bytes>)
    ensures FoldFrom(op, a, xs + ys) == FoldFrom(op, FoldFrom(op, a, xs), ys)
    decreases |xs|
  {
    if xs == [] {
      assert xs + ys == ys;
    } else {
      assert (xs + ys)[1..] == xs[1..] + ys;
      FoldFromConcat(op, op(a, xs[0]), xs[1..], ys);
    }
  }

  /** The accumulated value is the left operand, and the values come in order. */
  lemma FoldLast(op: Op, vs: seq<Bytes>, v: Bytes)
    ensures Fold(op, vs + [v]) == if vs == [] then v else op(Fold(op, vs), v)
  {
    if vs != [] {
      assert (vs + [v])[1..] == vs[1..] + [v];
      FoldFromConcat(op, vs[0], vs[1..], [v]);
    }
  }

  lemma {:induction false} FoldFromPull(op: Op, a: Bytes, b: Bytes, vs: seq<Bytes>)
    requires Associative(op)
    ensures FoldFrom(op, op(a, b), vs) == op(a, FoldFrom(op, b, vs))
    decreases |vs|
  {
    if vs != [] {
      assert Associates(op, a, b, vs[0]);
      FoldFromPull(op, a, op(b, vs[0]), vs[1..]);
    }
  }

  lemma FoldCons(op: Op, a: Bytes, vs: seq<Bytes>)
    requires Associative(op) && vs != []
    ensures Fold(op, [a] + vs) == op(a, Fold(op, vs))
  {
    assert ([a] + vs)[1..] == vs;
    FoldFromPull(op, a, vs[0], vs[1..]);
  }

  function Without(vs: seq<Bytes>, i: nat): (r: seq<Bytes>)
    requires i < |vs|
    ensures |r| == |vs| - 1
  {
    vs[..i] + vs[i + 1..]
  }

  lemma WithoutMultiset(vs: seq<Bytes>, i: nat)
    requires i < |vs|
    ensures multiset(Without(vs, i)) == multiset(vs) - multiset{vs[i]}
  {
    assert vs == vs[..i] + [vs[i]] + vs[i + 1..];
  }

  lemma WithoutCons(v: Bytes, tail: seq<Bytes>, i: nat)
    requires i < |tail|
    ensures Without([v] + tail, i + 1) == [v] + Without(tail, i)
  {
  }

  /** Any element may be taken first. */
  lemma {:induction false} FoldPick(op: Op, v: Bytes, tail: seq<Bytes>, i: nat)
    requires Associative(op) && Commutative(op) && i < |tail|
    ensures Fold(op, [v] + tail) == op(tail[i], Fold(op, [v] + Without(tail, i)))
    decreases |tail|
  {
    FoldCons(op, v, tail);
    if |tail| == 1 {
      assert Commutes(op, v, tail[0]);
      assert [v] + Without(tail, i) == [v];
    } else {
      var rest := Without(tail, i);
      FoldCons(op, v, rest);
      FoldFirst(op, tail, i);
      Exchange(op, v, tail[i], Fold(op, rest));
    }
  }

  lemma {:induction false} FoldFirst(op: Op, vs: seq<Bytes>, i: nat)
    requires Associative(op) && Commutative(op) && i < |vs| && 2 <= |vs|
    ensures Fold(op, vs) == op(vs[i], Fold(op, Without(vs, i)))
    decreases |vs|, 0
  {
    var tail := vs[1..];
    assert vs == [vs[0]] + tail;
    if i == 0 {
      FoldCons(op, vs[0], tail);
      assert Without(vs, 0) == tail;
    } else {
      WithoutCons(vs[0], tail, i - 1);
      FoldPick(op, vs[0], tail, i - 1);
    }
  }

  lemma Exchange(op: Op, a: Bytes, b: Bytes, f: Bytes)
    requires Associative(op) && Commutative(op)
    ensures op(a, op(b, f)) == op(b, op(a, f))
  {
    assert Associates(op, a, b, f) && Commutes(op, a, b) && Associates(op, b, a, f);
  }

  /** The fold depends only on which values there are. */
  lemma {:induction false} FoldPermutation(op: Op, xs: seq<Bytes>, ys: seq<Bytes>)
    requires Associative(op) && Commutative(op)
    requires xs != [] && multiset(xs) == multiset(ys)
    ensures ys != [] && Fold(op, xs) == Fold(op, ys)
    decreases |xs|
  {
    assert |multiset(xs)| == |xs| && |multiset(ys)| == |ys|;
    assert ys[0] in multiset(xs);
    var i :| 0 <= i < |xs| && xs[i] == ys[0];
    if |xs| != 1 {
      FoldFirst(op, xs, i);
      WithoutMultiset(xs, i);
      assert ys == [ys[0]] + ys[1..];
      FoldPermutation(op, Without(xs, i), ys[1..]);
      FoldCons(op, ys[0], ys[1..]);
    }
  }
}
