/** Distributed reduce: a fold per partition, and a fold of the partition results
    in whatever order the tasks complete. */
module Reduce {
  import opened Bytes
  import opened Seqs
  import opened Folding

  function ValuesOf(ps: seq<Pair>): (vs: seq<Bytes>)
    ensures |vs| == |ps|
  {
    if ps == [] then [] else [ps[0].value] + ValuesOf(ps[1..])
  }

  lemma {:induction false} ValuesOfConcat(a: seq<Pair>, b: seq<Pair>)
    ensures ValuesOf(a + b) == ValuesOf(a) + ValuesOf(b)
  {
    if a == [] {
      assert a + b == b;
    } else {
      assert (a + b)[1..] == a[1..] + b;
      ValuesOfConcat(a[1..], b);
    }
  }

  /** The fold of all values, None if there are none. */
  function FoldAll(op: Op, vs: seq<Bytes>): Option<Bytes>
  {
    if vs == [] then None else Some(Fold(op, vs))
  }

  /** Reduce.run on one partition. */
  method ReducePartition(items: seq<Pair>, op: Op) returns (r: Option<Bytes>)
    ensures r == FoldAll(op, ValuesOf(items))
  {
    r := None;
    assert items[..0] == [];
    for i := 0 to |items|
      invariant r == FoldAll(op, ValuesOf(items[..i]))
    {
      assert items[..i + 1] == items[..i] + [items[i]];
      ValuesOfConcat(items[..i], [items[i]]);
      assert ValuesOf([items[i]]) == [items[i].value];
      if r.None? {
        r := Some(items[i].value);
      } else {
        FoldLast(op, ValuesOf(items[..i]), items[i].value);
        r := Some(op(r.value, items[i].value));
      }
    }
    assert items[..|items|] == items;
  }

  /** The results kept by the driver: those that are not None and not empty bytes. */
  function Kept(rs: seq<Option<Bytes>>): seq<Bytes>
  {
    if rs == [] then []
    else if rs[0].Some? && |rs[0].value| != 0 then [rs[0].value] + Kept(rs[1..])
    else Kept(rs[1..])
  }

  /** Reduce.reduce, given the results in completion order. */
  method Combine(rs: seq<Option<Bytes>>, op: Op) returns (r: Option<Bytes>)
    ensures r == FoldAll(op, Kept(rs))
  {
    var results: seq<Bytes> := [];
    assert rs[..0] == [];
    for i := 0 to |rs|
      invariant results == Kept(rs[..i])
    {
      assert rs[..i + 1] == rs[..i] + [rs[i]];
      KeptConcat(rs[..i], [rs[i]]);
      if rs[i].Some? && |rs[i].value| != 0 {
        results := results + [rs[i].value];
      }
    }
    assert rs[..|rs|] == rs;
    if |results| == 0 {
      return None;
    }
    var acc := results[0];
    for i := 1 to |results|
      invariant acc == FoldFrom(op, results[0], results[1..i])
    {
      assert results[1..i + 1] == results[1..i] + [results[i]];
      FoldFromConcat(op, results[0], results[1..i], [results[i]]);
      assert FoldFrom(op, acc, [results[i]]) == FoldFrom(op, op(acc, results[i]), []);
      acc := op(acc, results[i]);
    }
    assert results[1..|results|] == results[1..];
    r := Some(acc);
  }

  lemma {:induction false} KeptConcat(a: seq<Option<Bytes>>, b: seq<Option<Bytes>>)
    ensures Kept(a + b) == Kept(a) + Kept(b)
  {
    if a == [] {
      assert a + b == b;
    } else {
      assert (a + b)[1..] == a[1..] + b;
      KeptConcat(a[1..], b);
    }
  }

  /** The results the driver drops although their partition held values: empty bytes. */
  function Lost(rs: seq<Option<Bytes>>): seq<Bytes>
  {
    if rs == [] then []
    else if rs[0] == Some([]) then [[]] + Lost(rs[1..])
    else Lost(rs[1..])
  }

  /** The results of the partitions that held values. */
  function Present(rs: seq<Option<Bytes>>): seq<Bytes>
  {
    if rs == [] then [] else if rs[0].Some? then [rs[0].value] + Present(rs[1..]) else Present(rs[1..])
  }

  /** Each present result is either kept or lost. */
  lemma {:induction false} KeptOrLost(rs: seq<Option<Bytes>>)
    ensures multiset(Kept(rs)) + multiset(Lost(rs)) == multiset(Present(rs))
  {
    if rs != [] { KeptOrLost(rs[1..]); }
  }

  /** The partition folds, in partition order. */
  function PartitionFolds(op: Op, iters: seq<seq<Pair>>): seq<Option<Bytes>>
  {
    if iters == [] then [] else [FoldAll(op, ValuesOf(iters[0]))] + PartitionFolds(op, iters[1..])
  }

  lemma FoldConcat(op: Op, xs: seq<Bytes>, ys: seq<Bytes>)
    requires Associative(op) && xs != [] && ys != []
    ensures Fold(op, xs + ys) == op(Fold(op, xs), Fold(op, ys))
  {
    assert (xs + ys)[1..] == xs[1..] + ys;
    FoldFromConcat(op, xs[0], xs[1..], ys);
    var a := Fold(op, xs);
    FoldFromPull(op, a, ys[0], ys[1..]);
  }

  /** Folding the partition folds is folding all the values. */
  lemma {:induction false} FoldOfFolds(op: Op, iters: seq<seq<Pair>>)
    requires Associative(op)
    ensures FoldAll(op, Present(PartitionFolds(op, iters))) == FoldAll(op, ValuesOf(Flatten(iters)))
  {
    if iters != [] {
      var folds := PartitionFolds(op, iters);
      assert folds[1..] == PartitionFolds(op, iters[1..]);
      FoldOfFolds(op, iters[1..]);
      var head, tail := ValuesOf(iters[0]), ValuesOf(Flatten(iters[1..]));
      ValuesOfConcat(iters[0], Flatten(iters[1..]));
      if head == [] {
        assert head + tail == tail;
      } else {
        assert folds[0] == Some(Fold(op, head));
        var rest := Present(folds[1..]);
        if rest == [] {
          assert head + tail == head;
        } else {
          FoldConcat(op, head, tail);
          FoldCons(op, Fold(op, head), rest);
        }
      }
    }
  }

  /** Distributed reduce against one fold over all values, for every table, every
      associative and commutative operation and every completion order. The two agree
      exactly when no partition folds to empty bytes, or some partition folds to
      something else and the empty folds would not have changed the result. */
  lemma ReduceIsFold(op: Op, iters: seq<seq<Pair>>, results: seq<Option<Bytes>>)
    requires Associative(op) && Commutative(op)
    requires multiset(results) == multiset(PartitionFolds(op, iters))
    ensures var folds := PartitionFolds(op, iters);
            var kept, lost := Kept(folds), Lost(folds);
            FoldAll(op, Kept(results)) == FoldAll(op, ValuesOf(Flatten(iters)))
            <==> Some([]) !in folds || (kept != [] && FoldFrom(op, Fold(op, kept), lost) == Fold(op, kept))
  {
    var folds := PartitionFolds(op, iters);
    FoldOfFolds(op, iters);
    KeptOrLost(folds);
    FoldOfParts(op, Kept(folds), Lost(folds), Present(folds));
    LostOnlyEmpty(folds);
    KeptPermutes(op, results, folds);
  }

  /** The completion order does not matter to the driver. */
  lemma KeptPermutes(op: Op, a: seq<Option<Bytes>>, b: seq<Option<Bytes>>)
    requires Associative(op) && Commutative(op) && multiset(a) == multiset(b)
    ensures FoldAll(op, Kept(a)) == FoldAll(op, Kept(b))
  {
    forall v ensures multiset(Kept(a))[v] == multiset(Kept(b))[v] {
      KeptCount(a, v);
      KeptCount(b, v);
    }
    assert multiset(Kept(a)) == multiset(Kept(b));
    assert |multiset(Kept(a))| == |Kept(a)| && |multiset(Kept(b))| == |Kept(b)|;
    if Kept(a) != [] {
      FoldPermutation(op, Kept(a), Kept(b));
    }
  }

  lemma {:induction false} KeptCount(rs: seq<Option<Bytes>>, v: Bytes)
    ensures multiset(Kept(rs))[v] == if v == [] then 0 else multiset(rs)[Some(v)]
  {
    if rs != [] {
      KeptCount(rs[1..], v);
      assert rs == [rs[0]] + rs[1..];
    }
  }

  lemma FoldOfParts(op: Op, kept: seq<Bytes>, lost: seq<Bytes>, all: seq<Bytes>)
    requires Associative(op) && Commutative(op)
    requires multiset(kept + lost) == multiset(all)
    ensures FoldAll(op, all) == if kept == [] then FoldAll(op, lost) else Some(FoldFrom(op, Fold(op, kept), lost))
  {
    assert |multiset(kept + lost)| == |kept + lost| && |multiset(all)| == |all|;
    if kept + lost != [] {
      FoldPermutation(op, kept + lost, all);
      if kept == [] {
        assert kept + lost == lost;
      } else {
        assert (kept + lost)[1..] == kept[1..] + lost;
        FoldFromConcat(op, kept[0], kept[1..], lost);
      }
    }
  }

  /** No value is the empty string, and the operation makes none. */
  ghost predicate NonEmptyOp(op: Op)
  {
    forall a, b :: a != [] && b != [] ==> op(a, b) != []
  }

  predicate NonEmpty(vs: seq<Bytes>)
  {
    forall i :: 0 <= i < |vs| ==> vs[i] != []
  }

  /** Serialized values are not empty, and the operation keeps them so: then nothing
      is lost, the result is the fold, and it is None only for the empty table. */
  lemma SerializedReduce(op: Op, iters: seq<seq<Pair>>, results: seq<Option<Bytes>>)
    requires Associative(op) && Commutative(op) && NonEmptyOp(op)
    requires multiset(results) == multiset(PartitionFolds(op, iters))
    requires NonEmpty(ValuesOf(Flatten(iters)))
    ensures FoldAll(op, Kept(results)) == FoldAll(op, ValuesOf(Flatten(iters)))
    ensures FoldAll(op, Kept(results)) == None <==> Flatten(iters) == []
  {
    NothingEmpty(op, iters);
    ReduceIsFold(op, iters, results);
  }

  lemma {:induction false} LostOnlyEmpty(rs: seq<Option<Bytes>>)
    ensures Lost(rs) == [] <==> Some([]) !in rs
  {
    if rs != [] { LostOnlyEmpty(rs[1..]); }
  }

  lemma {:induction false} NothingEmpty(op: Op, iters: seq<seq<Pair>>)
    requires NonEmptyOp(op) && NonEmpty(ValuesOf(Flatten(iters)))
    ensures Some([]) !in PartitionFolds(op, iters)
  {
    if iters != [] {
      ValuesOfConcat(iters[0], Flatten(iters[1..]));
      var head, tail := ValuesOf(iters[0]), ValuesOf(Flatten(iters[1..]));
      NonEmptyParts(head, tail);
      NothingEmpty(op, iters[1..]);
      if head != [] { FoldNotEmpty(op, head[0], head[1..]); }
    }
  }

  lemma NonEmptyParts(a: seq<Bytes>, b: seq<Bytes>)
    requires NonEmpty(a + b)
    ensures NonEmpty(a) && NonEmpty(b)
  {
    forall i | 0 <= i < |a| ensures a[i] != [] { assert (a + b)[i] == a[i]; }
    forall i | 0 <= i < |b| ensures b[i] != [] { assert (a + b)[|a| + i] == b[i]; }
  }

  lemma {:induction false} FoldNotEmpty(op: Op, a: Bytes, vs: seq<Bytes>)
    requires NonEmptyOp(op) && a != [] && NonEmpty(vs)
    ensures FoldFrom(op, a, vs) != []
    decreases |vs|
  {
    if vs != [] { FoldNotEmpty(op, op(a, vs[0]), vs[1..]); }
  }

  /** An operation that loses information when the empty string is dropped: it keeps
      the empty string if either side is empty. */
  function EmptyWins(a: Bytes, b: Bytes): Bytes
  {
    if a == [] || b == [] then [] else [1]
  }

  /** The condition on empty results matters: two partitions, one holding an empty
      value, reduce to the other partition's value instead of the empty string. */
  lemma DroppedEmptyResult()
    ensures Associative(EmptyWins) && Commutative(EmptyWins)
    ensures var iters := [[Pair([1], [])], [Pair([2], [1])]];
            FoldAll(EmptyWins, Kept(PartitionFolds(EmptyWins, iters))) != FoldAll(EmptyWins, ValuesOf(Flatten(iters)))
  {
    forall a, b, c ensures Associates(EmptyWins, a, b, c) { }
    forall a, b ensures Commutes(EmptyWins, a, b) { }
    var x, y := [Pair([1], [])], [Pair([2], [1])];
    var iters := [x, y];
    assert ValuesOf(x) == [[]] && ValuesOf(y) == [[1]];
    assert PartitionFolds(EmptyWins, iters[1..]) == [Some([1])];
    assert PartitionFolds(EmptyWins, iters) == [Some([]), Some([1])];
    assert Kept([Some([1])]) == [[1]];
    assert Kept(PartitionFolds(EmptyWins, iters)) == [[1]];
    ValuesOfConcat(x, y);
    assert iters[1..] == [y] && Flatten([y]) == y;
    assert Flatten(iters) == x + y;
    assert ValuesOf(x + y) == [[], [1]];
    assert FoldFrom(EmptyWins, [], [[1]]) == [];
  }
}
