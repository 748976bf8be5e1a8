/** The sequential meaning of a shuffle: for every key, the reduction of all the
    values emitted for it. */
module GroupBy {
  import opened Bytes
  import opened Seqs
  import opened Folding
  import opened Shuffle
  import opened ShuffleFlow

  /** The values emitted for a key, in order. */
  function Values(ps: seq<Pair>, k: Bytes): (vs: seq<Bytes>)
  {
    if ps == [] then []
    else if ps[0].key == k then [ps[0].value] + Values(ps[1..], k)
    else Values(ps[1..], k)
  }

  function KeysOf(ps: seq<Pair>): set<Bytes>
  {
    set p | p in ps :: p.key
  }

  /** Group the pairs by key and reduce each group. */
  function GroupByReduce(op: Op, ps: seq<Pair>): (t: Table)
  {
    map k | k in KeysOf(ps) && Values(ps, k) != [] :: Fold(op, Values(ps, k))
  }

  lemma {:induction false} ValuesConcat(a: seq<Pair>, b: seq<Pair>, k: Bytes)
    ensures Values(a + b, k) == Values(a, k) + Values(b, k)
  {
    if a == [] {
      assert a + b == b;
    } else {
      assert (a + b)[1..] == a[1..] + b;
      ValuesConcat(a[1..], b, k);
    }
  }

  lemma {:induction false} HasValue(ps: seq<Pair>, k: Bytes)
    ensures Values(ps, k) != [] <==> k in KeysOf(ps)
  {
    if ps != [] {
      HasValue(ps[1..], k);
      assert ps == [ps[0]] + ps[1..];
      assert KeysOf(ps) == {ps[0].key} + KeysOf(ps[1..]);
    } else {
      assert KeysOf(ps) == {};
    }
  }

  /** Routing keeps a key's values in one partition and out of the others. */
  lemma {:induction false} ValuesSelect(part: Bytes -> nat, ps: seq<Pair>, j: nat, k: Bytes)
    ensures Values(Select(part, ps, j), k) == if part(k) == j then Values(ps, k) else []
  {
    if ps != [] {
      ValuesSelect(part, ps[1..], j, k);
      var rest := Select(part, ps[1..], j);
      assert ([ps[0]] + rest)[1..] == rest;
    }
  }

  /** Plain put is the merge that keeps the later value. */
  function Second(a: Bytes, b: Bytes): Bytes { b }

  function OpOf(reduce: Option<Op>): Op
  {
    if reduce.Some? then reduce.value else Second
  }

  /** What a partition holds after merging a sequence of pairs: under a key that LMDB
      refuses what it held before, under any other the fold of its values. */
  lemma {:induction false} MergeAllValue(sink: Sink, t: Table, ps: seq<Pair>, k: Bytes)
    ensures var r, vs := MergeAll(sink, t, ps), if sink.rejects(k) then [] else Values(ps, k);
            && (k in r <==> k in t || vs != [])
            && (k in t ==> r[k] == FoldFrom(OpOf(sink.reduce), t[k], vs))
            && (k !in t && vs != [] ==> r[k] == Fold(OpOf(sink.reduce), vs))
    decreases |ps|
  {
    if ps != [] {
      MergeAllValue(sink, Merge(sink, t, ps[0]), ps[1..], k);
    }
  }

  /** Distinct keys have at most one value each. */
  lemma {:induction false} DistinctValue(ps: seq<Pair>, k: Bytes)
    requires DistinctKeys(ps)
    ensures |Values(ps, k)| <= 1
    ensures Values(ps, k) != [] ==> Pair(k, Values(ps, k)[0]) in ps
  {
    if ps != [] {
      DistinctValue(ps[1..], k);
      if ps[0].key == k {
        HasValue(ps[1..], k);
      }
    }
  }
}
