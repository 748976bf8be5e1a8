/** What a finished shuffle means, whatever the schedule was. */
module ShuffleMeaning {
  import opened Bytes
  import opened Seqs
  import opened Format
  import opened BinBatch
  import opened Folding
  import opened Shuffle
  import opened ShuffleFlow
  import opened ShuffleRun
  import opened GroupBy

  /** How often v is emitted for k. */
  function Times(ps: seq<Pair>, k: Bytes, v: Bytes): nat { multiset(Values(ps, k))[v] }

  lemma TimesConcat(a: seq<Pair>, b: seq<Pair>, k: Bytes, v: Bytes)
    ensures Times(a + b, k, v) == Times(a, k, v) + Times(b, k, v)
  {
    ValuesConcat(a, b, k);
  }

  /** The sum of a weight over batches. */
  function Total(bs: seq<Bytes>, w: Bytes -> nat): nat
  {
    if bs == [] then 0 else w(bs[0]) + Total(bs[1..], w)
  }

  /** The same over the first n streams of a log. */
  function StreamTotals(log: seq<(nat, Bytes)>, n: nat, w: Bytes -> nat): nat
  {
    if n == 0 then 0 else StreamTotals(log, n - 1, w) + Total(Project(log, n - 1), w)
  }

  lemma {:induction false} StreamTotalsCons(log: seq<(nat, Bytes)>, n: nat, w: Bytes -> nat)
    requires log != []
    ensures StreamTotals(log, n, w) == StreamTotals(log[1..], n, w) + if log[0].0 < n then w(log[0].1) else 0
    decreases n
  {
    if n != 0 {
      StreamTotalsCons(log, n - 1, w);
      var rest := Project(log[1..], n - 1);
      assert ([log[0].1] + rest)[1..] == rest;
    }
  }

  /** An interleaving weighs what its streams weigh together. */
  lemma {:induction false} LogTotal(log: seq<(nat, Bytes)>, n: nat, w: Bytes -> nat)
    requires Tagged(log, n)
    ensures Total(Untag(log), w) == StreamTotals(log, n, w)
    decreases |log|
  {
    if log == [] {
      NoTotals(n, w);
    } else {
      LogTotal(log[1..], n, w);
      StreamTotalsCons(log, n, w);
      var rest := Untag(log[1..]);
      assert ([log[0].1] + rest)[1..] == rest;
    }
  }

  lemma {:induction false} NoTotals(n: nat, w: Bytes -> nat)
    ensures StreamTotals([], n, w) == 0
  {
    if n != 0 {
      NoTotals(n - 1, w);
      assert Project<Bytes>([], n - 1) == [];
    }
  }

  /** The weight of a batch: how often it holds v for k. */
  function Weigh(k: Bytes, v: Bytes): Bytes -> nat { b => Times(DecodeBatch(b), k, v) }

  lemma {:induction false} TimesTotal(bs: seq<Bytes>, k: Bytes, v: Bytes)
    ensures Times(DecodeBatches(bs), k, v) == Total(bs, Weigh(k, v))
  {
    if bs != [] {
      TimesTotal(bs[1..], k, v);
      TimesConcat(DecodeBatch(bs[0]), DecodeBatches(bs[1..]), k, v);
    }
  }

  /** Stream i of a log carries the pairs of one map task that were routed to j. */
  predicate Carries(log: seq<(nat, Bytes)>, i: nat, part: Bytes -> nat, out: seq<Pair>, j: nat)
  {
    DecodeBatches(Project(log, i)) == Select(part, out, j)
  }

  lemma CarriedTimes(log: seq<(nat, Bytes)>, i: nat, part: Bytes -> nat, out: seq<Pair>, j: nat, k: Bytes, v: Bytes)
    requires Carries(log, i, part, out, j)
    ensures Total(Project(log, i), Weigh(k, v)) == if part(k) == j then Times(out, k, v) else 0
  {
    TimesTotal(Project(log, i), k, v);
    RoutedTimes(part, out, j, k, v);
  }

  /** Streams that each carry the values of one task carry the values of all. */
  lemma {:induction false} RoutedValues(log: seq<(nat, Bytes)>, w: Bytes -> nat, outs: seq<seq<Pair>>, here: bool, k: Bytes, v: Bytes, n: nat)
    requires n <= |outs|
    requires forall i :: 0 <= i < |outs| ==> Total(Project(log, i), w) == if here then Times(outs[i], k, v) else 0
    ensures StreamTotals(log, n, w) == if here then Times(Flatten(outs[..n]), k, v) else 0
    decreases n
  {
    if n != 0 {
      RoutedValues(log, w, outs, here, k, v, n - 1);
      FlattenTimes(outs, n, k, v);
    }
  }

  lemma FlattenTimes(outs: seq<seq<Pair>>, n: nat, k: Bytes, v: Bytes)
    requires 0 < n <= |outs|
    ensures Times(Flatten(outs[..n]), k, v) == Times(Flatten(outs[..n - 1]), k, v) + Times(outs[n - 1], k, v)
  {
    assert outs[..n] == outs[..n - 1] + [outs[n - 1]];
    FlattenAppend(outs[..n - 1], outs[n - 1]);
    TimesConcat(Flatten(outs[..n - 1]), outs[n - 1], k, v);
  }

  lemma RoutedTimes(part: Bytes -> nat, out: seq<Pair>, j: nat, k: Bytes, v: Bytes)
    ensures Times(Select(part, out, j), k, v) == if part(k) == j then Times(out, k, v) else 0
  {
    ValuesSelect(part, out, j, k);
  }

  lemma SameTimes(log: seq<(nat, Bytes)>, part: Bytes -> nat, outs: seq<seq<Pair>>, j: nat, k: Bytes, v: Bytes)
    requires Tagged(log, |outs|) && forall i :: 0 <= i < |outs| ==> Carries(log, i, part, outs[i], j)
    ensures Times(DecodeBatches(Untag(log)), k, v) == if part(k) == j then Times(Flatten(outs), k, v) else 0
  {
    assert outs[..|outs|] == outs;
    TimesTotal(Untag(log), k, v);
    LogTotal(log, |outs|, Weigh(k, v));
    forall i | 0 <= i < |outs| ensures Total(Project(log, i), Weigh(k, v)) == if part(k) == j then Times(outs[i], k, v) else 0 {
      CarriedTimes(log, i, part, outs[i], j, k, v);
    }
    RoutedValues(log, Weigh(k, v), outs, part(k) == j, k, v, |outs|);
  }

  lemma SameBag(a: seq<Pair>, b: seq<Pair>, here: bool, k: Bytes)
    requires forall v :: Times(a, k, v) == if here then Times(b, k, v) else 0
    ensures multiset(Values(a, k)) == if here then multiset(Values(b, k)) else multiset{}
  {
    forall v ensures multiset(Values(a, k))[v] == if here then multiset(Values(b, k))[v] else 0 {
      assert Times(a, k, v) == if here then Times(b, k, v) else 0;
    }
  }

  /** Key k belongs to partition j and LMDB takes it. */
  predicate Lands(c: Config, j: nat, k: Bytes) { c.part(k) == j && !c.sink.rejects(k) }

  /** The values merged under k in partition j are those all map tasks emitted for
      k if k belongs to j and LMDB takes it, and none otherwise; nothing is known of
      their order. */
  lemma MergedValues(c: Config, t: State, j: nat, k: Bytes) returns (vs: seq<Bytes>)
    requires Inv(c, t) && j < c.parts && t.stores[j].done
    ensures multiset(vs) == if Lands(c, j, k) then multiset(Values(Flatten(c.mapOut), k)) else multiset{}
    ensures var table, base := t.stores[j].table, c.base[j];
            && (k in table <==> k in base || vs != [])
            && (k in base ==> table[k] == FoldFrom(OpOf(c.sink.reduce), base[k], vs))
            && (k !in base && vs != [] ==> table[k] == Fold(OpOf(c.sink.reduce), vs))
  {
    var st := t.stores[j];
    assert StoreInv(c, st, c.base[j]);
    var ps := DecodeBatches(Untag(st.taken));
    vs := if c.sink.rejects(k) then [] else Values(ps, k);
    assert Log(st) == st.taken;
    forall i | 0 <= i < |c.mapOut|
      ensures Carries(st.taken, i, c.part, c.mapOut[i], j)
    {
      StoredStream(c, t, i, j);
    }
    forall v ensures Times(ps, k, v) == if c.part(k) == j then Times(Flatten(c.mapOut), k, v) else 0 {
      SameTimes(st.taken, c.part, c.mapOut, j, k, v);
    }
    SameBag(ps, Flatten(c.mapOut), c.part(k) == j, k);
    MergeAllValue(c.sink, c.base[j], ps, k);
  }

  lemma {:induction false} EmittedStorable(c: Config, outs: seq<seq<Pair>>, k: Bytes)
    requires forall i :: 0 <= i < |outs| ==> Storable(c.sink, outs[i])
    requires c.sink.reduce.None? && k in KeysOf(Flatten(outs))
    ensures !c.sink.rejects(k)
  {
    var p :| p in Flatten(outs) && p.key == k;
    if p in outs[0] {
      var n :| 0 <= n < |outs[0]| && outs[0][n] == p;
      assert !Raises(c.sink, outs[0][n]);
    } else {
      assert p in Flatten(outs[1..]);
      EmittedStorable(c, outs[1..], k);
    }
  }

  lemma SingleBag(a: seq<Bytes>, b: seq<Bytes>)
    requires multiset(a) == multiset(b) && |b| <= 1
    ensures a == b
  {
    assert |multiset(a)| == |a| && |multiset(b)| == |b|;
    if b != [] { assert a[0] in multiset(b); }
  }

  /** The output partitions before the job are empty. */
  ghost predicate FreshOutput(c: Config)
  {
    forall j :: 0 <= j < |c.base| ==> c.base[j] == map[]
  }

  /** Shuffle refines group-by-reduce. For an associative and commutative reduce
      function and every schedule, a finished job has put under each key, in the
      key's partition and nowhere else, the reduction of all values emitted for it,
      except under keys that LMDB refuses, which merge drops. */
  lemma ShuffleIsGroupByReduce(c: Config, steps: seq<Step>, t: State, j: nat, k: Bytes)
    requires ValidConfig(c) && FreshOutput(c) && Run(c, Init(c), steps, t) && AllStored(t)
    requires c.sink.reduce.Some? && Associative(c.sink.reduce.value) && Commutative(c.sink.reduce.value)
    requires j < c.parts
    ensures |t.stores| == c.parts
    ensures var g, table := GroupByReduce(c.sink.reduce.value, Flatten(c.mapOut)), t.stores[j].table;
            && (k in table <==> k in g && Lands(c, j, k))
            && (k in table ==> table[k] == g[k])
  {
    InitInv(c);
    RunKeepsInv(c, Init(c), steps, t);
    var vs := MergedValues(c, t, j, k);
    var all := Values(Flatten(c.mapOut), k);
    HasValue(Flatten(c.mapOut), k);
    if vs != [] {
      FoldPermutation(c.sink.reduce.value, vs, all);
    }
  }

  /** Without a reduce function (repartition): when no key is emitted twice, every
      schedule stores each emitted pair in its key's partition and nothing else. */
  lemma ShuffleIsRepartition(c: Config, steps: seq<Step>, t: State, j: nat, k: Bytes)
    requires ValidConfig(c) && FreshOutput(c) && Run(c, Init(c), steps, t) && AllStored(t)
    requires c.sink.reduce.None? && DistinctKeys(Flatten(c.mapOut))
    requires j < c.parts
    ensures |t.stores| == c.parts
    ensures var table := t.stores[j].table;
            && (k in table <==> k in KeysOf(Flatten(c.mapOut)) && c.part(k) == j)
            && (k in table ==> Pair(k, table[k]) in Flatten(c.mapOut))
  {
    InitInv(c);
    RunKeepsInv(c, Init(c), steps, t);
    var vs := MergedValues(c, t, j, k);
    var ps := Flatten(c.mapOut);
    var all := Values(ps, k);
    HasValue(ps, k);
    DistinctValue(ps, k);
    if Lands(c, j, k) {
      SingleBag(vs, all);
    }
    if k in KeysOf(ps) {
      EmittedStorable(c, c.mapOut, k);
    }
  }
}
