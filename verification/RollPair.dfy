/** The storage operations of a roll pair, each routed to or gathered from its
    partitions, and their agreement with operations on one map. */
module RollPair {
  import opened Bytes
  import opened Seqs
  import opened Format
  import opened BinBatch
  import opened Folding
  import opened SortedMerge
  import opened ShuffleFlow
  import opened GroupBy
  import opened Tables
  import Shuffle
  import ShuffleRun
  import ShuffleMeaning

  // ------------------------------------------------------------ put_all and repartition

  /** do_shuffle_write: every item goes to the target of its key's partition. */
  method ShuffleWrite(items: seq<Pair>, part: Bytes -> nat, n: nat) returns (targets: seq<seq<Pair>>, done: nat)
    requires Routes(part, n)
    ensures |targets| == n && forall j :: 0 <= j < n ==> targets[j] == Select(part, items, j)
    ensures done == |items|
  {
    targets, done := seq(n, j => []), 0;
    assert items[..0] == [];
    for i := 0 to |items|
      invariant done == i && |targets| == n
      invariant forall j :: 0 <= j < n ==> targets[j] == Select(part, items[..i], j)
    {
      var id := part(items[i].key);
      assert items[..i + 1] == items[..i] + [items[i]];
      forall j | 0 <= j < n
        ensures Select(part, items[..i + 1], j) == Select(part, items[..i], j) + if j == id then [items[i]] else []
      {
        SelectConcat(part, items[..i], [items[i]], j);
        assert Select(part, [items[i]], j) == if j == id then [items[i]] else [];
      }
      targets := targets[id := targets[id] + [items[i]]];
      done := done + 1;
    }
    assert items[..|items|] == items;
  }

  lemma {:induction false} MergeAllPuts(sink: Shuffle.Sink, t: Table, ps: seq<Pair>)
    requires sink.reduce.None? && Shuffle.Storable(sink, ps)
    ensures Shuffle.MergeAll(sink, t, ps) == PutAll(t, ps)
    decreases |ps|
  {
    if ps != [] {
      assert !Shuffle.Raises(sink, ps[0]);
      MergeAllPuts(sink, t[ps[0].key := ps[0].value], ps[1..]);
    }
  }

  lemma {:induction false} OneStream<T>(log: seq<(nat, T)>)
    requires forall n :: 0 <= n < |log| ==> log[n].0 == 0
    ensures ShuffleRun.Untag(log) == Project(log, 0)
  {
    if log != [] { OneStream(log[1..]); }
  }

  function TablesOf(s: Shuffle.State): (ts: seq<Table>)
    ensures |ts| == |s.stores| && forall j :: 0 <= j < |ts| ==> ts[j] == s.stores[j].table
  {
    seq(|s.stores|, j requires 0 <= j < |s.stores| => s.stores[j].table)
  }

  /** put_all, under every schedule of its threads: the finished table is the old
      one with the pairs inserted left to right, duplicates included. */
  lemma PutAllIsInsertion(c: Shuffle.Config, kvs: seq<Pair>, steps: seq<Shuffle.Step>, t: Shuffle.State)
    requires Shuffle.ValidConfig(c) && c.mapOut == [kvs] && c.sink.reduce.None? && Placed(c.part, c.base)
    requires Shuffle.Run(c, Shuffle.Init(c), steps, t) && Shuffle.AllStored(t)
    ensures Placed(c.part, TablesOf(t)) && Whole(TablesOf(t)) == PutAll(Whole(c.base), kvs)
  {
    ShuffleRun.InitInv(c);
    ShuffleRun.RunKeepsInv(c, Shuffle.Init(c), steps, t);
    assert Shuffle.Storable(c.sink, c.mapOut[0]);
    PutsStored(c, kvs, t);
    ScatteredPutAll(c.part, c.base, kvs, TablesOf(t));
  }

  lemma PutsStored(c: Shuffle.Config, kvs: seq<Pair>, t: Shuffle.State)
    requires ShuffleRun.Inv(c, t) && c.mapOut == [kvs] && c.sink.reduce.None? && Shuffle.Storable(c.sink, kvs)
    requires Shuffle.AllStored(t)
    ensures |TablesOf(t)| == c.parts
    ensures forall j :: 0 <= j < c.parts ==> TablesOf(t)[j] == PutAll(c.base[j], Select(c.part, kvs, j))
  {
    forall j | 0 <= j < c.parts ensures TablesOf(t)[j] == PutAll(c.base[j], Select(c.part, kvs, j)) {
      StoredPuts(c, kvs, t, j);
    }
  }

  lemma StoredPuts(c: Shuffle.Config, kvs: seq<Pair>, t: Shuffle.State, j: nat)
    requires ShuffleRun.Inv(c, t) && c.mapOut == [kvs] && c.sink.reduce.None? && j < c.parts && t.stores[j].done
    requires Shuffle.Storable(c.sink, kvs)
    ensures t.stores[j].table == PutAll(c.base[j], Select(c.part, kvs, j))
  {
    var st := t.stores[j];
    assert ShuffleRun.StoreInv(c, st, c.base[j]);
    assert ShuffleRun.Log(st) == st.taken;
    OneStream(st.taken);
    ShuffleRun.StoredStream(c, t, 0, j);
    SelectStorable(c.part, c.sink, kvs, j);
    MergeAllPuts(c.sink, c.base[j], Select(c.part, kvs, j));
  }

  lemma SelectStorable(part: Bytes -> nat, sink: Shuffle.Sink, kvs: seq<Pair>, j: nat)
    requires Shuffle.Storable(sink, kvs)
    ensures Shuffle.Storable(sink, Select(part, kvs, j))
  {
    var ps := Select(part, kvs, j);
    forall i | 0 <= i < |ps| ensures !Shuffle.Raises(sink, ps[i]) {
      assert ps[i] in kvs;
      var n :| 0 <= n < |kvs| && kvs[n] == ps[i];
    }
  }

  lemma {:induction false} ItemsFlatten(part: Bytes -> nat, parts: seq<Table>, outs: seq<seq<Pair>>, n: nat)
    requires Placed(part, parts) && |outs| == |parts| && n <= |parts|
    requires forall i :: 0 <= i < |parts| ==> Lists(outs[i], parts[i])
    ensures forall k :: Lookup(Flatten(outs[..n]), k) == At(View(parts, n), k)
    ensures DistinctKeys(Flatten(outs[..n]))
  {
    if n != 0 {
      ItemsFlatten(part, parts, outs, n - 1);
      var front, last := Flatten(outs[..n - 1]), outs[n - 1];
      assert outs[..n] == outs[..n - 1] + [last];
      FlattenAppend(outs[..n - 1], last);
      SortedDistinct(last);
      ViewDisjoint(part, parts, n);
      forall k ensures Lookup(front + last, k) == At(View(parts, n), k) {
        LookupConcat(front, last, k);
        assert Lookup(front, k) == At(View(parts, n - 1), k) && Lookup(last, k) == At(parts[n - 1], k);
      }
      forall i, j | 0 <= i < |front| && 0 <= j < |last| ensures front[i].key != last[j].key {
        LookupMember(front, i);
        LookupMember(last, j);
        var k := front[i].key;
        assert Lookup(front, k) == At(View(parts, n - 1), k) && Lookup(last, k) == At(parts[n - 1], k);
      }
    }
  }

  lemma {:induction false} LookupConcat(a: seq<Pair>, b: seq<Pair>, k: Bytes)
    ensures Lookup(a + b, k) == if Lookup(a, k).Some? then Lookup(a, k) else Lookup(b, k)
  {
    if a == [] {
      assert a + b == b;
    } else {
      assert (a + b)[1..] == a[1..] + b;
      LookupConcat(a[1..], b, k);
    }
  }

  lemma {:induction false} LookupMember(ps: seq<Pair>, i: nat)
    requires i < |ps|
    ensures Lookup(ps, ps[i].key).Some?
  {
    if i != 0 { LookupMember(ps[1..], i - 1); }
  }

  lemma {:induction false} LookupDistinct(ps: seq<Pair>, p: Pair)
    requires DistinctKeys(ps) && p in ps
    ensures Lookup(ps, p.key) == Some(p.value)
  {
    if ps[0] != p { LookupDistinct(ps[1..], p); }
  }

  /** repartition, under every schedule: the table is unchanged as a map and placed
      by the new partitioner. */
  lemma RepartitionKeepsTable(c: Shuffle.Config, part: Bytes -> nat, parts: seq<Table>,
                              steps: seq<Shuffle.Step>, t: Shuffle.State)
    requires Shuffle.ValidConfig(c) && ShuffleMeaning.FreshOutput(c) && c.sink.reduce.None?
    requires Placed(part, parts) && |c.mapOut| == |parts|
    requires forall i :: 0 <= i < |parts| ==> Lists(c.mapOut[i], parts[i])
    requires Shuffle.Run(c, Shuffle.Init(c), steps, t) && Shuffle.AllStored(t)
    ensures Placed(c.part, TablesOf(t)) && Whole(TablesOf(t)) == Whole(parts)
  {
    var ps := Flatten(c.mapOut);
    ItemsFlatten(part, parts, c.mapOut, |parts|);
    assert c.mapOut[..|parts|] == c.mapOut;
    ShuffleRun.SignalAccounting(c, steps, t);
    var after := TablesOf(t);
    forall j, k | 0 <= j < |after| && k in after[j] ensures c.part(k) == j {
      ShuffleMeaning.ShuffleIsRepartition(c, steps, t, j, k);
    }
    forall k ensures At(Whole(after), k) == At(Whole(parts), k) {
      WholeGet(c.part, after, k);
      ShuffleMeaning.ShuffleIsRepartition(c, steps, t, c.part(k), k);
      assert Lookup(ps, k) == At(Whole(parts), k);
      HasValue(ps, k);
      LookupValues(ps, k);
      if k in after[c.part(k)] {
        LookupDistinct(ps, Pair(k, after[c.part(k)][k]));
      }
    }
    SameTable(Whole(after), Whole(parts));
  }

  /** repartition_with, then the sorted merge partition by partition: the table with
      fewer partitions (the left one when `swapped`) is repartitioned, under any
      schedule. The result is the operation on the two maps, placed like the other. */
  lemma OperationAfterRepartition(kind: Kind, op: Op, swapped: bool, c: Shuffle.Config, a: seq<Table>,
                                  bPart: Bytes -> nat, b: seq<Table>,
                                  steps: seq<Shuffle.Step>, t: Shuffle.State, r: seq<Table>)
    requires Shuffle.ValidConfig(c) && ShuffleMeaning.FreshOutput(c) && c.sink.reduce.None?
    requires |a| == |r| == c.parts && Placed(c.part, a) && Placed(bPart, b) && |c.mapOut| == |b|
    requires forall i :: 0 <= i < |b| ==> Lists(c.mapOut[i], b[i])
    requires Shuffle.Run(c, Shuffle.Init(c), steps, t) && Shuffle.AllStored(t) && |t.stores| == c.parts
    requires forall j :: 0 <= j < |r| ==>
               if swapped then CombinesTo(kind, op, t.stores[j].table, a[j], r[j])
               else CombinesTo(kind, op, a[j], t.stores[j].table, r[j])
    ensures Placed(c.part, r)
    ensures if swapped then CombinesTo(kind, op, Whole(b), Whole(a), Whole(r))
            else CombinesTo(kind, op, Whole(a), Whole(b), Whole(r))
  {
    RepartitionKeepsTable(c, bPart, b, steps, t);
    if swapped {
      PartitionwiseMerge(kind, op, c.part, TablesOf(t), a, r);
    } else {
      PartitionwiseMerge(kind, op, c.part, a, TablesOf(t), r);
    }
  }

  // ----------------------------------------------------------------- single operations

  /** The partitions of one store. `rejects` are the keys for which LMDB raises
      BadValsizeError on put. */
  class Store {
    const part: Bytes -> nat
    const rejects: Bytes -> bool
    var parts: seq<Table>

    ghost predicate Valid()
      reads this
    {
      Routes(part, |parts|) && Placed(part, parts)
    }

    function Map(): Table
      reads this
    {
      Whole(parts)
    }

    constructor (n: nat, part: Bytes -> nat, rejects: Bytes -> bool)
      requires Routes(part, n)
      ensures Valid() && |parts| == n && this.part == part && this.rejects == rejects && Map() == map[]
    {
      this.part, this.rejects := part, rejects;
      parts := seq(n, j => map[]);
      new;
      forall k ensures At(Whole(parts), k) == At(map[], k) {
        WholeGet(part, parts, k);
      }
      SameTable(Whole(parts), map[]);
    }

    method Get(k: Bytes) returns (r: Option<Bytes>)
      requires Valid()
      ensures r == if k in Map() then Some(Map()[k]) else None
    {
      var p := parts[part(k)];
      r := if k in p then Some(p[k]) else None;
      WholeGet(part, parts, k);
    }

    method Put(k: Bytes, v: Bytes) returns (success: bool)
      requires Valid()
      modifies this
      ensures Valid() && |parts| == |old(parts)|
      ensures success == !rejects(k)
      ensures Map() == if success then old(Map())[k := v] else old(Map())
    {
      if rejects(k) {
        return false;
      }
      var id := part(k);
      parts := parts[id := parts[id][k := v]];
      success := true;
      forall x ensures At(Map(), x) == At(old(Map())[k := v], x) {
        WholeGet(part, parts, x);
        WholeGet(part, old(parts), x);
      }
      SameTable(Map(), old(Map())[k := v]);
    }

    method Delete(k: Bytes) returns (success: bool)
      requires Valid()
      modifies this
      ensures Valid() && |parts| == |old(parts)|
      ensures success == (k in old(Map())) && Map() == old(Map()) - {k}
    {
      var id := part(k);
      success := k in parts[id];
      parts := parts[id := parts[id] - {k}];
      WholeGet(part, old(parts), k);
      forall x ensures At(Map(), x) == At(old(Map()) - {k}, x) {
        WholeGet(part, parts, x);
        WholeGet(part, old(parts), x);
      }
      SameTable(Map(), old(Map()) - {k});
    }

    method Count() returns (total: nat)
      requires Valid()
      ensures total == |Map()|
    {
      total := 0;
      for j := 0 to |parts|
        invariant total == SumSizes(parts, j)
      {
        total := total + |parts[j]|;
      }
      ViewCount(part, parts);
    }

    /** What put_all leaves in partition j: its share, up to the first refused key. */
    ghost predicate PutInto(before: seq<Table>, kvs: seq<Pair>, j: nat, after: Table)
      requires j < |before|
    {
      after == Seqs.PutAll(before[j], Shuffle.Stored(Puts(rejects), Select(part, kvs, j)))
    }

    /** put_all, as the schedule in which every stage runs to its end in turn: route,
        pack, unpack, store. It fails iff LMDB refuses some key. */
    method PutAll(kvs: seq<Pair>, sendbuf: nat) returns (ok: bool)
      requires Valid() && Carried(kvs) && HEADER_SIZE <= sendbuf
      modifies this
      ensures Valid() && |parts| == |old(parts)|
      ensures ok <==> forall i :: 0 <= i < |kvs| ==> !rejects(kvs[i].key)
      ensures ok ==> Map() == Seqs.PutAll(old(Map()), kvs)
      ensures forall j :: 0 <= j < |parts| ==> PutInto(old(parts), kvs, j, parts[j])
    {
      var targets, done := ShuffleWrite(kvs, part, |parts|);
      var after: seq<Table> := [];
      ok := true;
      for j := 0 to |parts|
        invariant |after| == j && parts == old(parts)
        invariant forall i :: 0 <= i < j ==> PutInto(parts, kvs, i, after[i])
        invariant ok <==> forall i :: 0 <= i < j ==> Taken(rejects, part, kvs, i)
      {
        SelectCarried(part, kvs, j);
        var stored, table := SendAndStore(targets[j], sendbuf, parts[j], rejects);
        assert stored == Taken(rejects, part, kvs, j);
        if !stored {
          ok := false;
        }
        after := after + [table];
      }
      RejectedShare(part, |parts|, rejects, kvs);
      if ok {
        forall j | 0 <= j < |parts| ensures after[j] == Seqs.PutAll(parts[j], Select(part, kvs, j)) {
          assert Taken(rejects, part, kvs, j) && PutInto(parts, kvs, j, after[j]);
        }
        ScatteredPutAll(part, parts, kvs, after);
      }
      StoredPlaced(part, parts, rejects, kvs, after);
      parts := after;
    }
  }

  function Puts(rejects: Bytes -> bool): Shuffle.Sink { Shuffle.Sink(None, rejects) }

  /** Partition j takes its whole share. */
  predicate Taken(rejects: Bytes -> bool, part: Bytes -> nat, kvs: seq<Pair>, j: nat)
  {
    Shuffle.Storable(Puts(rejects), Select(part, kvs, j))
  }

  /** A key that LMDB refuses shows in the share of its partition, and only there. */
  lemma RejectedShare(part: Bytes -> nat, n: nat, rejects: Bytes -> bool, kvs: seq<Pair>)
    requires Routes(part, n)
    ensures (forall j :: 0 <= j < n ==> Taken(rejects, part, kvs, j))
            <==> forall i :: 0 <= i < |kvs| ==> !rejects(kvs[i].key)
  {
    if forall i :: 0 <= i < |kvs| ==> !rejects(kvs[i].key) {
      forall j | 0 <= j < n ensures Taken(rejects, part, kvs, j) {
        SelectStorable(part, Puts(rejects), kvs, j);
      }
    } else {
      var i :| 0 <= i < |kvs| && rejects(kvs[i].key);
      var j := part(kvs[i].key);
      var m := SelectKeeps(part, kvs, i);
      assert Shuffle.Raises(Puts(rejects), Select(part, kvs, j)[m]);
      assert !Taken(rejects, part, kvs, j);
    }
  }

  lemma {:induction false} SelectKeeps(part: Bytes -> nat, kvs: seq<Pair>, i: nat) returns (m: nat)
    requires i < |kvs|
    ensures var share := Select(part, kvs, part(kvs[i].key)); m < |share| && share[m] == kvs[i]
  {
    if i == 0 {
      m := 0;
    } else {
      m := SelectKeeps(part, kvs[1..], i - 1);
      if part(kvs[0].key) == part(kvs[i].key) { m := m + 1; }
    }
  }

  /** Whatever part of its share a partition stores, its keys are its own. */
  lemma StoredPlaced(part: Bytes -> nat, parts: seq<Table>, rejects: Bytes -> bool, kvs: seq<Pair>, after: seq<Table>)
    requires Placed(part, parts) && |after| == |parts|
    requires forall j :: 0 <= j < |parts| ==>
               after[j] == PutAll(parts[j], Shuffle.Stored(Puts(rejects), Select(part, kvs, j)))
    ensures Placed(part, after)
  {
    forall j, k | 0 <= j < |after| && k in after[j] ensures part(k) == j {
      var share := Select(part, kvs, j);
      var ps := Shuffle.Stored(Puts(rejects), share);
      PutAllGet(parts[j], ps, k);
      HasValue(ps, k);
      if k !in parts[j] {
        var p :| p in ps && p.key == k;
        assert p in share;
        SelectOwn(part, kvs, j, p);
      }
    }
  }

  lemma {:induction false} SelectOwn(part: Bytes -> nat, kvs: seq<Pair>, j: nat, p: Pair)
    requires p in Select(part, kvs, j)
    ensures part(p.key) == j
  {
    if !(part(kvs[0].key) == j && p == kvs[0]) { SelectOwn(part, kvs[1..], j, p); }
  }

  /** One partition's share of a put_all: packed, sent, unpacked and stored, up to the
      first key that LMDB refuses. */
  method SendAndStore(share: seq<Pair>, sendbuf: nat, before: Table, rejects: Bytes -> bool) returns (ok: bool, after: Table)
    requires Carried(share) && HEADER_SIZE <= sendbuf
    ensures ok == Shuffle.Storable(Puts(rejects), share)
    ensures after == PutAll(before, Shuffle.Stored(Puts(rejects), share))
  {
    var fits, batches := PairToBinBatch(share, false, None, sendbuf, 0);
    RoundTrip(share, false, sendbuf);
    BatchesOpen(share, sendbuf, None);
    var failed, table, n := Shuffle.DoStore(batches, Puts(rejects), before);
    MergeAllPuts(Puts(rejects), before, Shuffle.Stored(Puts(rejects), share));
    ok, after := !failed, table;
  }

  lemma SelectCarried(part: Bytes -> nat, kvs: seq<Pair>, j: nat)
    requires Carried(kvs)
    ensures Carried(Select(part, kvs, j))
  {
    var ps := Select(part, kvs, j);
    forall i | 0 <= i < |ps| ensures Packable(ps[i]) && ps[i].key != [] { assert ps[i] in kvs; }
  }

  lemma BatchesOpen(ps: seq<Pair>, size: nat, limit: Option<int>)
    ensures var bs := Batches(ps, false, size, limit);
            forall i :: 0 <= i < |bs| ==> OpenBatch(bs[i]) == Opened
  {
    var gs := Groups(ps, false, size, limit, [], size, 0);
    GroupsArePrefix(ps, false, size, limit, [], size, 0);
    forall i | 0 <= i < |gs| ensures OpenBatch(EncodeBatch(gs[i])) == Opened {
      DecodeEncoded(gs[i], []);
      assert EncodeBatch(gs[i]) + [] == EncodeBatch(gs[i]);
    }
  }

  // --------------------------------------------------------------------------- take

  /** What get_all(limit) gathers from one partition; a negative limit is none. */
  function Gathered(items: seq<Pair>, size: nat, limit: int): seq<Pair>
  {
    DecodeBatches(Batches(items, false, size, if limit < 0 then None else Some(limit)))
  }

  /** A prefix of the listed pairs that reaches the limit or the end. */
  predicate Reaches(piece: seq<Pair>, items: seq<Pair>, limit: int)
  {
    piece <= items && Min(limit, |items|) <= |piece| && (limit < 0 ==> piece == items)
  }

  lemma GatheredPrefix(items: seq<Pair>, size: nat, limit: int)
    requires Carried(items)
    ensures Reaches(Gathered(items, size, limit), items, limit)
  {
    if limit < 0 {
      RoundTrip(items, false, size);
    } else {
      var gs := Groups(items, false, size, Some(limit), [], size, 0);
      GroupsArePrefix(items, false, size, Some(limit), [], size, 0);
      LimitBounds(items, size, limit, [], size, 0);
      assert [] + items == items;
      PrefixKeys(Flatten(gs), items);
      DecodeEncodeAll(gs);
    }
  }

  /** Exactly the limit, at least one, is gathered iff there are no more pairs or those
      within it fit the send buffer. */
  lemma GatheredExactly(items: seq<Pair>, size: nat, limit: int)
    requires Carried(items) && HEADER_SIZE <= size && 0 <= limit
    ensures var n := Max(limit, 1);
            |Gathered(items, size, limit)| == Min(n, |items|) <==> |items| <= n || |EncodeBatch(items[..n])| <= size
  {
    var gs := Groups(items, false, size, Some(limit), [], size, 0);
    GroupsArePrefix(items, false, size, Some(limit), [], size, 0);
    assert [] + items == items;
    PrefixKeys(Flatten(gs), items);
    DecodeEncodeAll(gs);
    LimitIsExact(items, size, limit);
  }

  /** Such a prefix of each partition. */
  ghost predicate PiecesOf(pieces: seq<seq<Pair>>, iters: seq<seq<Pair>>, limit: int)
  {
    |pieces| == |iters| && forall j :: 0 <= j < |pieces| ==> Reaches(pieces[j], iters[j], limit)
  }

  /** The iterators list the partitions, and the codec carries what they list. */
  ghost predicate Iterates(iters: seq<seq<Pair>>, parts: seq<Table>)
  {
    |iters| == |parts| && forall j :: 0 <= j < |parts| ==> IteratesOne(iters[j], parts[j])
  }

  ghost predicate IteratesOne(items: seq<Pair>, t: Table)
  {
    Lists(items, t) && |items| == |t| && Carried(items)
  }

  lemma PiecesAppend<T>(pieces: seq<seq<T>>, n: nat)
    requires 0 < n <= |pieces|
    ensures Flatten(pieces[..n]) == Flatten(pieces[..n - 1]) + pieces[n - 1]
  {
    assert pieces[..n] == pieces[..n - 1] + [pieces[n - 1]];
    FlattenAppend(pieces[..n - 1], pieces[n - 1]);
  }

  /** Together the pieces reach the limit or everything. */
  lemma {:induction false} GatherBounds(parts: seq<Table>, iters: seq<seq<Pair>>, pieces: seq<seq<Pair>>, limit: int, n: nat)
    requires n <= |parts| && 1 <= limit && Iterates(iters, parts) && PiecesOf(pieces, iters, limit)
    ensures Min(limit, SumSizes(parts, n)) <= |Flatten(pieces[..n])| <= SumSizes(parts, n)
    decreases n
  {
    if n != 0 {
      GatherBounds(parts, iters, pieces, limit, n - 1);
      assert IteratesOne(iters[n - 1], parts[n - 1]) && Reaches(pieces[n - 1], iters[n - 1], limit);
      PiecesAppend(pieces, n);
    }
  }

  /** Each pair of a piece is a pair of the table under its own key, once. */
  lemma {:induction false} GatherMembers(part: Bytes -> nat, parts: seq<Table>, iters: seq<seq<Pair>>, pieces: seq<seq<Pair>>, limit: int, n: nat)
    requires n <= |parts| && Iterates(iters, parts) && Placed(part, parts) && PiecesOf(pieces, iters, limit)
    ensures var g := Flatten(pieces[..n]);
            && DistinctKeys(g)
            && (forall p :: p in g ==> Lookup(Flatten(iters[..n]), p.key) == Some(p.value))
    decreases n
  {
    if n != 0 {
      GatherMembers(part, parts, iters, pieces, limit, n - 1);
      assert IteratesOne(iters[n - 1], parts[n - 1]) && Reaches(pieces[n - 1], iters[n - 1], limit);
      PiecesAppend(pieces, n);
      PrefixDistinct(pieces[n - 1], iters[n - 1]);
      DistinctBelow(part, parts, iters, n);
      GatherNext(Flatten(iters[..n - 1]), iters[n - 1], Flatten(pieces[..n - 1]), pieces[n - 1]);
    }
  }

  lemma DistinctBelow(part: Bytes -> nat, parts: seq<Table>, iters: seq<seq<Pair>>, n: nat)
    requires 0 < n <= |parts| && Iterates(iters, parts) && Placed(part, parts)
    ensures Flatten(iters[..n]) == Flatten(iters[..n - 1]) + iters[n - 1] && DistinctKeys(Flatten(iters[..n]))
  {
    forall j | 0 <= j < |parts| ensures Lists(iters[j], parts[j]) { assert IteratesOne(iters[j], parts[j]); }
    ItemsFlatten(part, parts, iters, n);
    PiecesAppend(iters, n);
  }

  lemma GatherNext(a: seq<Pair>, b: seq<Pair>, front: seq<Pair>, last: seq<Pair>)
    requires DistinctKeys(a + b) && DistinctKeys(front) && DistinctKeys(last) && last <= b
    requires forall p :: p in front ==> Lookup(a, p.key) == Some(p.value)
    ensures DistinctKeys(front + last)
    ensures forall p :: p in front + last ==> Lookup(a + b, p.key) == Some(p.value)
  {
    forall p: Pair | p in front + last ensures Lookup(a + b, p.key) == Some(p.value) {
      GatherMember(a, b, p);
    }
    forall x, y | 0 <= x < |front| && 0 <= y < |last| ensures front[x].key != last[y].key {
      GatherApart(a, b, front[x], last[y]);
    }
  }

  lemma GatherMember(a: seq<Pair>, b: seq<Pair>, p: Pair)
    requires DistinctKeys(a + b) && (Lookup(a, p.key) == Some(p.value) || p in b)
    ensures Lookup(a + b, p.key) == Some(p.value)
  {
    LookupConcat(a, b, p.key);
    if p in b {
      assert p in a + b;
      LookupDistinct(a + b, p);
    }
  }

  lemma GatherApart(a: seq<Pair>, b: seq<Pair>, p: Pair, q: Pair)
    requires DistinctKeys(a + b) && Lookup(a, p.key) == Some(p.value) && q in b
    ensures p.key != q.key
  {
    LookupFinds(a, p.key);
    var x :| 0 <= x < |a| && a[x].key == p.key;
    var y :| 0 <= y < |b| && b[y] == q;
    assert (a + b)[x] == a[x] && (a + b)[|a| + y] == b[y];
  }

  lemma {:induction false} LookupFinds(ps: seq<Pair>, k: Bytes)
    requires Lookup(ps, k).Some?
    ensures exists x :: 0 <= x < |ps| && ps[x].key == k
  {
    if ps[0].key != k {
      LookupFinds(ps[1..], k);
      var x :| 0 <= x < |ps[1..]| && ps[1..][x].key == k;
      assert ps[x + 1].key == k;
    }
  }

  lemma PrefixDistinct(a: seq<Pair>, b: seq<Pair>)
    requires a <= b && StrictlySorted(b)
    ensures DistinctKeys(a)
  {
    SortedDistinct(b);
    forall i, j | 0 <= i < j < |a| ensures a[i].key != a[j].key { assert a[i] == b[i] && a[j] == b[j]; }
  }

  /** One partition's share of a get_all: packed up to the limit and unpacked. */
  method GetPartition(items: seq<Pair>, size: nat, limit: int) returns (piece: seq<Pair>)
    requires HEADER_SIZE <= size
    ensures piece == Gathered(items, size, limit)
    ensures Carried(items) ==> Reaches(piece, items, limit)
  {
    var most := if limit < 0 then None else Some(limit);
    var ok, batches := PairToBinBatch(items, false, most, size, 0);
    BatchesOpen(items, size, most);
    var pairs, failed := BinBatchToPair(batches);
    piece := pairs;
    if Carried(items) {
      GatheredPrefix(items, size, limit);
    }
  }

  /** GetAll.submit: gather the partitions' batches in order and unpack them. */
  method GetAll(iters: seq<seq<Pair>>, size: nat, limit: int) returns (gathered: seq<Pair>, ghost pieces: seq<seq<Pair>>)
    requires HEADER_SIZE <= size && forall j :: 0 <= j < |iters| ==> Carried(iters[j])
    ensures gathered == Flatten(pieces) && PiecesOf(pieces, iters, limit)
    ensures limit < 0 ==> gathered == Flatten(iters)
  {
    gathered, pieces := [], [];
    for j := 0 to |iters|
      invariant gathered == Flatten(pieces) && |pieces| == j
      invariant forall i :: 0 <= i < j ==> Reaches(pieces[i], iters[i], limit)
    {
      var piece := GetPartition(iters[j], size, limit);
      FlattenAppend(pieces, piece);
      gathered, pieces := gathered + piece, pieces + [piece];
    }
    if limit < 0 {
      assert pieces == iters;
    }
  }

  /** The loop that keeps the first `want` of the gathered pairs. */
  method FirstOf(gathered: seq<Pair>, want: int) returns (ret: seq<Pair>)
    requires 1 <= want
    ensures ret == gathered[..Min(want, |gathered|)]
  {
    ret := [];
    var count := 0;
    for i := 0 to |gathered|
      invariant ret == gathered[..i] && count == i < want
    {
      ret := ret + [gathered[i]];
      count := count + 1;
      if count == want {
        break;
      }
    }
  }

  /** take(num) returns exactly min(max(num, 1), count) pairs of the table, with
      distinct keys, although a partition may be sent beyond its limit. */
  method Take(store: Store, iters: seq<seq<Pair>>, num: int, size: nat) returns (ret: seq<Pair>)
    requires store.Valid() && HEADER_SIZE <= size && Iterates(iters, store.parts)
    ensures |ret| == Min(Max(num, 1), |store.Map()|)
    ensures DistinctKeys(ret)
    ensures forall p :: p in ret ==> At(store.Map(), p.key) == Some(p.value)
  {
    var want := if num <= 0 then 1 else num;
    forall j | 0 <= j < |iters| ensures Carried(iters[j]) { assert IteratesOne(iters[j], store.parts[j]); }
    var gathered, pieces := GetAll(iters, size, want);
    ret := FirstOf(gathered, want);
    GatheredMeaning(store.part, store.parts, iters, pieces, want);
  }

  lemma GatheredMeaning(part: Bytes -> nat, parts: seq<Table>, iters: seq<seq<Pair>>, pieces: seq<seq<Pair>>, want: int)
    requires 1 <= want && Placed(part, parts) && Iterates(iters, parts) && PiecesOf(pieces, iters, want)
    ensures var g := Flatten(pieces);
            && Min(want, |g|) == Min(want, |Whole(parts)|)
            && DistinctKeys(g)
            && forall p :: p in g ==> At(Whole(parts), p.key) == Some(p.value)
  {
    GatherBounds(parts, iters, pieces, want, |iters|);
    GatherMembers(part, parts, iters, pieces, want, |iters|);
    ViewCount(part, parts);
    assert iters[..|iters|] == iters && pieces[..|iters|] == pieces;
    forall p: Pair | p in Flatten(pieces) ensures At(Whole(parts), p.key) == Some(p.value) {
      AllItems(part, parts, iters, p.key);
    }
  }

  lemma AllItems(part: Bytes -> nat, parts: seq<Table>, iters: seq<seq<Pair>>, k: Bytes)
    requires Placed(part, parts) && Iterates(iters, parts)
    ensures Lookup(Flatten(iters), k) == At(Whole(parts), k)
  {
    forall j | 0 <= j < |parts| ensures Lists(iters[j], parts[j]) { assert IteratesOne(iters[j], parts[j]); }
    ItemsFlatten(part, parts, iters, |iters|);
    assert iters[..|iters|] == iters;
  }
}
