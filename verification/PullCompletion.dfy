/** Completion of a pull is exact: whatever the network loses, repeats or reorders, the
    receiver reports completion if and only if it has every batch, and then it holds
    exactly what was pushed. */
module PullCompletion {
  import opened Bytes
  import opened Seqs
  import opened Format
  import opened BinBatch
  import opened RollSitePush
  import opened RollSitePull
  import opened SortedMerge
  import opened Tables
  import opened GroupBy
  import PushRun

  /** A packet of the push of these batches, on any attempt. */
  predicate Genuine(batches: seq<Bytes>, p: Packet)
  {
    var h := p.header;
    && 1 <= h.batchSeq <= |batches|
    && p.data == batches[h.batchSeq - 1]
    && (h.finished ==> h.totalBatches == |batches|)
    && (h.batchSeq == |batches| ==> h.finished)
  }

  /** Only the last packet of the last stream has the last batch number. */
  lemma LastPosition(streams: seq<seq<Bytes>>, s: nat, p: nat)
    requires s < |streams| && p < |streams[s]| && forall i :: 0 <= i < |streams| ==> streams[i] != []
    requires PushRun.Before(streams, s) + p + 1 == |Flatten(streams)|
    ensures s == |streams| - 1 && p == |streams[s]| - 1
  {
    PushRun.BeforeNext(streams, s);
    FlattenConcat(streams[..s + 1], streams[s + 1..]);
    assert streams[..s + 1] + streams[s + 1..] == streams;
  }

  /** Every packet of a push whose numbering is right is genuine. */
  lemma PushedPackets(batches: seq<Bytes>, streams: seq<seq<Bytes>>, n: nat, steps: seq<PushRun.Step>, t: PushRun.State, i: nat)
    requires CutInto(streams, batches, n)
    requires PushRun.Run(streams, PushRun.Init(-1, -1), steps, t) && !t.late && i < |t.net|
    ensures Genuine(batches, t.net[i].packet)
  {
    PushRun.BatchNumbersAreRight(streams, -1, -1, steps, t);
    var e := t.net[i];
    assert PushRun.BatchNumbered(streams, e) && PushRun.TotalRight(streams, e);
    FlattenIndex(streams, e.stream, e.pos);
    if e.packet.header.batchSeq == |batches| {
      LastPosition(streams, e.stream, e.pos);
    }
  }

  // --------------------------------------------------------------- what is held

  /** The pairs of each batch. */
  function Contents(batches: seq<Bytes>): (gs: seq<seq<Pair>>)
    ensures |gs| == |batches|
    ensures forall i :: 0 <= i < |gs| ==> gs[i] == DecodeBatch(batches[i])
  {
    if batches == [] then [] else [DecodeBatch(batches[0])] + Contents(batches[1..])
  }

  lemma {:induction false} ContentsFlatten(batches: seq<Bytes>)
    ensures Flatten(Contents(batches)) == DecodeBatches(batches)
  {
    if batches != [] {
      ContentsFlatten(batches[1..]);
      assert Contents(batches)[1..] == Contents(batches[1..]);
    }
  }

  /** p is a pair of batch b. */
  predicate InBatch(gs: seq<seq<Pair>>, b: nat, p: Pair)
  {
    1 <= b <= |gs| && p in gs[b - 1]
  }

  lemma {:induction false} InBatchIsMember(gs: seq<seq<Pair>>, b: nat, p: Pair)
    requires InBatch(gs, b, p)
    ensures p in Flatten(gs)
  {
    if b != 1 { InBatchIsMember(gs[1..], b - 1, p); }
  }

  lemma {:induction false} MemberIsInBatch(gs: seq<seq<Pair>>, p: Pair) returns (b: nat)
    requires p in Flatten(gs)
    ensures InBatch(gs, b, p)
  {
    if p in gs[0] {
      b := 1;
    } else {
      var b' := MemberIsInBatch(gs[1..], p);
      b := b' + 1;
    }
  }

  lemma SameKeySamePair(ps: seq<Pair>, p: Pair, q: Pair)
    requires DistinctKeys(ps) && p in ps && q in ps && p.key == q.key
    ensures p == q
  {
    var i :| 0 <= i < |ps| && ps[i] == p;
    var j :| 0 <= j < |ps| && ps[j] == q;
  }

  /** The partition holds the pairs of the counted batches. */
  ghost predicate HoldsAllOf(gs: seq<seq<Pair>>, counted: set<nat>, table: Table)
  {
    forall b, p :: b in counted && InBatch(gs, b, p) ==> At(table, p.key) == Some(p.value)
  }

  /** The partition holds nothing else. */
  ghost predicate HoldsOnly(gs: seq<seq<Pair>>, counted: set<nat>, table: Table)
  {
    forall k :: k in table ==> exists b, p :: b in counted && InBatch(gs, b, p) && p.key == k
  }

  lemma PutAllMember(m: Table, ps: seq<Pair>, all: seq<Pair>, k: Bytes)
    requires DistinctKeys(all) && forall p :: p in ps ==> p in all
    ensures forall p :: p in ps && p.key == k ==> At(PutAll(m, ps), k) == Some(p.value)
    ensures (forall p :: p in ps ==> p.key != k) ==> At(PutAll(m, ps), k) == At(m, k)
  {
    PutAllGet(m, ps, k);
    HasValue(ps, k);
    ValuesAreMembers(ps, k);
    forall p | p in ps && p.key == k ensures At(PutAll(m, ps), k) == Some(p.value) {
      var vs := Values(ps, k);
      assert p.key in KeysOf(ps);
      assert vs[|vs| - 1] in vs;
      SameKeySamePair(all, p, Pair(k, vs[|vs| - 1]));
    }
  }

  lemma {:induction false} ValuesAreMembers(ps: seq<Pair>, k: Bytes)
    ensures forall v :: v in Values(ps, k) ==> Pair(k, v) in ps
  {
    if ps != [] { ValuesAreMembers(ps[1..], k); }
  }

  /** Storing pairs of the table's push leaves what is stored, and adds the pairs. */
  lemma StoringAdds(table: Table, ps: seq<Pair>, all: seq<Pair>, p: Pair)
    requires DistinctKeys(all) && (forall q :: q in ps ==> q in all) && p in all
    requires p in ps || At(table, p.key) == Some(p.value)
    ensures At(PutAll(table, ps), p.key) == Some(p.value)
  {
    PutAllMember(table, ps, all, p.key);
    if q: Pair :| q in ps && q.key == p.key {
      SameKeySamePair(all, p, q);
    }
  }

  lemma BatchInAll(gs: seq<seq<Pair>>, b: nat)
    requires 1 <= b <= |gs|
    ensures forall p :: p in gs[b - 1] ==> p in Flatten(gs)
  {
    forall p: Pair | p in gs[b - 1] ensures p in Flatten(gs) {
      InBatchIsMember(gs, b, p);
    }
  }

  /** Batch b has been stored and counted. */
  ghost predicate Stored(gs: seq<seq<Pair>>, b: nat, counted: set<nat>, table: Table, counted': set<nat>, table': Table)
  {
    1 <= b <= |gs| && counted' == counted + {b} && table' == PutAll(table, gs[b - 1])
  }

  lemma StoringHolds(gs: seq<seq<Pair>>, b: nat, counted: set<nat>, table: Table, counted': set<nat>, table': Table)
    requires Stored(gs, b, counted, table, counted', table') && DistinctKeys(Flatten(gs))
    requires HoldsAllOf(gs, counted, table)
    ensures HoldsAllOf(gs, counted', table')
  {
    BatchInAll(gs, b);
    forall b': nat, p: Pair | b' in counted' && InBatch(gs, b', p) ensures At(table', p.key) == Some(p.value) {
      InBatchIsMember(gs, b', p);
      StoringAdds(table, gs[b - 1], Flatten(gs), p);
    }
  }

  lemma StoringHoldsOnly(gs: seq<seq<Pair>>, b: nat, counted: set<nat>, table: Table, counted': set<nat>, table': Table)
    requires Stored(gs, b, counted, table, counted', table') && DistinctKeys(Flatten(gs))
    requires HoldsOnly(gs, counted, table)
    ensures HoldsOnly(gs, counted', table')
  {
    var ps := gs[b - 1];
    BatchInAll(gs, b);
    forall k | k in table' ensures exists b', p :: b' in counted' && InBatch(gs, b', p) && p.key == k {
      PutAllMember(table, ps, Flatten(gs), k);
      if q: Pair :| q in ps && q.key == k {
        assert InBatch(gs, b, q);
      } else {
        assert k in table;
        var b', p :| b' in counted && InBatch(gs, b', p) && p.key == k;
      }
    }
  }

  // ------------------------------------------------------------------- the invariant

  /** The counters hold the sizes of batches of the push. */
  ghost predicate CountsOk(gs: seq<seq<Pair>>, counts: map<nat, nat>)
  {
    forall b :: b in counts ==> 1 <= b <= |gs| && counts[b] == |gs[b - 1]|
  }

  /** The counters and the totals. */
  ghost predicate CountInv(gs: seq<seq<Pair>>, st: Status)
  {
    && CountsOk(gs, st.batchPairs)
    && (st.done ==> st.totalBatches == |gs|)
    && (|gs| in st.batchPairs ==> st.done)
  }

  /** The partition holds the pairs of the counted batches and nothing else. */
  ghost predicate HoldInv(gs: seq<seq<Pair>>, st: Status)
  {
    HoldsAllOf(gs, st.batchPairs.Keys, st.table) && HoldsOnly(gs, st.batchPairs.Keys, st.table)
  }

  ghost predicate Inv(gs: seq<seq<Pair>>, st: Status) { CountInv(gs, st) && HoldInv(gs, st) }

  /** The header of a packet of the push. */
  predicate Heads(gs: seq<seq<Pair>>, h: Header)
  {
    && 1 <= h.batchSeq <= |gs|
    && (h.finished ==> h.totalBatches == |gs|) && (h.batchSeq == |gs| ==> h.finished)
  }

  lemma ReceiveKeepsCounts(gs: seq<seq<Pair>>, st: Status, h: Header)
    requires CountInv(gs, st) && Heads(gs, h)
    ensures CountInv(gs, ReceivePairs(st, h, gs[h.batchSeq - 1]))
  {
  }

  lemma ReceiveKeepsHolds(gs: seq<seq<Pair>>, st: Status, h: Header)
    requires HoldInv(gs, st) && DistinctKeys(Flatten(gs)) && Heads(gs, h)
    ensures HoldInv(gs, ReceivePairs(st, h, gs[h.batchSeq - 1]))
  {
    var st' := ReceivePairs(st, h, gs[h.batchSeq - 1]);
    StoringHolds(gs, h.batchSeq, st.batchPairs.Keys, st.table, st'.batchPairs.Keys, st'.table);
    StoringHoldsOnly(gs, h.batchSeq, st.batchPairs.Keys, st.table, st'.batchPairs.Keys, st'.table);
  }

  lemma ReceiveKeepsInv(batches: seq<Bytes>, st: Status, p: Packet)
    requires Inv(Contents(batches), st) && DistinctKeys(DecodeBatches(batches)) && Genuine(batches, p)
    ensures Inv(Contents(batches), Receive(st, p))
  {
    ContentsFlatten(batches);
    ReceiveKeepsCounts(Contents(batches), st, p.header);
    ReceiveKeepsHolds(Contents(batches), st, p.header);
  }

  lemma {:induction false} ReceiveAllKeepsInv(batches: seq<Bytes>, st: Status, ps: seq<Packet>)
    requires Inv(Contents(batches), st) && DistinctKeys(DecodeBatches(batches))
    requires forall i :: 0 <= i < |ps| ==> Genuine(batches, ps[i])
    ensures Inv(Contents(batches), ReceiveAll(st, ps))
    decreases |ps|
  {
    if ps != [] {
      assert Genuine(batches, ps[0]);
      ReceiveKeepsInv(batches, st, ps[0]);
      ReceiveAllKeepsInv(batches, Receive(st, ps[0]), ps[1..]);
    }
  }

  // --------------------------------------------------------------------- completion

  function UpTo(n: nat): (s: set<nat>)
    ensures forall b :: b in s <==> 1 <= b <= n
    ensures |s| == n
  {
    if n == 0 then {} else UpTo(n - 1) + {n}
  }

  lemma SubsetOfSize(a: set<nat>, b: set<nat>)
    requires a <= b && |a| == |b|
    ensures a == b
  {
    if x :| x in b && x !in a {
      assert a <= b - {x};
      SubsetSize(a, b - {x});
    }
  }

  lemma {:induction false} SubsetSize(a: set<nat>, b: set<nat>)
    requires a <= b
    ensures |a| <= |b|
    decreases a
  {
    if a != {} {
      var x :| x in a;
      SubsetSize(a - {x}, b - {x});
    }
  }

  /** sum(counter.values()). */
  ghost function SumOf(m: map<nat, nat>): nat
    decreases m.Keys
  {
    if m == map[] then 0
    else
      assert m.Keys != {};
      var k :| k in m.Keys;
      m[k] + SumOf(m - {k})
  }

  lemma {:induction false} SumOfPick(m: map<nat, nat>, k: nat)
    requires k in m
    ensures SumOf(m) == m[k] + SumOf(m - {k})
    decreases m.Keys
  {
    assert m != map[];
    var x :| x in m.Keys && SumOf(m) == m[x] + SumOf(m - {x});
    if x != k {
      SumOfPick(m - {x}, k);
      SumOfPick(m - {k}, x);
      assert m - {x} - {k} == m - {k} - {x};
    }
  }

  function SumUpTo(m: map<nat, nat>, n: nat): nat
    requires forall b :: 1 <= b <= n ==> b in m
  {
    if n == 0 then 0 else SumUpTo(m, n - 1) + m[n]
  }

  lemma {:induction false} SumUpToFrame(m: map<nat, nat>, m': map<nat, nat>, n: nat)
    requires forall b :: 1 <= b <= n ==> b in m && b in m' && m[b] == m'[b]
    ensures SumUpTo(m, n) == SumUpTo(m', n)
  {
    if n != 0 { SumUpToFrame(m, m', n - 1); }
  }

  lemma {:induction false} SumOfRange(m: map<nat, nat>, n: nat)
    requires m.Keys == UpTo(n)
    ensures SumOf(m) == SumUpTo(m, n)
    decreases n
  {
    if n == 0 {
      assert m == map[];
    } else {
      SumOfPick(m, n);
      var rest := m - {n};
      assert rest.Keys == UpTo(n - 1);
      SumOfRange(rest, n - 1);
      SumUpToFrame(m, rest, n - 1);
    }
  }

  lemma {:induction false} SumOfCounts(gs: seq<seq<Pair>>, m: map<nat, nat>, n: nat)
    requires n <= |gs| && forall b :: 1 <= b <= n ==> b in m && m[b] == |gs[b - 1]|
    ensures SumUpTo(m, n) == |Flatten(gs[..n])|
  {
    if n != 0 {
      SumOfCounts(gs, m, n - 1);
      assert gs[..n] == gs[..n - 1] + [gs[n - 1]];
      FlattenAppend(gs[..n - 1], gs[n - 1]);
    }
  }

  lemma HoldsAll(gs: seq<seq<Pair>>, table: Table)
    requires DistinctKeys(Flatten(gs)) && HoldsAllOf(gs, UpTo(|gs|), table) && HoldsOnly(gs, UpTo(|gs|), table)
    ensures table == PutAll(map[], Flatten(gs))
  {
    var all := Flatten(gs);
    forall k ensures At(table, k) == At(PutAll(map[], all), k) {
      PutAllMember(map[], all, all, k);
      if p: Pair :| p in all && p.key == k {
        var b := MemberIsInBatch(gs, p);
      } else if k in table {
        var b: nat, p :| b in UpTo(|gs|) && InBatch(gs, b, p) && p.key == k;
        InBatchIsMember(gs, b, p);
      }
    }
    SameTable(table, PutAll(map[], all));
  }

  /** Exact completion. The receiver of an empty partition processes any sequence of
      packets taken from a push, in any order and with any repetition. It reports
      completion exactly when there is a batch and all batches 1..T are counted; then
      the partition holds exactly the pushed pairs and the total is their number. */
  lemma CompletionIsExact(batches: seq<Bytes>, received: seq<Packet>)
    requires DistinctKeys(DecodeBatches(batches))
    requires forall i :: 0 <= i < |received| ==> Genuine(batches, received[i])
    ensures var st := ReceiveAll(Fresh(map[]), received);
            && (Finished(st) <==> |batches| != 0 && forall b :: 1 <= b <= |batches| ==> b in st.batchPairs)
            && (Finished(st) ==>
                  && st.table == PutAll(map[], DecodeBatches(batches))
                  && SumOf(st.batchPairs) == |DecodeBatches(batches)|)
  {
    var st := ReceiveAll(Fresh(map[]), received);
    ReceiveAllKeepsInv(batches, Fresh(map[]), received);
    NeverDoneEmpty(batches, received);
    ContentsFlatten(batches);
    FinishedWhen(Contents(batches), st);
    if Finished(st) {
      FinishedMeans(Contents(batches), st);
    }
  }

  lemma FinishedWhen(gs: seq<seq<Pair>>, st: Status)
    requires Inv(gs, st) && (|gs| == 0 ==> !st.done)
    ensures Finished(st) <==> |gs| != 0 && forall b :: 1 <= b <= |gs| ==> b in st.batchPairs
    ensures Finished(st) ==> st.batchPairs.Keys == UpTo(|gs|)
  {
    var all := UpTo(|gs|);
    assert st.batchPairs.Keys <= all;
    if Finished(st) {
      SubsetOfSize(st.batchPairs.Keys, all);
    }
    if |gs| != 0 && forall b :: 1 <= b <= |gs| ==> b in st.batchPairs {
      assert st.batchPairs.Keys == all;
    }
  }

  lemma FinishedMeans(gs: seq<seq<Pair>>, st: Status)
    requires Inv(gs, st) && st.batchPairs.Keys == UpTo(|gs|) && DistinctKeys(Flatten(gs))
    ensures st.table == PutAll(map[], Flatten(gs))
    ensures SumOf(st.batchPairs) == |Flatten(gs)|
  {
    HoldsAll(gs, st.table);
    SumOfRange(st.batchPairs, |gs|);
    SumOfCounts(gs, st.batchPairs, |gs|);
    assert gs[..|gs|] == gs;
  }

  lemma NeverDoneEmpty(batches: seq<Bytes>, received: seq<Packet>)
    requires forall i :: 0 <= i < |received| ==> Genuine(batches, received[i])
    ensures |batches| == 0 ==> !ReceiveAll(Fresh(map[]), received).done
  {
    if received != [] {
      assert Genuine(batches, received[0]);
    }
  }

  /** The same, from the push itself: every run of attempts in which no retry of a later
      stream overtook the stream's first attempt, and every delivery of the generated
      packets. */
  lemma PushedTableArrives(pairs: seq<Pair>, size: nat, batchesPerStream: nat, streams: seq<seq<Bytes>>,
                           steps: seq<PushRun.Step>, t: PushRun.State, picks: seq<nat>, received: seq<Packet>)
    requires Carried(pairs) && DistinctKeys(pairs)
    requires CutInto(streams, Batches(pairs, false, size, None), batchesPerStream)
    requires PushRun.Run(streams, PushRun.Init(-1, -1), steps, t) && !t.late
    requires |picks| == |received| && forall i :: 0 <= i < |picks| ==> picks[i] < |t.net| && received[i] == t.net[picks[i]].packet
    ensures var st := ReceiveAll(Fresh(map[]), received);
            var total := |Batches(pairs, false, size, None)|;
            && (Finished(st) <==> forall b :: 1 <= b <= total ==> b in st.batchPairs)
            && (Finished(st) ==> st.table == PutAll(map[], pairs) && SumOf(st.batchPairs) == |pairs|)
  {
    var batches := Batches(pairs, false, size, None);
    RoundTrip(pairs, false, size);
    AtLeastOneBatch(pairs, size);
    forall i | 0 <= i < |received| ensures Genuine(batches, received[i]) {
      PushedPackets(batches, streams, batchesPerStream, steps, t, picks[i]);
    }
    CompletionIsExact(batches, received);
  }

  /** Every batch number is some position of some stream. */
  lemma {:induction false} PositionOf(streams: seq<seq<Bytes>>, b: nat) returns (s: nat, p: nat)
    requires 1 <= b <= |Flatten(streams)|
    ensures s < |streams| && p < |streams[s]| && PushRun.Before(streams, s) + p + 1 == b
    decreases |streams|
  {
    if b <= |streams[0]| {
      s, p := 0, b - 1;
      assert streams[..0] == [];
    } else {
      var s', p' := PositionOf(streams[1..], b - |streams[0]|);
      s, p := s' + 1, p';
      assert streams[..s][0] == streams[0] && streams[..s][1..] == streams[1..][..s'];
    }
  }

  /** A push without a late retry has succeeded, and each packet it generated has been
      received at least once, in any order and perhaps again. */
  ghost predicate FullyDelivered(batches: seq<Bytes>, streams: seq<seq<Bytes>>, n: nat,
                                 steps: seq<PushRun.Step>, t: PushRun.State, received: seq<Packet>)
  {
    && CutInto(streams, batches, n)
    && PushRun.Run(streams, PushRun.Init(-1, -1), steps, t) && !t.late
    && t.phase == PushRun.Between && t.stream == |streams|
    && (forall i :: 0 <= i < |received| ==> Genuine(batches, received[i]))
    && (forall i :: 0 <= i < |t.net| ==> t.net[i].packet in received)
  }

  /** Completion is reached after full delivery, and the receiving tasks fail on none of
      the packets iff they accept every batch of the push. */
  lemma FullDeliveryCompletes(batches: seq<Bytes>, streams: seq<seq<Bytes>>, n: nat,
                              steps: seq<PushRun.Step>, t: PushRun.State, received: seq<Packet>, rejects: Bytes -> bool)
    requires DistinctKeys(DecodeBatches(batches)) && batches != []
    requires FullyDelivered(batches, streams, n, steps, t, received)
    ensures Finished(ReceiveAll(Fresh(map[]), received))
    ensures AllAccepted(rejects, received) <==> forall i :: 0 <= i < |batches| ==> Accepts(rejects, batches[i])
  {
    CompletionIsExact(batches, received);
    DeliveredCounted(batches, streams, n, steps, t, received);
    DeliveredAccepted(batches, streams, n, steps, t, received, rejects);
  }

  lemma DeliveredCounted(batches: seq<Bytes>, streams: seq<seq<Bytes>>, n: nat,
                         steps: seq<PushRun.Step>, t: PushRun.State, received: seq<Packet>)
    requires FullyDelivered(batches, streams, n, steps, t, received)
    ensures forall b :: 1 <= b <= |batches| ==> b in ReceiveAll(Fresh(map[]), received).batchPairs
  {
    forall b | 1 <= b <= |batches| ensures b in ReceiveAll(Fresh(map[]), received).batchPairs {
      var p := PacketOf(streams, steps, t, b);
      CountedStays(Fresh(map[]), received, p);
    }
  }

  lemma DeliveredAccepted(batches: seq<Bytes>, streams: seq<seq<Bytes>>, n: nat,
                          steps: seq<PushRun.Step>, t: PushRun.State, received: seq<Packet>, rejects: Bytes -> bool)
    requires FullyDelivered(batches, streams, n, steps, t, received)
    ensures AllAccepted(rejects, received) <==> forall i :: 0 <= i < |batches| ==> Accepts(rejects, batches[i])
  {
    if AllAccepted(rejects, received) {
      forall i | 0 <= i < |batches| ensures Accepts(rejects, batches[i]) {
        var p := PacketOf(streams, steps, t, i + 1);
        var r :| 0 <= r < |received| && received[r] == p;
        assert Genuine(batches, received[r]) && Accepts(rejects, received[r].data);
      }
    } else {
      var r :| 0 <= r < |received| && !Accepts(rejects, received[r].data);
      assert Genuine(batches, received[r]);
    }
  }

  lemma PacketOf(streams: seq<seq<Bytes>>, steps: seq<PushRun.Step>, t: PushRun.State, b: nat) returns (p: Packet)
    requires PushRun.Run(streams, PushRun.Init(-1, -1), steps, t) && !t.late
    requires t.phase == PushRun.Between && t.stream == |streams| && 1 <= b <= |Flatten(streams)|
    ensures p.header.batchSeq == b && exists i :: 0 <= i < |t.net| && t.net[i].packet == p
  {
    var s, pos := PositionOf(streams, b);
    PushRun.FinishedPushGeneratesAll(streams, -1, -1, steps, t, s, pos);
    PushRun.BatchNumbersAreRight(streams, -1, -1, steps, t);
    var i :| 0 <= i < |t.net| && t.net[i].stream == s && t.net[i].pos == pos;
    assert PushRun.BatchNumbered(streams, t.net[i]);
    p := t.net[i].packet;
  }

  lemma {:induction false} CountedStays(st: Status, received: seq<Packet>, p: Packet)
    requires p in received || p.header.batchSeq in st.batchPairs
    ensures p.header.batchSeq in ReceiveAll(st, received).batchPairs
    decreases |received|
  {
    if received != [] {
      CountedStays(Receive(st, received[0]), received[1..], p);
    }
  }

  // ---------------------------------------------------------------- false completion

  /** A delivery: any of the generated packets, in any order and with repetition. */
  function Delivered(t: PushRun.State, picks: seq<nat>): (received: seq<Packet>)
    requires forall i :: 0 <= i < |picks| ==> picks[i] < |t.net|
    ensures |received| == |picks| && forall i :: 0 <= i < |picks| ==> received[i] == t.net[picks[i]].packet
  {
    seq(|picks|, i requires 0 <= i < |picks| => t.net[picks[i]].packet)
  }

  /** A delivery of fewer packets than there are batches is reported complete. */
  ghost predicate CompletesFalsely(t: PushRun.State, picks: seq<nat>, total: nat)
  {
    && (forall i :: 0 <= i < |picks| ==> picks[i] < |t.net|)
    && |picks| < total && Finished(ReceiveAll(Fresh(map[]), Delivered(t, picks)))
  }

  lemma {:induction false} CountedAtMost(st: Status, ps: seq<Packet>)
    ensures |ReceiveAll(st, ps).batchPairs| <= |st.batchPairs| + |ps|
    decreases |ps|
  {
    if ps != [] {
      CountedAtMost(Receive(st, ps[0]), ps[1..]);
    }
  }

  /** Packets numbered 1..n in order count exactly 1..n. */
  lemma {:induction false} CountsInOrder(ps: seq<Packet>)
    requires forall i :: 0 <= i < |ps| ==> ps[i].header.batchSeq == i + 1
    ensures ReceiveAll(Fresh(map[]), ps).batchPairs.Keys == UpTo(|ps|)
  {
    if ps != [] {
      var n := |ps| - 1;
      CountsInOrder(ps[..n]);
      assert ps == ps[..n] + [ps[n]];
      ReceiveAllAppend(Fresh(map[]), ps[..n], ps[n]);
      var st := ReceiveAll(Fresh(map[]), ps[..n]);
      assert Receive(st, ps[n]).batchPairs.Keys == st.batchPairs.Keys + {n + 1};
    }
  }

  lemma {:induction false} PickInOrder(t: PushRun.State, n: nat) returns (picks: seq<nat>)
    requires forall b :: 1 <= b <= n ==> PushRun.NumberSent(t, b)
    ensures |picks| == n && forall i :: 0 <= i < n ==> picks[i] < |t.net| && t.net[picks[i]].packet.header.batchSeq == i + 1
  {
    picks := [];
    if n != 0 {
      picks := PickInOrder(t, n - 1);
      assert PushRun.NumberSent(t, n);
      var i :| 0 <= i < |t.net| && t.net[i].packet.header.batchSeq == n;
      picks := picks + [i];
    }
  }

  /** A finished push with a late retry: the packets numbered up to the total it
      announces are too few, and complete the pull. */
  lemma LatePushCompletesFalsely(streams: seq<seq<Bytes>>, steps: seq<PushRun.Step>, t: PushRun.State) returns (picks: seq<nat>)
    requires PushRun.Run(streams, PushRun.Init(-1, -1), steps, t)
    requires t.phase == PushRun.Between && t.stream == |streams| && t.late
    ensures CompletesFalsely(t, picks, |Flatten(streams)|)
  {
    PushRun.LatePushAnnouncesFewer(streams, -1, -1, steps, t);
    var last := |t.net| - 1;
    var h := t.net[last].packet.header;
    var front := PickInOrder(t, h.batchSeq - 1);
    picks := front + [last];
    var received := Delivered(t, picks);
    CountsInOrder(received);
    assert received == received[..|front|] + [t.net[last].packet];
    ReceiveAllAppend(Fresh(map[]), received[..|front|], t.net[last].packet);
  }

  /** Completion can be trusted exactly when no late retry happened: for every finished
      push of batches with distinct keys, some delivery of fewer packets than batches
      is reported complete iff a retry of a stream after the first was pulled before
      that stream's first attempt. */
  lemma CompletionIsTrustworthy(batches: seq<Bytes>, streams: seq<seq<Bytes>>, n: nat, steps: seq<PushRun.Step>, t: PushRun.State)
    requires CutInto(streams, batches, n) && DistinctKeys(DecodeBatches(batches))
    requires PushRun.Run(streams, PushRun.Init(-1, -1), steps, t)
    requires t.phase == PushRun.Between && t.stream == |streams|
    ensures (exists picks :: CompletesFalsely(t, picks, |batches|)) <==> t.late
  {
    if t.late {
      var picks := LatePushCompletesFalsely(streams, steps, t);
      assert CompletesFalsely(t, picks, |batches|);
    } else {
      forall picks ensures !CompletesFalsely(t, picks, |batches|) {
        if CompletesFalsely(t, picks, |batches|) {
          NoFalseCompletion(batches, streams, n, steps, t, picks);
        }
      }
    }
  }

  lemma NoFalseCompletion(batches: seq<Bytes>, streams: seq<seq<Bytes>>, n: nat, steps: seq<PushRun.Step>, t: PushRun.State, picks: seq<nat>)
    requires CutInto(streams, batches, n) && DistinctKeys(DecodeBatches(batches))
    requires PushRun.Run(streams, PushRun.Init(-1, -1), steps, t) && !t.late
    requires forall i :: 0 <= i < |picks| ==> picks[i] < |t.net|
    requires Finished(ReceiveAll(Fresh(map[]), Delivered(t, picks)))
    ensures |batches| <= |picks|
  {
    var received := Delivered(t, picks);
    forall i | 0 <= i < |received| ensures Genuine(batches, received[i]) {
      PushedPackets(batches, streams, n, steps, t, picks[i]);
    }
    CompletionIsExact(batches, received);
    CountedAtMost(Fresh(map[]), received);
    var keys := ReceiveAll(Fresh(map[]), received).batchPairs.Keys;
    assert UpTo(|batches|) <= keys;
    SubsetSize(UpTo(|batches|), keys);
  }

  /** Silent loss: two streams of one batch each, the second retried before its first
      attempt started. Its one packet completes the pull, and the partition then holds
      the second batch only. */
  lemma LateRetryLoses(b1: Bytes, b2: Bytes) returns (steps: seq<PushRun.Step>, t: PushRun.State)
    ensures PushRun.Run([[b1], [b2]], PushRun.Init(-1, -1), steps, t) && t.phase == PushRun.Between && t.stream == 2
    ensures |t.net| == 2
    ensures var st := ReceiveAll(Fresh(map[]), [t.net[1].packet]);
            Finished(st) && st.table == PutAll(map[], DecodeBatch(b2))
  {
    steps, t := PushRun.LateRetry(b1, b2);
    var p := t.net[1].packet;
    assert [p][1..] == [];
    assert ReceiveAll(Receive(Fresh(map[]), p), []) == Receive(Fresh(map[]), p);
    assert Receive(Fresh(map[]), p).batchPairs == map[1 := |DecodeBatch(b2)|];
  }
}
