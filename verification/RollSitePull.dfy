/** The receiving side of a roll site: every delivered packet is stored and counted,
    and completion is detected from the counters. */
module RollSitePull {
  import opened Bytes
  import opened Seqs
  import opened Format
  import opened RollSitePush
  import Shuffle
  import RollPair

  /** The counters of one tag, and the partition they describe. */
  datatype Status = Status(
    batchPairs: map<nat, nat>,     // batch seq -> pairs in it
    streamPairs: map<nat, nat>,    // stream seq -> pairs received for it, redeliveries included
    streamBatch: map<nat, nat>,    // stream seq -> batch seq received last
    done: bool, totalBatches: int, totalStreams: int,
    headerArrived: bool,
    table: Table)

  function Fresh(table: Table): Status { Status(map[], map[], map[], false, -1, -1, false, table) }

  function Counted(st: Status, h: Header, pairs: nat): Status
  {
    st.(headerArrived := true,
        batchPairs := st.batchPairs[h.batchSeq := pairs],
        streamPairs := st.streamPairs[h.streamSeq :=
                         (if h.streamSeq in st.streamPairs then st.streamPairs[h.streamSeq] else 0) + pairs],
        streamBatch := st.streamBatch[h.streamSeq := h.batchSeq])
  }

  function MarkedDone(st: Status, h: Header): Status
  {
    st.(totalBatches := h.totalBatches, totalStreams := h.totalStreams, done := true)
  }

  /** The pairs of one packet stored and counted. */
  function ReceivePairs(st: Status, h: Header, pairs: seq<Pair>): Status
  {
    var counted := Counted(st.(table := PutAll(st.table, pairs)), h, |pairs|);
    if h.finished then MarkedDone(counted, h) else counted
  }

  /** One packet through PutBatchTask.run. */
  function Receive(st: Status, p: Packet): Status
  {
    ReceivePairs(st, p.header, DecodeBatch(p.data))
  }

  function ReceiveAll(st: Status, ps: seq<Packet>): Status
    decreases |ps|
  {
    if ps == [] then st else ReceiveAll(Receive(st, ps[0]), ps[1..])
  }

  lemma {:induction false} ReceiveAllAppend(st: Status, ps: seq<Packet>, p: Packet)
    ensures ReceiveAll(st, ps + [p]) == Receive(ReceiveAll(st, ps), p)
    decreases |ps|
  {
    if ps != [] {
      assert (ps + [p])[1..] == ps[1..] + [p];
      ReceiveAllAppend(Receive(st, ps[0]), ps[1..], p);
    } else {
      assert [] + [p] == [p];
      assert ReceiveAll(Receive(st, p), []) == Receive(st, p);
    }
  }

  lemma ReceiveAllNext(st: Status, ps: seq<Packet>, i: nat)
    requires i < |ps|
    ensures ReceiveAll(st, ps[..i + 1]) == Receive(ReceiveAll(st, ps[..i]), ps[i])
  {
    assert ps[..i + 1] == ps[..i] + [ps[i]];
    ReceiveAllAppend(st, ps[..i], ps[i]);
  }

  predicate Finished(st: Status) { st.done && st.totalBatches == |st.batchPairs| }

  // ------------------------------------------------------------------ the status object

  class BatchStreamStatus {
    var stage: bool            // "done"?
    var totalBatches: int
    var totalStreams: int
    var batchSeqToPairCounter: map<nat, nat>
    var streamSeqToPairCounter: map<nat, nat>
    var streamSeqToBatchSeq: map<nat, nat>
    var streamFinishEvent: bool
    var headerArriveEvent: bool
    var isInOrder: bool

    function State(table: Table): Status
      reads this
    {
      Status(batchSeqToPairCounter, streamSeqToPairCounter, streamSeqToBatchSeq, stage, totalBatches, totalStreams,
             headerArriveEvent, table)
    }

    constructor ()
      ensures forall table :: State(table) == Fresh(table)
      ensures !streamFinishEvent && isInOrder
    {
      stage, totalBatches, totalStreams := false, -1, -1;
      batchSeqToPairCounter, streamSeqToPairCounter, streamSeqToBatchSeq := map[], map[], map[];
      streamFinishEvent, headerArriveEvent, isInOrder := false, false, true;
    }

    method CountBatch(h: Header, batchPairs: nat, ghost table: Table)
      modifies this
      ensures State(table) == Counted(old(State(table)), h, batchPairs)
      ensures headerArriveEvent && stage == old(stage) && totalBatches == old(totalBatches) && totalStreams == old(totalStreams)
      ensures batchSeqToPairCounter == old(batchSeqToPairCounter)[h.batchSeq := batchPairs]
      ensures streamSeqToBatchSeq == old(streamSeqToBatchSeq)[h.streamSeq := h.batchSeq]
      ensures streamFinishEvent == old(streamFinishEvent) && isInOrder == old(isInOrder)
    {
      if !headerArriveEvent {
        headerArriveEvent := true;
      }
      batchSeqToPairCounter := batchSeqToPairCounter[h.batchSeq := batchPairs];
      var soFar := if h.streamSeq in streamSeqToPairCounter then streamSeqToPairCounter[h.streamSeq] else 0;
      streamSeqToPairCounter := streamSeqToPairCounter[h.streamSeq := soFar + batchPairs];
      streamSeqToBatchSeq := streamSeqToBatchSeq[h.streamSeq := h.batchSeq];
    }

    method SetDone(h: Header, ghost table: Table)
      modifies this
      ensures State(table) == MarkedDone(old(State(table)), h)
      ensures stage && totalBatches == h.totalBatches && totalStreams == h.totalStreams
      ensures isInOrder == (old(isInOrder) && h.totalBatches == |old(batchSeqToPairCounter)|)
      ensures streamFinishEvent == old(streamFinishEvent)
    {
      totalBatches, totalStreams, stage := h.totalBatches, h.totalStreams, true;
      if totalBatches != |batchSeqToPairCounter| {
        isInOrder := false;
      }
    }

    method CheckFinish(ghost table: Table) returns (finished: bool)
      modifies this
      ensures finished == Finished(State(table)) && State(table) == old(State(table))
      ensures finished == (stage && |batchSeqToPairCounter| == totalBatches)
      ensures streamFinishEvent == (old(streamFinishEvent) || finished) && isInOrder == old(isInOrder)
    {
      finished := stage && totalBatches == |batchSeqToPairCounter|;
      if finished {
        streamFinishEvent := true;
      }
    }
  }

  /** The task accepts the data of a packet: none, or a batch that opens and whose keys
      LMDB takes. */
  predicate Accepts(rejects: Bytes -> bool, data: Bytes)
  {
    data == [] || (OpenBatch(data) == Opened && Shuffle.Storable(RollPair.Puts(rejects), DecodeBatch(data)))
  }

  /** In terms of keys: LMDB refuses none of the batch. */
  lemma AcceptsExactly(rejects: Bytes -> bool, data: Bytes)
    ensures Accepts(rejects, data) <==> data == [] || (OpenBatch(data) == Opened && forall p :: p in DecodeBatch(data) ==> !rejects(p.key))
  {
    var ps := DecodeBatch(data);
    if i :| 0 <= i < |ps| && Shuffle.Raises(RollPair.Puts(rejects), ps[i]) {
      assert ps[i] in ps;
    }
  }

  /** The pairs of a batch that are stored: up to the first refused key. */
  function Taken(rejects: Bytes -> bool, data: Bytes): seq<Pair>
  {
    Shuffle.Stored(RollPair.Puts(rejects), DecodeBatch(data))
  }

  /** One turn of PutBatchTask.run; false is the error of the reader or of wb.put, which
      leaves the counters alone and the pairs in front of it stored. */
  method ReceiveOne(bss: BatchStreamStatus, packet: Packet, before: Table, rejects: Bytes -> bool)
    returns (ok: bool, table: Table)
    modifies bss
    ensures ok == Accepts(rejects, packet.data)
    ensures ok ==> bss.State(table) == Receive(old(bss.State(before)), packet)
    ensures !ok ==> bss.State(before) == old(bss.State(before)) && table == PutAll(before, Taken(rejects, packet.data))
    ensures bss.streamFinishEvent == old(bss.streamFinishEvent)
  {
    table := before;
    var h, data := packet.header, packet.data;
    var pairs: seq<Pair> := [];
    if |data| != 0 {
      if OpenBatch(data) != Opened {
        return false, before;
      }
      var offset, negative;
      pairs, offset, negative := ReadAllInlined(data, HEADER_SIZE);
    }
    var raised;
    raised, table := StorePairs(pairs, table, rejects);
    if raised {
      return false, table;
    }
    bss.CountBatch(h, |pairs|, table);
    if h.finished {
      bss.SetDone(h, table);
    }
    ok := true;
  }

  /** wb.put for every pair of a batch. */
  method StorePairs(pairs: seq<Pair>, before: Table, rejects: Bytes -> bool) returns (raised: bool, table: Table)
    ensures raised == !Shuffle.Storable(RollPair.Puts(rejects), pairs)
    ensures table == PutAll(before, Shuffle.Stored(RollPair.Puts(rejects), pairs))
  {
    var done;
    raised, table, done := Shuffle.StoreAllPairs(pairs, RollPair.Puts(rejects), before);
    RollPair.MergeAllPuts(RollPair.Puts(rejects), before, Shuffle.Stored(RollPair.Puts(rejects), pairs));
  }

  predicate AllAccepted(rejects: Bytes -> bool, ps: seq<Packet>)
  {
    forall i :: 0 <= i < |ps| ==> Accepts(rejects, ps[i].data)
  }

  /** Packet n is the first one that is not accepted: the counters are those of the
      packets before it, and the partition also has what was stored of packet n. */
  ghost predicate StopsAt(rejects: Bytes -> bool, start: Status, ps: seq<Packet>, n: nat, now: Status)
  {
    && n < |ps| && AllAccepted(rejects, ps[..n]) && !Accepts(rejects, ps[n].data)
    && var st := ReceiveAll(start, ps[..n]);
       now == st.(table := PutAll(st.table, Taken(rejects, ps[n].data)))
  }

  /** PutBatchTask.run over the packets of one stream: store every pair, count every
      batch, and check for completion once the stream is drained. */
  method RunPutBatch(bss: BatchStreamStatus, packets: seq<Packet>, before: Table, rejects: Bytes -> bool)
    returns (ok: bool, table: Table, finished: bool)
    modifies bss
    ensures ok <==> AllAccepted(rejects, packets)
    ensures ok ==> bss.State(table) == ReceiveAll(old(bss.State(before)), packets) && finished == Finished(bss.State(table))
    ensures bss.streamFinishEvent == (old(bss.streamFinishEvent) || finished)
    ensures !ok ==> !finished && exists n :: StopsAt(rejects, old(bss.State(before)), packets, n, bss.State(table))
  {
    finished := false;
    ok, table := StoreAll(bss, packets, before, rejects);
    if ok {
      finished := bss.CheckFinish(table);
    }
  }

  /** The loop over the packets. */
  method StoreAll(bss: BatchStreamStatus, packets: seq<Packet>, before: Table, rejects: Bytes -> bool)
    returns (ok: bool, table: Table)
    modifies bss
    ensures ok <==> AllAccepted(rejects, packets)
    ensures ok ==> bss.State(table) == ReceiveAll(old(bss.State(before)), packets)
    ensures !ok ==> exists n :: StopsAt(rejects, old(bss.State(before)), packets, n, bss.State(table))
    ensures bss.streamFinishEvent == old(bss.streamFinishEvent)
  {
    table, ok := before, true;
    ghost var start := bss.State(before);
    assert packets[..0] == [];
    for i := 0 to |packets|
      invariant ok && bss.State(table) == ReceiveAll(start, packets[..i])
      invariant bss.streamFinishEvent == old(bss.streamFinishEvent)
      invariant AllAccepted(rejects, packets[..i])
    {
      ReceiveAllNext(start, packets, i);
      NextAccepted(rejects, packets, i);
      ok, table := ReceiveOne(bss, packets[i], table, rejects);
      if !ok {
        assert StopsAt(rejects, start, packets, i, bss.State(table));
        return;
      }
    }
    assert packets[..|packets|] == packets;
  }

  lemma NextAccepted(rejects: Bytes -> bool, ps: seq<Packet>, i: nat)
    requires i < |ps| && AllAccepted(rejects, ps[..i])
    ensures Accepts(rejects, ps[i].data) <==> AllAccepted(rejects, ps[..i + 1])
    ensures !Accepts(rejects, ps[i].data) ==> !AllAccepted(rejects, ps)
  {
    assert ps[..i + 1] == ps[..i] + [ps[i]];
  }
}
