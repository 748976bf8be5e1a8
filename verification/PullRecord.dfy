/** What the status of a pull records about any packets received, field by field. */
module PullRecord {
  import opened Bytes
  import opened Format
  import opened RollSitePush
  import opened RollSitePull
  import PushRun

  /** Received packet i is the last one that satisfies a property. */
  ghost predicate LastWith(received: seq<Packet>, holds: Packet -> bool, i: nat)
  {
    && i < |received| && holds(received[i])
    && forall j :: i < j < |received| ==> !holds(received[j])
  }

  ghost predicate SomeWith(received: seq<Packet>, holds: Packet -> bool)
  {
    exists i :: 0 <= i < |received| && holds(received[i])
  }

  function OfStream(s: nat): Packet -> bool { (p: Packet) => p.header.streamSeq == s }

  function IsFinished(): Packet -> bool { (p: Packet) => p.header.finished }

  /** The pairs received for a stream, redeliveries included. */
  function PairsOf(received: seq<Packet>, s: nat): nat
  {
    if received == [] then 0
    else
      var n := |received| - 1;
      PairsOf(received[..n], s) + if received[n].header.streamSeq == s then |DecodeBatch(received[n].data)| else 0
  }

  /** The last packet, or the packets before it. */
  lemma LastSplits(received: seq<Packet>, holds: Packet -> bool)
    requires received != []
    ensures var n := |received| - 1;
            && (SomeWith(received, holds) <==> holds(received[n]) || SomeWith(received[..n], holds))
            && forall i: nat :: LastWith(received, holds, i) ==> if holds(received[n]) then i == n else LastWith(received[..n], holds, i)
  {
    var n := |received| - 1;
    if SomeWith(received[..n], holds) {
      var i :| 0 <= i < n && holds(received[..n][i]);
      assert holds(received[i]);
    }
    if SomeWith(received, holds) && !holds(received[n]) {
      var i :| 0 <= i < |received| && holds(received[i]);
      assert holds(received[..n][i]);
    }
    forall i: nat | LastWith(received, holds, i) && !holds(received[n]) ensures LastWith(received[..n], holds, i) {
      assert forall j :: 0 <= j < n ==> received[..n][j] == received[j];
    }
  }

  lemma ReceiveLast(table: Table, received: seq<Packet>)
    requires received != []
    ensures var n := |received| - 1;
            ReceiveAll(Fresh(table), received) == Receive(ReceiveAll(Fresh(table), received[..n]), received[n])
  {
    var n := |received| - 1;
    assert received == received[..n] + [received[n]];
    ReceiveAllAppend(Fresh(table), received[..n], received[n]);
  }

  /** The header event is set by the first packet. */
  lemma HeaderArrives(table: Table, received: seq<Packet>)
    ensures ReceiveAll(Fresh(table), received).headerArrived <==> received != []
  {
    if received != [] { ReceiveLast(table, received); }
  }

  /** For every stream of which a packet was received, the batch number of its last packet
      is recorded. */
  lemma {:induction false} StreamBatchesRecorded(table: Table, received: seq<Packet>, s: nat)
    ensures var m := ReceiveAll(Fresh(table), received).streamBatch;
            && (s in m <==> SomeWith(received, OfStream(s)))
            && forall i: nat :: LastWith(received, OfStream(s), i) ==> s in m && m[s] == received[i].header.batchSeq
    decreases |received|
  {
    if received != [] {
      var n := |received| - 1;
      StreamBatchesRecorded(table, received[..n], s);
      LastSplits(received, OfStream(s));
      ReceiveLast(table, received);
    }
  }

  /** And the number of its pairs, counted again on every redelivery. */
  lemma {:induction false} StreamPairsRecorded(table: Table, received: seq<Packet>, s: nat)
    ensures var m := ReceiveAll(Fresh(table), received).streamPairs;
            && (s in m <==> SomeWith(received, OfStream(s)))
            && PairsOf(received, s) == if s in m then m[s] else 0
    decreases |received|
  {
    if received != [] {
      var n := |received| - 1;
      StreamPairsRecorded(table, received[..n], s);
      LastSplits(received, OfStream(s));
      ReceiveLast(table, received);
    }
  }

  /** The pull is done once a finished packet was received, and the totals are those of
      the last one. */
  lemma {:induction false} TotalsRecorded(table: Table, received: seq<Packet>)
    ensures var st := ReceiveAll(Fresh(table), received);
            && (st.done <==> SomeWith(received, IsFinished()))
            && forall i: nat :: LastWith(received, IsFinished(), i) ==>
                 st.totalBatches == received[i].header.totalBatches && st.totalStreams == received[i].header.totalStreams
    decreases |received|
  {
    if received != [] {
      var n := |received| - 1;
      TotalsRecorded(table, received[..n]);
      LastSplits(received, IsFinished());
      ReceiveLast(table, received);
    }
  }

  lemma {:induction false} LastExists(received: seq<Packet>, holds: Packet -> bool) returns (i: nat)
    requires SomeWith(received, holds)
    ensures LastWith(received, holds, i)
  {
    var n := |received| - 1;
    if holds(received[n]) {
      i := n;
    } else {
      LastSplits(received, holds);
      i := LastExists(received[..n], holds);
      assert forall j :: 0 <= j < n ==> received[..n][j] == received[j];
    }
  }

  /** The stream total of a completed pull is true: for every push without a stale retry
      and every delivery of its packets. */
  lemma StreamTotalIsTrue(streams: seq<seq<Bytes>>, steps: seq<PushRun.Step>, t: PushRun.State,
                          table: Table, picks: seq<nat>, received: seq<Packet>)
    requires PushRun.Run(streams, PushRun.Init(-1, -1), steps, t) && !t.stale
    requires |picks| == |received| && forall i :: 0 <= i < |picks| ==> picks[i] < |t.net| && received[i] == t.net[picks[i]].packet
    ensures var st := ReceiveAll(Fresh(table), received); Finished(st) ==> st.totalStreams == |streams|
  {
    var st := ReceiveAll(Fresh(table), received);
    if Finished(st) {
      TotalsRecorded(table, received);
      var i := LastExists(received, IsFinished());
      PushRun.NumberingIsRetrySafe(streams, -1, -1, steps, t);
      assert PushRun.MarkedRight(streams, t.net[picks[i]]);
    }
  }
}
