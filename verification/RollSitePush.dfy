/** The pushing side of a roll site: batches are cut into streams, and the packets
    of each stream are numbered afresh on every attempt to push it. */
module RollSitePush {
  import opened Bytes
  import opened Seqs

  // ------------------------------------------------------------------- stream cutting

  /** chunk_batch_stream, drained: at most batchesPerStream batches from the peeked one
      on. `peek` is the batch looked at already, `at` the position of the batch
      iterator; the last result says whether the iterator ended. */
  method ChunkBatchStream(batches: seq<Bytes>, peek: Bytes, at: nat, batchesPerStream: int)
    returns (stream: seq<Bytes>, peek': Bytes, at': nat, finish: bool)
    requires 0 < at <= |batches| && batches[at - 1] == peek
    ensures at <= at' <= |batches|
    ensures finish ==> stream == batches[at - 1..] && at' == |batches| && |stream| <= Max(batchesPerStream, 1)
    ensures !finish ==> at < at' && stream == batches[at - 1..at' - 1] && peek' == batches[at' - 1]
                        && |stream| == Max(batchesPerStream, 1)
  {
    stream, peek', at', finish := [], peek, at, false;
    var cur, i := peek, 0;
    while i < batchesPerStream - 1 && !finish
      invariant at' == at + i <= |batches| && cur == batches[at' - 1] && stream == batches[at - 1..at' - 1]
      invariant 0 <= i <= Max(batchesPerStream - 1, 0)
      invariant finish ==> at' == |batches|
      decreases batchesPerStream - 1 - i, !finish
    {
      if at' == |batches| {
        finish := true;
      } else {
        stream := stream + [cur];
        cur, at', i := batches[at'], at' + 1, i + 1;
      }
    }
    if !finish {
      if at' == |batches| {
        finish := true;
      } else {
        peek', at' := batches[at'], at' + 1;
      }
    }
    stream := stream + [cur];
  }

  /** _generate_batch_streams: the streams in order, with the finish flag as it stands
      after each is drained. */
  method GenerateBatchStreams(batches: seq<Bytes>, batchesPerStream: int)
    returns (streams: seq<seq<Bytes>>, finishes: seq<bool>)
    ensures CutInto(streams, batches, Max(batchesPerStream, 1))
    ensures |finishes| == |streams| && forall s :: 0 <= s < |streams| ==> (finishes[s] <==> s == |streams| - 1)
    ensures streams == [] <==> batches == []
  {
    streams, finishes := [], [];
    if |batches| == 0 {
      return;
    }
    var peek, at, finish := batches[0], 1, false;
    assert batches[..0] == [];
    while !finish
      invariant 0 < at <= |batches|
      invariant !finish ==> peek == batches[at - 1] && Flatten(streams) == batches[..at - 1]
      invariant finish ==> Flatten(streams) == batches && streams != []
      invariant forall s :: 0 <= s < |streams| ==> 1 <= |streams[s]| <= Max(batchesPerStream, 1)
      invariant forall s :: 0 <= s < |streams| - (if finish then 1 else 0) ==> |streams[s]| == Max(batchesPerStream, 1)
      invariant |finishes| == |streams|
      invariant forall s :: 0 <= s < |streams| ==> (finishes[s] <==> finish && s == |streams| - 1)
      decreases |batches| - at, !finish
    {
      var stream;
      ghost var from := at - 1;
      stream, peek, at, finish := ChunkBatchStream(batches, peek, at, batchesPerStream);
      FlattenAppend(streams, stream);
      assert batches[..from] + batches[from..] == batches;
      assert !finish ==> batches[..from] + batches[from..at - 1] == batches[..at - 1];
      streams, finishes := streams + [stream], finishes + [finish];
    }
  }

  // ------------------------------------------------------------------ packet numbering

  /** The part of the roll site header that changes while a partition is pushed. */
  datatype Header = Header(batchSeq: nat, streamSeq: nat, finished: bool, totalBatches: int, totalStreams: int)

  datatype Packet = Packet(header: Header, data: Bytes)

  /** The helper's state: header, finish flag and the snapshot taken at attempt 0. */
  datatype Helper = Helper(header: Header, finish: bool, lastBatch: nat, lastStream: nat) {

    /** What a packet generator does when it is first pulled: attempt 0 remembers the
        sequence numbers, a retry goes back to them. */
    function Begin(retry: nat): Helper
    {
      if retry == 0 then this.(lastBatch := header.batchSeq, lastStream := header.streamSeq)
      else this.(header := header.(batchSeq := lastBatch, streamSeq := lastStream))
    }

    /** Before each packet; `last` for the last one of the stream. */
    function Advance(last: bool): Helper
    {
      var h := header.(batchSeq := header.batchSeq + 1);
      if last && finish then
        this.(header := h.(finished := true, totalStreams := h.streamSeq, totalBatches := h.batchSeq))
      else this.(header := h)
    }
  }

  /** The packet bodies of a stream: an empty batch in front of the last one is skipped,
      and a stream without batches is one packet without a body. */
  function Sent(data: seq<Bytes>): (bodies: seq<Bytes>)
    ensures bodies != []
    ensures data != [] && (forall i :: 0 <= i < |data| ==> data[i] != []) ==> bodies == data
  {
    if data == [] then [[]]
    else if |data| == 1 then data
    else
      assert data == [data[0]] + data[1..];
      (if data[0] == [] then [] else [data[0]]) + Sent(data[1..])
  }

  function NonEmptyOnes(data: seq<Bytes>): seq<Bytes>
  {
    if data == [] then [] else (if data[0] == [] then [] else [data[0]]) + NonEmptyOnes(data[1..])
  }

  lemma SentCons(x: Bytes, front: seq<Bytes>, last: Bytes)
    requires Sent(front + [last]) == NonEmptyOnes(front) + [last]
    ensures Sent([x] + front + [last]) == NonEmptyOnes([x] + front) + [last]
  {
    var data := [x] + front + [last];
    assert data[1..] == front + [last] && ([x] + front)[1..] == front;
  }

  /** The bodies by what they are: the non-empty batches in front of the last, in order,
      and then the last, whatever it is; one empty body if there is no batch. */
  lemma {:induction false} SentIsFiltered(data: seq<Bytes>)
    ensures Sent(data) == if data == [] then [[]] else NonEmptyOnes(data[..|data| - 1]) + [data[|data| - 1]]
    decreases |data|
  {
    if 2 <= |data| {
      var n := |data| - 1;
      SentIsFiltered(data[1..]);
      assert data[1..] == data[1..n] + [data[n]] && data[1..][..n - 1] == data[1..n];
      SentCons(data[0], data[1..n], data[n]);
      assert data == [data[0]] + data[1..n] + [data[n]] && data[..n] == [data[0]] + data[1..n];
    }
  }

  /** The helper after n packets of a begun generator over `data`, and the packets. */
  function Pulled(x: Helper, data: seq<Bytes>, n: nat): (r: (Helper, seq<Packet>))
    requires n <= |data|
    ensures |r.1| == n
  {
    if n == 0 then (x, [])
    else
      var (y, ps) := Pulled(x, data, n - 1);
      var z := y.Advance(n == |data|);
      (z, ps + [Packet(z.header, data[n - 1])])
  }

  lemma PulledNext(begun: Helper, all: seq<Bytes>, x: Helper, packets: seq<Packet>)
    requires |packets| < |all| && (x, packets) == Pulled(begun, all, |packets|)
    ensures var y := x.Advance(|packets| + 1 == |all|);
            Pulled(begun, all, |packets| + 1) == (y, packets + [Packet(y.header, all[|packets|])])
  {
  }

  /** The loop of generate_packet at data[i], with `prev` held back: x has sent `packets`
      of the bodies, and what is left is prev and the rest. */
  ghost predicate Sending(begun: Helper, all: seq<Bytes>, x: Helper, packets: seq<Packet>, prev: Bytes, data: seq<Bytes>, i: nat)
    requires i <= |data|
  {
    && |packets| < |all| && (x, packets) == Pulled(begun, all, |packets|)
    && if i == 0 then prev == [] && packets == [] && all == Sent(data) else all[|packets|..] == Sent([prev] + data[i..])
  }

  lemma SendNext(begun: Helper, all: seq<Bytes>, x: Helper, packets: seq<Packet>, prev: Bytes, data: seq<Bytes>, i: nat)
    requires i < |data| && Sending(begun, all, x, packets, prev, data, i)
    ensures prev == [] ==> Sending(begun, all, x, packets, data[i], data, i + 1)
    ensures prev != [] ==>
              var y := x.Advance(false);
              Sending(begun, all, y, packets + [Packet(y.header, prev)], data[i], data, i + 1)
  {
    var n := |packets|;
    SentTurn(all, n, prev, data, i);
    if prev != [] {
      PulledNext(begun, all, x, packets);
    }
  }

  /** What is left to send after `prev` was held back and data[i] is taken. */
  lemma SentTurn(all: seq<Bytes>, n: nat, prev: Bytes, data: seq<Bytes>, i: nat)
    requires i < |data| && n < |all|
    requires if i == 0 then prev == [] && n == 0 && all == Sent(data) else all[n..] == Sent([prev] + data[i..])
    ensures var m := if prev == [] then n else n + 1;
            && m < |all| && all[m..] == Sent([data[i]] + data[i + 1..])
            && (prev != [] ==> all[n] == prev)
  {
    assert data[i..] == [data[i]] + data[i + 1..];
    if i != 0 {
      var left := [prev] + data[i..];
      assert left[1..] == data[i..];
      if prev != [] {
        assert all[n..] == [prev] + Sent(data[i..]);
        assert all[n] == all[n..][0] && all[n + 1..] == all[n..][1..];
      }
    } else {
      assert data[0..] == data && all[0..] == all;
    }
  }

  /** At the end of the loop only the batch held back is left. */
  lemma SendLast(begun: Helper, all: seq<Bytes>, x: Helper, packets: seq<Packet>, prev: Bytes, data: seq<Bytes>)
    requires Sending(begun, all, x, packets, prev, data, |data|)
    ensures |packets| == |all| - 1
    ensures var y := x.Advance(true); (y, packets + [Packet(y.header, prev)]) == Pulled(begun, all, |all|)
  {
    var n := |packets|;
    assert [prev] + data[|data|..] == [prev];
    assert data != [] ==> all[n..] == [prev] && all[n] == all[n..][0];
    PulledNext(begun, all, x, packets);
  }

  class BatchStreamHelper {
    var header: Header
    var finishPartition: bool
    var lastBatchSeq: nat
    var lastStreamSeq: nat

    function State(): Helper
      reads this
    {
      Helper(header, finishPartition, lastBatchSeq, lastStreamSeq)
    }

    constructor (header: Header)
      ensures State() == Helper(header.(batchSeq := 0, streamSeq := 0), false, 0, 0)
    {
      this.header := header.(batchSeq := 0, streamSeq := 0);
      finishPartition, lastBatchSeq, lastStreamSeq := false, 0, 0;
    }

    /** generate_packet, pulled `pulls` times and then abandoned or exhausted. A generator
        that is never pulled does nothing. The loop holds one batch back, so the last
        batch of the stream is sent after it. */
    method GeneratePacket(data: seq<Bytes>, curRetry: nat, pulls: nat) returns (packets: seq<Packet>)
      modifies this
      ensures (State(), packets) ==
                if pulls == 0 then (old(State()), [])
                else Pulled(old(State()).Begin(curRetry), Sent(data), Min(pulls, |Sent(data)|))
    {
      if pulls == 0 {
        return [];
      }
      if curRetry == 0 {
        lastBatchSeq, lastStreamSeq := header.batchSeq, header.streamSeq;
      } else {
        header := header.(batchSeq := lastBatchSeq, streamSeq := lastStreamSeq);
      }
      packets := SendAll(data, pulls);
    }

    /** The body of the generator, once its numbers are set. */
    method SendAll(data: seq<Bytes>, pulls: nat) returns (packets: seq<Packet>)
      requires 0 < pulls
      modifies this
      ensures (State(), packets) == Pulled(old(State()), Sent(data), Min(pulls, |Sent(data)|))
    {
      ghost var begun, all := State(), Sent(data);
      packets := [];
      var prev: Bytes := [];
      for i := 0 to |data|
        invariant |packets| < pulls && Sending(begun, all, State(), packets, prev, data, i)
      {
        ghost var x := State();
        SendNext(begun, all, x, packets, prev, data, i);
        if prev != [] {
          var packet := Encode(prev, false);
          packets := packets + [packet];
          assert Sending(begun, all, State(), packets, data[i], data, i + 1);
          if |packets| == pulls {
            return;
          }
        }
        prev := data[i];
      }
      ghost var x := State();
      SendLast(begun, all, x, packets, prev, data);
      var packet := Encode(prev, true);
      packets := packets + [packet];
    }

    /** The next packet; the last one of the last stream is marked with the totals. */
    method Encode(body: Bytes, last: bool) returns (packet: Packet)
      modifies this
      ensures State() == old(State()).Advance(last) && packet == Packet(State().header, body)
    {
      header := header.(batchSeq := header.batchSeq + 1);
      if last && finishPartition {
        header := header.(finished := true, totalStreams := header.streamSeq, totalBatches := header.batchSeq);
      }
      packet := Packet(header, body);
    }
  }
}
