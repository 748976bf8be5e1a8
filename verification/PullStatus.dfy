/** The pulling side's view of all receiving partitions: the finish event of each, and
    the totals over them. */
module PullStatus {
  import opened Bytes
  import opened Seqs
  import opened BinBatch
  import opened RollSitePush
  import opened RollSitePull
  import opened PullCompletion

  /** What a receiving partition answers when its status is asked for. */
  datatype Answer = Answer(partition: nat, finished: bool, totalBatches: int, totalPairs: nat)

  function Batched(answers: seq<Answer>): int
  {
    if answers == [] then 0 else Batched(answers[..|answers| - 1]) + answers[|answers| - 1].totalBatches
  }

  function Paired(answers: seq<Answer>): nat
  {
    if answers == [] then 0 else Paired(answers[..|answers| - 1]) + answers[|answers| - 1].totalPairs
  }

  /** PullGetPartitionStatus.submit, over the answers in completion order. */
  method CollectStatus(answers: seq<Answer>)
    returns (status: map<nat, Answer>, allFinished: bool, totalBatches: int, totalPairs: nat)
    ensures allFinished <==> forall i :: 0 <= i < |answers| ==> answers[i].finished
    ensures totalBatches == Batched(answers) && totalPairs == Paired(answers)
    ensures status.Keys == set i | 0 <= i < |answers| :: answers[i].partition
    ensures forall p :: p in status ==> status[p] in answers && status[p].partition == p
  {
    status, allFinished, totalBatches, totalPairs := map[], true, 0, 0;
    for i := 0 to |answers|
      invariant allFinished <==> forall n :: 0 <= n < i ==> answers[n].finished
      invariant totalBatches == Batched(answers[..i]) && totalPairs == Paired(answers[..i])
      invariant status.Keys == set n | 0 <= n < i :: answers[n].partition
      invariant forall p :: p in status ==> status[p] in answers && status[p].partition == p
    {
      assert answers[..i + 1][..i] == answers[..i];
      if !answers[i].finished {
        allFinished := false;
      }
      status := status[answers[i].partition := answers[i]];
      totalBatches := totalBatches + answers[i].totalBatches;
      totalPairs := totalPairs + answers[i].totalPairs;
    }
    assert answers[..|answers|] == answers;
  }

  lemma {:induction false} ReceiveAllConcat(st: Status, a: seq<Packet>, b: seq<Packet>)
    ensures ReceiveAll(st, a + b) == ReceiveAll(ReceiveAll(st, a), b)
    decreases |a|
  {
    if a == [] {
      assert a + b == b;
    } else {
      assert (a + b)[1..] == a[1..] + b;
      ReceiveAllConcat(Receive(st, a[0]), a[1..], b);
    }
  }

  lemma {:induction false} CountedGrow(st: Status, ps: seq<Packet>)
    ensures st.batchPairs.Keys <= ReceiveAll(st, ps).batchPairs.Keys
    decreases |ps|
  {
    if ps != [] { CountedGrow(Receive(st, ps[0]), ps[1..]); }
  }

  /** Completion is stable: redelivery after it leaves it, the partition and the total
      as they were, so the finish event, which is never cleared, stays true to them. */
  lemma CompletionIsStable(batches: seq<Bytes>, first: seq<Packet>, later: seq<Packet>)
    requires DistinctKeys(DecodeBatches(batches))
    requires forall i :: 0 <= i < |first| ==> Genuine(batches, first[i])
    requires forall i :: 0 <= i < |later| ==> Genuine(batches, later[i])
    requires Finished(ReceiveAll(Fresh(map[]), first))
    ensures var was, now := ReceiveAll(Fresh(map[]), first), ReceiveAll(Fresh(map[]), first + later);
            && Finished(now) && now.table == was.table
            && SumOf(now.batchPairs) == SumOf(was.batchPairs) && now.totalBatches == was.totalBatches
  {
    AllStayCounted(batches, first, later);
    CompletionIsExact(batches, first);
    CompletionIsExact(batches, first + later);
    AllCounted(batches, first);
    AllCounted(batches, first + later);
  }

  lemma AllStayCounted(batches: seq<Bytes>, first: seq<Packet>, later: seq<Packet>)
    requires DistinctKeys(DecodeBatches(batches))
    requires forall i :: 0 <= i < |first| ==> Genuine(batches, first[i])
    requires Finished(ReceiveAll(Fresh(map[]), first))
    ensures batches != []
    ensures forall b :: 1 <= b <= |batches| ==> b in ReceiveAll(Fresh(map[]), first + later).batchPairs
  {
    CompletionIsExact(batches, first);
    StayCounted(first, later);
  }

  lemma StayCounted(first: seq<Packet>, later: seq<Packet>)
    ensures forall b :: b in ReceiveAll(Fresh(map[]), first).batchPairs ==> b in ReceiveAll(Fresh(map[]), first + later).batchPairs
  {
    var st := ReceiveAll(Fresh(map[]), first);
    ReceiveAllConcat(Fresh(map[]), first, later);
    CountedGrow(st, later);
    assert forall b :: b in st.batchPairs ==> b in st.batchPairs.Keys;
  }

  lemma AllCounted(batches: seq<Bytes>, received: seq<Packet>)
    requires forall i :: 0 <= i < |received| ==> Genuine(batches, received[i])
    requires Finished(ReceiveAll(Fresh(map[]), received)) && DistinctKeys(DecodeBatches(batches))
    ensures ReceiveAll(Fresh(map[]), received).totalBatches == |batches|
  {
    ReceiveAllKeepsInv(batches, Fresh(map[]), received);
  }

  /** Sum of lengths of the first n of some sequences. */
  function Lengths<T>(xss: seq<seq<T>>, n: nat): nat
    requires n <= |xss|
  {
    if n == 0 then 0 else Lengths(xss, n - 1) + |xss[n - 1]|
  }

  /** Packets of a push of these batches, and the pairs in them. */
  ghost predicate ReceivedFrom(batches: seq<Bytes>, pairs: seq<Pair>, received: seq<Packet>)
  {
    && pairs == DecodeBatches(batches) && DistinctKeys(pairs)
    && forall i :: 0 <= i < |received| ==> Genuine(batches, received[i])
  }

  /** A finished answer of a partition that received these packets. */
  ghost predicate Answers(a: Answer, received: seq<Packet>)
  {
    var st := ReceiveAll(Fresh(map[]), received);
    a.finished && Finished(st) && a.totalBatches == st.totalBatches && a.totalPairs == SumOf(st.batchPairs)
  }

  lemma AnswerIsExact(batches: seq<Bytes>, pairs: seq<Pair>, received: seq<Packet>, a: Answer)
    requires ReceivedFrom(batches, pairs, received) && Answers(a, received)
    ensures a.totalBatches == |batches| && a.totalPairs == |pairs|
  {
    CompletionIsExact(batches, received);
    AllCounted(batches, received);
  }

  lemma AnswersAreExact(pushed: seq<seq<Bytes>>, pairs: seq<seq<Pair>>, received: seq<seq<Packet>>, answers: seq<Answer>)
    requires |pushed| == |pairs| == |received| == |answers|
    requires forall p :: 0 <= p < |pushed| ==> ReceivedFrom(pushed[p], pairs[p], received[p])
    requires forall p :: 0 <= p < |answers| ==> Answers(answers[p], received[p])
    ensures forall p :: 0 <= p < |answers| ==> answers[p].totalBatches == |pushed[p]| && answers[p].totalPairs == |pairs[p]|
  {
    forall p | 0 <= p < |answers| ensures answers[p].totalBatches == |pushed[p]| && answers[p].totalPairs == |pairs[p]| {
      AnswerIsExact(pushed[p], pairs[p], received[p], answers[p]);
    }
  }

  /** A pull of a whole table: when all partitions have finished, the totals are the
      numbers of batches and pairs pushed to them. The partitions are listed in the
      order of their answers. */
  lemma TotalsAreExact(pushed: seq<seq<Bytes>>, pairs: seq<seq<Pair>>, received: seq<seq<Packet>>, answers: seq<Answer>)
    requires |pushed| == |pairs| == |received| == |answers|
    requires forall p :: 0 <= p < |pushed| ==> ReceivedFrom(pushed[p], pairs[p], received[p])
    requires forall p :: 0 <= p < |answers| ==> Answers(answers[p], received[p])
    ensures Paired(answers) == Lengths(pairs, |pairs|) && Batched(answers) == Lengths(pushed, |pushed|)
  {
    AnswersAreExact(pushed, pairs, received, answers);
    Sums(pushed, pairs, answers);
  }

  lemma Sums(pushed: seq<seq<Bytes>>, pairs: seq<seq<Pair>>, answers: seq<Answer>)
    requires |pushed| == |pairs| == |answers|
    requires forall p :: 0 <= p < |answers| ==> answers[p].totalBatches == |pushed[p]| && answers[p].totalPairs == |pairs[p]|
    ensures Paired(answers) == Lengths(pairs, |pairs|) && Batched(answers) == Lengths(pushed, |pushed|)
  {
    SumsUpTo(pushed, pairs, answers, |answers|);
    assert answers[..|answers|] == answers;
  }

  lemma {:induction false} SumsUpTo(pushed: seq<seq<Bytes>>, pairs: seq<seq<Pair>>, answers: seq<Answer>, n: nat)
    requires |pushed| == |pairs| == |answers| && n <= |answers|
    requires forall p :: 0 <= p < |answers| ==> answers[p].totalBatches == |pushed[p]| && answers[p].totalPairs == |pairs[p]|
    ensures Paired(answers[..n]) == Lengths(pairs, n) && Batched(answers[..n]) == Lengths(pushed, n)
  {
    if n != 0 {
      SumsUpTo(pushed, pairs, answers, n - 1);
      assert answers[..n][..n - 1] == answers[..n - 1];
    }
  }
}
