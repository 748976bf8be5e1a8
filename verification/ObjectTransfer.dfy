/** Pushing a byte string through a roll site and pulling it back: chunked under
    numbered keys, sent and stored as pairs, sorted by number and joined. */
module ObjectTransfer {
  import opened Bytes
  import opened Seqs
  import opened Format
  import opened BinBatch
  import opened RollSitePush
  import opened RollSitePull
  import opened SortedMerge
  import opened Tables
  import opened GroupBy
  import opened PullCompletion
  import RollPair
  import PushRun

  // ------------------------------------------------------------------------ chunking

  /** The pairs _generate_obj_bytes yields for the rest of the object from chunk `id`
      on, up to the point where id.to_bytes(width, "big") overflows. */
  function Chunks(rest: Bytes, id: nat, body: nat, width: nat): (ps: seq<Pair>)
    requires 0 < body
    decreases |rest|
  {
    if Capacity(width) <= id then []
    else if |rest| < body then [Pair(BigEndian(id, width), rest)]
    else [Pair(BigEndian(id, width), rest[..body])] + Chunks(rest[body..], id + 1, body, width)
  }

  /** The generator ends with OverflowError. */
  predicate Overflows(rest: Bytes, id: nat, body: nat, width: nat)
    requires 0 < body
    decreases |rest|
  {
    Capacity(width) <= id || (body <= |rest| && Overflows(rest[body..], id + 1, body, width))
  }

  lemma Slices(obj: Bytes, at: nat, n: nat)
    requires at + n <= |obj|
    ensures obj[at..][..n] == obj[at..at + n] && obj[at..][n..] == obj[at + n..]
  {
  }

  /** One turn of the chunking loop. */
  lemma ChunkTurn(rest: Bytes, id: nat, body: nat, width: nat, done: seq<Pair>)
    requires 0 < body && id < Capacity(width)
    ensures |rest| < body ==>
              !Overflows(rest, id, body, width) && done + Chunks(rest, id, body, width) == done + [Pair(BigEndian(id, width), rest)]
    ensures body <= |rest| ==>
              && Overflows(rest, id, body, width) == Overflows(rest[body..], id + 1, body, width)
              && done + Chunks(rest, id, body, width)
                 == done + [Pair(BigEndian(id, width), rest[..body])] + Chunks(rest[body..], id + 1, body, width)
  {
  }

  /** What is left to yield after the chunks before `pos`. */
  predicate Remaining(pairs: seq<Pair>, obj: Bytes, pos: nat, id: nat, body: nat, width: nat)
    requires 0 < body
  {
    if pos <= |obj| then
      && pairs + Chunks(obj[pos..], id, body, width) == Chunks(obj, 0, body, width)
      && Overflows(obj[pos..], id, body, width) == Overflows(obj, 0, body, width)
    else pairs == Chunks(obj, 0, body, width) && !Overflows(obj, 0, body, width)
  }

  lemma RemainingTurn(pairs: seq<Pair>, obj: Bytes, pos: nat, id: nat, body: nat, width: nat)
    requires 0 < body && pos <= |obj| && id < Capacity(width) && Remaining(pairs, obj, pos, id, body, width)
    ensures var chunk := if pos + body <= |obj| then obj[pos..pos + body] else obj[pos..];
            Remaining(pairs + [Pair(BigEndian(id, width), chunk)], obj, pos + body, id + 1, body, width)
  {
    ChunkTurn(obj[pos..], id, body, width, pairs);
    if pos + body <= |obj| {
      Slices(obj, pos, body);
    }
  }

  method GenerateObjBytes(obj: Bytes, body: nat, width: nat) returns (pairs: seq<Pair>, raised: bool)
    requires 0 < body
    ensures pairs == Chunks(obj, 0, body, width) && raised == Overflows(obj, 0, body, width)
  {
    pairs, raised := [], false;
    var keyId, curPos := 0, 0;
    assert obj[0..] == obj;
    while curPos <= |obj|
      invariant 0 <= curPos && 0 <= keyId
      invariant Remaining(pairs, obj, curPos, keyId, body, width)
      decreases |obj| - curPos
    {
      if Capacity(width) <= keyId {
        raised := true;
        return;
      }
      var chunk := if curPos + body <= |obj| then obj[curPos..curPos + body] else obj[curPos..];
      RemainingTurn(pairs, obj, curPos, keyId, body, width);
      pairs := pairs + [Pair(BigEndian(keyId, width), chunk)];
      keyId, curPos := keyId + 1, curPos + body;
    }
  }

  /** The overflow in terms of the object's length. */
  lemma {:induction false} OverflowsWhen(rest: Bytes, id: nat, body: nat, width: nat)
    requires 0 < body && id <= Capacity(width)
    ensures Overflows(rest, id, body, width) <==> (Capacity(width) - id) * body <= |rest|
    decreases |rest|
  {
    var left := Capacity(width) - id;
    if 0 < left {
      assert left * body == body + (left - 1) * body;
      assert 0 <= (left - 1) * body;
      if body <= |rest| {
        OverflowsWhen(rest[body..], id + 1, body, width);
      }
    }
  }

  lemma OverflowLimit(obj: Bytes, body: nat, width: nat)
    requires 0 < body
    ensures Overflows(obj, 0, body, width) <==> Capacity(width) * body <= |obj|
  {
    OverflowsWhen(obj, 0, body, width);
  }

  // --------------------------------------------------------------- reassembly

  /** b"".join over the values. */
  function Joined(ps: seq<Pair>): Bytes
  {
    if ps == [] then [] else ps[0].value + Joined(ps[1..])
  }

  /** Sorted by int.from_bytes(key, "big"), as sorted(..., key=...) leaves it. */
  predicate SortedByNumber(ps: seq<Pair>)
  {
    forall i, j :: 0 <= i < j < |ps| ==> FromBigEndian(ps[i].key) <= FromBigEndian(ps[j].key)
  }

  predicate StrictlyByNumber(ps: seq<Pair>)
  {
    forall i, j :: 0 <= i < j < |ps| ==> FromBigEndian(ps[i].key) < FromBigEndian(ps[j].key)
  }

  lemma {:induction false} FromBigEndianInjective(a: Bytes, b: Bytes)
    requires |a| == |b| && FromBigEndian(a) == FromBigEndian(b)
    ensures a == b
  {
    if a != [] {
      var n := |a| - 1;
      FromBigEndianInjective(a[..n], b[..n]);
      assert a == a[..n] + [a[n]] && b == b[..n] + [b[n]];
    }
  }

  /** Chunks are listed under increasing numbers from id on. */
  lemma {:induction false} ChunkKeys(rest: Bytes, id: nat, body: nat, width: nat)
    requires 0 < body
    ensures forall i :: 0 <= i < |Chunks(rest, id, body, width)| ==>
              |Chunks(rest, id, body, width)[i].key| == width && FromBigEndian(Chunks(rest, id, body, width)[i].key) == id + i
    decreases |rest|
  {
    if id < Capacity(width) {
      BigEndianRoundTrip(id, width);
      if body <= |rest| {
        ChunkKeys(rest[body..], id + 1, body, width);
        var ps, tail := Chunks(rest, id, body, width), Chunks(rest[body..], id + 1, body, width);
        forall i | 0 <= i < |ps| ensures |ps[i].key| == width && FromBigEndian(ps[i].key) == id + i {
          if i != 0 { assert ps[i] == tail[i - 1]; }
        }
      }
    }
  }

  /** Chunk i is stored under the big-endian number id + i. */
  lemma {:induction false} ChunkNumber(rest: Bytes, id: nat, body: nat, width: nat, i: nat)
    requires 0 < body && i < |Chunks(rest, id, body, width)|
    ensures id + i < Capacity(width) && Chunks(rest, id, body, width)[i].key == BigEndian(id + i, width)
    decreases |rest|
  {
    if i != 0 { ChunkNumber(rest[body..], id + 1, body, width, i - 1); }
  }

  /** LMDB iterates the chunks in the order of their numbers. */
  lemma ChunksInKeyOrder(obj: Bytes, body: nat, width: nat)
    requires 0 < body
    ensures StrictlySorted(Chunks(obj, 0, body, width))
  {
    var ps := Chunks(obj, 0, body, width);
    forall i, j | 0 <= i < j < |ps| ensures Less(ps[i].key, ps[j].key) {
      ChunkNumber(obj, 0, body, width, i);
      ChunkNumber(obj, 0, body, width, j);
      BigEndianOrder(i, j, width);
    }
  }

  lemma ChunksDistinct(obj: Bytes, body: nat, width: nat)
    requires 0 < body && 0 < width
    ensures var ps := Chunks(obj, 0, body, width); StrictlyByNumber(ps) && DistinctKeys(ps) && NonEmptyKeys(ps)
  {
    ChunkKeys(obj, 0, body, width);
    var ps := Chunks(obj, 0, body, width);
    forall i | 0 <= i < |ps| ensures ps[i].key != [] { assert |ps[i].key| == width; }
    forall i, j | 0 <= i < j < |ps| ensures ps[i].key != ps[j].key {
      assert FromBigEndian(ps[i].key) == i && FromBigEndian(ps[j].key) == j;
    }
  }

  /** Without overflow the chunks join to the object; with it, every chunk is full. */
  lemma {:induction false} ChunksJoin(rest: Bytes, id: nat, body: nat, width: nat)
    requires 0 < body
    ensures var ps := Chunks(rest, id, body, width);
            && (!Overflows(rest, id, body, width) ==> Joined(ps) == rest)
            && |Joined(ps)| <= |rest|
            && (Overflows(rest, id, body, width) ==> forall i :: 0 <= i < |ps| ==> |ps[i].value| == body)
    decreases |rest|
  {
    if id < Capacity(width) && body <= |rest| {
      ChunksJoin(rest[body..], id + 1, body, width);
      assert rest == rest[..body] + rest[body..];
      var tail := Chunks(rest[body..], id + 1, body, width);
      var p := Pair(BigEndian(id, width), rest[..body]);
      assert ([p] + tail)[1..] == tail;
    }
  }

  lemma {:induction false} ChunkSizes(rest: Bytes, id: nat, body: nat, width: nat)
    requires 0 < body
    ensures forall i :: 0 <= i < |Chunks(rest, id, body, width)| ==> |Chunks(rest, id, body, width)[i].value| <= Min(body, |rest|)
    decreases |rest|
  {
    if id < Capacity(width) && body <= |rest| {
      ChunkSizes(rest[body..], id + 1, body, width);
      var ps, tail := Chunks(rest, id, body, width), Chunks(rest[body..], id + 1, body, width);
      forall i | 0 <= i < |ps| ensures |ps[i].value| <= Min(body, |rest|) {
        if i != 0 { assert ps[i] == tail[i - 1]; }
      }
    }
  }

  /** There is only one list of a table's entries in strictly increasing number order. */
  lemma {:induction false} OneSortedList(a: seq<Pair>, b: seq<Pair>)
    requires StrictlyByNumber(a) && StrictlyByNumber(b) && forall k :: Lookup(a, k) == Lookup(b, k)
    ensures a == b
    decreases |a|
  {
    if a != [] || b != [] {
      var k := if a != [] then a[0].key else b[0].key;
      assert Lookup(a, k) == Lookup(b, k);
      HeadOf(a, k);
      HeadOf(b, k);
      assert Lookup(a, b[0].key) == Lookup(b, b[0].key);
      HeadOf(a, b[0].key);
      HeadMisses(a);
      HeadMisses(b);
      assert a[0] == b[0];
      forall x ensures Lookup(a[1..], x) == Lookup(b[1..], x) {
        assert Lookup(a, x) == Lookup(b, x);
      }
      OneSortedList(a[1..], b[1..]);
    }
  }

  lemma HeadOf(ps: seq<Pair>, k: Bytes)
    requires StrictlyByNumber(ps) && Lookup(ps, k).Some?
    ensures ps != [] && FromBigEndian(ps[0].key) <= FromBigEndian(k)
    ensures FromBigEndian(ps[0].key) == FromBigEndian(k) ==> ps[0].key == k
  {
    RollPair.LookupFinds(ps, k);
    var x :| 0 <= x < |ps| && ps[x].key == k;
  }

  lemma {:induction false} Misses(ps: seq<Pair>, k: Bytes)
    requires forall i :: 0 <= i < |ps| ==> ps[i].key != k
    ensures Lookup(ps, k) == None
  {
    if ps != [] { Misses(ps[1..], k); }
  }

  lemma HeadMisses(ps: seq<Pair>)
    requires StrictlyByNumber(ps) && ps != []
    ensures Lookup(ps[1..], ps[0].key) == None
  {
    forall i | 0 <= i < |ps[1..]| ensures ps[1..][i].key != ps[0].key {
      assert FromBigEndian(ps[0].key) < FromBigEndian(ps[i + 1].key);
    }
    Misses(ps[1..], ps[0].key);
  }

  // -------------------------------------------------------------------- the round trip

  lemma {:induction false} JoinedConcat(a: seq<Pair>, b: seq<Pair>)
    ensures Joined(a + b) == Joined(a) + Joined(b)
  {
    if a == [] {
      assert a + b == b;
    } else {
      assert (a + b)[1..] == a[1..] + b;
      JoinedConcat(a[1..], b);
    }
  }

  lemma PutDistinct(ps: seq<Pair>, k: Bytes)
    requires DistinctKeys(ps)
    ensures Lookup(ps, k) == At(PutAll(map[], ps), k)
  {
    PutAllGet(map[], ps, k);
    LookupValues(ps, k);
    DistinctValue(ps, k);
  }

  /** A push of an object that produces any batch at all has only packable chunks: the
      first chunk is the longest, and if it cannot be packed nothing is emitted. */
  lemma PushedChunksPackable(obj: Bytes, body: nat, width: nat)
    requires HEADER_SIZE <= body && 0 < width < 8
    requires Batches(Chunks(obj, 0, body, width), Overflows(obj, 0, body, width), body, None) != []
    ensures AllPackable(Chunks(obj, 0, body, width))
  {
    var ps := Chunks(obj, 0, body, width);
    ChunkKeys(obj, 0, body, width);
    ChunkSizes(obj, 0, body, width);
    assert ps != [];
    FirstChunk(obj, body, width);
    var room := body - |EncodeBatch([])|;
    assert |EncodeBatch([])| == HEADER_SIZE;
  }

  lemma FirstChunk(obj: Bytes, body: nat, width: nat)
    requires 0 < body
    ensures var ps := Chunks(obj, 0, body, width); ps != [] && |ps[0].value| == Min(body, |obj|)
  {
    CapacityPositive(width);
  }

  lemma {:induction false} CapacityPositive(width: nat)
    ensures 0 < Capacity(width)
  {
    if width != 0 { CapacityPositive(width - 1); }
  }

  /** Losing chunks of a full object loses bytes. */
  lemma ShorterJoin(kept: seq<Pair>, all: seq<Pair>, body: nat)
    requires 0 < body && kept <= all && |kept| < |all|
    requires forall i :: 0 <= i < |all| ==> |all[i].value| == body
    ensures |Joined(kept)| < |Joined(all)|
  {
    var rest := all[|kept|..];
    assert all == kept + rest;
    JoinedConcat(kept, rest);
    assert rest[0] == all[|kept|];
  }

  /** A sorted listing of what is stored under the chunk numbers is the chunk list. */
  lemma SortedListing(stored: seq<Pair>, items: seq<Pair>)
    requires StrictlyByNumber(stored) && DistinctKeys(stored)
    requires SortedByNumber(items) && DistinctKeys(items)
    requires forall k :: Lookup(items, k) == At(PutAll(map[], stored), k)
    requires forall i, j :: 0 <= i < |stored| && 0 <= j < |stored| ==> |stored[i].key| == |stored[j].key|
    ensures items == stored
  {
    forall k ensures Lookup(items, k) == Lookup(stored, k) { PutDistinct(stored, k); }
    forall i, j | 0 <= i < j < |items| ensures FromBigEndian(items[i].key) < FromBigEndian(items[j].key) {
      RollPair.LookupMember(items, i);
      RollPair.LookupMember(items, j);
      RollPair.LookupFinds(stored, items[i].key);
      RollPair.LookupFinds(stored, items[j].key);
      var x :| 0 <= x < |stored| && stored[x].key == items[i].key;
      var y :| 0 <= y < |stored| && stored[y].key == items[j].key;
      if FromBigEndian(items[i].key) == FromBigEndian(items[j].key) {
        FromBigEndianInjective(items[i].key, items[j].key);
      }
    }
    OneSortedList(items, stored);
  }

  /** The pairs that arrive are a prefix of the chunks, under distinct numbers. */
  lemma ArrivedChunks(obj: Bytes, body: nat, width: nat)
    requires 0 < body && 0 < width
    ensures var ps, raised := Chunks(obj, 0, body, width), Overflows(obj, 0, body, width);
            var arrived := DecodeBatches(Batches(ps, raised, body, None));
            && arrived <= ps && StrictlyByNumber(arrived) && DistinctKeys(arrived)
            && (forall i :: 0 <= i < |arrived| ==> |arrived[i].key| == width)
            && (raised ==> |arrived| < |ps|)
            && (!raised && AllPackable(ps) ==> arrived == ps)
  {
    var ps, raised := Chunks(obj, 0, body, width), Overflows(obj, 0, body, width);
    ChunksDistinct(obj, body, width);
    ChunkKeys(obj, 0, body, width);
    FirstChunk(obj, body, width);
    RoundTrip(ps, raised, body);
    RoundTripLosesSuffix(ps, raised, body);
    var arrived := DecodeBatches(Batches(ps, raised, body, None));
    assert forall i :: 0 <= i < |arrived| ==> arrived[i] == ps[i];
  }

  /** Object round trip. An object is chunked, packed, cut into streams, pushed with any
      attempts, and any delivery of the packets is received. Once the receiver reports
      completion, sorting its partition by chunk number and joining gives the object
      back exactly when the chunk numbers fit: fewer than 2^32 whole chunks. */
  lemma ObjectRoundTrip(obj: Bytes, body: nat, width: nat, received: seq<Packet>, items: seq<Pair>)
    requires HEADER_SIZE <= body && 0 < width < 8
    requires var batches := Batches(Chunks(obj, 0, body, width), Overflows(obj, 0, body, width), body, None);
             forall i :: 0 <= i < |received| ==> Genuine(batches, received[i])
    requires Finished(ReceiveAll(Fresh(map[]), received))
    requires SortedByNumber(items) && DistinctKeys(items)
    requires forall k :: Lookup(items, k) == At(ReceiveAll(Fresh(map[]), received).table, k)
    ensures Joined(items) == obj <==> |obj| < Capacity(width) * body
  {
    var ps, raised := Chunks(obj, 0, body, width), Overflows(obj, 0, body, width);
    var batches := Batches(ps, raised, body, None);
    var arrived := DecodeBatches(batches);
    ArrivedChunks(obj, body, width);
    CompletionIsExact(batches, received);
    PushedChunksPackable(obj, body, width);
    SortedListing(arrived, items);
    JoinDecides(obj, body, width);
  }

  /** The arrived chunks join to the object exactly when none was lost. */
  lemma JoinDecides(obj: Bytes, body: nat, width: nat)
    requires 0 < body && 0 < width && AllPackable(Chunks(obj, 0, body, width))
    ensures var arrived := DecodeBatches(Batches(Chunks(obj, 0, body, width), Overflows(obj, 0, body, width), body, None));
            Joined(arrived) == obj <==> |obj| < Capacity(width) * body
  {
    OverflowLimit(obj, body, width);
    JoinLoses(obj, body, width);
  }

  lemma JoinLoses(obj: Bytes, body: nat, width: nat)
    requires 0 < body && 0 < width && AllPackable(Chunks(obj, 0, body, width))
    ensures var arrived := DecodeBatches(Batches(Chunks(obj, 0, body, width), Overflows(obj, 0, body, width), body, None));
            Joined(arrived) == obj <==> !Overflows(obj, 0, body, width)
  {
    ArrivedChunks(obj, body, width);
    ChunksJoin(obj, 0, body, width);
    if Overflows(obj, 0, body, width) {
      var ps := Chunks(obj, 0, body, width);
      ShorterJoin(DecodeBatches(Batches(ps, true, body, None)), ps, body);
    }
  }

  /** The same for the four-byte numbers and the packets of a push. */
  lemma PushedObjectArrives(obj: Bytes, body: nat, batchesPerStream: nat, streams: seq<seq<Bytes>>,
                            steps: seq<PushRun.Step>, t: PushRun.State, picks: seq<nat>, received: seq<Packet>, items: seq<Pair>)
    requires HEADER_SIZE <= body
    requires CutInto(streams, Batches(Chunks(obj, 0, body, 4), Overflows(obj, 0, body, 4), body, None), batchesPerStream)
    requires PushRun.Run(streams, PushRun.Init(-1, -1), steps, t) && !t.late
    requires |picks| == |received| && forall i :: 0 <= i < |picks| ==> picks[i] < |t.net| && received[i] == t.net[picks[i]].packet
    requires Finished(ReceiveAll(Fresh(map[]), received))
    requires SortedByNumber(items) && DistinctKeys(items)
    requires forall k :: Lookup(items, k) == At(ReceiveAll(Fresh(map[]), received).table, k)
    ensures Joined(items) == obj <==> |obj| < UINT32_LIMIT * body
  {
    var batches := Batches(Chunks(obj, 0, body, 4), Overflows(obj, 0, body, 4), body, None);
    forall i | 0 <= i < |received| ensures Genuine(batches, received[i]) {
      PushedPackets(batches, streams, batchesPerStream, steps, t, picks[i]);
    }
    ObjectRoundTrip(obj, body, 4, received, items);
    assert Capacity(4) == UINT32_LIMIT;
  }
}
