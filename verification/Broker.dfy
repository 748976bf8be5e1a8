/** The brokers: a bounded queue shared by counted writers (FifoBroker), and a
    wrapper that moves items through it in batches (BatchBroker). */
module Broker {
  import opened Bytes
  import opened Seqs

  /** What a FifoBroker holds. */
  datatype Fifo<T> = Fifo(queue: seq<T>, active: int, maxsize: int) {
    predicate WriteFinished() { active <= 0 }

    predicate Closable() { WriteFinished() && |queue| == 0 }

    predicate HasRoom() { maxsize <= 0 || |queue| < maxsize }

    function Enqueue(item: T): Fifo<T> { this.(queue := queue + [item]) }

    function Dequeue(): Fifo<T>
      requires |queue| != 0
    {
      this.(queue := queue[1..])
    }
  }

  /** The queue keeps its capacity, if it has one. */
  predicate Within<T>(q: Fifo<T>, capacity: int) { q.maxsize == capacity && (0 < capacity ==> |q.queue| <= capacity) }

  /** Accepted; refused because all writers have finished (ValueError); or the
      call has to wait because the queue is full. */
  datatype PutResult = Accepted | Refused | Full

  /** An item; BrokerClosed; or queue.Empty. */
  datatype GetResult<T> = Item(item: T) | Closed | Empty

  class FifoBroker<T> {
    var queue: seq<T>
    var activeWriters: int
    const maxsize: int
    const totalWriters: int

    function State(): Fifo<T>
      reads this
    {
      Fifo(queue, activeWriters, maxsize)
    }

    constructor (maxsize: int, writers: int)
      ensures State() == Fifo([], writers, maxsize) && totalWriters == writers
    {
      this.maxsize, queue, activeWriters, totalWriters := maxsize, [], writers, writers;
    }

    method IsClosable() returns (b: bool)
      ensures b == State().Closable() && (b <==> activeWriters <= 0 && queue == [])
    {
      b := activeWriters <= 0;
      if b {
        b := |queue| == 0;
      }
    }

    /** False is the "finish signaling overflows" ValueError. */
    method SignalWriteFinish() returns (ok: bool)
      modifies this
      ensures ok == (0 < old(activeWriters)) == !old(State()).WriteFinished()
      ensures State() == if ok then old(State()).(active := old(activeWriters) - 1) else old(State())
    {
      if activeWriters <= 0 {
        return false;
      }
      activeWriters := activeWriters - 1;
      ok := true;
    }

    method Put(item: T) returns (r: PutResult)
      modifies this
      ensures r == Refused <==> old(activeWriters) <= 0
      ensures r == Full <==> 0 < old(activeWriters) && 0 < maxsize <= |old(queue)|
      ensures r == if old(State()).WriteFinished() then Refused
                   else if old(State()).HasRoom() then Accepted else Full
      ensures queue == if r == Accepted then old(queue) + [item] else old(queue)
      ensures State() == if r == Accepted then old(State()).Enqueue(item) else old(State())
    {
      if activeWriters <= 0 {
        return Refused;
      }
      if 0 < maxsize && maxsize <= |queue| {
        return Full;
      }
      queue := queue + [item];
      r := Accepted;
    }

    method Get() returns (r: GetResult<T>)
      modifies this
      ensures r.Closed? <==> old(activeWriters) <= 0 && old(queue) == []
      ensures r.Item? == (old(queue) != [])
      ensures r.Item? ==> r.item == old(queue)[0] && queue == old(queue)[1..] && State() == old(State()).Dequeue()
      ensures !r.Item? ==> State() == old(State())
    {
      var closable := IsClosable();
      if closable {
        return Closed;
      }
      if |queue| == 0 {
        return Empty;
      }
      r := Item(queue[0]);
      queue := queue[1..];
    }

    /** Drain at most maxElements items that are already queued. */
    method DrainTo(maxElements: nat) returns (target: seq<T>)
      modifies this
      ensures target + queue == old(queue)
      ensures |target| == if |old(queue)| < maxElements then |old(queue)| else maxElements
      ensures activeWriters == old(activeWriters)
    {
      target := [];
      while |queue| != 0 && |target| < maxElements
        invariant target + queue == old(queue) && |target| <= maxElements && activeWriters == old(activeWriters)
      {
        var r := Get();
        if r.Item? {
          target := target + [r.item];
        }
      }
    }

    method Enter()
      modifies this
      ensures State() == old(State()).(active := old(activeWriters) + 1)
    {
      activeWriters := activeWriters + 1;
    }
  }

  /** One end of a batched connection: a writer collects items in `batch` before
      putting the whole list into the broker, a reader hands out the items of the
      list it got last. */
  class BatchBroker<T> {
    const broker: FifoBroker<seq<T>>
    var batch: seq<T>
    const batchSize: int

    constructor (broker: FifoBroker<seq<T>>, batchSize: int)
      ensures this.broker == broker && this.batchSize == batchSize && batch == []
    {
      this.broker, this.batchSize, batch := broker, batchSize, [];
    }

    method Commit() returns (r: PutResult)
      modifies this, broker
      ensures old(batch) == [] ==> r == Accepted && broker.State() == old(broker.State())
      ensures old(batch) != [] && r == Accepted ==> broker.State() == old(broker.State()).Enqueue(old(batch))
      ensures r == Accepted ==> batch == []
      ensures r != Accepted ==> batch == old(batch) && broker.State() == old(broker.State())
      ensures old(batch) != [] ==>
                r == if old(broker.State()).WriteFinished() then Refused
                     else if old(broker.State()).HasRoom() then Accepted else Full
    {
      if |batch| == 0 {
        return Accepted;
      }
      r := broker.Put(batch);
      if r == Accepted {
        batch := [];
      }
    }

    /** On success the items in the connection are those before, then this one. */
    method Put(item: T) returns (r: PutResult)
      modifies this, broker
      ensures r == Accepted ==>
                && Flatten(broker.queue) + batch == Flatten(old(broker.queue)) + old(batch) + [item]
                && (if |old(batch)| < batchSize || old(batch) == []
                    then broker.State() == old(broker.State()) && batch == old(batch) + [item]
                    else broker.State() == old(broker.State()).Enqueue(old(batch)) && batch == [item])
      ensures r != Accepted ==> batch == old(batch) && broker.State() == old(broker.State())
      ensures r == Accepted <==>
                || old(batch) == [] || |old(batch)| < batchSize
                || (0 < old(broker.activeWriters) && (broker.maxsize <= 0 || |old(broker.queue)| < broker.maxsize))
      ensures r == Full ==> 0 < old(broker.activeWriters)
    {
      r := Accepted;
      if |batch| >= batchSize {
        r := Commit();
        if r != Accepted {
          return;
        }
        FlattenAppend(old(broker.queue), old(batch));
      }
      batch := batch + [item];
    }

    /** Flush, then tell the broker that this writer is done. */
    method SignalWriteFinish() returns (ok: bool)
      requires broker.State().HasRoom()
      modifies this, broker
      ensures ok == !old(broker.State()).WriteFinished()
      ensures ok ==> batch == [] && broker.activeWriters == old(broker.activeWriters) - 1
                     && broker.queue == old(broker.queue) + (if old(batch) == [] then [] else [old(batch)])
      ensures !ok ==> broker.State() == old(broker.State())
    {
      var r := Commit();
      if r != Accepted {
        return false;
      }
      ok := broker.SignalWriteFinish();
    }

    /** get: the next item of the current list, or of the next list. */
    method Get() returns (r: GetResult<T>)
      modifies this, broker
      ensures r.Item? ==> [r.item] + batch + Flatten(broker.queue) == old(batch + Flatten(broker.queue))
      ensures !r.Item? ==> batch == old(batch) == [] && Flatten(broker.queue) == Flatten(old(broker.queue))
      ensures r.Closed? <==> old(batch) == [] && old(broker.queue) == [] && old(broker.activeWriters) <= 0
      ensures broker.activeWriters == old(broker.activeWriters)
      ensures |broker.queue| <= |old(broker.queue)| && (old(batch) == [] && old(broker.queue) != [] ==> |broker.queue| < |old(broker.queue)|)
      ensures old(batch) != [] ==> |batch| < |old(batch)| && broker.queue == old(broker.queue)
      ensures (forall i :: 0 <= i < |old(broker.queue)| ==> old(broker.queue)[i] != []) ==>
                && (forall i :: 0 <= i < |broker.queue| ==> broker.queue[i] != [])
                && (old(batch) != [] || old(broker.queue) != [] ==> r.Item?)
    {
      if |batch| == 0 {
        var g := broker.Get();
        if g.Closed? { return Closed; }
        if g.Empty? { return Empty; }
        batch := g.item;
        assert old(broker.queue) == [g.item] + broker.queue;
      }
      if |batch| == 0 {
        return Empty;
      }
      r := Item(batch[0]);
      assert batch == [batch[0]] + batch[1..];
      batch := batch[1..];
    }
  }

  /** Writing a whole sequence through a BatchBroker and finishing: the queue
      receives the sequence cut into batches of batchSize (at least 1). */
  method WriteThrough<T>(bb: BatchBroker<T>, items: seq<T>) returns (ok: bool)
    requires bb.batch == [] && bb.broker.queue == [] && bb.broker.maxsize <= 0 && 0 < bb.broker.activeWriters
    modifies bb, bb.broker
    ensures ok && bb.batch == []
    ensures bb.broker.activeWriters == old(bb.broker.activeWriters) - 1
    ensures CutInto(bb.broker.queue, items, Max(bb.batchSize, 1))
  {
    var i := 0;
    ghost var n := Max(bb.batchSize, 1);
    while i < |items|
      invariant 0 <= i <= |items|
      invariant bb.broker.activeWriters == old(bb.broker.activeWriters)
      invariant Flatten(bb.broker.queue) + bb.batch == items[..i]
      invariant forall j :: 0 <= j < |bb.broker.queue| ==> |bb.broker.queue[j]| == n
      invariant |bb.batch| <= n && (i != 0 ==> bb.batch != [])
    {
      var r := bb.Put(items[i]);
      i := i + 1;
    }
    assert items[..|items|] == items;
    FlattenAppend(bb.broker.queue, bb.batch);
    ok := bb.SignalWriteFinish();
  }

  /** How the write block of _run_shuffle is left: normally; by an exception before the
      routing thread is started (loading the partitioner, starting it); by one while
      the input store is opened; or by one of the map function or its iteration. */
  datatype Exit = Normal | LoadRaises | OpenRaises | MapRaises

  /** The write side of _run_shuffle: a broker entered as a context, the routing thread
      started, the store opened, and then a BatchBroker entered as a context. Leaving
      the block signals once for each context that was entered, so the count is back
      at 0 exactly when the BatchBroker was entered, and stays at 1 otherwise.
      `produced` are the items put before the block is left. */
  method ShuffleWriteBlock<T>(produced: seq<T>, batchSize: int, exit: Exit)
    returns (broker: FifoBroker<seq<T>>, routing: bool, raised: bool)
    ensures fresh(broker) && raised == (exit != Normal) && routing == (exit != LoadRaises)
    ensures broker.activeWriters == 0 <==> exit in {Normal, MapRaises}
    ensures exit in {LoadRaises, OpenRaises} ==> broker.State() == Fifo([], 1, 0)
    ensures exit in {Normal, MapRaises} ==> CutInto(broker.queue, produced, Max(batchSize, 1))
  {
    broker := new FifoBroker<seq<T>>(0, 1);
    broker.Enter();
    routing := exit != LoadRaises;
    if routing && exit != OpenRaises {
      var bb := new BatchBroker<T>(broker, batchSize);
      var flushed := WriteThrough(bb, produced);
    }
    var ok := broker.SignalWriteFinish();
    raised := exit != Normal;
  }
}
