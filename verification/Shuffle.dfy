/** The shuffle, as interleaved steps of all its threads and brokers. N_in map
    tasks each write pairs into a local broker; a routing thread per task moves
    them to one broker per output partition; a sending thread per (task,
    partition) packs them into byte batches; the transfer servicer of the target
    puts the batches into the partition's broker; and a storing thread per
    partition unpacks and merges them. put_all is the same machinery with one
    writing task. */
module Shuffle {
  import opened Bytes
  import opened Seqs
  import opened Format
  import opened BinBatch
  import opened Broker

  /** How a partition takes pairs: the merge function, if any, and the keys LMDB
      refuses with BadValsizeError. */
  datatype Sink = Sink(reduce: Option<(Bytes, Bytes) -> Bytes>, rejects: Bytes -> bool)

  datatype Config = Config(
    parts: nat,                                  // number of output partitions
    part: Bytes -> nat,                          // the output partitioner
    mapOut: seq<seq<Pair>>,                      // what each map task produces
    base: seq<Table>,                            // output partitions before the job
    sink: Sink,                                  // how the output partitions take pairs
    writers: nat,                                // finish signals each output broker is created to expect
    batchSize: int,                              // BatchBroker batch size
    fifoSize: int,                               // local broker capacity, unbounded if <= 0
    storeSize: int,                              // transfer broker capacity, unbounded if <= 0
    sendbuf: nat,                                // send buffer size
    mapWriters: nat)                             // finish signals ending a map task's broker

  /** What the job needs of its data: a partitioner in range, room for the header,
      pairs the codec carries, and no put that raises. */
  ghost predicate ValidData(c: Config)
  {
    && |c.base| == c.parts
    && (forall k :: c.part(k) < c.parts)
    && HEADER_SIZE <= c.sendbuf
    && 1 <= c.mapWriters
    && (forall i :: 0 <= i < |c.mapOut| ==> Carried(c.mapOut[i]) && Storable(c.sink, c.mapOut[i]))
  }

  /** The output brokers expect a signal from every map task, and perhaps more. */
  ghost predicate ValidConfig(c: Config)
  {
    ValidData(c) && |c.mapOut| <= c.writers
  }

  // ------------------------------------------------------------ connections

  /** A FifoBroker with a BatchBroker at either end: `pending` at the writer,
      `local` at the reader, which has seen (or not) that all writers finished. */
  datatype Hop = Hop(pending: seq<Pair>, fifo: Fifo<seq<Pair>>, local: seq<Pair>, saw: bool) {

    function Content(): seq<Pair> { local + Flatten(fifo.queue) + pending }

    predicate MustCommit(size: int) { size <= |pending| && |pending| != 0 }

    predicate CanPut(size: int) { MustCommit(size) ==> fifo.HasRoom() }

    function Put(x: Pair, size: int): Hop
    {
      if MustCommit(size) then this.(fifo := fifo.Enqueue(pending), pending := [x])
      else this.(pending := pending + [x])
    }

    predicate CanCommit() { |pending| != 0 && fifo.HasRoom() }

    function Commit(): Hop { this.(fifo := fifo.Enqueue(pending), pending := []) }

    predicate CanSignal() { |pending| == 0 && !fifo.WriteFinished() }

    function Signal(): Hop { this.(fifo := fifo.(active := fifo.active - 1)) }

    predicate CanSee() { !saw && fifo.WriteFinished() }

    predicate CanLoad() { |local| == 0 && |fifo.queue| != 0 }

    function Load(): Hop
      requires CanLoad()
    {
      this.(local := fifo.queue[0], fifo := fifo.Dequeue())
    }

    function Pop(): Hop
      requires |local| != 0
    {
      this.(local := local[1..])
    }

    predicate CanStop() { saw && |local| == 0 && |fifo.queue| == 0 }
  }

  function NewHop(size: int, writers: nat): Hop { Hop([], Fifo([], writers, size), [], false) }

  lemma PutContent(h: Hop, x: Pair, size: int)
    ensures h.Put(x, size).Content() == h.Content() + [x]
  {
    FlattenAppend(h.fifo.queue, h.pending);
  }

  lemma CommitContent(h: Hop)
    ensures h.Commit().Content() == h.Content()
  {
    FlattenAppend(h.fifo.queue, h.pending);
  }

  lemma LoadContent(h: Hop)
    requires h.CanLoad()
    ensures h.Load().Content() == h.Content()
  {
  }

  lemma PopContent(h: Hop)
    requires |h.local| != 0
    ensures h.Content() == [h.local[0]] + h.Pop().Content()
  {
    assert h.local == [h.local[0]] + h.local[1..];
  }

  // ----------------------------------------------------------------- state

  /** One (task, partition) stream: its connection, the open buffer of the packer,
      the batches on the wire, whether the packer and the servicer have finished,
      and the batches the servicer has put into the partition's broker. */
  datatype Chan = Chan(hop: Hop, group: seq<Pair>, cap: nat, sent: bool,
                       net: seq<Bytes>, given: seq<Bytes>, served: bool)

  datatype Sender = Sender(todo: seq<Pair>, hop: Hop, routed: bool, chans: seq<Chan>)

  datatype Store = Store(fifo: Fifo<(nat, Bytes)>, saw: bool, done: bool,
                         taken: seq<(nat, Bytes)>, table: Table)

  /** `failed` records that some call raised: a put or signal on a finished broker,
      or a stream without any batch. */
  datatype State = State(senders: seq<Sender>, stores: seq<Store>, failed: bool)

  function NewChan(c: Config): Chan { Chan(NewHop(c.fifoSize, 1), [], c.sendbuf, false, [], [], false) }

  function NewSender(c: Config, out: seq<Pair>): Sender
  {
    Sender(out, NewHop(c.fifoSize, c.mapWriters), false, seq(c.parts, j => NewChan(c)))
  }

  function Init(c: Config): State
    requires |c.base| == c.parts
  {
    State(seq(|c.mapOut|, i requires 0 <= i < |c.mapOut| => NewSender(c, c.mapOut[i])),
          seq(c.parts, j requires 0 <= j < c.parts => Store(Fifo([], c.writers, c.storeSize), false, false, [], c.base[j])),
          false)
  }

  // ----------------------------------------------------- steps of one sender

  datatype Local =
    | MapPut | MapCommit | MapSignal
    | RouteSee | RouteLoad | RoutePut | RouteStop
    | OutCommit(j: nat) | OutSignal(j: nat)
    | SendSee(j: nat) | SendLoad(j: nat) | SendWrite(j: nat) | SendStop(j: nat)

  predicate Touches(l: Local)
  {
    l.OutCommit? || l.OutSignal? || l.SendSee? || l.SendLoad? || l.SendWrite? || l.SendStop?
  }

  predicate LocalEnabled(c: Config, s: Sender, l: Local)
    requires |s.chans| == c.parts
  {
    (Touches(l) ==> l.j < c.parts) &&
    match l
    case MapPut => |s.todo| != 0 && s.hop.CanPut(c.batchSize)
    case MapCommit => |s.todo| == 0 && s.hop.CanCommit()
    case MapSignal => |s.todo| == 0 && s.hop.CanSignal()
    case RouteSee => s.hop.CanSee()
    case RouteLoad => !s.routed && s.hop.CanLoad()
    case RoutePut =>
      && !s.routed && |s.hop.local| != 0
      && c.part(s.hop.local[0].key) < c.parts
      && s.chans[c.part(s.hop.local[0].key)].hop.CanPut(c.batchSize)
    case RouteStop => !s.routed && s.hop.CanStop()
    case OutCommit(j) => s.routed && s.chans[j].hop.CanCommit()
    case OutSignal(j) => s.routed && s.chans[j].hop.CanSignal()
    case SendSee(j) => s.chans[j].hop.CanSee()
    case SendLoad(j) => !s.chans[j].sent && s.chans[j].hop.CanLoad()
    case SendWrite(j) => !s.chans[j].sent && |s.chans[j].hop.local| != 0
    case SendStop(j) => !s.chans[j].sent && s.chans[j].hop.CanStop()
  }

  /** One turn of the packing loop. A length that cannot be packed ends the stream
      and drops the open buffer. */
  function Pack(c: Config, ch: Chan): Chan
    requires |ch.hop.local| != 0
  {
    var p := ch.hop.local[0];
    var rest := ch.(hop := ch.hop.Pop());
    match WriteOutcome(ch.cap - |EncodeBatch(ch.group)|, |p.key|, |p.value|)
    case Written => rest.(group := ch.group + [p])
    case Overflow =>
      if Packable(p) then
        rest.(net := ch.net + [EncodeBatch(ch.group)], group := [p], cap := SpillCapacity(c.sendbuf, p))
      else rest.(net := ch.net + [EncodeBatch(ch.group)], group := [], sent := true)
    case LengthError => rest.(group := [], sent := true)
  }

  function ChanApply(c: Config, ch: Chan, l: Local): Chan
    requires l.SendLoad? ==> ch.hop.CanLoad()
    requires l.SendWrite? ==> |ch.hop.local| != 0
  {
    match l
    case OutCommit(_) => ch.(hop := ch.hop.Commit())
    case OutSignal(_) => ch.(hop := ch.hop.Signal())
    case SendSee(_) => ch.(hop := ch.hop.(saw := true))
    case SendLoad(_) => ch.(hop := ch.hop.Load())
    case SendWrite(_) => Pack(c, ch)
    case SendStop(_) => ch.(net := ch.net + [EncodeBatch(ch.group)], group := [], sent := true)
    case _ => ch
  }

  function LocalApply(c: Config, s: Sender, l: Local): Sender
    requires |s.chans| == c.parts && LocalEnabled(c, s, l)
  {
    match l
    case MapPut => s.(todo := s.todo[1..], hop := s.hop.Put(s.todo[0], c.batchSize))
    case MapCommit => s.(hop := s.hop.Commit())
    case MapSignal => s.(hop := s.hop.Signal())
    case RouteSee => s.(hop := s.hop.(saw := true))
    case RouteLoad => s.(hop := s.hop.Load())
    case RoutePut =>
      var x := s.hop.local[0];
      var j := c.part(x.key);
      s.(hop := s.hop.Pop(), chans := s.chans[j := s.chans[j].(hop := s.chans[j].hop.Put(x, c.batchSize))])
    case RouteStop => s.(routed := true)
    case _ => s.(chans := s.chans[l.j := ChanApply(c, s.chans[l.j], l)])
  }

  // ------------------------------------------------------------------ merging

  /** The write of a pair raises: put does so for a key that LMDB refuses, where
      merge only logs it. */
  predicate Raises(sink: Sink, p: Pair) { sink.reduce.None? && sink.rejects(p.key) }

  predicate Storable(sink: Sink, ps: seq<Pair>)
  {
    forall i :: 0 <= i < |ps| ==> !Raises(sink, ps[i])
  }

  /** The partition's write batch: put without a reduce function, merge with one; a
      refused key leaves the table alone. */
  function Merge(sink: Sink, t: Table, p: Pair): Table
  {
    if sink.rejects(p.key) then t
    else if sink.reduce.Some? && p.key in t then t[p.key := sink.reduce.value(t[p.key], p.value)]
    else t[p.key := p.value]
  }

  function MergeAll(sink: Sink, t: Table, ps: seq<Pair>): Table
    decreases |ps|
  {
    if ps == [] then t else MergeAll(sink, Merge(sink, t, ps[0]), ps[1..])
  }

  lemma {:induction false} MergeAllConcat(sink: Sink, t: Table, a: seq<Pair>, b: seq<Pair>)
    ensures MergeAll(sink, t, a + b) == MergeAll(sink, MergeAll(sink, t, a), b)
    decreases |a|
  {
    if a == [] {
      assert a + b == b;
    } else {
      assert (a + b)[1..] == a[1..] + b;
      MergeAllConcat(sink, Merge(sink, t, a[0]), a[1..], b);
    }
  }

  lemma MergeAllAppend(sink: Sink, t: Table, ps: seq<Pair>, p: Pair)
    ensures MergeAll(sink, t, ps + [p]) == Merge(sink, MergeAll(sink, t, ps), p)
  {
    MergeAllConcat(sink, t, ps, [p]);
    var m := Merge(sink, MergeAll(sink, t, ps), p);
    assert MergeAll(sink, m, []) == m;
  }

  /** LmdbWriteBatch.merge, or put when there is no reduce function; false is the
      ValueError of put. */
  method WriteBatchMerge(sink: Sink, table: Table, p: Pair) returns (ok: bool, r: Table)
    ensures ok == !Raises(sink, p)
    ensures r == Merge(sink, table, p)
  {
    var newValue := p.value;
    if sink.reduce.Some? && p.key in table {
      newValue := sink.reduce.value(table[p.key], p.value);
    }
    if sink.rejects(p.key) {
      return sink.reduce.Some?, table;
    }
    ok, r := true, table[p.key := newValue];
  }

  /** The pairs in front of the first one whose write raises. */
  function Stored(sink: Sink, ps: seq<Pair>): (r: seq<Pair>)
    ensures r <= ps && Storable(sink, r) && (r == ps <==> Storable(sink, ps))
  {
    if ps == [] || Raises(sink, ps[0]) then []
    else
      var r := Stored(sink, ps[1..]);
      assert ps == [ps[0]] + ps[1..];
      assert Storable(sink, ps) ==> Storable(sink, ps[1..]);
      [ps[0]] + r
  }

  lemma StorableTail(sink: Sink, ps: seq<Pair>)
    requires ps != [] && Storable(sink, ps)
    ensures Storable(sink, ps[1..])
  {
    var rest := ps[1..];
    forall i | 0 <= i < |rest| ensures !Raises(sink, rest[i]) { assert rest[i] == ps[i + 1]; }
  }

  lemma {:induction false} StoredPrefix(sink: Sink, ps: seq<Pair>, n: nat)
    requires n < |ps| && Storable(sink, ps[..n])
    ensures Raises(sink, ps[n]) ==> Stored(sink, ps) == ps[..n]
    ensures !Raises(sink, ps[n]) ==> Storable(sink, ps[..n + 1])
  {
    if n != 0 && Raises(sink, ps[n]) {
      assert ps[..n][0] == ps[0] && ps[..n][1..] == ps[1..][..n - 1];
      StorableTail(sink, ps[..n]);
      StoredPrefix(sink, ps[1..], n - 1);
    }
    if !Raises(sink, ps[n]) {
      assert forall i :: 0 <= i < n ==> ps[..n + 1][i] == ps[..n][i];
    }
  }

  /** do_store: unpack the batches of the partition's broker and merge every pair, up
      to a malformed batch or a write that raises. Either way the adapter is closed,
      which commits what was merged before. */
  method DoStore(batches: seq<Bytes>, sink: Sink, before: Table)
    returns (failed: bool, table: Table, done: nat)
    ensures !failed ==> table == MergeAll(sink, before, DecodeBatches(batches)) && done == |DecodeBatches(batches)|
    ensures (forall i :: 0 <= i < |batches| ==> !Malformed(batches[i])) ==>
              && failed == !Storable(sink, DecodeBatches(batches))
              && table == MergeAll(sink, before, Stored(sink, DecodeBatches(batches)))
    ensures (exists i :: 0 <= i < |batches| && Malformed(batches[i])) ==>
              failed && exists n :: 0 <= n < |batches| && Malformed(batches[n])
                                    && table == MergeAll(sink, before, Stored(sink, DecodeBatches(batches[..n])))
  {
    var pairs, malformed := BinBatchToPair(batches);
    var raised;
    raised, table, done := StoreAllPairs(pairs, sink, before);
    failed := malformed || raised;
  }

  /** The loop of do_store over the unpacked pairs. */
  method StoreAllPairs(pairs: seq<Pair>, sink: Sink, before: Table)
    returns (raised: bool, table: Table, done: nat)
    ensures raised == !Storable(sink, pairs)
    ensures table == MergeAll(sink, before, Stored(sink, pairs)) && done == |Stored(sink, pairs)|
  {
    raised, table, done := false, before, 0;
    assert pairs[..0] == [];
    for n := 0 to |pairs|
      invariant !raised && done == n && table == MergeAll(sink, before, pairs[..n])
      invariant Storable(sink, pairs[..n])
    {
      assert pairs[..n + 1] == pairs[..n] + [pairs[n]];
      StoredPrefix(sink, pairs, n);
      MergeAllAppend(sink, before, pairs[..n], pairs[n]);
      var ok, next := WriteBatchMerge(sink, table, pairs[n]);
      if !ok {
        return true, table, done;
      }
      table, done := next, done + 1;
    }
    assert pairs[..|pairs|] == pairs;
  }

  // ------------------------------------------------------------- global steps

  datatype Step =
    | OfSender(i: nat, l: Local)
    | Serve(i: nat, j: nat) | ServeEnd(i: nat, j: nat)
    | StoreSee(j: nat) | StoreTake(j: nat) | StoreStop(j: nat)

  predicate Shaped(c: Config, s: State)
  {
    && |s.senders| == |c.mapOut| && |s.stores| == c.parts
    && (forall i :: 0 <= i < |s.senders| ==> |s.senders[i].chans| == c.parts)
  }

  predicate Enabled(c: Config, s: State, step: Step)
    requires Shaped(c, s)
  {
    match step
    case OfSender(i, l) => i < |s.senders| && LocalEnabled(c, s.senders[i], l)
    case Serve(i, j) =>
      i < |s.senders| && j < c.parts && |s.senders[i].chans[j].net| != 0 && s.stores[j].fifo.HasRoom()
    case ServeEnd(i, j) =>
      i < |s.senders| && j < c.parts && s.senders[i].chans[j].sent && |s.senders[i].chans[j].net| == 0
      && !s.senders[i].chans[j].served
    case StoreSee(j) => j < c.parts && !s.stores[j].saw && s.stores[j].fifo.WriteFinished()
    case StoreTake(j) => j < c.parts && !s.stores[j].done && |s.stores[j].fifo.queue| != 0
    case StoreStop(j) => j < c.parts && !s.stores[j].done && s.stores[j].saw && |s.stores[j].fifo.queue| == 0
  }

  function WithChan(s: State, i: nat, j: nat, ch: Chan): State
    requires i < |s.senders| && j < |s.senders[i].chans|
  {
    s.(senders := s.senders[i := s.senders[i].(chans := s.senders[i].chans[j := ch])])
  }

  function Apply(c: Config, s: State, step: Step): (t: State)
    requires Shaped(c, s) && Enabled(c, s, step)
    ensures Shaped(c, t)
  {
    match step
    case OfSender(i, l) => s.(senders := s.senders[i := LocalApply(c, s.senders[i], l)])
    case Serve(i, j) =>
      var ch, st := s.senders[i].chans[j], s.stores[j];
      if st.fifo.WriteFinished() then s.(failed := true)
      else
        WithChan(s, i, j, ch.(net := ch.net[1..], given := ch.given + [ch.net[0]]))
        .(stores := s.stores[j := st.(fifo := st.fifo.Enqueue((i, ch.net[0])))])
    case ServeEnd(i, j) =>
      var ch, st := s.senders[i].chans[j], s.stores[j];
      if |ch.given| == 0 || st.fifo.WriteFinished() then s.(failed := true)
      else
        WithChan(s, i, j, ch.(served := true))
        .(stores := s.stores[j := st.(fifo := st.fifo.(active := st.fifo.active - 1))])
    case StoreSee(j) => s.(stores := s.stores[j := s.stores[j].(saw := true)])
    case StoreTake(j) =>
      var st := s.stores[j];
      s.(stores := s.stores[j := st.(
        fifo := st.fifo.Dequeue(),
        taken := st.taken + [st.fifo.queue[0]],
        table := MergeAll(c.sink, st.table, DecodeBatch(st.fifo.queue[0].1)))])
    case StoreStop(j) => s.(stores := s.stores[j := s.stores[j].(done := true)])
  }

  /** The steps lead from s to t, each enabled where it is taken. */
  ghost predicate Run(c: Config, s: State, steps: seq<Step>, t: State)
    requires Shaped(c, s)
    decreases |steps|
  {
    if steps == [] then s == t
    else
      && Enabled(c, s, steps[0])
      && Run(c, Apply(c, s, steps[0]), steps[1..], t)
  }

  /** Every storing thread has returned. */
  predicate AllStored(s: State)
  {
    forall j :: 0 <= j < |s.stores| ==> s.stores[j].done
  }
}
