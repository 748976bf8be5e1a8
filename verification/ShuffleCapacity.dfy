/** Back-pressure in the shuffle: no broker ever holds more than its capacity. */
module ShuffleCapacity {
  import Bytes
  import opened Broker
  import opened Shuffle

  ghost predicate SenderWithin(c: Config, s: Sender)
  {
    && Within(s.hop.fifo, c.fifoSize)
    && forall j :: 0 <= j < |s.chans| ==> Within(s.chans[j].hop.fifo, c.fifoSize)
  }

  ghost predicate AllWithin(c: Config, s: State)
  {
    && (forall i :: 0 <= i < |s.senders| ==> SenderWithin(c, s.senders[i]))
    && (forall j :: 0 <= j < |s.stores| ==> Within(s.stores[j].fifo, c.storeSize))
  }

  lemma PutWithin(c: Config, h: Hop, x: Bytes.Pair)
    requires Within(h.fifo, c.fifoSize) && h.CanPut(c.batchSize)
    ensures Within(h.Put(x, c.batchSize).fifo, c.fifoSize)
  {
  }

  lemma LocalStepWithin(c: Config, s: Sender, l: Local)
    requires |s.chans| == c.parts && SenderWithin(c, s) && LocalEnabled(c, s, l)
    ensures SenderWithin(c, LocalApply(c, s, l))
  {
    if l.RoutePut? {
      var x := s.hop.local[0];
      PutWithin(c, s.chans[c.part(x.key)].hop, x);
    } else if l.MapPut? {
      PutWithin(c, s.hop, s.todo[0]);
    }
  }

  lemma StepWithin(c: Config, s: State, step: Step)
    requires Shaped(c, s) && AllWithin(c, s) && Enabled(c, s, step)
    ensures AllWithin(c, Apply(c, s, step))
  {
    match step
    case OfSender(i, l) =>
      assert SenderWithin(c, s.senders[i]);
      LocalStepWithin(c, s.senders[i], l);
    case Serve(i, j) =>
      assert SenderWithin(c, s.senders[i]) && Within(s.stores[j].fifo, c.storeSize);
    case ServeEnd(i, j) =>
      assert SenderWithin(c, s.senders[i]) && Within(s.stores[j].fifo, c.storeSize);
    case _ =>
      assert Within(s.stores[step.j].fifo, c.storeSize);
  }

  lemma {:induction false} RunWithin(c: Config, s: State, steps: seq<Step>, t: State)
    requires Shaped(c, s) && AllWithin(c, s) && Run(c, s, steps, t)
    ensures AllWithin(c, t)
    decreases |steps|
  {
    if steps != [] {
      StepWithin(c, s, steps[0]);
      RunWithin(c, Apply(c, s, steps[0]), steps[1..], t);
    }
  }

  /** In every reachable state every local broker and every transfer broker holds at most
      its capacity, where it has one. */
  lemma CapacityIsKept(c: Config, steps: seq<Step>, t: State)
    requires |c.base| == c.parts && Shaped(c, Init(c)) && Run(c, Init(c), steps, t)
    ensures 0 < c.fifoSize ==>
              forall i :: 0 <= i < |t.senders| ==>
                && |t.senders[i].hop.fifo.queue| <= c.fifoSize
                && forall j :: 0 <= j < |t.senders[i].chans| ==> |t.senders[i].chans[j].hop.fifo.queue| <= c.fifoSize
    ensures 0 < c.storeSize ==> forall j :: 0 <= j < |t.stores| ==> |t.stores[j].fifo.queue| <= c.storeSize
  {
    RunWithin(c, Init(c), steps, t);
    forall i | 0 <= i < |t.senders| ensures SenderWithin(c, t.senders[i]) { }
  }
}
