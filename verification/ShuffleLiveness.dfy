/** Every run of the shuffle ends, and a run that cannot go on has stored every
    partition: no schedule of the threads blocks or loops. */
module ShuffleLiveness {
  import opened Bytes
  import opened Seqs
  import opened Shuffle
  import opened ShuffleFlow
  import opened ShuffleRun

  // --------------------------------------------------------- no deadlock

  /** A stream that is not sent, of a sender that is not blocked elsewhere. */
  lemma StreamProgress(c: Config, s: Sender, out: seq<Pair>, j: nat) returns (l: Local)
    requires ValidConfig(c) && SenderInv(c, s, out) && j < c.parts && !s.chans[j].sent
    ensures LocalEnabled(c, s, l)
  {
    var h := s.chans[j].hop;
    assert ChanSide(s.routed, s.chans[j]);
    if |h.local| != 0 { return SendWrite(j); }
    if |h.fifo.queue| != 0 { return SendLoad(j); }
    if h.saw { return SendStop(j); }
    if h.fifo.WriteFinished() { return SendSee(j); }
    if s.routed {
      return if |h.pending| != 0 then OutCommit(j) else OutSignal(j);
    }
    l := RouteProgress(c, s, out);
  }

  /** The routing thread, or whoever it waits for, can move. */
  lemma RouteProgress(c: Config, s: Sender, out: seq<Pair>) returns (l: Local)
    requires ValidConfig(c) && SenderInv(c, s, out) && !s.routed
    ensures LocalEnabled(c, s, l)
  {
    var h := s.hop;
    if |h.local| != 0 {
      var j := c.part(h.local[0].key);
      var target := s.chans[j];
      assert ChanSide(s.routed, target);
      if target.hop.CanPut(c.batchSize) { return RoutePut; }
      return if |target.hop.local| != 0 then SendWrite(j) else SendLoad(j);
    }
    if |h.fifo.queue| != 0 { return RouteLoad; }
    if h.saw { return RouteStop; }
    if h.fifo.WriteFinished() { return RouteSee; }
    if |s.todo| != 0 { return MapPut; }
    l := if |h.pending| != 0 then MapCommit else MapSignal;
  }

  /** In every reachable state with an unfinished partition some step is enabled, when
      as many writers are declared as there are map tasks. */
  lemma NoDeadlock(c: Config, s: State) returns (step: Step)
    requires ValidConfig(c) && c.writers == |c.mapOut| && Inv(c, s) && !AllStored(s)
    ensures Enabled(c, s, step)
  {
    var j :| 0 <= j < |s.stores| && !s.stores[j].done;
    var st := s.stores[j];
    assert Linked(c, s, j) && StoreInv(c, st, c.base[j]);
    if |st.fifo.queue| != 0 { return StoreTake(j); }
    if st.saw { return StoreStop(j); }
    if st.fifo.WriteFinished() { return StoreSee(j); }
    UnservedZero(s.senders, j);
    var i :| 0 <= i < |s.senders| && !s.senders[i].chans[j].served;
    assert SenderInv(c, s.senders[i], c.mapOut[i]);
    var ch := s.senders[i].chans[j];
    if |ch.net| != 0 { return Serve(i, j); }
    if ch.sent { return ServeEnd(i, j); }
    var l := StreamProgress(c, s.senders[i], c.mapOut[i], j);
    step := OfSender(i, l);
  }

  // -------------------------------------------------------------- the measure

  function Sum<T>(f: T -> nat, xs: seq<T>): nat
  {
    if xs == [] then 0 else f(xs[0]) + Sum(f, xs[1..])
  }

  lemma {:induction false} SumUpdate<T>(f: T -> nat, xs: seq<T>, i: nat, x: T)
    requires i < |xs|
    ensures Sum(f, xs[i := x]) == Sum(f, xs) - f(xs[i]) + f(x)
  {
    if i == 0 {
      assert xs[0 := x][1..] == xs[1..];
    } else {
      assert xs[i := x][1..] == xs[1..][i - 1 := x];
      SumUpdate(f, xs[1..], i - 1, x);
    }
  }

  function Flag(b: bool): nat { if b then 0 else 1 }

  /** Work left in a connection, when a pair handed on costs `unit`. */
  function HopWeight(h: Hop, unit: nat): nat
  {
    unit * (|h.local| + |Flatten(h.fifo.queue)| + |h.pending|) + |h.fifo.queue| + 2 * |h.pending|
    + (if h.fifo.active > 0 then h.fifo.active else 0) + Flag(h.saw)
  }

  function ChanWeight(ch: Chan): nat
  {
    HopWeight(ch.hop, 3) + 3 * Flag(ch.sent) + 2 * |ch.net| + Flag(ch.served)
  }

  function SenderWeight(s: Sender): nat
  {
    9 * |s.todo| + HopWeight(s.hop, 6) + Flag(s.routed) + Sum(ChanWeight, s.chans)
  }

  function StoreWeight(st: Store): nat
  {
    |st.fifo.queue| + Flag(st.saw) + Flag(st.done)
  }

  /** An upper bound on the steps still possible. */
  function Weight(s: State): nat
  {
    Sum(SenderWeight, s.senders) + Sum(StoreWeight, s.stores)
  }

  lemma PutWeight(h: Hop, x: Pair, size: int, unit: nat)
    requires unit == 3 || unit == 6
    ensures HopWeight(h.Put(x, size), unit) <= HopWeight(h, unit) + unit + 2
  {
    FlattenAppend(h.fifo.queue, h.pending);
    var n := |h.local| + |Flatten(h.fifo.queue)| + |h.pending|;
    var g := h.Put(x, size);
    assert |g.local| + |Flatten(g.fifo.queue)| + |g.pending| == n + 1;
    assert unit * (n + 1) == unit * n + unit;
  }

  lemma HopStepWeight(h: Hop, unit: nat)
    requires unit == 3 || unit == 6
    ensures h.CanCommit() ==> HopWeight(h.Commit(), unit) < HopWeight(h, unit)
    ensures h.CanSignal() ==> HopWeight(h.Signal(), unit) < HopWeight(h, unit)
    ensures h.CanSee() ==> HopWeight(h.(saw := true), unit) < HopWeight(h, unit)
    ensures h.CanLoad() ==> HopWeight(h.Load(), unit) < HopWeight(h, unit)
    ensures |h.local| != 0 ==> HopWeight(h.Pop(), unit) == HopWeight(h, unit) - unit
  {
    if h.CanCommit() { FlattenAppend(h.fifo.queue, h.pending); }
    if h.CanLoad() { assert |Flatten(h.fifo.queue)| == |h.fifo.queue[0]| + |Flatten(h.fifo.queue[1..])|; }
  }

  lemma ChanStepWeight(c: Config, s: Sender, l: Local)
    requires |s.chans| == c.parts && LocalEnabled(c, s, l) && Touches(l)
    ensures ChanWeight(ChanApply(c, s.chans[l.j], l)) < ChanWeight(s.chans[l.j])
  {
    HopStepWeight(s.chans[l.j].hop, 3);
  }

  lemma LocalStepWeight(c: Config, s: Sender, l: Local)
    requires |s.chans| == c.parts && LocalEnabled(c, s, l)
    ensures SenderWeight(LocalApply(c, s, l)) < SenderWeight(s)
  {
    var t := LocalApply(c, s, l);
    HopStepWeight(s.hop, 6);
    if Touches(l) {
      ChanStepWeight(c, s, l);
      SumUpdate(ChanWeight, s.chans, l.j, t.chans[l.j]);
    } else if l.MapPut? {
      PutWeight(s.hop, s.todo[0], c.batchSize, 6);
    } else if l.RoutePut? {
      var x := s.hop.local[0];
      var j := c.part(x.key);
      PutWeight(s.chans[j].hop, x, c.batchSize, 3);
      SumUpdate(ChanWeight, s.chans, j, t.chans[j]);
    }
  }

  lemma StepWeight(c: Config, s: State, step: Step)
    requires ValidConfig(c) && Inv(c, s) && Enabled(c, s, step)
    ensures Weight(Apply(c, s, step)) < Weight(s)
  {
    if step.OfSender? {
      LocalStepWeight(c, s.senders[step.i], step.l);
      SumUpdate(SenderWeight, s.senders, step.i, LocalApply(c, s.senders[step.i], step.l));
    } else {
      StepKeepsInv(c, s, step);
      RemoteStepWeight(c, s, step);
    }
  }

  lemma RemoteStepWeight(c: Config, s: State, step: Step)
    requires Shaped(c, s) && Enabled(c, s, step) && !step.OfSender? && !Apply(c, s, step).failed
    ensures Weight(Apply(c, s, step)) < Weight(s)
  {
    var t := Apply(c, s, step);
    SumUpdate(StoreWeight, s.stores, step.j, t.stores[step.j]);
    if step.Serve? || step.ServeEnd? {
      ServeStepWeight(c, s, step);
      SumUpdate(SenderWeight, s.senders, step.i, t.senders[step.i]);
    }
  }

  lemma ServeStepWeight(c: Config, s: State, step: Step)
    requires Shaped(c, s) && Enabled(c, s, step) && (step.Serve? || step.ServeEnd?)
    requires !Apply(c, s, step).failed
    ensures var t := Apply(c, s, step);
            SenderWeight(t.senders[step.i]) + StoreWeight(t.stores[step.j])
              < SenderWeight(s.senders[step.i]) + StoreWeight(s.stores[step.j])
  {
    var t := Apply(c, s, step);
    SumUpdate(ChanWeight, s.senders[step.i].chans, step.j, t.senders[step.i].chans[step.j]);
  }

  /** Every run is at most as long as the weight of its first state allows. */
  lemma {:induction false} RunBound(c: Config, s: State, steps: seq<Step>, t: State)
    requires ValidConfig(c) && Inv(c, s) && Run(c, s, steps, t)
    ensures |steps| + Weight(t) <= Weight(s)
    decreases |steps|
  {
    if steps != [] {
      StepWeight(c, s, steps[0]);
      StepKeepsInv(c, s, steps[0]);
      RunBound(c, Apply(c, s, steps[0]), steps[1..], t);
    }
  }

  /** Under every schedule the job ends: runs are bounded, and a run that cannot be
      extended has stored every partition, exactly when there are no more declared
      writers than map tasks. */
  lemma EveryScheduleFinishes(c: Config, steps: seq<Step>, t: State)
    requires ValidConfig(c) && Run(c, Init(c), steps, t)
    ensures |steps| <= Weight(Init(c)) && Shaped(c, t)
    ensures c.parts != 0 && (forall step :: !Enabled(c, t, step)) ==> (AllStored(t) <==> c.writers == |c.mapOut|)
  {
    InitInv(c);
    RunBound(c, Init(c), steps, t);
    RunKeepsInv(c, Init(c), steps, t);
    SignalAccounting(c, steps, t);
    if c.writers == |c.mapOut| && !AllStored(t) {
      var step := NoDeadlock(c, t);
    }
  }
}
