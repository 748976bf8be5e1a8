/** Whole runs of the shuffle: the invariant of every reachable state, the meaning
    of the finished job, and the fact that every run ends. */
module ShuffleRun {
  import opened Bytes
  import opened Seqs
  import opened Format
  import opened BinBatch
  import opened Shuffle
  import opened ShuffleFlow

  function Untag<T>(log: seq<(nat, T)>): seq<T>
  {
    if log == [] then [] else [log[0].1] + Untag(log[1..])
  }

  lemma {:induction false} UntagAppend<T>(log: seq<(nat, T)>, x: (nat, T))
    ensures Untag(log + [x]) == Untag(log) + [x.1]
  {
    if log != [] {
      assert (log + [x])[1..] == log[1..] + [x];
      UntagAppend(log[1..], x);
    }
  }

  /** Streams into partition j whose finish signal has not been given. */
  function Unserved(ss: seq<Sender>, j: nat): nat
    requires forall i :: 0 <= i < |ss| ==> j < |ss[i].chans|
  {
    if ss == [] then 0 else (if ss[0].chans[j].served then 0 else 1) + Unserved(ss[1..], j)
  }

  lemma {:induction false} UnservedUpdate(ss: seq<Sender>, j: nat, i: nat, x: Sender)
    requires forall i :: 0 <= i < |ss| ==> j < |ss[i].chans|
    requires i < |ss| && j < |x.chans|
    ensures Unserved(ss[i := x], j) ==
              Unserved(ss, j) - (if ss[i].chans[j].served then 0 else 1) + (if x.chans[j].served then 0 else 1)
  {
    if i == 0 {
      assert ss[0 := x][1..] == ss[1..];
    } else {
      assert ss[i := x][1..] == ss[1..][i - 1 := x];
      UnservedUpdate(ss[1..], j, i - 1, x);
    }
  }

  lemma {:induction false} UnservedZero(ss: seq<Sender>, j: nat)
    requires forall i :: 0 <= i < |ss| ==> j < |ss[i].chans|
    ensures Unserved(ss, j) == 0 <==> forall i :: 0 <= i < |ss| ==> ss[i].chans[j].served
    ensures (forall i :: 0 <= i < |ss| ==> !ss[i].chans[j].served) ==> Unserved(ss, j) == |ss|
  {
    if ss != [] {
      UnservedZero(ss[1..], j);
      assert forall i :: 1 <= i < |ss| ==> ss[i] == ss[1..][i - 1];
    }
  }

  /** All batches ever put into a partition's broker, in queue order. */
  function Log(st: Store): seq<(nat, Bytes)>
  {
    st.taken + st.fifo.queue
  }

  ghost predicate StoreInv(c: Config, st: Store, base: Table)
  {
    && st.table == MergeAll(c.sink, base, DecodeBatches(Untag(st.taken)))
    && (st.saw ==> st.fifo.active == 0)
    && (st.done ==> st.saw && st.fifo.queue == [])
    && Tagged(Log(st), |c.mapOut|)
  }

  /** Every batch of a log comes from one of n streams. */
  predicate Tagged(log: seq<(nat, Bytes)>, n: nat)
  {
    forall i :: 0 <= i < |log| ==> log[i].0 < n
  }

  /** The broker of partition j holds what its streams gave it, and counts the
      streams still to finish and the signals that no stream will give. */
  ghost predicate Linked(c: Config, s: State, j: nat)
    requires Shaped(c, s) && j < c.parts
  {
    && s.stores[j].fifo.active == Unserved(s.senders, j) + c.writers - |c.mapOut|
    && (forall i :: 0 <= i < |s.senders| ==> Project(Log(s.stores[j]), i) == s.senders[i].chans[j].given)
  }

  ghost predicate Inv(c: Config, s: State)
  {
    && |c.base| == c.parts && |c.mapOut| <= c.writers && Shaped(c, s) && !s.failed
    && (forall i :: 0 <= i < |c.mapOut| ==> SenderInv(c, s.senders[i], c.mapOut[i]))
    && (forall j :: 0 <= j < c.parts ==> StoreInv(c, s.stores[j], c.base[j]))
    && (forall j :: 0 <= j < c.parts ==> Linked(c, s, j))
  }

  lemma InitInv(c: Config)
    requires ValidConfig(c)
    ensures Inv(c, Init(c))
  {
    var s := Init(c);
    forall i | 0 <= i < |c.mapOut| ensures SenderInv(c, s.senders[i], c.mapOut[i]) {
      NewSenderInv(c, c.mapOut[i]);
    }
    forall j | 0 <= j < c.parts ensures Linked(c, s, j) {
      UnservedZero(s.senders, j);
    }
  }

  lemma SenderStepKeeps(c: Config, s: State, i: nat, l: Local)
    requires ValidConfig(c) && Inv(c, s) && Enabled(c, s, OfSender(i, l))
    ensures Inv(c, Apply(c, s, OfSender(i, l)))
  {
    var t := Apply(c, s, OfSender(i, l));
    LocalStepKeeps(c, s.senders[i], c.mapOut[i], l);
    forall j | 0 <= j < c.parts ensures Linked(c, t, j) {
      assert Linked(c, s, j);
      LocalKeepsGiven(c, s.senders[i], l, j);
      UnservedUpdate(s.senders, j, i, t.senders[i]);
    }
  }

  /** A sender's own steps do not touch what it has given and signalled. */
  lemma LocalKeepsGiven(c: Config, s: Sender, l: Local, j: nat)
    requires |s.chans| == c.parts && LocalEnabled(c, s, l) && j < c.parts
    ensures LocalApply(c, s, l).chans[j].given == s.chans[j].given
    ensures LocalApply(c, s, l).chans[j].served == s.chans[j].served
  {
  }

  lemma GiveKeepsFront(ch: Chan)
    requires |ch.net| != 0
    ensures Front(ch.(net := ch.net[1..], given := ch.given + [ch.net[0]])) == Front(ch)
  {
    DecodeBatchesConcat(ch.given, [ch.net[0]]);
    assert DecodeBatches([ch.net[0]]) == DecodeBatch(ch.net[0]);
    Reassociate(DecodeBatches(ch.given), DecodeBatch(ch.net[0]), DecodeBatches(ch.net[1..]), ch.group, ch.hop.Content());
  }

  lemma Reassociate<T>(a: seq<T>, b: seq<T>, c: seq<T>, d: seq<T>, e: seq<T>)
    ensures (a + b) + (c + d + e) == a + ((b + c) + d + e)
  {
  }

  /** A step that changes one stream (i, j) and the broker of partition j. */
  lemma OneStreamStep(c: Config, s: State, t: State, i: nat, j: nat, ch: Chan)
    requires Inv(c, s) && i < |c.mapOut| && j < c.parts && Shaped(c, t) && !t.failed
    requires t.senders == s.senders[i := s.senders[i].(chans := s.senders[i].chans[j := ch])]
    requires |t.stores| == |s.stores| && (forall j' :: 0 <= j' < c.parts && j' != j ==> t.stores[j'] == s.stores[j'])
    requires Front(ch) == Front(s.senders[i].chans[j]) && ChanSide(s.senders[i].routed, ch)
    requires StoreInv(c, t.stores[j], c.base[j]) && Linked(c, t, j)
    ensures Inv(c, t)
  {
    assert SenderInv(c, s.senders[i], c.mapOut[i]);
    ChanReplaced(c, s.senders[i], c.mapOut[i], j, ch);
    forall j' | 0 <= j' < c.parts ensures Linked(c, t, j') {
      assert Linked(c, s, j');
      UnservedUpdate(s.senders, j', i, t.senders[i]);
    }
  }

  lemma EnqueueKeepsStore(c: Config, st: Store, base: Table, x: (nat, Bytes))
    requires StoreInv(c, st, base) && st.fifo.active != 0 && x.0 < |c.mapOut|
    ensures StoreInv(c, st.(fifo := st.fifo.Enqueue(x)), base)
    ensures Log(st.(fifo := st.fifo.Enqueue(x))) == Log(st) + [x]
  {
    assert Log(st.(fifo := st.fifo.Enqueue(x))) == Log(st) + [x];
  }

  function Give(ch: Chan): Chan
    requires |ch.net| != 0
  {
    ch.(net := ch.net[1..], given := ch.given + [ch.net[0]])
  }

  lemma GiveKeepsChan(routed: bool, ch: Chan)
    requires |ch.net| != 0 && ChanSide(routed, ch)
    ensures Front(Give(ch)) == Front(ch) && ChanSide(routed, Give(ch))
  {
    GiveKeepsFront(ch);
    assert Give(ch).given + Give(ch).net == ch.given + ch.net;
  }

  /** A stream that has something to give keeps its broker waiting for writers. */
  lemma ServeAwaited(c: Config, s: State, i: nat, j: nat)
    requires Inv(c, s) && i < |c.mapOut| && j < c.parts && !s.senders[i].chans[j].served
    ensures s.stores[j].fifo.active != 0 && StoreInv(c, s.stores[j], c.base[j])
    ensures ChanSide(s.senders[i].routed, s.senders[i].chans[j])
  {
    assert Linked(c, s, j) && SenderInv(c, s.senders[i], c.mapOut[i]);
    UnservedZero(s.senders, j);
  }

  lemma ServeLinks(c: Config, s: State, i: nat, j: nat)
    requires Inv(c, s) && Enabled(c, s, Serve(i, j)) && s.stores[j].fifo.active != 0
    ensures Linked(c, Apply(c, s, Serve(i, j)), j)
  {
    var ch, st, t := s.senders[i].chans[j], s.stores[j], Apply(c, s, Serve(i, j));
    assert Linked(c, s, j) && StoreInv(c, st, c.base[j]);
    EnqueueKeepsStore(c, st, c.base[j], (i, ch.net[0]));
    UnservedUpdate(s.senders, j, i, t.senders[i]);
    GivenLog(c, s, t, i, j, ch.net[0]);
  }

  lemma ServeKeeps(c: Config, s: State, i: nat, j: nat)
    requires ValidConfig(c) && Inv(c, s) && Enabled(c, s, Serve(i, j))
    ensures Inv(c, Apply(c, s, Serve(i, j)))
  {
    var ch, st := s.senders[i].chans[j], s.stores[j];
    assert SenderInv(c, s.senders[i], c.mapOut[i]) && ChanSide(s.senders[i].routed, ch);
    ServeAwaited(c, s, i, j);
    GiveKeepsChan(s.senders[i].routed, ch);
    EnqueueKeepsStore(c, st, c.base[j], (i, ch.net[0]));
    ServeLinks(c, s, i, j);
    OneStreamStep(c, s, Apply(c, s, Serve(i, j)), i, j, Give(ch));
  }

  lemma GivenLog(c: Config, s: State, t: State, i: nat, j: nat, b: Bytes)
    requires Shaped(c, s) && Shaped(c, t) && j < c.parts && i < |s.senders|
    requires Log(t.stores[j]) == Log(s.stores[j]) + [(i, b)]
    requires forall i' :: 0 <= i' < |s.senders| ==> Project(Log(s.stores[j]), i') == s.senders[i'].chans[j].given
    requires t.senders[i].chans[j].given == s.senders[i].chans[j].given + [b]
    requires forall i' :: 0 <= i' < |s.senders| && i' != i ==> t.senders[i'] == s.senders[i']
    ensures forall i' :: 0 <= i' < |t.senders| ==> Project(Log(t.stores[j]), i') == t.senders[i'].chans[j].given
  {
    forall i' | 0 <= i' < |t.senders| ensures Project(Log(t.stores[j]), i') == t.senders[i'].chans[j].given {
      ProjectConcat(Log(s.stores[j]), [(i, b)], i');
      assert Project([(i, b)], i') == if i' == i then [b] else [];
    }
  }

  lemma ServeEndKeeps(c: Config, s: State, i: nat, j: nat)
    requires ValidConfig(c) && Inv(c, s) && Enabled(c, s, ServeEnd(i, j))
    ensures Inv(c, Apply(c, s, ServeEnd(i, j)))
  {
    var t := Apply(c, s, ServeEnd(i, j));
    var ch, st := s.senders[i].chans[j], s.stores[j];
    assert Linked(c, s, j);
    ServeAwaited(c, s, i, j);
    UnservedUpdate(s.senders, j, i, t.senders[i]);
    assert Log(t.stores[j]) == Log(st);
    OneStreamStep(c, s, t, i, j, ch.(served := true));
  }

  lemma StoreStepKeeps(c: Config, s: State, step: Step)
    requires ValidConfig(c) && Inv(c, s) && Enabled(c, s, step)
    requires step.StoreSee? || step.StoreTake? || step.StoreStop?
    ensures Inv(c, Apply(c, s, step))
  {
    var t, j := Apply(c, s, step), step.j;
    StoreStepLocal(c, s, step);
    forall j' | 0 <= j' < c.parts ensures StoreInv(c, t.stores[j'], c.base[j']) && Linked(c, t, j') {
      assert Linked(c, s, j') && StoreInv(c, s.stores[j'], c.base[j']);
    }
  }

  lemma StoreStepLocal(c: Config, s: State, step: Step)
    requires Inv(c, s) && Enabled(c, s, step)
    requires step.StoreSee? || step.StoreTake? || step.StoreStop?
    ensures var st := Apply(c, s, step).stores[step.j];
            && StoreInv(c, st, c.base[step.j])
            && Log(st) == Log(s.stores[step.j]) && st.fifo.active == s.stores[step.j].fifo.active
  {
    var st := s.stores[step.j];
    assert Linked(c, s, step.j) && StoreInv(c, st, c.base[step.j]);
    if step.StoreTake? {
      TakeKeepsStore(c, st, c.base[step.j]);
    } else {
      assert Log(Apply(c, s, step).stores[step.j]) == Log(st);
    }
  }

  lemma TakeKeepsStore(c: Config, st: Store, base: Table)
    requires StoreInv(c, st, base) && !st.done && |st.fifo.queue| != 0
    ensures var t := st.(fifo := st.fifo.Dequeue(), taken := st.taken + [st.fifo.queue[0]],
                         table := MergeAll(c.sink, st.table, DecodeBatch(st.fifo.queue[0].1)));
            StoreInv(c, t, base) && Log(t) == Log(st)
  {
    var t := st.(fifo := st.fifo.Dequeue(), taken := st.taken + [st.fifo.queue[0]],
                 table := MergeAll(c.sink, st.table, DecodeBatch(st.fifo.queue[0].1)));
    assert Log(t) == Log(st);
    TakeMerges(c, st, base);
  }

  lemma TakeMerges(c: Config, st: Store, base: Table)
    requires StoreInv(c, st, base) && |st.fifo.queue| != 0
    ensures MergeAll(c.sink, st.table, DecodeBatch(st.fifo.queue[0].1))
         == MergeAll(c.sink, base, DecodeBatches(Untag(st.taken + [st.fifo.queue[0]])))
  {
    var x := st.fifo.queue[0];
    UntagAppend(st.taken, x);
    DecodeBatchesConcat(Untag(st.taken), [x.1]);
    assert DecodeBatches([x.1]) == DecodeBatch(x.1);
    MergeAllConcat(c.sink, base, DecodeBatches(Untag(st.taken)), DecodeBatch(x.1));
  }

  lemma StepKeepsInv(c: Config, s: State, step: Step)
    requires ValidConfig(c) && Inv(c, s) && Enabled(c, s, step)
    ensures Inv(c, Apply(c, s, step))
  {
    match step
    case OfSender(i, l) => SenderStepKeeps(c, s, i, l);
    case Serve(i, j) => ServeKeeps(c, s, i, j);
    case ServeEnd(i, j) => ServeEndKeeps(c, s, i, j);
    case _ => StoreStepKeeps(c, s, step);
  }

  lemma {:induction false} RunKeepsInv(c: Config, s: State, steps: seq<Step>, t: State)
    requires ValidConfig(c) && Inv(c, s) && Run(c, s, steps, t)
    ensures Inv(c, t)
    decreases |steps|
  {
    if steps != [] {
      StepKeepsInv(c, s, steps[0]);
      RunKeepsInv(c, Apply(c, s, steps[0]), steps[1..], t);
    }
  }

  /** Every map task has given partition j its finish signal. */
  predicate AllServed(s: State, j: nat)
    requires forall i :: 0 <= i < |s.senders| ==> j < |s.senders[i].chans|
  {
    forall i :: 0 <= i < |s.senders| ==> s.senders[i].chans[j].served
  }

  /** Signal accounting, in every reachable state: nothing is ever refused, the
      writer count of each partition's broker is the number of map tasks whose
      stream into it is unfinished plus the declared writers that do not exist, and
      a partition is stored only after a signal from every declared writer: never if
      one does not exist. */
  lemma SignalAccounting(c: Config, steps: seq<Step>, t: State)
    requires ValidConfig(c) && Run(c, Init(c), steps, t)
    ensures Shaped(c, t) && !t.failed
    ensures forall j :: 0 <= j < c.parts ==>
              && t.stores[j].fifo.active == Unserved(t.senders, j) + c.writers - |c.mapOut|
              && (t.stores[j].done ==> t.stores[j].fifo.active == 0 && AllServed(t, j) && c.writers == |c.mapOut|)
  {
    InitInv(c);
    RunKeepsInv(c, Init(c), steps, t);
    forall j | 0 <= j < c.parts
      ensures t.stores[j].fifo.active == Unserved(t.senders, j) + c.writers - |c.mapOut|
      ensures t.stores[j].done ==> t.stores[j].fifo.active == 0 && AllServed(t, j) && c.writers == |c.mapOut|
    {
      assert Linked(c, t, j) && StoreInv(c, t.stores[j], c.base[j]);
      UnservedZero(t.senders, j);
    }
  }

  /** A partition that has been stored received, from every map task, exactly the
      task's pairs for that partition, in the task's order. */
  lemma StoredStream(c: Config, t: State, i: nat, j: nat)
    requires Inv(c, t) && i < |c.mapOut| && j < c.parts && t.stores[j].done
    ensures DecodeBatches(Project(t.stores[j].taken, i)) == Select(c.part, c.mapOut[i], j)
  {
    var s, st := t.senders[i], t.stores[j];
    var ch := s.chans[j];
    assert Linked(c, t, j) && StoreInv(c, st, c.base[j]) && SenderInv(c, s, c.mapOut[i]);
    UnservedZero(t.senders, j);
    assert ch.served && ChanSide(s.routed, ch) && Conserved(c, s, c.mapOut[i], j);
    assert Log(st) == st.taken;
    assert ch.hop.Content() == [] && s.hop.Content() + s.todo == [];
    assert Back(c.part, s.hop, s.todo, j) == [];
    assert Front(ch) == DecodeBatches(ch.given);
  }
}
