/** Concurrent use of one FifoBroker: several writers, one iterating reader, and
    every interleaving of their individual reads and writes of the shared state.
    The checks of put, signal_write_finish, is_closable and get are separate
    steps from the actions they guard, as in the code, where only the counter
    accesses and the queue operations are atomic. */
module BrokerRun {
  import opened Seqs
  import opened Broker

  /** Ready; past the finished-check of put; past the one of
      signal_write_finish; done; or stopped by a ValueError. */
  datatype WriterPc = Ready | Putting | Signalling | Signalled | Rejected

  datatype Writer<T> = Writer(todo: seq<T>, pc: WriterPc)

  /** The reader in __next__: at the loop test, between its two reads; inside
      get, between its two reads; waiting on the queue; or stopped. */
  datatype ReaderPc = Loop | LoopSawFinished | Getting | GettingSawFinished | Waiting | Stopped

  datatype State<T> = State(fifo: Fifo<(nat, T)>, writers: seq<Writer<T>>, reader: ReaderPc, taken: seq<(nat, T)>)

  datatype Step =
    | PutCheck(w: nat) | PutQueue(w: nat) | SignalCheck(w: nat) | SignalDecrement(w: nat)
    | ReadWriters | ReadEmpty | Take | Timeout

  /** Each writer has its items to put; the counter also expects `missing` signals that
      nobody will give. */
  function Init<T>(items: seq<seq<T>>, maxsize: int, missing: nat): State<T>
  {
    State(Fifo([], |items| + missing, maxsize), seq(|items|, i requires 0 <= i < |items| => Writer(items[i], Ready)), Loop, [])
  }

  predicate Enabled<T>(s: State<T>, step: Step)
  {
    match step
    case PutCheck(w) => w < |s.writers| && s.writers[w].pc == Ready && |s.writers[w].todo| != 0
    case PutQueue(w) => w < |s.writers| && s.writers[w].pc == Putting && |s.writers[w].todo| != 0 && s.fifo.HasRoom()
    case SignalCheck(w) => w < |s.writers| && s.writers[w].pc == Ready && |s.writers[w].todo| == 0
    case SignalDecrement(w) => w < |s.writers| && s.writers[w].pc == Signalling
    case ReadWriters => s.reader in {Loop, Getting}
    case ReadEmpty => s.reader in {LoopSawFinished, GettingSawFinished}
    case Take => s.reader == Waiting && |s.fifo.queue| != 0
    case Timeout => s.reader == Waiting && |s.fifo.queue| == 0
  }

  function Move<T>(s: State<T>, w: nat, pc: WriterPc): State<T>
    requires w < |s.writers|
  {
    s.(writers := s.writers[w := s.writers[w].(pc := pc)])
  }

  function Apply<T>(s: State<T>, step: Step): State<T>
    requires Enabled(s, step)
  {
    match step
    case PutCheck(w) => Move(s, w, if s.fifo.WriteFinished() then Rejected else Putting)
    case PutQueue(w) =>
      s.(fifo := s.fifo.Enqueue((w, s.writers[w].todo[0])),
         writers := s.writers[w := Writer(s.writers[w].todo[1..], Ready)])
    case SignalCheck(w) => Move(s, w, if s.fifo.WriteFinished() then Rejected else Signalling)
    case SignalDecrement(w) => Move(s, w, Signalled).(fifo := s.fifo.(active := s.fifo.active - 1))
    case ReadWriters =>
      s.(reader := if s.reader == Loop then (if s.fifo.WriteFinished() then LoopSawFinished else Getting)
                   else if s.fifo.WriteFinished() then GettingSawFinished else Waiting)
    case ReadEmpty =>
      s.(reader := if |s.fifo.queue| == 0 then Stopped
                   else if s.reader == LoopSawFinished then Getting else Waiting)
    case Take => s.(reader := Loop, taken := s.taken + [s.fifo.queue[0]], fifo := s.fifo.Dequeue())
    case Timeout => s.(reader := Loop)
  }

  /** The steps lead from s to t, each enabled where it is taken. */
  ghost predicate Run<T>(s: State<T>, steps: seq<Step>, t: State<T>)
    decreases |steps|
  {
    if steps == [] then s == t
    else Enabled(s, steps[0]) && Run(Apply(s, steps[0]), steps[1..], t)
  }

  /** Writers that have not yet decremented the counter. */
  function Unsignalled<T>(ws: seq<Writer<T>>): nat
  {
    if ws == [] then 0 else (if ws[0].pc == Signalled then 0 else 1) + Unsignalled(ws[1..])
  }

  lemma {:induction false} UnsignalledUpdate<T>(ws: seq<Writer<T>>, w: nat, x: Writer<T>)
    requires w < |ws|
    ensures Unsignalled(ws[w := x]) ==
              Unsignalled(ws) - (if ws[w].pc == Signalled then 0 else 1) + (if x.pc == Signalled then 0 else 1)
  {
    if w == 0 {
      assert ws[0 := x][1..] == ws[1..];
    } else {
      assert ws[w := x][1..] == ws[1..][w - 1 := x];
      UnsignalledUpdate(ws[1..], w - 1, x);
    }
  }

  lemma {:induction false} UnsignalledZero<T>(ws: seq<Writer<T>>)
    ensures Unsignalled(ws) == 0 <==> forall w :: 0 <= w < |ws| ==> ws[w].pc == Signalled
  {
    if ws != [] {
      UnsignalledZero(ws[1..]);
      assert forall w :: 1 <= w < |ws| ==> ws[w] == ws[1..][w - 1];
    }
  }

  lemma {:induction false} UnsignalledAll<T>(ws: seq<Writer<T>>)
    requires forall w :: 0 <= w < |ws| ==> ws[w].pc == Ready
    ensures Unsignalled(ws) == |ws|
  {
    if ws != [] {
      UnsignalledAll(ws[1..]);
    }
  }

  /** Everything ever put, in queue order. */
  function Log<T>(s: State<T>): seq<(nat, T)>
  {
    s.taken + s.fifo.queue
  }

  ghost predicate WriterInv<T>(s: State<T>, items: seq<T>, w: nat)
    requires w < |s.writers|
  {
    var x := s.writers[w];
    && Project(Log(s), w) + x.todo == items
    && x.pc != Rejected
    && (x.pc in {Signalling, Signalled} ==> x.todo == [])
    && (x.pc == Putting ==> x.todo != [])
  }

  ghost predicate Inv<T>(s: State<T>, items: seq<seq<T>>, missing: nat)
  {
    && |s.writers| == |items|
    && s.fifo.active == Unsignalled(s.writers) + missing
    && (forall w :: 0 <= w < |items| ==> WriterInv(s, items[w], w))
    && (forall i :: 0 <= i < |Log(s)| ==> Log(s)[i].0 < |items|)
    && (s.reader in {LoopSawFinished, GettingSawFinished, Stopped} ==> s.fifo.active == 0)
    && (s.reader == Stopped ==> s.fifo.queue == [])
  }

  lemma InitInv<T>(items: seq<seq<T>>, maxsize: int, missing: nat)
    ensures Inv(Init(items, maxsize, missing), items, missing)
  {
    UnsignalledAll(Init(items, maxsize, missing).writers);
  }

  /** A writer step that leaves the queue alone. */
  lemma MoveKeepsInv<T>(s: State<T>, items: seq<seq<T>>, missing: nat, step: Step)
    requires Inv(s, items, missing) && Enabled(s, step) && (step.PutCheck? || step.SignalCheck? || step.SignalDecrement?)
    ensures Inv(Apply(s, step), items, missing)
  {
    var w, t := step.w, Apply(s, step);
    assert Log(t) == Log(s);
    UnsignalledZero(s.writers);
    UnsignalledUpdate(s.writers, w, t.writers[w]);
    forall v | 0 <= v < |items| ensures WriterInv(t, items[v], v) {
      assert WriterInv(s, items[v], v);
    }
  }

  lemma PutKeepsInv<T>(s: State<T>, items: seq<seq<T>>, missing: nat, w: nat)
    requires Inv(s, items, missing) && Enabled(s, PutQueue(w))
    ensures Inv(Apply(s, PutQueue(w)), items, missing)
  {
    var t := Apply(s, PutQueue(w));
    var x := s.writers[w].todo[0];
    UnsignalledZero(s.writers);
    UnsignalledUpdate(s.writers, w, t.writers[w]);
    assert Log(t) == Log(s) + [(w, x)];
    forall v | 0 <= v < |items| ensures WriterInv(t, items[v], v) {
      assert WriterInv(s, items[v], v);
      ProjectConcat(Log(s), [(w, x)], v);
      assert Project([(w, x)], v) == if v == w then [x] else [];
    }
  }

  lemma ReaderKeepsInv<T>(s: State<T>, items: seq<seq<T>>, missing: nat, step: Step)
    requires Inv(s, items, missing) && Enabled(s, step) && (step.ReadWriters? || step.ReadEmpty? || step.Take? || step.Timeout?)
    ensures Inv(Apply(s, step), items, missing)
  {
    var t := Apply(s, step);
    assert Log(t) == Log(s);
    forall v | 0 <= v < |items| ensures WriterInv(t, items[v], v) {
      assert WriterInv(s, items[v], v);
    }
  }

  lemma StepKeepsInv<T>(s: State<T>, items: seq<seq<T>>, missing: nat, step: Step)
    requires Inv(s, items, missing) && Enabled(s, step)
    ensures Inv(Apply(s, step), items, missing)
  {
    if step.PutQueue? {
      PutKeepsInv(s, items, missing, step.w);
    } else if step.PutCheck? || step.SignalCheck? || step.SignalDecrement? {
      MoveKeepsInv(s, items, missing, step);
    } else {
      ReaderKeepsInv(s, items, missing, step);
    }
  }

  lemma {:induction false} RunKeepsInv<T>(s: State<T>, items: seq<seq<T>>, missing: nat, steps: seq<Step>, t: State<T>)
    requires Inv(s, items, missing) && Run(s, steps, t)
    ensures Inv(t, items, missing)
    decreases |steps|
  {
    if steps != [] {
      StepKeepsInv(s, items, missing, steps[0]);
      RunKeepsInv(Apply(s, steps[0]), items, missing, steps[1..], t);
    }
  }

  /** Over every interleaving: no put or signal of a writer that has not signalled
      is refused, the counter is the number of signals yet to come, and a reader
      that stops has received from each writer exactly its items in its order. A
      reader whose broker misses a signal never stops. */
  lemma ReaderGetsEverything<T>(items: seq<seq<T>>, maxsize: int, missing: nat, steps: seq<Step>, t: State<T>)
    requires Run(Init(items, maxsize, missing), steps, t)
    ensures |t.writers| == |items|
    ensures forall w :: 0 <= w < |items| ==> t.writers[w].pc != Rejected
    ensures t.fifo.active == Unsignalled(t.writers) + missing
    ensures t.reader == Stopped ==>
              && missing == 0
              && (forall w :: 0 <= w < |items| ==> t.writers[w].pc == Signalled && Project(t.taken, w) == items[w])
              && (forall i :: 0 <= i < |t.taken| ==> t.taken[i].0 < |items|)
  {
    InitInv(items, maxsize, missing);
    RunKeepsInv(Init(items, maxsize, missing), items, missing, steps, t);
    forall w | 0 <= w < |items|
      ensures t.writers[w].pc != Rejected
      ensures t.reader == Stopped ==> t.writers[w].pc == Signalled && Project(t.taken, w) == items[w]
    {
      assert WriterInv(t, items[w], w);
      UnsignalledZero(t.writers);
      if t.reader == Stopped {
        assert Log(t) == t.taken;
      }
    }
    if t.reader == Stopped {
      assert Log(t) == t.taken;
    }
  }

  lemma ClosableStep<T>(s: State<T>, items: seq<seq<T>>, missing: nat, step: Step)
    requires Inv(s, items, missing) && Enabled(s, step) && s.fifo.Closable()
    ensures Apply(s, step).fifo.Closable() && Apply(s, step).taken == s.taken
  {
    UnsignalledZero(s.writers);
  }

  lemma {:induction false} ClosableRun<T>(s: State<T>, items: seq<seq<T>>, missing: nat, steps: seq<Step>, t: State<T>)
    requires Inv(s, items, missing) && Run(s, steps, t) && s.fifo.Closable()
    ensures t.fifo.Closable() && t.taken == s.taken
    decreases |steps|
  {
    if steps != [] {
      ClosableStep(s, items, missing, steps[0]);
      StepKeepsInv(s, items, missing, steps[0]);
      ClosableRun(Apply(s, steps[0]), items, missing, steps[1..], t);
    }
  }

  /** A broker that is closable at some point of a run has given out everything that
      is ever put: each writer's items have been taken in order, and in every
      continuation it stays closable and nothing more is taken. */
  lemma ClosableIsFinal<T>(items: seq<seq<T>>, maxsize: int, missing: nat, steps: seq<Step>, s: State<T>, more: seq<Step>, t: State<T>)
    requires Run(Init(items, maxsize, missing), steps, s) && s.fifo.Closable() && Run(s, more, t)
    ensures missing == 0 && t.fifo.Closable() && t.taken == s.taken
    ensures forall w :: 0 <= w < |items| ==> Project(s.taken, w) == items[w]
  {
    InitInv(items, maxsize, missing);
    RunKeepsInv(Init(items, maxsize, missing), items, missing, steps, s);
    ClosableRun(s, items, missing, more, t);
    UnsignalledZero(s.writers);
    assert Log(s) == s.taken;
    forall w | 0 <= w < |items| ensures Project(s.taken, w) == items[w] {
      assert WriterInv(s, items[w], w);
    }
  }

  /** The reader is never stuck: in every state before it stops, one of its own
      steps is enabled, and one of the writers' steps is enabled until all have
      signalled or the queue is full. */
  lemma NeverStuck<T>(s: State<T>, items: seq<seq<T>>, missing: nat) returns (step: Step)
    requires Inv(s, items, missing) && s.reader != Stopped
    ensures Enabled(s, step)
    ensures Unsignalled(s.writers) != 0 && s.fifo.HasRoom() <==> !OfReader(step)
    ensures step == Timeout ==> s.fifo.queue == []
  {
    UnsignalledZero(s.writers);
    if Unsignalled(s.writers) != 0 && s.fifo.HasRoom() {
      var w :| 0 <= w < |s.writers| && s.writers[w].pc != Signalled;
      assert WriterInv(s, items[w], w);
      var x := s.writers[w];
      step := if x.pc == Putting then PutQueue(w)
              else if x.pc == Signalling then SignalDecrement(w)
              else if x.todo == [] then SignalCheck(w)
              else PutCheck(w);
    } else {
      step := match s.reader
        case Loop => ReadWriters
        case Getting => ReadWriters
        case Waiting => if s.fifo.queue == [] then Timeout else Take
        case _ => ReadEmpty;
    }
  }

  predicate OfReader(step: Step) { step.ReadWriters? || step.ReadEmpty? || step.Take? || step.Timeout? }

  // ------------------------------------------------------------------- capacity

  lemma {:induction false} RunKeepsCapacity<T>(s: State<T>, maxsize: int, steps: seq<Step>, t: State<T>)
    requires Within(s.fifo, maxsize) && Run(s, steps, t)
    ensures Within(t.fifo, maxsize)
    decreases |steps|
  {
    if steps != [] { RunKeepsCapacity(Apply(s, steps[0]), maxsize, steps[1..], t); }
  }

  /** A bounded queue never holds more than its capacity. */
  lemma CapacityIsKept<T>(items: seq<seq<T>>, maxsize: int, missing: nat, steps: seq<Step>, t: State<T>)
    requires Run(Init(items, maxsize, missing), steps, t)
    ensures t.fifo.maxsize == maxsize && (0 < maxsize ==> |t.fifo.queue| <= maxsize)
  {
    RunKeepsCapacity(Init(items, maxsize, missing), maxsize, steps, t);
  }

  // ------------------------------------------------------------------- stopping

  function WriterWork<T>(x: Writer<T>): nat
  {
    2 * |x.todo| + match x.pc case Ready => 3 case Putting => 2 case Signalling => 1 case _ => 0
  }

  function Work<T>(ws: seq<Writer<T>>): nat
  {
    if ws == [] then 0 else WriterWork(ws[0]) + Work(ws[1..])
  }

  lemma {:induction false} WorkUpdate<T>(ws: seq<Writer<T>>, w: nat, x: Writer<T>)
    requires w < |ws|
    ensures Work(ws[w := x]) == Work(ws) - WriterWork(ws[w]) + WriterWork(x)
  {
    if w == 0 {
      assert ws[0 := x][1..] == ws[1..];
    } else {
      assert ws[w := x][1..] == ws[1..][w - 1 := x];
      WorkUpdate(ws[1..], w - 1, x);
    }
  }

  /** How far the reader is from taking an item, or from stopping when none will come. */
  function ReaderWork<T>(s: State<T>): nat
  {
    match s.reader
    case Loop => 5
    case LoopSawFinished => 4
    case Getting => 3
    case GettingSawFinished => 2
    case Waiting => if s.fifo.queue == [] then 6 else 1
    case Stopped => 0
  }

  lemma StepLowersWork<T>(s: State<T>, items: seq<seq<T>>, step: Step)
    requires Inv(s, items, 0) && Enabled(s, step)
    requires Unsignalled(s.writers) != 0 && s.fifo.HasRoom() <==> !OfReader(step)
    ensures var t := Apply(s, step);
            || Work(t.writers) < Work(s.writers)
            || (t.writers == s.writers
                && (|t.fifo.queue| < |s.fifo.queue| || (t.fifo.queue == s.fifo.queue && ReaderWork(t) < ReaderWork(s))))
  {
    if !OfReader(step) {
      assert WriterInv(s, items[step.w], step.w);
      UnsignalledZero(s.writers);
      WorkUpdate(s.writers, step.w, Apply(s, step).writers[step.w]);
    }
  }

  /** When no signal is missing the reader can always be brought to stop. */
  lemma {:induction false} StopFrom<T>(s: State<T>, items: seq<seq<T>>) returns (more: seq<Step>, t: State<T>)
    requires Inv(s, items, 0)
    ensures Run(s, more, t) && t.reader == Stopped
    decreases Work(s.writers), |s.fifo.queue|, ReaderWork(s)
  {
    if s.reader == Stopped {
      more, t := [], s;
    } else {
      var step := NeverStuck(s, items, 0);
      StepLowersWork(s, items, step);
      StepKeepsInv(s, items, 0, step);
      var rest;
      rest, t := StopFrom(Apply(s, step), items);
      more := [step] + rest;
      assert more[1..] == rest;
    }
  }

  ghost predicate StopsBy<T>(s: State<T>, more: seq<Step>, t: State<T>) { Run(s, more, t) && t.reader == Stopped }

  /** From every reachable state the reader can still stop exactly when no signal is
      missing. */
  lemma StopsUnlessMissing<T>(items: seq<seq<T>>, maxsize: int, missing: nat, steps: seq<Step>, s: State<T>)
    requires Run(Init(items, maxsize, missing), steps, s)
    ensures (exists more, t :: StopsBy(s, more, t)) <==> missing == 0
  {
    InitInv(items, maxsize, missing);
    RunKeepsInv(Init(items, maxsize, missing), items, missing, steps, s);
    if missing == 0 {
      var more, t := StopFrom(s, items);
      assert StopsBy(s, more, t);
    } else {
      forall more, t ensures !StopsBy(s, more, t) {
        if Run(s, more, t) { RunKeepsInv(s, items, missing, more, t); }
      }
    }
  }

  lemma NoTags<T>(log: seq<(nat, T)>)
    requires forall i :: 0 <= i < |log| ==> log[i].0 < 0
    ensures log == []
  {
    if log != [] {
      var tag: nat := log[0].0;
      assert false;
    }
  }

  /** The routing thread of a map task whose write block was left before its
      BatchBroker was entered: the broker is empty, one signal is missing, and the
      thread never stops. */
  lemma EarlyExitHangs<T>(maxsize: int, steps: seq<Step>, t: State<T>)
    requires Run(Init([], maxsize, 1), steps, t)
    ensures Init<T>([], maxsize, 1).fifo == Fifo([], 1, maxsize)
    ensures t.reader != Stopped && t.taken == [] && !t.fifo.Closable()
  {
    InitInv<T>([], maxsize, 1);
    RunKeepsInv(Init([], maxsize, 1), [], 1, steps, t);
    NoTags(Log(t));
  }
}
