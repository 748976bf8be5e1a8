/** A BatchBroker at either end of one FifoBroker: every interleaving of the writer that
    puts a sequence of items and the reader that iterates, for every capacity of the
    queue and every batch size. */
module HopRun {
  import opened Bytes
  import opened Seqs
  import opened Broker
  import opened Shuffle

  /** The connection, what is left to put, what the reader has, and all batches ever put
      into the queue. */
  datatype State = Ends(hop: Hop, todo: seq<Pair>, taken: seq<Pair>, stopped: bool, batches: seq<seq<Pair>>)

  datatype Step = Put | Flush | Signal | See | Refill | Pop | Stop

  function Init(items: seq<Pair>, capacity: int, writers: nat): State
  {
    Ends(NewHop(capacity, writers), items, [], false, [])
  }

  predicate Enabled(size: int, s: State, step: Step)
  {
    match step
    case Put => |s.todo| != 0 && s.hop.CanPut(size)
    case Flush => |s.todo| == 0 && s.hop.CanCommit()
    case Signal => |s.todo| == 0 && s.hop.CanSignal()
    case See => s.hop.CanSee()
    case Refill => !s.stopped && s.hop.CanLoad()
    case Pop => !s.stopped && |s.hop.local| != 0
    case Stop => !s.stopped && s.hop.CanStop()
  }

  function Apply(size: int, s: State, step: Step): State
    requires Enabled(size, s, step)
  {
    match step
    case Put =>
      s.(hop := s.hop.Put(s.todo[0], size), todo := s.todo[1..],
         batches := s.batches + if s.hop.MustCommit(size) then [s.hop.pending] else [])
    case Flush => s.(hop := s.hop.Commit(), batches := s.batches + [s.hop.pending])
    case Signal => s.(hop := s.hop.Signal())
    case See => s.(hop := s.hop.(saw := true))
    case Refill => s.(hop := s.hop.Load())
    case Pop => s.(hop := s.hop.Pop(), taken := s.taken + [s.hop.local[0]])
    case Stop => s.(stopped := true)
  }

  ghost predicate Run(size: int, s: State, steps: seq<Step>, t: State)
    decreases |steps|
  {
    if steps == [] then s == t
    else Enabled(size, s, steps[0]) && Run(size, Apply(size, s, steps[0]), steps[1..], t)
  }

  /** Items cut into full batches, the pending one and the rest; the last batch may be
      short once nothing is pending or left. */
  ghost predicate CutSoFar(batches: seq<seq<Pair>>, pending: seq<Pair>, todo: seq<Pair>, items: seq<Pair>, n: nat)
  {
    && Flatten(batches) + (pending + todo) == items && |pending| <= n
    && (pending == [] && todo != [] ==> batches == [])
    && (forall i :: 0 <= i < |batches| ==> 1 <= |batches[i]| <= n)
    && (forall i :: 0 <= i < |batches| && (i < |batches| - 1 || pending != [] || todo != []) ==> |batches[i]| == n)
  }

  lemma PutPending(batches: seq<seq<Pair>>, pending: seq<Pair>, todo: seq<Pair>, items: seq<Pair>, n: nat)
    requires todo != [] && |pending| < n && CutSoFar(batches, pending, todo, items, n)
    ensures CutSoFar(batches, pending + [todo[0]], todo[1..], items, n)
  {
    assert pending + todo == (pending + [todo[0]]) + todo[1..];
  }

  lemma PutFull(batches: seq<seq<Pair>>, pending: seq<Pair>, todo: seq<Pair>, items: seq<Pair>, n: nat)
    requires todo != [] && 0 < |pending| == n && CutSoFar(batches, pending, todo, items, n)
    ensures CutSoFar(batches + [pending], [todo[0]], todo[1..], items, n)
  {
    FlattenAppend(batches, pending);
    assert [todo[0]] + todo[1..] == todo;
    assert Flatten(batches) + (pending + todo) == (Flatten(batches) + pending) + todo;
  }

  lemma FlushLast(batches: seq<seq<Pair>>, pending: seq<Pair>, items: seq<Pair>, n: nat)
    requires pending != [] && CutSoFar(batches, pending, [], items, n)
    ensures CutSoFar(batches + [pending], [], [], items, n)
  {
    FlattenAppend(batches, pending);
    assert pending + [] == pending && Flatten(batches + [pending]) + ([] + []) == Flatten(batches + [pending]);
  }

  ghost predicate Batched(s: State, items: seq<Pair>, n: nat) { CutSoFar(s.batches, s.hop.pending, s.todo, items, n) }

  ghost predicate Inv(s: State, items: seq<Pair>, capacity: int, writers: nat)
  {
    && s.taken + (s.hop.Content() + s.todo) == items
    && 0 <= s.hop.fifo.active <= writers
    && (s.hop.fifo.active < writers ==> s.todo == [] && s.hop.pending == [])
    && (s.hop.saw ==> s.hop.fifo.active == 0)
    && (s.stopped ==> s.hop.CanStop())
    && Within(s.hop.fifo, capacity)
  }

  lemma ContentMoves(size: int, s: State, step: Step)
    requires Enabled(size, s, step)
    ensures var t := Apply(size, s, step);
            t.taken + (t.hop.Content() + t.todo) == s.taken + (s.hop.Content() + s.todo)
  {
    match step
    case Put =>
      PutContent(s.hop, s.todo[0], size);
      assert s.todo == [s.todo[0]] + s.todo[1..];
    case Flush => CommitContent(s.hop);
    case Refill => LoadContent(s.hop);
    case Pop => PopContent(s.hop);
    case _ =>
  }

  lemma StepKeepsInv(s: State, items: seq<Pair>, size: int, capacity: int, writers: nat, step: Step)
    requires 1 <= writers && Inv(s, items, capacity, writers) && Enabled(size, s, step)
    ensures Inv(Apply(size, s, step), items, capacity, writers)
  {
    ContentMoves(size, s, step);
  }

  lemma StepKeepsBatched(s: State, items: seq<Pair>, size: int, step: Step)
    requires Batched(s, items, Max(size, 1)) && Enabled(size, s, step)
    ensures Batched(Apply(size, s, step), items, Max(size, 1))
  {
    var n := Max(size, 1);
    if step.Put? {
      if s.hop.MustCommit(size) {
        PutFull(s.batches, s.hop.pending, s.todo, items, n);
      } else {
        PutPending(s.batches, s.hop.pending, s.todo, items, n);
        assert s.batches + [] == s.batches;
      }
    } else if step.Flush? {
      FlushLast(s.batches, s.hop.pending, items, n);
    }
  }

  lemma {:induction false} RunKeepsInv(s: State, items: seq<Pair>, size: int, capacity: int, writers: nat, steps: seq<Step>, t: State)
    requires 1 <= writers && Inv(s, items, capacity, writers) && Batched(s, items, Max(size, 1)) && Run(size, s, steps, t)
    ensures Inv(t, items, capacity, writers) && Batched(t, items, Max(size, 1))
    decreases |steps|
  {
    if steps != [] {
      StepKeepsInv(s, items, size, capacity, writers, steps[0]);
      StepKeepsBatched(s, items, size, steps[0]);
      RunKeepsInv(Apply(size, s, steps[0]), items, size, capacity, writers, steps[1..], t);
    }
  }

  lemma Reached(items: seq<Pair>, size: int, capacity: int, writers: nat, steps: seq<Step>, t: State)
    requires 1 <= writers && Run(size, Init(items, capacity, writers), steps, t)
    ensures Inv(t, items, capacity, writers) && Batched(t, items, Max(size, 1))
  {
    var s := Init(items, capacity, writers);
    assert s.taken + (s.hop.Content() + s.todo) == items;
    RunKeepsInv(s, items, size, capacity, writers, steps, t);
  }

  /** BatchBroker is transparent. In every reachable state the queue keeps its capacity,
      every batch put so far has the batch size unless it was the final flush, the reader
      has a prefix of what was put, and a reader that stops has all of it, cut into
      batches of which only the last may be short. */
  lemma BatchBrokerIsTransparent(items: seq<Pair>, size: int, capacity: int, writers: nat, steps: seq<Step>, t: State)
    requires 1 <= writers && Run(size, Init(items, capacity, writers), steps, t)
    ensures 0 < capacity ==> |t.hop.fifo.queue| <= capacity
    ensures forall i :: 0 <= i < |t.batches| ==> 1 <= |t.batches[i]| <= Max(size, 1)
    ensures t.hop.pending + t.todo != [] ==> forall i :: 0 <= i < |t.batches| ==> |t.batches[i]| == Max(size, 1)
    ensures t.taken <= items
    ensures t.stopped ==> t.taken == items && CutInto(t.batches, items, Max(size, 1))
  {
    Reached(items, size, capacity, writers, steps, t);
  }

  /** Until the reader stops some step is enabled: the queue's capacity blocks neither
      side for good. */
  lemma Progress(items: seq<Pair>, size: int, capacity: int, writers: nat, steps: seq<Step>, t: State) returns (step: Step)
    requires 1 <= writers && Run(size, Init(items, capacity, writers), steps, t) && !t.stopped
    ensures Enabled(size, t, step)
  {
    Reached(items, size, capacity, writers, steps, t);
    var h := t.hop;
    if |h.local| != 0 { return Pop; }
    if |h.fifo.queue| != 0 { return Refill; }
    if h.saw { return Stop; }
    if h.fifo.WriteFinished() { return See; }
    if |t.todo| != 0 { return Put; }
    step := if |h.pending| != 0 then Flush else Signal;
  }
}
