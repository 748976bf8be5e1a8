/** Every way a partition can be pushed: streams one after the other, each attempted
    any number of times, each attempt pulling any number of packets before it fails. */
module PushRun {
  import opened Bytes
  import opened Seqs
  import opened RollSitePush

  datatype Phase = Between | Pushing | GaveUp

  /** A packet that was generated, with the stream and position it was generated for. */
  datatype Entry = Entry(stream: nat, pos: nat, packet: Packet)

  /** `stream` streams have been taken; the current one is on attempt `attempt`, whose
      generator has not been pulled (None) or has given some packets. `firstPulled`
      says that attempt 0 of this stream was pulled, `stale` that some retry was pulled
      although attempt 0 of its stream never was, and `late` that this happened on a
      stream after the first. */
  datatype State = State(helper: Helper, stream: nat, phase: Phase, attempt: nat, pulled: Option<nat>,
                         firstPulled: bool, stale: bool, late: bool, net: seq<Entry>)

  datatype Step = NextStream | Pull | Fail | Succeed | GiveUp

  function Init(totalBatches: int, totalStreams: int): State
  {
    State(Helper(Header(0, 0, false, totalBatches, totalStreams), false, 0, 0), 0, Between, 0, None, false, false, false, [])
  }

  predicate Enabled(streams: seq<seq<Bytes>>, s: State, step: Step)
  {
    match step
    case NextStream => s.phase == Between && s.stream < |streams|
    case Pull =>
      && s.phase == Pushing && 0 < s.stream <= |streams|
      && (if s.pulled.None? then 0 else s.pulled.value) < |streams[s.stream - 1]|
    case Fail => s.phase == Pushing
    case Succeed =>
      s.phase == Pushing && 0 < s.stream <= |streams| && s.pulled == Some(|streams[s.stream - 1]|)
    case GiveUp => s.phase == Pushing
  }

  /** The next pull starts a retry of a stream whose attempt 0 was never pulled. */
  predicate StalePull(s: State) { s.pulled.None? && s.attempt != 0 && !s.firstPulled }

  function Apply(streams: seq<seq<Bytes>>, s: State, step: Step): State
    requires Enabled(streams, s, step)
  {
    match step
    case NextStream =>
      // the stream number is raised, then the stream is drained, which sets the flag
      var h := s.helper.header;
      s.(helper := s.helper.(header := h.(streamSeq := h.streamSeq + 1), finish := s.stream + 1 == |streams|),
         stream := s.stream + 1, phase := Pushing, attempt := 0, pulled := None, firstPulled := false)
    case Pull =>
      var data := streams[s.stream - 1];
      var begun := if s.pulled.None? then s.helper.Begin(s.attempt) else s.helper;
      var n := if s.pulled.None? then 0 else s.pulled.value;
      var next := begun.Advance(n + 1 == |data|);
      s.(helper := next, pulled := Some(n + 1),
         firstPulled := s.firstPulled || s.attempt == 0,
         stale := s.stale || StalePull(s), late := s.late || (StalePull(s) && 1 < s.stream),
         net := s.net + [Entry(s.stream - 1, n, Packet(next.header, data[n]))])
    case Fail => s.(attempt := s.attempt + 1, pulled := None)
    case Succeed => s.(phase := Between)
    case GiveUp => s.(phase := GaveUp)
  }

  ghost predicate Run(streams: seq<seq<Bytes>>, s: State, steps: seq<Step>, t: State)
    decreases |steps|
  {
    if steps == [] then s == t
    else Enabled(streams, s, steps[0]) && Run(streams, Apply(streams, s, steps[0]), steps[1..], t)
  }

  lemma {:induction false} RunAppend(streams: seq<seq<Bytes>>, s: State, steps: seq<Step>, m: State, step: Step)
    requires Run(streams, s, steps, m) && Enabled(streams, m, step)
    ensures Run(streams, s, steps + [step], Apply(streams, m, step))
    decreases |steps|
  {
    if steps == [] {
      assert [] + [step] == [step] && [step][1..] == [];
      assert Run(streams, Apply(streams, m, step), [], Apply(streams, m, step));
    } else {
      assert (steps + [step])[1..] == steps[1..] + [step];
      RunAppend(streams, Apply(streams, s, steps[0]), steps[1..], m, step);
    }
  }

  /** From s to t the current attempt was pulled n times, and gave what the packet
      generator gives. */
  ghost predicate PulledTo(s: State, t: State, data: seq<Bytes>, n: nat)
  {
    && 0 < s.stream && n <= |Sent(data)|
    && var (x, packets) := Pulled(s.helper.Begin(s.attempt), Sent(data), n);
       && t == s.(helper := x, pulled := Some(n), firstPulled := t.firstPulled, stale := t.stale, late := t.late, net := t.net)
       && |t.net| == |s.net| + n && t.net[..|s.net|] == s.net
       && forall i :: 0 <= i < n ==> t.net[|s.net| + i] == Entry(s.stream - 1, i, packets[i])
  }

  /** The pulls of an attempt are those of generate_packet: n pulls of a stream without
      empty batches lead to the helper and the packets of its specification. */
  lemma {:induction false} PullsArePulled(streams: seq<seq<Bytes>>, s: State, data: seq<Bytes>, n: nat) returns (steps: seq<Step>, t: State)
    requires s.phase == Pushing && 0 < s.stream <= |streams| && s.pulled == None
    requires data == streams[s.stream - 1] && 0 < n <= |data|
    requires forall i :: 0 <= i < |data| ==> data[i] != []
    ensures |steps| == n && (forall i :: 0 <= i < n ==> steps[i] == Pull) && Run(streams, s, steps, t)
    ensures PulledTo(s, t, data, n)
  {
    if n == 1 {
      steps, t := [Pull], Apply(streams, s, Pull);
      assert steps[1..] == [];
      assert Run(streams, t, [], t);
      assert Pulled(s.helper.Begin(s.attempt), Sent(data), 0) == (s.helper.Begin(s.attempt), []);
    } else {
      var before, m := PullsArePulled(streams, s, data, n - 1);
      RunAppend(streams, s, before, m, Pull);
      steps, t := before + [Pull], Apply(streams, m, Pull);
      PullOnce(s, m, streams, n - 1);
    }
  }

  lemma PullOnce(s: State, m: State, streams: seq<seq<Bytes>>, n: nat)
    requires 0 < s.stream <= |streams| && s.phase == Pushing
    requires var data := streams[s.stream - 1]; 0 < n < |data| && Sent(data) == data && PulledTo(s, m, data, n)
    ensures Enabled(streams, m, Pull) && PulledTo(s, Apply(streams, m, Pull), streams[s.stream - 1], n + 1)
  {
    var data := streams[s.stream - 1];
    var (x, packets) := Pulled(s.helper.Begin(s.attempt), Sent(data), n);
    PulledNext(s.helper.Begin(s.attempt), Sent(data), x, packets);
    var t := Apply(streams, m, Pull);
    var (y, more) := Pulled(s.helper.Begin(s.attempt), Sent(data), n + 1);
    forall i | 0 <= i < n + 1 ensures t.net[|s.net| + i] == Entry(s.stream - 1, i, more[i]) {
      if i < n { assert t.net[|s.net| + i] == m.net[|s.net| + i]; }
    }
  }

  /** Batches before stream n. */
  function Before(streams: seq<seq<Bytes>>, n: nat): nat
    requires n <= |streams|
  {
    |Flatten(streams[..n])|
  }

  lemma BeforeNext(streams: seq<seq<Bytes>>, n: nat)
    requires n < |streams|
    ensures Before(streams, n + 1) == Before(streams, n) + |streams[n]|
  {
    assert streams[..n + 1] == streams[..n] + [streams[n]];
    FlattenAppend(streams[..n], streams[n]);
  }

  /** The packet carries its stream's number and its batch's position in the whole push. */
  predicate Numbered(streams: seq<seq<Bytes>>, e: Entry)
  {
    && e.stream < |streams| && e.pos < |streams[e.stream]|
    && e.packet.header.streamSeq == e.stream + 1
    && e.packet.header.batchSeq == Before(streams, e.stream) + e.pos + 1
    && e.packet.data == streams[e.stream][e.pos]
  }

  /** A packet marked finished belongs to the last stream and carries the true totals;
      the very last packet is always marked. */
  predicate MarkedRight(streams: seq<seq<Bytes>>, e: Entry)
  {
    var h := e.packet.header;
    && (h.finished ==> e.stream == |streams| - 1 && h.totalBatches == |Flatten(streams)| && h.totalStreams == |streams|)
    && (e.stream == |streams| - 1 && e.stream < |streams| && e.pos == |streams[e.stream]| - 1 ==> h.finished)
  }

  ghost predicate HelperInv(streams: seq<seq<Bytes>>, s: State)
    requires s.stream <= |streams|
  {
    var h := s.helper.header;
    && h.streamSeq == s.stream
    && (s.stream == 0 ==> s.phase == Between)
    && (0 < s.stream ==> (s.helper.finish <==> s.stream == |streams|))
    && (h.finished ==> s.stream == |streams| && h.totalBatches == |Flatten(streams)| && h.totalStreams == |streams|)
    && (s.phase == Between ==> h.batchSeq == Before(streams, s.stream) && s.helper.lastStream <= s.stream)
    && (s.phase != Between ==>
          && 0 < s.stream
          && (if s.firstPulled then s.helper.lastBatch == Before(streams, s.stream - 1) && s.helper.lastStream == s.stream
              else h.batchSeq == Before(streams, s.stream - 1) && s.helper.lastStream < s.stream)
          && (s.attempt == 0 ==> (s.firstPulled <==> s.pulled.Some?))
          && (s.pulled.Some? ==>
                && s.firstPulled && s.pulled.value <= |streams[s.stream - 1]|
                && h.batchSeq == Before(streams, s.stream - 1) + s.pulled.value))
  }

  ghost predicate Inv(streams: seq<seq<Bytes>>, s: State)
  {
    && s.stream <= |streams|
    && (forall i :: 0 <= i < |s.net| ==> s.net[i].stream < |streams|)
    && (!s.stale ==>
          && HelperInv(streams, s)
          && (forall i :: 0 <= i < |s.net| ==> Numbered(streams, s.net[i]) && MarkedRight(streams, s.net[i])))
    && (s.stale ==> exists i :: 0 <= i < |s.net| && !Numbered(streams, s.net[i]))
  }

  lemma InitInv(streams: seq<seq<Bytes>>, totalBatches: int, totalStreams: int)
    ensures Inv(streams, Init(totalBatches, totalStreams))
  {
    assert streams[..0] == [];
  }

  lemma PullKeepsInv(streams: seq<seq<Bytes>>, s: State)
    requires Inv(streams, s) && Enabled(streams, s, Pull) && !s.stale
    ensures Inv(streams, Apply(streams, s, Pull))
  {
    var t := Apply(streams, s, Pull);
    var e := t.net[|s.net|];
    assert t.net == s.net + [e];
    BeforeNext(streams, s.stream - 1);
    if s.stream == |streams| {
      assert streams[..|streams|] == streams;
    }
    if t.stale {
      assert e.packet.header.streamSeq != s.stream;
      assert !Numbered(streams, e);
    } else {
      assert Numbered(streams, e) && MarkedRight(streams, e);
      forall i | 0 <= i < |t.net| ensures Numbered(streams, t.net[i]) && MarkedRight(streams, t.net[i]) {
        if i < |s.net| { assert t.net[i] == s.net[i]; }
      }
    }
  }

  lemma StaleStays(streams: seq<seq<Bytes>>, s: State, step: Step)
    requires Inv(streams, s) && Enabled(streams, s, step) && s.stale
    ensures Inv(streams, Apply(streams, s, step))
  {
    var t := Apply(streams, s, step);
    var i :| 0 <= i < |s.net| && !Numbered(streams, s.net[i]);
    assert t.net[i] == s.net[i];
  }

  lemma StepKeepsInv(streams: seq<seq<Bytes>>, s: State, step: Step)
    requires Inv(streams, s) && Enabled(streams, s, step)
    ensures Inv(streams, Apply(streams, s, step))
  {
    if s.stale {
      StaleStays(streams, s, step);
    } else if step == Pull {
      PullKeepsInv(streams, s);
    } else if step == Succeed {
      BeforeNext(streams, s.stream - 1);
    }
  }

  lemma {:induction false} RunKeepsInv(streams: seq<seq<Bytes>>, s: State, steps: seq<Step>, t: State)
    requires Inv(streams, s) && Run(streams, s, steps, t)
    ensures Inv(streams, t)
    decreases |steps|
  {
    if steps != [] {
      StepKeepsInv(streams, s, steps[0]);
      RunKeepsInv(streams, Apply(streams, s, steps[0]), steps[1..], t);
    }
  }

  /** Retry-safe numbering, over every sequence of attempts. All packets ever generated
      carry the right stream and batch numbers exactly when no retry was pulled before
      its stream's first attempt; and then every packet marked finished carries the
      true totals, even those that a retry of the last stream marks early. */
  lemma NumberingIsRetrySafe(streams: seq<seq<Bytes>>, totalBatches: int, totalStreams: int, steps: seq<Step>, t: State)
    requires Run(streams, Init(totalBatches, totalStreams), steps, t)
    ensures (forall i :: 0 <= i < |t.net| ==> Numbered(streams, t.net[i])) <==> !t.stale
    ensures !t.stale ==> forall i :: 0 <= i < |t.net| ==> MarkedRight(streams, t.net[i])
  {
    InitInv(streams, totalBatches, totalStreams);
    RunKeepsInv(streams, Init(totalBatches, totalStreams), steps, t);
  }

  // ------------------------------------------------------- batch numbers and totals

  /** The packet carries its batch's position in the whole push. */
  predicate BatchNumbered(streams: seq<seq<Bytes>>, e: Entry)
  {
    && e.stream < |streams| && e.pos < |streams[e.stream]|
    && e.packet.header.batchSeq == Before(streams, e.stream) + e.pos + 1
    && e.packet.data == streams[e.stream][e.pos]
  }

  /** A packet marked finished belongs to the last stream and carries the true number
      of batches; the very last packet is always marked. */
  predicate TotalRight(streams: seq<seq<Bytes>>, e: Entry)
  {
    var h := e.packet.header;
    && (h.finished ==> e.stream == |streams| - 1 && h.totalBatches == |Flatten(streams)|)
    && (e.stream == |streams| - 1 && e.stream < |streams| && e.pos == |streams[e.stream]| - 1 ==> h.finished)
  }

  /** What the helper keeps while no late retry happened. The snapshot is that of this
      stream, or of the first stream, whose snapshot is the initial one, or it is too
      low. */
  ghost predicate BatchInv(streams: seq<seq<Bytes>>, s: State)
    requires s.stream <= |streams|
  {
    var h := s.helper.header;
    && (s.stream == 0 ==> s.phase == Between && s.helper.lastBatch == 0)
    && (0 < s.stream ==> (s.helper.finish <==> s.stream == |streams|))
    && (h.finished ==> s.stream == |streams| && h.totalBatches == |Flatten(streams)|)
    && (s.phase == Between ==>
          h.batchSeq == Before(streams, s.stream) && (0 < s.stream ==> s.helper.lastBatch < Before(streams, s.stream)))
    && (s.phase != Between ==>
          && 0 < s.stream
          && (if s.firstPulled || s.stream == 1 then s.helper.lastBatch == Before(streams, s.stream - 1)
              else s.helper.lastBatch < Before(streams, s.stream - 1))
          && (s.attempt == 0 && s.pulled.None? ==> h.batchSeq == Before(streams, s.stream - 1))
          && (s.pulled.Some? ==>
                && (s.firstPulled || s.stream == 1) && 1 <= s.pulled.value <= |streams[s.stream - 1]|
                && h.batchSeq == Before(streams, s.stream - 1) + s.pulled.value))
  }

  ghost predicate LateInv(streams: seq<seq<Bytes>>, s: State)
  {
    && s.stream <= |streams|
    && (!s.late ==>
          && BatchInv(streams, s)
          && (forall i :: 0 <= i < |s.net| ==> BatchNumbered(streams, s.net[i]) && TotalRight(streams, s.net[i])))
    && (s.late ==> exists i :: 0 <= i < |s.net| && !BatchNumbered(streams, s.net[i]))
  }

  lemma PullKeepsLateInv(streams: seq<seq<Bytes>>, s: State)
    requires LateInv(streams, s) && Enabled(streams, s, Pull) && !s.late
    ensures LateInv(streams, Apply(streams, s, Pull))
  {
    var t := Apply(streams, s, Pull);
    var e := t.net[|s.net|];
    assert t.net == s.net + [e];
    BeforeNext(streams, s.stream - 1);
    assert streams[..0] == [];
    if s.stream == |streams| {
      assert streams[..|streams|] == streams;
    }
    if t.late {
      assert !BatchNumbered(streams, e);
    } else {
      assert BatchNumbered(streams, e) && TotalRight(streams, e);
      forall i | 0 <= i < |t.net| ensures BatchNumbered(streams, t.net[i]) && TotalRight(streams, t.net[i]) {
        if i < |s.net| { assert t.net[i] == s.net[i]; }
      }
    }
  }

  lemma StepKeepsLateInv(streams: seq<seq<Bytes>>, s: State, step: Step)
    requires LateInv(streams, s) && Enabled(streams, s, step)
    ensures LateInv(streams, Apply(streams, s, step))
  {
    if s.late {
      var i :| 0 <= i < |s.net| && !BatchNumbered(streams, s.net[i]);
      assert Apply(streams, s, step).net[i] == s.net[i];
    } else if step == Pull {
      PullKeepsLateInv(streams, s);
    } else if step == Succeed {
      BeforeNext(streams, s.stream - 1);
    }
  }

  lemma {:induction false} RunKeepsLateInv(streams: seq<seq<Bytes>>, s: State, steps: seq<Step>, t: State)
    requires LateInv(streams, s) && Run(streams, s, steps, t)
    ensures LateInv(streams, t)
    decreases |steps|
  {
    if steps != [] {
      StepKeepsLateInv(streams, s, steps[0]);
      RunKeepsLateInv(streams, Apply(streams, s, steps[0]), steps[1..], t);
    }
  }

  /** All batch numbers are right, over every sequence of attempts, exactly when no
      retry of a stream after the first was pulled before that stream's first attempt;
      and then every packet marked finished carries the true number of batches. On the
      first stream such a retry only spoils stream numbers. */
  lemma BatchNumbersAreRight(streams: seq<seq<Bytes>>, totalBatches: int, totalStreams: int, steps: seq<Step>, t: State)
    requires Run(streams, Init(totalBatches, totalStreams), steps, t)
    ensures (forall i :: 0 <= i < |t.net| ==> BatchNumbered(streams, t.net[i])) <==> !t.late
    ensures !t.late ==> forall i :: 0 <= i < |t.net| ==> TotalRight(streams, t.net[i])
  {
    assert streams[..0] == [];
    RunKeepsLateInv(streams, Init(totalBatches, totalStreams), steps, t);
  }

  // --------------------------------------------------- what a late retry announces

  ghost predicate NumberSent(s: State, b: nat)
  {
    exists i :: 0 <= i < |s.net| && s.net[i].packet.header.batchSeq == b
  }

  /** Every number up to the helper's is carried by some packet. */
  ghost predicate NumbersSent(s: State)
  {
    && (forall b :: 1 <= b <= s.helper.header.batchSeq ==> NumberSent(s, b))
    && (forall b :: 1 <= b <= s.helper.lastBatch ==> NumberSent(s, b))
  }

  lemma NumberStaysSent(s: State, t: State, b: nat)
    requires NumberSent(s, b) && s.net <= t.net
    ensures NumberSent(t, b)
  {
    var i :| 0 <= i < |s.net| && s.net[i].packet.header.batchSeq == b;
    assert t.net[i] == s.net[i];
  }

  lemma StepKeepsSent(streams: seq<seq<Bytes>>, s: State, step: Step)
    requires NumbersSent(s) && Enabled(streams, s, step)
    ensures NumbersSent(Apply(streams, s, step))
  {
    var t := Apply(streams, s, step);
    var top := t.helper.header.batchSeq;
    forall b: nat | 1 <= b && (b <= top || b <= t.helper.lastBatch) ensures NumberSent(t, b) {
      if step == Pull && b == top {
        assert t.net[|s.net|].packet.header.batchSeq == b;
      } else {
        NumberStaysSent(s, t, b);
      }
    }
  }

  /** The numbers fell behind for good: between streams the next number is too low, and
      the snapshot with it; within a stream its first number is too low. */
  ghost predicate Behind(streams: seq<seq<Bytes>>, s: State)
    requires s.stream <= |streams|
  {
    var h := s.helper.header;
    && 0 < s.stream && s.helper.lastBatch < Before(streams, s.stream)
    && (s.helper.finish <==> s.stream == |streams|)
    && (s.phase == Between ==> h.batchSeq < Before(streams, s.stream))
    && (s.phase != Between ==>
          && s.helper.lastBatch < Before(streams, s.stream - 1)
          && (s.attempt == 0 && s.pulled.None? ==> h.batchSeq < Before(streams, s.stream - 1))
          && (s.pulled.Some? ==>
                && 1 <= s.pulled.value <= |streams[s.stream - 1]|
                && h.batchSeq == s.helper.lastBatch + s.pulled.value))
  }

  /** The last packet of a pushed last stream announces itself as the last. */
  ghost predicate Announced(streams: seq<seq<Bytes>>, s: State)
  {
    (s.stream == |streams| && 0 < s.stream && (s.phase == Between || s.pulled == Some(|streams[s.stream - 1]|))) ==>
      && |s.net| != 0
      && var h := s.net[|s.net| - 1].packet.header;
         h == s.helper.header && h.finished && 1 <= h.totalBatches == h.batchSeq
  }

  ghost predicate RunInv(streams: seq<seq<Bytes>>, s: State)
  {
    && LateInv(streams, s) && NumbersSent(s) && (s.late ==> Behind(streams, s))
    && (0 < s.stream ==> (s.helper.finish <==> s.stream == |streams|))
    && (s.pulled.Some? ==> 1 <= s.pulled.value)
    && (s.stream == 0 ==> s.phase == Between)
    && Announced(streams, s)
  }

  lemma StepKeepsBehind(streams: seq<seq<Bytes>>, s: State, step: Step)
    requires LateInv(streams, s) && (s.late ==> Behind(streams, s)) && Enabled(streams, s, step)
    ensures var t := Apply(streams, s, step); t.stream <= |streams| && (t.late ==> Behind(streams, t))
  {
    if 0 < s.stream { BeforeNext(streams, s.stream - 1); }
    if s.stream < |streams| { BeforeNext(streams, s.stream); }
  }

  lemma StepKeepsAnnounced(streams: seq<seq<Bytes>>, s: State, step: Step)
    requires RunInv(streams, s) && Enabled(streams, s, step)
    ensures Announced(streams, Apply(streams, s, step))
  {
  }

  lemma {:induction false} RunKeepsRunInv(streams: seq<seq<Bytes>>, s: State, steps: seq<Step>, t: State)
    requires RunInv(streams, s) && Run(streams, s, steps, t)
    ensures RunInv(streams, t)
    decreases |steps|
  {
    if steps != [] {
      StepKeepsLateInv(streams, s, steps[0]);
      StepKeepsSent(streams, s, steps[0]);
      StepKeepsBehind(streams, s, steps[0]);
      StepKeepsAnnounced(streams, s, steps[0]);
      RunKeepsRunInv(streams, Apply(streams, s, steps[0]), steps[1..], t);
    }
  }

  /** A finished push with a late retry announces fewer batches than there are, and has
      generated a packet under every number up to the announced one. */
  lemma LatePushAnnouncesFewer(streams: seq<seq<Bytes>>, totalBatches: int, totalStreams: int, steps: seq<Step>, t: State)
    requires Run(streams, Init(totalBatches, totalStreams), steps, t)
    requires t.phase == Between && t.stream == |streams| && t.late
    ensures |t.net| != 0
    ensures var h := t.net[|t.net| - 1].packet.header;
            && h.finished && 1 <= h.totalBatches == h.batchSeq < |Flatten(streams)|
            && forall b :: 1 <= b <= h.batchSeq ==> NumberSent(t, b)
  {
    assert streams[..0] == [];
    RunKeepsRunInv(streams, Init(totalBatches, totalStreams), steps, t);
    assert streams[..|streams|] == streams;
  }

  /** A packet for this position of this stream has been generated. */
  ghost predicate Generated(s: State, stream: nat, pos: nat)
  {
    exists i :: 0 <= i < |s.net| && s.net[i].stream == stream && s.net[i].pos == pos
  }

  /** The position was pulled in the current attempt or belongs to a pushed stream. */
  predicate Passed(streams: seq<seq<Bytes>>, s: State, stream: nat, pos: nat)
  {
    if s.phase != Between && stream + 1 == s.stream then s.pulled.Some? && pos < s.pulled.value
    else stream < s.stream && stream < |streams| && pos < |streams[stream]|
  }

  ghost predicate Covered(streams: seq<seq<Bytes>>, s: State)
  {
    && s.stream <= |streams| && (s.phase != Between ==> 0 < s.stream)
    && (forall n: nat, p: nat :: Passed(streams, s, n, p) ==> Generated(s, n, p))
  }

  lemma GeneratedStays(s: State, t: State, stream: nat, pos: nat)
    requires Generated(s, stream, pos) && s.net <= t.net
    ensures Generated(t, stream, pos)
  {
    var i :| 0 <= i < |s.net| && s.net[i].stream == stream && s.net[i].pos == pos;
    assert t.net[i] == s.net[i];
  }

  lemma StepKeepsCovered(streams: seq<seq<Bytes>>, s: State, step: Step)
    requires Covered(streams, s) && Enabled(streams, s, step)
    ensures Covered(streams, Apply(streams, s, step))
  {
    var t := Apply(streams, s, step);
    forall n: nat, p: nat | Passed(streams, t, n, p) ensures Generated(t, n, p) {
      if step == Pull && n + 1 == s.stream && p == t.pulled.value - 1 {
        assert t.net[|s.net|].stream == n && t.net[|s.net|].pos == p;
      } else {
        assert Passed(streams, s, n, p);
        GeneratedStays(s, t, n, p);
      }
    }
  }

  lemma {:induction false} RunKeepsCovered(streams: seq<seq<Bytes>>, s: State, steps: seq<Step>, t: State)
    requires Covered(streams, s) && Run(streams, s, steps, t)
    ensures Covered(streams, t)
    decreases |steps|
  {
    if steps != [] {
      StepKeepsCovered(streams, s, steps[0]);
      RunKeepsCovered(streams, Apply(streams, s, steps[0]), steps[1..], t);
    }
  }

  /** A push that has succeeded with its last stream has generated every packet. */
  lemma FinishedPushGeneratesAll(streams: seq<seq<Bytes>>, totalBatches: int, totalStreams: int, steps: seq<Step>, t: State,
                                 stream: nat, pos: nat)
    requires Run(streams, Init(totalBatches, totalStreams), steps, t) && t.phase == Between && t.stream == |streams|
    requires stream < |streams| && pos < |streams[stream]|
    ensures Generated(t, stream, pos)
  {
    RunKeepsCovered(streams, Init(totalBatches, totalStreams), steps, t);
    assert Passed(streams, t, stream, pos);
  }

  /** The stale case happens: the first attempt at the only stream fails before its
      generator is pulled, and the retry sends its packet as stream 0, with the right
      batch number and total. */
  lemma StaleRetry(b: Bytes) returns (steps: seq<Step>, t: State)
    ensures Run([[b]], Init(-1, -1), steps, t)
    ensures t.stale && !t.late && t.net == [Entry(0, 0, Packet(Header(1, 0, true, 1, 0), b))]
  {
    steps := [NextStream, Fail, Pull];
    var s0 := Init(-1, -1);
    var s1 := Apply([[b]], s0, NextStream);
    var s2 := Apply([[b]], s1, Fail);
    t := Apply([[b]], s2, Pull);
    assert steps[1..] == [Fail, Pull] && steps[1..][1..] == [Pull] && steps[1..][1..][1..] == [];
    assert Run([[b]], s2, [Pull], t);
    assert Run([[b]], s1, [Fail, Pull], t);
  }

  /** The late case happens: with two streams of one batch each, the retry of the second
      sends its batch under number 1 and announces one batch in all. */
  lemma LateRetry(b1: Bytes, b2: Bytes) returns (steps: seq<Step>, t: State)
    ensures Run([[b1], [b2]], Init(-1, -1), steps, t)
    ensures t.late && t.phase == Between && t.stream == 2
    ensures |t.net| == 2 && t.net[1] == Entry(1, 0, Packet(Header(1, 1, true, 1, 1), b2))
  {
    var streams := [[b1], [b2]];
    var s1 := Apply(streams, Init(-1, -1), NextStream);
    var s2 := Apply(streams, s1, Pull);
    var s3 := Apply(streams, s2, Succeed);
    var rest;
    rest, t := SecondLate(streams, s3, b2);
    var r2 := RunStep(streams, s2, Succeed, rest, t);
    var r1 := RunStep(streams, s1, Pull, r2, t);
    steps := RunStep(streams, Init(-1, -1), NextStream, r1, t);
  }

  /** The second of two streams, failed before its first pull and then retried. */
  lemma SecondLate(streams: seq<seq<Bytes>>, s: State, b: Bytes) returns (steps: seq<Step>, t: State)
    requires |streams| == 2 && streams[1] == [b]
    requires s.phase == Between && s.stream == 1 && s.helper.lastBatch == 0 && s.helper.lastStream == 1
    ensures Run(streams, s, steps, t) && t.late && t.phase == Between && t.stream == 2
    ensures t.net == s.net + [Entry(1, 0, Packet(Header(1, 1, true, 1, 1), b))]
  {
    var s4 := Apply(streams, s, NextStream);
    var s5 := Apply(streams, s4, Fail);
    var s6 := Apply(streams, s5, Pull);
    t := Apply(streams, s6, Succeed);
    var r6 := RunStep(streams, s6, Succeed, [], t);
    var r5 := RunStep(streams, s5, Pull, r6, t);
    var r4 := RunStep(streams, s4, Fail, r5, t);
    steps := RunStep(streams, s, NextStream, r4, t);
  }

  lemma RunStep(streams: seq<seq<Bytes>>, s: State, step: Step, rest: seq<Step>, t: State) returns (steps: seq<Step>)
    requires Enabled(streams, s, step) && Run(streams, Apply(streams, s, step), rest, t)
    ensures Run(streams, s, steps, t)
  {
    steps := [step] + rest;
    assert steps[1..] == rest;
  }
}
