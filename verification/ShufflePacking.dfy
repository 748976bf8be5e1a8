/** The packer of the shuffle machine is the batch generator: what a stream has put on the
    wire, and what it still will, are the batches of its routed pairs. */
module ShufflePacking {
  import opened Bytes
  import opened Format
  import opened BinBatch
  import opened Shuffle
  import opened ShuffleFlow
  import opened ShuffleRun

  /** Without a limit nothing depends on the count. */
  lemma {:induction false} CountIsFree(ps: seq<Pair>, size: nat, cur: seq<Pair>, cap: nat, a: nat, b: nat)
    ensures Groups(ps, false, size, None, cur, cap, a) == Groups(ps, false, size, None, cur, cap, b)
    decreases |ps|
  {
    if ps != [] {
      var p := ps[0];
      CountIsFree(ps[1..], size, cur + [p], cap, a + 1, b + 1);
      CountIsFree(ps[1..], size, [p], SpillCapacity(size, p), a, b);
    }
  }

  /** The pairs of stream j that are not packed yet. */
  function Ahead(c: Config, s: Sender, j: nat): seq<Pair>
    requires |s.chans| == c.parts && j < c.parts
  {
    s.chans[j].hop.Content() + Back(c.part, s.hop, s.todo, j)
  }

  /** The batches a channel has sent, and those it makes of the pairs ahead. */
  function Packing(c: Config, ch: Chan, ahead: seq<Pair>): seq<Bytes>
  {
    if ch.sent then ch.given + ch.net
    else ch.given + ch.net + EncodeAll(Groups(ahead, false, c.sendbuf, None, ch.group, ch.cap, 0))
  }

  ghost predicate Packs(c: Config, s: Sender, out: seq<Pair>, j: nat)
    requires |s.chans| == c.parts && j < c.parts
  {
    Packing(c, s.chans[j], Ahead(c, s, j)) == Batches(Select(c.part, out, j), false, c.sendbuf, None)
  }

  ghost predicate AllPack(c: Config, s: Sender, out: seq<Pair>)
  {
    |s.chans| == c.parts && forall j :: 0 <= j < c.parts ==> Packs(c, s, out, j)
  }

  // ------------------------------------------------------------ one sender's steps

  lemma NewSenderPacks(c: Config, out: seq<Pair>)
    ensures AllPack(c, NewSender(c, out), out)
  {
    var s := NewSender(c, out);
    forall j | 0 <= j < c.parts ensures Packs(c, s, out, j) {
      assert s.chans[j] == NewChan(c);
      assert s.hop.Content() + s.todo == out;
      assert Ahead(c, s, j) == Select(c.part, out, j);
    }
  }

  /** A step that leaves a channel and the pairs ahead of it alone, or moves pairs
      between the two parts of what is ahead. */
  lemma SameAhead(c: Config, s: Sender, t: Sender, out: seq<Pair>, j: nat)
    requires |s.chans| == |t.chans| == c.parts && j < c.parts && Packs(c, s, out, j)
    requires t.chans[j] == s.chans[j].(hop := t.chans[j].hop) && Ahead(c, t, j) == Ahead(c, s, j)
    ensures Packs(c, t, out, j)
  {
  }

  lemma RoutePutAhead(c: Config, s: Sender, j: nat)
    requires |s.chans| == c.parts && j < c.parts && LocalEnabled(c, s, RoutePut)
    ensures Ahead(c, LocalApply(c, s, RoutePut), j) == Ahead(c, s, j)
  {
    var t := LocalApply(c, s, RoutePut);
    var x := s.hop.local[0];
    var rest := t.hop.Content() + t.todo;
    PopContent(s.hop);
    Grouped([x], t.hop.Content(), t.todo);
    assert ([x] + rest)[1..] == rest;
    if c.part(x.key) == j {
      PutContent(s.chans[j].hop, x, c.batchSize);
      Grouped(s.chans[j].hop.Content(), [x], Select(c.part, rest, j));
    }
  }

  lemma MapStepPacks(c: Config, s: Sender, out: seq<Pair>, l: Local)
    requires AllPack(c, s, out) && LocalEnabled(c, s, l) && !Touches(l)
    ensures AllPack(c, LocalApply(c, s, l), out)
  {
    var t := LocalApply(c, s, l);
    if !l.RoutePut? { MapContent(c, s, l); }
    forall j | 0 <= j < c.parts ensures Packs(c, t, out, j) {
      assert Packs(c, s, out, j);
      if l.RoutePut? { RoutePutAhead(c, s, j); }
      SameAhead(c, s, t, out, j);
    }
  }

  /** Packing the next pair follows the generator's loop. */
  lemma PackFollows(c: Config, ch: Chan, rest: seq<Pair>)
    requires |ch.hop.local| != 0 && Packable(ch.hop.local[0]) && !ch.sent
    ensures Packing(c, Pack(c, ch), rest) == Packing(c, ch, [ch.hop.local[0]] + rest)
  {
    var p := ch.hop.local[0];
    var ps := [p] + rest;
    assert ps[1..] == rest;
    BatchesTurn(ps, false, c.sendbuf, None, ch.group, ch.cap, 0, ch.given + ch.net);
    CountIsFree(rest, c.sendbuf, ch.group + [p], ch.cap, 0, 1);
    Grouped(ch.given, ch.net, [EncodeBatch(ch.group)]);
  }

  /** The pairs ahead of a channel when it is replaced by another. */
  function AheadOf(c: Config, s: Sender, ch: Chan, j: nat): seq<Pair>
  {
    ch.hop.Content() + Back(c.part, s.hop, s.todo, j)
  }

  /** A channel may be replaced by one that makes the same batches. */
  lemma PackerReplaced(c: Config, s: Sender, out: seq<Pair>, j: nat, ch: Chan)
    requires AllPack(c, s, out) && j < c.parts
    requires Packing(c, ch, AheadOf(c, s, ch, j)) == Packing(c, s.chans[j], Ahead(c, s, j))
    ensures AllPack(c, s.(chans := s.chans[j := ch]), out)
  {
    var t := s.(chans := s.chans[j := ch]);
    forall j' | 0 <= j' < c.parts ensures Packs(c, t, out, j') {
      assert Packs(c, s, out, j');
    }
  }

  /** Steps at a channel's connection move pairs within what is ahead. */
  lemma HopStepPacks(c: Config, s: Sender, l: Local)
    requires |s.chans| == c.parts && LocalEnabled(c, s, l) && Touches(l) && !l.SendWrite? && !l.SendStop?
    ensures var ch := ChanApply(c, s.chans[l.j], l);
            Packing(c, ch, AheadOf(c, s, ch, l.j)) == Packing(c, s.chans[l.j], Ahead(c, s, l.j))
  {
    var h := s.chans[l.j].hop;
    match l {
      case OutCommit(j) => CommitContent(h);
      case SendLoad(j) => LoadContent(h);
      case _ =>
    }
  }

  lemma WriteFollows(c: Config, s: Sender, out: seq<Pair>, j: nat)
    requires SenderInv(c, s, out) && LocalEnabled(c, s, SendWrite(j)) && j < c.parts && Carried(out)
    ensures var ch := Pack(c, s.chans[j]);
            Packing(c, ch, AheadOf(c, s, ch, j)) == Packing(c, s.chans[j], Ahead(c, s, j))
  {
    var ch, back := s.chans[j], Back(c.part, s.hop, s.todo, j);
    InFlightCarried(c, s, out, j);
    PopContent(ch.hop);
    Grouped([ch.hop.local[0]], ch.hop.Pop().Content(), back);
    PackFollows(c, ch, ch.hop.Pop().Content() + back);
  }

  /** A channel's own steps. */
  lemma ChanStepPacks(c: Config, s: Sender, out: seq<Pair>, l: Local)
    requires SenderInv(c, s, out) && LocalEnabled(c, s, l) && Touches(l) && Carried(out)
    ensures var ch := ChanApply(c, s.chans[l.j], l);
            Packing(c, ch, AheadOf(c, s, ch, l.j)) == Packing(c, s.chans[l.j], Ahead(c, s, l.j))
  {
    if l.SendWrite? {
      WriteFollows(c, s, out, l.j);
    } else if l.SendStop? {
      StopFollows(c, s, out, l.j);
    } else {
      HopStepPacks(c, s, l);
    }
  }

  /** When the packer stops, nothing is ahead and the open buffer is the last batch. */
  lemma StopFollows(c: Config, s: Sender, out: seq<Pair>, j: nat)
    requires SenderInv(c, s, out) && LocalEnabled(c, s, SendStop(j)) && j < c.parts
    ensures var ch := s.chans[j];
            Packing(c, ch, Ahead(c, s, j)) == ch.given + (ch.net + [EncodeBatch(ch.group)])
  {
    var ch := s.chans[j];
    assert ChanSide(s.routed, ch);
    assert ch.hop.Content() == [] && s.hop.Content() + s.todo == [];
    assert Ahead(c, s, j) == [];
    var done := ch.given + ch.net;
    assert EncodeAll([ch.group]) == [EncodeBatch(ch.group)];
    Grouped(ch.given, ch.net, [EncodeBatch(ch.group)]);
  }

  lemma LocalStepPacks(c: Config, s: Sender, out: seq<Pair>, l: Local)
    requires SenderInv(c, s, out) && AllPack(c, s, out) && LocalEnabled(c, s, l) && Carried(out)
    ensures AllPack(c, LocalApply(c, s, l), out)
  {
    if Touches(l) {
      ChanStepPacks(c, s, out, l);
      PackerReplaced(c, s, out, l.j, ChanApply(c, s.chans[l.j], l));
    } else {
      MapStepPacks(c, s, out, l);
    }
  }

  // ---------------------------------------------------------------- the whole machine

  ghost predicate PackInv(c: Config, s: State)
  {
    |s.senders| == |c.mapOut| && forall i :: 0 <= i < |c.mapOut| ==> AllPack(c, s.senders[i], c.mapOut[i])
  }

  /** The servicer moves a batch from the wire into the broker, or ends the stream. */
  lemma ServePacks(c: Config, s: State, i: nat, j: nat, ch: Chan)
    requires PackInv(c, s) && i < |c.mapOut| && j < c.parts
    requires j < |s.senders[i].chans| && ch == s.senders[i].chans[j].(given := ch.given, net := ch.net, served := ch.served)
    requires ch.given + ch.net == s.senders[i].chans[j].given + s.senders[i].chans[j].net
    ensures PackInv(c, WithChan(s, i, j, ch))
  {
    assert AllPack(c, s.senders[i], c.mapOut[i]);
    PackerReplaced(c, s.senders[i], c.mapOut[i], j, ch);
  }

  lemma SenderStepPacks(c: Config, s: State, i: nat, l: Local)
    requires ValidConfig(c) && Inv(c, s) && PackInv(c, s) && Enabled(c, s, OfSender(i, l))
    ensures PackInv(c, Apply(c, s, OfSender(i, l)))
  {
    assert AllPack(c, s.senders[i], c.mapOut[i]) && SenderInv(c, s.senders[i], c.mapOut[i]);
    LocalStepPacks(c, s.senders[i], c.mapOut[i], l);
  }

  lemma StepPacks(c: Config, s: State, step: Step)
    requires ValidConfig(c) && Inv(c, s) && PackInv(c, s) && Enabled(c, s, step)
    ensures PackInv(c, Apply(c, s, step))
  {
    match step
    case OfSender(i, l) => SenderStepPacks(c, s, i, l);
    case Serve(i, j) =>
      var ch := s.senders[i].chans[j];
      assert Give(ch).given + Give(ch).net == ch.given + ch.net;
      ServePacks(c, s, i, j, Give(ch));
    case ServeEnd(i, j) => ServePacks(c, s, i, j, s.senders[i].chans[j].(served := true));
    case _ =>
  }

  lemma {:induction false} RunPacks(c: Config, s: State, steps: seq<Step>, t: State)
    requires ValidConfig(c) && Inv(c, s) && PackInv(c, s) && Run(c, s, steps, t)
    ensures Inv(c, t) && PackInv(c, t)
    decreases |steps|
  {
    if steps != [] {
      StepKeepsInv(c, s, steps[0]);
      StepPacks(c, s, steps[0]);
      RunPacks(c, Apply(c, s, steps[0]), steps[1..], t);
    }
  }

  /** Under every schedule, a stream that has been sent consists of exactly the batches
      that the generator makes of the pairs routed to it. */
  lemma SentStreamIsBatches(c: Config, steps: seq<Step>, t: State, i: nat, j: nat)
    requires ValidConfig(c) && Run(c, Init(c), steps, t) && i < |c.mapOut| && j < c.parts
    ensures Shaped(c, t)
    ensures var ch := t.senders[i].chans[j];
            ch.sent ==> ch.given + ch.net == Batches(Select(c.part, c.mapOut[i], j), false, c.sendbuf, None)
  {
    InitInv(c);
    forall i | 0 <= i < |c.mapOut| ensures AllPack(c, Init(c).senders[i], c.mapOut[i]) {
      NewSenderPacks(c, c.mapOut[i]);
    }
    RunPacks(c, Init(c), steps, t);
    assert AllPack(c, t.senders[i], c.mapOut[i]);
    assert Packs(c, t.senders[i], c.mapOut[i], j);
  }
}
