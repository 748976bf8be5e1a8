/** What every step of the shuffle keeps: no pair is lost, duplicated or reordered
    within its stream, and the finish signals travel behind the data. */
module ShuffleFlow {
  import opened Bytes
  import opened Format
  import opened BinBatch
  import opened Shuffle

  /** The pairs routed to partition j, in order. */
  function Select(part: Bytes -> nat, ps: seq<Pair>, j: nat): (r: seq<Pair>)
    ensures forall x :: x in r ==> x in ps
  {
    if ps == [] then []
    else if part(ps[0].key) == j then [ps[0]] + Select(part, ps[1..], j)
    else Select(part, ps[1..], j)
  }

  lemma {:induction false} SelectConcat(part: Bytes -> nat, a: seq<Pair>, b: seq<Pair>, j: nat)
    ensures Select(part, a + b, j) == Select(part, a, j) + Select(part, b, j)
  {
    if a == [] {
      assert a + b == b;
    } else {
      assert (a + b)[1..] == a[1..] + b;
      SelectConcat(part, a[1..], b, j);
    }
  }

  /** Pairs of a stream beyond the routing thread, in stream order. */
  function Front(ch: Chan): seq<Pair>
  {
    DecodeBatches(ch.given) + (DecodeBatches(ch.net) + ch.group + ch.hop.Content())
  }

  /** Pairs of a stream still before the routing thread. */
  function Back(part: Bytes -> nat, hop: Hop, todo: seq<Pair>, j: nat): seq<Pair>
  {
    Select(part, hop.Content() + todo, j)
  }

  ghost predicate Conserved(c: Config, s: Sender, out: seq<Pair>, j: nat)
    requires |s.chans| == c.parts && j < c.parts
  {
    Front(s.chans[j]) + Back(c.part, s.hop, s.todo, j) == Select(c.part, out, j)
  }

  /** The writer count only falls after the last item was flushed. */
  ghost predicate MapSide(c: Config, s: Sender)
  {
    && 0 <= s.hop.fifo.active <= c.mapWriters && 1 <= c.mapWriters
    && (s.hop.fifo.active < c.mapWriters ==> s.todo == [] && s.hop.pending == [])
    && (s.hop.saw ==> s.hop.fifo.active == 0)
    && (s.routed ==> s.hop.CanStop())
  }

  ghost predicate ChanSide(routed: bool, ch: Chan)
  {
    && 0 <= ch.hop.fifo.active <= 1
    && (ch.hop.fifo.active == 0 ==> routed && ch.hop.pending == [])
    && (ch.hop.saw ==> ch.hop.fifo.active == 0)
    && (ch.sent ==> ch.hop.CanStop() && ch.group == [] && ch.given + ch.net != [])
    && (ch.served ==> ch.sent && ch.net == [])
  }

  ghost predicate SenderInv(c: Config, s: Sender, out: seq<Pair>)
  {
    && |s.chans| == c.parts
    && MapSide(c, s)
    && (forall j :: 0 <= j < c.parts ==> Conserved(c, s, out, j))
    && (forall j :: 0 <= j < c.parts ==> ChanSide(s.routed, s.chans[j]))
  }

  // -------------------------------------------------------- one sender's steps

  lemma NewSenderInv(c: Config, out: seq<Pair>)
    requires 1 <= c.mapWriters
    ensures SenderInv(c, NewSender(c, out), out)
  {
    var s := NewSender(c, out);
    forall j | 0 <= j < c.parts ensures Conserved(c, s, out, j) {
      assert s.chans[j] == NewChan(c);
      assert Front(s.chans[j]) == [];
      assert s.hop.Content() + s.todo == out;
    }
  }

  lemma MapContent(c: Config, s: Sender, l: Local)
    requires |s.chans| == c.parts && LocalEnabled(c, s, l) && !Touches(l) && !l.RoutePut?
    ensures var t := LocalApply(c, s, l);
            t.hop.Content() + t.todo == s.hop.Content() + s.todo && t.chans == s.chans
  {
    match l {
      case MapPut =>
        PutContent(s.hop, s.todo[0], c.batchSize);
        assert s.todo == [s.todo[0]] + s.todo[1..];
      case MapCommit => CommitContent(s.hop);
      case RouteLoad => LoadContent(s.hop);
      case _ =>
    }
  }

  /** Steps of the map task, and of the routing thread at its input. */
  lemma MapStepKeeps(c: Config, s: Sender, out: seq<Pair>, l: Local)
    requires SenderInv(c, s, out) && LocalEnabled(c, s, l) && !Touches(l) && !l.RoutePut?
    ensures SenderInv(c, LocalApply(c, s, l), out)
  {
    var t := LocalApply(c, s, l);
    MapContent(c, s, l);
    forall j | 0 <= j < c.parts ensures Conserved(c, t, out, j) && ChanSide(t.routed, t.chans[j]) {
      assert Conserved(c, s, out, j) && ChanSide(s.routed, s.chans[j]);
    }
  }

  /** The routing thread moves its next pair to the connection of its partition. */
  lemma RouteKeepsConserved(c: Config, s: Sender, out: seq<Pair>, j: nat)
    requires SenderInv(c, s, out) && LocalEnabled(c, s, RoutePut) && j < c.parts
    ensures Conserved(c, LocalApply(c, s, RoutePut), out, j)
  {
    var t := LocalApply(c, s, RoutePut);
    var x := s.hop.local[0];
    assert Conserved(c, s, out, j);
    PopContent(s.hop);
    var rest := t.hop.Content() + t.todo;
    Grouped([x], t.hop.Content(), t.todo);
    if c.part(x.key) == j {
      FrontPut(s.chans[j], x, c.batchSize);
      Shift(Front(s.chans[j]), x, Select(c.part, rest, j));
    }
  }

  lemma FrontPut(ch: Chan, x: Pair, size: int)
    ensures Front(ch.(hop := ch.hop.Put(x, size))) == Front(ch) + [x]
  {
    PutContent(ch.hop, x, size);
  }

  lemma Grouped<T>(a: seq<T>, b: seq<T>, c: seq<T>)
    ensures (a + b) + c == a + (b + c)
  {
  }

  lemma Shift<T>(a: seq<T>, x: T, b: seq<T>)
    ensures a + ([x] + b) == (a + [x]) + b
  {
  }

  lemma RouteStepKeeps(c: Config, s: Sender, out: seq<Pair>)
    requires SenderInv(c, s, out) && LocalEnabled(c, s, RoutePut)
    ensures SenderInv(c, LocalApply(c, s, RoutePut), out)
  {
    var t := LocalApply(c, s, RoutePut);
    forall j | 0 <= j < c.parts ensures Conserved(c, t, out, j) && ChanSide(t.routed, t.chans[j]) {
      assert ChanSide(s.routed, s.chans[j]);
      RouteKeepsConserved(c, s, out, j);
    }
  }

  /** Packing a pair that the codec carries keeps the stream's pairs. */
  lemma PackKeepsFront(c: Config, ch: Chan)
    requires |ch.hop.local| != 0 && Packable(ch.hop.local[0])
    requires Carried(ch.group)
    ensures Front(Pack(c, ch)) == Front(ch) && !(Pack(c, ch).sent && !ch.sent)
  {
    var p := ch.hop.local[0];
    var t := Pack(c, ch);
    PopContent(ch.hop);
    var rest := t.hop.Content();
    Shift(DecodeBatches(ch.net) + ch.group, p, rest);
    if WriteOutcome(ch.cap - |EncodeBatch(ch.group)|, |p.key|, |p.value|) == Written {
      Grouped(DecodeBatches(ch.net), ch.group, [p]);
    } else {
      NetAppend(ch.net, ch.group);
    }
  }

  lemma NetAppend(net: seq<Bytes>, group: seq<Pair>)
    requires Carried(group)
    ensures DecodeBatches(net + [EncodeBatch(group)]) == DecodeBatches(net) + group
  {
    DecodeBatchesConcat(net, [EncodeBatch(group)]);
    DecodeEncoded(group, []);
    assert EncodeBatch(group) + [] == EncodeBatch(group);
    assert DecodeBatches([EncodeBatch(group)]) == DecodeBatch(EncodeBatch(group));
  }

  /** Pairs in flight come from the map output, so the codec carries them. */
  lemma InFlightCarried(c: Config, s: Sender, out: seq<Pair>, j: nat)
    requires SenderInv(c, s, out) && j < c.parts && Carried(out)
    ensures Carried(s.chans[j].group)
    ensures |s.chans[j].hop.local| != 0 ==> Packable(s.chans[j].hop.local[0])
  {
    assert Conserved(c, s, out, j);
    var ch, all := s.chans[j], Select(c.part, out, j);
    forall x | x in ch.group || x in ch.hop.local ensures Packable(x) && x.key != [] {
      assert x in ch.hop.local ==> x in ch.hop.Content();
      assert x in DecodeBatches(ch.net) + ch.group + ch.hop.Content();
      assert x in Front(ch);
      assert x in Front(ch) + Back(c.part, s.hop, s.todo, j);
      assert x in all;
    }
  }

  lemma ChanStepKeepsFront(c: Config, s: Sender, out: seq<Pair>, l: Local)
    requires SenderInv(c, s, out) && LocalEnabled(c, s, l) && Touches(l) && Carried(out)
    ensures Front(ChanApply(c, s.chans[l.j], l)) == Front(s.chans[l.j])
    ensures ChanSide(s.routed, ChanApply(c, s.chans[l.j], l))
  {
    var ch := s.chans[l.j];
    assert ChanSide(s.routed, ch);
    InFlightCarried(c, s, out, l.j);
    match l {
      case OutCommit(j) => CommitContent(ch.hop);
      case SendLoad(j) => LoadContent(ch.hop);
      case SendWrite(j) => PackKeepsFront(c, ch);
      case SendStop(j) =>
        NetAppend(ch.net, ch.group);
        assert DecodeBatches(ch.net) + ch.group + [] + ch.hop.Content() == DecodeBatches(ch.net) + ch.group + ch.hop.Content();
      case _ =>
    }
  }

  lemma ChanStepKeeps(c: Config, s: Sender, out: seq<Pair>, l: Local)
    requires SenderInv(c, s, out) && LocalEnabled(c, s, l) && Touches(l) && Carried(out)
    ensures SenderInv(c, LocalApply(c, s, l), out)
  {
    ChanStepKeepsFront(c, s, out, l);
    ChanReplaced(c, s, out, l.j, ChanApply(c, s.chans[l.j], l));
  }

  /** A channel may be replaced by one with the same pairs. */
  lemma ChanReplaced(c: Config, s: Sender, out: seq<Pair>, j: nat, ch: Chan)
    requires SenderInv(c, s, out) && j < c.parts
    requires Front(ch) == Front(s.chans[j]) && ChanSide(s.routed, ch)
    ensures SenderInv(c, s.(chans := s.chans[j := ch]), out)
  {
    var t := s.(chans := s.chans[j := ch]);
    forall j' | 0 <= j' < c.parts ensures Conserved(c, t, out, j') && ChanSide(t.routed, t.chans[j']) {
      assert Conserved(c, s, out, j') && ChanSide(s.routed, s.chans[j']);
    }
  }

  lemma LocalStepKeeps(c: Config, s: Sender, out: seq<Pair>, l: Local)
    requires SenderInv(c, s, out) && LocalEnabled(c, s, l) && Carried(out)
    ensures SenderInv(c, LocalApply(c, s, l), out)
  {
    if Touches(l) {
      ChanStepKeeps(c, s, out, l);
    } else if l.RoutePut? {
      RouteStepKeeps(c, s, out);
    } else {
      MapStepKeeps(c, s, out, l);
    }
  }
}
