/** Packing a stream of pairs into byte batches and unpacking it again
    (TransferPair.pair_to_bin_batch and bin_batch_to_pair). */
module BinBatch {
  import opened Bytes
  import opened Seqs
  import opened Format

  /** Bytes reserved beside key and value when a pair forces a new buffer. */
  const SPILL_SLACK := 1024

  /** Capacity of the buffer opened for a pair that did not fit. */
  function SpillCapacity(size: nat, p: Pair): nat
  {
    Max(size, |p.key| + |p.value| + SPILL_SLACK)
  }

  /** The pairs of each emitted batch. `cur` are the pairs already in the open
      buffer of capacity `cap`, `count` the pairs counted against `limit`, and
      `raises` says that the input iterator ends with an exception. A pair that
      overflows closes the buffer and opens the next one without being counted;
      a length that cannot be packed, or an iterator that raises, drops the
      open buffer. */
  function Groups(ps: seq<Pair>, raises: bool, size: nat, limit: Option<int>,
                  cur: seq<Pair>, cap: nat, count: nat): (gs: seq<seq<Pair>>)
    decreases |ps|
  {
    if ps == [] then
      if raises then [] else [cur]
    else
      var p := ps[0];
      match WriteOutcome(cap - |EncodeBatch(cur)|, |p.key|, |p.value|)
      case LengthError => []
      case Written =>
        if limit.Some? && limit.value <= count + 1 then [cur + [p]]
        else Groups(ps[1..], raises, size, limit, cur + [p], cap, count + 1)
      case Overflow =>
        if !Packable(p) then [cur]
        else [cur] + Groups(ps[1..], raises, size, limit, [p], SpillCapacity(size, p), count)
  }

  function EncodeAll(gs: seq<seq<Pair>>): (bs: seq<Bytes>)
    ensures |bs| == |gs|
    ensures forall i :: 0 <= i < |gs| ==> bs[i] == EncodeBatch(gs[i])
  {
    if gs == [] then [] else [EncodeBatch(gs[0])] + EncodeAll(gs[1..])
  }

  /** The batches of a whole input, from an empty buffer of the send size. */
  function Batches(ps: seq<Pair>, raises: bool, size: nat, limit: Option<int>): seq<Bytes>
  {
    EncodeAll(Groups(ps, raises, size, limit, [], size, 0))
  }

  /** What bin_batch_to_pair yields from a stream of batches. */
  function DecodeBatches(bs: seq<Bytes>): seq<Pair>
  {
    if bs == [] then [] else DecodeBatch(bs[0]) + DecodeBatches(bs[1..])
  }

  lemma {:induction false} DecodeBatchesConcat(a: seq<Bytes>, b: seq<Bytes>)
    ensures DecodeBatches(a + b) == DecodeBatches(a) + DecodeBatches(b)
  {
    if a == [] {
      assert a + b == b;
    } else {
      assert (a + b)[1..] == a[1..] + b;
      DecodeBatchesConcat(a[1..], b);
    }
  }

  predicate NonEmptyKeys(ps: seq<Pair>)
  {
    forall i :: 0 <= i < |ps| ==> ps[i].key != []
  }

  // --------------------------------------------------- what the groups contain

  /** The retried write after a spill always fits: header and length fields are
      within the slack. */
  lemma SpillFits(size: nat, p: Pair)
    requires Packable(p)
    ensures WriteOutcome(SpillCapacity(size, p) - HEADER_SIZE, |p.key|, |p.value|) == Written
    ensures |EncodeBatch([p])| <= SpillCapacity(size, p)
  {
    EncodeBatchAppend([], p);
    assert EncodePairs([]) == [];
    assert [] + [p] == [p];
  }

  lemma RoomLeft(cur: seq<Pair>, p: Pair, cap: nat)
    requires WriteOutcome(cap - |EncodeBatch(cur)|, |p.key|, |p.value|) == Written
    ensures |EncodeBatch(cur + [p])| == |EncodeBatch(cur)| + 8 + |p.key| + |p.value| <= cap
  {
    EncodeBatchAppend(cur, p);
  }

  /** Whatever happens, what is emitted is a prefix of the input, packable, and
      in order. */
  lemma {:induction false} GroupsArePrefix(ps: seq<Pair>, raises: bool, size: nat, limit: Option<int>,
                                           cur: seq<Pair>, cap: nat, count: nat)
    requires AllPackable(cur)
    ensures var gs := Groups(ps, raises, size, limit, cur, cap, count);
            && Flatten(gs) <= cur + ps
            && (forall i :: 0 <= i < |gs| ==> AllPackable(gs[i]))
    decreases |ps|
  {
    if ps != [] {
      var p := ps[0];
      assert cur + ps == (cur + [p]) + ps[1..];
      match WriteOutcome(cap - |EncodeBatch(cur)|, |p.key|, |p.value|)
      case LengthError =>
      case Written =>
        FlattenOne(cur + [p]);
        GroupsArePrefix(ps[1..], raises, size, limit, cur + [p], cap, count + 1);
      case Overflow =>
        FlattenOne(cur);
        if Packable(p) {
          GroupsArePrefix(ps[1..], raises, size, limit, [p], SpillCapacity(size, p), count);
          var rest := Groups(ps[1..], raises, size, limit, [p], SpillCapacity(size, p), count);
          assert [p] + ps[1..] == ps;
          assert ([cur] + rest)[1..] == rest && Flatten([cur] + rest) == cur + Flatten(rest);
        }
    } else {
      FlattenOne(cur);
    }
  }

  lemma FlattenOne<T>(g: seq<T>)
    ensures Flatten([g]) == g
  {
  }

  /** Without a limit, everything is emitted exactly when every length can be
      packed and the input iterator ends normally. */
  lemma {:induction false} GroupsComplete(ps: seq<Pair>, raises: bool, size: nat,
                                          cur: seq<Pair>, cap: nat, count: nat)
    ensures var gs := Groups(ps, raises, size, None, cur, cap, count);
            && (AllPackable(ps) && !raises ==> Flatten(gs) == cur + ps && gs != [])
            && (!(AllPackable(ps) && !raises) && cur + ps != [] ==> |Flatten(gs)| < |cur + ps|)
    decreases |ps|
  {
    if ps == [] {
      assert Flatten([cur]) == cur;
    } else {
      var p := ps[0];
      assert AllPackable(ps) <==> Packable(p) && AllPackable(ps[1..]) by {
        assert ps == [p] + ps[1..];
      }
      assert cur + ps == (cur + [p]) + ps[1..];
      match WriteOutcome(cap - |EncodeBatch(cur)|, |p.key|, |p.value|)
      case LengthError =>
      case Written =>
        GroupsComplete(ps[1..], raises, size, cur + [p], cap, count + 1);
      case Overflow =>
        assert Flatten([cur]) == cur;
        if Packable(p) {
          GroupsComplete(ps[1..], raises, size, [p], SpillCapacity(size, p), count);
          var rest := Groups(ps[1..], raises, size, None, [p], SpillCapacity(size, p), count);
          assert [p] + ps[1..] == ps;
          assert ([cur] + rest)[1..] == rest;
        }
    }
  }

  /** The batch fits the buffer that was opened for its first pair. */
  predicate FitsItsBuffer(size: nat, g: seq<Pair>)
  {
    g != [] && |EncodeBatch(g)| <= SpillCapacity(size, g[0])
  }

  ghost predicate AllFit(size: nat, gs: seq<seq<Pair>>)
  {
    forall i :: 0 <= i < |gs| ==> FitsItsBuffer(size, gs[i])
  }

  /** The first group extends cur within capacity cap; each later one fits the
      buffer its opening pair required. */
  ghost predicate Sized(gs: seq<seq<Pair>>, size: nat, cur: seq<Pair>, cap: nat)
  {
    gs != [] ==> cur <= gs[0] && |EncodeBatch(gs[0])| <= cap && AllFit(size, gs[1..])
  }

  lemma FitCons(size: nat, gs: seq<seq<Pair>>)
    requires gs != [] && FitsItsBuffer(size, gs[0]) && AllFit(size, gs[1..])
    ensures AllFit(size, gs)
  {
    forall i | 0 <= i < |gs| ensures FitsItsBuffer(size, gs[i]) {
      if i != 0 { assert gs[i] == gs[1..][i - 1]; }
    }
  }

  lemma SizedAfterSpill(cur: seq<Pair>, cap: nat, size: nat, p: Pair, rest: seq<seq<Pair>>)
    requires |EncodeBatch(cur)| <= cap
    requires Sized(rest, size, [p], SpillCapacity(size, p))
    ensures Sized([cur] + rest, size, cur, cap)
  {
    assert ([cur] + rest)[1..] == rest;
    if rest != [] {
      FitCons(size, rest);
    }
  }

  /** Every batch fits the buffer it was written to: the first one the send
      buffer, each later one the buffer its opening pair required. */
  lemma {:induction false} BatchSizes(ps: seq<Pair>, raises: bool, size: nat, limit: Option<int>,
                                      cur: seq<Pair>, cap: nat, count: nat)
    requires |EncodeBatch(cur)| <= cap
    ensures Sized(Groups(ps, raises, size, limit, cur, cap, count), size, cur, cap)
    decreases |ps|
  {
    if ps != [] {
      var p := ps[0];
      match WriteOutcome(cap - |EncodeBatch(cur)|, |p.key|, |p.value|)
      case LengthError =>
      case Written =>
        RoomLeft(cur, p, cap);
        BatchSizes(ps[1..], raises, size, limit, cur + [p], cap, count + 1);
      case Overflow =>
        if Packable(p) {
          SpillFits(size, p);
          BatchSizes(ps[1..], raises, size, limit, [p], SpillCapacity(size, p), count);
          SizedAfterSpill(cur, cap, size, p, Groups(ps[1..], raises, size, limit, [p], SpillCapacity(size, p), count));
        }
    }
  }

  // ------------------------------------------------------------ where batches are cut

  /** The bytes a batch would have with one more pair. */
  function Needs(g: seq<Pair>, p: Pair): nat { |EncodeBatch(g)| + |EncodePair(p)| }

  /** The batch was opened by a spill, and the pair does not fit its buffer. */
  predicate FullFor(size: nat, g: seq<Pair>, p: Pair)
  {
    g != [] && size < Needs(g, p) && |g[0].key| + |g[0].value| + 1024 < Needs(g, p)
  }

  lemma FirstOpens(ps: seq<Pair>, raises: bool, size: nat, p: Pair, count: nat)
    requires Packable(p)
    ensures var rest := Groups(ps, raises, size, None, [p], SpillCapacity(size, p), count);
            rest != [] ==> rest[0] != [] && rest[0][0] == p && rest[|rest| - 1] != []
  {
    SpillFits(size, p);
    BatchSizes(ps, raises, size, None, [p], SpillCapacity(size, p), count);
    var rest := Groups(ps, raises, size, None, [p], SpillCapacity(size, p), count);
    assert rest != [] ==> rest[0][0] == [p][0];
    assert |rest| > 1 ==> FitsItsBuffer(size, rest[1..][|rest| - 2]);
  }

  /** Batch i is closed by the first pair of the next one: the first batch when its
      buffer of capacity cap is full, a later one when the buffer of its spill is. */
  lemma {:induction false} GroupsCut(ps: seq<Pair>, size: nat, cur: seq<Pair>, cap: nat, count: nat, i: nat)
    requires AllPackable(ps)
    requires i + 1 < |Groups(ps, false, size, None, cur, cap, count)|
    ensures var gs := Groups(ps, false, size, None, cur, cap, count);
            gs[i + 1] != [] && if i == 0 then cap < Needs(gs[0], gs[1][0]) else FullFor(size, gs[i], gs[i + 1][0])
    decreases |ps|
  {
    var p := ps[0];
    match WriteOutcome(cap - |EncodeBatch(cur)|, |p.key|, |p.value|)
    case Written => GroupsCut(ps[1..], size, cur + [p], cap, count + 1, i);
    case Overflow =>
      var rest := Groups(ps[1..], false, size, None, [p], SpillCapacity(size, p), count);
      FirstOpens(ps[1..], false, size, p, count);
      assert ([cur] + rest)[1..] == rest;
      if i != 0 {
        GroupsCut(ps[1..], size, [p], SpillCapacity(size, p), count, i - 1);
      }
  }

  /** A batch is closed only when the next pair does not fit its buffer: the send buffer
      for the first, and for each later one the larger of the send buffer and the size
      of its first pair with 1024 bytes of slack. */
  lemma BatchesAreFull(ps: seq<Pair>, size: nat, i: nat)
    requires AllPackable(ps) && i + 1 < |Groups(ps, false, size, None, [], size, 0)|
    ensures var gs := Groups(ps, false, size, None, [], size, 0);
            && gs[i + 1] != [] && size < |EncodeBatch(gs[i])| + |EncodePair(gs[i + 1][0])|
            && (0 < i ==> gs[i] != []
                          && |gs[i][0].key| + |gs[i][0].value| + 1024 < |EncodeBatch(gs[i])| + |EncodePair(gs[i + 1][0])|)
  {
    GroupsCut(ps, size, [], size, 0, i);
    var gs := Groups(ps, false, size, None, [], size, 0);
    assert 0 < i ==> FullFor(size, gs[i], gs[i + 1][0]);
  }

  /** No batch is larger than its buffer, with the sizes written out. */
  lemma BatchesFit(ps: seq<Pair>, raises: bool, size: nat, limit: Option<int>)
    requires HEADER_SIZE <= size
    ensures var gs := Groups(ps, raises, size, limit, [], size, 0);
            && (gs != [] ==> |EncodeBatch(gs[0])| <= size)
            && forall i :: 0 < i < |gs| ==>
                 gs[i] != [] && (|EncodeBatch(gs[i])| <= size || |EncodeBatch(gs[i])| <= |gs[i][0].key| + |gs[i][0].value| + 1024)
  {
    var gs := Groups(ps, raises, size, limit, [], size, 0);
    assert |EncodeBatch([])| == HEADER_SIZE;
    BatchSizes(ps, raises, size, limit, [], size, 0);
    forall i | 0 < i < |gs| ensures FitsItsBuffer(size, gs[i]) { assert gs[1..][i - 1] == gs[i]; }
  }

  /** An input iterator that raises costs exactly the open buffer. */
  lemma {:induction false} RaisingDropsLast(ps: seq<Pair>, size: nat, cur: seq<Pair>, cap: nat, count: nat)
    requires AllPackable(ps)
    ensures var all := Groups(ps, false, size, None, cur, cap, count);
            all != [] && Groups(ps, true, size, None, cur, cap, count) == all[..|all| - 1]
    decreases |ps|
  {
    if ps != [] {
      var p := ps[0];
      match WriteOutcome(cap - |EncodeBatch(cur)|, |p.key|, |p.value|)
      case Written => RaisingDropsLast(ps[1..], size, cur + [p], cap, count + 1);
      case Overflow =>
        RaisingDropsLast(ps[1..], size, [p], SpillCapacity(size, p), count);
        var rest := Groups(ps[1..], false, size, None, [p], SpillCapacity(size, p), count);
        assert ([cur] + rest)[..|rest|] == [cur] + rest[..|rest| - 1];
    }
  }

  /** The capacity of the last batch's buffer. */
  function LastCapacity(gs: seq<seq<Pair>>, size: nat, cap: nat): nat
  {
    if |gs| <= 1 || gs[|gs| - 1] == [] then cap
    else var p := gs[|gs| - 1][0]; Max(size, |p.key| + |p.value| + 1024)
  }

  /** What is emitted when the pair p, whose lengths do not pack, follows these batches:
      the open one with the others iff it is too full for p's length fields, so that the
      spill comes first; otherwise it is dropped. */
  function EndedBy(gs: seq<seq<Pair>>, size: nat, cap: nat, p: Pair): seq<seq<Pair>>
    requires gs != []
  {
    var room := LastCapacity(gs, size, cap) - |EncodeBatch(gs[|gs| - 1])|;
    if room < 4 || (|p.key| < INT32_LIMIT && room < 8 + |p.key|) then gs else gs[..|gs| - 1]
  }

  lemma EndedAfterSpill(cur: seq<Pair>, rest: seq<seq<Pair>>, size: nat, cap: nat, p: Pair, q: Pair)
    requires rest != [] && rest[0] != [] && rest[0][0] == p && rest[|rest| - 1] != []
    ensures EndedBy([cur] + rest, size, cap, q) == [cur] + EndedBy(rest, size, SpillCapacity(size, p), q)
  {
    var gs := [cur] + rest;
    assert gs[|gs| - 1] == rest[|rest| - 1];
    assert LastCapacity(gs, size, cap) == LastCapacity(rest, size, SpillCapacity(size, p));
    assert gs[..|gs| - 1] == [cur] + rest[..|rest| - 1];
  }

  /** The first pair whose lengths do not pack ends the generator. */
  lemma {:induction false} UnpackableEnds(ps: seq<Pair>, n: nat, raises: bool, size: nat, cur: seq<Pair>, cap: nat, count: nat)
    requires n < |ps| && AllPackable(ps[..n]) && !Packable(ps[n])
    ensures var front := Groups(ps[..n], false, size, None, cur, cap, count);
            front != [] && Groups(ps, raises, size, None, cur, cap, count) == EndedBy(front, size, cap, ps[n])
    decreases n
  {
    if n == 0 {
      assert ps[..0] == [];
    } else {
      var p, front := ps[0], ps[1..][..n - 1];
      assert ps[..n][1..] == front && ps[..n][0] == p && ps[1..][n - 1] == ps[n];
      match WriteOutcome(cap - |EncodeBatch(cur)|, |p.key|, |p.value|)
      case Written => UnpackableEnds(ps[1..], n - 1, raises, size, cur + [p], cap, count + 1);
      case Overflow =>
        UnpackableEnds(ps[1..], n - 1, raises, size, [p], SpillCapacity(size, p), count);
        FirstOpens(front, false, size, p, count);
        EndedAfterSpill(cur, Groups(front, false, size, None, [p], SpillCapacity(size, p), count), size, cap, p, ps[n]);
    }
  }

  /** With a limit, the number of emitted pairs lies between the limit and the
      limit plus the number of spills, unless the input is shorter. */
  lemma {:induction false} LimitBounds(ps: seq<Pair>, size: nat, limit: int,
                                       cur: seq<Pair>, cap: nat, count: nat)
    requires AllPackable(ps)
    ensures var gs := Groups(ps, false, size, Some(limit), cur, cap, count);
            && gs != []
            && |cur| + Min(Max(limit - count, 1), |ps|) <= |Flatten(gs)|
            && |Flatten(gs)| <= |cur| + Max(limit - count, 1) + |gs| - 1
    decreases |ps|
  {
    if ps == [] {
      assert Flatten([cur]) == cur;
    } else {
      var p := ps[0];
      match WriteOutcome(cap - |EncodeBatch(cur)|, |p.key|, |p.value|)
      case Written =>
        assert Flatten([cur + [p]]) == cur + [p];
        LimitBounds(ps[1..], size, limit, cur + [p], cap, count + 1);
      case Overflow =>
        LimitBounds(ps[1..], size, limit, [p], SpillCapacity(size, p), count);
        var rest := Groups(ps[1..], false, size, Some(limit), [p], SpillCapacity(size, p), count);
        assert ([cur] + rest)[1..] == rest;
    }
  }

  lemma {:induction false} EncodePairsGrow(a: seq<Pair>, b: seq<Pair>)
    requires a <= b
    ensures |EncodePairs(a)| <= |EncodePairs(b)|
  {
    assert b == a + b[|a|..];
    EncodePairsConcat(a, b[|a|..]);
  }

  /** k pairs are exactly cur and the next n, or all, iff there are no more than n or
      they fit the open buffer behind cur. */
  ghost predicate Meets(k: nat, cur: seq<Pair>, ps: seq<Pair>, n: nat, cap: nat)
  {
    k == |cur| + Min(n, |ps|) <==> |ps| <= n || |EncodeBatch(cur + ps[..n])| <= cap
  }

  lemma MeetsNext(k: nat, cur: seq<Pair>, ps: seq<Pair>, n: nat, cap: nat)
    requires ps != [] && 1 < n && Meets(k, cur + [ps[0]], ps[1..], n - 1, cap)
    ensures Meets(k, cur, ps, n, cap)
  {
    if n <= |ps| { MoveFirst(cur, ps, n); }
  }

  lemma MoveFirst<T>(cur: seq<T>, ps: seq<T>, n: nat)
    requires 1 < n <= |ps|
    ensures cur + ps[..n] == (cur + [ps[0]]) + ps[1..][..n - 1]
  {
  }

  /** The limit is met exactly unless a pair within it spills. */
  lemma {:induction false} LimitMet(ps: seq<Pair>, size: nat, limit: int, cur: seq<Pair>, cap: nat, count: nat)
    requires AllPackable(cur) && AllPackable(ps) && |EncodeBatch(cur)| <= cap
    ensures Meets(|Flatten(Groups(ps, false, size, Some(limit), cur, cap, count))|, cur, ps, Max(limit - count, 1), cap)
    decreases |ps|
  {
    if ps == [] {
      FlattenOne(cur);
    } else {
      var p := ps[0];
      match WriteOutcome(cap - |EncodeBatch(cur)|, |p.key|, |p.value|)
      case Written =>
        RoomLeft(cur, p, cap);
        if limit <= count + 1 {
          FlattenOne(cur + [p]);
          assert ps[..1] == [p];
        } else {
          LimitMet(ps[1..], size, limit, cur + [p], cap, count + 1);
          MeetsNext(|Flatten(Groups(ps, false, size, Some(limit), cur, cap, count))|, cur, ps, limit - count, cap);
        }
      case Overflow =>
        LimitSpills(ps, size, limit, cur, cap, count);
    }
  }

  lemma LimitSpills(ps: seq<Pair>, size: nat, limit: int, cur: seq<Pair>, cap: nat, count: nat)
    requires AllPackable(cur) && AllPackable(ps) && ps != []
    requires WriteOutcome(cap - |EncodeBatch(cur)|, |ps[0].key|, |ps[0].value|) == Overflow
    ensures var n, k := Max(limit - count, 1), |Flatten(Groups(ps, false, size, Some(limit), cur, cap, count))|;
            if |ps| <= n then k == |cur| + |ps| else |cur| + n < k && cap < |EncodeBatch(cur + ps[..n])|
  {
    var p, n := ps[0], Max(limit - count, 1);
    var rest := Groups(ps[1..], false, size, Some(limit), [p], SpillCapacity(size, p), count);
    LimitBounds(ps[1..], size, limit, [p], SpillCapacity(size, p), count);
    GroupsArePrefix(ps, false, size, Some(limit), cur, cap, count);
    assert ([cur] + rest)[1..] == rest;
    if n < |ps| {
      assert [p] <= ps[..n] && cur + [p] <= cur + ps[..n];
      EncodePairsGrow(cur + [p], cur + ps[..n]);
      EncodeBatchAppend(cur, p);
    }
  }

  /** The limit of pair_to_bin_batch, exactly: as many pairs as the limit (at least 1)
      are emitted, or all if there are fewer, iff there are no more or the first ones
      up to the limit fit the send buffer together. */
  lemma LimitIsExact(ps: seq<Pair>, size: nat, limit: int)
    requires AllPackable(ps) && HEADER_SIZE <= size
    ensures var n := Max(limit, 1);
            |Flatten(Groups(ps, false, size, Some(limit), [], size, 0))| == Min(n, |ps|)
            <==> |ps| <= n || |EncodeBatch(ps[..n])| <= size
  {
    LimitMet(ps, size, limit, [], size, 0);
    var n := Max(limit, 1);
    assert n <= |ps| ==> [] + ps[..n] == ps[..n];
    assert |EncodeBatch([])| == HEADER_SIZE;
  }

  /** A limit that is not met: with a buffer that holds the header only, every pair
      spills and none is counted, so a limit of one lets two through. */
  lemma LimitExceeded(p: Pair, q: Pair)
    requires Packable(p) && Packable(q)
    ensures |Flatten(Groups([p, q], false, HEADER_SIZE, Some(1), [], HEADER_SIZE, 0))| == 2
  {
    var ps := [p, q];
    LimitIsExact(ps, HEADER_SIZE, 1);
    GroupsArePrefix(ps, false, HEADER_SIZE, Some(1), [], HEADER_SIZE, 0);
    LimitBounds(ps, HEADER_SIZE, 1, [], HEADER_SIZE, 0);
    EncodeBatchAppend([], p);
    assert ps[..1] == [] + [p];
    assert |EncodeBatch([])| == HEADER_SIZE;
    assert [] + ps == ps;
  }

  // ----------------------------------------------------------- the round trip

  function ReadableAll(gs: seq<seq<Pair>>): (ps: seq<Pair>)
    ensures |ps| <= |Flatten(gs)|
    ensures |ps| == |Flatten(gs)| ==> ps == Flatten(gs) && NonEmptyKeys(Flatten(gs))
    ensures NonEmptyKeys(Flatten(gs)) ==> ps == Flatten(gs)
  {
    if gs == [] then []
    else
      var rest := ReadableAll(gs[1..]);
      assert NonEmptyKeys(Flatten(gs)) <==> NonEmptyKeys(gs[0]) && NonEmptyKeys(Flatten(gs[1..])) by {
        KeysConcat(gs[0], Flatten(gs[1..]));
      }
      Readable(gs[0]) + rest
  }

  lemma KeysConcat(a: seq<Pair>, b: seq<Pair>)
    ensures NonEmptyKeys(a + b) <==> NonEmptyKeys(a) && NonEmptyKeys(b)
  {
    if NonEmptyKeys(a + b) {
      forall i | 0 <= i < |a| ensures a[i].key != [] { assert (a + b)[i] == a[i]; }
      forall i | 0 <= i < |b| ensures b[i].key != [] { assert (a + b)[|a| + i] == b[i]; }
    }
  }

  lemma {:induction false} DecodeEncodeAll(gs: seq<seq<Pair>>)
    requires forall i :: 0 <= i < |gs| ==> AllPackable(gs[i])
    ensures DecodeBatches(EncodeAll(gs)) == ReadableAll(gs)
  {
    if gs != [] {
      DecodeEncoded(gs[0], []);
      assert EncodeBatch(gs[0]) + [] == EncodeBatch(gs[0]);
      assert EncodeAll(gs)[1..] == EncodeAll(gs[1..]);
      DecodeEncodeAll(gs[1..]);
    }
  }

  /** A sequence the codec carries unchanged. */
  predicate Carried(ps: seq<Pair>)
  {
    NonEmptyKeys(ps) && AllPackable(ps)
  }

  /** The codec round trip, for every input: decoding the emitted batches gives
      the input back exactly when every key is non-empty, every length fits 31
      bits, and the input iterator did not fail (or had nothing to give). */
  lemma RoundTrip(ps: seq<Pair>, raises: bool, size: nat)
    ensures DecodeBatches(Batches(ps, raises, size, None)) == ps
        <==> Carried(ps) && (!raises || ps == [])
  {
    var gs := Groups(ps, raises, size, None, [], size, 0);
    GroupsArePrefix(ps, raises, size, None, [], size, 0);
    GroupsComplete(ps, raises, size, [], size, 0);
    DecodeEncodeAll(gs);
    assert [] + ps == ps;
  }

  /** What comes back in every case: a prefix of the input is packed, and of each batch
      the pairs in front of its first empty key are read. Without empty keys that is a
      prefix of the input, and a proper one when the iterator raises. */
  lemma RoundTripLosesSuffix(ps: seq<Pair>, raises: bool, size: nat)
    ensures var gs, back := Groups(ps, raises, size, None, [], size, 0), DecodeBatches(Batches(ps, raises, size, None));
            && Flatten(gs) <= ps && back == ReadableAll(gs)
            && (NonEmptyKeys(ps) ==> back == Flatten(gs))
            && (raises && ps != [] ==> |back| < |ps|)
  {
    var gs := Groups(ps, raises, size, None, [], size, 0);
    GroupsArePrefix(ps, raises, size, None, [], size, 0);
    GroupsComplete(ps, raises, size, [], size, 0);
    DecodeEncodeAll(gs);
    assert [] + ps == ps;
    if NonEmptyKeys(ps) {
      PrefixKeys(Flatten(gs), ps);
    }
  }

  lemma PrefixKeys(a: seq<Pair>, b: seq<Pair>)
    requires a <= b && NonEmptyKeys(b)
    ensures NonEmptyKeys(a)
  {
    forall i | 0 <= i < |a| ensures a[i].key != [] { assert a[i] == b[i]; }
  }

  /** A stream that carries its input always has at least one batch, even when
      it carries no pair: the receiver's broker gets its finish signal. */
  lemma AtLeastOneBatch(ps: seq<Pair>, size: nat)
    requires AllPackable(ps)
    ensures Batches(ps, false, size, None) != []
  {
    GroupsComplete(ps, false, size, [], size, 0);
  }

  // --------------------------------------------------------------- the loops

  /** The writer's buffer has capacity cap and holds the pairs cur. */
  ghost predicate Holds(writer: PairBinWriter, cur: seq<Pair>, cap: nat)
    reads writer, writer.data
  {
    writer.data.Length == cap && HEADER_SIZE <= cap && writer.offset == |EncodeBatch(cur)| <= cap
    && writer.data[..writer.offset] == EncodeBatch(cur)
  }

  /** The second half of commit: a fresh writer of capacity bs. */
  method FreshWriter(bs: nat) returns (next: PairBinWriter, outcome: Outcome)
    ensures fresh(next) && fresh(next.data)
    ensures outcome == if HEADER_SIZE <= bs then Written else Overflow
    ensures outcome == Written ==> Holds(next, [], bs)
  {
    var ba := new byte[bs](_ => 0);
    next := new PairBinWriter(ba);
    WriteHeadEffect(next.data[..]);
    outcome := next.Open();
    assert outcome == Written ==> next.data[..][..HEADER_SIZE] == next.data[..HEADER_SIZE];
  }

  /** One write into a buffer that holds `cur`. */
  method WriteTo(writer: PairBinWriter, ghost cur: seq<Pair>, ghost cap: nat, p: Pair) returns (outcome: Outcome)
    requires Holds(writer, cur, cap)
    modifies writer`offset, writer.data
    ensures outcome == WriteOutcome(cap - |EncodeBatch(cur)|, |p.key|, |p.value|)
    ensures outcome == Written ==> Holds(writer, cur + [p], cap)
    ensures outcome == Overflow ==> Holds(writer, cur, cap)
  {
    WritePairEffect(writer.data[..], writer.offset, p.key, p.value);
    EncodeBatchAppend(cur, p);
    assert writer.data[..][..writer.offset] == writer.data[..writer.offset];
    outcome := writer.Write(p.key, p.value);
    if outcome != LengthError {
      assert writer.data[..][..writer.offset] == writer.data[..writer.offset];
    }
  }

  /** The overflow branch: commit the buffer and retry the write in a fresh one. */
  method Spill(writer: PairBinWriter, ghost cur: seq<Pair>, ghost cap: nat, size: nat, p: Pair)
    returns (batch: Bytes, next: PairBinWriter, outcome: Outcome)
    requires Holds(writer, cur, cap)
    ensures batch == EncodeBatch(cur)
    ensures fresh(next) && fresh(next.data)
    ensures outcome == if Packable(p) then Written else LengthError
    ensures outcome == Written ==> Holds(next, [p], SpillCapacity(size, p))
  {
    batch := writer.data[..writer.offset];
    next, outcome := FreshWriter(SpillCapacity(size, p));
    outcome := WriteTo(next, [], SpillCapacity(size, p), p);
    assert [] + [p] == [p];
    assert |EncodeBatch([])| == HEADER_SIZE;
  }

  /** One turn of the loop, in terms of what is still to be emitted. */
  lemma BatchesTurn(ps: seq<Pair>, raises: bool, size: nat, limit: Option<int>,
                    cur: seq<Pair>, cap: nat, count: nat, done: seq<Bytes>)
    requires ps != []
    ensures var p := ps[0];
            var outcome := WriteOutcome(cap - |EncodeBatch(cur)|, |p.key|, |p.value|);
            done + EncodeAll(Groups(ps, raises, size, limit, cur, cap, count)) ==
              if outcome == LengthError then done
              else if outcome == Overflow then
                done + [EncodeBatch(cur)] +
                  if Packable(p) then EncodeAll(Groups(ps[1..], raises, size, limit, [p], SpillCapacity(size, p), count)) else []
              else if limit.Some? && limit.value <= count + 1 then done + [EncodeBatch(cur + [p])]
              else done + EncodeAll(Groups(ps[1..], raises, size, limit, cur + [p], cap, count + 1))
  {
    var p := ps[0];
    var gs := Groups(ps, raises, size, limit, cur, cap, count);
    match WriteOutcome(cap - |EncodeBatch(cur)|, |p.key|, |p.value|)
    case LengthError =>
      assert gs == [];
    case Written =>
      EncodeAllCons(done, cur + [p], []);
    case Overflow =>
      EncodeAllCons(done, cur, gs[1..]);
  }

  lemma EncodeAllCons(done: seq<Bytes>, g: seq<Pair>, gs: seq<seq<Pair>>)
    ensures done + EncodeAll([g] + gs) == done + [EncodeBatch(g)] + EncodeAll(gs)
    ensures [g] + [] == [g]
  {
    assert ([g] + gs)[1..] == gs;
  }

  /** The batches emitted so far and those still to come, with `cur` in the open buffer
      and the input at position i, are the batches `all`. */
  predicate Emitting(all: seq<Bytes>, done: seq<Bytes>, pairs: seq<Pair>, i: nat, raises: bool, size: nat, limit: Option<int>,
                     cur: seq<Pair>, cap: nat, count: nat)
    requires i <= |pairs|
  {
    all == done + EncodeAll(Groups(pairs[i..], raises, size, limit, cur, cap, count))
  }

  lemma EmitTurn(all: seq<Bytes>, done: seq<Bytes>, pairs: seq<Pair>, i: nat, raises: bool, size: nat, limit: Option<int>,
                 cur: seq<Pair>, cap: nat, count: nat)
    requires i < |pairs| && Emitting(all, done, pairs, i, raises, size, limit, cur, cap, count)
    ensures var p := pairs[i];
            match WriteOutcome(cap - |EncodeBatch(cur)|, |p.key|, |p.value|)
            case LengthError => all == done
            case Written =>
              if limit.Some? && limit.value <= count + 1 then all == done + [EncodeBatch(cur + [p])]
              else Emitting(all, done, pairs, i + 1, raises, size, limit, cur + [p], cap, count + 1)
            case Overflow =>
              if Packable(p) then
                Emitting(all, done + [EncodeBatch(cur)], pairs, i + 1, raises, size, limit, [p], SpillCapacity(size, p), count)
              else all == done + [EncodeBatch(cur)]
  {
    assert pairs[i..][0] == pairs[i] && pairs[i..][1..] == pairs[i + 1..];
    BatchesTurn(pairs[i..], raises, size, limit, cur, cap, count, done);
  }

  lemma EmitEnd(all: seq<Bytes>, done: seq<Bytes>, pairs: seq<Pair>, raises: bool, size: nat, limit: Option<int>,
                cur: seq<Pair>, cap: nat, count: nat)
    requires Emitting(all, done, pairs, |pairs|, raises, size, limit, cur, cap, count)
    ensures all == if raises then done else done + [EncodeBatch(cur)]
  {
    EncodeAllCons(done, cur, []);
  }

  /** pair_to_bin_batch. The first result is false when the send buffer cannot
      hold the header, in which case the generator fails before its first batch. */
  method PairToBinBatch(pairs: seq<Pair>, raises: bool, limit: Option<int>, sendbufSize: int, defaultSize: int)
    returns (ok: bool, batches: seq<Bytes>)
    ensures var size := if sendbufSize <= 0 then defaultSize else sendbufSize;
            && ok == (HEADER_SIZE <= size)
            && batches == if ok then Batches(pairs, raises, size, limit) else []
  {
    var size := if sendbufSize <= 0 then defaultSize else sendbufSize;
    if size < 0 {
      return false, [];
    }
    var writer, outcome := FreshWriter(size);
    if outcome != Written {
      return false, [];
    }
    ok, batches := true, [];
    var count, i := 0, 0;
    ghost var cur: seq<Pair>, cap: nat := [], size;
    ghost var all := Batches(pairs, raises, size, limit);
    assert pairs[0..] == pairs;
    while i < |pairs|
      invariant 0 <= i <= |pairs| && 0 <= count
      invariant fresh(writer) && fresh(writer.data) && Holds(writer, cur, cap)
      invariant Emitting(all, batches, pairs, i, raises, size, limit, cur, cap, count)
    {
      var p := pairs[i];
      EmitTurn(all, batches, pairs, i, raises, size, limit, cur, cap, count);
      outcome := WriteTo(writer, cur, cap, p);
      if outcome == LengthError {
        return;
      } else if outcome == Written {
        cur, count := cur + [p], count + 1;
        if limit.Some? && limit.value <= count {
          batches := batches + [writer.data[..writer.offset]];
          return;
        }
      } else {
        var batch;
        batch, writer, outcome := Spill(writer, cur, cap, size, p);
        batches := batches + [batch];
        if outcome != Written {
          return;
        }
        cur, cap := [p], SpillCapacity(size, p);
      }
      i := i + 1;
    }
    EmitEnd(all, batches, pairs, raises, size, limit, cur, cap, count);
    if raises {
      return;
    }
    batches := batches + [writer.data[..writer.offset]];
  }

  lemma DecodeNext(batches: seq<Bytes>, i: nat)
    requires i < |batches|
    ensures DecodeBatches(batches[..i + 1]) == DecodeBatches(batches[..i]) + DecodeBatch(batches[i])
  {
    assert batches[..i + 1] == batches[..i] + [batches[i]];
    DecodeBatchesConcat(batches[..i], [batches[i]]);
    assert DecodeBatches([batches[i]]) == DecodeBatch(batches[i]);
  }

  /** A header that is a ValueError; a truncated batch is skipped instead. */
  predicate Malformed(batch: Bytes) { OpenBatch(batch) in {BadMagic, BadVersion, BadBodySize} }

  method UnpackBatch(batch: Bytes) returns (pairs: seq<Pair>, failed: bool)
    ensures failed == Malformed(batch)
    ensures !failed ==> pairs == DecodeBatch(batch)
  {
    pairs, failed := [], false;
    match OpenBatch(batch)
    case Truncated =>
    case Opened =>
      var offset, negative;
      pairs, offset, negative := ReadAllInlined(batch, HEADER_SIZE);
    case _ =>
      failed := true;
  }

  /** The first n batches have good headers, and these are their pairs. */
  ghost predicate Unpacked(batches: seq<Bytes>, n: nat, pairs: seq<Pair>)
  {
    && n <= |batches| && pairs == DecodeBatches(batches[..n])
    && forall j :: 0 <= j < n ==> !Malformed(batches[j])
  }

  lemma UnpackNext(batches: seq<Bytes>, n: nat, pairs: seq<Pair>)
    requires n < |batches| && Unpacked(batches, n, pairs) && !Malformed(batches[n])
    ensures Unpacked(batches, n + 1, pairs + DecodeBatch(batches[n]))
  {
    DecodeNext(batches, n);
  }

  /** bin_batch_to_pair: the pairs of the batches in order, up to a malformed one. */
  method BinBatchToPair(batches: seq<Bytes>) returns (pairs: seq<Pair>, failed: bool)
    ensures !failed ==> pairs == DecodeBatches(batches)
    ensures !failed ==> forall i :: 0 <= i < |batches| ==> !Malformed(batches[i])
    ensures failed ==> exists n :: 0 <= n < |batches| && Malformed(batches[n]) && pairs == DecodeBatches(batches[..n])
  {
    pairs, failed := [], false;
    for i := 0 to |batches|
      invariant !failed && Unpacked(batches, i, pairs)
    {
      var more;
      more, failed := UnpackBatch(batches[i]);
      if failed {
        return;
      }
      UnpackNext(batches, i, pairs);
      pairs := pairs + more;
    }
    assert batches[..|batches|] == batches;
  }
}
