/** The pair-batch byte format: a 16-byte header followed by length-prefixed
    keys and values. The format is written by two pieces of code, one through
    ArrayByteBuffer and one inlined; both are specified by WritePair and
    ParsePairs below. */
module Format {
  import opened Bytes

  const MAGIC_NUM: Bytes := [0x46, 0x70, 0x93, 0x94]
  const PROTOCOL_VERSION: Bytes := [0, 0, 0, 1]
  const HEADER_SIZE := 16
  const HEADER: Bytes := [0x46, 0x70, 0x93, 0x94, 0, 0, 0, 1, 0, 0, 0, 0, 0, 0, 0, 0]

  /** How a write ends: normally, with the buffer overflow the caller handles
      (IndexError), or with struct.error because a length needs more than 31 bits. */
  datatype Outcome = Written | Overflow | LengthError

  // ---------------------------------------------------------------- writing

  function Overwrite(buf: Bytes, off: nat, b: Bytes): (r: Bytes)
    requires off + |b| <= |buf|
    ensures |r| == |buf|
    ensures r[..off] == buf[..off] && r[off..off + |b|] == b && r[off + |b|..] == buf[off + |b|..]
  {
    buf[..off] + b + buf[off + |b|..]
  }

  /** A buffer with its write position, and how the last write went. */
  datatype Cursor = Cursor(buf: Bytes, off: nat, outcome: Outcome) {

    function WriteBytes(b: Bytes): (c: Cursor)
      ensures |c.buf| == |buf|
    {
      if outcome != Written then this
      else if |buf| < off + |b| then this.(outcome := Overflow)
      else Cursor(Overwrite(buf, off, b), off + |b|, Written)
    }

    function WriteInt32(n: int): (c: Cursor)
      ensures |c.buf| == |buf|
    {
      if outcome != Written then this
      else if |buf| < off + 4 then this.(outcome := Overflow)
      else if n < -INT32_LIMIT || INT32_LIMIT <= n then this.(outcome := LengthError)
      else WriteBytes(PackInt32(n))
    }
  }

  /** Writing one pair: four fields in turn; an overflow moves the position back. */
  function WritePair(buf: Bytes, off: nat, k: Bytes, v: Bytes): (c: Cursor)
    ensures |c.buf| == |buf|
  {
    var c := Cursor(buf, off, Written).WriteInt32(|k|).WriteBytes(k).WriteInt32(|v|).WriteBytes(v);
    if c.outcome == Overflow then c.(off := off) else c
  }

  /** Writing the header at a position; an overflow leaves the fields before it written. */
  function WriteHeadAt(buf: Bytes, off: nat): (c: Cursor)
    ensures |c.buf| == |buf|
  {
    Cursor(buf, off, Written).WriteBytes(MAGIC_NUM).WriteBytes(PROTOCOL_VERSION).WriteInt32(0).WriteInt32(0)
  }

  function WriteHead(buf: Bytes): Cursor { WriteHeadAt(buf, 0) }

  /** The bytes of one pair, and of a batch of them. */
  function EncodePair(p: Pair): (b: Bytes)
    ensures |b| == 8 + |p.key| + |p.value|
  {
    PackInt32(|p.key|) + p.key + PackInt32(|p.value|) + p.value
  }

  function EncodePairs(ps: seq<Pair>): (b: Bytes)
  {
    if ps == [] then [] else EncodePair(ps[0]) + EncodePairs(ps[1..])
  }

  function EncodeBatch(ps: seq<Pair>): (b: Bytes)
    ensures HEADER_SIZE <= |b|
  {
    HEADER + EncodePairs(ps)
  }

  predicate Packable(p: Pair)
  {
    |p.key| < INT32_LIMIT && |p.value| < INT32_LIMIT
  }

  /** How writing a pair with these lengths ends when `room` bytes are left. */
  function WriteOutcome(room: int, keyLen: nat, valueLen: nat): Outcome
  {
    if room < 4 then Overflow
    else if INT32_LIMIT <= keyLen then LengthError
    else if room < 8 + keyLen then Overflow
    else if INT32_LIMIT <= valueLen then LengthError
    else if room < 8 + keyLen + valueLen then Overflow
    else Written
  }

  lemma {:induction false} EncodePairsConcat(a: seq<Pair>, b: seq<Pair>)
    ensures EncodePairs(a + b) == EncodePairs(a) + EncodePairs(b)
  {
    if a == [] {
      assert a + b == b;
    } else {
      assert (a + b)[1..] == a[1..] + b;
      EncodePairsConcat(a[1..], b);
    }
  }

  lemma AppendAfter(pre: Bytes, ps: seq<Pair>, p: Pair)
    ensures pre + EncodePairs(ps + [p]) == pre + EncodePairs(ps) + EncodePair(p)
  {
    EncodePairsConcat(ps, [p]);
    assert EncodePairs([p]) == EncodePair(p);
  }

  lemma EncodeBatchAppend(ps: seq<Pair>, p: Pair)
    ensures EncodeBatch(ps + [p]) == EncodeBatch(ps) + EncodePair(p)
  {
    AppendAfter(HEADER, ps, p);
  }

  /** One successful field write extends the prefix and keeps the rest. */
  lemma FieldEffect(c: Cursor, b: Bytes, off: nat)
    requires c.outcome == Written && off <= c.off && c.off + |b| <= |c.buf|
    ensures var d := c.WriteBytes(b);
            && d.outcome == Written && d.off == c.off + |b|
            && d.buf[..d.off] == c.buf[..c.off] + b
            && d.buf[..off] == c.buf[..off]
            && d.buf[d.off..] == c.buf[d.off..]
  {
    var d := c.WriteBytes(b);
    assert d.buf[..off] == d.buf[..c.off][..off];
    assert c.buf[..off] == c.buf[..c.off][..off];
  }

  /** A length and its bytes: written when both fit and the length can be packed. */
  lemma SizedEffect(c: Cursor, x: Bytes, off: nat)
    requires c.outcome == Written && off <= c.off <= |c.buf|
    ensures var d := c.WriteInt32(|x|).WriteBytes(x);
            var room := |c.buf| - c.off;
            && d.outcome == (if room < 4 then Overflow else if INT32_LIMIT <= |x| then LengthError
                             else if room < 4 + |x| then Overflow else Written)
            && d.buf[..off] == c.buf[..off]
            && (d.outcome == LengthError ==> d.off == c.off)
            && (d.outcome == Written ==>
                  && d.off == c.off + 4 + |x|
                  && d.buf[..d.off] == c.buf[..c.off] + (PackInt32(|x|) + x)
                  && d.buf[d.off..] == c.buf[d.off..])
  {
    var c1 := c.WriteInt32(|x|);
    if c1.outcome == Written {
      FieldEffect(c, PackInt32(|x|), off);
      var c2 := c1.WriteBytes(x);
      if c2.outcome == Written {
        FieldEffect(c1, x, off);
        assert c.buf[..c.off] + PackInt32(|x|) + x == c.buf[..c.off] + (PackInt32(|x|) + x);
      }
    }
  }

  /** A write succeeds exactly when the pair fits and its lengths can be packed;
      then the committed prefix grows by the pair's encoding and the rest of the
      buffer is untouched. A write that overflows leaves prefix and position alone; one
      that meets an unpackable length stays behind the fields it has written. */
  lemma WritePairEffect(buf: Bytes, off: nat, k: Bytes, v: Bytes)
    requires off <= |buf|
    ensures var c := WritePair(buf, off, k, v);
            && c.outcome == WriteOutcome(|buf| - off, |k|, |v|)
            && c.buf[..off] == buf[..off]
            && (c.outcome == Written ==>
                  && c.off == off + 8 + |k| + |v| <= |buf|
                  && c.buf[..c.off] == buf[..off] + EncodePair(Pair(k, v))
                  && c.buf[c.off..] == buf[c.off..])
            && (c.outcome == Overflow ==> c.off == off)
            && (c.outcome == LengthError ==> c.off == if INT32_LIMIT <= |k| then off else off + 4 + |k|)
  {
    var c0 := Cursor(buf, off, Written);
    var c1 := c0.WriteInt32(|k|).WriteBytes(k);
    SizedEffect(c0, k, off);
    if c1.outcome == Written {
      var c2 := c1.WriteInt32(|v|).WriteBytes(v);
      SizedEffect(c1, v, off);
      if c2.outcome == Written {
        Joined(buf[..off], PackInt32(|k|), k, PackInt32(|v|), v);
      }
    }
  }

  lemma Joined(pre: Bytes, a: Bytes, b: Bytes, c: Bytes, d: Bytes)
    ensures pre + (a + b) + (c + d) == pre + (a + b + c + d)
  {
  }

  /** Four fields written in turn into an empty buffer. */
  lemma FourFields(buf: Bytes, a: Bytes, b: Bytes, d: Bytes, e: Bytes)
    ensures var c := Cursor(buf, 0, Written).WriteBytes(a).WriteBytes(b).WriteBytes(d).WriteBytes(e);
            var n := |a| + |b| + |d| + |e|;
            && (c.outcome == if n <= |buf| then Written else Overflow)
            && (n <= |buf| ==> c.off == n && c.buf[..n] == a + b + d + e)
            && (|buf| < n ==> c.off == if |buf| < |a| then 0 else if |buf| < |a| + |b| then |a|
                                       else if |buf| < |a| + |b| + |d| then |a| + |b| else |a| + |b| + |d|)
  {
    var c0 := Cursor(buf, 0, Written);
    if |a| <= |buf| {
      FieldEffect(c0, a, 0);
      var c1 := c0.WriteBytes(a);
      if |a| + |b| <= |buf| {
        FieldEffect(c1, b, 0);
        var c2 := c1.WriteBytes(b);
        if |a| + |b| + |d| <= |buf| {
          FieldEffect(c2, d, 0);
          var c3 := c2.WriteBytes(d);
          if |a| + |b| + |d| + |e| <= |buf| {
            FieldEffect(c3, e, 0);
          }
        }
      }
    }
  }

  lemma WriteHeadEffect(buf: Bytes)
    ensures var c := WriteHead(buf);
            && (c.outcome == Written <==> HEADER_SIZE <= |buf|)
            && c.outcome != LengthError
            && (c.outcome == Written ==> c.off == HEADER_SIZE && c.buf[..HEADER_SIZE] == EncodeBatch([]))
            && (c.outcome == Overflow ==> c.off == |buf| / 4 * 4)
  {
    var zero := PackInt32(0);
    FourFields(buf, MAGIC_NUM, PROTOCOL_VERSION, zero, zero);
    assert EncodeBatch([]) == HEADER;
    assert MAGIC_NUM + PROTOCOL_VERSION + zero + zero == HEADER;
  }

  // ---------------------------------------------------------------- reading

  /** One turn of the reading loop. Negative is a length field below zero, which
      no writer produces and for which the loop's behaviour is not modelled. */
  datatype Turn = Yield(pair: Pair, next: nat) | Stop | Negative

  function Field(data: Bytes, off: nat): (n: int)
    requires off + 4 <= |data|
  {
    UnpackInt32(data[off..off + 4])
  }

  function ParseTurn(data: Bytes, off: nat): (t: Turn)
    ensures t.Yield? ==> off < t.next <= |data|
  {
    if |data| < off + 4 then Stop
    else
      var keySize := Field(data, off);
      if keySize == 0 then Stop
      else if keySize < 0 then Negative
      else if |data| < off + 4 + keySize then Stop
      else ParseValue(data, data[off + 4..off + 4 + keySize], off + 4 + keySize)
  }

  /** The rest of a turn, once the key is read. */
  function ParseValue(data: Bytes, key: Bytes, off: nat): (t: Turn)
    ensures t.Yield? ==> off < t.next <= |data|
  {
    if |data| < off + 4 then Stop
    else
      var valueSize := Field(data, off);
      if valueSize < 0 then Negative
      else if |data| < off + 4 + valueSize then Stop
      else Yield(Pair(key, data[off + 4..off + 4 + valueSize]), off + 4 + valueSize)
  }

  /** What read_all yields from `off` on, where it leaves the position, and
      whether it met a negative length. */
  datatype Parsed = Parsed(pairs: seq<Pair>, off: nat, negative: bool)

  function ParsePairs(data: Bytes, off: nat): (r: Parsed)
    decreases |data| - off
  {
    match ParseTurn(data, off)
    case Stop => Parsed([], off, false)
    case Negative => Parsed([], off, true)
    case Yield(p, next) =>
      var r := ParsePairs(data, next);
      r.(pairs := [p] + r.pairs)
  }

  datatype Opened = Opened | Truncated | BadMagic | BadVersion | BadBodySize

  /** The checks of the reader's constructor, in order. */
  function OpenBatch(data: Bytes): Opened
  {
    if |data| < 4 then Truncated
    else if data[0..4] != MAGIC_NUM then BadMagic
    else if |data| < 8 then Truncated
    else if data[4..8] != PROTOCOL_VERSION then BadVersion
    else if |data| < 16 then Truncated
    else if Field(data, 12) > 0 && |data| - 16 != Field(data, 12) then BadBodySize
    else Opened
  }

  /** The pairs a batch yields. */
  function DecodeBatch(data: Bytes): (ps: seq<Pair>)
  {
    if OpenBatch(data) == Opened then ParsePairs(data, HEADER_SIZE).pairs else []
  }

  /** The part of a batch in front of its first empty key: a zero key length
      reads as the end of the data. */
  function Readable(ps: seq<Pair>): (r: seq<Pair>)
    ensures r <= ps
    ensures r == ps <==> forall i :: 0 <= i < |ps| ==> ps[i].key != []
  {
    if ps == [] || ps[0].key == [] then []
    else
      var r := Readable(ps[1..]);
      assert ps == [ps[0]] + ps[1..];
      [ps[0]] + r
  }

  predicate AllPackable(ps: seq<Pair>)
  {
    forall i :: 0 <= i < |ps| ==> Packable(ps[i])
  }

  predicate Zeros(b: Bytes)
  {
    forall i :: 0 <= i < |b| ==> b[i] == 0
  }

  lemma ZeroField(b: Bytes)
    requires |b| == 4 && Zeros(b)
    ensures UnpackInt32(b) == 0
  {
    PackRoundTrip(0);
    assert PackInt32(0) == [0, 0, 0, 0];
    assert b == PackInt32(0);
  }

  /** Reading one encoded pair back from the middle of a buffer. */
  lemma ParseEncodedPair(data: Bytes, pre: Bytes, p: Pair, rest: Bytes)
    requires Packable(p) && data == pre + EncodePair(p) + rest
    ensures ParseTurn(data, |pre|) == if p.key == [] then Stop else Yield(p, |pre| + |EncodePair(p)|)
  {
    EncodedFields(data, pre, p, rest);
    TurnAt(data, |pre|, p);
  }

  lemma TurnAt(data: Bytes, off: nat, p: Pair)
    requires HasPair(data, off, p)
    ensures ParseTurn(data, off) == if p.key == [] then Stop else Yield(p, off + 8 + |p.key| + |p.value|)
  {
  }

  /** The data has a pair's two lengths and contents from `off` on. */
  predicate HasPair(data: Bytes, off: nat, p: Pair)
  {
    && off + 8 + |p.key| + |p.value| <= |data|
    && Field(data, off) == |p.key| && data[off + 4..off + 4 + |p.key|] == p.key
    && Field(data, off + 4 + |p.key|) == |p.value|
    && data[off + 8 + |p.key|..off + 8 + |p.key| + |p.value|] == p.value
  }

  lemma EncodedFields(data: Bytes, pre: Bytes, p: Pair, rest: Bytes)
    requires Packable(p) && data == pre + EncodePair(p) + rest
    ensures HasPair(data, |pre|, p)
  {
    PackRoundTrip(|p.key|);
    PackRoundTrip(|p.value|);
    PairFields(data, pre, PackInt32(|p.key|), PackInt32(|p.value|), p, rest);
  }

  lemma PairFields(data: Bytes, pre: Bytes, k4: Bytes, v4: Bytes, p: Pair, rest: Bytes)
    requires |k4| == |v4| == 4 && UnpackInt32(k4) == |p.key| && UnpackInt32(v4) == |p.value|
    requires data == pre + (k4 + p.key + v4 + p.value) + rest
    ensures HasPair(data, |pre|, p)
  {
    FourWindows(pre, k4, p.key, v4, p.value, rest);
  }

  lemma FourWindows(pre: Bytes, a: Bytes, b: Bytes, c: Bytes, d: Bytes, rest: Bytes)
    ensures var data := pre + (a + b + c + d) + rest;
            && data[|pre|..|pre + a|] == a && data[|pre + a|..|pre + a + b|] == b
            && data[|pre + a + b|..|pre + a + b + c|] == c
            && data[|pre + a + b + c|..|pre + a + b + c + d|] == d
  {
  }

  lemma ParsePadding(data: Bytes, off: nat)
    requires off <= |data| && Zeros(data[off..])
    ensures ParsePairs(data, off) == Parsed([], off, false)
  {
    if off + 4 <= |data| {
      assert data[off..off + 4] == data[off..][..4];
      ZeroField(data[off..off + 4]);
    }
  }

  lemma Regroup(a: Bytes, b: Bytes, c: Bytes, d: Bytes)
    ensures a + (b + c) + d == a + b + (c + d) == (a + b) + c + d
  {
  }

  /** Reading encoded pairs, followed by any zero padding, gives back the pairs
      up to the first empty key; the padding is invisible. */
  lemma {:induction false} ParseEncoded(data: Bytes, pre: Bytes, ps: seq<Pair>, pad: Bytes)
    requires AllPackable(ps) && Zeros(pad) && data == pre + EncodePairs(ps) + pad
    ensures var r := ParsePairs(data, |pre|);
            r.pairs == Readable(ps) && !r.negative && r.off == |pre| + |EncodePairs(Readable(ps))|
    decreases |ps|
  {
    if ps == [] {
      assert data[|pre|..] == pad;
      ParsePadding(data, |pre|);
    } else {
      var e, es := EncodePair(ps[0]), EncodePairs(ps[1..]);
      Regroup(pre, e, es, pad);
      ParseEncodedPair(data, pre, ps[0], es + pad);
      if ps[0].key != [] {
        ParseEncoded(data, pre + e, ps[1..], pad);
        ParseNext(data, |pre|, ps[0], |pre + e|);
      }
    }
  }

  lemma ParseNext(data: Bytes, off: nat, p: Pair, next: nat)
    requires ParseTurn(data, off) == Yield(p, next)
    ensures var r := ParsePairs(data, next); ParsePairs(data, off) == r.(pairs := [p] + r.pairs)
  {
  }

  /** A pair that is cut off anywhere ends the reading in front of it. */
  lemma PartialPair(data: Bytes, pre: Bytes, p: Pair, n: nat)
    requires Packable(p) && p.key != [] && n < |EncodePair(p)| && data == pre + EncodePair(p)[..n]
    ensures ParseTurn(data, |pre|) == Stop
  {
    var full := pre + EncodePair(p) + [];
    EncodedFields(full, pre, p, []);
    assert data == full[..|pre| + n];
    StopsShort(data, full, |pre|, p);
  }

  lemma StopsShort(data: Bytes, full: Bytes, off: nat, p: Pair)
    requires HasPair(full, off, p) && p.key != [] && data <= full && off <= |data| < off + 8 + |p.key| + |p.value|
    ensures ParseTurn(data, off) == Stop
  {
    if off + 4 <= |data| {
      assert data[off..off + 4] == full[off..off + 4];
      var at := off + 4 + |p.key|;
      if at + 4 <= |data| {
        assert data[at..at + 4] == full[at..at + 4];
      }
    }
  }

  /** The first k pairs, and no more, are wholly within n bytes. */
  predicate WhollyIn(ps: seq<Pair>, n: nat, k: nat)
  {
    k <= |ps| && |EncodePairs(ps[..k])| <= n && (k < |ps| ==> n < |EncodePairs(ps[..k + 1])|)
  }

  lemma TakeCons(ps: seq<Pair>, j: nat)
    requires ps != [] && j < |ps|
    ensures ps[..j + 1] == [ps[0]] + ps[1..][..j]
    ensures |EncodePairs(ps[..j + 1])| == |EncodePair(ps[0])| + |EncodePairs(ps[1..][..j])|
  {
    assert ps[..j + 1][1..] == ps[1..][..j];
  }

  lemma WhollyInCons(ps: seq<Pair>, n: nat, j: nat)
    requires ps != [] && |EncodePair(ps[0])| <= n && WhollyIn(ps[1..], n - |EncodePair(ps[0])|, j)
    ensures WhollyIn(ps, n, j + 1)
  {
    TakeCons(ps, j);
    if j + 1 < |ps| { TakeCons(ps, j + 1); }
  }

  lemma CutBehind(pre: Bytes, e: Bytes, es: Bytes, n: nat)
    requires |e| <= n <= |e + es|
    ensures pre + (e + es)[..n] == pre + e + es[..n - |e|] == (pre + e) + es[..n - |e|]
  {
    assert (e + es)[..n] == e + es[..n - |e|];
  }

  lemma CutWithin(ps: seq<Pair>, n: nat)
    requires ps != [] && n < |EncodePair(ps[0])|
    ensures EncodePairs(ps)[..n] == EncodePair(ps[0])[..n] && WhollyIn(ps, n, 0)
  {
    assert ps[..1] == [ps[0]] && ps[..1][1..] == [] && ps[..0] == [];
  }

  /** Reading a batch that is cut off after n bytes gives exactly the pairs that are wholly
      there, and leaves the position behind the last of them. */
  lemma {:induction false} ParseTruncated(data: Bytes, pre: Bytes, ps: seq<Pair>, n: nat) returns (k: nat)
    requires AllPackable(ps) && Readable(ps) == ps && n <= |EncodePairs(ps)| && data == pre + EncodePairs(ps)[..n]
    ensures WhollyIn(ps, n, k)
    ensures ParsePairs(data, |pre|) == Parsed(ps[..k], |pre| + |EncodePairs(ps[..k])|, false)
    decreases |ps|
  {
    k := 0;
    if ps != [] {
      var e, es := EncodePair(ps[0]), EncodePairs(ps[1..]);
      if n < |e| {
        CutWithin(ps, n);
        PartialPair(data, pre, ps[0], n);
      } else {
        CutBehind(pre, e, es, n);
        ParseEncodedPair(data, pre, ps[0], es[..n - |e|]);
        var j := ParseTruncated(data, pre + e, ps[1..], n - |e|);
        k := j + 1;
        WhollyInCons(ps, n, j);
        TakeCons(ps, j);
        ParseNext(data, |pre|, ps[0], |pre + e|);
      }
    }
  }

  /** The verdicts on a header, each by what the data must be. */
  lemma HeaderVerdicts(data: Bytes)
    ensures OpenBatch(data) == BadMagic <==> 4 <= |data| && data[..4] != MAGIC_NUM
    ensures OpenBatch(data) == BadVersion <==> 8 <= |data| && data[..4] == MAGIC_NUM && data[4..8] != PROTOCOL_VERSION
    ensures OpenBatch(data) == Opened <==>
              && 16 <= |data| && data[..4] == MAGIC_NUM && data[4..8] == PROTOCOL_VERSION
              && (Field(data, 12) <= 0 || Field(data, 12) == |data| - 16)
    ensures OpenBatch(data) == BadBodySize <==>
              && 16 <= |data| && data[..4] == MAGIC_NUM && data[4..8] == PROTOCOL_VERSION
              && 0 < Field(data, 12) != |data| - 16
  {
    if 4 <= |data| { assert data[0..4] == data[..4]; }
  }

  /** Decoding an encoded batch, padded or not, yields exactly its readable part. */
  lemma DecodeEncoded(ps: seq<Pair>, pad: Bytes)
    requires AllPackable(ps) && Zeros(pad)
    ensures OpenBatch(EncodeBatch(ps) + pad) == Opened
    ensures DecodeBatch(EncodeBatch(ps) + pad) == Readable(ps)
    ensures !ParsePairs(EncodeBatch(ps) + pad, HEADER_SIZE).negative
  {
    var data := EncodeBatch(ps) + pad;
    assert data == HEADER + (EncodePairs(ps) + pad);
    HeaderOpens(data, EncodePairs(ps) + pad);
    ParseEncoded(data, HEADER, ps, pad);
  }

  lemma HeadSlice(head: Bytes, rest: Bytes, i: nat, j: nat)
    requires i <= j <= |head|
    ensures (head + rest)[i..j] == head[i..j]
  {
  }

  lemma HeaderParts()
    ensures |HEADER| == 16 && HEADER[0..4] == MAGIC_NUM && HEADER[4..8] == PROTOCOL_VERSION && HEADER[12..16] == [0, 0, 0, 0]
  {
    assert HEADER[0..4] == [HEADER[0], HEADER[1], HEADER[2], HEADER[3]];
    assert HEADER[4..8] == [HEADER[4], HEADER[5], HEADER[6], HEADER[7]];
    assert HEADER[12..16] == [HEADER[12], HEADER[13], HEADER[14], HEADER[15]];
  }

  lemma HeaderOpens(data: Bytes, rest: Bytes)
    requires data == HEADER + rest
    ensures OpenBatch(data) == Opened
  {
    HeaderParts();
    HeadSlice(HEADER, rest, 0, 4);
    HeadSlice(HEADER, rest, 4, 8);
    HeadSlice(HEADER, rest, 12, 16);
    ZeroField(HEADER[12..16]);
  }

  /** The reading loop at `off`, with `pairs` yielded since `start`. */
  predicate Parsing(data: Bytes, start: nat, pairs: seq<Pair>, off: nat)
  {
    var r := ParsePairs(data, off);
    ParsePairs(data, start) == r.(pairs := pairs + r.pairs)
  }

  lemma ParsingTurn(data: Bytes, start: nat, pairs: seq<Pair>, off: nat)
    requires Parsing(data, start, pairs, off)
    ensures var turn := ParseTurn(data, off);
            && (turn.Yield? ==> Parsing(data, start, pairs + [turn.pair], turn.next))
            && (!turn.Yield? ==> ParsePairs(data, start) == Parsed(pairs, off, turn.Negative?))
  {
    var turn := ParseTurn(data, off);
    if turn.Yield? {
      ParseNext(data, off, turn.pair, turn.next);
      var rest := ParsePairs(data, turn.next).pairs;
      assert pairs + ([turn.pair] + rest) == pairs + [turn.pair] + rest;
    } else {
      assert pairs + [] == pairs;
    }
  }

  // ------------------------------------------------------- the buffer object

  /** buffer[at:at + len(b)] = b on a bytearray. */
  method SetSlice(buffer: array<byte>, at: nat, b: Bytes)
    requires at + |b| <= buffer.Length
    modifies buffer
    ensures buffer[..] == Overwrite(old(buffer[..]), at, b)
  {
    forall i | 0 <= i < |b| { buffer[at + i] := b[i]; }
  }

  /** A byte array with a current position. Every operation works at the position, or at
      an explicit one; success moves the position behind what was read or written, and
      failure leaves it and the bytes alone. */
  class ArrayByteBuffer {
    const buffer: array<byte>
    var offset: nat

    constructor (data: array<byte>)
      ensures buffer == data && offset == 0
    {
      buffer, offset := data, 0;
    }

    function OpOffset(at: Option<nat>): nat
      reads this
    {
      if at.None? then offset else at.value
    }

    method WriteBytes(value: Bytes, at: Option<nat> := None) returns (outcome: Outcome)
      modifies this`offset, buffer
      ensures var c := Cursor(old(buffer[..]), old(OpOffset(at)), Written).WriteBytes(value);
              && buffer[..] == c.buf && outcome == c.outcome
              && offset == if outcome == Written then c.off else old(offset)
    {
      var op := OpOffset(at);
      if buffer.Length - op - |value| < 0 {
        return Overflow;
      }
      SetSlice(buffer, op, value);
      offset := op + |value|;
      outcome := Written;
    }

    method WriteInt32(value: int, at: Option<nat> := None) returns (outcome: Outcome)
      modifies this`offset, buffer
      ensures var c := Cursor(old(buffer[..]), old(OpOffset(at)), Written).WriteInt32(value);
              && buffer[..] == c.buf && outcome == c.outcome
              && offset == if outcome == Written then c.off else old(offset)
    {
      var op := OpOffset(at);
      if buffer.Length - op - 4 < 0 {
        return Overflow;
      }
      if value < -INT32_LIMIT || INT32_LIMIT <= value {
        return LengthError;
      }
      SetSlice(buffer, op, PackInt32(value));
      offset := op + 4;
      outcome := Written;
    }

    method ReadBytes(size: nat, at: Option<nat> := None) returns (ok: bool, value: Bytes)
      modifies this`offset
      ensures ok == (old(OpOffset(at)) + size <= buffer.Length)
      ensures ok ==> value == buffer[..][old(OpOffset(at))..old(OpOffset(at)) + size] && offset == old(OpOffset(at)) + size
      ensures !ok ==> offset == old(offset)
    {
      var op := OpOffset(at);
      if buffer.Length - op - size < 0 {
        return false, [];
      }
      ok, value := true, buffer[op..op + size];
      assert value == buffer[..][op..op + size];
      offset := op + size;
    }

    method ReadInt32(at: Option<nat> := None) returns (ok: bool, value: int)
      modifies this`offset
      ensures ok == (old(OpOffset(at)) + 4 <= buffer.Length)
      ensures ok ==> value == Field(buffer[..], old(OpOffset(at))) && offset == old(OpOffset(at)) + 4
      ensures !ok ==> offset == old(offset)
    {
      var op := OpOffset(at);
      if buffer.Length - op - 4 < 0 {
        return false, 0;
      }
      assert buffer[op..op + 4] == buffer[..][op..op + 4];
      ok, value := true, UnpackInt32(buffer[op..op + 4]);
      offset := op + 4;
    }
  }

  /** PairBinWriter.write_pair: the buffer-object path. */
  method WritePairBuffered(buf: ArrayByteBuffer, k: Bytes, v: Bytes) returns (outcome: Outcome)
    modifies buf`offset, buf.buffer
    ensures Cursor(buf.buffer[..], buf.offset, outcome) == WritePair(old(buf.buffer[..]), old(buf.offset), k, v)
  {
    var oldOffset := buf.offset;
    outcome := buf.WriteInt32(|k|);
    if outcome == Written {
      outcome := buf.WriteBytes(k);
      if outcome == Written {
        outcome := buf.WriteInt32(|v|);
        if outcome == Written {
          outcome := buf.WriteBytes(v);
        }
      }
    }
    if outcome == Overflow {
      buf.offset := oldOffset;
    }
  }

  /** PairBinWriter.write_head: the buffer-object path. */
  method WriteHeadBuffered(buf: ArrayByteBuffer) returns (outcome: Outcome)
    modifies buf`offset, buf.buffer
    ensures Cursor(buf.buffer[..], buf.offset, outcome) == WriteHeadAt(old(buf.buffer[..]), old(buf.offset))
  {
    outcome := buf.WriteBytes(MAGIC_NUM);
    if outcome == Written {
      outcome := buf.WriteBytes(PROTOCOL_VERSION);
      if outcome == Written {
        outcome := buf.WriteInt32(0);
        if outcome == Written {
          outcome := buf.WriteInt32(0);
        }
      }
    }
  }

  /** One turn of read_all over the buffer object: the position moves past the
      pair, or back to where the turn began. */
  method ReadTurnBuffered(buf: ArrayByteBuffer) returns (turn: Turn)
    modifies buf`offset
    ensures turn == ParseTurn(buf.buffer[..], old(buf.offset))
    ensures buf.offset == if turn.Yield? then turn.next else old(buf.offset)
  {
    var oldOffset := buf.offset;
    var ok, keySize := buf.ReadInt32();
    if !ok || keySize <= 0 {
      buf.offset := oldOffset;
      return if ok && keySize < 0 then Negative else Stop;
    }
    var key;
    ok, key := buf.ReadBytes(keySize);
    turn := Stop;
    if ok {
      turn := ReadValueBuffered(buf, key);
    }
    if !turn.Yield? {
      buf.offset := oldOffset;
    }
  }

  method ReadValueBuffered(buf: ArrayByteBuffer, key: Bytes) returns (turn: Turn)
    modifies buf`offset
    ensures turn == ParseValue(buf.buffer[..], key, old(buf.offset))
    ensures turn.Yield? ==> buf.offset == turn.next
  {
    var ok, valueSize := buf.ReadInt32();
    if !ok || valueSize < 0 {
      return if ok then Negative else Stop;
    }
    var value;
    ok, value := buf.ReadBytes(valueSize);
    turn := if ok then Yield(Pair(key, value), buf.offset) else Stop;
  }

  /** PairBinReader.read_all: the buffer-object path. */
  method ReadAllBuffered(buf: ArrayByteBuffer) returns (pairs: seq<Pair>, negative: bool)
    modifies buf`offset
    ensures Parsed(pairs, buf.offset, negative) == ParsePairs(buf.buffer[..], old(buf.offset))
  {
    pairs, negative := [], false;
    ghost var data := buf.buffer[..];
    while buf.buffer.Length - buf.offset > 0
      invariant Parsing(data, old(buf.offset), pairs, buf.offset)
      decreases buf.buffer.Length - buf.offset
    {
      ParsingTurn(data, old(buf.offset), pairs, buf.offset);
      var turn := ReadTurnBuffered(buf);
      if !turn.Yield? {
        negative := turn.Negative?;
        return;
      }
      pairs := pairs + [turn.pair];
    }
  }

  // ------------------------------------------------------- the inlined paths

  /** The writer over a bytearray with its own position. */
  class PairBinWriter {
    const data: array<byte>
    var offset: nat

    constructor (data: array<byte>)
      ensures this.data == data && offset == 0
    {
      this.data, offset := data, 0;
    }

    /** The header part of the constructor. */
    method Open() returns (outcome: Outcome)
      requires offset == 0
      modifies this`offset, data
      ensures Cursor(data[..], offset, outcome) == WriteHead(old(data[..]))
    {
      if data.Length - offset - |MAGIC_NUM| < 0 { return Overflow; }
      SetSlice(data, offset, MAGIC_NUM);
      offset := offset + |MAGIC_NUM|;
      if data.Length - offset - |PROTOCOL_VERSION| < 0 { return Overflow; }
      SetSlice(data, offset, PROTOCOL_VERSION);
      offset := offset + |PROTOCOL_VERSION|;
      if data.Length - offset - 4 < 0 { return Overflow; }
      SetSlice(data, offset, PackInt32(0));
      offset := offset + 4;
      if data.Length - offset - 4 < 0 { return Overflow; }
      SetSlice(data, offset, PackInt32(0));
      offset := offset + 4;
      outcome := Written;
    }

    /** A length and its bytes, each checked against the room left before it is written. */
    method WriteSized(x: Bytes) returns (outcome: Outcome)
      modifies this`offset, data
      ensures Cursor(data[..], offset, outcome) == Cursor(old(data[..]), old(offset), Written).WriteInt32(|x|).WriteBytes(x)
    {
      if data.Length - offset - 4 < 0 { return Overflow; }
      if INT32_LIMIT <= |x| { return LengthError; }
      SetSlice(data, offset, PackInt32(|x|));
      offset := offset + 4;
      if data.Length - offset - |x| < 0 { return Overflow; }
      SetSlice(data, offset, x);
      offset := offset + |x|;
      outcome := Written;
    }

    method Write(k: Bytes, v: Bytes) returns (outcome: Outcome)
      modifies this`offset, data
      ensures Cursor(data[..], offset, outcome) == WritePair(old(data[..]), old(offset), k, v)
    {
      var oldOffset := offset;
      outcome := WriteSized(k);
      if outcome == Written {
        outcome := WriteSized(v);
      }
      if outcome == Overflow {
        offset := oldOffset;
      }
    }
  }

  /** One turn of read_all over the raw bytes. */
  method ReadTurnInlined(data: Bytes, start: nat) returns (turn: Turn)
    ensures turn == ParseTurn(data, start)
  {
    var offset := start;
    if |data| - offset - 4 < 0 { return Stop; }
    var keySize := UnpackInt32(data[offset..offset + 4]);
    offset := offset + 4;
    if keySize == 0 { return Stop; }
    if keySize < 0 { return Negative; }
    if |data| - offset - keySize < 0 { return Stop; }
    var key := data[offset..offset + keySize];
    offset := offset + keySize;
    if |data| - offset - 4 < 0 { return Stop; }
    var valueSize := UnpackInt32(data[offset..offset + 4]);
    offset := offset + 4;
    if valueSize < 0 { return Negative; }
    if |data| - offset - valueSize < 0 { return Stop; }
    var value := data[offset..offset + valueSize];
    offset := offset + valueSize;
    turn := Yield(Pair(key, value), offset);
  }

  /** PairBinReader.read_all over the raw bytes, from position `start`. */
  method ReadAllInlined(data: Bytes, start: nat) returns (pairs: seq<Pair>, offset: nat, negative: bool)
    ensures Parsed(pairs, offset, negative) == ParsePairs(data, start)
  {
    pairs, offset, negative := [], start, false;
    while |data| - offset > 0
      invariant Parsing(data, start, pairs, offset)
      decreases |data| - offset
    {
      ParsingTurn(data, start, pairs, offset);
      var turn := ReadTurnInlined(data, offset);
      if !turn.Yield? {
        negative := turn.Negative?;
        return;
      }
      pairs, offset := pairs + [turn.pair], turn.next;
    }
  }
}
