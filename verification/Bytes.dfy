/** Byte strings as the store and the wire see them: pairs, big-endian integers,
    and the order in which LMDB keeps its keys. */
module Bytes {

  newtype byte = x: int | 0 <= x < 256

  type Bytes = seq<byte>

  datatype Option<+T> = None | Some(value: T)

  datatype Pair = Pair(key: Bytes, value: Bytes)

  /** What a partition holds. */
  type Table = map<Bytes, Bytes>

  /** A length that struct.pack(">i", ...) accepts is below this bound. */
  const INT32_LIMIT := 0x8000_0000

  const UINT32_LIMIT := 0x1_0000_0000

  function Max(a: int, b: int): int { if a < b then b else a }

  function Min(a: int, b: int): int { if a < b then a else b }

  /** n.to_bytes(width, "big") for an n that fits. */
  function BigEndian(n: nat, width: nat): (b: Bytes)
    ensures |b| == width
    decreases width
  {
    if width == 0 then [] else BigEndian(n / 256, width - 1) + [(n % 256) as byte]
  }

  /** int.from_bytes(b, "big"). */
  function FromBigEndian(b: Bytes): nat
  {
    if b == [] then 0 else 256 * FromBigEndian(b[..|b| - 1]) + b[|b| - 1] as nat
  }

  /** The number of values that fit in `width` bytes. */
  function Capacity(width: nat): nat
  {
    if width == 0 then 1 else 256 * Capacity(width - 1)
  }

  lemma {:induction false} BigEndianRoundTrip(n: nat, width: nat)
    requires n < Capacity(width)
    ensures FromBigEndian(BigEndian(n, width)) == n
    decreases width
  {
    if width != 0 {
      BigEndianRoundTrip(n / 256, width - 1);
      assert BigEndian(n, width)[..width - 1] == BigEndian(n / 256, width - 1);
    }
  }

  /** struct.pack(">i", n) for a number that INT32_LIMIT admits: two's complement. */
  function PackInt32(n: int): (b: Bytes)
    ensures |b| == 4
  {
    BigEndian(n % UINT32_LIMIT, 4)
  }

  /** struct.unpack(">i", b): the four bytes read as a signed number. */
  function UnpackInt32(b: Bytes): (n: int)
    requires |b| == 4
  {
    var u := FromBigEndian(b);
    if u < INT32_LIMIT then u else u - UINT32_LIMIT
  }

  lemma PackRoundTrip(n: int)
    requires -INT32_LIMIT <= n < INT32_LIMIT
    ensures UnpackInt32(PackInt32(n)) == n
  {
    assert Capacity(4) == UINT32_LIMIT;
    BigEndianRoundTrip(n % UINT32_LIMIT, 4);
  }

  /** Python's `<` on bytes, which is also LMDB's key order. */
  predicate Less(a: Bytes, b: Bytes)
    decreases |a|
  {
    b != [] && (a == [] || a[0] < b[0] || (a[0] == b[0] && Less(a[1..], b[1..])))
  }

  lemma {:induction false} LessIrreflexive(a: Bytes)
    ensures !Less(a, a)
    decreases |a|
  {
    if a != [] { LessIrreflexive(a[1..]); }
  }

  lemma {:induction false} LessTransitive(a: Bytes, b: Bytes, c: Bytes)
    requires Less(a, b) && Less(b, c)
    ensures Less(a, c)
    decreases |a|
  {
    if a != [] && a[0] == b[0] && b[0] == c[0] {
      LessTransitive(a[1..], b[1..], c[1..]);
    }
  }

  lemma {:induction false} LessTotal(a: Bytes, b: Bytes)
    ensures a == b || Less(a, b) || Less(b, a)
    decreases |a|
  {
    if a != [] && b != [] && a[0] == b[0] {
      LessTotal(a[1..], b[1..]);
      assert a == [a[0]] + a[1..] && b == [b[0]] + b[1..];
    }
  }

  /** The order, without recursion: a proper prefix, or a smaller byte where they first differ. */
  lemma {:induction false} LessMeans(a: Bytes, b: Bytes)
    ensures Less(a, b) <==> exists n :: 0 <= n <= |a| && n < |b| && a[..n] == b[..n] && (n == |a| || a[n] < b[n])
    decreases |a|
  {
    if Less(a, b) {
      var n := LessWitness(a, b);
    }
    if n :| 0 <= n <= |a| && n < |b| && a[..n] == b[..n] && (n == |a| || a[n] < b[n]) {
      var x, y := a[n..], b[n..];
      assert a == a[..n] + x && b == a[..n] + y;
      LessSuffix(a[..n], x, y);
    }
  }

  lemma {:induction false} LessWitness(a: Bytes, b: Bytes) returns (n: nat)
    requires Less(a, b)
    ensures n <= |a| && n < |b| && a[..n] == b[..n] && (n == |a| || a[n] < b[n])
    decreases |a|
  {
    if a == [] || a[0] != b[0] {
      n := 0;
    } else {
      var m := LessWitness(a[1..], b[1..]);
      n := m + 1;
      assert a[..n] == [a[0]] + a[1..][..m] && b[..n] == [b[0]] + b[1..][..m];
    }
  }

  /** A common front does not matter. */
  lemma {:induction false} LessSuffix(front: Bytes, x: Bytes, y: Bytes)
    ensures Less(front + x, front + y) <==> Less(x, y)
    decreases |front|
  {
    if front == [] {
      assert front + x == x && front + y == y;
    } else {
      assert (front + x)[1..] == front[1..] + x && (front + y)[1..] == front[1..] + y;
      LessSuffix(front[1..], x, y);
    }
  }

  /** What follows strings of one length that differ does not matter. */
  lemma {:induction false} LessPrefix(a: Bytes, b: Bytes, x: Bytes, y: Bytes)
    requires |a| == |b| && Less(a, b)
    ensures Less(a + x, b + y)
    decreases |a|
  {
    assert (a + x)[1..] == a[1..] + x && (b + y)[1..] == b[1..] + y;
    if a[0] == b[0] {
      LessPrefix(a[1..], b[1..], x, y);
    }
  }

  /** Big-endian numbers of one width are ordered as byte strings as they are as numbers. */
  lemma {:induction false} BigEndianOrder(m: nat, n: nat, width: nat)
    requires m < n < Capacity(width)
    ensures Less(BigEndian(m, width), BigEndian(n, width))
    decreases width
  {
    if width != 0 {
      var a, b := BigEndian(m / 256, width - 1), BigEndian(n / 256, width - 1);
      var x, y := [(m % 256) as byte], [(n % 256) as byte];
      if m / 256 < n / 256 {
        BigEndianOrder(m / 256, n / 256, width - 1);
        LessPrefix(a, b, x, y);
      } else {
        assert Less(x, y);
        LessSuffix(a, x, y);
      }
    }
  }

  lemma Divisions(n: nat)
    ensures n / 256 / 256 == n / 0x1_0000 && n / 256 / 256 / 256 == n / 0x100_0000
  {
  }

  lemma FourDigits(n: nat, w: nat)
    requires w == 4
    ensures var a, b, c := n / 256, n / 256 / 256, n / 256 / 256 / 256;
            BigEndian(n, w) == [(c % 256) as byte, (b % 256) as byte, (a % 256) as byte, (n % 256) as byte]
  {
    var a, b, c := n / 256, n / 256 / 256, n / 256 / 256 / 256;
    assert BigEndian(c, w - 3) == BigEndian(c / 256, w - 4) + [(c % 256) as byte];
    assert BigEndian(b, w - 2) == BigEndian(c, w - 3) + [(b % 256) as byte];
    assert BigEndian(a, w - 1) == BigEndian(b, w - 2) + [(a % 256) as byte];
  }

  function Digits(u: nat): seq<nat> { [u / 0x100_0000, u / 0x1_0000 % 256, u / 256 % 256, u % 256] }

  lemma DigitsEncode(u: nat, i: nat)
    requires u < UINT32_LIMIT && i < 4
    ensures BigEndian(u, 4)[i] as nat == Digits(u)[i]
  {
    Divisions(u);
    FourDigits(u, 4);
  }

  /** The four bytes of a signed number in two's complement, most significant first. */
  lemma PackedBytes(n: int, i: nat)
    requires -INT32_LIMIT <= n < INT32_LIMIT && i < 4
    ensures PackInt32(n)[i] as nat == Digits(if n < 0 then n + 0x1_0000_0000 else n)[i]
  {
    var u := if n < 0 then n + 0x1_0000_0000 else n;
    assert n % UINT32_LIMIT == u;
    DigitsEncode(u, i);
  }
}
