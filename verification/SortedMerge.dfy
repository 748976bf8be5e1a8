/** A partition seen as LMDB iterates it, and the three loops that merge two
    sorted iterations: join, union and subtract by key. */
module SortedMerge {
  import opened Bytes
  import opened Folding

  ghost predicate StrictlySorted(ps: seq<Pair>)
  {
    forall i, j :: 0 <= i < j < |ps| ==> Less(ps[i].key, ps[j].key)
  }

  /** The value a sequence of pairs associates with a key first. */
  function Lookup(ps: seq<Pair>, k: Bytes): Option<Bytes>
  {
    if ps == [] then None
    else if ps[0].key == k then Some(ps[0].value)
    else Lookup(ps[1..], k)
  }

  function At(t: Table, k: Bytes): Option<Bytes>
  {
    if k in t then Some(t[k]) else None
  }

  /** ps lists the table's entries in increasing key order. */
  ghost predicate Lists(ps: seq<Pair>, t: Table)
  {
    StrictlySorted(ps) && forall k :: Lookup(ps, k) == At(t, k)
  }

  /** All keys are above k. */
  ghost predicate Above(ps: seq<Pair>, k: Bytes)
  {
    forall i :: 0 <= i < |ps| ==> Less(k, ps[i].key)
  }

  lemma {:induction false} AboveMisses(ps: seq<Pair>, k: Bytes, low: Bytes)
    requires Above(ps, low) && (k == low || Less(k, low))
    ensures Lookup(ps, k) == None
    decreases |ps|
  {
    if ps != [] {
      LessIrreflexive(k);
      if k != low { LessTransitive(k, low, ps[0].key); }
      AboveMisses(ps[1..], k, low);
    }
  }

  lemma AboveWeaken(ps: seq<Pair>, low: Bytes, high: Bytes)
    requires Above(ps, high) && Less(low, high)
    ensures Above(ps, low)
  {
    forall i | 0 <= i < |ps| ensures Less(low, ps[i].key) {
      LessTransitive(low, high, ps[i].key);
    }
  }

  lemma SortedAbove(ps: seq<Pair>, low: Bytes)
    requires StrictlySorted(ps) && ps != [] && Less(low, ps[0].key)
    ensures Above(ps, low)
  {
    AboveWeaken(ps[1..], low, ps[0].key);
    assert ps == [ps[0]] + ps[1..];
  }

  // ------------------------------------------------------------- specification

  /** What each operation yields for a key, from the two values at that key. */
  datatype Kind = Join | Union | Subtract

  function Combine(kind: Kind, op: Op, a: Option<Bytes>, b: Option<Bytes>): Option<Bytes>
  {
    match kind
    case Join => if a.Some? && b.Some? then Some(op(a.value, b.value)) else None
    case Union => if a.Some? && b.Some? then Some(op(a.value, b.value)) else if a.Some? then a else b
    case Subtract => if b.Some? then None else a
  }

  /** The merge of two sorted sequences, by their heads. */
  function MergeSeq(kind: Kind, op: Op, left: seq<Pair>, right: seq<Pair>): (out: seq<Pair>)
    decreases |left| + |right|
  {
    if left == [] then if kind == Union then right else []
    else if right == [] then if kind == Join then [] else left
    else if left[0].key == right[0].key then
      var rest := MergeSeq(kind, op, left[1..], right[1..]);
      if kind == Subtract then rest else [Pair(left[0].key, op(left[0].value, right[0].value))] + rest
    else if Less(left[0].key, right[0].key) then
      var rest := MergeSeq(kind, op, left[1..], right);
      if kind == Join then rest else [left[0]] + rest
    else
      var rest := MergeSeq(kind, op, left, right[1..]);
      if kind == Union then [right[0]] + rest else rest
  }

  /** The merge is sorted, stays above what its inputs are above, and holds for
      every key the combination of the values the inputs hold for it. */
  lemma {:induction false} MergeSeqAbove(kind: Kind, op: Op, left: seq<Pair>, right: seq<Pair>, low: Bytes)
    requires Above(left, low) && Above(right, low)
    ensures Above(MergeSeq(kind, op, left, right), low)
    decreases |left| + |right|
  {
    if left != [] && right != [] {
      if left[0].key == right[0].key {
        MergeSeqAbove(kind, op, left[1..], right[1..], low);
      } else if Less(left[0].key, right[0].key) {
        MergeSeqAbove(kind, op, left[1..], right, low);
      } else {
        MergeSeqAbove(kind, op, left, right[1..], low);
      }
    }
  }

  lemma {:induction false} MergeSeqSorted(kind: Kind, op: Op, left: seq<Pair>, right: seq<Pair>)
    requires StrictlySorted(left) && StrictlySorted(right)
    ensures StrictlySorted(MergeSeq(kind, op, left, right))
    decreases |left| + |right|
  {
    if left != [] && right != [] {
      var lk, rk := left[0].key, right[0].key;
      if lk == rk {
        MergeSeqSorted(kind, op, left[1..], right[1..]);
        MergeSeqAbove(kind, op, left[1..], right[1..], lk);
      } else if Less(lk, rk) {
        MergeSeqSorted(kind, op, left[1..], right);
        SortedAbove(right, lk);
        MergeSeqAbove(kind, op, left[1..], right, lk);
      } else {
        LessTotal(lk, rk);
        MergeSeqSorted(kind, op, left, right[1..]);
        SortedAbove(left, rk);
        MergeSeqAbove(kind, op, left, right[1..], rk);
      }
    }
  }

  lemma {:induction false} MergeSeqLookup(kind: Kind, op: Op, left: seq<Pair>, right: seq<Pair>, k: Bytes)
    requires StrictlySorted(left) && StrictlySorted(right)
    ensures Lookup(MergeSeq(kind, op, left, right), k) == Combine(kind, op, Lookup(left, k), Lookup(right, k))
    decreases |left| + |right|
  {
    if left != [] && right != [] {
      var lk, rk := left[0].key, right[0].key;
      if lk == rk {
        MergeSeqLookup(kind, op, left[1..], right[1..], k);
        if k == lk {
          AboveMisses(left[1..], k, lk);
          AboveMisses(right[1..], k, lk);
        }
      } else if Less(lk, rk) {
        MergeSeqLookup(kind, op, left[1..], right, k);
        if k == lk {
          SortedAbove(right, lk);
          AboveMisses(right, k, lk);
          AboveMisses(left[1..], k, lk);
        }
      } else {
        LessTotal(lk, rk);
        MergeSeqLookup(kind, op, left, right[1..], k);
        if k == rk {
          SortedAbove(left, rk);
          AboveMisses(left, k, rk);
          AboveMisses(right[1..], k, rk);
        }
      }
    }
  }

  ghost predicate Merged(kind: Kind, op: Op, left: seq<Pair>, right: seq<Pair>, out: seq<Pair>)
  {
    && StrictlySorted(out)
    && forall k :: Lookup(out, k) == Combine(kind, op, Lookup(left, k), Lookup(right, k))
  }

  lemma MergeSeqMerged(kind: Kind, op: Op, left: seq<Pair>, right: seq<Pair>)
    requires StrictlySorted(left) && StrictlySorted(right)
    ensures Merged(kind, op, left, right, MergeSeq(kind, op, left, right))
  {
    MergeSeqSorted(kind, op, left, right);
    forall k ensures Lookup(MergeSeq(kind, op, left, right), k) == Combine(kind, op, Lookup(left, k), Lookup(right, k)) {
      MergeSeqLookup(kind, op, left, right, k);
    }
  }

  // ------------------------------------------------------------------ the loops

  lemma Grow(done: seq<Pair>, p: Pair, rest: seq<Pair>)
    ensures done + ([p] + rest) == done + [p] + rest
  {
  }

  /** _merge_intersecting_keys. item1 and item2 are left[i] and right[j]. */
  method MergeIntersectingKeys(left: seq<Pair>, right: seq<Pair>, op: Op) returns (out: seq<Pair>)
    requires StrictlySorted(left) && StrictlySorted(right)
    ensures StrictlySorted(out) && Merged(Join, op, left, right, out)
    ensures forall k :: var a, b := Lookup(left, k), Lookup(right, k);
              Lookup(out, k) == if a.Some? && b.Some? then Some(op(a.value, b.value)) else None
  {
    out := [];
    if |left| == 0 || |right| == 0 {
      MergeSeqMerged(Join, op, left, right);
      return;
    }
    var i, j := 0, 0;
    while i < |left| && j < |right|
      invariant 0 <= i <= |left| && 0 <= j <= |right|
      invariant out + MergeSeq(Join, op, left[i..], right[j..]) == MergeSeq(Join, op, left, right)
      decreases |left| + |right| - i - j
    {
      if left[i].key == right[j].key {
        out := out + [Pair(left[i].key, op(left[i].value, right[j].value))];
        i, j := i + 1, j + 1;
      } else if Less(left[i].key, right[j].key) {
        i := i + 1;
      } else {
        j := j + 1;
      }
    }
    assert out == MergeSeq(Join, op, left, right);
    MergeSeqMerged(Join, op, left, right);
  }

  /** _merge_union_keys, with the tail that is left over when one side ends. */
  method MergeUnionKeys(left: seq<Pair>, right: seq<Pair>, op: Op) returns (out: seq<Pair>)
    requires StrictlySorted(left) && StrictlySorted(right)
    ensures StrictlySorted(out) && Merged(Union, op, left, right, out)
    ensures forall k :: var a, b := Lookup(left, k), Lookup(right, k);
              Lookup(out, k) == if a.Some? && b.Some? then Some(op(a.value, b.value)) else if a.Some? then a else b
  {
    out := [];
    var i, j := 0, 0;
    while i < |left| && j < |right|
      invariant 0 <= i <= |left| && 0 <= j <= |right|
      invariant out + MergeSeq(Union, op, left[i..], right[j..]) == MergeSeq(Union, op, left, right)
      decreases |left| + |right| - i - j
    {
      if left[i].key == right[j].key {
        Grow(out, Pair(left[i].key, op(left[i].value, right[j].value)), MergeSeq(Union, op, left[i + 1..], right[j + 1..]));
        out := out + [Pair(left[i].key, op(left[i].value, right[j].value))];
        i, j := i + 1, j + 1;
      } else if Less(left[i].key, right[j].key) {
        Grow(out, left[i], MergeSeq(Union, op, left[i + 1..], right[j..]));
        out := out + [left[i]];
        i := i + 1;
      } else {
        Grow(out, right[j], MergeSeq(Union, op, left[i..], right[j + 1..]));
        out := out + [right[j]];
        j := j + 1;
      }
    }
    if i < |left| {
      out := out + left[i..];
    } else if j < |right| {
      out := out + right[j..];
    }
    assert out == MergeSeq(Union, op, left, right);
    MergeSeqMerged(Union, op, left, right);
  }

  /** _subtract_by_key. */
  method SubtractByKey(left: seq<Pair>, right: seq<Pair>, ghost op: Op) returns (out: seq<Pair>)
    requires StrictlySorted(left) && StrictlySorted(right)
    ensures StrictlySorted(out) && Merged(Subtract, op, left, right, out)
    ensures forall k :: Lookup(out, k) == if Lookup(right, k).Some? then None else Lookup(left, k)
  {
    if |left| == 0 || |right| == 0 {
      MergeSeqMerged(Subtract, op, left, right);
      return left;
    }
    out := [];
    var i, j := 0, 0;
    while i < |left| && j < |right|
      invariant 0 <= i <= |left| && 0 <= j <= |right|
      invariant out + MergeSeq(Subtract, op, left[i..], right[j..]) == MergeSeq(Subtract, op, left, right)
      decreases |left| + |right| - i - j
    {
      if left[i].key == right[j].key {
        i, j := i + 1, j + 1;
      } else if Less(left[i].key, right[j].key) {
        out := out + [left[i]];
        i := i + 1;
      } else {
        j := j + 1;
      }
    }
    if i < |left| {
      out := out + left[i..];
    }
    assert out == MergeSeq(Subtract, op, left, right);
    MergeSeqMerged(Subtract, op, left, right);
  }
}
