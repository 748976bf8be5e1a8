/** A table sharded over partitions by a partitioner, and its agreement with one
    plain map. */
module Tables {
  import opened Bytes
  import opened Seqs
  import opened Folding
  import opened SortedMerge
  import opened ShuffleFlow
  import opened GroupBy

  // ------------------------------------------------------ iteration of a partition

  ghost predicate Least(k: Bytes, ks: set<Bytes>)
  {
    k in ks && forall x :: x in ks && x != k ==> Less(k, x)
  }

  lemma {:induction false} LeastExists(ks: set<Bytes>)
    requires ks != {}
    ensures exists k :: Least(k, ks)
    decreases ks
  {
    var x :| x in ks;
    if ks == {x} {
      assert Least(x, ks);
    } else {
      var rest := ks - {x};
      LeastExists(rest);
      var m :| Least(m, rest);
      LessTotal(x, m);
      if Less(m, x) {
        assert Least(m, ks);
      } else {
        forall y | y in ks && y != x ensures Less(x, y) {
          if y != m { LessTransitive(x, m, y); }
        }
        assert Least(x, ks);
      }
    }
  }

  /** The entries of a partition in key order, as LMDB's cursor yields them. */
  ghost function Items(t: Table): (ps: seq<Pair>)
    ensures Lists(ps, t) && |ps| == |t|
    ensures forall i :: 0 <= i < |ps| ==> ps[i].key in t && t[ps[i].key] == ps[i].value
    decreases t.Keys
  {
    if t == map[] then []
    else
      assert t.Keys != {};
      LeastExists(t.Keys);
      var k :| Least(k, t.Keys);
      var rest := t - {k};
      var ps := Items(rest);
      ListsCons(t, k, ps);
      [Pair(k, t[k])] + ps
  }

  lemma ListsCons(t: Table, k: Bytes, ps: seq<Pair>)
    requires Least(k, t.Keys) && Lists(ps, t - {k}) && |ps| == |t - {k}|
    requires forall i :: 0 <= i < |ps| ==> ps[i].key in t - {k} && (t - {k})[ps[i].key] == ps[i].value
    ensures Lists([Pair(k, t[k])] + ps, t) && |ps| + 1 == |t|
  {
    var rest, all := t - {k}, [Pair(k, t[k])] + ps;
    assert t.Keys == rest.Keys + {k};
    assert |rest.Keys + {k}| == |rest.Keys| + 1;
    assert Above(ps, k);
    forall x ensures Lookup(all, x) == At(t, x) {
      assert all[1..] == ps;
      assert Lookup(ps, x) == At(rest, x);
    }
  }

  lemma SortedDistinct(ps: seq<Pair>)
    requires StrictlySorted(ps)
    ensures DistinctKeys(ps)
  {
    forall i, j | 0 <= i < j < |ps| ensures ps[i].key != ps[j].key {
      LessIrreflexive(ps[i].key);
    }
  }

  lemma SameTable(a: Table, b: Table)
    requires forall k :: At(a, k) == At(b, k)
    ensures a == b
  {
    assert forall k :: k in a <==> k in b by {
      forall k ensures k in a <==> k in b { assert At(a, k) == At(b, k); }
    }
    assert forall k :: k in a ==> a[k] == b[k] by {
      forall k | k in a ensures a[k] == b[k] { assert At(a, k) == At(b, k); }
    }
  }

  /** Inserting pairs leaves under each key the last value inserted for it. */
  lemma {:induction false} PutAllGet(m: Table, ps: seq<Pair>, k: Bytes)
    ensures var vs := Values(ps, k);
            At(PutAll(m, ps), k) == if vs == [] then At(m, k) else Some(vs[|vs| - 1])
    decreases |ps|
  {
    if ps != [] {
      PutAllGet(m[ps[0].key := ps[0].value], ps[1..], k);
    }
  }

  lemma {:induction false} LookupValues(ps: seq<Pair>, k: Bytes)
    ensures Lookup(ps, k) == if Values(ps, k) == [] then None else Some(Values(ps, k)[0])
  {
    if ps != [] { LookupValues(ps[1..], k); }
  }

  /** Writing a sorted iteration into an empty partition stores exactly it. */
  lemma PutSorted(ps: seq<Pair>)
    requires StrictlySorted(ps)
    ensures Lists(ps, PutAll(map[], ps))
  {
    SortedDistinct(ps);
    forall k ensures Lookup(ps, k) == At(PutAll(map[], ps), k) {
      PutAllGet(map[], ps, k);
      LookupValues(ps, k);
      DistinctValue(ps, k);
    }
  }

  // ------------------------------------------------------------- placement and view

  /** Every key lives in the partition its partitioner names. */
  ghost predicate Placed(part: Bytes -> nat, parts: seq<Table>)
  {
    forall j, k :: 0 <= j < |parts| && k in parts[j] ==> part(k) == j
  }

  ghost predicate Routes(part: Bytes -> nat, n: nat)
  {
    forall k :: part(k) < n
  }

  /** The table as one map: the union of its first n partitions. */
  function View(parts: seq<Table>, n: nat): (t: Table)
    requires n <= |parts|
  {
    if n == 0 then map[] else View(parts, n - 1) + parts[n - 1]
  }

  function Whole(parts: seq<Table>): Table { View(parts, |parts|) }

  lemma {:induction false} ViewGet(part: Bytes -> nat, parts: seq<Table>, n: nat, k: Bytes)
    requires Placed(part, parts) && n <= |parts|
    ensures At(View(parts, n), k) == if part(k) < n then At(parts[part(k)], k) else None
  {
    if n != 0 {
      ViewGet(part, parts, n - 1, k);
      if k in parts[n - 1] { assert part(k) == n - 1; }
    }
  }

  lemma WholeGet(part: Bytes -> nat, parts: seq<Table>, k: Bytes)
    requires Placed(part, parts) && Routes(part, |parts|)
    ensures part(k) < |parts| && At(Whole(parts), k) == At(parts[part(k)], k)
  {
    ViewGet(part, parts, |parts|, k);
  }

  function SumSizes(parts: seq<Table>, n: nat): nat
    requires n <= |parts|
  {
    if n == 0 then 0 else SumSizes(parts, n - 1) + |parts[n - 1]|
  }

  /** The sizes of the views of a table. */
  function ViewSizes(parts: seq<Table>, n: nat): (sizes: seq<nat>)
    requires n <= |parts|
    ensures |sizes| == n + 1
  {
    if n == 0 then [0] else ViewSizes(parts, n - 1) + [|View(parts, n)|]
  }

  lemma EmptyView(parts: seq<Table>)
    ensures |View(parts, 0)| == 0
  {
  }

  lemma {:induction false} ViewSizesAt(parts: seq<Table>, n: nat, m: nat)
    requires m <= n <= |parts|
    ensures ViewSizes(parts, n)[m] == |View(parts, m)|
  {
    if m != n {
      ViewSizesAt(parts, n - 1, m);
    } else if n == 0 {
      EmptyView(parts);
    }
  }

  lemma {:induction false} SizesTelescope(sizes: seq<nat>, parts: seq<Table>, n: nat)
    requires |sizes| == |parts| + 1 && n <= |parts| && sizes[0] == 0
    requires forall m :: 0 <= m < |parts| ==> sizes[m + 1] == sizes[m] + |parts[m]|
    ensures sizes[n] == SumSizes(parts, n)
  {
    if n != 0 {
      SizesTelescope(sizes, parts, n - 1);
      assert sizes[n - 1 + 1] == sizes[n - 1] + |parts[n - 1]|;
    }
  }

  lemma SizeGrows(part: Bytes -> nat, parts: seq<Table>, m: nat)
    requires Placed(part, parts) && m < |parts|
    ensures ViewSizes(parts, |parts|)[m + 1] == ViewSizes(parts, |parts|)[m] + |parts[m]|
  {
    ViewSizesAt(parts, |parts|, m);
    ViewSizesAt(parts, |parts|, m + 1);
    ViewDisjoint(part, parts, m + 1);
  }

  /** The partition sizes add up to the size of the table. */
  lemma ViewCount(part: Bytes -> nat, parts: seq<Table>)
    requires Placed(part, parts)
    ensures |Whole(parts)| == SumSizes(parts, |parts|)
  {
    var sizes := ViewSizes(parts, |parts|);
    forall m | 0 <= m < |parts| ensures sizes[m + 1] == sizes[m] + |parts[m]| {
      SizeGrows(part, parts, m);
    }
    ViewSizesAt(parts, |parts|, 0);
    ViewSizesAt(parts, |parts|, |parts|);
    SizesTelescope(sizes, parts, |parts|);
  }

  lemma ViewDisjoint(part: Bytes -> nat, parts: seq<Table>, n: nat)
    requires Placed(part, parts) && 0 < n <= |parts|
    ensures View(parts, n - 1).Keys !! parts[n - 1].Keys
  {
    var front, last := View(parts, n - 1), parts[n - 1];
    forall k | k in front.Keys ensures k !in last.Keys {
      ViewGet(part, parts, n - 1, k);
    }
  }

  /** Inserting each partition's share of a sequence is inserting the sequence. */
  lemma ScatteredPutAll(part: Bytes -> nat, before: seq<Table>, kvs: seq<Pair>, after: seq<Table>)
    requires Placed(part, before) && Routes(part, |before|) && |after| == |before|
    requires forall j :: 0 <= j < |after| ==> after[j] == PutAll(before[j], Select(part, kvs, j))
    ensures Placed(part, after) && Whole(after) == PutAll(Whole(before), kvs)
  {
    forall j, k | 0 <= j < |after| && k in after[j] ensures part(k) == j {
      PutAllGet(before[j], Select(part, kvs, j), k);
      ValuesSelect(part, kvs, j, k);
      assert after[j] == PutAll(before[j], Select(part, kvs, j));
      assert At(after[j], k) != None;
    }
    forall k ensures At(Whole(after), k) == At(PutAll(Whole(before), kvs), k) {
      WholeGet(part, after, k);
      WholeGet(part, before, k);
      var j := part(k);
      PutAllGet(before[j], Select(part, kvs, j), k);
      ValuesSelect(part, kvs, j, k);
      PutAllGet(Whole(before), kvs, k);
    }
    SameTable(Whole(after), PutAll(Whole(before), kvs));
  }

  // --------------------------------------------------- join, union, subtract on tables

  /** The operation on whole maps, key by key. */
  ghost predicate CombinesTo(kind: Kind, op: Op, a: Table, b: Table, r: Table)
  {
    forall k :: At(r, k) == Combine(kind, op, At(a, k), At(b, k))
  }

  /** One task of BinarySortedMapPartitionsWithIndex: merge the two iterations and
      write the result into the output partition. */
  method RunSortedMerge(kind: Kind, op: Op, left: seq<Pair>, right: seq<Pair>, ghost a: Table, ghost b: Table)
    returns (out: Table)
    requires Lists(left, a) && Lists(right, b)
    ensures CombinesTo(kind, op, a, b, out)
  {
    var merged: seq<Pair>;
    match kind {
      case Join => merged := MergeIntersectingKeys(left, right, op);
      case Union => merged := MergeUnionKeys(left, right, op);
      case Subtract => merged := SubtractByKey(left, right, op);
    }
    out := map[];
    assert merged[..0] == [];
    for i := 0 to |merged|
      invariant out == PutAll(map[], merged[..i])
    {
      PutAllConcat(map[], merged[..i], [merged[i]]);
      assert merged[..i + 1] == merged[..i] + [merged[i]];
      assert PutAll(out, [merged[i]]) == PutAll(out[merged[i].key := merged[i].value], []);
      out := out[merged[i].key := merged[i].value];
    }
    assert merged[..|merged|] == merged;
    PutSorted(merged);
    forall k ensures At(out, k) == Combine(kind, op, At(a, k), At(b, k)) {
      assert Lookup(merged, k) == At(out, k);
      assert Lookup(left, k) == At(a, k) && Lookup(right, k) == At(b, k);
    }
  }

  /** Merging partition by partition is merging the tables, and the result is
      placed like its inputs. */
  lemma PartitionwiseMerge(kind: Kind, op: Op, part: Bytes -> nat, a: seq<Table>, b: seq<Table>, r: seq<Table>)
    requires |a| == |b| == |r| && Routes(part, |a|) && Placed(part, a) && Placed(part, b)
    requires forall j :: 0 <= j < |r| ==> CombinesTo(kind, op, a[j], b[j], r[j])
    ensures Placed(part, r) && CombinesTo(kind, op, Whole(a), Whole(b), Whole(r))
  {
    forall j, k | 0 <= j < |r| && k in r[j] ensures part(k) == j {
      assert CombinesTo(kind, op, a[j], b[j], r[j]);
      assert At(r[j], k) == Combine(kind, op, At(a[j], k), At(b[j], k));
    }
    forall k ensures At(Whole(r), k) == Combine(kind, op, At(Whole(a), k), At(Whole(b), k)) {
      WholeGet(part, a, k);
      WholeGet(part, b, k);
      WholeGet(part, r, k);
      assert CombinesTo(kind, op, a[part(k)], b[part(k)], r[part(k)]);
    }
  }

  /** A job that does not shuffle writes partition i's output into partition i. The
      result is placed exactly when the map function keeps every key it emits in
      the partition it came from. */
  lemma UnshuffledPlacement(part: Bytes -> nat, emitted: seq<seq<Pair>>, out: seq<Table>)
    requires |out| == |emitted|
    requires forall i :: 0 <= i < |out| ==> out[i] == PutAll(map[], emitted[i])
    ensures Placed(part, out) <==> forall i, n :: 0 <= i < |emitted| && 0 <= n < |emitted[i]| ==> part(emitted[i][n].key) == i
  {
    forall i, k | 0 <= i < |out| ensures k in out[i] <==> k in KeysOf(emitted[i]) {
      PutAllGet(map[], emitted[i], k);
      HasValue(emitted[i], k);
      assert out[i] == PutAll(map[], emitted[i]);
    }
    if Placed(part, out) {
      forall i, n | 0 <= i < |emitted| && 0 <= n < |emitted[i]| ensures part(emitted[i][n].key) == i {
        assert emitted[i][n].key in KeysOf(emitted[i]);
      }
    } else {
      var i, k :| 0 <= i < |out| && k in out[i] && part(k) != i;
      var p :| p in emitted[i] && p.key == k;
      var n :| 0 <= n < |emitted[i]| && emitted[i][n] == p;
    }
  }
}
