/** Sequence vocabulary shared by the pipelines: concatenation of pieces,
    selection, projection of a tagged log, and maps built by repeated insertion. */
module Seqs {
  import opened Bytes

  function Flatten<T>(xss: seq<seq<T>>): (xs: seq<T>)
  {
    if xss == [] then [] else xss[0] + Flatten(xss[1..])
  }

  lemma {:induction false} FlattenConcat<T>(a: seq<seq<T>>, b: seq<seq<T>>)
    ensures Flatten(a + b) == Flatten(a) + Flatten(b)
  {
    if a == [] {
      assert a + b == b;
    } else {
      assert (a + b)[1..] == a[1..] + b;
      FlattenConcat(a[1..], b);
    }
  }

  lemma FlattenAppend<T>(a: seq<seq<T>>, x: seq<T>)
    ensures Flatten(a + [x]) == Flatten(a) + x
  {
    FlattenConcat(a, [x]);
    assert Flatten([x]) == x;
  }

  /** Insert the pairs left to right; a later pair overwrites an earlier one. */
  function PutAll(m: Table, ps: seq<Pair>): Table
    decreases |ps|
  {
    if ps == [] then m else PutAll(m[ps[0].key := ps[0].value], ps[1..])
  }

  lemma {:induction false} PutAllConcat(m: Table, a: seq<Pair>, b: seq<Pair>)
    ensures PutAll(m, a + b) == PutAll(PutAll(m, a), b)
    decreases |a|
  {
    if a == [] {
      assert a + b == b;
    } else {
      assert (a + b)[1..] == a[1..] + b;
      PutAllConcat(m[a[0].key := a[0].value], a[1..], b);
    }
  }

  predicate DistinctKeys(ps: seq<Pair>)
  {
    forall i, j :: 0 <= i < j < |ps| ==> ps[i].key != ps[j].key
  }

  /** The pieces cut xs, in order, into non-empty pieces of n elements, of which
      only the last may be shorter. */
  ghost predicate CutInto<T>(pieces: seq<seq<T>>, xs: seq<T>, n: nat)
  {
    && Flatten(pieces) == xs
    && (forall i :: 0 <= i < |pieces| ==> 1 <= |pieces[i]| <= n)
    && (forall i :: 0 <= i < |pieces| - 1 ==> |pieces[i]| == n)
  }

  /** The entries of a log that carry a given tag, in log order. */
  function Project<T>(log: seq<(nat, T)>, tag: nat): (xs: seq<T>)
  {
    if log == [] then []
    else if log[0].0 == tag then [log[0].1] + Project(log[1..], tag)
    else Project(log[1..], tag)
  }

  lemma {:induction false} ProjectConcat<T>(a: seq<(nat, T)>, b: seq<(nat, T)>, tag: nat)
    ensures Project(a + b, tag) == Project(a, tag) + Project(b, tag)
  {
    if a == [] {
      assert a + b == b;
    } else {
      assert (a + b)[1..] == a[1..] + b;
      ProjectConcat(a[1..], b, tag);
    }
  }

  /** Where an element of a piece sits in the concatenation. */
  lemma {:induction false} FlattenIndex<T>(pieces: seq<seq<T>>, s: nat, p: nat)
    requires s < |pieces| && p < |pieces[s]|
    ensures |Flatten(pieces[..s])| + p < |Flatten(pieces)|
    ensures Flatten(pieces)[|Flatten(pieces[..s])| + p] == pieces[s][p]
  {
    if s != 0 {
      FlattenIndex(pieces[1..], s - 1, p);
      assert pieces[..s][0] == pieces[0] && pieces[..s][1..] == pieces[1..][..s - 1];
    }
  }
}
