/** The process-wide cache of LMDB environments: one environment per path, shared by
    the open adapters of that path and counted, over every history of opens and closes. */
module LmdbCache {
  import opened Bytes

  type Path = string

  datatype Cache = Cache(envs: map<Path, nat>, subDbs: map<Path, nat>, counts: map<Path, int>)

  /** An adapter; `env` is None once it is closed. */
  datatype Adapter = Adapter(path: Path, env: Option<nat>, subDb: nat)

  /** Opening a path; `env` and `db` are what lmdb would return for a new environment.
      Dictionaries that disagree on the path would be a KeyError, which leaves the
      adapter closed. */
  function Opening(c: Cache, path: Path, env: nat, db: nat): (r: (Cache, Adapter))
  {
    var c' := if path in c.envs then c
              else Cache(c.envs[path := env], c.subDbs[path := db], c.counts[path := 0]);
    if path !in c'.counts || path !in c'.subDbs then (c', Adapter(path, None, db))
    else (c'.(counts := c'.counts[path := c'.counts[path] + 1]),
          Adapter(path, Some(c'.envs[path]), c'.subDbs[path]))
  }

  /** Closing an adapter. A path without a count is the KeyError, which changes nothing. */
  function Closing(c: Cache, a: Adapter): (r: (Cache, Adapter))
  {
    if a.env.None? || a.path !in c.counts then (c, a)
    else
      var count := c.counts[a.path];
      var c' := if count == 0 || count - 1 <= 0
                then Cache(c.envs - {a.path}, c.subDbs - {a.path}, c.counts - {a.path})
                else c.(counts := c.counts[a.path := count - 1]);
      (c', a.(env := None))
  }

  /** The dictionaries agree on their paths. */
  predicate Consistent(c: Cache) { c.envs.Keys == c.subDbs.Keys == c.counts.Keys }

  class EnvCache {
    var envDict: map<Path, nat>
    var subDbDict: map<Path, nat>
    var countDict: map<Path, int>

    function State(): Cache
      reads this
    {
      Cache(envDict, subDbDict, countDict)
    }

    constructor ()
      ensures State() == Cache(map[], map[], map[])
    {
      envDict, subDbDict, countDict := map[], map[], map[];
    }
  }

  class LmdbAdapter {
    const cache: EnvCache
    const path: Path
    var env: Option<nat>
    var subDb: nat

    function Value(): Adapter
      reads this
    {
      Adapter(path, env, subDb)
    }

    constructor (cache: EnvCache, path: Path, newEnv: nat, newDb: nat)
      requires Consistent(cache.State())
      modifies cache
      ensures this.cache == cache && this.path == path
      ensures (cache.State(), Value()) == Opening(old(cache.State()), path, newEnv, newDb)
    {
      this.cache, this.path := cache, path;
      env, subDb := None, 0;
      new;
      if path !in cache.envDict {
        env, subDb := Some(newEnv), newDb;
        cache.countDict := cache.countDict[path := 0];
        cache.envDict := cache.envDict[path := newEnv];
        cache.subDbDict := cache.subDbDict[path := newDb];
      } else {
        assert path in cache.State().envs && path in cache.State().subDbs;
        env, subDb := Some(cache.envDict[path]), cache.subDbDict[path];
      }
      assert path in cache.State().counts;
      cache.countDict := cache.countDict[path := cache.countDict[path] + 1];
    }

    /** False is the KeyError of a path that is not counted. */
    method Close() returns (ok: bool)
      modifies this`env, cache
      ensures (cache.State(), Value()) == Closing(old(cache.State()), old(Value()))
      ensures ok == (old(env).None? || path in old(cache.countDict))
    {
      if env.None? {
        return true;
      }
      if path !in cache.countDict {
        return false;
      }
      var count := cache.countDict[path];
      if count == 0 || count - 1 <= 0 {
        cache.envDict := cache.envDict - {path};
        cache.subDbDict := cache.subDbDict - {path};
        cache.countDict := cache.countDict - {path};
      } else {
        cache.countDict := cache.countDict[path := count - 1];
      }
      env := None;
      ok := true;
    }
  }

  // ----------------------------------------------------------------------- histories

  datatype Event = Open(path: Path, env: nat, db: nat) | Close(i: nat)

  datatype History = History(cache: Cache, adapters: seq<Adapter>)

  const Start := History(Cache(map[], map[], map[]), [])

  /** Any adapter may be closed, again and again. */
  function Next(h: History, e: Event): History
  {
    match e
    case Open(path, env, db) =>
      var (c, a) := Opening(h.cache, path, env, db);
      History(c, h.adapters + [a])
    case Close(i) =>
      if i < |h.adapters| then
        var (c, a) := Closing(h.cache, h.adapters[i]);
        History(c, h.adapters[i := a])
      else h
  }

  function After(h: History, es: seq<Event>): History
    decreases |es|
  {
    if es == [] then h else After(Next(h, es[0]), es[1..])
  }

  predicate IsOpen(a: Adapter, path: Path) { a.path == path && a.env.Some? }

  function OpenCount(xs: seq<Adapter>, path: Path): nat
  {
    if xs == [] then 0 else (if IsOpen(xs[0], path) then 1 else 0) + OpenCount(xs[1..], path)
  }

  lemma {:induction false} OpenCountAppend(xs: seq<Adapter>, a: Adapter, path: Path)
    ensures OpenCount(xs + [a], path) == OpenCount(xs, path) + OpenCount([a], path)
  {
    if xs == [] {
      assert xs + [a] == [a];
    } else {
      assert (xs + [a])[1..] == xs[1..] + [a];
      OpenCountAppend(xs[1..], a, path);
    }
  }

  lemma {:induction false} OpenCountUpdate(xs: seq<Adapter>, i: nat, a: Adapter, path: Path)
    requires i < |xs|
    ensures OpenCount(xs[i := a], path) == OpenCount(xs, path) - OpenCount([xs[i]], path) + OpenCount([a], path)
  {
    if i == 0 {
      assert xs[i := a][1..] == xs[1..];
    } else {
      OpenCountUpdate(xs[1..], i - 1, a, path);
      assert xs[i := a][1..] == xs[1..][i - 1 := a];
    }
  }

  lemma {:induction false} OpenCountZero(xs: seq<Adapter>, path: Path)
    ensures OpenCount(xs, path) == 0 <==> forall i :: 0 <= i < |xs| ==> !IsOpen(xs[i], path)
  {
    if xs != [] {
      OpenCountZero(xs[1..], path);
      assert forall i :: 0 < i < |xs| ==> xs[i] == xs[1..][i - 1];
      if forall i :: 0 <= i < |xs| ==> !IsOpen(xs[i], path) {
        forall i | 0 <= i < |xs[1..]| ensures !IsOpen(xs[1..][i], path) { assert xs[1..][i] == xs[i + 1]; }
      }
    }
  }

  /** The count of every path is the number of its open adapters, and the path is in
      the cache while there is one. */
  ghost predicate CountsOk(c: Cache, xs: seq<Adapter>)
  {
    forall path :: if path in c.counts then 0 < c.counts[path] == OpenCount(xs, path) else OpenCount(xs, path) == 0
  }

  /** An open adapter holds the cached environment and database of its path. */
  ghost predicate Shared(c: Cache, xs: seq<Adapter>)
  {
    forall i :: 0 <= i < |xs| && xs[i].env.Some? ==>
      && xs[i].path in c.envs && xs[i].env == Some(c.envs[xs[i].path])
      && xs[i].path in c.subDbs && xs[i].subDb == c.subDbs[xs[i].path]
  }

  ghost predicate Inv(h: History)
  {
    Consistent(h.cache) && CountsOk(h.cache, h.adapters) && Shared(h.cache, h.adapters)
  }

  lemma OpenKeeps(h: History, path: Path, env: nat, db: nat)
    requires Inv(h)
    ensures Inv(Next(h, Open(path, env, db)))
  {
    var (c, a) := Opening(h.cache, path, env, db);
    assert path in h.cache.envs.Keys <==> path in h.cache.counts.Keys;
    assert path in h.cache.subDbs.Keys <==> path in h.cache.counts.Keys;
    forall p ensures OpenCount(h.adapters + [a], p) == OpenCount(h.adapters, p) + if p == path then 1 else 0 {
      OpenCountAppend(h.adapters, a, p);
    }
    assert path !in h.cache.counts ==> forall i :: 0 <= i < |h.adapters| ==> !IsOpen(h.adapters[i], path) by {
      OpenCountZero(h.adapters, path);
    }
  }

  lemma CloseKeeps(h: History, i: nat)
    requires Inv(h) && i < |h.adapters| && h.adapters[i].env.Some?
    ensures Inv(Next(h, Close(i)))
    ensures Next(h, Close(i)).adapters[i].env.None?
  {
    var path := h.adapters[i].path;
    var (c, a) := Closing(h.cache, h.adapters[i]);
    assert path in h.cache.envs.Keys;
    var xs := h.adapters[i := a];
    forall p ensures OpenCount(xs, p) == OpenCount(h.adapters, p) - if p == path then 1 else 0 {
      OpenCountUpdate(h.adapters, i, a, p);
    }
    if path !in c.counts {
      OpenCountZero(xs, path);
    }
  }

  lemma NextKeepsInv(h: History, e: Event)
    requires Inv(h)
    ensures Inv(Next(h, e))
  {
    match e
    case Open(path, env, db) => OpenKeeps(h, path, env, db);
    case Close(i) =>
      if i < |h.adapters| && h.adapters[i].env.Some? {
        CloseKeeps(h, i);
      } else if i < |h.adapters| {
        assert h.adapters[i := h.adapters[i]] == h.adapters;
      }
  }

  lemma {:induction false} AfterKeepsInv(h: History, es: seq<Event>)
    requires Inv(h)
    ensures Inv(After(h, es))
    decreases |es|
  {
    if es != [] {
      NextKeepsInv(h, es[0]);
      AfterKeepsInv(Next(h, es[0]), es[1..]);
    }
  }

  /** After any opens and closes: the three dictionaries have the same paths, a path is
      cached iff it has an open adapter, under their number, and the open adapters of a
      path hold one environment and one database. */
  lemma CacheIsExact(es: seq<Event>, path: Path)
    ensures var h := After(Start, es);
            && Consistent(h.cache)
            && (path in h.cache.envs <==> exists i :: 0 <= i < |h.adapters| && IsOpen(h.adapters[i], path))
            && (path in h.cache.counts ==> h.cache.counts[path] == OpenCount(h.adapters, path))
            && (forall i, j :: 0 <= i < |h.adapters| && 0 <= j < |h.adapters|
                               && IsOpen(h.adapters[i], path) && IsOpen(h.adapters[j], path) ==>
                  h.adapters[i].env == h.adapters[j].env && h.adapters[i].subDb == h.adapters[j].subDb)
  {
    AfterKeepsInv(Start, es);
    var h := After(Start, es);
    OpenCountZero(h.adapters, path);
    assert path in h.cache.envs.Keys <==> path in h.cache.counts.Keys;
  }

  /** After any history, the first open of a path gives the adapter exactly the new
      environment and database and caches them with count 1; a later one gives it the
      cached ones and counts one more. Other paths are left alone. */
  lemma OpenGives(es: seq<Event>, path: Path, env: nat, db: nat)
    ensures var h := After(Start, es);
            var t := Next(h, Open(path, env, db));
            && |t.adapters| == |h.adapters| + 1 && t.adapters[..|h.adapters|] == h.adapters
            && (path !in h.cache.envs ==>
                  && t.adapters[|h.adapters|] == Adapter(path, Some(env), db)
                  && t.cache == Cache(h.cache.envs[path := env], h.cache.subDbs[path := db], h.cache.counts[path := 1]))
            && (path in h.cache.envs ==>
                  && path in h.cache.subDbs && path in h.cache.counts
                  && t.adapters[|h.adapters|] == Adapter(path, Some(h.cache.envs[path]), h.cache.subDbs[path])
                  && t.cache == h.cache.(counts := h.cache.counts[path := h.cache.counts[path] + 1]))
  {
    AfterKeepsInv(Start, es);
    var h := After(Start, es);
    assert path in h.cache.envs.Keys <==> path in h.cache.counts.Keys;
    assert path in h.cache.envs.Keys <==> path in h.cache.subDbs.Keys;
  }

  /** Closing an open adapter never meets a missing count; it takes the path out of
      the cache iff no other adapter of the path is open, and otherwise leaves the
      environment where it is. */
  lemma ReleasedExactlyWhen(es: seq<Event>, i: nat)
    requires var h := After(Start, es); i < |h.adapters| && h.adapters[i].env.Some?
    ensures var h := After(Start, es);
            var path := h.adapters[i].path;
            var next := Next(h, Close(i)).cache;
            && path in h.cache.counts
            && (path !in next.envs <==> forall j :: 0 <= j < |h.adapters| && j != i ==> !IsOpen(h.adapters[j], path))
            && (path in next.envs ==> next.envs == h.cache.envs && next.subDbs == h.cache.subDbs)
  {
    AfterKeepsInv(Start, es);
    var h := After(Start, es);
    var path := h.adapters[i].path;
    assert path in h.cache.envs.Keys;
    CloseKeeps(h, i);
    var next := Next(h, Close(i));
    OpenCountZero(next.adapters, path);
    assert forall j :: 0 <= j < |h.adapters| && j != i ==> next.adapters[j] == h.adapters[j];
    assert path in next.cache.envs.Keys <==> path in next.cache.counts.Keys;
  }

  lemma {:induction false} StaysClosed(h: History, es: seq<Event>, i: nat)
    requires i < |h.adapters| && h.adapters[i].env.None?
    ensures i < |After(h, es).adapters| && After(h, es).adapters[i].env.None?
    decreases |es|
  {
    if es != [] { StaysClosed(Next(h, es[0]), es[1..], i); }
  }

  /** However much happens in between, a second close of an adapter changes nothing. */
  lemma SecondCloseIsNothing(before: seq<Event>, between: seq<Event>, i: nat)
    requires i < |After(Start, before).adapters|
    ensures var h := After(Next(After(Start, before), Close(i)), between);
            Next(h, Close(i)) == h
  {
    AfterKeepsInv(Start, before);
    var h0 := After(Start, before);
    if h0.adapters[i].env.Some? {
      CloseKeeps(h0, i);
    }
    var h1 := Next(h0, Close(i));
    StaysClosed(h1, between, i);
    var h := After(h1, between);
    assert h.adapters[i := h.adapters[i]] == h.adapters;
  }
}
