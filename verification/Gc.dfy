/** Garbage collection of temporary tables: reference counts kept by the recorder,
    changed by the life of the table handles, over every history of handles. */
module Gc {

  datatype StoreId = StoreId(namespace: string, name: string)

  datatype Store = Store(id: StoreId, inMemory: bool)

  datatype Records = Records(counts: map<StoreId, int>, queue: seq<StoreId>)

  function Increased(r: Records, s: Store): Records
  {
    if !s.inMemory then r
    else r.(counts := r.counts[s.id := (if s.id in r.counts then r.counts[s.id] else 0) + 1])
  }

  /** A count that reaches zero is removed and its store queued for destruction; so
      is a store that was not tracked at all. */
  function Decreased(r: Records, s: Store): Records
  {
    if !s.inMemory then r
    else
      var count := if s.id in r.counts then r.counts[s.id] - 1 else 0;
      if count == 0 then Records(r.counts - {s.id}, r.queue + [s.id])
      else r.(counts := r.counts[s.id := count])
  }

  class GcRecorder {
    var counts: map<StoreId, int>
    var queue: seq<StoreId>

    function State(): Records
      reads this
    {
      Records(counts, queue)
    }

    constructor ()
      ensures State() == Records(map[], [])
    {
      counts, queue := map[], [];
    }

    method IncreaseRefCount(store: Store)
      modifies this
      ensures State() == Increased(old(State()), store) && queue == old(queue)
      ensures counts == if !store.inMemory then old(counts)
                        else if store.id in old(counts) then old(counts)[store.id := old(counts)[store.id] + 1]
                        else old(counts)[store.id := 1]
    {
      if !store.inMemory {
        return;
      }
      var count := if store.id in counts then counts[store.id] else 0;
      count := count + 1;
      counts := counts[store.id := count];
    }

    method DecreaseRefCount(store: Store)
      modifies this
      ensures State() == Decreased(old(State()), store)
      ensures !store.inMemory ==> counts == old(counts) && queue == old(queue)
      ensures store.inMemory && store.id in old(counts) && old(counts)[store.id] != 1 ==>
                counts == old(counts)[store.id := old(counts)[store.id] - 1] && queue == old(queue)
      ensures store.inMemory && (store.id in old(counts) ==> old(counts)[store.id] == 1) ==>
                counts == old(counts) - {store.id} && queue == old(queue) + [store.id]
    {
      if !store.inMemory {
        return;
      }
      var refCount := 0;
      if store.id in counts {
        refCount := counts[store.id] - 1;
      }
      ghost var before := counts;
      counts := counts[store.id := refCount];
      if refCount == 0 {
        queue := queue + [store.id];
        counts := counts - {store.id};
        assert counts == before - {store.id};
      }
    }
  }

  // ------------------------------------------------------------------------- handles

  datatype Handle = Handle(store: Store, gcEnabled: bool, destroyed: bool)

  function Created(store: Store, wanted: bool): Handle { Handle(store, wanted && store.inMemory, false) }

  /** What a handle's creation, registration and finalisation do to the records. */
  function CreatedRecords(r: Records, h: Handle): Records { if h.gcEnabled then Increased(r, h.store) else r }

  predicate Decrements(h: Handle, stopped: bool) { !stopped && !h.destroyed && h.gcEnabled }

  function FinalisedRecords(r: Records, h: Handle, stopped: bool): Records
  {
    if Decrements(h, stopped) then Decreased(r, h.store) else r
  }

  class TableHandle {
    const recorder: GcRecorder
    const store: Store
    var gcEnabled: bool
    var destroyed: bool

    function Value(): Handle
      reads this
    {
      Handle(store, gcEnabled, destroyed)
    }

    constructor (store: Store, recorder: GcRecorder, wanted: bool)
      modifies recorder
      ensures this.recorder == recorder && Value() == Created(store, wanted) == Handle(store, wanted && store.inMemory, false)
      ensures recorder.State() == CreatedRecords(old(recorder.State()), Value())
    {
      this.store, this.recorder := store, recorder;
      var enabled := wanted;
      if !store.inMemory {
        enabled := false;
      }
      gcEnabled, destroyed := enabled, false;
      new;
      if enabled {
        recorder.IncreaseRefCount(store);
      }
    }

    method RegisterGc()
      modifies this`gcEnabled, recorder
      ensures Value() == old(Value()).(gcEnabled := true)
      ensures recorder.State() == Increased(old(recorder.State()), store)
    {
      gcEnabled := true;
      recorder.IncreaseRefCount(store);
    }

    /** False is the ValueError for a table destroyed before. */
    method Destroy() returns (ok: bool)
      modifies this`destroyed
      ensures ok == !old(destroyed) && Value() == old(Value()).(destroyed := true)
    {
      if destroyed {
        return false;
      }
      destroyed := true;
      ok := true;
    }

    method Finalise(sessionStopped: bool)
      modifies recorder
      ensures recorder.State() == FinalisedRecords(old(recorder.State()), Value(), sessionStopped)
      ensures recorder.State() == if sessionStopped || destroyed || !gcEnabled then old(recorder.State())
                                  else Decreased(old(recorder.State()), store)
    {
      if sessionStopped {
        return;
      }
      if destroyed {
        return;
      }
      if !gcEnabled {
        return;
      }
      recorder.DecreaseRefCount(store);
    }
  }

  // ----------------------------------------------------------------------- histories

  /** A handle and what happened to it: how often it was counted, whether its
      finaliser gave a count back, and whether the finaliser has run. */
  datatype Entry = Entry(handle: Handle, registrations: nat, released: bool, finalised: bool)

  datatype History = History(records: Records, entries: seq<Entry>, stopped: bool)

  datatype Event =
    | Create(store: Store, wanted: bool)
    | Register(i: nat)
    | Destroy(i: nat)
    | Finalise(i: nat)
    | Stop

  const Start := History(Records(map[], []), [], false)

  /** Handle i exists and has not been finalised. */
  predicate Live(h: History, i: nat) { i < |h.entries| && !h.entries[i].finalised }

  function Once(store: Store): nat { if store.inMemory then 1 else 0 }

  /** One event; an event of a handle that is not live is no event. */
  function Next(h: History, e: Event): History
  {
    match e
    case Create(store, wanted) =>
      var handle := Created(store, wanted);
      h.(records := CreatedRecords(h.records, handle),
         entries := h.entries + [Entry(handle, if handle.gcEnabled then 1 else 0, false, false)])
    case Register(i) =>
      if !Live(h, i) then h
      else
        var x := h.entries[i];
        h.(records := Increased(h.records, x.handle.store),
           entries := h.entries[i := x.(handle := x.handle.(gcEnabled := true),
                                        registrations := x.registrations + Once(x.handle.store))])
    case Destroy(i) =>
      if !Live(h, i) then h
      else
        var x := h.entries[i];
        h.(entries := h.entries[i := x.(handle := x.handle.(destroyed := true))])
    case Finalise(i) =>
      if !Live(h, i) then h
      else
        var x := h.entries[i];
        h.(records := FinalisedRecords(h.records, x.handle, h.stopped),
           entries := h.entries[i := x.(released := Decrements(x.handle, h.stopped) && x.handle.store.inMemory,
                                        finalised := true)])
    case Stop => h.(stopped := true)
  }

  function After(h: History, es: seq<Event>): History
    decreases |es|
  {
    if es == [] then h else After(Next(h, es[0]), es[1..])
  }

  predicate Of(x: Entry, id: StoreId) { x.handle.store == Store(id, true) }

  /** The counts a handle still holds on a store. */
  function Held(x: Entry, id: StoreId): int
  {
    if Of(x, id) then x.registrations - (if x.released then 1 else 0) else 0
  }

  function HeldBy(xs: seq<Entry>, id: StoreId): int
  {
    if xs == [] then 0 else Held(xs[0], id) + HeldBy(xs[1..], id)
  }

  ghost predicate EntryOk(x: Entry, stopped: bool)
  {
    && (x.registrations > 0 <==> x.handle.gcEnabled && x.handle.store.inMemory)
    && (x.released ==> x.finalised && x.registrations > 0 && !x.handle.destroyed)
    && (!stopped && x.finalised && x.registrations > 0 && !x.handle.destroyed ==> x.released)
  }

  ghost predicate EntriesOk(xs: seq<Entry>, stopped: bool)
  {
    forall i :: 0 <= i < |xs| ==> EntryOk(xs[i], stopped)
  }

  /** A store is recorded exactly while handles hold counts on it, under their number. */
  ghost predicate CountsOk(r: Records, xs: seq<Entry>)
  {
    forall id :: (if id in r.counts then 0 < r.counts[id] == HeldBy(xs, id) else HeldBy(xs, id) == 0)
  }

  /** A store all of whose counts were given back has been queued. */
  ghost predicate QueueOk(r: Records, xs: seq<Entry>)
  {
    forall i :: 0 <= i < |xs| && xs[i].registrations > 0 ==> xs[i].handle.store.id in r.counts || xs[i].handle.store.id in r.queue
  }

  ghost predicate Inv(h: History)
  {
    EntriesOk(h.entries, h.stopped) && CountsOk(h.records, h.entries) && QueueOk(h.records, h.entries)
  }

  // ----------------------------------------------------------------- sums of counts

  lemma {:induction false} HeldByUpdate(xs: seq<Entry>, i: nat, x: Entry, id: StoreId)
    requires i < |xs|
    ensures HeldBy(xs[i := x], id) == HeldBy(xs, id) - Held(xs[i], id) + Held(x, id)
  {
    if i != 0 {
      HeldByUpdate(xs[1..], i - 1, x, id);
      assert xs[i := x][1..] == xs[1..][i - 1 := x];
    } else {
      assert xs[i := x][1..] == xs[1..];
    }
  }

  lemma {:induction false} HeldByAppend(xs: seq<Entry>, x: Entry, id: StoreId)
    ensures HeldBy(xs + [x], id) == HeldBy(xs, id) + Held(x, id)
  {
    if xs == [] {
      assert xs + [x] == [x];
    } else {
      assert (xs + [x])[1..] == xs[1..] + [x];
      HeldByAppend(xs[1..], x, id);
    }
  }

  /** The sum bounds each of its parts, and is zero only when all of them are. */
  lemma {:induction false} HeldByParts(xs: seq<Entry>, id: StoreId, stopped: bool)
    requires EntriesOk(xs, stopped)
    ensures forall i :: 0 <= i < |xs| ==> 0 <= Held(xs[i], id) <= HeldBy(xs, id)
    ensures (forall i :: 0 <= i < |xs| ==> Held(xs[i], id) == 0) ==> HeldBy(xs, id) == 0
    ensures 0 <= HeldBy(xs, id)
  {
    if xs != [] {
      HeldByParts(xs[1..], id, stopped);
      forall i | 0 <= i < |xs| ensures 0 <= Held(xs[i], id) <= HeldBy(xs, id) {
        if i != 0 { assert xs[i] == xs[1..][i - 1]; }
      }
      if forall i :: 0 <= i < |xs| ==> Held(xs[i], id) == 0 {
        forall i | 0 <= i < |xs[1..]| ensures Held(xs[1..][i], id) == 0 { assert xs[1..][i] == xs[i + 1]; }
      }
    }
  }

  // ------------------------------------------------------------------- the invariant

  lemma UpdateKeeps(h: History, i: nat, x: Entry)
    requires i < |h.entries|
    ensures forall id :: HeldBy(h.entries[i := x], id) == HeldBy(h.entries, id) - Held(h.entries[i], id) + Held(x, id)
  {
    forall id ensures HeldBy(h.entries[i := x], id) == HeldBy(h.entries, id) - Held(h.entries[i], id) + Held(x, id) {
      HeldByUpdate(h.entries, i, x, id);
    }
  }

  lemma CreateKeeps(h: History, store: Store, wanted: bool)
    requires Inv(h)
    ensures Inv(Next(h, Create(store, wanted)))
  {
    var x := Entry(Created(store, wanted), if Created(store, wanted).gcEnabled then 1 else 0, false, false);
    forall id ensures HeldBy(h.entries + [x], id) == HeldBy(h.entries, id) + Held(x, id) && 0 <= HeldBy(h.entries, id) {
      HeldByAppend(h.entries, x, id);
      HeldByParts(h.entries, id, h.stopped);
    }
  }

  lemma RegisterCounts(h: History, i: nat)
    requires Inv(h) && Live(h, i)
    ensures CountsOk(Next(h, Register(i)).records, Next(h, Register(i)).entries)
  {
    CountsFollow(h, Next(h, Register(i)).records, i, Next(h, Register(i)).entries[i]);
  }

  lemma RegisterKeeps(h: History, i: nat)
    requires Inv(h)
    ensures Inv(Next(h, Register(i)))
  {
    if Live(h, i) {
      RegisterCounts(h, i);
    }
  }

  lemma FinaliseCounts(h: History, i: nat)
    requires Inv(h) && Live(h, i)
    ensures CountsOk(Next(h, Finalise(i)).records, Next(h, Finalise(i)).entries)
  {
    var x := Next(h, Finalise(i)).entries[i];
    HeldByParts(h.entries, x.handle.store.id, h.stopped);
    CountsFollow(h, Next(h, Finalise(i)).records, i, x);
  }

  lemma FinaliseKeeps(h: History, i: nat)
    requires Inv(h)
    ensures Inv(Next(h, Finalise(i)))
  {
    if Live(h, i) {
      FinaliseCounts(h, i);
    }
  }

  /** Records that change by what handle i's share changes stay exact. */
  lemma CountsFollow(h: History, r: Records, i: nat, x: Entry)
    requires Inv(h) && i < |h.entries|
    requires forall id :: var change := Held(x, id) - Held(h.entries[i], id);
                          var now := Count(h.records, id) + change;
                          && (now == 0 <==> id !in r.counts) && (id in r.counts ==> 0 < r.counts[id] == now)
    ensures CountsOk(r, h.entries[i := x])
  {
    UpdateKeeps(h, i, x);
    forall id ensures Count(h.records, id) == HeldBy(h.entries, id) { }
  }

  function Count(r: Records, id: StoreId): int { if id in r.counts then r.counts[id] else 0 }

  lemma NextKeepsInv(h: History, e: Event)
    requires Inv(h)
    ensures Inv(Next(h, e))
  {
    match e
    case Create(store, wanted) => CreateKeeps(h, store, wanted);
    case Register(i) => RegisterKeeps(h, i);
    case Destroy(i) =>
      if Live(h, i) { UpdateKeeps(h, i, Next(h, e).entries[i]); }
    case Finalise(i) => FinaliseKeeps(h, i);
    case Stop =>
  }

  lemma {:induction false} AfterKeepsInv(h: History, es: seq<Event>)
    requires Inv(h)
    ensures Inv(After(h, es))
    decreases |es|
  {
    if es != [] {
      NextKeepsInv(h, es[0]);
      AfterKeepsInv(Next(h, es[0]), es[1..]);
    }
  }

  /** In every history the recorded count of a store is the number of counts its
      handles took and have not given back, and it is recorded while that is positive. */
  lemma CountsAreExact(es: seq<Event>)
    ensures var h := After(Start, es);
            forall id :: Count(h.records, id) == HeldBy(h.entries, id)
  {
    AfterKeepsInv(Start, es);
  }

  /** A finaliser that decrements finds its store recorded with a positive count: the
      branch for an untracked store is never taken. */
  lemma NeverUntracked(es: seq<Event>, i: nat)
    requires var h := After(Start, es); Live(h, i) && Decrements(h.entries[i].handle, h.stopped) && h.entries[i].handle.store.inMemory
    ensures var h := After(Start, es);
            var id := h.entries[i].handle.store.id;
            id in h.records.counts && h.records.counts[id] >= h.entries[i].registrations >= 1
  {
    AfterKeepsInv(Start, es);
    var h := After(Start, es);
    HeldByParts(h.entries, h.entries[i].handle.store.id, h.stopped);
  }

  /** Handle i alone holds on to its store, by a single count. */
  ghost predicate LastHolder(h: History, i: nat)
    requires i < |h.entries|
  {
    && h.entries[i].registrations == 1
    && forall j :: 0 <= j < |h.entries| && j != i ==> Held(h.entries[j], h.entries[i].handle.store.id) == 0
  }

  lemma SoleHolder(h: History, i: nat)
    requires Inv(h) && Live(h, i) && h.entries[i].handle.store.inMemory && h.entries[i].registrations > 0
    ensures HeldBy(h.entries, h.entries[i].handle.store.id) == 1 <==> LastHolder(h, i)
  {
    var id := h.entries[i].handle.store.id;
    var x := h.entries[i];
    var gone := x.(registrations := 0, released := false, handle := x.handle.(gcEnabled := false));
    var rest := h.entries[i := gone];
    HeldByUpdate(h.entries, i, gone, id);
    HeldByParts(rest, id, h.stopped);
    forall j | 0 <= j < |rest| && j != i ensures rest[j] == h.entries[j] { }
  }

  /** Exactly when a store is queued: at the finaliser of a handle that is the last one
      to hold a count on it, itself counted once. Every other event leaves the queue. */
  lemma QueuedExactlyWhen(es: seq<Event>, e: Event)
    ensures var h := After(Start, es);
            var i := if e.Finalise? then e.i else 0;
            Next(h, e).records.queue ==
              if e.Finalise? && Live(h, i) && h.entries[i].handle.store.inMemory
                 && Decrements(h.entries[i].handle, h.stopped) && LastHolder(h, i)
              then h.records.queue + [h.entries[i].handle.store.id]
              else h.records.queue
  {
    AfterKeepsInv(Start, es);
    var h := After(Start, es);
    if e.Finalise? && Live(h, e.i) && h.entries[e.i].handle.store.inMemory && Decrements(h.entries[e.i].handle, h.stopped) {
      SoleHolder(h, e.i);
      HeldByParts(h.entries, h.entries[e.i].handle.store.id, h.stopped);
    }
  }

  // ------------------------------------------------------------------ leaks

  /** A handle that never gives all its counts back: destroyed by hand while counted,
      or counted twice. */
  predicate Stuck(x: Entry)
  {
    x.registrations > 0 && ((x.handle.destroyed && !x.released) || x.registrations > 1)
  }

  lemma StuckStays(h: History, e: Event, i: nat)
    requires Inv(h) && i < |h.entries| && Stuck(h.entries[i])
    ensures i < |Next(h, e).entries| && Stuck(Next(h, e).entries[i])
    ensures Next(h, e).entries[i].handle.store == h.entries[i].handle.store
  {
  }

  lemma StuckHolds(h: History, e: Event, i: nat)
    requires Inv(h) && i < |h.entries| && Stuck(h.entries[i])
    ensures var id := h.entries[i].handle.store.id;
            Next(h, e).records.queue == h.records.queue
            || (Next(h, e).records.queue == h.records.queue + [Next(h, e).records.queue[|h.records.queue|]]
                && Next(h, e).records.queue[|h.records.queue|] != id)
  {
    var id := h.entries[i].handle.store.id;
    if e.Finalise? && Live(h, e.i) && h.entries[e.i].handle.store == Store(id, true) && Decrements(h.entries[e.i].handle, h.stopped) {
      SoleHolder(h, e.i);
      HeldByParts(h.entries, id, h.stopped);
      assert Held(h.entries[i], id) > 0;
    }
  }

  lemma {:induction false} StuckBlocksQueue(h: History, es: seq<Event>, i: nat)
    requires Inv(h) && i < |h.entries| && Stuck(h.entries[i])
    ensures multiset(After(h, es).records.queue)[h.entries[i].handle.store.id]
            == multiset(h.records.queue)[h.entries[i].handle.store.id]
    decreases |es|
  {
    if es != [] {
      StuckStays(h, es[0], i);
      StuckHolds(h, es[0], i);
      NextKeepsInv(h, es[0]);
      StuckBlocksQueue(Next(h, es[0]), es[1..], i);
    }
  }

  /** A table with such a handle is never queued again, whatever follows. */
  lemma StuckNeverQueued(before: seq<Event>, es: seq<Event>, i: nat)
    requires var h := After(Start, before); i < |h.entries| && Stuck(h.entries[i])
    ensures var h := After(Start, before);
            var id := h.entries[i].handle.store.id;
            multiset(After(h, es).records.queue)[id] == multiset(h.records.queue)[id]
  {
    AfterKeepsInv(Start, before);
    StuckBlocksQueue(After(Start, before), es, i);
  }

  /** Otherwise nothing leaks: when every handle of a counted store has been finalised
      in a running session and none is stuck, the store has been queued and is no
      longer recorded. */
  lemma AllFinalisedIsQueued(es: seq<Event>, id: StoreId, i: nat)
    requires var h := After(Start, es);
             && !h.stopped && i < |h.entries| && Of(h.entries[i], id) && h.entries[i].registrations > 0
             && (forall j :: 0 <= j < |h.entries| && Of(h.entries[j], id) ==> h.entries[j].finalised && !Stuck(h.entries[j]))
    ensures var h := After(Start, es); id !in h.records.counts && id in h.records.queue
  {
    AfterKeepsInv(Start, es);
    var h := After(Start, es);
    HeldByParts(h.entries, id, h.stopped);
  }

  lemma {:induction false} StaysStopped(h: History, es: seq<Event>)
    requires h.stopped
    ensures After(h, es).stopped
    decreases |es|
  {
    if es != [] { StaysStopped(Next(h, es[0]), es[1..]); }
  }

  /** Once the session has stopped no finaliser changes the counts or the queue. */
  lemma FinaliserAfterStop(before: seq<Event>, more: seq<Event>, i: nat)
    ensures var h := After(Next(After(Start, before), Stop), more); Next(h, Finalise(i)).records == h.records
  {
    StaysStopped(Next(After(Start, before), Stop), more);
  }

  /** Once all handles of a store are finalised in a running session, it is no longer
      recorded iff none of them is stuck. */
  lemma LeaksExactlyWhen(es: seq<Event>, id: StoreId)
    requires var h := After(Start, es);
             !h.stopped && forall j :: 0 <= j < |h.entries| && Of(h.entries[j], id) ==> h.entries[j].finalised
    ensures var h := After(Start, es);
            id !in h.records.counts <==> forall j :: 0 <= j < |h.entries| && Of(h.entries[j], id) ==> !Stuck(h.entries[j])
  {
    AfterKeepsInv(Start, es);
    var h := After(Start, es);
    HeldByParts(h.entries, id, h.stopped);
  }

  /** The leak happens: a counted handle is destroyed by hand and finalised, and its
      store stays recorded and is never queued. */
  lemma LeakHappens(id: StoreId)
    ensures var h := After(Start, [Create(Store(id, true), true), Destroy(0), Finalise(0)]);
            && h.records.counts == map[id := 1] && h.records.queue == []
            && |h.entries| == 1 && h.entries[0].finalised && Stuck(h.entries[0])
  {
    var a, b, c := Create(Store(id, true), true), Destroy(0), Finalise(0);
    var h1 := Next(Start, a);
    var h2 := Next(h1, b);
    assert [a, b, c][1..] == [b, c] && [b, c][1..] == [c] && [c][1..] == [];
    assert After(h2, [c]) == After(Next(h2, c), []);
  }
}
