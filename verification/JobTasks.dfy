/** Cutting a job over partitioned stores into one task per partition. */
module JobTasks {
  import opened Bytes

  /** A store's declared partition count, and the endpoints of the processors that
      hold its populated partitions. */
  datatype Store = Store(numPartitions: nat, endpoints: seq<nat>)

  datatype Partition = Partition(id: nat, endpoint: nat)

  datatype Task = Task(inputs: seq<Partition>, outputs: seq<Partition>, endpoint: nat)

  datatype Decomposition = Tasks(tasks: seq<Task>) | Failed

  predicate Has(stores: seq<Store>, i: nat) { forall s :: 0 <= s < |stores| ==> i < |stores[s].endpoints| }

  predicate Located(stores: seq<Store>, i: nat, endpoint: nat)
    requires Has(stores, i)
  {
    forall s :: 0 <= s < |stores| ==> stores[s].endpoints[i] == endpoint
  }

  /** Exactly the i-th partitions of the stores, in order. */
  predicate PartitionsAt(ps: seq<Partition>, stores: seq<Store>, i: nat)
    requires Has(stores, i)
  {
    |ps| == |stores| && forall s :: 0 <= s < |ps| ==> ps[s] == Partition(i, stores[s].endpoints[i])
  }

  /** _fill_partitions. */
  method FillPartitions(stores: seq<Store>, i: nat, target: Option<nat>)
    returns (ok: bool, partitions: seq<Partition>, endpoint: Option<nat>)
    ensures ok ==> Has(stores, i) && PartitionsAt(partitions, stores, i)
    ensures ok && endpoint.Some? ==> Located(stores, i, endpoint.value)
    ensures ok ==> (endpoint.None? <==> target.None? && stores == []) && (target.Some? ==> endpoint == target)
    ensures !ok ==> !Has(stores, i) || (forall e :: (target.Some? ==> e == target.value) ==> !Located(stores, i, e))
  {
    partitions, endpoint, ok := [], target, true;
    for s := 0 to |stores|
      invariant ok && Has(stores[..s], i) && PartitionsAt(partitions, stores[..s], i)
      invariant endpoint.Some? ==> Located(stores[..s], i, endpoint.value)
      invariant (endpoint.None? <==> target.None? && s == 0) && (target.Some? ==> endpoint == target)
    {
      if |stores[s].endpoints| <= i {
        return false, partitions, endpoint;
      }
      var here := stores[s].endpoints[i];
      partitions := partitions + [Partition(i, here)];
      if endpoint.None? {
        endpoint := Some(here);
      } else if endpoint.value != here {
        ghost var found := endpoint.value;
        forall e | Has(stores, i) && (target.Some? ==> e == target.value) ensures !Located(stores, i, e) {
          assert s == 0 || stores[..s][0].endpoints[i] == found;
          assert stores[s].endpoints[i] != found;
        }
        return false, partitions, endpoint;
      }
    }
    assert stores[..|stores|] == stores;
  }

  /** The stores of a side of the job that take part in task i: its first store decides. */
  function StoresAt(stores: seq<Store>, i: nat): seq<Store>
  {
    if stores != [] && i < stores[0].numPartitions then stores else []
  }

  /** Partition i can be one task: every store that takes part holds it, and all on
      the same processor. */
  ghost predicate OnePlace(inputs: seq<Store>, outputs: seq<Store>, i: nat)
  {
    var ins, outs := StoresAt(inputs, i), StoresAt(outputs, i);
    Has(ins, i) && Has(outs, i) && exists e :: Located(ins, i, e) && Located(outs, i, e)
  }

  ghost predicate TaskFor(t: Task, inputs: seq<Store>, outputs: seq<Store>, i: nat)
  {
    var ins, outs := StoresAt(inputs, i), StoresAt(outputs, i);
    && Has(ins, i) && PartitionsAt(t.inputs, ins, i) && Located(ins, i, t.endpoint)
    && Has(outs, i) && PartitionsAt(t.outputs, outs, i) && Located(outs, i, t.endpoint)
  }

  function Total(inputs: seq<Store>, outputs: seq<Store>): nat
    requires inputs != []
  {
    Max(inputs[0].numPartitions, if outputs != [] then outputs[0].numPartitions else 0)
  }

  method TaskAt(inputs: seq<Store>, outputs: seq<Store>, i: nat) returns (ok: bool, task: Task)
    requires inputs != [] && i < Total(inputs, outputs)
    ensures ok ==> TaskFor(task, inputs, outputs, i)
    ensures ok <==> OnePlace(inputs, outputs, i)
  {
    var ins, outs: seq<Partition>, endpoint: Option<nat> := [], [], None;
    task := Task([], [], 0);
    ok := true;
    if i < inputs[0].numPartitions {
      ok, ins, endpoint := FillPartitions(inputs, i, endpoint);
      if !ok {
        return;
      }
    }
    if outputs != [] && i < outputs[0].numPartitions {
      assert endpoint.Some? ==> StoresAt(inputs, i)[0].endpoints[i] == endpoint.value;
      ok, outs, endpoint := FillPartitions(outputs, i, endpoint);
      if !ok {
        return;
      }
    }
    task := Task(ins, outs, endpoint.value);
  }

  /** The first store of a side decides how many partitions the side has. */
  function Partitions(stores: seq<Store>): nat { if stores == [] then 0 else stores[0].numPartitions }

  /** Each partition of a side belongs to the task of its number, and no task has others:
      `sides` are the tasks' partition lists on that side. */
  ghost predicate Covers(sides: seq<seq<Partition>>, stores: seq<Store>)
  {
    && Partitions(stores) <= |sides|
    && (forall j :: 0 <= j < Partitions(stores) ==> Has(stores, j) && PartitionsAt(sides[j], stores, j))
    && (forall j :: Partitions(stores) <= j < |sides| ==> sides[j] == [])
  }

  function InputSides(tasks: seq<Task>): (sides: seq<seq<Partition>>)
    ensures |sides| == |tasks| && forall i :: 0 <= i < |tasks| ==> sides[i] == tasks[i].inputs
  {
    seq(|tasks|, i requires 0 <= i < |tasks| => tasks[i].inputs)
  }

  function OutputSides(tasks: seq<Task>): (sides: seq<seq<Partition>>)
    ensures |sides| == |tasks| && forall i :: 0 <= i < |tasks| ==> sides[i] == tasks[i].outputs
  {
    seq(|tasks|, i requires 0 <= i < |tasks| => tasks[i].outputs)
  }

  /** The tasks cover both sides, each has something to do, and each runs where all its
      partitions are. */
  ghost predicate Decomposed(tasks: seq<Task>, inputs: seq<Store>, outputs: seq<Store>)
  {
    && Covers(InputSides(tasks), inputs) && Covers(OutputSides(tasks), outputs)
    && forall i :: 0 <= i < |tasks| ==>
         && (tasks[i].inputs != [] || tasks[i].outputs != [])
         && (forall p :: p in tasks[i].inputs || p in tasks[i].outputs ==> p.endpoint == tasks[i].endpoint)
  }

  /** The number of tasks that have something on a side. */
  function Busy(sides: seq<seq<Partition>>): nat
  {
    if sides == [] then 0 else Busy(sides[..|sides| - 1]) + if sides[|sides| - 1] != [] then 1 else 0
  }

  /** The number of tasks that have an input, and so write to every output broker. */
  function Writers(tasks: seq<Task>): nat { Busy(InputSides(tasks)) }

  /** The number of tasks that have an output, and so store a partition. */
  function Storers(tasks: seq<Task>): nat { Busy(OutputSides(tasks)) }

  /** As many tasks are busy on a side as it has partitions. */
  lemma CoveredBusy(sides: seq<seq<Partition>>, stores: seq<Store>)
    requires Covers(sides, stores)
    ensures Busy(sides) == Partitions(stores)
  {
    BusyUpTo(sides, Partitions(stores), |sides|);
    assert sides[..|sides|] == sides;
  }

  lemma {:induction false} BusyUpTo(sides: seq<seq<Partition>>, m: nat, n: nat)
    requires n <= |sides| && forall j :: 0 <= j < |sides| ==> (sides[j] != [] <==> j < m)
    ensures Busy(sides[..n]) == Min(m, n)
    decreases n
  {
    if n != 0 {
      BusyUpTo(sides, m, n - 1);
      assert sides[..n][..n - 1] == sides[..n - 1];
    }
  }

  lemma TasksDecompose(tasks: seq<Task>, inputs: seq<Store>, outputs: seq<Store>)
    requires inputs != [] && |tasks| == Total(inputs, outputs)
    requires forall i :: 0 <= i < |tasks| ==> TaskFor(tasks[i], inputs, outputs, i)
    ensures Decomposed(tasks, inputs, outputs)
  {
    forall i | 0 <= i < |tasks|
      ensures tasks[i].inputs != [] || tasks[i].outputs != []
      ensures forall p :: p in tasks[i].inputs || p in tasks[i].outputs ==> p.endpoint == tasks[i].endpoint
    {
      assert TaskFor(tasks[i], inputs, outputs, i);
    }
    forall j | 0 <= j < Partitions(inputs) ensures Has(inputs, j) && PartitionsAt(tasks[j].inputs, inputs, j) {
      assert TaskFor(tasks[j], inputs, outputs, j);
    }
    forall j | 0 <= j < Partitions(outputs) ensures Has(outputs, j) && PartitionsAt(tasks[j].outputs, outputs, j) {
      assert TaskFor(tasks[j], inputs, outputs, j);
    }
  }

  /** decompose_tasks. It fails iff there is no input, or some partition of the first
      input or the first output is missing in a store or not in one place; otherwise
      task i has the i-th partition of every input and every output on either side
      that has so many, and runs where they all are. */
  method DecomposeTasks(inputs: seq<Store>, outputs: seq<Store>) returns (r: Decomposition)
    ensures r.Tasks? <==> inputs != [] && forall i: nat :: i < Partitions(inputs) || i < Partitions(outputs) ==> OnePlace(inputs, outputs, i)
    ensures r.Tasks? ==> Decomposed(r.tasks, inputs, outputs)
    ensures r.Tasks? ==> Writers(r.tasks) == Partitions(inputs) && Storers(r.tasks) == Partitions(outputs)
  {
    if inputs == [] {
      return Failed;
    }
    var tasks: seq<Task> := [];
    for i := 0 to Total(inputs, outputs)
      invariant |tasks| == i && forall n :: 0 <= n < i ==> TaskFor(tasks[n], inputs, outputs, n)
      invariant forall n: nat :: n < i ==> OnePlace(inputs, outputs, n)
    {
      var ok, task := TaskAt(inputs, outputs, i);
      if !ok {
        return Failed;
      }
      tasks := tasks + [task];
    }
    TasksDecompose(tasks, inputs, outputs);
    CoveredBusy(InputSides(tasks), inputs);
    CoveredBusy(OutputSides(tasks), outputs);
    r := Tasks(tasks);
  }
}
