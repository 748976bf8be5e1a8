/** A shuffle job as it is submitted: cut into tasks, with as many finish signals
    expected as the first input has partitions. */
module JobShuffle {
  import opened JobTasks
  import Shuffle
  import ShuffleRun
  import ShuffleLiveness

  /** The run-time configuration of a job over these stores: the store tasks expect
      job.first_input.num_partitions signals, every task with an input maps and
      scatters, and every task with an output stores a partition. */
  ghost predicate ConfiguredBy(c: Shuffle.Config, inputs: seq<Store>, outputs: seq<Store>, tasks: seq<Task>)
  {
    && inputs != [] && Decomposed(tasks, inputs, outputs)
    && c.writers == inputs[0].numPartitions
    && |c.mapOut| == Writers(tasks)
    && c.parts == Storers(tasks)
  }

  /** Signal accounting of a whole job, from its decomposition: the expected signals
      are those the tasks give, so under every schedule nothing is refused, every run
      ends, and a run that cannot go on has stored every partition with every output
      broker's writer count at 0. */
  lemma JobFinishes(c: Shuffle.Config, inputs: seq<Store>, outputs: seq<Store>, tasks: seq<Task>,
                    steps: seq<Shuffle.Step>, t: Shuffle.State)
    requires ConfiguredBy(c, inputs, outputs, tasks) && Shuffle.ValidData(c)
    requires Shuffle.Run(c, Shuffle.Init(c), steps, t)
    ensures c.writers == |c.mapOut| && c.parts == Partitions(outputs) && Shuffle.Shaped(c, t) && !t.failed
    ensures |steps| <= ShuffleLiveness.Weight(Shuffle.Init(c))
    ensures (forall step :: !Shuffle.Enabled(c, t, step)) ==>
              forall j :: 0 <= j < c.parts ==> t.stores[j].done && t.stores[j].fifo.active == 0
  {
    CoveredBusy(InputSides(tasks), inputs);
    CoveredBusy(OutputSides(tasks), outputs);
    ShuffleRun.SignalAccounting(c, steps, t);
    ShuffleLiveness.EveryScheduleFinishes(c, steps, t);
  }
}
