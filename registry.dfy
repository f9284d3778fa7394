/** The task registry (probes/types.go): a list of probes that each probe file appends
    itself to when the package is initialised. */
module TaskRegistry {
  import opened Probes
  import Instances

  class Registry {
    /** The registered probes, in registration order. */
    var tasks: seq<Task>

    /** The registry starts empty. */
    constructor ()
      ensures tasks == []
    {
      tasks := [];
    }

    /** RegisterTask: append one probe at the end; earlier entries keep their order. */
    method RegisterTask(task: Task)
      modifies this
      ensures tasks == old(tasks) + [task]
      ensures |tasks| == |old(tasks)| + 1 && tasks[|tasks| - 1] == task
      ensures forall i :: 0 <= i < |old(tasks)| ==> tasks[i] == old(tasks)[i]
    {
      tasks := tasks + [task];
    }

    /** Every probe file's init, one after the other in file order. */
    method RegisterAll()
      modifies this
      ensures tasks == old(tasks) + Instances.AllTasks()
    {
      RegisterTask(Instances.AnalogyTask());
      RegisterTask(Instances.CrossLanguageTask());
      RegisterTask(Instances.FrenchTask());
      RegisterTask(Instances.MandarinTask());
      RegisterTask(Instances.RussianTask());
      RegisterTask(Instances.SemanticMetricEvidenceTask());
      RegisterTask(Instances.SemanticSimilarityTask());
      RegisterTask(Instances.SpanishTask());
    }
  }

  /** The registry the program starts with: all eight probes, in file order. */
  method InitialRegistry() returns (registry: Registry)
    ensures fresh(registry)
    ensures registry.tasks == Instances.AllTasks()
  {
    registry := new Registry();
    registry.RegisterAll();
  }
}
