/** The solver front end: a two-state machine (running, stopped) over a
    shared pool. While running, `Solve` creates and submits one root task per
    circuit; once stopped, it hands out dead handles and submits nothing. */
module Solver {
  import opened Circuits
  import opened GatePolicies
  import opened Evaluation
  import StoppedCircuitValue

  /** What `Solve` returns: the live root task, or the stopped handle. */
  datatype Handle = Running(task: ParallelCircuitValue) | Stopped

  class ParallelCircuitSolver {
    const pool: Pool
    var stopped: bool
    /** The root tasks submitted so far, in submission order. */
    ghost var roots: seq<ParallelCircuitValue>

    /** The pool is shut down exactly when the solver is stopped. */
    ghost predicate Valid()
      reads this, pool
    {
      stopped == pool.shutDown
    }

    constructor ()
      ensures Valid()
      ensures !stopped && roots == []
      ensures fresh(pool) && pool.submitted == []
    {
      pool := new Pool();
      stopped := false;
      roots := [];
    }

    /** Once stopped: the stopped handle, nothing submitted. Otherwise: one
        fresh root task bound to the circuit's root and to a fresh, empty
        result queue, submitted once and returned. */
    method Solve(c: Circuit) returns (h: Handle)
      requires Valid()
      modifies this`roots, pool`submitted
      ensures Valid() && stopped == old(stopped)
      ensures stopped ==>
        && h == Stopped
        && pool.submitted == old(pool.submitted)
        && roots == old(roots)
      ensures !stopped ==>
        && h.Running? && fresh(h.task)
        && h.task.node == c.root && h.task.pool == pool
        && fresh(h.task.resultsInParent) && h.task.resultsInParent.items == []
        && fresh(h.task.resultsFromSons)
        && h.task.Ready()
        && pool.submitted == old(pool.submitted) + [h.task]
        && roots == old(roots) + [h.task]
    {
      if stopped {
        return Stopped;
      }
      var result := new ResultQueue();
      var task := new ParallelCircuitValue(c.root, pool, result);
      var _ := pool.Submit(task);
      roots := roots + [task];
      h := Running(task);
    }

    /** Stops the solver and shuts the pool down. A second call changes
        nothing, and nothing sets `stopped` back to false. */
    method Stop()
      requires Valid()
      modifies this`stopped, pool`shutDown
      ensures Valid() && stopped
      ensures roots == old(roots) && pool.submitted == old(pool.submitted)
      ensures old(stopped) ==> unchanged(this) && unchanged(pool)
    {
      stopped := true;
      pool.ShutdownNow();
    }
  }

  /** Reading a handle as the source does (`CircuitValue.getValue`): the
      stopped handle always fails; a live root task whose permit is available
      yields its `evaluation` field, also after an interrupted run. */
  method AwaitAsWritten(h: Handle) returns (r: Outcome)
    requires h.Running? ==> h.task.isFree > 0
    ensures h == Stopped ==> r == Interrupted
    ensures h.Running? ==> r == Value(h.task.evaluation)
  {
    match h {
      case Stopped =>
        r := StoppedCircuitValue.GetValue();
      case Running(task) =>
        var b := task.GetValue();
        r := Value(b);
    }
  }

  /** The corrected handle read: the stopped handle always fails; a finished
      root task read through GetOutcome reports its node's value or the
      interruption. */
  method Await(h: Handle) returns (r: Outcome)
    requires h.Running? ==> h.task.Finished()
    ensures h == Stopped ==> r == Interrupted
    ensures h.Running? ==>
      && (r == Interrupted <==> h.task.status == Cancelled)
      && (r.Value? ==> r.value == Eval(h.task.node))
  {
    match h {
      case Stopped =>
        r := StoppedCircuitValue.GetValue();
      case Running(task) =>
        r := task.GetOutcome();
    }
  }

  /** Solving a circuit and reading its handle. While the solver runs, the
      root task is run with its children's results arriving in the order
      `arrivals` and interrupted as `cancel` says; the read then yields the
      circuit's value unless the interruption hit the root. A stopped solver
      yields the failure. Either way the solver's state stays consistent. */
  method SolveAndAwait(solver: ParallelCircuitSolver, c: Circuit, arrivals: seq<bool>, cancel: Cancellation)
    returns (r: Outcome)
    requires solver.Valid() && WellFormed(c.root)
    requires multiset(arrivals) == multiset(ChildValues(c.root))
    modifies solver`roots, solver.pool`submitted
    ensures solver.Valid() && solver.stopped == old(solver.stopped)
    ensures solver.stopped ==> r == Interrupted
    ensures !solver.stopped ==>
      && (r == Interrupted <==> Hits(cancel, CallCount(c.root.kind, arrivals)))
      && (r.Value? ==> r.value == Eval(c.root))
  {
    var h := solver.Solve(c);
    if h.Running? {
      h.task.Run(arrivals, cancel);
    }
    r := Await(h);
  }
}
