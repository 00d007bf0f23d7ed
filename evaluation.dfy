/** One evaluation task per circuit node: it spawns a task per argument on a
    shared pool, consumes the arguments' results from its own inbound queue
    in arrival order, decides by its gate's policy, cancels its children and
    puts its one result into its parent's queue, then signals completion.

    Scheduling is not modelled. The order in which the children's results
    reach the inbound queue is an input (`arrivals`, any permutation of the
    children's values), and the moment the task's thread is interrupted is
    an input too (a `Cancellation`). */
module Evaluation {
  import opened Circuits
  import opened GatePolicies

  /** The handle the pool gives back for a submitted task; cancelling it is
      modelled as marking it cancelled. */
  datatype Future = Future(task: ParallelCircuitValue, cancelled: bool)

  /** Lifecycle of a task. The source keeps no such field; it is what the
      corrected result read (GetOutcome) consults. */
  datatype Status = Created | Completed | Cancelled

  /** The shared worker pool, reduced to the record of what was submitted to
      it and whether it was shut down. */
  class Pool {
    var submitted: seq<ParallelCircuitValue>
    var shutDown: bool

    constructor ()
      ensures submitted == [] && !shutDown
    {
      submitted := [];
      shutDown := false;
    }

    method Submit(task: ParallelCircuitValue) returns (f: Future)
      modifies this`submitted
      ensures submitted == old(submitted) + [task]
      ensures f == Future(task, false)
    {
      submitted := submitted + [task];
      f := Future(task, false);
    }

    method ShutdownNow()
      modifies this`shutDown
      ensures shutDown
    {
      shutDown := true;
    }
  }

  /** An unbounded FIFO queue of results; a put appends, a take removes the
      oldest entry. Blocking on an empty queue is not modelled: every take
      below is made when a result is present. */
  class ResultQueue {
    var items: seq<bool>

    constructor ()
      ensures items == []
    {
      items := [];
    }

    method Put(b: bool)
      modifies this
      ensures items == old(items) + [b]
    {
      items := items + [b];
    }

    /** The puts of several producers, landing in the order given. */
    method PutEach(bs: seq<bool>)
      modifies this
      ensures items == old(items) + bs
    {
      items := items + bs;
    }

    method Take() returns (b: bool)
      requires items != []
      modifies this
      ensures b == old(items)[0] && items == old(items)[1..]
    {
      b := items[0];
      items := items[1..];
    }
  }

  /** The witness tree of the stale-read finding: an AND over one `false` leaf. */
  const StaleWitness := Node(And, [Node(Leaf(false), [])])

  /** Number of interruptible calls a task of the given kind makes on its
      normal path: the leaf read or the takes, then the one put; for IF the
      get and take of the condition and of the chosen branch, then the put. */
  function CallCount(kind: GateKind, arrivals: seq<bool>): (n: nat)
    requires !kind.Lt?
    ensures n >= 1
  {
    match kind
    case Leaf(_) => 2
    case Not => 2
    case If => 5
    case And => ShortCircuitTaken(arrivals, false) + 1
    case Or => ShortCircuitTaken(arrivals, true) + 1
    case Gt(k) => GtTaken(arrivals, k) + 1
  }

  class ParallelCircuitValue {
    const node: Node
    const pool: Pool
    const resultsInParent: ResultQueue
    const resultsFromSons: ResultQueue
    var evaluation: bool
    var isFree: nat
    var futures: seq<Future>
    var tasks: seq<ParallelCircuitValue>
    var status: Status

    /** A task as constructed and not yet run. */
    ghost predicate Ready()
      reads this, resultsFromSons
    {
      && resultsFromSons != resultsInParent
      && resultsFromSons.items == []
      && tasks == [] && futures == []
      && isFree == 0 && !evaluation && status == Created
    }

    /** A task whose run is over: one completion permit released, and a
        completed task holds its node's logical value. */
    ghost predicate Finished()
      reads this
    {
      && WellFormed(node)
      && isFree == 1
      && status != Created
      && (status == Completed ==> evaluation == Eval(node))
    }

    /** The children recorded by CreateTasksFromArgs and SubmitTasks: one
        task per argument, in argument order, all putting into this task's
        inbound queue, each submitted once with its future recorded. */
    ghost predicate Spawned(before: seq<ParallelCircuitValue>)
      reads this`tasks, this`futures, pool
    {
      && |tasks| == |node.args| && |futures| == |tasks|
      && (forall i :: 0 <= i < |tasks| ==>
            && tasks[i].node == node.args[i]
            && tasks[i].pool == pool
            && tasks[i].resultsInParent == resultsFromSons
            && futures[i].task == tasks[i])
      && pool.submitted == before + tasks
    }

    /** Every recorded future has been cancelled. */
    ghost predicate AllCancelled()
      reads this`futures
    {
      forall i :: 0 <= i < |futures| ==> futures[i].cancelled
    }

    constructor (node: Node, pool: Pool, resultsQueue: ResultQueue)
      ensures this.node == node && this.pool == pool && resultsInParent == resultsQueue
      ensures fresh(resultsFromSons)
      ensures Ready()
    {
      this.node := node;
      this.pool := pool;
      resultsInParent := resultsQueue;
      resultsFromSons := new ResultQueue();
      evaluation := false;
      isFree := 0;
      futures := [];
      tasks := [];
      status := Created;
    }

    /** Reads the task's result once its completion permit is available:
        whatever `evaluation` holds, whether or not the task completed. */
    method GetValue() returns (r: bool)
      requires isFree > 0
      ensures r == evaluation
    {
      r := evaluation;
    }

    /** The corrected read: a cancelled task reports the interruption instead
        of the value its `evaluation` field happens to hold. */
    method GetOutcome() returns (r: Outcome)
      requires Finished()
      ensures r == Interrupted <==> status == Cancelled
      ensures r.Value? ==> r.value == Eval(node)
    {
      if status == Completed {
        r := Value(evaluation);
      } else {
        r := Interrupted;
      }
    }

    /** Runs the task: dispatches on the gate kind; on the normal path the
        policy has put one value and the completion permit is released; on
        interruption the children are cancelled and the permit released. */
    method Run(arrivals: seq<bool>, cancel: Cancellation)
      requires Ready() && WellFormed(node)
      requires multiset(arrivals) == multiset(ChildValues(node))
      modifies this, pool`submitted, resultsFromSons, resultsInParent
      ensures Finished()
      ensures status == Completed <==> !Hits(cancel, CallCount(node.kind, arrivals))
      ensures status == Completed ==>
        resultsInParent.items == old(resultsInParent.items) + [Eval(node)]
      ensures status == Cancelled ==>
        resultsInParent.items == old(resultsInParent.items) && AllCancelled()
      ensures node.kind.And? && status == Cancelled ==>
        cancel.k <= |arrivals| && evaluation == Conj(arrivals[..cancel.k])
    {
      assert |arrivals| == |multiset(arrivals)| == |ChildValues(node)|;
      if Streaming(node.kind) {
        StreamDecisionIsGateValue(node, arrivals);
      }
      var ok: bool;
      match node.kind {
        case If =>
          ghost var branches;
          ok, branches := EvaluateIf(cancel);
        case And =>
          ok := EvaluateAnd(arrivals, cancel);
        case Or =>
          ok := EvaluateOr(arrivals, cancel);
        case Not =>
          ok := EvaluateNot(arrivals, cancel);
        case Gt(k) =>
          ok := EvaluateGt(arrivals, cancel);
        case Leaf(_) =>
          ok := EvaluateSleepyLeaf(cancel);
      }
      if ok {
        isFree := isFree + 1;
        status := Completed;
      } else {
        HandleInterruption();
      }
    }

    /** Creates one child task per argument, in argument order, each bound to
        its argument and putting into this task's inbound queue. */
    method CreateTasksFromArgs()
      requires tasks == []
      modifies this`tasks
      ensures |tasks| == |node.args|
      ensures forall i :: 0 <= i < |tasks| ==>
        && fresh(tasks[i])
        && tasks[i].node == node.args[i]
        && tasks[i].pool == pool
        && tasks[i].resultsInParent == resultsFromSons
      ensures forall i, j :: 0 <= i < j < |tasks| ==> tasks[i] != tasks[j]
    {
      for i := 0 to |node.args|
        invariant |tasks| == i
        invariant forall j :: 0 <= j < i ==>
          && fresh(tasks[j])
          && tasks[j].node == node.args[j]
          && tasks[j].pool == pool
          && tasks[j].resultsInParent == resultsFromSons
        invariant forall j, l :: 0 <= j < l < i ==> tasks[j] != tasks[l]
      {
        var child := new ParallelCircuitValue(node.args[i], pool, resultsFromSons);
        tasks := tasks + [child];
      }
    }

    /** Submits every created task to the pool, recording one future per
        task, in task order. */
    method SubmitTasks()
      requires futures == []
      modifies this`futures, pool`submitted
      ensures |futures| == |tasks|
      ensures forall i :: 0 <= i < |tasks| ==> futures[i] == Future(tasks[i], false)
      ensures pool.submitted == old(pool.submitted) + tasks
    {
      for i := 0 to |tasks|
        invariant |futures| == i
        invariant forall j :: 0 <= j < i ==> futures[j] == Future(tasks[j], false)
        invariant pool.submitted == old(pool.submitted) + tasks[..i]
      {
        var f := pool.Submit(tasks[i]);
        futures := futures + [f];
        assert tasks[..i + 1] == tasks[..i] + [tasks[i]];
      }
    }

    /** Marks every recorded future cancelled. */
    method StopChildren()
      modifies this`futures
      ensures |futures| == |old(futures)|
      ensures forall i :: 0 <= i < |futures| ==>
        futures[i] == old(futures[i]).(cancelled := true)
    {
      for i := 0 to |futures|
        invariant |futures| == |old(futures)|
        invariant forall j :: 0 <= j < i ==> futures[j] == old(futures[j]).(cancelled := true)
        invariant forall j :: i <= j < |futures| ==> futures[j] == old(futures[j])
      {
        futures := futures[i := futures[i].(cancelled := true)];
      }
    }

    /** The interruption path: cancel the children, release the permit,
        deliver nothing. */
    method HandleInterruption()
      requires status == Created
      modifies this`futures, this`isFree, this`status
      ensures |futures| == |old(futures)| && AllCancelled()
      ensures forall i :: 0 <= i < |futures| ==> futures[i].task == old(futures[i]).task
      ensures isFree == old(isFree) + 1
      ensures status == Cancelled
    {
      StopChildren();
      isFree := isFree + 1;
      status := Cancelled;
    }

    /** Creates and submits the children, after which their results land in
        the inbound queue in the order `arrivals`. */
    method Spawn(arrivals: seq<bool>)
      requires tasks == [] && futures == [] && resultsFromSons.items == []
      requires |arrivals| == |node.args|
      modifies this`tasks, this`futures, pool`submitted, resultsFromSons
      ensures Spawned(old(pool.submitted))
      ensures forall i :: 0 <= i < |futures| ==> !futures[i].cancelled
      ensures resultsFromSons.items == arrivals
    {
      CreateTasksFromArgs();
      SubmitTasks();
      resultsFromSons.PutEach(arrivals);
    }

    /** `resultsInParent.put(evaluation)`, the policy's last interruptible
        call, numbered `call`. */
    method PutEvaluation(call: nat, cancel: Cancellation) returns (ok: bool)
      modifies resultsInParent
      ensures ok == (cancel != AtCall(call))
      ensures resultsInParent.items ==
        if ok then old(resultsInParent.items) + [evaluation] else old(resultsInParent.items)
    {
      if cancel == AtCall(call) {
        return false;
      }
      resultsInParent.Put(evaluation);
      ok := true;
    }

    /** AND: takes results until the first `false` or until all are taken,
        cancels the children, then puts the conjunction. */
    method EvaluateAnd(arrivals: seq<bool>, cancel: Cancellation) returns (ok: bool)
      requires node.kind == And && resultsFromSons != resultsInParent
      requires tasks == [] && futures == [] && resultsFromSons.items == []
      requires |arrivals| == |node.args|
      modifies this`tasks, this`futures, this`evaluation, pool`submitted, resultsFromSons, resultsInParent
      ensures Spawned(old(pool.submitted))
      ensures ok == !Hits(cancel, CallCount(node.kind, arrivals))
      ensures ok ==>
        var t := ShortCircuitTaken(arrivals, false);
        && evaluation == Conj(arrivals[..t]) == StreamDecision(node.kind, arrivals)
        && resultsFromSons.items == arrivals[t..]
        && resultsInParent.items == old(resultsInParent.items) + [evaluation]
        && AllCancelled()
      ensures !ok ==>
        && cancel.k <= |arrivals|
        && evaluation == Conj(arrivals[..cancel.k])
        && resultsFromSons.items == arrivals[cancel.k..]
        && resultsInParent.items == old(resultsInParent.items)
    {
      Spawn(arrivals);
      var calls := 0;
      evaluation := true;
      var subtreesEvaluated := 0;
      while evaluation && subtreesEvaluated < |node.args|
        invariant 0 <= subtreesEvaluated <= |arrivals|
        invariant evaluation ==> calls == subtreesEvaluated
        invariant !evaluation ==> calls == subtreesEvaluated + 1 <= |arrivals| && !arrivals[subtreesEvaluated]
        invariant forall j :: 0 <= j < subtreesEvaluated ==> arrivals[j]
        invariant evaluation == Conj(arrivals[..calls])
        invariant resultsFromSons.items == arrivals[calls..]
        invariant !Hits(cancel, calls)
        modifies this`evaluation, resultsFromSons
      {
        if cancel == AtCall(calls) {
          return false;
        }
        var b := resultsFromSons.Take();
        PrefixStep(arrivals, calls);
        calls := calls + 1;
        if !b {
          evaluation := false;
          break;
        }
        subtreesEvaluated := subtreesEvaluated + 1;
      }
      assert calls == ShortCircuitTaken(arrivals, false) by {
        if evaluation {
          assert false !in arrivals;
        }
      }
      StopChildren();
      ok := PutEvaluation(calls, cancel);
    }

    /** OR: takes results until the first `true` or until all are taken,
        cancels the children, then puts the disjunction. */
    method EvaluateOr(arrivals: seq<bool>, cancel: Cancellation) returns (ok: bool)
      requires node.kind == Or && resultsFromSons != resultsInParent
      requires tasks == [] && futures == [] && resultsFromSons.items == []
      requires |arrivals| == |node.args|
      modifies this`tasks, this`futures, this`evaluation, pool`submitted, resultsFromSons, resultsInParent
      ensures Spawned(old(pool.submitted))
      ensures ok == !Hits(cancel, CallCount(node.kind, arrivals))
      ensures ok ==>
        var t := ShortCircuitTaken(arrivals, true);
        && evaluation == Disj(arrivals[..t]) == StreamDecision(node.kind, arrivals)
        && resultsFromSons.items == arrivals[t..]
        && resultsInParent.items == old(resultsInParent.items) + [evaluation]
        && AllCancelled()
      ensures !ok ==>
        && cancel.k <= |arrivals|
        && evaluation == Disj(arrivals[..cancel.k])
        && resultsFromSons.items == arrivals[cancel.k..]
        && resultsInParent.items == old(resultsInParent.items)
    {
      Spawn(arrivals);
      var calls := 0;
      evaluation := false;
      var subtreesEvaluated := 0;
      while !evaluation && subtreesEvaluated < |node.args|
        invariant 0 <= subtreesEvaluated <= |arrivals|
        invariant !evaluation ==> calls == subtreesEvaluated
        invariant evaluation ==> calls == subtreesEvaluated + 1 <= |arrivals| && arrivals[subtreesEvaluated]
        invariant forall j :: 0 <= j < subtreesEvaluated ==> !arrivals[j]
        invariant evaluation == Disj(arrivals[..calls])
        invariant resultsFromSons.items == arrivals[calls..]
        invariant !Hits(cancel, calls)
        modifies this`evaluation, resultsFromSons
      {
        if cancel == AtCall(calls) {
          return false;
        }
        var b := resultsFromSons.Take();
        PrefixStep(arrivals, calls);
        calls := calls + 1;
        if b {
          evaluation := true;
          break;
        }
        subtreesEvaluated := subtreesEvaluated + 1;
      }
      assert calls == ShortCircuitTaken(arrivals, true) by {
        if !evaluation {
          assert true !in arrivals;
        }
      }
      StopChildren();
      ok := PutEvaluation(calls, cancel);
    }

    /** GT(k): counts `true` results until the count exceeds k or all are
        taken, cancels the children, then puts `count > k`. */
    method EvaluateGt(arrivals: seq<bool>, cancel: Cancellation) returns (ok: bool)
      requires node.kind.Gt? && resultsFromSons != resultsInParent
      requires tasks == [] && futures == [] && resultsFromSons.items == []
      requires |arrivals| == |node.args|
      modifies this`tasks, this`futures, this`evaluation, pool`submitted, resultsFromSons, resultsInParent
      ensures Spawned(old(pool.submitted))
      ensures ok == !Hits(cancel, CallCount(node.kind, arrivals))
      ensures ok ==>
        var t := GtTaken(arrivals, node.kind.threshold);
        && evaluation == (CountTrue(arrivals[..t]) > node.kind.threshold) == StreamDecision(node.kind, arrivals)
        && resultsFromSons.items == arrivals[t..]
        && resultsInParent.items == old(resultsInParent.items) + [evaluation]
        && AllCancelled()
      ensures !ok ==>
        && cancel.k <= GtTaken(arrivals, node.kind.threshold)
        && resultsFromSons.items == arrivals[cancel.k..]
        && resultsInParent.items == old(resultsInParent.items)
        && (cancel.k < GtTaken(arrivals, node.kind.threshold) ==> evaluation == old(evaluation))
    {
      Spawn(arrivals);
      ghost var t := GtTaken(arrivals, node.kind.threshold);
      var gotTrue := 0;
      var threshold := node.kind.threshold;
      var subtreesEvaluated := 0;
      while gotTrue <= threshold && subtreesEvaluated < |node.args|
        invariant gotTrue <= subtreesEvaluated <= |arrivals|
        invariant threshold >= 0 ==> gotTrue <= threshold + 1
        invariant subtreesEvaluated <= t
        invariant gotTrue == CountTrue(arrivals[..subtreesEvaluated])
        invariant resultsFromSons.items == arrivals[subtreesEvaluated..]
        invariant !Hits(cancel, subtreesEvaluated)
        modifies resultsFromSons
      {
        if cancel == AtCall(subtreesEvaluated) {
          return false;
        }
        var b := resultsFromSons.Take();
        PrefixStep(arrivals, subtreesEvaluated);
        if b {
          gotTrue := gotTrue + 1;
        }
        subtreesEvaluated := subtreesEvaluated + 1;
      }
      StopChildren();
      evaluation := gotTrue > threshold;
      ok := PutEvaluation(subtreesEvaluated, cancel);
    }

    /** NOT: takes its single child's result and puts its negation. */
    method EvaluateNot(arrivals: seq<bool>, cancel: Cancellation) returns (ok: bool)
      requires node.kind == Not && WellFormed(node) && resultsFromSons != resultsInParent
      requires tasks == [] && futures == [] && resultsFromSons.items == []
      requires multiset(arrivals) == multiset(ChildValues(node))
      modifies this`tasks, this`futures, this`evaluation, pool`submitted, resultsFromSons, resultsInParent
      ensures Spawned(old(pool.submitted))
      ensures forall i :: 0 <= i < |futures| ==> !futures[i].cancelled
      ensures ok == !Hits(cancel, 2)
      ensures ok ==>
        && evaluation == !Eval(node.args[0]) == Eval(node)
        && resultsInParent.items == old(resultsInParent.items) + [evaluation]
      ensures !ok ==>
        && resultsInParent.items == old(resultsInParent.items)
        && (cancel.k == 0 ==> evaluation == old(evaluation))
        && (cancel.k == 1 ==> evaluation == Eval(node))
    {
      assert |arrivals| == |multiset(arrivals)| == |ChildValues(node)| == 1;
      assert arrivals[0] == Eval(node.args[0]) by {
        assert arrivals == [arrivals[0]] && ChildValues(node) == [Eval(node.args[0])];
        assert arrivals[0] in multiset{Eval(node.args[0])};
      }
      Spawn(arrivals);
      if cancel == AtCall(0) {
        return false;
      }
      var b := resultsFromSons.Take();
      evaluation := !b;
      if cancel == AtCall(1) {
        return false;
      }
      resultsInParent.Put(evaluation);
      ok := true;
    }

    /** IF: submits condition, then- and else-branch at once, each with its
        own result queue; once the condition is known it cancels the branch
        not needed, waits for the other and puts that branch's result. The
        three futures stay local and are not added to `futures`. */
    method EvaluateIf(cancel: Cancellation) returns (ok: bool, ghost branches: seq<Future>)
      requires node.kind == If && WellFormed(node)
      modifies this`evaluation, pool`submitted, resultsInParent
      ensures |branches| == 3
      ensures forall i :: 0 <= i < 3 ==>
        fresh(branches[i].task) && branches[i].task.node == node.args[i] &&
        fresh(branches[i].task.resultsInParent)
      ensures pool.submitted ==
        old(pool.submitted) + [branches[0].task, branches[1].task, branches[2].task]
      ensures !branches[0].cancelled
      ensures !Hits(cancel, 2) ==>
        && (branches[1].cancelled <==> !Eval(node.args[0]))
        && (branches[2].cancelled <==> Eval(node.args[0]))
      ensures Hits(cancel, 2) ==> !branches[1].cancelled && !branches[2].cancelled
      ensures ok == !Hits(cancel, 5)
      ensures ok ==>
        && evaluation == Eval(node)
        && resultsInParent.items == old(resultsInParent.items) + [evaluation]
      ensures !ok ==>
        && resultsInParent.items == old(resultsInParent.items)
        && (cancel.k < 4 ==> evaluation == old(evaluation))
        && (cancel.k == 4 ==> evaluation == Eval(node))
    {
      var fA, resultA := SpawnBranch(node.args[0]);
      var fB, resultB := SpawnBranch(node.args[1]);
      var fC, resultC := SpawnBranch(node.args[2]);
      branches := [fA, fB, fC];

      var got, condition := AwaitBranch(resultA, Eval(node.args[0]), cancel, 0);
      if !got {
        return false, branches;
      }
      var value: bool;
      if condition {
        fC := fC.(cancelled := true);
        got, value := AwaitBranch(resultB, Eval(node.args[1]), cancel, 2);
      } else {
        fB := fB.(cancelled := true);
        got, value := AwaitBranch(resultC, Eval(node.args[2]), cancel, 2);
      }
      branches := [fA, fB, fC];
      if !got {
        return false, branches;
      }
      evaluation := value;
      if cancel == AtCall(4) {
        return false, branches;
      }
      resultsInParent.Put(evaluation);
      ok := true;
    }

    /** Creates a task for one IF argument with a fresh result queue of its
        own and submits it. */
    method SpawnBranch(arg: Node) returns (f: Future, result: ResultQueue)
      modifies pool`submitted
      ensures fresh(f.task) && fresh(result) && !f.cancelled
      ensures f.task.node == arg && f.task.resultsInParent == result
      ensures result.items == []
      ensures pool.submitted == old(pool.submitted) + [f.task]
    {
      result := new ResultQueue();
      var task := new ParallelCircuitValue(arg, pool, result);
      f := pool.Submit(task);
    }

    /** `f.get()` then `result.take()` on an IF branch: the get returns once
        the branch's task has put its `value`; both calls are interruptible,
        as calls `first` and `first + 1`. */
    method AwaitBranch(result: ResultQueue, value: bool, cancel: Cancellation, first: nat)
      returns (ok: bool, b: bool)
      requires result.items == []
      modifies result
      ensures ok == !(cancel == AtCall(first) || cancel == AtCall(first + 1))
      ensures ok ==> b == value
    {
      if cancel == AtCall(first) {
        return false, false;
      }
      result.Put(value);
      if cancel == AtCall(first + 1) {
        return false, false;
      }
      b := result.Take();
      ok := true;
    }

    /** LEAF: reads the leaf's value (a slow, interruptible call) and puts it. */
    method EvaluateSleepyLeaf(cancel: Cancellation) returns (ok: bool)
      requires node.kind.Leaf?
      modifies this`evaluation, resultsInParent
      ensures ok == !Hits(cancel, 2)
      ensures ok ==>
        && evaluation == node.kind.value
        && resultsInParent.items == old(resultsInParent.items) + [evaluation]
      ensures !ok ==>
        && resultsInParent.items == old(resultsInParent.items)
        && (cancel.k == 0 ==> evaluation == old(evaluation))
        && (cancel.k == 1 ==> evaluation == node.kind.value)
    {
      if cancel == AtCall(0) {
        return false;
      }
      evaluation := node.kind.value;
      if cancel == AtCall(1) {
        return false;
      }
      resultsInParent.Put(evaluation);
      ok := true;
    }
  }

  /** The stale read: the root AND of StaleWitness is interrupted at its first
      take, after it has set `evaluation` to true; GetValue then returns true
      although the circuit's value is false, while GetOutcome reports the
      interruption. */
  method StaleReadAfterInterrupt() returns (read: bool, outcome: Outcome)
    ensures !Eval(StaleWitness)
    ensures read
    ensures outcome == Interrupted
  {
    var pool := new Pool();
    var rootQueue := new ResultQueue();
    var root := new ParallelCircuitValue(StaleWitness, pool, rootQueue);
    assert ChildValues(StaleWitness) == [false];
    root.Run([false], AtCall(0));
    read := root.GetValue();
    outcome := root.GetOutcome();
  }
}
