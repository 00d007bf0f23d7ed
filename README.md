# Concurrent gate solver — a Dafny model

The modelled system evaluates boolean circuits in parallel. A circuit is a tree of
gates: leaves, NOT, AND, OR, IF (condition, then, else), and threshold gates GT(k),
which are true when more than k arguments are true. Every node gets a task
(`ParallelCircuitValue`) on a shared thread pool. Each gate kind has its own policy:

- AND, OR and GT(k) spawn one child task per argument, all putting into the
  task's own inbound queue, and take results in arrival order. AND stops at
  the first `false` and OR at the first `true`. GT(k) stops only once more
  than k results are `true` or all are taken, even when its value is already
  known to be `false`. The task then cancels every child and puts its value.
- NOT spawns its single child, takes its result and puts the negation. It
  cancels nothing.
- IF spawns its three arguments, each with a queue of its own. Once the
  condition is known it cancels the branch not chosen, waits for the other
  and puts that branch's value.
- A leaf reads its value and puts it.

On the normal path the task then releases a completion permit. When its
thread is interrupted it cancels its recorded children and releases the
permit without putting anything. The solver front end (`ParallelCircuitSolver`)
hands out such root tasks until it is stopped. After that it hands out a
dead handle (`StoppedCircuitValue`) whose read always fails.

The model has five modules:

- `Circuits` (circuits.dfy): the node tree, its logical value `Eval`, and the
  sequence facts behind order independence. Conjunction, disjunction and the
  count of `true` depend only on the multiset of values.
- `GatePolicies` (gate_policies.dfy): the streaming policies as pure functions
  of an arrival order. They give how many results AND, OR and GT(k) take, and
  the decision each takes on that prefix. They are proved equal to the gate's
  value for every arrival order.
- `Evaluation` (evaluation.dfy): the task as a class with the fields the source
  updates in place (`evaluation`, `tasks`, `futures`, the permit counter
  `isFree`), with one method per gate policy and the bookkeeping methods. The
  pool and the queues are small classes.
- `StoppedCircuitValue` (stopped_circuit_value.dfy): the dead handle's read.
- `Solver` (solver.dfy): the solver as a class with its `stopped` flag and a
  ghost record of the roots it submitted.

Three inputs of a run are parameters rather than behaviour:

- **Scheduling.** The order in which the children's results reach a task's
  inbound queue is the input `arrivals`. It must be a permutation of the
  children's logical values. A child that completes puts exactly its node's
  logical value, and `Run` proves that of every task.
- **Interruption.** The point at which a task's thread is interrupted is the
  input `Cancellation`: never, or at its k-th interruptible call. Those calls
  are the leaf read and the blocking take, put and get, numbered from 0.
- **Leaf values.** A leaf's value is part of the node.

An IF task keeps the three futures of its condition and branches in local
variables. They are never added to `futures`, so interrupting an IF task cancels
none of them. The model keeps this as it is.

## Model

| member | source | states |
|---|---|---|
| Circuits.PermutationInvariant | concurrentGateSolver/src/cp2024/solution/ParallelCircuitValue.java:93-99 | two arrival orders of the same results give the same conjunction, disjunction and number of `true` results |
| GatePolicies.ShortCircuitTaken | concurrentGateSolver/src/cp2024/solution/ParallelCircuitValue.java:93-99 | AND (OR) takes at most N results. It takes none after the first `false` (`true`) and takes all N when there is none. |
| GatePolicies.GtTaken | concurrentGateSolver/src/cp2024/solution/ParallelCircuitValue.java:169-174 | GT(k) takes at most N results. Every prefix before its stop holds at most k `true`. It stops early only once more than k are `true`. For k >= 0 the count taken never exceeds k+1. |
| GatePolicies.AndPolicyDecides | concurrentGateSolver/src/cp2024/solution/ParallelCircuitValue.java:91-101 | for any arrival order, the conjunction of the prefix AND takes equals the conjunction of all the children's values |
| GatePolicies.OrPolicyDecides | concurrentGateSolver/src/cp2024/solution/ParallelCircuitValue.java:109-119 | for any arrival order, the disjunction of the prefix OR takes equals the disjunction of all the children's values |
| GatePolicies.GtPolicyDecides | concurrentGateSolver/src/cp2024/solution/ParallelCircuitValue.java:165-177 | for any arrival order, `count of true taken > k` equals `count of true children > k` |
| GatePolicies.StreamDecisionIsGateValue | concurrentGateSolver/src/cp2024/solution/ParallelCircuitValue.java:87-178 | for every permutation of its children's values, the decision of an AND, OR or GT gate is the gate's logical value |
| Evaluation.ParallelCircuitValue.constructor | concurrentGateSolver/src/cp2024/solution/ParallelCircuitValue.java:24-28 | a new task is bound to its node, pool and parent queue. Its own inbound queue is fresh and empty. It has no children and no permit. |
| Evaluation.ParallelCircuitValue.GetValue | concurrentGateSolver/src/cp2024/solution/ParallelCircuitValue.java:32-37 | once a permit is available, the read returns the `evaluation` field as it stands, whether or not the run completed |
| Evaluation.ParallelCircuitValue.GetOutcome | concurrentGateSolver/src/cp2024/solution/ParallelCircuitValue.java:32-36 | corrected read: it fails exactly when the run was interrupted, and any value it returns is the node's logical value |
| Evaluation.ParallelCircuitValue.Run | concurrentGateSolver/src/cp2024/solution/ParallelCircuitValue.java:40-57 | releases exactly one permit. It completes exactly when the interruption falls after all of the policy's interruptible calls, and then puts exactly the node's logical value into the parent queue. When interrupted it puts nothing and cancels every recorded future. An interrupted AND keeps the conjunction of the results taken so far. |
| Evaluation.ParallelCircuitValue.CreateTasksFromArgs | concurrentGateSolver/src/cp2024/solution/ParallelCircuitValue.java:60-64 | creates one fresh, distinct task per argument, in argument order. Each is bound to its argument and the shared pool, and each puts into this task's inbound queue. |
| Evaluation.ParallelCircuitValue.SubmitTasks | concurrentGateSolver/src/cp2024/solution/ParallelCircuitValue.java:67-71 | submits every task once, in order, and records exactly one uncancelled future per task |
| Evaluation.ParallelCircuitValue.StopChildren | concurrentGateSolver/src/cp2024/solution/ParallelCircuitValue.java:80-84 | every recorded future becomes cancelled; nothing else about the futures changes |
| Evaluation.ParallelCircuitValue.HandleInterruption | concurrentGateSolver/src/cp2024/solution/ParallelCircuitValue.java:74-77 | cancels every recorded future and releases one permit |
| Evaluation.ParallelCircuitValue.Spawn | concurrentGateSolver/src/cp2024/solution/ParallelCircuitValue.java:88-89 | one task and one future per argument, submitted in argument order, none cancelled. The children's results then sit in the inbound queue in arrival order. |
| Evaluation.ParallelCircuitValue.EvaluateAnd | concurrentGateSolver/src/cp2024/solution/ParallelCircuitValue.java:87-102 | takes exactly the ShortCircuitTaken prefix, decides its conjunction, cancels all futures and puts the decision. If interrupted at the k-th take it puts nothing and holds the conjunction of the first k results. |
| Evaluation.ParallelCircuitValue.EvaluateOr | concurrentGateSolver/src/cp2024/solution/ParallelCircuitValue.java:105-120 | takes exactly the ShortCircuitTaken prefix, decides its disjunction, cancels all futures and puts the decision. If interrupted at the k-th take it puts nothing and holds the disjunction of the first k results. |
| Evaluation.ParallelCircuitValue.EvaluateGt | concurrentGateSolver/src/cp2024/solution/ParallelCircuitValue.java:161-178 | takes exactly the GtTaken prefix, keeping `gotTrue <= subtreesEvaluated <= N` and `gotTrue <= k+1`. It decides `gotTrue > k`, cancels all futures and puts the decision. |
| Evaluation.ParallelCircuitValue.EvaluateNot | concurrentGateSolver/src/cp2024/solution/ParallelCircuitValue.java:123-129 | puts the negation of its single child's value and cancels nothing |
| Evaluation.ParallelCircuitValue.EvaluateIf | concurrentGateSolver/src/cp2024/solution/ParallelCircuitValue.java:132-152 | submits three fresh tasks, each on a fresh queue of its own, and never cancels the condition. Once the condition is known it cancels exactly the branch not chosen, and it puts the chosen branch's value, which is the IF node's logical value. |
| Evaluation.ParallelCircuitValue.SpawnBranch | concurrentGateSolver/src/cp2024/solution/ParallelCircuitValue.java:137-139 | one fresh task bound to the argument and to a fresh empty queue, submitted once, with an uncancelled future |
| Evaluation.ParallelCircuitValue.AwaitBranch | concurrentGateSolver/src/cp2024/solution/ParallelCircuitValue.java:141-145 | the get and then the take on a branch both succeed unless interrupted, and yield the value that branch put |
| Evaluation.ParallelCircuitValue.EvaluateSleepyLeaf | concurrentGateSolver/src/cp2024/solution/ParallelCircuitValue.java:155-158 | puts the leaf's value unchanged |
| Evaluation.StaleReadAfterInterrupt | concurrentGateSolver/src/cp2024/solution/ParallelCircuitValue.java:91-94 | an AND over one `false` leaf, interrupted at its first take, reads as `true` through GetValue although its value is `false`. GetOutcome reports the interruption. |
| StoppedCircuitValue.GetValue | concurrentGateSolver/src/cp2024/solution/StoppedCircuitValue.java:8-10 | the dead handle's read never yields a boolean; it is always the interruption failure |
| Solver.ParallelCircuitSolver.constructor | concurrentGateSolver/src/cp2024/solution/ParallelCircuitSolver.java:14-17 | a new solver is not stopped, has a fresh pool with nothing submitted, and has submitted no roots |
| Solver.ParallelCircuitSolver.Solve | concurrentGateSolver/src/cp2024/solution/ParallelCircuitSolver.java:20-30 | a stopped solver returns the dead handle and submits nothing. Otherwise it submits exactly one fresh root task, bound to the circuit's root and to a fresh empty queue, and returns it. It never changes `stopped`. |
| Solver.ParallelCircuitSolver.Stop | concurrentGateSolver/src/cp2024/solution/ParallelCircuitSolver.java:33-36 | afterwards the solver is stopped and the pool shut down. A second call changes nothing, so `stopped` never returns to false. |
| Solver.AwaitAsWritten | concurrentGateSolver/src/cp2024/solution/StoppedCircuitValue.java:8-10 | reading a handle as the source does: the dead handle always fails, and a live root task with an available permit yields its `evaluation` field as it stands, also after an interrupted run |
| Solver.Await | concurrentGateSolver/src/cp2024/solution/ParallelCircuitValue.java:32-36 | corrected handle read: the dead handle always fails. A finished root task read through GetOutcome fails exactly when it was interrupted, and otherwise yields the circuit's value. |
| Solver.SolveAndAwait | concurrentGateSolver/src/cp2024/solution/ParallelCircuitSolver.java:20-30 | solving, running the root and reading it through the corrected read: a running solver yields the circuit's value unless the interruption hit the root, a stopped one yields the failure. The solver stays consistent: still stopped exactly when the pool is shut down. |

## Left out

- Malformed nodes: `WellFormed` requires a leaf to have no arguments, NOT one and IF three. The source does not check arities. A NOT with two arguments negates whichever result arrives first. A NOT with none blocks forever on its take. An IF with fewer than three arguments throws an index exception at lines 137-139 of ParallelCircuitValue.java, which `run` does not catch, so its permit is never released. None of these behaviours is modelled.
- LT gates: `run` dispatches them to an evaluation method whose body is not part of this model. `WellFormed` excludes them.
- The `default` branch of `run`, which throws on an unknown gate type. The gate kind is a closed datatype, so it cannot happen.
- Thread scheduling: a child's own run is not executed inside its parent's run. Its result reaches the parent as an entry of `arrivals`, and `Run`'s contract is what justifies that entry's value.
- The children's puts are modelled as one step that fills the inbound queue before the parent's first take. With blocking left out, interleaving the puts with the takes changes nothing that the parent observes.
- Blocking: the semaphore is a permit counter and the queues are sequences. A take is only made when a result is present.
- `Future.cancel(true)` is modelled as marking the future cancelled. What it does to the child's thread, and `shutdownNow`'s effect on running tasks, belong to the executor.
- The pool refusing tasks after `shutdownNow` (RejectedExecutionException) is not modelled.
- Evaluation.ParallelCircuitValue.GetValue: requires an available permit instead of blocking until one is released. Its acquire and release leave the permit count unchanged, so it modifies nothing.
- Evaluation.ParallelCircuitValue.EvaluateIf: the ExecutionException a branch's `get` can throw is not modelled. A branch task here always completes normally before its `get` returns.
- Visibility of the non-volatile `stopped` field between threads is a memory-model concern and is not modelled.
- The leaf's slow value source and the node classes of the circuit library are not part of this model. A node's kind, arguments, threshold and leaf value are given.

## Findings

| source | as written | input that shows it | evidently intended | confidence | as-written member | corrected member |
|---|---|---|---|---|---|---|
| concurrentGateSolver/src/cp2024/solution/ParallelCircuitValue.java:32-36 | after an interrupted run the permit is released anyway, and `getValue` returns whatever `evaluation` holds at that moment | an AND over one `false` leaf, interrupted at its first take: `evaluation` is still the `true` it was initialised to, so `getValue` returns `true` for a circuit whose value is `false` | an interrupted computation's read fails, as the stopped handle's does, instead of yielding a value | medium, not executed | Evaluation.StaleReadAfterInterrupt | Evaluation.ParallelCircuitValue.GetOutcome, Solver.Await |
