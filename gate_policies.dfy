/** The streaming decision policies of the AND, OR and GT gates, as pure
    functions of the order in which the children's results arrive: how many
    results each policy takes before it decides, and why the decision taken
    on that prefix is the gate's logical value for every arrival order. */
module GatePolicies {
  import opened Circuits

  /** When a task's thread is interrupted: never, or at its k-th
      interruptible call (0-based), the blocking take, put, get or leaf read
      that then throws InterruptedException. */
  datatype Cancellation = Never | AtCall(k: nat)

  /** The cancellation lands within a task's first `calls` interruptible calls. */
  predicate Hits(c: Cancellation, calls: nat)
  {
    c.AtCall? && c.k < calls
  }

  /** Number of results a short-circuiting gate takes from the front of the
      arrivals before deciding: AND stops on a `false`, OR on a `true`
      (the `decisive` value). It is one past the first decisive result, or
      all of them when none is decisive. */
  function ShortCircuitTaken(s: seq<bool>, decisive: bool): (t: nat)
    ensures t <= |s|
    ensures forall j :: 0 <= j < t - 1 ==> s[j] != decisive
    ensures decisive in s ==> 0 < t && s[t - 1] == decisive
    ensures decisive !in s ==> t == |s|
  {
    if s == [] then 0
    else if s[0] == decisive then 1
    else 1 + ShortCircuitTaken(s[1..], decisive)
  }

  /** Number of results the GT(k) gate takes: it stops once more than k of
      the taken results are `true`, or when all have been taken. */
  function GtTaken(s: seq<bool>, k: int): (t: nat)
    ensures t <= |s|
    ensures forall j :: 0 <= j < t ==> CountTrue(s[..j]) <= k
    ensures t < |s| ==> CountTrue(s[..t]) > k
    ensures k >= 0 ==> CountTrue(s[..t]) <= k + 1
    decreases |s|
  {
    if k < 0 || s == [] then 0
    else
      var t := 1 + GtTaken(s[1..], if s[0] then k - 1 else k);
      GtTakenStep(s, k, t - 1);
      t
  }

  /** How a GT prefix of `s` relates to the corresponding prefix of `s[1..]`. */
  lemma GtTakenStep(s: seq<bool>, k: int, t: nat)
    requires k >= 0 && s != [] && t <= |s| - 1
    requires var k' := if s[0] then k - 1 else k;
      && (forall j :: 0 <= j < t ==> CountTrue(s[1..][..j]) <= k')
      && (t < |s| - 1 ==> CountTrue(s[1..][..t]) > k')
      && (k' >= 0 ==> CountTrue(s[1..][..t]) <= k' + 1)
      && (k' < 0 ==> t == 0)
    ensures forall j :: 0 <= j < t + 1 ==> CountTrue(s[..j]) <= k
    ensures t + 1 < |s| ==> CountTrue(s[..t + 1]) > k
    ensures CountTrue(s[..t + 1]) <= k + 1
  {
    var b := if s[0] then 1 else 0;
    forall j | 0 <= j <= t + 1
      ensures j > 0 ==> CountTrue(s[..j]) == b + CountTrue(s[1..][..j - 1])
    {
      if j > 0 {
        assert s[..j] == [s[0]] + s[1..][..j - 1];
        CountTrueAppend([s[0]], s[1..][..j - 1]);
      }
    }
  }

  /** AND decides on the prefix it took exactly what it would decide on all
      results, and the decision is the conjunction of the children's values
      whatever their arrival order. */
  lemma AndPolicyDecides(arrivals: seq<bool>, values: seq<bool>)
    requires multiset(arrivals) == multiset(values)
    ensures Conj(arrivals[..ShortCircuitTaken(arrivals, false)]) == Conj(values)
  {
    var t := ShortCircuitTaken(arrivals, false);
    ConjAppend(arrivals[..t], arrivals[t..]);
    assert arrivals == arrivals[..t] + arrivals[t..];
    if false in arrivals {
      ConjAppend(arrivals[..t - 1], [false]);
      assert arrivals[..t] == arrivals[..t - 1] + [false];
    }
    PermutationInvariant(arrivals, values);
  }

  /** OR's counterpart of AndPolicyDecides: the decision is the disjunction
      of the children's values whatever their arrival order. */
  lemma OrPolicyDecides(arrivals: seq<bool>, values: seq<bool>)
    requires multiset(arrivals) == multiset(values)
    ensures Disj(arrivals[..ShortCircuitTaken(arrivals, true)]) == Disj(values)
  {
    var t := ShortCircuitTaken(arrivals, true);
    DisjAppend(arrivals[..t], arrivals[t..]);
    assert arrivals == arrivals[..t] + arrivals[t..];
    if true in arrivals {
      DisjAppend(arrivals[..t - 1], [true]);
      assert arrivals[..t] == arrivals[..t - 1] + [true];
    }
    PermutationInvariant(arrivals, values);
  }

  /** GT's decision on the prefix it took is `count of true children > k`,
      whatever the arrival order. */
  lemma GtPolicyDecides(arrivals: seq<bool>, values: seq<bool>, k: int)
    requires multiset(arrivals) == multiset(values)
    ensures (CountTrue(arrivals[..GtTaken(arrivals, k)]) > k) == (CountTrue(values) > k)
  {
    var t := GtTaken(arrivals, k);
    CountTrueAppend(arrivals[..t], arrivals[t..]);
    assert arrivals == arrivals[..t] + arrivals[t..];
    PermutationInvariant(arrivals, values);
  }

  /** The gates that stream their children's results through one queue. */
  predicate Streaming(kind: GateKind)
  {
    kind.And? || kind.Or? || kind.Gt?
  }

  /** What a streaming gate decides from the results it took. */
  function StreamDecision(kind: GateKind, arrivals: seq<bool>): bool
    requires Streaming(kind)
  {
    match kind
    case And => Conj(arrivals[..ShortCircuitTaken(arrivals, false)])
    case Or => Disj(arrivals[..ShortCircuitTaken(arrivals, true)])
    case Gt(k) => CountTrue(arrivals[..GtTaken(arrivals, k)]) > k
  }

  /** Logical determinism of the streaming gates: for every arrival order of
      the children's values, the decision taken on the consumed prefix is
      the gate's logical value. */
  lemma StreamDecisionIsGateValue(n: Node, arrivals: seq<bool>)
    requires WellFormed(n) && Streaming(n.kind)
    requires multiset(arrivals) == multiset(ChildValues(n))
    ensures StreamDecision(n.kind, arrivals) == Eval(n)
  {
    match n.kind
    case And => AndPolicyDecides(arrivals, ChildValues(n));
    case Or => OrPolicyDecides(arrivals, ChildValues(n));
    case Gt(k) => GtPolicyDecides(arrivals, ChildValues(n), k);
  }
}
