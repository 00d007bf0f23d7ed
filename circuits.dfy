/** The circuit tree handed to the evaluator, its logical meaning, and the
    facts about conjunction, disjunction and counting that make a gate's
    value independent of the order in which its children's results arrive. */
module Circuits {

  /** A gate kind; threshold gates carry their threshold and a leaf carries
      the value its (slow) value source eventually returns. */
  datatype GateKind = Leaf(value: bool) | Not | And | Or | Gt(threshold: int) | Lt(threshold: int) | If

  /** An immutable circuit node: its kind and its ordered arguments. */
  datatype Node = Node(kind: GateKind, args: seq<Node>)

  /** A circuit is given by its root node. */
  datatype Circuit = Circuit(root: Node)

  /** What reading a result handle yields: a boolean, or the
      interruption-kind failure. */
  datatype Outcome = Value(value: bool) | Interrupted

  /** The arities the evaluator relies on: a leaf has no arguments, NOT one,
      IF three (condition, then, else); AND, OR and GT any number.
      LT gates are outside this model. */
  predicate WellFormed(n: Node)
    decreases n
  {
    && (match n.kind
        case Leaf(_) => |n.args| == 0
        case Not => |n.args| == 1
        case If => |n.args| == 3
        case And => true
        case Or => true
        case Gt(_) => true
        case Lt(_) => false)
    && forall i :: 0 <= i < |n.args| ==> WellFormed(n.args[i])
  }

  /** The logical value of a well-formed tree: the reference the
      concurrent evaluation is compared against. */
  function Eval(n: Node): bool
    requires WellFormed(n)
    decreases n, 1
  {
    match n.kind
    case Leaf(v) => v
    case Not => !Eval(n.args[0])
    case And => Conj(ChildValues(n))
    case Or => Disj(ChildValues(n))
    case Gt(k) => CountTrue(ChildValues(n)) > k
    case If => if Eval(n.args[0]) then Eval(n.args[1]) else Eval(n.args[2])
  }

  /** The values of a node's arguments, in argument order. */
  function ChildValues(n: Node): seq<bool>
    requires WellFormed(n)
    decreases n, 0
  {
    seq(|n.args|, i requires 0 <= i < |n.args| => Eval(n.args[i]))
  }

  /** Conjunction of a sequence of booleans. */
  function Conj(s: seq<bool>): bool
  {
    s == [] || (s[0] && Conj(s[1..]))
  }

  /** Disjunction of a sequence of booleans. */
  function Disj(s: seq<bool>): bool
  {
    s != [] && (s[0] || Disj(s[1..]))
  }

  /** Number of `true` entries of a sequence. */
  function CountTrue(s: seq<bool>): (c: nat)
    ensures c <= |s|
  {
    if s == [] then 0 else (if s[0] then 1 else 0) + CountTrue(s[1..])
  }

  lemma {:induction false} ConjAppend(a: seq<bool>, b: seq<bool>)
    ensures Conj(a + b) == (Conj(a) && Conj(b))
  {
    if a == [] {
      assert a + b == b;
    } else {
      assert (a + b)[1..] == a[1..] + b;
      ConjAppend(a[1..], b);
    }
  }

  lemma {:induction false} DisjAppend(a: seq<bool>, b: seq<bool>)
    ensures Disj(a + b) == (Disj(a) || Disj(b))
  {
    if a == [] {
      assert a + b == b;
    } else {
      assert (a + b)[1..] == a[1..] + b;
      DisjAppend(a[1..], b);
    }
  }

  lemma {:induction false} CountTrueAppend(a: seq<bool>, b: seq<bool>)
    ensures CountTrue(a + b) == CountTrue(a) + CountTrue(b)
  {
    if a == [] {
      assert a + b == b;
    } else {
      assert (a + b)[1..] == a[1..] + b;
      CountTrueAppend(a[1..], b);
    }
  }

  /** Extending a consumed prefix by one more result. */
  lemma PrefixStep(s: seq<bool>, i: nat)
    requires i < |s|
    ensures Conj(s[..i + 1]) == (Conj(s[..i]) && s[i])
    ensures Disj(s[..i + 1]) == (Disj(s[..i]) || s[i])
    ensures CountTrue(s[..i + 1]) == CountTrue(s[..i]) + (if s[i] then 1 else 0)
  {
    assert s[..i + 1] == s[..i] + [s[i]];
    ConjAppend(s[..i], [s[i]]);
    DisjAppend(s[..i], [s[i]]);
    CountTrueAppend(s[..i], [s[i]]);
  }

  /** The count of `true` entries is the multiplicity of `true` in the
      sequence's multiset, so it ignores order. */
  lemma {:induction false} CountTrueIsMultiplicity(s: seq<bool>)
    ensures CountTrue(s) == multiset(s)[true]
  {
    if s != [] {
      assert s == [s[0]] + s[1..];
      assert multiset(s) == multiset{s[0]} + multiset(s[1..]);
      CountTrueIsMultiplicity(s[1..]);
    }
  }

  /** A conjunction holds exactly when every entry is true. */
  lemma {:induction false} ConjIsAllTrue(s: seq<bool>)
    ensures Conj(s) <==> CountTrue(s) == |s|
  {
    if s != [] {
      ConjIsAllTrue(s[1..]);
    }
  }

  /** A disjunction holds exactly when some entry is true. */
  lemma {:induction false} DisjIsSomeTrue(s: seq<bool>)
    ensures Disj(s) <==> CountTrue(s) > 0
  {
    if s != [] {
      DisjIsSomeTrue(s[1..]);
    }
  }

  /** Logical determinism: two arrival orders of the same results give the
      same conjunction, disjunction and count of `true`. */
  lemma PermutationInvariant(a: seq<bool>, b: seq<bool>)
    requires multiset(a) == multiset(b)
    ensures Conj(a) == Conj(b)
    ensures Disj(a) == Disj(b)
    ensures CountTrue(a) == CountTrue(b)
  {
    assert |a| == |multiset(a)| == |multiset(b)| == |b|;
    CountTrueIsMultiplicity(a);
    CountTrueIsMultiplicity(b);
    ConjIsAllTrue(a);
    ConjIsAllTrue(b);
    DisjIsSomeTrue(a);
    DisjIsSomeTrue(b);
  }
}
