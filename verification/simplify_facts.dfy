/**
 * What simplify guarantees: it is idempotent, so simplifying an already
 * simplified tree in place (as derivative does to the subtrees it shares with
 * its input) changes nothing; and, under the conditions its rules silently
 * assume, it keeps the value of the tree.
 */
module SimplifyFacts {
  import opened Wrappers
  import opened Chars
  import opened Numeric
  import opened Rpn
  import opened Tree
  import opened RpnTree
  import opened Simplification

  /* ---------------- the rules ---------------- */

  /** A node with a non-number child does not fold. */
  lemma NoFold(x: Node, z: Node)
    requires !x.val.Number?
    ensures !AllNumbers([x, z]) && !AllNumbers([z, x])
  {
    assert [x, z][0] == x && [z, x][1] == x;
  }

  /** `x+0` and `0+x` give `x`, for a child `x` that is not a number (which would fold first). */
  lemma AddRules(m: MathLib, x: Node)
    requires Binary(x) && !x.val.Number?
    ensures SimplifyTopLevel(m, Node(Name("+"), [x, Leaf(Number(0.0))])) == x
    ensures SimplifyTopLevel(m, Node(Name("+"), [Leaf(Number(0.0)), x])) == x
  {
    NoFold(x, Leaf(Number(0.0)));
  }

  /** `x-0` gives `x` and `0-x` gives `(-1)*x`. */
  lemma SubRules(m: MathLib, x: Node)
    requires Binary(x) && !x.val.Number?
    ensures SimplifyTopLevel(m, Node(Name("-"), [x, Leaf(Number(0.0))])) == x
    ensures SimplifyTopLevel(m, Node(Name("-"), [Leaf(Number(0.0)), x])) == Node(Name("*"), [Leaf(Number(-1.0)), x])
  {
    NoFold(x, Leaf(Number(0.0)));
  }

  /** A zero factor gives 0. */
  lemma MulZeroRules(m: MathLib, x: Node)
    requires Binary(x) && !x.val.Number?
    ensures SimplifyTopLevel(m, Node(Name("*"), [x, Leaf(Number(0.0))])) == Leaf(Number(0.0))
    ensures SimplifyTopLevel(m, Node(Name("*"), [Leaf(Number(0.0)), x])) == Leaf(Number(0.0))
  {
    MulZeroRight(m, x);
    MulZeroLeft(m, x);
  }

  lemma MulZeroRight(m: MathLib, x: Node)
    requires Binary(x) && !x.val.Number?
    ensures SimplifyTopLevel(m, Node(Name("*"), [x, Leaf(Number(0.0))])) == Leaf(Number(0.0))
  {
    var zero := Leaf(Number(0.0));
    NoFold(x, zero);
    assert [x, zero][1] == zero;
  }

  lemma MulZeroLeft(m: MathLib, x: Node)
    requires Binary(x) && !x.val.Number?
    ensures SimplifyTopLevel(m, Node(Name("*"), [Leaf(Number(0.0)), x])) == Leaf(Number(0.0))
  {
    var zero := Leaf(Number(0.0));
    NoFold(x, zero);
    assert [zero, x][0] == zero;
  }

  lemma NoZeroFactor(x: Node)
    requires !x.val.Number?
    ensures !AnyZero([x, Leaf(Number(1.0))]) && !AnyZero([Leaf(Number(1.0)), x])
  {
    var one := Leaf(Number(1.0));
    assert [x, one][0] == x && [x, one][1] == one;
    assert [one, x][0] == one && [one, x][1] == x;
  }

  /** `x*1` gives `x`. */
  lemma MulOneRight(m: MathLib, x: Node)
    requires Binary(x) && !x.val.Number?
    ensures SimplifyTopLevel(m, Node(Name("*"), [x, Leaf(Number(1.0))])) == x
  {
    NoFold(x, Leaf(Number(1.0)));
    NoZeroFactor(x);
  }

  /** `1*x` gives `x`. */
  lemma MulOneLeft(m: MathLib, x: Node)
    requires Binary(x) && !x.val.Number?
    ensures SimplifyTopLevel(m, Node(Name("*"), [Leaf(Number(1.0)), x])) == x
  {
    NoFold(x, Leaf(Number(1.0)));
    NoZeroFactor(x);
  }

  /** `x^1` gives `x` and `x^0` gives 1. */
  lemma PowRules(m: MathLib, x: Node)
    requires Binary(x) && !x.val.Number?
    ensures SimplifyTopLevel(m, Node(Name("^"), [x, Leaf(Number(1.0))])) == x
    ensures SimplifyTopLevel(m, Node(Name("^"), [x, Leaf(Number(0.0))])) == Leaf(Number(1.0))
  {
    assert IsOpAtom(Name("^"));
    NoFold(x, Leaf(Number(1.0)));
    NoFold(x, Leaf(Number(0.0)));
  }

  /** `0/x` gives 0. */
  lemma DivRule(m: MathLib, x: Node)
    requires Binary(x) && !x.val.Number?
    ensures SimplifyTopLevel(m, Node(Name("/"), [Leaf(Number(0.0)), x])) == Leaf(Number(0.0))
  {
    assert IsOpAtom(Name("/"));
    NoFold(x, Leaf(Number(0.0)));
  }

  /** A node whose children are all numbers folds into one number (or `undefined`) node. */
  lemma Folding(m: MathLib, t: Node)
    requires Binary(t) && (IsOpAtom(t.val) || IsFunctionAtom(t.val)) && AllNumbers(t.nodes)
    ensures SimplifyTopLevel(m, t) == Leaf(AtomOf(Evaluate(m, t.val.s, Values(t.nodes))))
  {
  }

  /** Any node that is neither an operator nor a function is left as it is. */
  lemma OthersUnchanged(m: MathLib, t: Node)
    requires Binary(t) && !IsOpAtom(t.val) && !IsFunctionAtom(t.val)
    ensures SimplifyTopLevel(m, t) == t
  {
  }

  /* ---------------- shape and idempotence ---------------- */

  lemma {:induction false} SimplifyListAt(m: MathLib, ns: seq<Node>, i: nat)
    requires AllBinary(ns) && i < |ns|
    ensures SimplifyList(m, ns)[i] == Simplify(m, ns[i])
    decreases i
  {
    if i > 0 {
      SimplifyListAt(m, ns[1..], i - 1);
    }
  }

  /** `Simplify(x) == x`: simplify returns `x` and leaves it as it was. */
  predicate Fixed(m: MathLib, x: Node)
    requires Binary(x)
  {
    Simplify(m, x) == x
  }

  lemma {:induction false} SimplifyListFixed(m: MathLib, ns: seq<Node>)
    requires AllBinary(ns)
    requires forall i :: 0 <= i < |ns| ==> Fixed(m, ns[i])
    ensures SimplifyList(m, ns) == ns
  {
    if ns != [] {
      SimplifyListFixed(m, ns[1..]);
    }
  }

  /** A node whose children are all fixed points is reshaped into itself. */
  lemma ReshapedFixed(m: MathLib, t: Node)
    requires Binary(t)
    requires forall i :: 0 <= i < |t.nodes| ==> Fixed(m, t.nodes[i])
    ensures Reshaped(m, t) == t
  {
    SimplifyListFixed(m, t.nodes);
  }

  lemma LeafFixed(m: MathLib, x: Node)
    requires x.nodes == [] && !IsOpAtom(x.val) && !IsFunctionAtom(x.val)
    ensures Binary(x) && Fixed(m, x)
  {
    ReshapedFixed(m, x);
  }

  lemma NegatedFixed(m: MathLib, x: Node)
    requires Binary(x) && Fixed(m, x) && !x.val.Number?
    ensures Binary(Negated(x)) && Fixed(m, Negated(x))
  {
    var n := Negated(x);
    var c := Leaf(Number(-1.0));
    LeafFixed(m, c);
    NegatedUnchanged(m, x);
    assert forall i :: 0 <= i < |n.nodes| ==> Fixed(m, n.nodes[i]) by {
      assert n.nodes == [c, x];
    }
    ReshapedFixed(m, n);
    assert Simplify(m, n) == SimplifyTopLevel(m, Reshaped(m, n));
  }

  /** simplifyTopLevel leaves `(-1)*x` alone for an `x` that is not a number. */
  lemma NegatedUnchanged(m: MathLib, x: Node)
    requires Binary(x) && !x.val.Number?
    ensures Binary(Negated(x)) && SimplifyTopLevel(m, Negated(x)) == Negated(x)
  {
    var n := Negated(x);
    assert n.nodes[0] == Leaf(Number(-1.0)) && n.nodes[1] == x;
    assert IsOpAtom(n.val);
    assert !AllNumbers(n.nodes);
    assert !AnyZero(n.nodes);
    assert SimplifyMul(n) == n;
  }

  /** If the children of `t` are fixed points, so is what simplifyTopLevel makes of `t`. */
  lemma TopLevelFixed(m: MathLib, t: Node)
    requires Binary(t)
    requires forall i :: 0 <= i < |t.nodes| ==> Fixed(m, t.nodes[i])
    ensures Fixed(m, SimplifyTopLevel(m, t))
  {
    var r := SimplifyTopLevel(m, t);
    if r == t {
      ReshapedFixed(m, t);
    } else if exists i :: 0 <= i < |t.nodes| && r == t.nodes[i] {
    } else if r.nodes == [] && !r.val.Name? {
      LeafFixed(m, r);
    } else {
      NegatedFixed(m, t.nodes[1]);
    }
  }

  /**
   * simplify is idempotent, and the children of a simplified tree are fixed
   * points too.
   */
  lemma {:induction false} SimplifyIdempotent(m: MathLib, t: Node)
    requires Binary(t)
    ensures Fixed(m, Simplify(m, t))
    ensures forall i :: 0 <= i < |Simplify(m, t).nodes| ==> Fixed(m, Simplify(m, t).nodes[i])
    decreases t
  {
    var u := Reshaped(m, t);
    forall i | 0 <= i < |u.nodes|
      ensures Fixed(m, u.nodes[i]) && ChildrenFixed(m, u.nodes[i])
    {
      SimplifyListAt(m, t.nodes, i);
      SimplifyIdempotent(m, t.nodes[i]);
    }
    TopLevelFixed(m, u);
    TopLevelChildrenFixed(m, u, Simplify(m, t));
  }

  /** Every child of x is a fixed point of simplify. */
  predicate ChildrenFixed(m: MathLib, x: Node)
    requires Binary(x)
  {
    forall i :: 0 <= i < |x.nodes| ==> Fixed(m, x.nodes[i])
  }

  /**
   * When the children of u and their children are fixed points, so are the
   * children of the top-level rewrite of u.
   */
  lemma TopLevelChildrenFixed(m: MathLib, u: Node, r: Node)
    requires Binary(u) && r == SimplifyTopLevel(m, u)
    requires ChildrenFixed(m, u)
    requires forall i :: 0 <= i < |u.nodes| ==> ChildrenFixed(m, u.nodes[i])
    ensures Binary(r) && ChildrenFixed(m, r)
  {
    TopLevelKeepsShape(m, u);
    if r == u {
    } else if exists i :: 0 <= i < |u.nodes| && r == u.nodes[i] {
      var k :| 0 <= k < |u.nodes| && r == u.nodes[k];
      assert ChildrenFixed(m, u.nodes[k]);
    } else if r.nodes == [] {
    } else {
      NegatedChildrenFixed(m, u.nodes[1]);
    }
  }

  lemma NegatedChildrenFixed(m: MathLib, x: Node)
    requires Binary(x) && Fixed(m, x)
    ensures Binary(Negated(x)) && ChildrenFixed(m, Negated(x))
  {
    LeafFixed(m, Leaf(Number(-1.0)));
    assert Negated(x).nodes == [Leaf(Number(-1.0)), x];
  }

  /**
   * Simplifying an already simplified tree in place leaves it as it was: the
   * repeated in-place simplifications that derivative applies to the subtrees
   * it shares with its simplified input change nothing.
   */
  lemma ReshapeSimplified(m: MathLib, t: Node)
    requires Binary(t)
    ensures Reshaped(m, Simplify(m, t)) == Simplify(m, t)
  {
    SimplifyIdempotent(m, t);
    ReshapedFixed(m, Simplify(m, t));
  }

  /* ---------------- soundness ---------------- */

  /** `Math.pow(x, 1) == x` and `Math.pow(x, 0) == 1`, which the `^` rules rely on. */
  ghost predicate PowLaws(m: MathLib)
  {
    forall x: real :: m.pow(x, 1.0) == x && m.pow(x, 0.0) == 1.0
  }

  /**
   * What the rules silently assume at a node: every child has a plain-number
   * value (a zero factor does not annihilate a complex or `undefined` value),
   * and a divisor is not zero (`0/0` is NaN, not 0).
   */
  predicate TameNode(m: MathLib, env: map<string, Num>, t: Node)
  {
    (forall i :: 0 <= i < |t.nodes| ==> Meaning(m, env, t.nodes[i]).R?)
    && (t.val == Name("/") && |t.nodes| == 2 ==> Meaning(m, env, t.nodes[1]) != R(0.0))
  }

  predicate Tame(m: MathLib, env: map<string, Num>, t: Node)
  {
    TameNode(m, env, t) && forall i :: 0 <= i < |t.nodes| ==> Tame(m, env, t.nodes[i])
  }

  /** A node's value depends only on its own value and its children's values. */
  lemma SameChildValues(m: MathLib, env: map<string, Num>, t: Node, u: Node)
    requires t.val == u.val && |t.nodes| == |u.nodes|
    requires forall i :: 0 <= i < |t.nodes| ==> Meaning(m, env, t.nodes[i]) == Meaning(m, env, u.nodes[i])
    ensures Meaning(m, env, t) == Meaning(m, env, u)
  {
    assert ChildMeaning(m, env, t, 0) == ChildMeaning(m, env, u, 0);
    assert ChildMeaning(m, env, t, 1) == ChildMeaning(m, env, u, 1);
  }

  lemma FoldSound(m: MathLib, env: map<string, Num>, t: Node)
    requires Binary(t) && (IsOpAtom(t.val) || IsFunctionAtom(t.val)) && AllNumbers(t.nodes)
    ensures Meaning(m, env, SimplifyTopLevel(m, t)) == Meaning(m, env, t)
  {
    var args := Values(t.nodes);
    var v := Evaluate(m, t.val.s, args);
    MeaningOfAtom(m, env, v);
    EvaluateAgrees(m, t.val.s, args);
    AtomClasses(t.val);
    if |t.nodes| > 0 {
      assert ChildMeaning(m, env, t, 0) == R(args[0]);
    }
    if IsOpAtom(t.val) {
      assert ChildMeaning(m, env, t, 1) == R(args[1]);
    }
  }

  /** The values of the two children of a tame operator node. */
  predicate OperandValues(m: MathLib, env: map<string, Num>, t: Node, x: real, y: real)
  {
    |t.nodes| == 2 && Meaning(m, env, t.nodes[0]) == R(x) && Meaning(m, env, t.nodes[1]) == R(y)
    && ChildMeaning(m, env, t, 0) == R(x) && ChildMeaning(m, env, t, 1) == R(y)
  }

  lemma AddSubSound(m: MathLib, env: map<string, Num>, t: Node, x: real, y: real)
    requires Binary(t) && (t.val == Name("+") || t.val == Name("-")) && !AllNumbers(t.nodes)
    requires OperandValues(m, env, t, x, y)
    ensures Meaning(m, env, SimplifyTopLevel(m, t)) == Meaning(m, env, t)
  {
    if t.val == Name("+") {
      AddSound(m, env, t, x, y);
    } else {
      SubSound(m, env, t, x, y);
    }
  }

  lemma AddSound(m: MathLib, env: map<string, Num>, t: Node, x: real, y: real)
    requires Binary(t) && t.val == Name("+") && !AllNumbers(t.nodes)
    requires OperandValues(m, env, t, x, y)
    ensures Meaning(m, env, SimplifyTopLevel(m, t)) == Meaning(m, env, t)
  {
    assert SimplifyTopLevel(m, t) == SimplifyAdd(t);
  }

  lemma SubSound(m: MathLib, env: map<string, Num>, t: Node, x: real, y: real)
    requires Binary(t) && t.val == Name("-") && !AllNumbers(t.nodes)
    requires OperandValues(m, env, t, x, y)
    ensures Meaning(m, env, SimplifyTopLevel(m, t)) == Meaning(m, env, t)
  {
    assert SimplifyTopLevel(m, t) == SimplifySub(t);
    if !AllZero(t.nodes) && IsZero(t.nodes[0]) {
      NegatedMeaning(m, env, t.nodes[1], y);
    }
  }

  /** `-1 * x` means the negation of what x means. */
  lemma NegatedMeaning(m: MathLib, env: map<string, Num>, x: Node, y: real)
    requires Meaning(m, env, x) == R(y)
    ensures Meaning(m, env, Negated(x)) == R(-y)
  {
    var n := Negated(x);
    assert ChildMeaning(m, env, n, 0) == R(-1.0);
    assert ChildMeaning(m, env, n, 1) == R(y);
  }

  lemma MulSound(m: MathLib, env: map<string, Num>, t: Node, x: real, y: real)
    requires Binary(t) && t.val == Name("*") && !AllNumbers(t.nodes)
    requires OperandValues(m, env, t, x, y)
    ensures Meaning(m, env, SimplifyTopLevel(m, t)) == Meaning(m, env, t)
  {
    if AnyZero(t.nodes) {
      assert x == 0.0 || y == 0.0;
    }
  }

  lemma PowSound(m: MathLib, env: map<string, Num>, t: Node, x: real, y: real)
    requires Binary(t) && t.val == Name("^") && !AllNumbers(t.nodes) && PowLaws(m)
    requires OperandValues(m, env, t, x, y)
    ensures Meaning(m, env, SimplifyTopLevel(m, t)) == Meaning(m, env, t)
  {
    assert m.pow(x, 1.0) == x && m.pow(x, 0.0) == 1.0;
  }

  lemma DivSound(m: MathLib, env: map<string, Num>, t: Node, x: real, y: real)
    requires Binary(t) && t.val == Name("/") && !AllNumbers(t.nodes)
    requires OperandValues(m, env, t, x, y) && y != 0.0
    ensures Meaning(m, env, SimplifyTopLevel(m, t)) == Meaning(m, env, t)
  {
    if IsZero(t.nodes[0]) {
      assert x == 0.0;
      assert FDiv(m, x, y) == 0.0;
    }
  }

  lemma TopLevelSound(m: MathLib, env: map<string, Num>, t: Node)
    requires Binary(t) && PowLaws(m) && TameNode(m, env, t)
    ensures Meaning(m, env, SimplifyTopLevel(m, t)) == Meaning(m, env, t)
  {
    if (IsOpAtom(t.val) || IsFunctionAtom(t.val)) && AllNumbers(t.nodes) {
      FoldSound(m, env, t);
    } else if IsOpAtom(t.val) {
      var x, y := Meaning(m, env, t.nodes[0]).x, Meaning(m, env, t.nodes[1]).x;
      assert OperandValues(m, env, t, x, y);
      assert t.val.s == [t.val.s[0]];
      if t.val.s == "+" || t.val.s == "-" {
        AddSubSound(m, env, t, x, y);
      } else if t.val.s == "*" {
        MulSound(m, env, t, x, y);
      } else if t.val.s == "^" {
        PowSound(m, env, t, x, y);
      } else {
        DivSound(m, env, t, x, y);
      }
    }
  }

  /**
   * simplify keeps the value of a tree, when `Math.pow` obeys `x^1 = x` and
   * `x^0 = 1` and every node meets the conditions of `TameNode`.
   */
  lemma {:induction false} SimplifySound(m: MathLib, env: map<string, Num>, t: Node)
    requires Binary(t) && PowLaws(m) && Tame(m, env, t)
    ensures Meaning(m, env, Simplify(m, t)) == Meaning(m, env, t)
    decreases t
  {
    var u := Reshaped(m, t);
    forall i | 0 <= i < |t.nodes|
      ensures Meaning(m, env, u.nodes[i]) == Meaning(m, env, t.nodes[i])
    {
      SimplifyListAt(m, t.nodes, i);
      SimplifySound(m, env, t.nodes[i]);
    }
    SameChildValues(m, env, u, t);
    TopLevelSound(m, env, u);
  }

  /**
   * The tree built from a reverse Polish list, simplified, evaluates to what
   * computeRPNExpression computes from the list.
   */
  lemma SimplifiedTreeValue(m: MathLib, env: map<string, Num>, ts: seq<string>)
    requires VariablesOf(ts) <= env.Keys && PowLaws(m)
    requires RunTree(m, ts).Some? && Tame(m, env, RunTree(m, ts).value)
    ensures var t := RunTree(m, ts).value;
      Wf(t) && Meaning(m, env, Simplify(m, WfTree(t))) == RpnValue(m, env, ts)
  {
    var t := RunTree(m, ts).value;
    RunTreeWf(m, ts);
    WfBinary(t);
    RpnValueIsMeaning(m, env, ts);
    SimplifySound(m, env, t);
  }

  /** The identity on well-formed trees, so that they can be passed where a binary tree is expected. */
  function WfTree(t: Node): (r: Node)
    requires Wf(t)
    ensures r == t && Binary(r)
  {
    WfBinary(t);
    t
  }
}
