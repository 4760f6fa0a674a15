/**
 * What derivative guarantees: it mentions no variable its input does not
 * mention, it is 0 for a tree without the variable and 1 for the variable
 * itself, it looks only at the simplified tree, and on the textbook cases it
 * returns the textbook answers (with the chain rule's product left
 * unsimplified, and a non-integer power returned unchanged).
 */
module DerivativeFacts {
  import opened Chars
  import opened Numeric
  import opened Tree
  import opened Simplification
  import opened SimplifyFacts
  import opened Differentiation
  import JsNumber

  /** A name that is neither an operator nor a function: what derivative can differentiate by. */
  predicate IsVariable(v: string)
  {
    !IsOpToken(v) && !IsFunctionName(v)
  }

  /* ---------------- names ---------------- */

  lemma ContainsPair(a: Atom, x: Node, y: Node, w: string)
    ensures Contains(Node(a, [x, y]), w) <==> a == Name(w) || Contains(x, w) || Contains(y, w)
  {
    var t := Node(a, [x, y]);
    assert t.nodes[0] == x && t.nodes[1] == y;
  }

  lemma ContainsSingle(a: Atom, x: Node, w: string)
    ensures Contains(Node(a, [x]), w) <==> a == Name(w) || Contains(x, w)
  {
    var t := Node(a, [x]);
    assert t.nodes[0] == x;
  }

  lemma ContainsChild(t: Node, i: nat, w: string)
    requires i < |t.nodes| && Contains(t.nodes[i], w)
    ensures Contains(t, w)
  {
  }

  /** simplify introduces no name but the `*` of `(-1)*x`. */
  lemma {:induction false} SimplifyKeepsNames(m: MathLib, t: Node, w: string)
    requires Binary(t) && w != "*" && Contains(Simplify(m, t), w)
    ensures Contains(t, w)
    decreases t
  {
    var u := Reshaped(m, t);
    forall i | 0 <= i < |u.nodes| && Contains(u.nodes[i], w)
      ensures Contains(t, w)
    {
      SimplifyListAt(m, t.nodes, i);
      SimplifyKeepsNames(m, t.nodes[i], w);
      ContainsChild(t, i, w);
    }
    assert Contains(u, w) ==> Contains(t, w);
    var r := SimplifyTopLevel(m, u);
    if r == u {
    } else if exists i :: 0 <= i < |u.nodes| && r == u.nodes[i] {
      var i :| 0 <= i < |u.nodes| && r == u.nodes[i];
      ContainsChild(u, i, w);
    } else if r.nodes == [] && !r.val.Name? {
    } else {
      ContainsPair(Name("*"), Leaf(Number(-1.0)), u.nodes[1], w);
      ContainsChild(u, 1, w);
    }
  }

  lemma SimplifiedKeepsNames(m: MathLib, t: Node, w: string)
    requires Wf(t) && w != "*" && Contains(Simplified(m, t), w)
    ensures Contains(t, w)
  {
    WfBinary(t);
    SimplifyKeepsNames(m, t, w);
  }

  lemma StarIsOperator()
    ensures IsOpToken("*")
  {
  }

  lemma SlopeKeepsNames(f: string, arg: Node, w: string)
    requires Wf(arg) && IsVariable(w) && Contains(FunctionSlope(f, arg), w)
    ensures Contains(arg, w)
  {
    if f == "sin" {
      ContainsSingle(Name("cos"), arg, w);
    } else if f == "cos" {
      ContainsSingle(Name("sin"), arg, w);
      ContainsPair(Name("*"), Leaf(Number(-1.0)), Node(Name("sin"), [arg]), w);
    } else if f == "exp" {
      ContainsSingle(Name("exp"), arg, w);
    } else if f == "log" {
      ContainsPair(Name("/"), Leaf(Number(1.0)), arg, w);
    } else if f == "tan" {
      var tan := Node(Name("tan"), [arg]);
      var tanSq := Node(Name("^"), [tan, Leaf(Number(2.0))]);
      ContainsSingle(Name("tan"), arg, w);
      ContainsPair(Name("^"), tan, Leaf(Number(2.0)), w);
      ContainsPair(Name("+"), Leaf(Number(1.0)), tanSq, w);
    }
  }

  /** The names in what a rule builds come from the operands and their derivatives. */
  lemma SumKeepsNames(m: MathLib, op: string, d0: Node, d1: Node, w: string)
    requires (op == "+" || op == "-") && Wf(d0) && Wf(d1) && IsVariable(w)
    requires Contains(SumRule(m, op, d0, d1), w)
    ensures Contains(d0, w) || Contains(d1, w)
  {
    StarIsOperator();
    WfOperator(op, d0, d1);
    SimplifiedKeepsNames(m, Node(Name(op), [d0, d1]), w);
    ContainsPair(Name(op), d0, d1, w);
  }

  lemma ProductKeepsNames(m: MathLib, l: Node, r: Node, d0: Node, d1: Node, w: string)
    requires Wf(l) && Wf(r) && Wf(d0) && Wf(d1) && IsVariable(w)
    requires Contains(ProductRule(m, l, r, d0, d1), w)
    ensures Contains(l, w) || Contains(r, w) || Contains(d0, w) || Contains(d1, w)
  {
    StarIsOperator();
    var opL2 := Node(Name("*"), [d0, r]);
    var opR2 := Node(Name("*"), [l, d1]);
    WfOperator("*", d0, r);
    WfOperator("*", l, d1);
    WfOperator("+", opL2, opR2);
    SimplifiedKeepsNames(m, Node(Name("+"), [opL2, opR2]), w);
    ContainsPair(Name("+"), opL2, opR2, w);
    ContainsPair(Name("*"), d0, r, w);
    ContainsPair(Name("*"), l, d1, w);
  }

  lemma PowerKeepsNames(m: MathLib, b: Node, n: int, d0: Node, w: string)
    requires Wf(b) && Wf(d0) && IsVariable(w)
    requires Contains(PowerRule(m, b, n, d0), w)
    ensures Contains(b, w) || Contains(d0, w)
  {
    StarIsOperator();
    var pow := Node(Name("^"), [b, Leaf(Number((n - 1) as real))]);
    var opL := Node(Name("*"), [Leaf(Number(n as real)), pow]);
    WfOperator("^", b, Leaf(Number((n - 1) as real)));
    WfOperator("*", Leaf(Number(n as real)), pow);
    WfOperator("*", opL, d0);
    SimplifiedKeepsNames(m, Node(Name("*"), [opL, d0]), w);
    ContainsPair(Name("*"), opL, d0, w);
    ContainsPair(Name("*"), Leaf(Number(n as real)), pow, w);
    ContainsPair(Name("^"), b, Leaf(Number((n - 1) as real)), w);
  }

  lemma QuotientKeepsNames(m: MathLib, num: Node, den: Node, d0: Node, d1: Node, w: string)
    requires Wf(num) && Wf(den) && Wf(d0) && Wf(d1) && IsVariable(w)
    requires Contains(QuotientRule(m, num, den, d0, d1), w)
    ensures Contains(num, w) || Contains(den, w) || Contains(d0, w) || Contains(d1, w)
  {
    StarIsOperator();
    var opL := Node(Name("/"), [d0, den]);
    var part1 := Node(Name("^"), [den, Leaf(Number(-2.0))]);
    var part2 := Node(Name("*"), [num, d1]);
    var opR := Node(Name("*"), [part1, part2]);
    WfOperator("/", d0, den);
    WfOperator("^", den, Leaf(Number(-2.0)));
    WfOperator("*", num, d1);
    WfOperator("*", part1, part2);
    WfOperator("-", opL, opR);
    SimplifiedKeepsNames(m, Node(Name("-"), [opL, opR]), w);
    ContainsPair(Name("-"), opL, opR, w);
    ContainsPair(Name("/"), d0, den, w);
    ContainsPair(Name("*"), part1, part2, w);
    ContainsPair(Name("^"), den, Leaf(Number(-2.0)), w);
    ContainsPair(Name("*"), num, d1, w);
  }

  lemma ChainKeepsNames(f: string, arg: Node, d0: Node, w: string)
    requires Wf(arg) && Wf(d0) && IsVariable(w)
    requires Contains(ChainRule(f, arg, d0), w)
    ensures Contains(arg, w) || Contains(d0, w)
  {
    StarIsOperator();
    ContainsPair(Name("*"), FunctionSlope(f, arg), d0, w);
    if Contains(FunctionSlope(f, arg), w) {
      SlopeKeepsNames(f, arg, w);
    }
  }

  /** Each child's derivative mentions only names of that child. */
  predicate ChildrenKeepNames(m: MathLib, e: Node, v: string, w: string)
    requires Wf(e)
  {
    forall i :: 0 <= i < |e.nodes| && Contains(Derivative(m, e.nodes[i], v), w) ==> Contains(e.nodes[i], w)
  }

  /** derivative at a `+` or `-` node: the sum rule on the children's derivatives. */
  lemma SumStep(m: MathLib, t: Node, v: string)
    requires Wf(t) && Contains(Simplified(m, t), v)
    requires Simplified(m, t).val == Name("+") || Simplified(m, t).val == Name("-")
    ensures var e := Simplified(m, t);
      |e.nodes| == 2 && Wf(e.nodes[0]) && Wf(e.nodes[1])
      && Derivative(m, t, v) == SumRule(m, e.val.s, Derivative(m, e.nodes[0], v), Derivative(m, e.nodes[1], v))
  {
  }

  /** derivative at a `*` node: the product rule. */
  lemma ProductStep(m: MathLib, t: Node, v: string)
    requires Wf(t) && Contains(Simplified(m, t), v) && Simplified(m, t).val == Name("*")
    ensures var e := Simplified(m, t);
      |e.nodes| == 2 && Wf(e.nodes[0]) && Wf(e.nodes[1])
      && Derivative(m, t, v) == ProductRule(m, e.nodes[0], e.nodes[1], Derivative(m, e.nodes[0], v), Derivative(m, e.nodes[1], v))
  {
    StarIsOperator();
  }

  /** derivative at a `^` node with a whole exponent: the power rule. */
  lemma PowerStep(m: MathLib, t: Node, v: string)
    requires Wf(t) && Contains(Simplified(m, t), v) && Simplified(m, t).val == Name("^")
    requires |Simplified(m, t).nodes| == 2 && IsIntegerAtom(m, Simplified(m, t).nodes[1].val)
    ensures var e := Simplified(m, t);
      Wf(e.nodes[0]) && Derivative(m, t, v) == PowerRule(m, e.nodes[0], ParseIntOfWhole(e.nodes[1].val.x), Derivative(m, e.nodes[0], v))
  {
  }

  /** derivative at a `/` node: the quotient rule. */
  lemma QuotientStep(m: MathLib, t: Node, v: string)
    requires Wf(t) && Contains(Simplified(m, t), v) && Simplified(m, t).val == Name("/")
    ensures var e := Simplified(m, t);
      |e.nodes| == 2 && Wf(e.nodes[0]) && Wf(e.nodes[1])
      && Derivative(m, t, v) == QuotientRule(m, e.nodes[0], e.nodes[1], Derivative(m, e.nodes[0], v), Derivative(m, e.nodes[1], v))
  {
  }

  /** derivative at a `^` node whose exponent is not whole: the simplified node itself. */
  lemma PowerFallback(m: MathLib, t: Node, v: string)
    requires Wf(t) && Contains(Simplified(m, t), v) && Simplified(m, t).val == Name("^")
    requires |Simplified(m, t).nodes| == 2 && !IsIntegerAtom(m, Simplified(m, t).nodes[1].val)
    ensures Derivative(m, t, v) == if v == "^" then Leaf(Number(1.0)) else Simplified(m, Simplified(m, t))
  {
    assert !IsFunctionName("^");
  }

  /** A name found in a child of a two-child node, or in a child's derivative, is in the node. */
  lemma ChildrenCover(m: MathLib, e: Node, v: string, w: string)
    requires Wf(e) && |e.nodes| == 2 && ChildrenKeepNames(m, e, v, w)
    requires Contains(e.nodes[0], w) || Contains(e.nodes[1], w)
      || Contains(Derivative(m, e.nodes[0], v), w) || Contains(Derivative(m, e.nodes[1], v), w)
    ensures Contains(e, w)
  {
    if Contains(e.nodes[0], w) || Contains(Derivative(m, e.nodes[0], v), w) {
      ContainsChild(e, 0, w);
    } else {
      ContainsChild(e, 1, w);
    }
  }

  /** The premises of one step of derivative at an operator node. */
  predicate OperatorStepPremises(m: MathLib, t: Node, v: string, w: string)
  {
    Wf(t) && IsVariable(w) && Contains(Derivative(m, t, v), w)
    && var e := Simplified(m, t);
    ChildrenKeepNames(m, e, v, w) && Contains(e, v) && IsOpAtom(e.val)
  }

  lemma SumStepKeepsNames(m: MathLib, t: Node, v: string, w: string)
    requires OperatorStepPremises(m, t, v, w)
    requires Simplified(m, t).val == Name("+") || Simplified(m, t).val == Name("-")
    ensures Contains(Simplified(m, t), w)
  {
    var e := Simplified(m, t);
    SumStep(m, t, v);
    SumKeepsNames(m, e.val.s, Derivative(m, e.nodes[0], v), Derivative(m, e.nodes[1], v), w);
    ChildrenCover(m, e, v, w);
  }

  lemma ProductStepKeepsNames(m: MathLib, t: Node, v: string, w: string)
    requires OperatorStepPremises(m, t, v, w) && Simplified(m, t).val == Name("*")
    ensures Contains(Simplified(m, t), w)
  {
    var e := Simplified(m, t);
    ProductStep(m, t, v);
    ProductKeepsNames(m, e.nodes[0], e.nodes[1], Derivative(m, e.nodes[0], v), Derivative(m, e.nodes[1], v), w);
    ChildrenCover(m, e, v, w);
  }

  lemma QuotientStepKeepsNames(m: MathLib, t: Node, v: string, w: string)
    requires OperatorStepPremises(m, t, v, w) && Simplified(m, t).val == Name("/")
    ensures Contains(Simplified(m, t), w)
  {
    var e := Simplified(m, t);
    QuotientStep(m, t, v);
    QuotientKeepsNames(m, e.nodes[0], e.nodes[1], Derivative(m, e.nodes[0], v), Derivative(m, e.nodes[1], v), w);
    ChildrenCover(m, e, v, w);
  }

  lemma PowerStepKeepsNames(m: MathLib, t: Node, v: string, w: string)
    requires OperatorStepPremises(m, t, v, w) && Simplified(m, t).val == Name("^")
    ensures Contains(Simplified(m, t), w)
  {
    var e := Simplified(m, t);
    assert |e.nodes| == 2 && Wf(e.nodes[0]);
    if IsIntegerAtom(m, e.nodes[1].val) {
      PowerStep(m, t, v);
      PowerKeepsNames(m, e.nodes[0], ParseIntOfWhole(e.nodes[1].val.x), Derivative(m, e.nodes[0], v), w);
      ChildrenCover(m, e, v, w);
    } else {
      PowerFallback(m, t, v);
      if v != "^" {
        SimplifiedKeepsNames(m, e, w);
      }
    }
  }

  /** One step of derivative: its result mentions only names of the simplified tree `e`. */
  lemma BinaryStepKeepsNames(m: MathLib, t: Node, v: string, w: string)
    requires OperatorStepPremises(m, t, v, w)
    ensures Contains(Simplified(m, t), w)
  {
    var e := Simplified(m, t);
    if e.val == Name("+") || e.val == Name("-") {
      SumStepKeepsNames(m, t, v, w);
    } else if e.val == Name("*") {
      ProductStepKeepsNames(m, t, v, w);
    } else if e.val == Name("/") {
      QuotientStepKeepsNames(m, t, v, w);
    } else {
      PowerStepKeepsNames(m, t, v, w);
    }
  }

  /** derivative at a function node: the chain rule. */
  lemma ChainStep(m: MathLib, t: Node, v: string)
    requires Wf(t) && Contains(Simplified(m, t), v)
    requires !IsOpAtom(Simplified(m, t).val) && IsFunctionAtom(Simplified(m, t).val)
    ensures var e := Simplified(m, t);
      |e.nodes| >= 1 && Wf(e.nodes[0])
      && Derivative(m, t, v) == ChainRule(e.val.s, e.nodes[0], Derivative(m, e.nodes[0], v))
  {
  }

  /** derivative at a leaf that is not an operator or function: 1 for the variable, else the leaf simplified. */
  lemma LeafStep(m: MathLib, t: Node, v: string)
    requires Wf(t) && Contains(Simplified(m, t), v)
    requires !IsOpAtom(Simplified(m, t).val) && !IsFunctionAtom(Simplified(m, t).val)
    ensures var e := Simplified(m, t);
      Derivative(m, t, v) == if e.val == Name(v) then Leaf(Number(1.0)) else Simplified(m, e)
  {
  }

  lemma OtherStepKeepsNames(m: MathLib, t: Node, v: string, w: string)
    requires Wf(t) && IsVariable(w) && Contains(Derivative(m, t, v), w)
    requires var e := Simplified(m, t);
      ChildrenKeepNames(m, e, v, w) && Contains(e, v) && !IsOpAtom(e.val)
    ensures Contains(Simplified(m, t), w)
  {
    var e := Simplified(m, t);
    if IsFunctionAtom(e.val) {
      ChainStep(m, t, v);
      var d0 := Derivative(m, e.nodes[0], v);
      ChainKeepsNames(e.val.s, e.nodes[0], d0, w);
      ContainsChild(e, 0, w);
    } else {
      LeafStep(m, t, v);
      if e.val != Name(v) {
        SimplifiedKeepsNames(m, e, w);
      }
    }
  }

  /** derivative mentions no variable that its input does not mention. */
  lemma {:induction false} DerivativeKeepsNames(m: MathLib, t: Node, v: string, w: string)
    requires Wf(t) && IsVariable(w) && Contains(Derivative(m, t, v), w)
    ensures Contains(t, w)
    decreases Size(t)
  {
    var e := Simplified(m, t);
    forall i | 0 <= i < |e.nodes| && Contains(Derivative(m, e.nodes[i], v), w)
      ensures Contains(e.nodes[i], w)
    {
      ChildSmaller(e, i);
      DerivativeKeepsNames(m, e.nodes[i], v, w);
    }
    if Contains(e, v) {
      if IsOpAtom(e.val) {
        assert OperatorStepPremises(m, t, v, w);
        BinaryStepKeepsNames(m, t, v, w);
      } else {
        OtherStepKeepsNames(m, t, v, w);
      }
      SimplifiedKeepsNames(m, t, w);
    }
  }

  /* ---------------- the basic rules ---------------- */

  /** A tree without the variable differentiates to 0. */
  lemma ConstantRule(m: MathLib, t: Node, v: string)
    requires Wf(t) && v != "*" && !Contains(t, v)
    ensures Derivative(m, t, v) == Leaf(Number(0.0))
  {
    if Contains(Simplified(m, t), v) {
      SimplifiedKeepsNames(m, t, v);
    }
  }

  /** The variable differentiates to 1. */
  lemma VariableRule(m: MathLib, v: string)
    requires IsVariable(v)
    ensures Derivative(m, Leaf(Name(v)), v) == Leaf(Number(1.0))
  {
    StarIsOperator();
    LeafFixed(m, Leaf(Name(v)));
  }

  /** simplify leaves `v^c` alone for a number `c` other than 0 and 1. */
  lemma PowerOfVariableFixed(m: MathLib, v: string, c: real)
    requires IsVariable(v) && c != 0.0 && c != 1.0
    ensures var t := Node(Name("^"), [Leaf(Name(v)), Leaf(Number(c))]);
      Wf(t) && Simplified(m, t) == t && Contains(t, v)
  {
    var x := Leaf(Name(v));
    var k := Leaf(Number(c));
    var t := Node(Name("^"), [x, k]);
    WfOperator("^", x, k);
    LeafFixed(m, x);
    LeafFixed(m, k);
    ReshapedFixed(m, t);
  }

  /**
   * `v^c` with `c = d * 10^p`, `p >= 21`, is differentiated by the power rule
   * with n = d: the exponent's text is `de+p`, which parseInt reads as `d`.
   * So `x^1e21` differentiates to `1*x^0`, not to `1e21*x^(1e21-1)`.
   */
  lemma ExponentNotationPower(m: MathLib, v: string, d: nat, p: nat)
    requires IsVariable(v) && 1 <= d <= 9 && p >= 21
    requires IsIntegerAtom(m, Number((d * JsNumber.Pow10Nat(p)) as real))
    ensures var t := Node(Name("^"), [Leaf(Name(v)), Leaf(Number((d * JsNumber.Pow10Nat(p)) as real))]);
      Wf(t) && Derivative(m, t, v) == PowerRule(m, Leaf(Name(v)), d, Leaf(Number(1.0)))
  {
    var c := (d * JsNumber.Pow10Nat(p)) as real;
    var t := Node(Name("^"), [Leaf(Name(v)), Leaf(Number(c))]);
    ParseIntOfExponentNotation(d, p);
    Pow10Grows(p);
    PowerOfVariableFixed(m, v, c);
    PowerStep(m, t, v);
    VariableRule(m, v);
  }

  /** derivative looks only at the simplified tree. */
  lemma DerivativeOfSimplified(m: MathLib, t: Node, v: string)
    requires Wf(t)
    ensures Derivative(m, Simplified(m, t), v) == Derivative(m, t, v)
  {
    WfBinary(t);
    SimplifyIdempotent(m, t);
  }
}
