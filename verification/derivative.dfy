/**
 * `derivative`: symbolic differentiation of an expression tree with respect
 * to one variable.
 *
 * derivative first simplifies its argument (in place, which leaves the
 * caller's tree as `Reshaped(t)`), answers 0 when the simplified tree does not
 * mention the variable, and otherwise applies the sum, product, integer
 * power, quotient and chain rules, re-simplifying the trees it builds (all but
 * the chain rule's).  A variable differentiates to 1 and anything else it
 * cannot handle (a power with a non-integer exponent, say) to the simplified
 * tree itself.
 */
module Differentiation {
  import opened Chars
  import opened Numeric
  import opened Tree
  import opened Simplification
  import opened SimplifyFacts
  import JsNumber

  /**
   * `Number.isInteger(node.val)`: a number node with a whole value that is
   * neither NaN nor an infinity.
   */
  predicate IsIntegerAtom(m: MathLib, a: Atom)
  {
    a.Number? && a.x == a.x.Floor as real && a.x != m.nan && a.x != m.infinity && a.x != -m.infinity
  }

  /** Whole numbers of this magnitude or more print in exponent notation. */
  const ExponentNotationFrom: nat := 1000000000000000000000

  /** The power of ten of the leading digit of a positive whole number. */
  function Magnitude(k: nat): (p: nat)
    requires k > 0
    ensures JsNumber.Pow10Nat(p) <= k < 10 * JsNumber.Pow10Nat(p)
  {
    if k < 10 then 0
    else
      var p' := Magnitude(k / 10);
      assert JsNumber.Pow10Nat(p' + 1) == 10 * JsNumber.Pow10Nat(p');
      p' + 1
  }

  /** The leading decimal digit of a positive whole number. */
  function LeadingDigit(k: nat): (d: nat)
    requires k > 0
    ensures 1 <= d <= 9
  {
    if k < 10 then k else LeadingDigit(k / 10)
  }

  /** `d` is the leading digit of `k`: `d * 10^p <= k < (d + 1) * 10^p` for the magnitude `p` of `k`. */
  lemma {:induction false} LeadingDigitBounds(k: nat)
    requires k > 0
    ensures var d, q := LeadingDigit(k), JsNumber.Pow10Nat(Magnitude(k));
      d * q <= k < (d + 1) * q
  {
    if k >= 10 {
      LeadingDigitBounds(k / 10);
      var q' := JsNumber.Pow10Nat(Magnitude(k / 10));
      assert JsNumber.Pow10Nat(Magnitude(k)) == 10 * q';
      ScaleStep(LeadingDigit(k / 10), q', k);
    }
  }

  lemma ScaleStep(d: nat, q': nat, k: nat)
    requires d * q' <= k / 10 < (d + 1) * q'
    ensures d * (10 * q') <= k < (d + 1) * (10 * q')
  {
    assert d * (10 * q') == 10 * (d * q');
    assert (d + 1) * (10 * q') == 10 * ((d + 1) * q');
  }

  /**
   * `Number.parseInt(x)` of a whole number `x`: parseInt reads the integer
   * prefix of the number's text.  Below 10^21 in magnitude that text is the
   * number's digits; from 10^21 on it is `d.ddde+NN` (or `-d.ddde+NN`), whose
   * integer prefix is the leading digit alone.
   */
  function ParseIntOfWhole(x: real): (r: int)
    requires x == x.Floor as real
    ensures -(ExponentNotationFrom as real) < x < ExponentNotationFrom as real ==> r as real == x
    ensures x >= ExponentNotationFrom as real ==> 1 <= r <= 9
    ensures x <= -(ExponentNotationFrom as real) ==> -9 <= r <= -1
  {
    if x >= ExponentNotationFrom as real then LeadingDigit(x.Floor)
    else if x <= -(ExponentNotationFrom as real) then -(LeadingDigit(-x.Floor) as int)
    else x.Floor
  }

  /** A digit followed by zeros: its leading digit is that digit, whatever the number of zeros. */
  lemma {:induction false} LeadingDigitOfScaled(d: nat, p: nat)
    requires 1 <= d <= 9
    ensures d * JsNumber.Pow10Nat(p) > 0
    ensures Magnitude(d * JsNumber.Pow10Nat(p)) == p && LeadingDigit(d * JsNumber.Pow10Nat(p)) == d
  {
    if p > 0 {
      LeadingDigitOfScaled(d, p - 1);
      ShiftedDigit(d, JsNumber.Pow10Nat(p - 1), JsNumber.Pow10Nat(p));
    }
  }

  lemma ShiftedDigit(d: nat, q': nat, q: nat)
    requires 1 <= d <= 9 && q' >= 1 && q == 10 * q'
    ensures d * q >= 10 && (d * q) / 10 == d * q'
  {
    assert d * q == 10 * (d * q');
  }

  /** Every power of ten from the 21st on prints in exponent notation. */
  lemma {:induction false} Pow10Grows(p: nat)
    requires p >= 21
    ensures JsNumber.Pow10Nat(p) >= ExponentNotationFrom
  {
    if p == 21 {
      assert JsNumber.Pow10Nat(7) == 10000000;
      assert JsNumber.Pow10Nat(14) == 100000000000000;
    } else {
      Pow10Grows(p - 1);
    }
  }

  /**
   * A whole number `d * 10^p` with `p >= 21` prints as `de+p`, and parseInt
   * reads it as `d`; its negation as `-d`.
   */
  lemma ParseIntOfExponentNotation(d: nat, p: nat)
    requires 1 <= d <= 9 && p >= 21
    ensures var k: int := d * JsNumber.Pow10Nat(p);
      ParseIntOfWhole(k as real) == d && ParseIntOfWhole((-k) as real) == -(d as int)
  {
    var k: int := d * JsNumber.Pow10Nat(p);
    LeadingDigitOfScaled(d, p);
    Pow10Grows(p);
    assert k >= JsNumber.Pow10Nat(p);
    assert k as real >= ExponentNotationFrom as real;
  }

  /** From 10^21 on, parseInt reads the leading digit: `r * 10^p <= x < (r + 1) * 10^p`. */
  lemma ParseIntReadsLeadingDigit(x: real)
    requires x == x.Floor as real && x >= ExponentNotationFrom as real
    ensures var r, q := ParseIntOfWhole(x), JsNumber.Pow10Nat(Magnitude(x.Floor));
      r * q <= x.Floor < (r + 1) * q
  {
    LeadingDigitBounds(x.Floor);
  }

  /** simplify on a well-formed tree, which stays well formed. */
  function Simplified(m: MathLib, t: Node): (r: Node)
    requires Wf(t)
    ensures Wf(r) && Size(r) <= Size(t)
  {
    WfBinary(t);
    Simplify(m, t)
  }

  lemma WfOperator(op: string, x: Node, y: Node)
    requires IsOpToken(op) && Wf(x) && Wf(y)
    ensures Wf(Node(Name(op), [x, y]))
  {
    AtomClasses(Name(op));
  }

  lemma WfApplication(f: string, x: Node)
    requires IsFunctionName(f) && Wf(x)
    ensures Wf(Node(Name(f), [x]))
  {
    AtomClasses(Name(f));
  }

  /** `ddVarFunc`: the derivative of the function `f` at `arg`; 0 for the functions without a rule. */
  function FunctionSlope(f: string, arg: Node): (r: Node)
    requires Wf(arg)
    ensures Wf(r)
  {
    if f == "sin" then
      WfApplication("cos", arg);
      Node(Name("cos"), [arg])
    else if f == "cos" then
      WfApplication("sin", arg);
      WfOperator("*", Leaf(Number(-1.0)), Node(Name("sin"), [arg]));
      Node(Name("*"), [Leaf(Number(-1.0)), Node(Name("sin"), [arg])])
    else if f == "exp" then
      WfApplication("exp", arg);
      Node(Name("exp"), [arg])
    else if f == "log" then
      WfOperator("/", Leaf(Number(1.0)), arg);
      Node(Name("/"), [Leaf(Number(1.0)), arg])
    else if f == "tan" then
      var tanSq := Node(Name("^"), [Node(Name("tan"), [arg]), Leaf(Number(2.0))]);
      WfApplication("tan", arg);
      WfOperator("^", Node(Name("tan"), [arg]), Leaf(Number(2.0)));
      WfOperator("+", Leaf(Number(1.0)), tanSq);
      Node(Name("+"), [Leaf(Number(1.0)), tanSq])
    else Leaf(Number(0.0))
  }

  /** The sum and difference rules, given the derivatives `dl` and `dr` of the two operands. */
  function SumRule(m: MathLib, op: string, dl: Node, dr: Node): (r: Node)
    requires (op == "+" || op == "-") && Wf(dl) && Wf(dr)
    ensures Wf(r)
  {
    WfOperator(op, dl, dr);
    Simplified(m, Node(Name(op), [dl, dr]))
  }

  /** The product rule `l' * r + l * r'`. */
  function ProductRule(m: MathLib, l: Node, r: Node, dl: Node, dr: Node): (res: Node)
    requires Wf(l) && Wf(r) && Wf(dl) && Wf(dr)
    ensures Wf(res)
  {
    var opL2 := Node(Name("*"), [dl, r]);
    var opR2 := Node(Name("*"), [l, dr]);
    WfOperator("*", dl, r);
    WfOperator("*", l, dr);
    WfOperator("+", opL2, opR2);
    Simplified(m, Node(Name("+"), [opL2, opR2]))
  }

  /** The power rule `n * b^(n-1) * b'` for a whole exponent `n`. */
  function PowerRule(m: MathLib, b: Node, n: int, db: Node): (r: Node)
    requires Wf(b) && Wf(db)
    ensures Wf(r)
  {
    var pow := Node(Name("^"), [b, Leaf(Number((n - 1) as real))]);
    var opL := Node(Name("*"), [Leaf(Number(n as real)), pow]);
    WfOperator("^", b, Leaf(Number((n - 1) as real)));
    WfOperator("*", Leaf(Number(n as real)), pow);
    WfOperator("*", opL, db);
    Simplified(m, Node(Name("*"), [opL, db]))
  }

  /** The quotient rule, written `num'/den - den^(-2) * (num * den')`. */
  function QuotientRule(m: MathLib, num: Node, den: Node, dnum: Node, dden: Node): (r: Node)
    requires Wf(num) && Wf(den) && Wf(dnum) && Wf(dden)
    ensures Wf(r)
  {
    var opL := Node(Name("/"), [dnum, den]);
    var part1 := Node(Name("^"), [den, Leaf(Number(-2.0))]);
    var part2 := Node(Name("*"), [num, dden]);
    var opR := Node(Name("*"), [part1, part2]);
    WfOperator("/", dnum, den);
    WfOperator("^", den, Leaf(Number(-2.0)));
    WfOperator("*", num, dden);
    WfOperator("*", part1, part2);
    WfOperator("-", opL, opR);
    Simplified(m, Node(Name("-"), [opL, opR]))
  }

  /** The chain rule `f'(arg) * arg'`, left unsimplified. */
  function ChainRule(f: string, arg: Node, darg: Node): (r: Node)
    requires Wf(arg) && Wf(darg)
    ensures Wf(r)
  {
    WfOperator("*", FunctionSlope(f, arg), darg);
    Node(Name("*"), [FunctionSlope(f, arg), darg])
  }

  /** derivative(t, v). */
  function Derivative(m: MathLib, t: Node, v: string): (r: Node)
    requires Wf(t)
    ensures Wf(r)
    decreases Size(t)
  {
    var e := Simplified(m, t);
    if !Contains(e, v) then Leaf(Number(0.0))
    else if e.val == Name("+") || e.val == Name("-") then
      ChildSmaller(e, 0);
      ChildSmaller(e, 1);
      SumRule(m, e.val.s, Derivative(m, e.nodes[0], v), Derivative(m, e.nodes[1], v))
    else if e.val == Name("*") then
      ChildSmaller(e, 0);
      ChildSmaller(e, 1);
      ProductRule(m, e.nodes[0], e.nodes[1], Derivative(m, e.nodes[0], v), Derivative(m, e.nodes[1], v))
    else if e.val == Name("^") && IsIntegerAtom(m, e.nodes[1].val) then
      ChildSmaller(e, 0);
      PowerRule(m, e.nodes[0], ParseIntOfWhole(e.nodes[1].val.x), Derivative(m, e.nodes[0], v))
    else if e.val == Name("/") then
      ChildSmaller(e, 0);
      ChildSmaller(e, 1);
      QuotientRule(m, e.nodes[0], e.nodes[1], Derivative(m, e.nodes[0], v), Derivative(m, e.nodes[1], v))
    else if IsFunctionAtom(e.val) then
      ChildSmaller(e, 0);
      ChainRule(e.val.s, e.nodes[0], Derivative(m, e.nodes[0], v))
    else if e.val == Name(v) then Leaf(Number(1.0))
    else Simplified(m, e)
  }
}
