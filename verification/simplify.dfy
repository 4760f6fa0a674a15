/**
 * `simplifyTopLevel` and `simplify`.
 *
 * simplify first replaces the children of a node, in place, by their
 * simplified forms and then applies one top-level rule.  The model works on
 * tree values: `Reshaped(t)` is the node `t` after its children have been
 * replaced (what the caller's tree looks like afterwards), and `Simplify(t)`
 * is what simplify returns.
 */
module Simplification {
  import opened Chars
  import opened JsNumber
  import opened Numeric
  import opened Rpn
  import opened Tree
  import opened RpnTree

  /** `e.val === 0.0` */
  predicate IsZero(t: Node) { t.val == Number(0.0) }

  /** `e.val === 1.0`, and also `parseFloat(e.val) === 1.0` for the exponent of `^` */
  predicate IsOne(t: Node) { t.val == Number(1.0) }

  /**
   * Every child holds a number: the model's reading of
   * `nodes.every(e => !isNaN(parseFloat(e.val)))`.  NaN is the real `m.nan`
   * of the host library here, so a child holding the NaN that an earlier fold
   * produced counts as a number, where the source's test rejects it.
   */
  predicate AllNumbers(ns: seq<Node>) { forall i :: 0 <= i < |ns| ==> ns[i].val.Number? }

  predicate AllZero(ns: seq<Node>) { forall i :: 0 <= i < |ns| ==> IsZero(ns[i]) }

  predicate AnyZero(ns: seq<Node>) { exists i :: 0 <= i < |ns| && IsZero(ns[i]) }

  /** `nodes.map(e => e.val)` on number nodes. */
  function Values(ns: seq<Node>): (r: seq<real>)
    requires AllNumbers(ns)
    ensures |r| == |ns| && forall i :: 0 <= i < |ns| ==> r[i] == ns[i].val.x
  {
    seq(|ns|, i requires 0 <= i < |ns| => ns[i].val.x)
  }

  /** `new Node('*', -1.0, x)`: what `0 - x` becomes. */
  function Negated(x: Node): Node
  {
    Node(Name("*"), [Leaf(Number(-1.0)), x])
  }

  lemma SizeOfTwo(a: Node, b: Node)
    ensures SizeList([a, b]) == Size(a) + Size(b)
  {
    assert [a, b][1..] == [b];
    assert [b][1..] == [];
    assert SizeList([b]) == Size(b) + SizeList([]);
    assert SizeList([a, b]) == Size(a) + SizeList([b]);
  }

  /** The `+` rules, on a node whose children are not all numbers. */
  function SimplifyAdd(t: Node): Node
    requires |t.nodes| == 2
  {
    if AllZero(t.nodes) then Leaf(Number(0.0))
    else if IsZero(t.nodes[0]) then t.nodes[1]
    else if IsZero(t.nodes[1]) then t.nodes[0]
    else t
  }

  /** The `-` rules. */
  function SimplifySub(t: Node): Node
    requires |t.nodes| == 2
  {
    if AllZero(t.nodes) then Leaf(Number(0.0))
    else if IsZero(t.nodes[0]) then Negated(t.nodes[1])
    else if IsZero(t.nodes[1]) then t.nodes[0]
    else t
  }

  /** The `*` rules. */
  function SimplifyMul(t: Node): Node
    requires |t.nodes| == 2
  {
    if AnyZero(t.nodes) then Leaf(Number(0.0))
    else if IsOne(t.nodes[1]) then t.nodes[0]
    else if IsOne(t.nodes[0]) then t.nodes[1]
    else t
  }

  /** The `^` rules, on `parseFloat` of the exponent's value. */
  function SimplifyPow(t: Node): Node
    requires |t.nodes| == 2
  {
    if IsOne(t.nodes[1]) then t.nodes[0]
    else if IsZero(t.nodes[1]) then Leaf(Number(1.0))
    else t
  }

  /** The `/` rule, on `parseFloat` of the numerator's value. */
  function SimplifyDiv(t: Node): Node
    requires |t.nodes| == 2
  {
    if IsZero(t.nodes[0]) then Leaf(Number(0.0)) else t
  }

  /** The outcomes of the `-` rules on a node that does not fold. */
  lemma SubCases(t: Node)
    requires |t.nodes| == 2 && !AllNumbers(t.nodes)
    ensures var r := SimplifySub(t);
      r == t || r == t.nodes[0] || r == Leaf(Number(0.0))
      || (r == Negated(t.nodes[1]) && !t.nodes[1].val.Number?)
  {
    if !AllZero(t.nodes) && IsZero(t.nodes[0]) && t.nodes[1].val.Number? {
      assert AllNumbers(t.nodes);
    }
  }

  /** The outcomes of the `+`, `*`, `^` and `/` rules. */
  lemma OtherRuleCases(t: Node)
    requires |t.nodes| == 2
    ensures var x, y := t.nodes[0], t.nodes[1];
      SimplifyAdd(t) in {t, x, y, Leaf(Number(0.0))}
      && SimplifyMul(t) in {t, x, y, Leaf(Number(0.0))}
      && SimplifyPow(t) in {t, x, Leaf(Number(1.0))}
      && SimplifyDiv(t) in {t, Leaf(Number(0.0))}
  {
  }

  /**
   * simplifyTopLevel: one rule at the root, children as they are.  It returns
   * the node itself, one of its children, a number (or `undefined`) leaf, or
   * `(-1)*x` for a second child `x` that is not a number; a node that is not an
   * operator or a table function is returned as it is.
   */
  function SimplifyTopLevel(m: MathLib, t: Node): (r: Node)
    requires Binary(t)
    ensures !(IsOpAtom(t.val) || IsFunctionAtom(t.val)) ==> r == t
    ensures || r == t
            || (exists i :: 0 <= i < |t.nodes| && r == t.nodes[i])
            || (r.nodes == [] && !r.val.Name?)
            || (|t.nodes| == 2 && r == Negated(t.nodes[1]) && !t.nodes[1].val.Number?)
  {
    if IsOpAtom(t.val) || IsFunctionAtom(t.val) then
      if AllNumbers(t.nodes) then Leaf(AtomOf(Evaluate(m, t.val.s, Values(t.nodes))))
      else if IsOpAtom(t.val) then
        SubCases(t);
        OtherRuleCases(t);
        if t.val == Name("+") then SimplifyAdd(t)
        else if t.val == Name("-") then SimplifySub(t)
        else if t.val == Name("*") then SimplifyMul(t)
        else if t.val == Name("^") then SimplifyPow(t)
        else if t.val == Name("/") then SimplifyDiv(t)
        else t
      else t
    else t
  }

  /** simplifyTopLevel keeps operators binary and functions applied, and never grows a tree. */
  lemma TopLevelKeepsShape(m: MathLib, t: Node)
    requires Binary(t)
    ensures var r := SimplifyTopLevel(m, t);
      Binary(r) && (Wf(t) ==> Wf(r)) && Size(r) <= Size(t)
  {
    var r := SimplifyTopLevel(m, t);
    if r != t && r.nodes != [] {
      if exists i :: 0 <= i < |t.nodes| && r == t.nodes[i] {
        var i :| 0 <= i < |t.nodes| && r == t.nodes[i];
        ChildSmaller(t, i);
      } else {
        SizeOfTwo(Leaf(Number(-1.0)), t.nodes[1]);
        SizeOfTwo(t.nodes[0], t.nodes[1]);
        assert t.nodes == [t.nodes[0], t.nodes[1]];
        assert Size(Leaf(Number(-1.0))) == 1;
      }
    }
  }

  predicate AllBinary(ns: seq<Node>) { forall i :: 0 <= i < |ns| ==> Binary(ns[i]) }

  /** simplify: the children first, then one rule at the root. */
  function Simplify(m: MathLib, t: Node): (r: Node)
    requires Binary(t)
    ensures Binary(r) && (Wf(t) ==> Wf(r)) && Size(r) <= Size(t)
    decreases t, 1
  {
    var u := Reshaped(m, t);
    TopLevelKeepsShape(m, u);
    SimplifyTopLevel(m, u)
  }

  /** The node `t` after `exprTree.nodes = exprTree.nodes.map(e => simplify(e))`. */
  function Reshaped(m: MathLib, t: Node): (r: Node)
    requires Binary(t)
    ensures r.val == t.val && |r.nodes| == |t.nodes|
    ensures Binary(r) && (Wf(t) ==> Wf(r)) && Size(r) <= Size(t)
    decreases t, 0
  {
    Node(t.val, SimplifyList(m, t.nodes))
  }

  function SimplifyList(m: MathLib, ns: seq<Node>): (r: seq<Node>)
    requires AllBinary(ns)
    ensures |r| == |ns| && AllBinary(r) && (AllWf(ns) ==> AllWf(r)) && SizeList(r) <= SizeList(ns)
    decreases ns, 2
  {
    if ns == [] then []
    else
      var r := [Simplify(m, ns[0])] + SimplifyList(m, ns[1..]);
      assert r[1..] == SimplifyList(m, ns[1..]);
      r
  }
}
