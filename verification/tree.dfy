/**
 * The expression tree of the Minkowski sketch: the `Node` class, `contains`,
 * the infix rendering `stringifyNode`, the plain-number `evaluate`, and the
 * third consumer of a reverse Polish list, `turnRPNExpressionToTree`.
 *
 * A node holds a value (an operator, function or variable name, a number, or
 * `undefined` where the builder popped an empty stack) and its children.
 * Trees are modelled as values; how `simplify` updates them in place is
 * described next to `Simplify`.
 */
module Tree {
  import opened Wrappers
  import opened Chars
  import opened JsNumber
  import opened Numeric
  import opened Shunting
  import opened Rpn

  /** The `_val` of a node. */
  datatype Atom = Name(s: string) | Number(x: real) | Undefined

  datatype Node = Node(val: Atom, nodes: seq<Node>)

  /** `new Node(val)`: a node without children. */
  function Leaf(a: Atom): Node { Node(a, []) }

  /** `isSingleCharacterOp(node.val)`: only a one-character operator string passes. */
  predicate IsOpAtom(a: Atom) { a.Name? && IsOpToken(a.s) }

  /** A key of the function table. */
  predicate IsFunctionAtom(a: Atom) { a.Name? && IsFunctionName(a.s) }

  /** `!isNaN(parseFloat(node.val))`: the values that read as numbers are the numbers. */
  predicate IsNumberAtom(a: Atom) { a.Number? }

  lemma AtomClasses(a: Atom)
    ensures !(IsOpAtom(a) && IsFunctionAtom(a))
  {
    if IsFunctionAtom(a) {
      FunctionIsNamed(a.s);
    }
  }

  /** Operators have two children and functions at least one, all the way down. */
  predicate Wf(t: Node)
  {
    (IsOpAtom(t.val) ==> |t.nodes| == 2)
    && (IsFunctionAtom(t.val) ==> |t.nodes| >= 1)
    && forall i :: 0 <= i < |t.nodes| ==> Wf(t.nodes[i])
  }

  /** Operators have two children, all the way down. */
  predicate Binary(t: Node)
  {
    (IsOpAtom(t.val) ==> |t.nodes| == 2)
    && forall i :: 0 <= i < |t.nodes| ==> Binary(t.nodes[i])
  }

  lemma {:induction false} WfBinary(t: Node)
    requires Wf(t)
    ensures Binary(t)
  {
    forall i | 0 <= i < |t.nodes|
      ensures Binary(t.nodes[i])
    {
      WfBinary(t.nodes[i]);
    }
  }

  /** The number of nodes. */
  function Size(t: Node): nat
  {
    1 + SizeList(t.nodes)
  }

  function SizeList(ns: seq<Node>): nat
  {
    if ns == [] then 0 else Size(ns[0]) + SizeList(ns[1..])
  }

  lemma {:induction false} SizeListAt(ns: seq<Node>, i: nat)
    requires i < |ns|
    ensures Size(ns[i]) <= SizeList(ns)
  {
    if i > 0 {
      SizeListAt(ns[1..], i - 1);
    }
  }

  /** A child has fewer nodes than its parent. */
  lemma ChildSmaller(t: Node, i: nat)
    requires i < |t.nodes|
    ensures Size(t.nodes[i]) < Size(t)
  {
    SizeListAt(t.nodes, i);
  }

  /** The strings that are the value of some node of the tree. */
  function Names(t: Node): set<string>
  {
    (if t.val.Name? then {t.val.s} else {})
    + set i, s | 0 <= i < |t.nodes| && s in Names(t.nodes[i]) :: s
  }

  /** `contains(symbol)`: the value of some node of the tree is the string `symbol`. */
  predicate Contains(t: Node, symbol: string)
    ensures Contains(t, symbol) <==> symbol in Names(t)
  {
    t.val == Name(symbol) || exists i :: 0 <= i < |t.nodes| && Contains(t.nodes[i], symbol)
  }

  /* ---------------- stringifyNode ---------------- */

  /** `${node.val}` for a value that is not an operator or function. */
  function AtomText(m: MathLib, a: Atom): string
  {
    match a
    case Name(s) => s
    case Number(x) => m.show(x)
    case Undefined => "undefined"
  }

  /** A child operator of lower precedence than its parent gets parentheses. */
  predicate NeedsParentheses(child: Atom, parent: Atom)
    requires IsOpAtom(parent)
  {
    IsOpAtom(child) && PrecedenceOf(child.s).value < PrecedenceOf(parent.s).value
  }

  function Wrap(needed: bool, s: string): string
  {
    if needed then "(" + s + ")" else s
  }

  /**
   * stringifyNode: infix text; `undefined` (None) for a function node whose
   * number of children is not one.
   */
  function Stringify(m: MathLib, t: Node): (r: Option<string>)
    requires Binary(t)
    ensures r.None? <==> IsFunctionAtom(t.val) && |t.nodes| != 1
  {
    AtomClasses(t.val);
    if IsOpAtom(t.val) then
      var opL := t.nodes[0];
      var opR := t.nodes[1];
      var strL := TextOf(Stringify(m, opL));
      var strR := TextOf(Stringify(m, opR));
      Some(Wrap(NeedsParentheses(opL.val, t.val), strL) + t.val.s + Wrap(NeedsParentheses(opR.val, t.val), strR))
    else if IsFunctionAtom(t.val) then
      if |t.nodes| == 1 then Some(t.val.s + "(" + TextOf(Stringify(m, t.nodes[0])) + ")") else None
    else Some(AtomText(m, t.val))
  }

  /**
   * The parser groups operators of equal precedence to the left, so a right
   * child of the same precedence as its parent needs parentheses too.
   */
  predicate NeedsRightParentheses(child: Atom, parent: Atom)
    requires IsOpAtom(parent)
  {
    IsOpAtom(child) && PrecedenceOf(child.s).value <= PrecedenceOf(parent.s).value
  }

  /**
   * The rendering stringifyNode is meant to give: as `Stringify`, except that
   * a right child of equal precedence is parenthesised as well.
   */
  function StringifyGrouped(m: MathLib, t: Node): (r: Option<string>)
    requires Binary(t)
    ensures r.None? <==> IsFunctionAtom(t.val) && |t.nodes| != 1
  {
    AtomClasses(t.val);
    if IsOpAtom(t.val) then
      var opL := t.nodes[0];
      var opR := t.nodes[1];
      var strL := TextOf(StringifyGrouped(m, opL));
      var strR := TextOf(StringifyGrouped(m, opR));
      Some(Wrap(NeedsParentheses(opL.val, t.val), strL) + t.val.s + Wrap(NeedsRightParentheses(opR.val, t.val), strR))
    else if IsFunctionAtom(t.val) then
      if |t.nodes| == 1 then Some(t.val.s + "(" + TextOf(StringifyGrouped(m, t.nodes[0])) + ")") else None
    else Some(AtomText(m, t.val))
  }

  /* ---------------- evaluate and the meaning of a tree ---------------- */

  /**
   * evaluate, on plain numbers: a table function applied to the first
   * argument, an operator applied to the first two (JavaScript arithmetic on
   * a missing argument gives NaN), and 0.0 for any other name.
   */
  function Evaluate(m: MathLib, op: string, args: seq<real>): (r: Num)
    ensures !r.C?
  {
    if IsFunctionName(op) then
      var a := if |args| > 0 then R(args[0]) else Undef;
      ApplyFunction(m, op, a)
    else if op in ["+", "-", "*", "/", "^"] then
      if |args| < 2 then R(m.nan)
      else if op == "+" then R(args[0] + args[1])
      else if op == "-" then R(args[0] - args[1])
      else if op == "*" then R(args[0] * args[1])
      else if op == "/" then R(FDiv(m, args[0], args[1]))
      else R(m.pow(args[0], args[1]))
    else R(0.0)
  }

  /** The value of a child, `undefined` when it is missing. */
  function ChildMeaning(m: MathLib, env: map<string, Num>, t: Node, i: nat): Num
    decreases t, 0
  {
    if i < |t.nodes| then Meaning(m, env, t.nodes[i]) else Undef
  }

  /**
   * The value of a tree computed with the engine's polymorphic operations,
   * with variables read from `env` (`undefined` when unbound).
   */
  function Meaning(m: MathLib, env: map<string, Num>, t: Node): Num
    decreases t, 1
  {
    match t.val
    case Number(x) => R(x)
    case Undefined => Undef
    case Name(s) =>
      if IsOpToken(s) then
        OpTokenIsArith(s);
        BinaryOp(m, s[0], ChildMeaning(m, env, t, 0), ChildMeaning(m, env, t, 1))
      else if IsFunctionName(s) then ApplyFunction(m, s, ChildMeaning(m, env, t, 0))
      else if s in env then env[s]
      else Undef
  }

  /**
   * evaluate agrees with the engine's operations on plain numbers: `+ - * / ^`
   * on two numbers give what add, sub, mul, div and pow give, and a function
   * gets the first argument.
   */
  lemma EvaluateAgrees(m: MathLib, op: string, args: seq<real>)
    requires IsOpToken(op) || IsFunctionName(op)
    ensures IsOpToken(op) && |args| == 2 ==> IsOp(op[0]) && Evaluate(m, op, args) == BinaryOp(m, op[0], R(args[0]), R(args[1]))
    ensures IsFunctionName(op) ==> Evaluate(m, op, args) == ApplyFunction(m, op, if |args| > 0 then R(args[0]) else Undef)
  {
    if IsFunctionName(op) {
      FunctionIsNamed(op);
    } else if |args| == 2 {
      assert op == [op[0]];
      assert op in ["+", "-", "*", "/", "^"];
      PlainOperands(m, op[0], args[0], args[1]);
    }
  }

  /** The engine's operations on two plain numbers. */
  lemma PlainOperands(m: MathLib, c: char, x: real, y: real)
    requires IsOp(c)
    ensures BinaryOp(m, c, R(x), R(y)) ==
      if c == '+' then R(x + y)
      else if c == '-' then R(x - y)
      else if c == '*' then R(x * y)
      else if c == '/' then R(FDiv(m, x, y))
      else R(m.pow(x, y))
  {
  }

  /** The node that holds what evaluate returned. */
  function AtomOf(v: Num): (a: Atom)
    requires !v.C?
    ensures !a.Name? && !IsOpAtom(a) && !IsFunctionAtom(a)
  {
    match v
    case R(x) => Number(x)
    case Undef => Undefined
  }

  lemma MeaningOfAtom(m: MathLib, env: map<string, Num>, v: Num)
    requires !v.C?
    ensures Meaning(m, env, Leaf(AtomOf(v))) == v
  {
  }

  /* ---------------- shader code of a tree ---------------- */

  /** The text of a missing child, as a template literal renders `undefined`. */
  function ChildCode(m: MathLib, t: Node, i: nat): string
    decreases t, 0
  {
    if i < |t.nodes| then Code(m, t.nodes[i]) else "undefined"
  }

  /** The shader expression of a tree, in the form turnRPNExpressionToString writes. */
  function Code(m: MathLib, t: Node): string
    decreases t, 1
  {
    match t.val
    case Number(x) => LiteralCode(m, x)
    case Undefined => "undefined"
    case Name(s) =>
      if IsOpToken(s) then OpCode(s[0], ChildCode(m, t, 0), ChildCode(m, t, 1))
      else if IsFunctionName(s) then FunctionCode(s, ChildCode(m, t, 0))
      else s
  }

  /* ---------------- turnRPNExpressionToTree ---------------- */

  /** A popped node; `new Node(e, undefined)` wraps `undefined` in a node. */
  function NodeOf(o: Option<Node>): Node
  {
    match o
    case None => Leaf(Undefined)
    case Some(t) => t
  }

  /** What the tree builder does with one token. */
  function TreeStep(m: MathLib, e: string, stack: seq<Node>): seq<Node>
  {
    if IsNumeric(e) then stack + [Leaf(Number(ParseFloat(m, e)))]
    else if IsOpToken(e) then
      var opR := NodeOf(Last(stack));
      var opL := NodeOf(Last(Drop(stack)));
      Drop(Drop(stack)) + [Node(Name(e), [opL, opR])]
    else if |e| > 0 && IsLetter(e[0]) then
      if IsFunctionName(e) then Drop(stack) + [Node(Name(e), [NodeOf(Last(stack))])]
      else stack + [Leaf(Name(e))]
    else stack
  }

  function TreeFrom(m: MathLib, ts: seq<string>, stack: seq<Node>): seq<Node>
    decreases |ts|
  {
    if ts == [] then stack else TreeFrom(m, ts[1..], TreeStep(m, ts[0], stack))
  }

  /** What turnRPNExpressionToTree returns: the final top, or `undefined` (None). */
  function RunTree(m: MathLib, ts: seq<string>): Option<Node>
  {
    Last(TreeFrom(m, ts, []))
  }

  /** turnRPNExpressionToTree: works on a copy, so the caller's list is left as it was. */
  method TurnRPNExpressionToTree(m: MathLib, rpnListParam: seq<string>) returns (root: Option<Node>)
    ensures root == RunTree(m, rpnListParam)
  {
    var rpnList := new TokenList(rpnListParam);
    var rpnStack: seq<Node> := [];
    while |rpnList.items| > 0
      invariant TreeFrom(m, rpnList.items, rpnStack) == TreeFrom(m, rpnListParam, [])
      decreases |rpnList.items|
    {
      var e := rpnList.Shift();
      if IsNumeric(e) {
        rpnStack := rpnStack + [Leaf(Number(ParseFloat(m, e)))];
      } else if IsOpToken(e) {
        var opR, opL;
        rpnStack, opR := Pop(rpnStack);
        rpnStack, opL := Pop(rpnStack);
        rpnStack := rpnStack + [Node(Name(e), [NodeOf(opL), NodeOf(opR)])];
      } else if |e| > 0 && IsLetter(e[0]) {
        if IsFunctionName(e) {
          var val;
          rpnStack, val := Pop(rpnStack);
          rpnStack := rpnStack + [Node(Name(e), [NodeOf(val)])];
        } else {
          rpnStack := rpnStack + [Leaf(Name(e))];
        }
      }
    }
    root := Last(rpnStack);
  }

  predicate AllWf(stack: seq<Node>)
  {
    forall i :: 0 <= i < |stack| ==> Wf(stack[i])
  }

  lemma DropWf(stack: seq<Node>)
    requires AllWf(stack)
    ensures AllWf(Drop(stack)) && Wf(NodeOf(Last(stack)))
  {
  }

  lemma PushWf(stack: seq<Node>, t: Node)
    requires AllWf(stack) && Wf(t)
    ensures AllWf(stack + [t])
  {
  }

  lemma OperatorStepWf(e: string, stack: seq<Node>)
    requires AllWf(stack) && IsOpToken(e)
    ensures AllWf(Drop(Drop(stack)) + [Node(Name(e), [NodeOf(Last(Drop(stack))), NodeOf(Last(stack))])])
  {
    DropWf(stack);
    DropWf(Drop(stack));
    PushWf(Drop(Drop(stack)), Node(Name(e), [NodeOf(Last(Drop(stack))), NodeOf(Last(stack))]));
  }

  lemma FunctionStepWf(e: string, stack: seq<Node>)
    requires AllWf(stack) && IsFunctionName(e)
    ensures AllWf(Drop(stack) + [Node(Name(e), [NodeOf(Last(stack))])])
  {
    DropWf(stack);
    AtomClasses(Name(e));
    PushWf(Drop(stack), Node(Name(e), [NodeOf(Last(stack))]));
  }

  lemma StepWf(m: MathLib, e: string, stack: seq<Node>)
    requires AllWf(stack)
    ensures AllWf(TreeStep(m, e, stack))
  {
    if IsNumeric(e) {
      PushWf(stack, Leaf(Number(ParseFloat(m, e))));
    } else if IsOpToken(e) {
      OperatorStepWf(e, stack);
    } else if |e| > 0 && IsLetter(e[0]) {
      if IsFunctionName(e) {
        FunctionStepWf(e, stack);
      } else {
        PushWf(stack, Leaf(Name(e)));
      }
    }
  }

  lemma {:induction false} TreeFromWf(m: MathLib, ts: seq<string>, stack: seq<Node>)
    requires AllWf(stack)
    ensures AllWf(TreeFrom(m, ts, stack))
    decreases |ts|
  {
    if ts != [] {
      StepWf(m, ts[0], stack);
      TreeFromWf(m, ts[1..], TreeStep(m, ts[0], stack));
    }
  }

  /** Every tree the builder returns has two children under each operator and one under each function. */
  lemma RunTreeWf(m: MathLib, ts: seq<string>)
    ensures RunTree(m, ts).Some? ==> Wf(RunTree(m, ts).value)
  {
    TreeFromWf(m, ts, []);
  }

  /* ---------------- rendering facts ---------------- */

  /** A leaf that is neither an operator nor a function. */
  predicate IsPlainLeaf(t: Node)
  {
    t.nodes == [] && !IsOpAtom(t.val) && !IsFunctionAtom(t.val)
  }

  lemma PlainLeafText(m: MathLib, t: Node)
    requires IsPlainLeaf(t)
    ensures Binary(t) && Stringify(m, t) == Some(AtomText(m, t.val))
  {
  }

  /**
   * A right child of the same precedence gets no parentheses: `a-(b-c)` and
   * `(a-b)-c` render as the same text `a-b-c`.
   */
  lemma RightChildNotParenthesised(m: MathLib, a: Node, b: Node, c: Node)
    requires IsPlainLeaf(a) && IsPlainLeaf(b) && IsPlainLeaf(c)
    ensures var minus := Name("-");
      var right := Node(minus, [a, Node(minus, [b, c])]);
      var left := Node(minus, [Node(minus, [a, b]), c]);
      Binary(right) && Binary(left)
      && Stringify(m, right) == Stringify(m, left)
      == Some(AtomText(m, a.val) + "-" + AtomText(m, b.val) + "-" + AtomText(m, c.val))
  {
    var minus := Name("-");
    var ta, tb, tc := AtomText(m, a.val), AtomText(m, b.val), AtomText(m, c.val);
    PlainLeafText(m, a);
    PlainLeafText(m, c);
    LeavesText(m, minus, b, c);
    LeavesText(m, minus, a, b);
    UnwrappedText(m, minus, a, Node(minus, [b, c]), ta, tb + "-" + tc);
    UnwrappedText(m, minus, Node(minus, [a, b]), c, ta + "-" + tb, tc);
    assert ta + "-" + (tb + "-" + tc) == (ta + "-" + tb) + "-" + tc;
  }

  /**
   * An operator node renders as its children's texts around the operator,
   * each child in parentheses exactly when it is an operator of lower
   * precedence than the node's.
   */
  lemma OperatorText(m: MathLib, op: Atom, l: Node, r: Node, x: string, y: string)
    requires IsOpAtom(op) && Binary(l) && Binary(r)
    requires Stringify(m, l) == Some(x) && Stringify(m, r) == Some(y)
    ensures Binary(Node(op, [l, r]))
    ensures Stringify(m, Node(op, [l, r]))
      == Some(Wrap(NeedsParentheses(l.val, op), x) + op.s + Wrap(NeedsParentheses(r.val, op), y))
    ensures NeedsParentheses(l.val, op) <==> IsOpAtom(l.val) && PrecedenceOf(l.val.s).value < PrecedenceOf(op.s).value
    ensures NeedsParentheses(r.val, op) <==> IsOpAtom(r.val) && PrecedenceOf(r.val.s).value < PrecedenceOf(op.s).value
  {
  }

  /** A function node with one child renders as the function's name applied to the child's text. */
  lemma ApplicationText(m: MathLib, f: Atom, a: Node, x: string)
    requires IsFunctionAtom(f) && Binary(a) && Stringify(m, a) == Some(x)
    ensures Binary(Node(f, [a])) && Stringify(m, Node(f, [a])) == Some(f.s + "(" + x + ")")
  {
    AtomClasses(f);
  }

  /** A right child of lower precedence is parenthesised too: `a*(b+c)`. */
  lemma RightLowerChildParenthesised(m: MathLib, a: Node, b: Node, c: Node)
    requires IsPlainLeaf(a) && IsPlainLeaf(b) && IsPlainLeaf(c)
    ensures var t := Node(Name("*"), [a, Node(Name("+"), [b, c])]);
      Binary(t) && Stringify(m, t) == Some(AtomText(m, a.val) + "*(" + AtomText(m, b.val) + "+" + AtomText(m, c.val) + ")")
  {
    var bc := Node(Name("+"), [b, c]);
    var ta, tb, tc := AtomText(m, a.val), AtomText(m, b.val), AtomText(m, c.val);
    LeavesText(m, Name("+"), b, c);
    PlainLeafText(m, a);
    assert NeedsParentheses(bc.val, Name("*")) && !NeedsParentheses(a.val, Name("*"));
    OperatorText(m, Name("*"), a, bc, ta, tb + "+" + tc);
    RightParenRegroup(ta, tb, tc);
  }

  lemma RightParenRegroup(x: string, y: string, z: string)
    ensures x + "*" + ("(" + (y + "+" + z) + ")") == x + "*(" + y + "+" + z + ")"
  {
    assert "*" + "(" == "*(";
  }

  /** As `OperatorText`, for the corrected rendering: the right child is parenthesised at equal precedence too. */
  lemma GroupedOperatorText(m: MathLib, op: Atom, l: Node, r: Node, x: string, y: string)
    requires IsOpAtom(op) && Binary(l) && Binary(r)
    requires StringifyGrouped(m, l) == Some(x) && StringifyGrouped(m, r) == Some(y)
    ensures Binary(Node(op, [l, r]))
    ensures StringifyGrouped(m, Node(op, [l, r]))
      == Some(Wrap(NeedsParentheses(l.val, op), x) + op.s + Wrap(NeedsRightParentheses(r.val, op), y))
    ensures NeedsRightParentheses(r.val, op) <==> IsOpAtom(r.val) && PrecedenceOf(r.val.s).value <= PrecedenceOf(op.s).value
  {
  }

  /**
   * With the corrected rendering the two groupings stay apart: `a-(b-c)`
   * renders as `a-(b-c)` and `(a-b)-c` as `a-b-c`.
   */
  lemma GroupedRightChild(m: MathLib, a: Node, b: Node, c: Node)
    requires IsPlainLeaf(a) && IsPlainLeaf(b) && IsPlainLeaf(c)
    ensures var minus := Name("-");
      var right := Node(minus, [a, Node(minus, [b, c])]);
      var left := Node(minus, [Node(minus, [a, b]), c]);
      var ta, tb, tc := AtomText(m, a.val), AtomText(m, b.val), AtomText(m, c.val);
      Binary(right) && Binary(left)
      && StringifyGrouped(m, right) == Some(ta + "-(" + tb + "-" + tc + ")")
      && StringifyGrouped(m, left) == Some(ta + "-" + tb + "-" + tc)
      && StringifyGrouped(m, right) != StringifyGrouped(m, left)
  {
    var minus := Name("-");
    var ta, tb, tc := AtomText(m, a.val), AtomText(m, b.val), AtomText(m, c.val);
    GroupedLeavesText(m, minus, b, c);
    GroupedLeavesText(m, minus, a, b);
    GroupedRightText(m, a, Node(minus, [b, c]), ta, tb + "-" + tc);
    GroupedLeftText(m, Node(minus, [a, b]), c, ta + "-" + tb, tc);
    assert ta + "-(" + (tb + "-" + tc) + ")" == ta + "-(" + tb + "-" + tc + ")";
    assert |ta + "-(" + tb + "-" + tc + ")"| == |ta + "-" + tb + "-" + tc| + 2;
  }

  lemma GroupedLeavesText(m: MathLib, op: Atom, a: Node, b: Node)
    requires IsOpAtom(op) && IsPlainLeaf(a) && IsPlainLeaf(b)
    ensures Binary(Node(op, [a, b]))
    ensures StringifyGrouped(m, Node(op, [a, b])) == Some(AtomText(m, a.val) + op.s + AtomText(m, b.val))
  {
    assert StringifyGrouped(m, a) == Some(AtomText(m, a.val));
    assert StringifyGrouped(m, b) == Some(AtomText(m, b.val));
    assert !NeedsParentheses(a.val, op) && !NeedsRightParentheses(b.val, op);
  }

  lemma GroupedRightText(m: MathLib, a: Node, bc: Node, x: string, y: string)
    requires IsPlainLeaf(a) && StringifyGrouped(m, a) == Some(x)
    requires Binary(bc) && bc.val == Name("-") && StringifyGrouped(m, bc) == Some(y)
    ensures Binary(Node(Name("-"), [a, bc]))
    ensures StringifyGrouped(m, Node(Name("-"), [a, bc])) == Some(x + "-(" + y + ")")
  {
    assert !NeedsParentheses(a.val, Name("-")) && NeedsRightParentheses(bc.val, Name("-"));
    MinusParenRegroup(x, y);
  }

  lemma MinusParenRegroup(x: string, y: string)
    ensures x + "-" + ("(" + y + ")") == x + "-(" + y + ")"
  {
    assert "-" + "(" == "-(";
  }

  lemma GroupedLeftText(m: MathLib, ab: Node, c: Node, x: string, y: string)
    requires Binary(ab) && ab.val == Name("-") && StringifyGrouped(m, ab) == Some(x)
    requires IsPlainLeaf(c) && StringifyGrouped(m, c) == Some(y)
    ensures Binary(Node(Name("-"), [ab, c]))
    ensures StringifyGrouped(m, Node(Name("-"), [ab, c])) == Some(x + "-" + y)
  {
    assert !NeedsParentheses(ab.val, Name("-")) && !NeedsRightParentheses(c.val, Name("-"));
  }

  /** Children that need no parentheses render side by side around the operator. */
  lemma UnwrappedText(m: MathLib, op: Atom, l: Node, r: Node, x: string, y: string)
    requires IsOpAtom(op) && Binary(l) && Binary(r)
    requires Stringify(m, l) == Some(x) && Stringify(m, r) == Some(y)
    requires !NeedsParentheses(l.val, op) && !NeedsParentheses(r.val, op)
    ensures Binary(Node(op, [l, r])) && Stringify(m, Node(op, [l, r])) == Some(x + op.s + y)
  {
  }

  /** A child of lower precedence is parenthesised: `(a+b)*c`. */
  lemma LowerChildParenthesised(m: MathLib, a: Node, b: Node, c: Node)
    requires IsPlainLeaf(a) && IsPlainLeaf(b) && IsPlainLeaf(c)
    ensures var t := Node(Name("*"), [Node(Name("+"), [a, b]), c]);
      Binary(t) && Stringify(m, t) == Some("(" + AtomText(m, a.val) + "+" + AtomText(m, b.val) + ")*" + AtomText(m, c.val))
  {
    var ab := Node(Name("+"), [a, b]);
    var ta, tb, tc := AtomText(m, a.val), AtomText(m, b.val), AtomText(m, c.val);
    LeavesText(m, Name("+"), a, b);
    PlainLeafText(m, c);
    WrappedLeftText(m, ab, c, ta + "+" + tb, tc);
    ParenRegroup(ta, tb, tc);
  }

  lemma ParenRegroup(x: string, y: string, z: string)
    ensures "(" + (x + "+" + y) + ")" + "*" + z == "(" + x + "+" + y + ")*" + z
  {
    assert ")" + "*" == ")*";
  }

  /** An operator over two plain leaves renders as their texts around the operator. */
  lemma LeavesText(m: MathLib, op: Atom, a: Node, b: Node)
    requires IsOpAtom(op) && IsPlainLeaf(a) && IsPlainLeaf(b)
    ensures Binary(Node(op, [a, b]))
    ensures Stringify(m, Node(op, [a, b])) == Some(AtomText(m, a.val) + op.s + AtomText(m, b.val))
  {
    PlainLeafText(m, a);
    PlainLeafText(m, b);
    assert !NeedsParentheses(a.val, op) && !NeedsParentheses(b.val, op);
  }

  /** A `+` node under `*` is wrapped in parentheses; a plain leaf on the right is not. */
  lemma WrappedLeftText(m: MathLib, ab: Node, c: Node, x: string, y: string)
    requires Binary(ab) && ab.val == Name("+") && Stringify(m, ab) == Some(x)
    requires IsPlainLeaf(c) && Stringify(m, c) == Some(y)
    ensures Binary(Node(Name("*"), [ab, c]))
    ensures Stringify(m, Node(Name("*"), [ab, c])) == Some("(" + x + ")" + "*" + y)
  {
    assert NeedsParentheses(ab.val, Name("*")) && !NeedsParentheses(c.val, Name("*"));
  }
}
