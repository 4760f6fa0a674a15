/**
 * Two of the consumers of a reverse Polish token list: the numeric evaluator
 * `computeRPNExpression`, the shader-code generator `turnRPNExpressionToString`,
 * and the free-variable scan `getVariablesFromRPNList`.
 *
 * Each consumer is a stack machine.  Its step on one token is a function, the
 * run over a list is the fold of that step, and the JavaScript loop, which
 * empties the list with `shift`, is a method proved equal to the fold.
 */
module Rpn {
  import opened Wrappers
  import opened Chars
  import opened JsNumber
  import opened Numeric
  import opened Shunting

  /* ---------------- a JavaScript array used as a stack ---------------- */

  /** The top of a stack, as `pop()` returns it (`undefined` when empty). */
  function Last<T>(s: seq<T>): (r: Option<T>)
    ensures r.Some? <==> s != []
    ensures s != [] ==> r.value == s[|s| - 1]
  {
    if s == [] then None else Some(s[|s| - 1])
  }

  /** The stack after `pop()`; popping an empty array leaves it empty. */
  function Drop<T>(s: seq<T>): (r: seq<T>)
    ensures |r| == if s == [] then 0 else |s| - 1
    ensures r == s[..|r|]
  {
    if s == [] then [] else s[..|s| - 1]
  }

  /** A popped value on the evaluation stack: `undefined` stands for an empty pop. */
  function TopNum(s: seq<Num>): Num
  {
    match Last(s)
    case None => Undef
    case Some(v) => v
  }

  /** A popped string as a template literal renders it. */
  function TextOf(o: Option<string>): string
  {
    match o
    case None => "undefined"
    case Some(s) => s
  }

  /** A token that the evaluator looks up in the variables: a letter start, not numeric, not a function. */
  predicate IsLookup(t: string)
  {
    !IsNumeric(t) && |t| > 0 && IsLetter(t[0]) && !IsFunctionName(t)
  }

  lemma OpTokenIsArith(e: string)
    requires IsOpToken(e)
    ensures IsOp(e[0]) && !IsLetter(e[0])
  {
  }

  /* ---------------- computeRPNExpression ---------------- */

  /** What the evaluator does with one token `e` shifted from the list. */
  function EvalStep(m: MathLib, vars: map<string, Num>, e: string, stack: seq<Num>): seq<Num>
  {
    if IsNumeric(e) then stack + [R(ParseFloat(m, e))]
    else if IsOpToken(e) then
      OpTokenIsArith(e);
      var opR := TopNum(stack);
      var opL := TopNum(Drop(stack));
      Drop(Drop(stack)) + [BinaryOp(m, e[0], opL, opR)]
    else if |e| > 0 && IsLetter(e[0]) then
      if IsFunctionName(e) then Drop(stack) + [ApplyFunction(m, e, TopNum(stack))]
      else if e in vars then stack + [vars[e]]
      else stack
    else stack
  }

  /** The evaluation stack after reading `ts` in order, starting from `stack`. */
  function EvalFrom(m: MathLib, vars: map<string, Num>, ts: seq<string>, stack: seq<Num>): seq<Num>
    decreases |ts|
  {
    if ts == [] then stack else EvalFrom(m, vars, ts[1..], EvalStep(m, vars, ts[0], stack))
  }

  /** What computeRPNExpression returns: the final top of the stack. */
  function RpnValue(m: MathLib, vars: map<string, Num>, ts: seq<string>): Num
  {
    TopNum(EvalFrom(m, vars, ts, []))
  }

  /** `rpnStack.pop()` on the evaluation stack. */
  method PopNum(stack0: seq<Num>) returns (stack: seq<Num>, v: Num)
    ensures stack == Drop(stack0) && v == TopNum(stack0)
  {
    if |stack0| == 0 {
      return stack0, Undef;
    }
    stack, v := stack0[..|stack0| - 1], stack0[|stack0| - 1];
  }

  /** computeRPNExpression: shifts every token off `rpnList`, which it leaves empty. */
  method ComputeRPNExpression(m: MathLib, rpnList: TokenList, vars: map<string, Num>) returns (v: Num)
    modifies rpnList
    ensures rpnList.items == []
    ensures v == RpnValue(m, vars, old(rpnList.items))
  {
    var rpnStack: seq<Num> := [];
    while |rpnList.items| > 0
      invariant EvalFrom(m, vars, rpnList.items, rpnStack) == EvalFrom(m, vars, old(rpnList.items), [])
      decreases |rpnList.items|
    {
      var e := rpnList.Shift();
      if IsNumeric(e) {
        rpnStack := rpnStack + [R(ParseFloat(m, e))];
      } else if IsOpToken(e) {
        var opR, opL;
        rpnStack, opR := PopNum(rpnStack);
        rpnStack, opL := PopNum(rpnStack);
        var val := BinaryOp(m, e[0], opL, opR);
        rpnStack := rpnStack + [val];
      } else if |e| > 0 && IsLetter(e[0]) {
        if IsFunctionName(e) {
          var val;
          rpnStack, val := PopNum(rpnStack);
          rpnStack := rpnStack + [ApplyFunction(m, e, val)];
        } else if e in vars {
          rpnStack := rpnStack + [vars[e]];
        }
      }
    }
    v := TopNum(rpnStack);
  }

  /** A literal pushes its parseFloat value. */
  lemma LiteralRule(m: MathLib, vars: map<string, Num>, e: string, s: seq<Num>)
    requires IsNumeric(e)
    ensures EvalStep(m, vars, e, s) == s + [R(ParseFloat(m, e))]
  {
  }

  /** An operator pops the right operand, then the left one, and pushes their combination. */
  lemma OperatorRule(m: MathLib, vars: map<string, Num>, e: string, s: seq<Num>, a: Num, b: Num)
    requires IsOpToken(e)
    ensures IsOp(e[0]) && EvalStep(m, vars, e, s + [a, b]) == s + [BinaryOp(m, e[0], a, b)]
  {
    PunctuationNotNumeric(e);
    OpTokenIsArith(e);
    OperatorStep(m, vars, e, s + [a, b]);
    PopTwo(s, a, b);
  }

  lemma OperatorStep(m: MathLib, vars: map<string, Num>, e: string, stack: seq<Num>)
    requires IsOpToken(e) && !IsNumeric(e)
    ensures EvalStep(m, vars, e, stack) == Drop(Drop(stack)) + [BinaryOp(m, e[0], TopNum(Drop(stack)), TopNum(stack))]
  {
  }

  /** Two pops from a stack that ends with a, b give b, then a, and leave the rest. */
  lemma PopTwo(s: seq<Num>, a: Num, b: Num)
    ensures TopNum(s + [a, b]) == b && TopNum(Drop(s + [a, b])) == a && Drop(Drop(s + [a, b])) == s
  {
    var t := s + [a, b];
    assert Drop(t) == s + [a] && TopNum(t) == b;
    assert Drop(s + [a]) == s && TopNum(s + [a]) == a;
  }

  /** A function pops one value and pushes its image. */
  lemma FunctionRule(m: MathLib, vars: map<string, Num>, e: string, s: seq<Num>, a: Num)
    requires IsFunctionName(e)
    ensures EvalStep(m, vars, e, s + [a]) == s + [ApplyFunction(m, e, a)]
  {
    FunctionIsNamed(e);
    assert Drop(s + [a]) == s && TopNum(s + [a]) == a;
  }

  /** A bound variable pushes its value; an unbound one pushes nothing. */
  lemma LookupRule(m: MathLib, vars: map<string, Num>, e: string, s: seq<Num>)
    requires IsLookup(e)
    ensures EvalStep(m, vars, e, s) == if e in vars then s + [vars[e]] else s
  {
    LetterNotOperator(e);
    NameStep(m, vars, e, s);
  }

  lemma LetterNotOperator(e: string)
    requires |e| > 0 && IsLetter(e[0])
    ensures !IsOpToken(e)
  {
  }

  lemma NameStep(m: MathLib, vars: map<string, Num>, e: string, s: seq<Num>)
    requires !IsNumeric(e) && !IsOpToken(e) && |e| > 0 && IsLetter(e[0]) && !IsFunctionName(e)
    ensures EvalStep(m, vars, e, s) == if e in vars then s + [vars[e]] else s
  {
  }

  /** Any other token (a parenthesis, a stray character) leaves the stack alone. */
  lemma OtherRule(m: MathLib, vars: map<string, Num>, e: string, s: seq<Num>)
    requires !IsNumeric(e) && !IsOpToken(e) && (e == [] || !IsLetter(e[0]))
    ensures EvalStep(m, vars, e, s) == s
  {
  }

  /** A function name starts with a letter and is not a number. */
  lemma FunctionIsNamed(f: string)
    requires IsFunctionName(f)
    ensures |f| > 0 && IsLetter(f[0]) && !IsNumeric(f) && !IsOpToken(f)
  {
    assert 0 < |f| < 8 && IsLetter(f[0]) by {
      assert f in FunctionNames;
    }
    TokenClasses(f);
  }

  /**
   * Stack underflow: an operator on a stack with fewer than two values pops
   * `undefined` for each missing operand, which makes the result `undefined`.
   */
  lemma Underflow(m: MathLib, vars: map<string, Num>, e: string, b: Num)
    requires IsOpToken(e)
    ensures EvalStep(m, vars, e, []) == [Undef]
    ensures EvalStep(m, vars, e, [b]) == [Undef]
  {
    TokenClasses(e);
    OpTokenIsArith(e);
  }

  /** Reading `ts1 + ts2` is reading `ts1` and then `ts2` from where it left off. */
  lemma {:induction false} EvalFromAppend(m: MathLib, vars: map<string, Num>, ts1: seq<string>, ts2: seq<string>, s: seq<Num>)
    ensures EvalFrom(m, vars, ts1 + ts2, s) == EvalFrom(m, vars, ts2, EvalFrom(m, vars, ts1, s))
    decreases |ts1|
  {
    if ts1 == [] {
      assert ts1 + ts2 == ts2;
    } else {
      assert (ts1 + ts2)[0] == ts1[0] && (ts1 + ts2)[1..] == ts1[1..] + ts2;
      EvalFromAppend(m, vars, ts1[1..], ts2, EvalStep(m, vars, ts1[0], s));
    }
  }

  /* ---------------- turnRPNExpressionToString ---------------- */

  /** The shader function each operator becomes. */
  function OpCall(op: char): string
  {
    match op
    case '+' => "add"
    case '-' => "sub"
    case '*' => "mul"
    case '/' => "div"
    case '^' => "powC"
    case _ => "undefined"
  }

  /** The shader text of a literal. */
  function LiteralCode(m: MathLib, x: real): string
  {
    "r2C(" + m.toExponential(x) + ")"
  }

  /** The shader text of an operator applied to the texts of its operands. */
  function OpCode(op: char, l: string, r: string): string
  {
    OpCall(op) + "(" + l + ", " + r + ")"
  }

  /** The shader text of a function applied to the text of its argument. */
  function FunctionCode(f: string, a: string): string
  {
    f + "C(" + a + ")"
  }

  /** What the code generator does with one token. */
  function StrStep(m: MathLib, e: string, stack: seq<string>): seq<string>
  {
    if IsNumeric(e) then stack + [LiteralCode(m, ParseFloat(m, e))]
    else if IsOpToken(e) then
      var opR := TextOf(Last(stack));
      var opL := TextOf(Last(Drop(stack)));
      Drop(Drop(stack)) + [OpCode(e[0], opL, opR)]
    else if |e| > 0 && IsLetter(e[0]) then
      if IsFunctionName(e) then Drop(stack) + [FunctionCode(e, TextOf(Last(stack)))]
      else stack + [e]
    else stack
  }

  function StrFrom(m: MathLib, ts: seq<string>, stack: seq<string>): seq<string>
    decreases |ts|
  {
    if ts == [] then stack else StrFrom(m, ts[1..], StrStep(m, ts[0], stack))
  }

  /** What turnRPNExpressionToString returns: the final top, or `undefined` (None). */
  function RpnString(m: MathLib, ts: seq<string>): Option<string>
  {
    Last(StrFrom(m, ts, []))
  }

  /** `rpnStack.pop()`, on the code stack here and on the node stack of the tree builder. */
  method Pop<T>(stack0: seq<T>) returns (stack: seq<T>, v: Option<T>)
    ensures stack == Drop(stack0) && v == Last(stack0)
  {
    if |stack0| == 0 {
      return stack0, None;
    }
    stack, v := stack0[..|stack0| - 1], Some(stack0[|stack0| - 1]);
  }

  /** turnRPNExpressionToString: shifts every token off `rpnList`, which it leaves empty. */
  method TurnRPNExpressionToString(m: MathLib, rpnList: TokenList) returns (code: Option<string>)
    modifies rpnList
    ensures rpnList.items == []
    ensures code == RpnString(m, old(rpnList.items))
  {
    var rpnStack: seq<string> := [];
    while |rpnList.items| > 0
      invariant StrFrom(m, rpnList.items, rpnStack) == StrFrom(m, old(rpnList.items), [])
      decreases |rpnList.items|
    {
      var e := rpnList.Shift();
      if IsNumeric(e) {
        rpnStack := rpnStack + [LiteralCode(m, ParseFloat(m, e))];
      } else if IsOpToken(e) {
        var opR, opL;
        rpnStack, opR := Pop(rpnStack);
        rpnStack, opL := Pop(rpnStack);
        rpnStack := rpnStack + [OpCode(e[0], TextOf(opL), TextOf(opR))];
      } else if |e| > 0 && IsLetter(e[0]) {
        if IsFunctionName(e) {
          var val;
          rpnStack, val := Pop(rpnStack);
          rpnStack := rpnStack + [FunctionCode(e, TextOf(val))];
        } else {
          rpnStack := rpnStack + [e];
        }
      }
    }
    code := Last(rpnStack);
  }

  /* ---------------- getVariablesFromRPNList ---------------- */

  /** The tokens getVariablesFromRPNList collects: a letter start and not a function name. */
  predicate IsVariableToken(t: string)
  {
    |t| > 0 && IsLetter(t[0]) && !IsFunctionName(t)
  }

  function VariablesOf(ts: seq<string>): set<string>
  {
    set t | t in ts && IsVariableToken(t)
  }

  method GetVariablesFromRPNList(rpnList: seq<string>) returns (variables: set<string>)
    ensures variables == VariablesOf(rpnList)
  {
    variables := {};
    for i := 0 to |rpnList|
      invariant variables == VariablesOf(rpnList[..i])
    {
      var e := rpnList[i];
      if |e| > 0 && IsLetter(e[0]) && !IsFunctionName(e) {
        variables := variables + {e};
      }
      assert rpnList[..i + 1] == rpnList[..i] + [e];
    }
    assert rpnList[..|rpnList|] == rpnList;
  }

  /**
   * The variables found are the tokens the evaluator looks up, together with
   * the letter-started tokens that parse as numbers (those starting with
   * `Infinity`), which the evaluator reads as literals instead.
   */
  lemma VariablesAreLookups(ts: seq<string>, t: string)
    ensures t in VariablesOf(ts) <==> t in ts && (IsLookup(t) || (IsNumeric(t) && |t| > 0 && IsLetter(t[0]) && !IsFunctionName(t)))
  {
  }

  /** Binding every variable found leaves no token that the evaluator skips as unbound. */
  lemma {:induction false} BoundVariables(ts: seq<string>, vars: map<string, Num>)
    requires VariablesOf(ts) <= vars.Keys
    ensures forall k :: 0 <= k < |ts| && IsLookup(ts[k]) ==> ts[k] in vars
  {
    forall k | 0 <= k < |ts| && IsLookup(ts[k])
      ensures ts[k] in vars
    {
      assert ts[k] in VariablesOf(ts);
    }
  }
}
