/**
 * The shunting-yard conversion from the token stack of getExpressionStack to
 * a reverse Polish list: `handleOperators` and `shuntingYard`.
 */
module Shunting {
  import opened Chars
  import opened JsNumber
  import opened Tokenizer
  import opened TokenizerFacts

  /** A JavaScript array of tokens that the engine consumes with `pop` or `shift`. */
  class TokenList {
    var items: seq<string>

    constructor(items0: seq<string>)
      ensures items == items0
    {
      items := items0;
    }

    /** `pop()` on a non-empty array. */
    method Pop() returns (t: string)
      requires items != []
      modifies this
      ensures t == old(items)[|old(items)| - 1] && items == old(items)[..|old(items)| - 1]
    {
      t := items[|items| - 1];
      items := items[..|items| - 1];
    }

    /** `shift()` on a non-empty array. */
    method Shift() returns (t: string)
      requires items != []
      modifies this
      ensures t == old(items)[0] && items == old(items)[1..]
    {
      t := items[0];
      items := items[1..];
    }
  }

  /** `precedenceOf(opNew) > precedenceOf(opPrev)`; a comparison with `undefined` is false. */
  predicate Outranks(opNew: string, opPrev: string)
  {
    var a := PrecedenceOf(opNew);
    var b := PrecedenceOf(opPrev);
    a.Some? && b.Some? && a.value > b.value
  }

  /**
   * Only an operator is ever outranked, never by itself, and every function
   * outranks every operator; `+` and `-` outrank nothing.
   */
  lemma OutranksOperators(opNew: string, opPrev: string)
    ensures Outranks(opNew, opPrev) ==> IsOpToken(opPrev) && opNew != opPrev
    ensures IsFunctionName(opNew) && IsOpToken(opPrev) ==> Outranks(opNew, opPrev)
    ensures opNew == "+" || opNew == "-" ==> !Outranks(opNew, opPrev)
  {
  }

  /** The number of open parentheses on an operator stack. */
  function Opens(ops: seq<string>): nat
  {
    if ops == [] then 0 else Opens(ops[..|ops| - 1]) + (if ops[|ops| - 1] == "(" then 1 else 0)
  }

  lemma OpensPush(ops: seq<string>, t: string)
    ensures Opens(ops + [t]) == Opens(ops) + (if t == "(" then 1 else 0)
  {
    assert (ops + [t])[..|ops|] == ops;
  }

  lemma {:induction false} OpensIn(ops: seq<string>)
    ensures Opens(ops) > 0 ==> "(" in ops
  {
    if ops != [] {
      OpensIn(ops[..|ops| - 1]);
    }
  }

  /**
   * handleOperators: pop into the output while the top is not `(` and the new
   * operator does not outrank it, then push the new operator.
   */
  function HandleOp(opNew: string, ops: seq<string>, rpn: seq<string>): (r: (seq<string>, seq<string>))
    ensures opNew != "(" ==> Opens(r.0) == Opens(ops)
    decreases |ops|
  {
    OpensPush(ops, opNew);
    if ops == [] then (ops + [opNew], rpn)
    else
      var top := ops[|ops| - 1];
      if top == "(" || Outranks(opNew, top) then (ops + [opNew], rpn)
      else HandleOp(opNew, ops[..|ops| - 1], rpn + [top])
  }

  /** The loop for `)`: pop into the output down to the nearest `(`, which is dropped. */
  function CloseParen(ops: seq<string>, rpn: seq<string>): (r: (seq<string>, seq<string>))
    requires Opens(ops) > 0
    ensures Opens(r.0) + 1 == Opens(ops)
    decreases |ops|
  {
    var top := ops[|ops| - 1];
    if top == "(" then (ops[..|ops| - 1], rpn)
    else CloseParen(ops[..|ops| - 1], rpn + [top])
  }

  /** Reading `ts` from `opens` open parentheses, no `)` comes without an open `(`. */
  predicate Matched(ts: seq<string>, opens: nat)
  {
    if ts == [] then true
    else if ts[0] == "(" then Matched(ts[1..], opens + 1)
    else if ts[0] == ")" then opens > 0 && Matched(ts[1..], opens - 1)
    else Matched(ts[1..], opens)
  }

  /** What one token read from the expression stack does to the operator stack and the output. */
  function Step(c: string, ops: seq<string>, rpn: seq<string>): (r: (seq<string>, seq<string>))
    requires c == ")" ==> Opens(ops) > 0
    ensures Opens(r.0) == if c == "(" then Opens(ops) + 1 else if c == ")" then Opens(ops) - 1 else Opens(ops)
  {
    if IsNumeric(c) then
      TokenClasses("(");
      TokenClasses(")");
      (ops, rpn + [c])
    else if c == "(" then
      OpensPush(ops, "(");
      (ops + ["("], rpn)
    else if c == ")" then CloseParen(ops, rpn)
    else if IsOpToken(c) || (|c| > 0 && IsLetter(c[0]) && IsFunctionName(c)) then HandleOp(c, ops, rpn)
    else if |c| > 0 && IsLetter(c[0]) then (ops, rpn + [c])
    else (ops, rpn)
  }

  /**
   * The shunting-yard on the tokens in reading order `ts`, with operator stack
   * `ops` and output `rpn` so far: what is left on the operator stack at the
   * end goes to the output, top first.  A `)` without an open `(` makes the
   * source loop forever, hence the precondition.
   */
  function ShuntFrom(ts: seq<string>, ops: seq<string>, rpn: seq<string>): seq<string>
    requires Matched(ts, Opens(ops))
    decreases |ts|
  {
    if ts == [] then rpn + Reverse(ops)
    else
      var r := Step(ts[0], ops, rpn);
      ShuntFrom(ts[1..], r.0, r.1)
  }

  /** What shuntingYard returns for the stack `exprStack` (the last token is read first). */
  function ShuntingYardOf(exprStack: seq<string>): seq<string>
    requires Matched(Reverse(exprStack), 0)
  {
    ShuntFrom(Reverse(exprStack), [], [])
  }

  /** handleOperators, on the operator stack `ops0` and output `rpn0`. */
  method HandleOperators(opNew: string, ops0: seq<string>, rpn0: seq<string>) returns (ops: seq<string>, rpn: seq<string>)
    ensures (ops, rpn) == HandleOp(opNew, ops0, rpn0)
  {
    ops, rpn := ops0, rpn0;
    if |ops| > 0 {
      while |ops| > 0
        invariant HandleOp(opNew, ops, rpn) == HandleOp(opNew, ops0, rpn0)
        invariant |ops| > 0
        decreases |ops|
      {
        ghost var before := ops;
        var opPrev := ops[|ops| - 1];
        ops := ops[..|ops| - 1];
        assert before == ops + [opPrev];
        if opPrev == "(" || Outranks(opNew, opPrev) {
          ops := ops + [opPrev];
          ops := ops + [opNew];
          break;
        } else {
          rpn := rpn + [opPrev];
          if |ops| == 0 {
            ops := ops + [opNew];
            break;
          }
        }
      }
    } else {
      ops := ops + [opNew];
    }
  }

  /** The loop for `)` in shuntingYard. */
  method PopToLeftParenthesis(ops0: seq<string>, rpn0: seq<string>) returns (ops: seq<string>, rpn: seq<string>)
    requires Opens(ops0) > 0
    ensures (ops, rpn) == CloseParen(ops0, rpn0)
  {
    ops, rpn := ops0, rpn0;
    var e := ops[|ops| - 1];
    ops := ops[..|ops| - 1];
    assert ops0 == ops + [e];
    while e != "("
      invariant Opens(ops + [e]) > 0
      invariant CloseParen(ops + [e], rpn) == CloseParen(ops0, rpn0)
      decreases |ops|
    {
      assert (ops + [e])[..|ops|] == ops;
      OpensPush(ops, e);
      rpn := rpn + [e];
      e := ops[|ops| - 1];
      assert ops == ops[..|ops| - 1] + [e];
      ops := ops[..|ops| - 1];
    }
    assert (ops + [e])[..|ops|] == ops;
  }

  /** The body of shuntingYard's first loop, for the token `c` it has just popped. */
  method ShuntToken(c: string, ops0: seq<string>, rpn0: seq<string>) returns (ops: seq<string>, rpn: seq<string>)
    requires c == ")" ==> Opens(ops0) > 0
    ensures (ops, rpn) == Step(c, ops0, rpn0)
  {
    ops, rpn := ops0, rpn0;
    if IsNumeric(c) {
      rpn := rpn + [c];
    } else if c == "(" {
      ops := ops + [c];
    } else if c == ")" {
      ops, rpn := PopToLeftParenthesis(ops, rpn);
    } else if IsOpToken(c) {
      ops, rpn := HandleOperators(c, ops, rpn);
    } else if |c| > 0 && IsLetter(c[0]) {
      if IsFunctionName(c) {
        ops, rpn := HandleOperators(c, ops, rpn);
      } else {
        rpn := rpn + [c];
      }
    }
  }

  /** shuntingYard: pops every token of `exprStack`, which it leaves empty. */
  method ShuntingYard(exprStack: TokenList) returns (rpn: seq<string>)
    requires Matched(Reverse(exprStack.items), 0)
    modifies exprStack
    ensures exprStack.items == []
    ensures rpn == ShuntingYardOf(old(exprStack.items))
  {
    rpn := [];
    var ops: seq<string> := [];
    while |exprStack.items| > 0
      invariant Matched(Reverse(exprStack.items), Opens(ops))
      invariant ShuntFrom(Reverse(exprStack.items), ops, rpn) == ShuntingYardOf(old(exprStack.items))
      decreases |exprStack.items|
    {
      ghost var ts := Reverse(exprStack.items);
      var c := exprStack.Pop();
      assert ts[0] == c && ts[1..] == Reverse(exprStack.items);
      ops, rpn := ShuntToken(c, ops, rpn);
    }
    while |ops| > 0
      invariant rpn + Reverse(ops) == ShuntingYardOf(old(exprStack.items))
      decreases |ops|
    {
      assert Reverse(ops) == [ops[|ops| - 1]] + Reverse(ops[..|ops| - 1]);
      rpn := rpn + [ops[|ops| - 1]];
      ops := ops[..|ops| - 1];
    }
  }
}
