/**
 * What the shunting-yard promises: how an incoming operator pops the stack,
 * that the output keeps every token but the parentheses exactly once, left
 * association at equal precedence, and getRPNExprList, the composition of the
 * tokenizer and the shunting-yard.
 */
module ShuntingFacts {
  import opened Chars
  import opened JsNumber
  import opened Scanner
  import opened Tokenizer
  import opened TokenizerFacts
  import opened Shunting

  /* ---------------- one incoming operator ---------------- */

  /** An operator stack entry that the incoming operator `opNew` pops: neither `(` nor outranked. */
  predicate Yields(opNew: string, t: string) { t != "(" && !Outranks(opNew, t) }

  predicate AllYield(opNew: string, s: seq<string>) { forall j :: 0 <= j < |s| ==> Yields(opNew, s[j]) }

  /**
   * `r` is what handleOperators leaves when it keeps `ops[..k]`: the entries
   * `ops[k..]` all yield to `opNew` and went to the output top first, the
   * entry below them (if any) does not yield, and `opNew` is pushed.
   */
  predicate PopsDownTo(opNew: string, ops: seq<string>, rpn: seq<string>, r: (seq<string>, seq<string>), k: int)
  {
    0 <= k <= |ops| && r.0 == ops[..k] + [opNew] && r.1 == rpn + Reverse(ops[k..])
    && AllYield(opNew, ops[k..]) && (0 < k ==> !Yields(opNew, ops[k - 1]))
  }

  lemma ReverseSnoc(s: seq<string>, t: string)
    ensures Reverse(s + [t]) == [t] + Reverse(s)
  {
    assert (s + [t])[..|s|] == s;
  }

  lemma PopOneMore(opNew: string, ops: seq<string>, rpn: seq<string>, r: (seq<string>, seq<string>), k: int)
    requires |ops| > 0 && Yields(opNew, ops[|ops| - 1])
    requires PopsDownTo(opNew, ops[..|ops| - 1], rpn + [ops[|ops| - 1]], r, k)
    ensures PopsDownTo(opNew, ops, rpn, r, k)
  {
    var n := |ops|;
    var top := ops[n - 1];
    var init := ops[..n - 1];
    assert ops == init + [top];
    assert ops[k..] == init[k..] + [top];
    ReverseSnoc(init[k..], top);
    assert init[..k] == ops[..k];
    assert AllYield(opNew, ops[k..]) by {
      forall j | 0 <= j < |ops[k..]| ensures Yields(opNew, ops[k..][j]) {
        if j < |init[k..]| {
          assert ops[k..][j] == init[k..][j];
        }
      }
    }
  }

  /**
   * handleOperators pops into the output, top first, exactly the run of stack
   * entries above the nearest `(` that the new operator does not outrank, and
   * then pushes the new operator.
   */
  lemma {:induction false} HandleOpPops(opNew: string, ops: seq<string>, rpn: seq<string>)
    ensures exists k :: PopsDownTo(opNew, ops, rpn, HandleOp(opNew, ops, rpn), k)
    decreases |ops|
  {
    var r := HandleOp(opNew, ops, rpn);
    var n := |ops|;
    if ops == [] {
      assert ops[..0] == [] && ops[0..] == [];
      assert PopsDownTo(opNew, ops, rpn, r, 0);
    } else if !Yields(opNew, ops[n - 1]) {
      assert ops[..n] == ops && ops[n..] == [];
      assert PopsDownTo(opNew, ops, rpn, r, n);
    } else {
      var top := ops[n - 1];
      var init := ops[..n - 1];
      HandleOpPops(opNew, init, rpn + [top]);
      var k :| PopsDownTo(opNew, init, rpn + [top], HandleOp(opNew, init, rpn + [top]), k);
      assert r == HandleOp(opNew, init, rpn + [top]);
      PopOneMore(opNew, ops, rpn, r, k);
    }
  }

  /** `r` is what the loop for `)` leaves when the topmost `(` is `ops[k]`. */
  predicate ClosesAt(ops: seq<string>, rpn: seq<string>, r: (seq<string>, seq<string>), k: int)
  {
    0 <= k < |ops| && ops[k] == "(" && r.0 == ops[..k] && r.1 == rpn + Reverse(ops[k + 1..])
    && forall j :: k < j < |ops| ==> ops[j] != "("
  }

  /** The loop for `)` pops into the output everything above the nearest `(` and drops that `(`. */
  lemma {:induction false} CloseParenPops(ops: seq<string>, rpn: seq<string>)
    requires Opens(ops) > 0
    ensures exists k :: ClosesAt(ops, rpn, CloseParen(ops, rpn), k)
    decreases |ops|
  {
    var r := CloseParen(ops, rpn);
    var n := |ops|;
    var top := ops[n - 1];
    assert ops == ops[..n - 1] + [top];
    if top == "(" {
      assert ops[n..] == [];
      assert ClosesAt(ops, rpn, r, n - 1);
    } else {
      var init := ops[..n - 1];
      CloseParenPops(init, rpn + [top]);
      var k :| ClosesAt(init, rpn + [top], r, k);
      assert ops[k + 1..] == init[k + 1..] + [top];
      assert Reverse(ops[k + 1..]) == [top] + Reverse(init[k + 1..]);
      assert init[..k] == ops[..k];
      assert ClosesAt(ops, rpn, r, k);
    }
  }

  /* ---------------- every token but the parentheses, exactly once ---------------- */

  /** A multiset of tokens with the parentheses taken out. */
  function Clear(m: multiset<string>): multiset<string>
  {
    m["(" := 0][")" := 0]
  }

  lemma ClearAdd(a: multiset<string>, b: multiset<string>)
    ensures Clear(a + b) == Clear(a) + Clear(b)
  {
  }

  lemma ClearParens(m: multiset<string>)
    ensures Clear(m + multiset{"("}) == Clear(m) && Clear(m + multiset{")"}) == Clear(m)
  {
  }

  lemma {:induction false} ReverseMultiset(s: seq<string>)
    ensures multiset(Reverse(s)) == multiset(s)
  {
    if s != [] {
      ReverseMultiset(s[..|s| - 1]);
      assert s == s[..|s| - 1] + [s[|s| - 1]];
    }
  }

  /** Read with full parentheses, the tokens never close one that is not open. */
  lemma {:induction false} TokParensMatched(ts: seq<string>, d: nat)
    requires TokParens(ts, d)
    ensures Matched(ts, d)
    decreases |ts|
  {
    if ts != [] {
      if ts[0] == "(" {
        TokParensMatched(ts[1..], d + 1);
      } else if ts[0] == ")" {
        TokParensMatched(ts[1..], d - 1);
      } else {
        TokParensMatched(ts[1..], d);
      }
    }
  }

  /** A number literal starts with a digit, so parseFloat reads it as a value. */
  lemma LiteralIsNumeric(t: string)
    requires IsLiteral(t)
    ensures IsNumeric(t)
  {
    var p, q :| 0 < p <= q <= |t| && AllDigits(t[..p]) && IsFraction(t[p..q]) && IsExponent(t[q..]);
    assert t[..p][0] == t[0];
    TokenClasses(t);
  }

  /** No parenthesis is in the output, and no `)` is on the operator stack. */
  predicate Tidy(ops: seq<string>, rpn: seq<string>)
  {
    ")" !in ops && "(" !in rpn && ")" !in rpn
  }

  /** Entries that yield to an operator are not parentheses when none of them is a `)`. */
  lemma PoppedKeep(opNew: string, ops: seq<string>, rpn: seq<string>, r: (seq<string>, seq<string>), k: int)
    requires PopsDownTo(opNew, ops, rpn, r, k)
    requires opNew != "(" && opNew != ")" && Tidy(ops, rpn)
    ensures Tidy(r.0, r.1) && multiset(r.0) + multiset(r.1) == multiset(ops) + multiset(rpn) + multiset{opNew}
  {
    var popped := ops[k..];
    assert ops == ops[..k] + popped;
    assert multiset(ops) == multiset(ops[..k]) + multiset(popped);
    ReverseMultiset(popped);
    assert multiset(r.1) == multiset(rpn) + multiset(popped);
    assert multiset(r.0) == multiset(ops[..k]) + multiset{opNew};
    assert "(" !in popped by {
      forall j | 0 <= j < |popped| ensures popped[j] != "(" {
        assert Yields(opNew, popped[j]);
      }
    }
    assert ")" !in popped;
    assert "(" !in multiset(r.1) && ")" !in multiset(r.1);
  }

  /** handleOperators moves entries from the stack to the output and adds the new operator, losing nothing. */
  lemma HandleOpKeeps(opNew: string, ops: seq<string>, rpn: seq<string>)
    requires opNew != "(" && opNew != ")" && Tidy(ops, rpn)
    ensures var r := HandleOp(opNew, ops, rpn);
      Tidy(r.0, r.1) && multiset(r.0) + multiset(r.1) == multiset(ops) + multiset(rpn) + multiset{opNew}
  {
    var r := HandleOp(opNew, ops, rpn);
    HandleOpPops(opNew, ops, rpn);
    var k :| PopsDownTo(opNew, ops, rpn, r, k);
    PoppedKeep(opNew, ops, rpn, r, k);
  }

  lemma ClosedKeep(ops: seq<string>, rpn: seq<string>, r: (seq<string>, seq<string>), k: int)
    requires ClosesAt(ops, rpn, r, k) && Tidy(ops, rpn)
    ensures Tidy(r.0, r.1) && multiset(r.0) + multiset(r.1) + multiset{"("} == multiset(ops) + multiset(rpn)
  {
    var popped := ops[k + 1..];
    assert ops == ops[..k] + ["("] + popped;
    assert multiset(ops) == multiset(ops[..k]) + multiset{"("} + multiset(popped);
    ReverseMultiset(popped);
    assert multiset(r.1) == multiset(rpn) + multiset(popped);
    assert "(" !in popped by {
      forall j | 0 <= j < |popped| ensures popped[j] != "(" {
        assert popped[j] == ops[k + 1 + j];
      }
    }
    assert ")" !in popped;
    assert "(" !in multiset(r.1) && ")" !in multiset(r.1);
  }

  /** The loop for `)` moves entries from the stack to the output and drops one `(`. */
  lemma CloseParenKeeps(ops: seq<string>, rpn: seq<string>)
    requires Opens(ops) > 0 && Tidy(ops, rpn)
    ensures var r := CloseParen(ops, rpn);
      Tidy(r.0, r.1) && multiset(r.0) + multiset(r.1) + multiset{"("} == multiset(ops) + multiset(rpn)
  {
    var r := CloseParen(ops, rpn);
    CloseParenPops(ops, rpn);
    var k :| ClosesAt(ops, rpn, r, k);
    ClosedKeep(ops, rpn, r, k);
  }

  /** A token sent straight to the output. */
  lemma OutputKeeps(c: string, ops: seq<string>, rpn: seq<string>)
    requires c != "(" && c != ")" && Tidy(ops, rpn)
    ensures Tidy(ops, rpn + [c])
    ensures Clear(multiset(ops) + multiset(rpn + [c])) == Clear(multiset(ops) + multiset(rpn) + multiset{c})
  {
    assert multiset(rpn + [c]) == multiset(rpn) + multiset{c};
  }

  /** A `(` pushed on the stack. */
  lemma OpenKeeps(ops: seq<string>, rpn: seq<string>)
    requires Tidy(ops, rpn)
    ensures Tidy(ops + ["("], rpn)
    ensures Clear(multiset(ops + ["("]) + multiset(rpn)) == Clear(multiset(ops) + multiset(rpn) + multiset{"("})
  {
    assert multiset(ops + ["("]) == multiset(ops) + multiset{"("};
  }

  /** A `)` pops down to its `(`; neither parenthesis counts. */
  lemma CloseKeepsCleared(ops: seq<string>, rpn: seq<string>)
    requires Opens(ops) > 0 && Tidy(ops, rpn)
    ensures var r := CloseParen(ops, rpn);
      Tidy(r.0, r.1) && Clear(multiset(r.0) + multiset(r.1)) == Clear(multiset(ops) + multiset(rpn) + multiset{")"})
  {
    var r := CloseParen(ops, rpn);
    CloseParenKeeps(ops, rpn);
    ClearParens(multiset(r.0) + multiset(r.1));
    ClearParens(multiset(ops) + multiset(rpn));
  }

  /** An operator or function name handled against the stack. */
  lemma OpKeepsCleared(c: string, ops: seq<string>, rpn: seq<string>)
    requires c != "(" && c != ")" && Tidy(ops, rpn)
    ensures var r := HandleOp(c, ops, rpn);
      Tidy(r.0, r.1) && Clear(multiset(r.0) + multiset(r.1)) == Clear(multiset(ops) + multiset(rpn) + multiset{c})
  {
    HandleOpKeeps(c, ops, rpn);
  }

  /** One token of the engine's own kinds moves between input, stack and output and is never lost. */
  lemma StepKeepsTokens(c: string, ops: seq<string>, rpn: seq<string>)
    requires IsToken(c) && Tidy(ops, rpn)
    requires c == ")" ==> Opens(ops) > 0
    ensures var r := Step(c, ops, rpn);
      Tidy(r.0, r.1) && Clear(multiset(r.0) + multiset(r.1)) == Clear(multiset(ops) + multiset(rpn) + multiset{c})
  {
    TokenClasses(c);
    if IsLiteral(c) {
      LiteralIsNumeric(c);
    }
    if IsNumeric(c) {
      assert Step(c, ops, rpn) == (ops, rpn + [c]);
      OutputKeeps(c, ops, rpn);
    } else if c == "(" {
      assert Step(c, ops, rpn) == (ops + ["("], rpn);
      OpenKeeps(ops, rpn);
    } else if c == ")" {
      assert Step(c, ops, rpn) == CloseParen(ops, rpn);
      CloseKeepsCleared(ops, rpn);
    } else if IsOpToken(c) || (|c| > 0 && IsLetter(c[0]) && IsFunctionName(c)) {
      assert Step(c, ops, rpn) == HandleOp(c, ops, rpn);
      OpKeepsCleared(c, ops, rpn);
    } else {
      assert Step(c, ops, rpn) == (ops, rpn + [c]);
      OutputKeeps(c, ops, rpn);
    }
  }

  lemma TailTokens(ts: seq<string>)
    requires ts != [] && AllTokens(ts)
    ensures IsToken(ts[0]) && AllTokens(ts[1..])
  {
    forall k | 0 <= k < |ts[1..]| ensures IsToken(ts[1..][k]) {
      assert ts[1..][k] == ts[k + 1];
    }
  }

  /**
   * For tokens of the engine's own kinds whose parentheses balance, the
   * output holds every token of the input, the stack and the output so far
   * except the parentheses, each exactly once, and no parenthesis.
   */
  lemma {:induction false} ShuntKeepsTokens(ts: seq<string>, ops: seq<string>, rpn: seq<string>)
    requires AllTokens(ts) && TokParens(ts, Opens(ops)) && Tidy(ops, rpn)
    ensures Matched(ts, Opens(ops))
    ensures multiset(ShuntFrom(ts, ops, rpn)) == Clear(multiset(rpn) + multiset(ops) + multiset(ts))
    decreases |ts|
  {
    TokParensMatched(ts, Opens(ops));
    if ts == [] {
      ShuntEndKeeps(ops, rpn);
      assert multiset(ts) == multiset{};
    } else {
      ShuntStepReady(ts, ops, rpn);
      var r := Step(ts[0], ops, rpn);
      StepKeepsTokens(ts[0], ops, rpn);
      ShuntKeepsTokens(ts[1..], r.0, r.1);
      ShuntStepCombine(ts, ops, rpn, r.0, r.1);
    }
  }

  /** After one step the rest of the input, the stack and the output again meet the lemma's premises. */
  lemma ShuntStepReady(ts: seq<string>, ops: seq<string>, rpn: seq<string>)
    requires ts != [] && AllTokens(ts) && TokParens(ts, Opens(ops)) && Tidy(ops, rpn)
    ensures ts[0] == ")" ==> Opens(ops) > 0
    ensures var r := Step(ts[0], ops, rpn);
      AllTokens(ts[1..]) && TokParens(ts[1..], Opens(r.0)) && Tidy(r.0, r.1)
  {
    TailTokens(ts);
    TokParensStep(ts, ops, rpn);
    StepKeepsTokens(ts[0], ops, rpn);
  }

  /** The tokens kept by one step and by the rest of the run add up to those of the whole run. */
  lemma ShuntStepCombine(ts: seq<string>, ops: seq<string>, rpn: seq<string>, ops1: seq<string>, rpn1: seq<string>)
    requires ts != [] && Matched(ts, Opens(ops))
    requires ts[0] == ")" ==> Opens(ops) > 0
    requires (ops1, rpn1) == Step(ts[0], ops, rpn)
    requires Clear(multiset(ops1) + multiset(rpn1)) == Clear(multiset(ops) + multiset(rpn) + multiset{ts[0]})
    requires Matched(ts[1..], Opens(ops1))
    requires multiset(ShuntFrom(ts[1..], ops1, rpn1)) == Clear(multiset(rpn1) + multiset(ops1) + multiset(ts[1..]))
    ensures multiset(ShuntFrom(ts, ops, rpn)) == Clear(multiset(rpn) + multiset(ops) + multiset(ts))
  {
    ShuntFromStep(ts, ops, rpn);
    assert multiset(ts) == multiset{ts[0]} + multiset(ts[1..]) by {
      assert ts == [ts[0]] + ts[1..];
    }
    MovedTokens(multiset(rpn), multiset(ops), ts[0], multiset(ts[1..]), multiset(ops1), multiset(rpn1),
                multiset(ts), multiset(ShuntFrom(ts[1..], ops1, rpn1)));
  }

  /** When the input is used up, the rest of the stack goes to the output and no `(` is left on it. */
  lemma ShuntEndKeeps(ops: seq<string>, rpn: seq<string>)
    requires Opens(ops) == 0 && Tidy(ops, rpn)
    ensures multiset(rpn + Reverse(ops)) == Clear(multiset(rpn) + multiset(ops))
  {
    ReverseMultiset(ops);
    NoOpensLeft(ops);
  }

  /** The parentheses of the rest of the input still balance against the stack after one step. */
  lemma TokParensStep(ts: seq<string>, ops: seq<string>, rpn: seq<string>)
    requires ts != [] && TokParens(ts, Opens(ops))
    ensures (ts[0] == ")" ==> Opens(ops) > 0) && TokParens(ts[1..], Opens(Step(ts[0], ops, rpn).0))
  {
  }

  lemma ShuntFromStep(ts: seq<string>, ops: seq<string>, rpn: seq<string>)
    requires ts != [] && Matched(ts, Opens(ops))
    ensures (ts[0] == ")" ==> Opens(ops) > 0) && Matched(ts[1..], Opens(Step(ts[0], ops, rpn).0))
    ensures ShuntFrom(ts, ops, rpn) == ShuntFrom(ts[1..], Step(ts[0], ops, rpn).0, Step(ts[0], ops, rpn).1)
  {
  }

  lemma MovedTokens(rpn: multiset<string>, ops: multiset<string>, c: string, rest: multiset<string>,
                    ops1: multiset<string>, rpn1: multiset<string>, all: multiset<string>, out: multiset<string>)
    requires Clear(ops1 + rpn1) == Clear(ops + rpn + multiset{c})
    requires all == multiset{c} + rest
    requires out == Clear(rpn1 + ops1 + rest)
    ensures out == Clear(rpn + ops + all)
  {
    ClearAdd(rpn1 + ops1, rest);
    ClearAdd(ops + rpn + multiset{c}, rest);
    assert rpn1 + ops1 == ops1 + rpn1;
    assert rpn + ops + all == ops + rpn + multiset{c} + rest;
  }

  lemma {:induction false} NoOpensLeft(ops: seq<string>)
    requires Opens(ops) == 0
    ensures "(" !in ops
  {
    if ops != [] {
      NoOpensLeft(ops[..|ops| - 1]);
      assert ops == ops[..|ops| - 1] + [ops[|ops| - 1]];
    }
  }

  /** shuntingYard on a stack from the tokenizer: every token but the parentheses, exactly once. */
  lemma ShuntingYardKeepsTokens(exprStack: seq<string>)
    requires AllTokens(exprStack) && TokParens(Reverse(exprStack), 0)
    ensures Matched(Reverse(exprStack), 0)
    ensures multiset(ShuntingYardOf(exprStack)) == Clear(multiset(exprStack))
  {
    ReverseKeepsAll(exprStack);
    ReverseMultiset(exprStack);
    ShuntKeepsTokens(Reverse(exprStack), [], []);
    var none: seq<string> := [];
    assert multiset(none) + multiset(none) + multiset(Reverse(exprStack)) == multiset(exprStack);
  }

  /* ---------------- getRPNExprList ---------------- */

  /** The token stack getExpressionStack builds has matching parentheses, read last first. */
  lemma StackMatched(s: string)
    ensures Matched(Reverse(ExpressionStack(s)), 0)
    ensures TokParens(Reverse(ExpressionStack(s)), 0)
  {
    if Balanced(s) && LexFrom(s, 0).Some? {
      TokensBalanced(s);
      ReverseReverse(Unary(LexFrom(s, 0).value));
    }
    TokParensMatched(Reverse(ExpressionStack(s)), 0);
  }

  /** What getRPNExprList returns for the text `s`. */
  function RPNExprList(s: string): seq<string>
  {
    StackMatched(s);
    ShuntingYardOf(ExpressionStack(s))
  }

  /** getRPNExprList: the reverse Polish list of `s`, `[]` when getExpressionStack gives up. */
  method GetRPNExprList(s: string) returns (rpn: seq<string>)
    ensures rpn == RPNExprList(s)
  {
    var items := GetExpressionStack(s);
    StackMatched(s);
    var exprStack := new TokenList(items);
    rpn := ShuntingYard(exprStack);
  }

  /** The reverse Polish list holds every token of the text but the parentheses, each once. */
  lemma RPNExprListKeepsTokens(s: string)
    ensures multiset(RPNExprList(s)) == Clear(multiset(ExpressionStack(s)))
    ensures "(" !in RPNExprList(s) && ")" !in RPNExprList(s)
  {
    var e := ExpressionStack(s);
    StackMatched(s);
    ExpressionStackTokens(s);
    ShuntingYardKeepsTokens(e);
    var out := RPNExprList(s);
    assert out == ShuntingYardOf(e);
    assert multiset(out)["("] == 0 && multiset(out)[")"] == 0;
  }

  /* ---------------- order ---------------- */

  /** One unfolding of the shunting-yard. */
  lemma ShuntCons(t: string, rest: seq<string>, ops: seq<string>, rpn: seq<string>, ops1: seq<string>, rpn1: seq<string>)
    requires Matched([t] + rest, Opens(ops)) && Step(t, ops, rpn) == (ops1, rpn1)
    ensures Matched(rest, Opens(ops1)) && ShuntFrom([t] + rest, ops, rpn) == ShuntFrom(rest, ops1, rpn1)
  {
    assert ([t] + rest)[1..] == rest;
  }

  lemma MatchedCons(t: string, rest: seq<string>, d: nat)
    requires t != "(" && t != ")" && Matched(rest, d)
    ensures Matched([t] + rest, d)
  {
    assert ([t] + rest)[1..] == rest;
  }

  lemma NotParen(t: string)
    requires (|t| > 0 && IsLetter(t[0])) || IsOpToken(t)
    ensures t != "(" && t != ")"
  {
  }

  lemma HandleOpOnEmpty(o: string, rpn: seq<string>)
    ensures HandleOp(o, [], rpn) == ([o], rpn)
  {
    assert [] + [o] == [o];
  }

  lemma HandleOpKeepsTop(o: string, ops: seq<string>, rpn: seq<string>)
    requires ops != [] && !Yields(o, ops[|ops| - 1])
    ensures HandleOp(o, ops, rpn) == (ops + [o], rpn)
  {
  }

  lemma HandleOpPopsTop(o: string, ops: seq<string>, rpn: seq<string>)
    requires ops != [] && Yields(o, ops[|ops| - 1])
    ensures HandleOp(o, ops, rpn) == HandleOp(o, ops[..|ops| - 1], rpn + [ops[|ops| - 1]])
  {
  }

  /** A variable name goes straight to the output. */
  lemma StepVariable(c: string, ops: seq<string>, rpn: seq<string>)
    requires IsVariable(c)
    ensures Step(c, ops, rpn) == (ops, rpn + [c])
  {
    NotParen(c);
  }

  /** An operator token goes through handleOperators. */
  lemma StepOperator(c: string, ops: seq<string>, rpn: seq<string>)
    requires IsOpToken(c)
    ensures Step(c, ops, rpn) == HandleOp(c, ops, rpn)
  {
    OperatorNotNumeric(c);
    NotParen(c);
  }

  /** A variable: a name that is neither a value for parseFloat nor a function. */
  predicate IsVariable(t: string) { |t| > 0 && IsLetter(t[0]) && !IsNumeric(t) && !IsFunctionName(t) }

  lemma OperatorNotNumeric(o: string)
    requires IsOpToken(o) || o == "(" || o == ")"
    ensures !IsNumeric(o)
  {
    TokenClasses(o);
  }

  lemma FunctionNameShape(f: string)
    requires IsFunctionName(f)
    ensures 0 < |f| < 8 && IsLetter(f[0])
  {
  }

  lemma FunctionNotNumeric(f: string)
    requires IsFunctionName(f)
    ensures !IsNumeric(f) && |f| > 0 && IsLetter(f[0])
  {
    FunctionNameShape(f);
    ShortNameNotNumeric(f);
  }

  lemma ShortNameNotNumeric(f: string)
    requires 0 < |f| < 8 && IsLetter(f[0])
    ensures !IsNumeric(f)
  {
    TokenClasses(f);
  }

  /** A variable read from the input goes to the output. */
  lemma ShuntVariable(t: string, rest: seq<string>, ops: seq<string>, rpn: seq<string>)
    requires IsVariable(t) && Matched(rest, Opens(ops))
    ensures Matched([t] + rest, Opens(ops)) && ShuntFrom([t] + rest, ops, rpn) == ShuntFrom(rest, ops, rpn + [t])
  {
    NotParen(t);
    MatchedCons(t, rest, Opens(ops));
    StepVariable(t, ops, rpn);
    ShuntCons(t, rest, ops, rpn, ops, rpn + [t]);
  }

  /** An operator read from the input goes through handleOperators. */
  lemma ShuntOperator(o: string, rest: seq<string>, ops: seq<string>, rpn: seq<string>, ops1: seq<string>, rpn1: seq<string>)
    requires IsOpToken(o) && Matched(rest, Opens(ops)) && HandleOp(o, ops, rpn) == (ops1, rpn1)
    ensures Matched([o] + rest, Opens(ops)) && ShuntFrom([o] + rest, ops, rpn) == ShuntFrom(rest, ops1, rpn1)
  {
    NotParen(o);
    MatchedCons(o, rest, Opens(ops));
    StepOperator(o, ops, rpn);
    ShuntCons(o, rest, ops, rpn, ops1, rpn1);
  }

  /** What is left on the operator stack goes to the output, top first. */
  lemma ShuntEnd(ops: seq<string>, rpn: seq<string>)
    ensures Matched([], Opens(ops)) && ShuntFrom([], ops, rpn) == rpn + Reverse(ops)
  {
  }

  /** The operator `o2` arriving on the stack `[o1]`. */
  lemma SecondOperator(o1: string, o2: string, rpn: seq<string>)
    ensures Outranks(o2, o1) && o1 != "(" ==> HandleOp(o2, [o1], rpn) == ([o1, o2], rpn)
    ensures !Outranks(o2, o1) && o1 != "(" ==> HandleOp(o2, [o1], rpn) == ([o2], rpn + [o1])
  {
    if o1 != "(" {
      if Outranks(o2, o1) {
        HandleOpKeepsTop(o2, [o1], rpn);
        assert [o1] + [o2] == [o1, o2];
      } else {
        HandleOpPopsTop(o2, [o1], rpn);
        assert [o1][..0] == [];
        HandleOpOnEmpty(o2, rpn + [o1]);
      }
    }
  }

  /**
   * `a o1 b o2 c` with variables `a`, `b`, `c`: when `o2` does not outrank
   * `o1` the first operator is applied first (`a b o1 c o2`, left
   * association); when it does, the second (`a b c o2 o1`).
   */
  lemma TwoOperators(a: string, o1: string, b: string, o2: string, c: string)
    requires IsVariable(a) && IsVariable(b) && IsVariable(c) && IsOpToken(o1) && IsOpToken(o2)
    ensures Matched([a, o1, b, o2, c], 0)
    ensures !Outranks(o2, o1) ==> ShuntFrom([a, o1, b, o2, c], [], []) == [a, b, o1, c, o2]
    ensures Outranks(o2, o1) ==> ShuntFrom([a, o1, b, o2, c], [], []) == [a, b, c, o2, o1]
  {
    NotParen(o1);
    SecondOperator(o1, o2, [a, b]);
    var r := HandleOp(o2, [o1], [a, b]);
    var none: seq<string> := [];
    FiveTokens(a, o1, b, o2, c);
    ShuntEnd(r.0, r.1 + [c]);
    ShuntVariable(c, none, r.0, r.1);
    ShuntOperator(o2, [c], [o1], [a, b], r.0, r.1);
    ShuntVariable(b, [o2, c], [o1], [a]);
    HandleOpOnEmpty(o1, [a]);
    ShuntOperator(o1, [b, o2, c], [], [a], [o1], [a]);
    ShuntVariable(a, [o1, b, o2, c], [], []);
  }

  /** Proof helper, modelling nothing: the list identities `TwoOperators` rests on, kept apart to keep its proof small. */
  lemma FiveTokens(a: string, o1: string, b: string, o2: string, c: string)
    ensures [c] + [] == [c] && [o2] + [c] == [o2, c] && [b] + [o2, c] == [b, o2, c] && [a] + [b] == [a, b]
    ensures [o1] + [b, o2, c] == [o1, b, o2, c] && [a] + [o1, b, o2, c] == [a, o1, b, o2, c] && [] + [a] == [a]
    ensures Reverse([o1, o2]) == [o2, o1] && Reverse([o2]) == [o2]
    ensures [a, b] + [c] + [o2, o1] == [a, b, c, o2, o1] && [a, b] + [o1] + [c] + [o2] == [a, b, o1, c, o2]
  {
    assert Reverse([o1, o2]) == [o2] + Reverse([o1]);
  }

  /** `-` and `+` rank equal, as do `^` and `^`; `*` outranks `+`. */
  lemma Ranks()
    ensures !Outranks("+", "-") && !Outranks("^", "^") && Outranks("*", "+")
    ensures IsOpToken("+") && IsOpToken("-") && IsOpToken("^") && IsOpToken("*")
  {
  }

  /** `(` read from the input goes on the operator stack. */
  lemma ShuntOpen(rest: seq<string>, ops: seq<string>, rpn: seq<string>)
    requires Matched(rest, Opens(ops) + 1)
    ensures Matched(["("] + rest, Opens(ops)) && ShuntFrom(["("] + rest, ops, rpn) == ShuntFrom(rest, ops + ["("], rpn)
  {
    OperatorNotNumeric("(");
    OpensPush(ops, "(");
    assert (["("] + rest)[1..] == rest;
    assert Step("(", ops, rpn) == (ops + ["("], rpn);
    ShuntCons("(", rest, ops, rpn, ops + ["("], rpn);
  }

  lemma StepClose(ops: seq<string>, rpn: seq<string>)
    requires Opens(ops) > 0
    ensures Step(")", ops, rpn) == CloseParen(ops, rpn)
  {
    OperatorNotNumeric(")");
  }

  lemma MatchedClose(rest: seq<string>, d: nat)
    requires d > 0 && Matched(rest, d - 1)
    ensures Matched([")"] + rest, d)
  {
    assert ([")"] + rest)[1..] == rest;
  }

  /** `)` read from the input runs the loop for `)`. */
  lemma ShuntClose(rest: seq<string>, ops: seq<string>, rpn: seq<string>, ops1: seq<string>, rpn1: seq<string>)
    requires Opens(ops) > 0 && Matched(rest, Opens(ops) - 1) && CloseParen(ops, rpn) == (ops1, rpn1)
    ensures Matched([")"] + rest, Opens(ops)) && ShuntFrom([")"] + rest, ops, rpn) == ShuntFrom(rest, ops1, rpn1)
  {
    MatchedClose(rest, Opens(ops));
    StepClose(ops, rpn);
    ShuntCons(")", rest, ops, rpn, ops1, rpn1);
  }

  /** Closing `f(x` drops the `(` and leaves `f` on the stack. */
  lemma CloseAfterFunction(f: string, x: string)
    requires f != "("
    ensures Opens([f, "("]) == 1 && Opens([f]) == 0
    ensures CloseParen([f, "("], [x]) == ([f], [x])
  {
    assert [f, "("][..1] == [f];
    assert [f][..0] == [];
    OpensPush([], f);
    OpensPush([f], "(");
    assert [] + [f] == [f] && [f] + ["("] == [f, "("];
  }

  /** A function name read from the input goes through handleOperators. */
  lemma ShuntFunction(f: string, rest: seq<string>, ops: seq<string>, rpn: seq<string>, ops1: seq<string>, rpn1: seq<string>)
    requires IsFunctionName(f) && Matched(rest, Opens(ops)) && HandleOp(f, ops, rpn) == (ops1, rpn1)
    ensures Matched([f] + rest, Opens(ops)) && ShuntFrom([f] + rest, ops, rpn) == ShuntFrom(rest, ops1, rpn1)
  {
    FunctionNotNumeric(f);
    NotParen(f);
    MatchedCons(f, rest, Opens(ops));
    assert Step(f, ops, rpn) == (ops1, rpn1);
    ShuntCons(f, rest, ops, rpn, ops1, rpn1);
  }

  /** Proof helper, modelling nothing: the list identities `ArgumentThenClose` rests on, kept apart to keep its proof small. */
  lemma FourTokens(f: string, x: string)
    ensures [")"] + [] == [")"] && [x] + [")"] == [x, ")"] && ["("] + [x, ")"] == ["(", x, ")"]
    ensures [f] + ["(", x, ")"] == [f, "(", x, ")"] && [] + [f] == [f] && [] + [x] == [x]
    ensures [f, "("][..1] == [f] && [f] + ["("] == [f, "("] && Reverse([f]) == [f] && [x] + [f] == [x, f]
  {
  }

  /** `x)` read with `f(` on the stack. */
  lemma ArgumentThenClose(f: string, x: string)
    requires f != "(" && IsVariable(x)
    ensures Matched([x, ")"], Opens([f, "("]))
    ensures ShuntFrom([x, ")"], [f, "("], []) == [x, f]
  {
    var none: seq<string> := [];
    FourTokens(f, x);
    CloseAfterFunction(f, x);
    ShuntEnd([f], [x]);
    ShuntClose(none, [f, "("], [x], [f], [x]);
    ShuntVariable(x, [")"], [f, "("], []);
  }

  /** `(x)` read with `f` on the stack: the argument goes out, then `f`. */
  lemma ParenthesisedArgument(f: string, x: string)
    requires f != "(" && IsVariable(x)
    ensures Matched(["(", x, ")"], Opens([f]))
    ensures ShuntFrom(["(", x, ")"], [f], []) == [x, f]
  {
    assert Opens([f]) == 0 && Opens([f, "("]) == 1 by {
      CloseAfterFunction(f, x);
    }
    assert ["("] + [x, ")"] == ["(", x, ")"] && [f] + ["("] == [f, "("];
    assert Matched([x, ")"], 1) && ShuntFrom([x, ")"], [f, "("], []) == [x, f] by {
      ArgumentThenClose(f, x);
    }
    ShuntOpen([x, ")"], [f], []);
  }

  /** A function name is an operator that waits for its parenthesised argument: `sin(x)` is `x sin`. */
  lemma FunctionAfterArgument(f: string, x: string)
    requires IsFunctionName(f) && IsVariable(x)
    ensures Matched([f, "(", x, ")"], 0)
    ensures ShuntFrom([f, "(", x, ")"], [], []) == [x, f]
  {
    var rest := ["(", x, ")"];
    ParenthesisedArgument(f, x);
    CloseAfterFunction(f, x);
    FunctionThenRest(f, rest, [f, "(", x, ")"], [x, f]);
  }

  /** A function name at the head of the input waits on the stack for what follows. */
  lemma FunctionThenRest(f: string, rest: seq<string>, tokens: seq<string>, out: seq<string>)
    requires IsFunctionName(f) && tokens == [f] + rest
    requires Matched(rest, 0) && ShuntFrom(rest, [f], []) == out
    ensures Matched(tokens, 0) && ShuntFrom(tokens, [], []) == out
  {
    HandleOpOnEmpty(f, []);
    ShuntFunction(f, rest, [], [], [f], []);
  }
}
