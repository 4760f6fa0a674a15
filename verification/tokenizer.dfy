/**
 * From an expression string to the token stack the shunting-yard reads:
 * the parenthesis-balance check, the tokenizer `getExpressionStack` and the
 * unary pre-pass `handleUnaryOperators`.
 */
module Tokenizer {
  import opened Wrappers
  import opened Chars
  import opened Scanner

  /* ---------------- parenthesis balance ---------------- */

  /** Open parentheses minus close parentheses. */
  function Depth(s: string): int
  {
    if s == [] then 0
    else Depth(s[..|s| - 1]) + (if s[|s| - 1] == '(' then 1 else if s[|s| - 1] == ')' then -1 else 0)
  }

  /** No prefix closes more parentheses than it opens, and the whole string closes them all. */
  predicate Balanced(s: string)
  {
    (forall k :: 0 <= k <= |s| ==> Depth(s[..k]) >= 0) && Depth(s) == 0
  }

  lemma DepthStep(s: string, i: nat)
    requires i < |s|
    ensures Depth(s[..i + 1]) == Depth(s[..i]) + (if s[i] == '(' then 1 else if s[i] == ')' then -1 else 0)
  {
    assert s[..i + 1][..i] == s[..i];
  }

  /** checkIfParenthesesAreBalanced, with its stack of open parentheses. */
  method CheckIfParenthesesAreBalanced(s: string) returns (b: bool)
    ensures b == Balanced(s)
  {
    var stack: seq<char> := [];
    var i := 0;
    while i < |s|
      invariant 0 <= i <= |s|
      invariant |stack| == Depth(s[..i])
      invariant forall k :: 0 <= k <= i ==> Depth(s[..k]) >= 0
      invariant forall k :: 0 <= k < |stack| ==> IsLeftParenthesis(stack[k])
    {
      DepthStep(s, i);
      if IsLeftParenthesis(s[i]) {
        stack := stack + [s[i]];
      } else if IsRightParenthesis(s[i]) {
        if |stack| == 0 {
          assert Depth(s[..i + 1]) < 0;
          return false;
        }
        stack := stack[..|stack| - 1];
      }
      i := i + 1;
    }
    assert s[..i] == s;
    return |stack| == 0;
  }

  /* ---------------- the tokenizer ---------------- */

  function Prepend(t: string, o: Option<seq<string>>): Option<seq<string>>
  {
    match o
    case None => None
    case Some(ts) => Some([t] + ts)
  }

  /**
   * The tokens of `s[i..]`, in reading order, or `None` where getExpressionStack
   * gives up: a number that does not scan, or a character that starts no token
   * (anything but a digit, a letter, an operator, a parenthesis or a space).
   */
  function LexFrom(s: string, i: nat): Option<seq<string>>
    requires i <= |s|
    decreases |s| - i
  {
    if i == |s| then Some([])
    else
      var c := s[i];
      if IsDigit(c) then
        var r := ScanNumber(s, i);
        if !r.success then None else Prepend(r.text.value, LexFrom(s, r.end as nat))
      else if IsLetter(c) then
        var e := WordEnd(s, i);
        Prepend(s[i..e], LexFrom(s, e))
      else if IsOp(c) || IsParenthesis(c) then Prepend([c], LexFrom(s, i + 1))
      else if c == ' ' then LexFrom(s, i + 1)
      else None
  }

  predicate IsSign(t: string) { t == "-" || t == "+" }

  /** The loop of handleUnaryOperators: a `"0"` after every `(` that a sign follows. */
  function AfterParen(ts: seq<string>): (r: seq<string>)
    ensures |r| >= |ts|
    ensures |ts| > 0 ==> |r| > 0 && r[0] == ts[0]
  {
    if |ts| < 2 then ts
    else if ts[0] == "(" && IsSign(ts[1]) then ["(", "0"] + AfterParen(ts[1..])
    else [ts[0]] + AfterParen(ts[1..])
  }

  /** handleUnaryOperators: a `"0"` before a leading sign, then the loop. */
  function Unary(ts: seq<string>): seq<string>
  {
    AfterParen(if |ts| > 0 && IsSign(ts[0]) then ["0"] + ts else ts)
  }

  function Reverse<T>(s: seq<T>): (r: seq<T>)
    ensures |r| == |s|
  {
    if s == [] then [] else [s[|s| - 1]] + Reverse(s[..|s| - 1])
  }

  /** What getExpressionStack returns: the tokens, last token first, or `[]` on any error. */
  function ExpressionStack(s: string): seq<string>
  {
    if !Balanced(s) then []
    else match LexFrom(s, 0)
      case None => []
      case Some(ts) => Reverse(Unary(ts))
  }

  method HandleUnaryOperators(tokens: seq<string>) returns (expr: seq<string>)
    ensures expr == Unary(tokens)
  {
    expr := tokens;
    if |expr| > 0 && IsSign(expr[0]) {
      expr := ["0"] + expr;
    }
    ghost var target := AfterParen(expr);
    var i := 0;
    while i + 1 < |expr|
      invariant 0 <= i <= |expr|
      invariant expr[..i] + AfterParen(expr[i..]) == target
      decreases |target| - i
    {
      if expr[i] == "(" && IsSign(expr[i + 1]) {
        var next := expr[..i + 1] + ["0"] + expr[i + 1..];
        InsertZeroStep(expr, i);
        expr := next;
      } else {
        KeepStep(expr, i);
      }
      i := i + 1;
    }
    assert AfterParen(expr[i..]) == expr[i..];
    assert expr[..i] + expr[i..] == expr;
  }

  lemma InsertZeroStep(expr: seq<string>, i: nat)
    requires i + 1 < |expr| && expr[i] == "(" && IsSign(expr[i + 1])
    ensures var next := expr[..i + 1] + ["0"] + expr[i + 1..];
      next[..i + 1] + AfterParen(next[i + 1..]) == expr[..i] + AfterParen(expr[i..])
  {
    var next := expr[..i + 1] + ["0"] + expr[i + 1..];
    var rest := expr[i + 1..];
    assert expr[i..] == ["("] + rest;
    assert next[i + 1..] == ["0"] + rest;
    assert next[..i + 1] == expr[..i] + ["("];
    InsertZeroParts(expr[..i], rest);
  }

  /** The inserted zero lands where the rewrite of `(` followed by a sign puts it. */
  lemma InsertZeroParts(done: seq<string>, rest: seq<string>)
    requires |rest| >= 1 && IsSign(rest[0])
    ensures (done + ["("]) + AfterParen(["0"] + rest) == done + AfterParen(["("] + rest)
  {
    AfterParenOpen(rest);
    AfterParenZero(rest);
    Regroup(done, "(", "0", AfterParen(rest));
  }

  lemma Regroup<T>(d: seq<T>, a: T, b: T, t: seq<T>)
    ensures (d + [a]) + ([b] + t) == d + ([a, b] + t)
  {
    assert [a, b] + t == [a] + ([b] + t);
  }

  /** A `(` before a sign: the zero goes in after the parenthesis. */
  lemma AfterParenOpen(rest: seq<string>)
    requires |rest| >= 1 && IsSign(rest[0])
    ensures AfterParen(["("] + rest) == ["(", "0"] + AfterParen(rest)
  {
    assert (["("] + rest)[1..] == rest;
  }

  /** A `"0"` is copied unchanged. */
  lemma AfterParenZero(rest: seq<string>)
    requires |rest| >= 1
    ensures AfterParen(["0"] + rest) == ["0"] + AfterParen(rest)
  {
    assert (["0"] + rest)[1..] == rest;
  }

  lemma KeepStep(expr: seq<string>, i: nat)
    requires i + 1 < |expr| && !(expr[i] == "(" && IsSign(expr[i + 1]))
    ensures expr[..i + 1] + AfterParen(expr[i + 1..]) == expr[..i] + AfterParen(expr[i..])
  {
    assert expr[i..] == [expr[i]] + expr[i + 1..];
    assert AfterParen(expr[i..]) == [expr[i]] + AfterParen(expr[i + 1..]);
    assert expr[..i + 1] == expr[..i] + [expr[i]];
  }

  function Glue(done: seq<string>, o: Option<seq<string>>): Option<seq<string>>
  {
    match o
    case None => None
    case Some(ts) => Some(done + ts)
  }

  lemma GluePrepend(done: seq<string>, t: string, o: Option<seq<string>>)
    ensures Glue(done, Prepend(t, o)) == Glue(done + [t], o)
  {
    if o.Some? {
      assert done + ([t] + o.value) == done + [t] + o.value;
    }
  }

  /** getExpressionStack. */
  method GetExpressionStack(s: string) returns (expr: seq<string>)
    ensures expr == ExpressionStack(s)
  {
    var balanced := CheckIfParenthesesAreBalanced(s);
    if !balanced {
      return [];
    }
    expr := [];
    var i: nat := 0;
    assert Glue(expr, LexFrom(s, 0)) == LexFrom(s, 0) by {
      if LexFrom(s, 0).Some? { assert [] + LexFrom(s, 0).value == LexFrom(s, 0).value; }
    }
    while i < |s|
      invariant i <= |s|
      invariant LexFrom(s, 0) == Glue(expr, LexFrom(s, i))
      decreases |s| - i
    {
      var c := s[i];
      if IsDigit(c) {
        var r := ParseNumber(s, i);
        if !r.success {
          return [];
        }
        GluePrepend(expr, r.text.value, LexFrom(s, r.end as nat));
        i := r.end as nat;
        expr := expr + [r.text.value];
      } else if IsLetter(c) {
        var name, e := ParseVariable(s, i);
        GluePrepend(expr, name, LexFrom(s, e));
        i := e;
        expr := expr + [name];
      } else if IsOp(c) || IsParenthesis(c) {
        GluePrepend(expr, [c], LexFrom(s, i + 1));
        expr := expr + [[c]];
        i := i + 1;
      } else if c == ' ' {
        i := i + 1;
      } else {
        return [];
      }
    }
    assert expr + [] == expr;
    expr := HandleUnaryOperators(expr);
    expr := Reverse(expr);
  }
}
