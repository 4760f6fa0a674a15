/**
 * What the tokenizer guarantees: it loses nothing but spaces, it produces only
 * literals, names, operators and parentheses, it refuses characters outside
 * its alphabet, its parentheses stay balanced, and the unary pre-pass only
 * inserts `"0"` tokens.
 */
module TokenizerFacts {
  import opened Wrappers
  import opened Chars
  import opened Scanner
  import opened Tokenizer

  /* ---------------- characters of a literal ---------------- */

  /** The characters a number literal is made of. */
  predicate IsLiteralChar(c: char) { IsDigit(c) || c == '.' || c == 'e' || c == '+' || c == '-' }

  lemma LiteralChars(w: string)
    requires IsLiteral(w)
    ensures forall k :: 0 <= k < |w| ==> IsLiteralChar(w[k])
  {
    var p, q :| 0 < p <= q <= |w| && AllDigits(w[..p]) && IsFraction(w[p..q]) && IsExponent(w[q..]);
    forall k | 0 <= k < |w| ensures IsLiteralChar(w[k]) {
      if k < p {
        assert w[..p][k] == w[k];
      } else if k < q {
        assert w[p..q][k - p] == w[k];
        if k > p { assert w[p..q][1..][k - p - 1] == w[k]; }
      } else {
        var x := w[q..];
        assert x[k - q] == w[k];
        if k - q >= 2 { assert x[2..][k - q - 2] == w[k]; }
        if k - q == 1 && AllDigits(x[1..]) { assert x[1..][0] == w[k]; }
      }
    }
  }

  /** The characters of the token that the tokenizer reads at `i`. */
  lemma TokenAtChars(s: string, i: nat)
    requires i < |s| && (IsDigit(s[i]) || IsLetter(s[i]))
    requires IsDigit(s[i]) ==> ScanNumber(s, i).success
    ensures var e := TokenEnd(s, i);
      i < e <= |s| && forall k :: i <= k < e ==> IsLiteralChar(s[k]) || IsLetter(s[k])
  {
    if IsDigit(s[i]) {
      var r := ScanNumber(s, i);
      ScanNumberSound(s, i);
      LiteralChars(s[i..r.end]);
      forall k | i <= k < r.end ensures IsLiteralChar(s[k]) { assert s[i..r.end][k - i] == s[k]; }
    }
  }

  /** Where the number or name token that starts at `i` ends. */
  function TokenEnd(s: string, i: nat): nat
    requires i < |s| && (IsDigit(s[i]) || IsLetter(s[i]))
    requires IsDigit(s[i]) ==> ScanNumber(s, i).success
  {
    if IsDigit(s[i]) then ScanNumber(s, i).end as nat else WordEnd(s, i)
  }

  /* ---------------- the alphabet ---------------- */

  /** A character that no token contains and no rule skips. */
  predicate IsForeign(c: char)
  {
    !(IsDigit(c) || IsLetter(c) || IsOp(c) || IsParenthesis(c) || c == ' ' || c == '.')
  }

  /** A character outside the alphabet anywhere from `i` on makes the tokenizer give up. */
  lemma {:induction false} ForeignCharacterFails(s: string, i: nat, k: nat)
    requires i <= k < |s| && IsForeign(s[k])
    ensures LexFrom(s, i) == None
    decreases |s| - i
  {
    if i == k {
    } else if IsDigit(s[i]) {
      if ScanNumber(s, i).success {
        TokenAtChars(s, i);
        ForeignCharacterFails(s, ScanNumber(s, i).end as nat, k);
      }
    } else if IsLetter(s[i]) {
      TokenAtChars(s, i);
      ForeignCharacterFails(s, WordEnd(s, i), k);
    } else if IsOp(s[i]) || IsParenthesis(s[i]) || s[i] == ' ' {
      ForeignCharacterFails(s, i + 1, k);
    }
  }

  /**
   * A `.` where a token should start (not inside a number) fails; in
   * particular getExpressionStack gives `[]` for a lone `.`, and for any
   * foreign character.
   */
  lemma StrayCharactersGiveNothing(s: string)
    ensures |s| > 0 && s[0] == '.' ==> LexFrom(s, 0) == None
    ensures (exists k :: 0 <= k < |s| && IsForeign(s[k])) ==> ExpressionStack(s) == []
    ensures ExpressionStack(".") == [] && ExpressionStack("2 # 3") == []
  {
    LeadingPointFails(s);
    ForeignGivesNothing(s);
    LonePointGivesNothing();
    ForeignCharacterFails("2 # 3", 0, 2);
  }

  lemma LeadingPointFails(s: string)
    ensures |s| > 0 && s[0] == '.' ==> LexFrom(s, 0) == None
  {
  }

  lemma ForeignGivesNothing(s: string)
    ensures (exists k :: 0 <= k < |s| && IsForeign(s[k])) ==> ExpressionStack(s) == []
  {
    if exists k :: 0 <= k < |s| && IsForeign(s[k]) {
      var k :| 0 <= k < |s| && IsForeign(s[k]);
      ForeignCharacterFails(s, 0, k);
    }
  }

  lemma LonePointGivesNothing()
    ensures ExpressionStack(".") == []
  {
    LeadingPointFails(".");
  }

  /** An unbalanced string gives `[]`, whatever its tokens. */
  lemma UnbalancedGivesNothing()
    ensures ExpressionStack("(1+2") == [] && ExpressionStack("1+2)") == [] && ExpressionStack(")(") == []
  {
    assert Depth("(1+2") == 1 by {
      assert "(1+2"[..3] == "(1+" && "(1+"[..2] == "(1" && "(1"[..1] == "(" && "("[..0] == "";
    }
    assert Depth("1+2)"[..4]) == -1 by {
      assert "1+2)"[..4] == "1+2)";
      assert "1+2)"[..3] == "1+2" && "1+2"[..2] == "1+" && "1+"[..1] == "1" && "1"[..0] == "";
    }
    assert Depth(")("[..1]) == -1 by { assert ")("[..1] == ")"; assert ")"[..0] == ""; }
  }

  /* ---------------- nothing but spaces is lost ---------------- */

  function Concat(ts: seq<string>): string
  {
    if ts == [] then "" else ts[0] + Concat(ts[1..])
  }

  /** `s[i..]` with its spaces removed. */
  function Unspaced(s: string, i: nat): string
    requires i <= |s|
    decreases |s| - i
  {
    if i == |s| then "" else (if s[i] == ' ' then "" else [s[i]]) + Unspaced(s, i + 1)
  }

  lemma {:induction false} UnspacedRun(s: string, i: nat, e: nat)
    requires i <= e <= |s| && forall k :: i <= k < e ==> s[k] != ' '
    ensures Unspaced(s, i) == s[i..e] + Unspaced(s, e)
    decreases e - i
  {
    if i < e {
      UnspacedRun(s, i + 1, e);
      assert Unspaced(s, i) == [s[i]] + Unspaced(s, i + 1);
      assert s[i..e] == [s[i]] + s[i + 1..e];
      assert [s[i]] + (s[i + 1..e] + Unspaced(s, e)) == ([s[i]] + s[i + 1..e]) + Unspaced(s, e);
    }
  }

  /** The tokens, put back together, are the input without its spaces. */
  lemma {:induction false} LexConcat(s: string, i: nat)
    requires i <= |s| && LexFrom(s, i).Some?
    ensures Concat(LexFrom(s, i).value) == Unspaced(s, i)
    decreases |s| - i
  {
    if i < |s| {
      if IsDigit(s[i]) || IsLetter(s[i]) {
        TokenAtChars(s, i);
        var e := TokenEnd(s, i);
        LexConcat(s, e);
        UnspacedRun(s, i, e);
        var ts := LexFrom(s, i).value;
        assert ts[0] == s[i..e] && ts[1..] == LexFrom(s, e).value;
      } else if IsOp(s[i]) || IsParenthesis(s[i]) {
        LexConcat(s, i + 1);
        var ts := LexFrom(s, i).value;
        assert ts[0] == [s[i]] && ts[1..] == LexFrom(s, i + 1).value;
      } else {
        LexConcat(s, i + 1);
      }
    }
  }

  /* ---------------- the kinds of tokens ---------------- */

  /** A letter followed by letters and digits. */
  predicate IsName(t: string)
  {
    |t| > 0 && IsLetter(t[0]) && forall k :: 0 <= k < |t| ==> IsLetter(t[k]) || IsDigit(t[k])
  }

  /** A number literal, a name, an operator or a parenthesis. */
  predicate IsToken(t: string)
  {
    IsLiteral(t) || IsName(t) || IsOpToken(t) || t == "(" || t == ")"
  }

  predicate AllTokens(ts: seq<string>) { forall k :: 0 <= k < |ts| ==> IsToken(ts[k]) }

  lemma {:induction false} LexTokens(s: string, i: nat)
    requires i <= |s| && LexFrom(s, i).Some?
    ensures AllTokens(LexFrom(s, i).value)
    decreases |s| - i
  {
    if i < |s| {
      var ts := LexFrom(s, i).value;
      if IsDigit(s[i]) {
        var e := ScanNumber(s, i).end as nat;
        ScanNumberSound(s, i);
        LexTokens(s, e);
        assert ts == [s[i..e]] + LexFrom(s, e).value;
      } else if IsLetter(s[i]) {
        var e := WordEnd(s, i);
        LexTokens(s, e);
        assert ts == [s[i..e]] + LexFrom(s, e).value;
        assert IsName(s[i..e]) by {
          forall k | 0 <= k < e - i ensures IsLetter(s[i..e][k]) || IsDigit(s[i..e][k]) {
            assert s[i..e][k] == s[i + k];
          }
        }
      } else if IsOp(s[i]) || IsParenthesis(s[i]) {
        LexTokens(s, i + 1);
        assert ts == [[s[i]]] + LexFrom(s, i + 1).value;
      } else {
        LexTokens(s, i + 1);
      }
    }
  }

  lemma ZeroIsLiteral()
    ensures IsLiteral("0")
  {
    LiteralFrom("0", 1, 1);
  }

  lemma {:induction false} AfterParenTokens(ts: seq<string>)
    requires AllTokens(ts)
    ensures AllTokens(AfterParen(ts))
  {
    ZeroIsLiteral();
    if |ts| >= 2 {
      AfterParenTokens(ts[1..]);
    }
  }

  /** Every token of getExpressionStack's result is a literal, a name, an operator or a parenthesis. */
  lemma ExpressionStackTokens(s: string)
    ensures AllTokens(ExpressionStack(s))
  {
    var r := ExpressionStack(s);
    if Balanced(s) && LexFrom(s, 0).Some? {
      var ts := LexFrom(s, 0).value;
      LexTokens(s, 0);
      ZeroIsLiteral();
      var u := if |ts| > 0 && IsSign(ts[0]) then ["0"] + ts else ts;
      assert AllTokens(u);
      AfterParenTokens(u);
      ReverseKeepsAll(Unary(ts));
    }
  }

  lemma {:induction false} ReverseKeepsAll(ts: seq<string>)
    requires AllTokens(ts)
    ensures AllTokens(Reverse(ts))
  {
    if ts != [] {
      ReverseKeepsAll(ts[..|ts| - 1]);
    }
  }

  /* ---------------- the unary pre-pass ---------------- */

  /** No `(` is directly followed by a sign. */
  predicate NoSignAfterParen(ts: seq<string>)
  {
    forall k :: 0 <= k < |ts| - 1 && ts[k] == "(" ==> !IsSign(ts[k + 1])
  }

  lemma {:induction false} AfterParenClears(ts: seq<string>)
    ensures NoSignAfterParen(AfterParen(ts))
  {
    if |ts| >= 2 {
      AfterParenClears(ts[1..]);
      var rest := AfterParen(ts[1..]);
      assert rest[0] == ts[1];
    }
  }

  lemma {:induction false} AfterParenFixes(ts: seq<string>)
    requires NoSignAfterParen(ts)
    ensures AfterParen(ts) == ts
  {
    if |ts| >= 2 {
      assert NoSignAfterParen(ts[1..]) by {
        forall k | 0 <= k < |ts[1..]| - 1 && ts[1..][k] == "(" ensures !IsSign(ts[1..][k + 1]) {
          assert ts[k + 1] == "(";
        }
      }
      AfterParenFixes(ts[1..]);
      assert ts == [ts[0]] + ts[1..];
    }
  }

  /** After the pre-pass no sign starts the list or follows a `(`. */
  lemma UnaryClearsSigns(ts: seq<string>)
    ensures Unary(ts) == [] || !IsSign(Unary(ts)[0])
    ensures NoSignAfterParen(Unary(ts))
  {
    var u := if |ts| > 0 && IsSign(ts[0]) then ["0"] + ts else ts;
    AfterParenClears(u);
  }

  /** Running the pre-pass twice inserts nothing more. */
  lemma UnaryIdempotent(ts: seq<string>)
    ensures Unary(Unary(ts)) == Unary(ts)
  {
    UnaryClearsSigns(ts);
    AfterParenFixes(Unary(ts));
  }

  /** The tokens other than `"0"`, in order. */
  function NonZero(ts: seq<string>): seq<string>
  {
    if ts == [] then [] else (if ts[0] == "0" then [] else [ts[0]]) + NonZero(ts[1..])
  }

  /** How many `(` are directly followed by a sign. */
  function ParenSigns(ts: seq<string>): nat
  {
    if |ts| < 2 then 0 else (if ts[0] == "(" && IsSign(ts[1]) then 1 else 0) + ParenSigns(ts[1..])
  }

  lemma {:induction false} AfterParenInserts(ts: seq<string>)
    ensures NonZero(AfterParen(ts)) == NonZero(ts)
    ensures |AfterParen(ts)| == |ts| + ParenSigns(ts)
  {
    if |ts| >= 2 {
      AfterParenInserts(ts[1..]);
      var rest := AfterParen(ts[1..]);
      if ts[0] == "(" && IsSign(ts[1]) {
        assert (["(", "0"] + rest)[1..] == ["0"] + rest;
        assert (["0"] + rest)[1..] == rest;
      } else {
        assert ([ts[0]] + rest)[1..] == rest;
      }
    }
  }

  /**
   * The pre-pass only inserts `"0"` tokens: one before a leading sign and one
   * after each `(` that a sign follows; every other token keeps its order.
   */
  lemma UnaryInsertsZeros(ts: seq<string>)
    ensures NonZero(Unary(ts)) == NonZero(ts)
    ensures |Unary(ts)| == |ts| + (if |ts| > 0 && IsSign(ts[0]) then 1 else 0) + ParenSigns(ts)
  {
    if |ts| > 0 && IsSign(ts[0]) {
      var u := ["0"] + ts;
      AfterParenInserts(u);
      assert u[1..] == ts;
      assert ParenSigns(u) == ParenSigns(ts);
    } else {
      AfterParenInserts(ts);
    }
  }

  /** `-x^2` becomes `0 - x ^ 2`, and `2*(-x)` becomes `2 * ( 0 - x )`. */
  lemma UnaryExamples()
    ensures Unary(["-", "x", "^", "2"]) == ["0", "-", "x", "^", "2"]
    ensures Unary(["2", "*", "(", "-", "x", ")"]) == ["2", "*", "(", "0", "-", "x", ")"]
  {
    assert ["^", "2"][1..] == ["2"];
    assert AfterParen(["^", "2"]) == ["^", "2"];
    assert ["x", "^", "2"][1..] == ["^", "2"];
    assert AfterParen(["x", "^", "2"]) == ["x", "^", "2"];
    assert ["-", "x", "^", "2"][1..] == ["x", "^", "2"];
    assert AfterParen(["-", "x", "^", "2"]) == ["-", "x", "^", "2"];
    assert ["0", "-", "x", "^", "2"][1..] == ["-", "x", "^", "2"];
    assert AfterParen(["0", "-", "x", "^", "2"]) == ["0", "-", "x", "^", "2"];
    var t := ["2", "*", "(", "-", "x", ")"];
    assert t[1..] == ["*", "(", "-", "x", ")"];
    assert t[1..][1..] == ["(", "-", "x", ")"];
    assert t[1..][1..][1..] == ["-", "x", ")"];
    assert t[1..][1..][1..][1..] == ["x", ")"];
  }

  /* ---------------- balance carries over to tokens ---------------- */

  /** Reading `s[i..]` from depth `d`, no `)` goes below zero and the end is at zero. */
  predicate ParensFrom(s: string, i: nat, d: nat)
    requires i <= |s|
    decreases |s| - i
  {
    if i == |s| then d == 0
    else if s[i] == '(' then ParensFrom(s, i + 1, d + 1)
    else if s[i] == ')' then d > 0 && ParensFrom(s, i + 1, d - 1)
    else ParensFrom(s, i + 1, d)
  }

  /** The same on tokens. */
  predicate TokParens(ts: seq<string>, d: nat)
  {
    if ts == [] then d == 0
    else if ts[0] == "(" then TokParens(ts[1..], d + 1)
    else if ts[0] == ")" then d > 0 && TokParens(ts[1..], d - 1)
    else TokParens(ts[1..], d)
  }

  lemma {:induction false} BalancedFrom(s: string, i: nat)
    requires i <= |s| && Balanced(s)
    ensures Depth(s[..i]) >= 0 && ParensFrom(s, i, Depth(s[..i]) as nat)
    decreases |s| - i
  {
    if i == |s| {
      assert s[..i] == s;
    } else {
      DepthStep(s, i);
      BalancedFrom(s, i + 1);
    }
  }

  lemma {:induction false} ParensSkip(s: string, i: nat, e: nat, d: nat)
    requires i <= e <= |s| && forall k :: i <= k < e ==> !IsParenthesis(s[k])
    requires ParensFrom(s, i, d)
    ensures ParensFrom(s, e, d)
    decreases e - i
  {
    if i < e {
      ParensSkip(s, i + 1, e, d);
    }
  }

  lemma {:induction false} LexParens(s: string, i: nat, d: nat)
    requires i <= |s| && LexFrom(s, i).Some? && ParensFrom(s, i, d)
    ensures TokParens(LexFrom(s, i).value, d)
    decreases |s| - i
  {
    if i < |s| {
      var ts := LexFrom(s, i).value;
      if IsDigit(s[i]) || IsLetter(s[i]) {
        TokenAtChars(s, i);
        var e := TokenEnd(s, i);
        ParensSkip(s, i, e, d);
        LexParens(s, e, d);
        assert ts[1..] == LexFrom(s, e).value;
        assert ts[0] == s[i..e] && |ts[0]| > 0 && ts[0][0] == s[i];
      } else if IsOp(s[i]) || IsParenthesis(s[i]) {
        if s[i] == '(' {
          LexParens(s, i + 1, d + 1);
        } else if s[i] == ')' {
          LexParens(s, i + 1, d - 1);
        } else {
          LexParens(s, i + 1, d);
        }
        assert ts[0] == [s[i]] && ts[1..] == LexFrom(s, i + 1).value;
      } else {
        LexParens(s, i + 1, d);
      }
    }
  }

  lemma {:induction false} AfterParenParens(ts: seq<string>, d: nat)
    requires TokParens(ts, d)
    ensures TokParens(AfterParen(ts), d)
  {
    if |ts| >= 2 {
      var rest := AfterParen(ts[1..]);
      TokParensCons(ts[0], ts[1..], d);
      assert ts == [ts[0]] + ts[1..];
      if ts[0] == "(" {
        AfterParenParens(ts[1..], d + 1);
        if IsSign(ts[1]) {
          TokParensCons("0", rest, d + 1);
          TokParensCons("(", ["0"] + rest, d);
          assert ["(", "0"] + rest == ["("] + (["0"] + rest);
        } else {
          TokParensCons(ts[0], rest, d);
        }
      } else if ts[0] == ")" {
        AfterParenParens(ts[1..], d - 1);
        TokParensCons(ts[0], rest, d);
      } else {
        AfterParenParens(ts[1..], d);
        TokParensCons(ts[0], rest, d);
      }
    }
  }

  /** The depth check on a token followed by more tokens. */
  lemma TokParensCons(t: string, rest: seq<string>, d: nat)
    ensures TokParens([t] + rest, d) <==>
      if t == "(" then TokParens(rest, d + 1)
      else if t == ")" then d > 0 && TokParens(rest, d - 1)
      else TokParens(rest, d)
  {
    assert ([t] + rest)[1..] == rest;
  }

  /** The tokens of a balanced string, after the pre-pass, are balanced. */
  lemma TokensBalanced(s: string)
    requires Balanced(s) && LexFrom(s, 0).Some?
    ensures TokParens(Unary(LexFrom(s, 0).value), 0)
  {
    var ts := LexFrom(s, 0).value;
    BalancedFrom(s, 0);
    assert s[..0] == [];
    LexParens(s, 0, 0);
    if |ts| > 0 && IsSign(ts[0]) {
      assert (["0"] + ts)[1..] == ts;
      AfterParenParens(["0"] + ts, 0);
    } else {
      AfterParenParens(ts, 0);
    }
  }

  lemma {:induction false} ReverseReverse<T>(s: seq<T>)
    ensures Reverse(Reverse(s)) == s
  {
    if s != [] {
      var last := s[|s| - 1];
      var init := s[..|s| - 1];
      ReverseReverse(init);
      ReverseAppend([last], Reverse(init));
      assert Reverse([last]) == [last];
      assert s == init + [last];
    }
  }

  lemma {:induction false} ReverseAppend<T>(a: seq<T>, b: seq<T>)
    ensures Reverse(a + b) == Reverse(b) + Reverse(a)
    decreases |b|
  {
    if b == [] {
      assert a + b == a;
    } else {
      var init := b[..|b| - 1];
      ReverseAppend(a, init);
      assert (a + b)[..|a + b| - 1] == a + init;
      assert Reverse(a + b) == [b[|b| - 1]] + Reverse(a + init);
      assert [b[|b| - 1]] + (Reverse(init) + Reverse(a)) == ([b[|b| - 1]] + Reverse(init)) + Reverse(a);
    }
  }
}
