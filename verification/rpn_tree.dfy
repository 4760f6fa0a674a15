/**
 * The three consumers of a reverse Polish list agree.  Reading the list into a
 * tree and then rendering the tree gives the text turnRPNExpressionToString
 * writes, always; and evaluating the tree gives the value computeRPNExpression
 * computes whenever every variable of the list is bound (an unbound variable
 * makes the evaluator push nothing, while the tree keeps a leaf for it).
 */
module RpnTree {
  import opened Wrappers
  import opened Chars
  import opened JsNumber
  import opened Numeric
  import opened Rpn
  import opened Tree

  /* ---------------- the code generator against the tree ---------------- */

  /** The shader text of every tree on a stack. */
  function Codes(m: MathLib, s: seq<Node>): (r: seq<string>)
    ensures |r| == |s|
  {
    if s == [] then [] else Codes(m, s[..|s| - 1]) + [Code(m, s[|s| - 1])]
  }

  lemma CodesPush(m: MathLib, s: seq<Node>, t: Node)
    ensures Codes(m, s + [t]) == Codes(m, s) + [Code(m, t)]
  {
    assert (s + [t])[..|s|] == s;
  }

  lemma CodesPop(m: MathLib, s: seq<Node>)
    ensures Codes(m, Drop(s)) == Drop(Codes(m, s))
    ensures TextOf(Last(Codes(m, s))) == Code(m, NodeOf(Last(s)))
  {
  }

  lemma StrStepAgrees(m: MathLib, e: string, s: seq<Node>)
    ensures StrStep(m, e, Codes(m, s)) == Codes(m, TreeStep(m, e, s))
  {
    CodesPop(m, s);
    CodesPop(m, Drop(s));
    if IsNumeric(e) {
      CodesPush(m, s, Leaf(Number(ParseFloat(m, e))));
    } else if IsOpToken(e) {
      OpTokenIsArith(e);
      var t := Node(Name(e), [NodeOf(Last(Drop(s))), NodeOf(Last(s))]);
      CodesPush(m, Drop(Drop(s)), t);
    } else if |e| > 0 && IsLetter(e[0]) {
      if IsFunctionName(e) {
        CodesPush(m, Drop(s), Node(Name(e), [NodeOf(Last(s))]));
      } else {
        CodesPush(m, s, Leaf(Name(e)));
      }
    }
  }

  lemma {:induction false} StrFromAgrees(m: MathLib, ts: seq<string>, s: seq<Node>)
    ensures StrFrom(m, ts, Codes(m, s)) == Codes(m, TreeFrom(m, ts, s))
    decreases |ts|
  {
    if ts != [] {
      StrStepAgrees(m, ts[0], s);
      StrFromAgrees(m, ts[1..], TreeStep(m, ts[0], s));
    }
  }

  /**
   * turnRPNExpressionToString renders the tree turnRPNExpressionToTree builds
   * from the same list: `undefined` exactly when no tree is built.
   */
  lemma RpnStringIsCode(m: MathLib, ts: seq<string>)
    ensures RpnString(m, ts) == match RunTree(m, ts)
      case None => None
      case Some(t) => Some(Code(m, t))
  {
    StrFromAgrees(m, ts, []);
    CodesPop(m, TreeFrom(m, ts, []));
  }

  /* ---------------- the evaluator against the tree ---------------- */

  /** The value of every tree on a stack. */
  function Meanings(m: MathLib, env: map<string, Num>, s: seq<Node>): (r: seq<Num>)
    ensures |r| == |s|
  {
    if s == [] then [] else Meanings(m, env, s[..|s| - 1]) + [Meaning(m, env, s[|s| - 1])]
  }

  lemma MeaningsPush(m: MathLib, env: map<string, Num>, s: seq<Node>, t: Node)
    ensures Meanings(m, env, s + [t]) == Meanings(m, env, s) + [Meaning(m, env, t)]
  {
    assert (s + [t])[..|s|] == s;
  }

  lemma MeaningsPop(m: MathLib, env: map<string, Num>, s: seq<Node>)
    ensures Meanings(m, env, Drop(s)) == Drop(Meanings(m, env, s))
    ensures TopNum(Meanings(m, env, s)) == Meaning(m, env, NodeOf(Last(s)))
  {
  }

  lemma EvalStepAgrees(m: MathLib, env: map<string, Num>, e: string, s: seq<Node>)
    requires IsLookup(e) ==> e in env
    ensures EvalStep(m, env, e, Meanings(m, env, s)) == Meanings(m, env, TreeStep(m, e, s))
  {
    MeaningsPop(m, env, s);
    MeaningsPop(m, env, Drop(s));
    if IsNumeric(e) {
      MeaningsPush(m, env, s, Leaf(Number(ParseFloat(m, e))));
    } else if IsOpToken(e) {
      OpTokenIsArith(e);
      var t := Node(Name(e), [NodeOf(Last(Drop(s))), NodeOf(Last(s))]);
      MeaningsPush(m, env, Drop(Drop(s)), t);
    } else if |e| > 0 && IsLetter(e[0]) {
      if IsFunctionName(e) {
        FunctionIsNamed(e);
        MeaningsPush(m, env, Drop(s), Node(Name(e), [NodeOf(Last(s))]));
      } else {
        MeaningsPush(m, env, s, Leaf(Name(e)));
      }
    }
  }

  /** Every token that the evaluator would look up is bound. */
  predicate LookupsBound(ts: seq<string>, env: map<string, Num>)
  {
    forall k :: 0 <= k < |ts| && IsLookup(ts[k]) ==> ts[k] in env
  }

  lemma {:induction false} EvalFromAgrees(m: MathLib, env: map<string, Num>, ts: seq<string>, s: seq<Node>)
    requires LookupsBound(ts, env)
    ensures EvalFrom(m, env, ts, Meanings(m, env, s)) == Meanings(m, env, TreeFrom(m, ts, s))
    decreases |ts|
  {
    if ts != [] {
      assert IsLookup(ts[0]) ==> ts[0] in env;
      EvalStepAgrees(m, env, ts[0], s);
      assert LookupsBound(ts[1..], env) by {
        forall k | 0 <= k < |ts| - 1 && IsLookup(ts[1..][k])
          ensures ts[1..][k] in env
        {
          assert ts[1..][k] == ts[k + 1];
        }
      }
      EvalFromAgrees(m, env, ts[1..], TreeStep(m, ts[0], s));
    }
  }

  /**
   * With every variable getVariablesFromRPNList reports bound, computeRPNExpression
   * computes the value of the tree turnRPNExpressionToTree builds (`undefined`
   * when no tree is built).
   */
  lemma RpnValueIsMeaning(m: MathLib, env: map<string, Num>, ts: seq<string>)
    requires VariablesOf(ts) <= env.Keys
    ensures RpnValue(m, env, ts) == match RunTree(m, ts)
      case None => Undef
      case Some(t) => Meaning(m, env, t)
  {
    BoundVariables(ts, env);
    EvalFromAgrees(m, env, ts, []);
    MeaningsPop(m, env, TreeFrom(m, ts, []));
  }
}
