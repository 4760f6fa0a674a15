/**
 * The scanners that read one number or one identifier out of an expression
 * string, starting at a given index.  Each JavaScript scanner is a method
 * proved equal to a specification function written branch for branch like
 * the source; the lemmas below state what those functions accept.
 */
module Scanner {
  import opened Wrappers
  import opened Chars

  /**
   * What parseNumber, parseAfterDecimal and parseAfterExponent return: the
   * success flag, the text read so far (`null` is `None`) and the end index
   * (-1 on the failures that return `null`).
   */
  datatype ScanResult = ScanResult(success: bool, text: Option<string>, end: int)

  /** A character that may follow an integer or a decimal literal: operator, `)` or space. */
  predicate IsTerminator(c: char) { IsOp(c) || IsRightParenthesis(c) || c == ' ' }

  /** Index `j` is the end of input or holds a terminator. */
  predicate EndsLiteral(s: string, j: nat)
    requires j <= |s|
  {
    j == |s| || IsTerminator(s[j])
  }

  /** The end of the run of letters and digits that starts at `i` (what parseVariable reads). */
  function WordEnd(s: string, i: nat): (r: nat)
    requires i <= |s|
    ensures i <= r <= |s|
    ensures forall k :: i <= k < r ==> IsDigit(s[k]) || IsLetter(s[k])
    ensures r == |s| || !(IsDigit(s[r]) || IsLetter(s[r]))
    decreases |s| - i
  {
    if i < |s| && (IsDigit(s[i]) || IsLetter(s[i])) then WordEnd(s, i + 1) else i
  }

  /* ---------------- specification functions ---------------- */

  /**
   * parseAfterExponent: `j` is just past the `e`.  An unsigned exponent is
   * accepted whatever follows it; a signed one is refused when a `.` follows.
   */
  function ScanAfterExponent(s: string, before: string, j: nat): (r: ScanResult)
    requires j <= |s|
    ensures r.text.Some?
    ensures r.success ==> j < r.end <= |s| && r.text.value == before + "e" + s[j..r.end]
  {
    var valStr := before + "e";
    if j == |s| then ScanResult(false, Some(valStr), j)
    else if IsDigit(s[j]) then
      var k := DigitsEnd(s, j);
      ScanResult(true, Some(valStr + s[j..k]), k)
    else if s[j] == '+' || s[j] == '-' then
      var signed := valStr + [s[j]];
      if j + 1 == |s| then ScanResult(false, Some(signed), j + 1)
      else if IsDigit(s[j + 1]) then
        var k := DigitsEnd(s, j + 1);
        assert signed + s[j + 1..k] == before + "e" + s[j..k];
        if k != |s| && s[k] == '.' then ScanResult(false, Some(signed + s[j + 1..k]), k)
        else ScanResult(true, Some(signed + s[j + 1..k]), k)
      else ScanResult(false, Some(signed), j + 1)
    else ScanResult(false, Some(valStr), j)
  }

  /**
   * parseAfterDecimal: `j` is just past the `.`.  The fraction digits may be
   * empty; then a terminator or the end gives success and an `e` goes on to
   * the exponent.
   */
  function ScanAfterDecimal(s: string, before: string, j: nat): (r: ScanResult)
    requires j <= |s|
    ensures r.success ==> j <= r.end <= |s| && r.text == Some(before + "." + s[j..r.end])
  {
    var valStr := before + ".";
    // parseInteger is only called when s[j] is a digit; otherwise DigitsEnd(s, j) is j
    var k := DigitsEnd(s, j);
    var frac := valStr + s[j..k];
    if k == |s| then ScanResult(true, Some(frac), k)
    else if IsTerminator(s[k]) then ScanResult(true, Some(frac), k)
    else if s[k] == 'e' then
      var r := ScanAfterExponent(s, frac, k + 1);
      assert r.success ==> frac + "e" + s[k + 1..r.end] == before + "." + s[j..r.end] by {
        if r.success {
          assert s[j..r.end] == s[j..k] + [s[k]] + s[k + 1..r.end];
        }
      }
      r
    else ScanResult(false, None, -1)
  }

  /** parseNumber: digits, then the end, a terminator, an exponent or a fraction. */
  function ScanNumber(s: string, i: nat): (r: ScanResult)
    requires i <= |s|
    ensures r.success ==> i <= r.end <= |s| && r.text == Some(s[i..r.end])
    ensures r.success && i < |s| && IsDigit(s[i]) ==> i < r.end
  {
    var j := DigitsEnd(s, i);
    var valStr := s[i..j];
    if j == |s| then ScanResult(true, Some(valStr), j)
    else if IsTerminator(s[j]) then ScanResult(true, Some(valStr), j)
    else if s[j] == 'e' then
      var r := ScanAfterExponent(s, valStr, j + 1);
      assert r.success ==> valStr + "e" + s[j + 1..r.end] == s[i..r.end] by {
        if r.success {
          Rejoin(s, i, j, r.end);
        }
      }
      r
    else if IsDecimalPoint(s[j]) then
      var r := ScanAfterDecimal(s, valStr, j + 1);
      assert r.success ==> valStr + "." + s[j + 1..r.end] == s[i..r.end] by {
        if r.success {
          Rejoin(s, i, j, r.end);
        }
      }
      r
    else ScanResult(false, None, -1)
  }

  /* ---------------- the scanners ---------------- */

  /** parseInteger: the maximal run of digits starting at `i`. */
  method ParseInteger(s: string, i: nat) returns (parsed: string, end: nat)
    requires i <= |s|
    ensures i <= end <= |s| && parsed == s[i..end]
    ensures forall k :: i <= k < end ==> IsDigit(s[k])
    ensures end == |s| || !IsDigit(s[end])
    ensures end == DigitsEnd(s, i)
  {
    parsed := "";
    end := i;
    while end < |s| && IsDigit(s[end])
      invariant i <= end <= |s| && parsed == s[i..end]
      invariant DigitsEnd(s, end) == DigitsEnd(s, i)
      decreases |s| - end
    {
      parsed := parsed + [s[end]];
      end := end + 1;
    }
  }

  /** parseVariable: the maximal run of letters and digits starting at `i`. */
  method ParseVariable(s: string, i: nat) returns (name: string, end: nat)
    requires i <= |s|
    ensures i <= end <= |s| && name == s[i..end]
    ensures forall k :: i <= k < end ==> IsDigit(s[k]) || IsLetter(s[k])
    ensures end == |s| || !(IsDigit(s[end]) || IsLetter(s[end]))
    ensures end == WordEnd(s, i)
  {
    name := "";
    end := i;
    while end < |s| && (IsDigit(s[end]) || IsLetter(s[end]))
      invariant i <= end <= |s| && name == s[i..end]
      invariant WordEnd(s, end) == WordEnd(s, i)
      decreases |s| - end
    {
      name := name + [s[end]];
      end := end + 1;
    }
  }

  method ParseAfterExponent(s: string, before: string, j: nat) returns (r: ScanResult)
    requires j <= |s|
    ensures r == ScanAfterExponent(s, before, j)
  {
    var valStr := before + "e";
    var k := j;
    if k == |s| {
      return ScanResult(false, Some(valStr), k);
    }
    if IsDigit(s[k]) {
      var digits, e := ParseInteger(s, k);
      return ScanResult(true, Some(valStr + digits), e);
    } else if s[k] == '+' || s[k] == '-' {
      valStr := valStr + [s[k]];
      k := k + 1;
      if k == |s| {
        return ScanResult(false, Some(valStr), k);
      }
    }
    if IsDigit(s[k]) {
      var digits, e := ParseInteger(s, k);
      if e != |s| && s[e] == '.' {
        return ScanResult(false, Some(valStr + digits), e);
      }
      return ScanResult(true, Some(valStr + digits), e);
    }
    return ScanResult(false, Some(valStr), k);
  }

  method ParseAfterDecimal(s: string, before: string, j: nat) returns (r: ScanResult)
    requires j <= |s|
    ensures r == ScanAfterDecimal(s, before, j)
  {
    var k := j;
    var valStr := before + ".";
    if k < |s| && IsDigit(s[k]) {
      var digits, e := ParseInteger(s, k);
      k := e;
      valStr := valStr + digits;
    } else {
      assert DigitsEnd(s, j) == j;
      assert s[j..j] == [];
    }
    assert k == DigitsEnd(s, j) && valStr == before + "." + s[j..k];
    if k == |s| {
      return ScanResult(true, Some(valStr), k);
    }
    if IsTerminator(s[k]) {
      return ScanResult(true, Some(valStr), k);
    } else if s[k] == 'e' {
      r := ParseAfterExponent(s, valStr, k + 1);
      return;
    }
    return ScanResult(false, None, -1);
  }

  method ParseNumber(s: string, i: nat) returns (r: ScanResult)
    requires i <= |s|
    ensures r == ScanNumber(s, i)
  {
    var valStr, j := ParseInteger(s, i);
    if j == |s| {
      return ScanResult(true, Some(valStr), j);
    }
    if IsTerminator(s[j]) {
      return ScanResult(true, Some(valStr), j);
    } else if s[j] == 'e' {
      r := ParseAfterExponent(s, valStr, j + 1);
    } else if IsDecimalPoint(s[j]) {
      r := ParseAfterDecimal(s, valStr, j + 1);
    } else {
      r := ScanResult(false, None, -1);
    }
  }

  /* ---------------- the number grammar ---------------- */

  predicate IsFraction(f: string) { f == [] || (f[0] == '.' && AllDigits(f[1..])) }

  predicate IsExponent(x: string)
  {
    x == []
    || (|x| >= 2 && x[0] == 'e' && AllDigits(x[1..]))
    || (|x| >= 3 && x[0] == 'e' && (x[1] == '+' || x[1] == '-') && AllDigits(x[2..]))
  }

  /** `digits [. digits] [e [+|-] digits]` with at least one leading digit. */
  predicate IsLiteral(w: string)
  {
    exists p, q :: 0 < p <= q <= |w| && AllDigits(w[..p]) && IsFraction(w[p..q]) && IsExponent(w[q..])
  }

  lemma LiteralFrom(w: string, p: nat, q: nat)
    requires 0 < p <= q <= |w| && AllDigits(w[..p]) && IsFraction(w[p..q]) && IsExponent(w[q..])
    ensures IsLiteral(w)
  {
  }

  lemma {:induction false} DigitsEndAt(s: string, i: nat, k: nat)
    requires i <= k <= |s|
    requires forall n :: i <= n < k ==> IsDigit(s[n])
    requires k == |s| || !IsDigit(s[k])
    ensures DigitsEnd(s, i) == k
    decreases k - i
  {
    if i < k {
      DigitsEndAt(s, i + 1, k);
    }
  }

  /** Digits, `.`, `e` and signs, as a literal is made of them. */
  lemma DigitsHaveNoMarks(d: string)
    requires AllDigits(d)
    ensures 'e' !in d && '+' !in d && '-' !in d && '.' !in d
  {
  }

  /**
   * What an exponent scan that succeeds has read (`j` just past the `e`):
   * digits, or a sign and digits, ending before a digit; a signed exponent
   * also does not end before a `.`.
   */
  lemma ExponentSound(s: string, before: string, j: nat)
    requires 0 < j <= |s| && s[j - 1] == 'e'
    ensures var r := ScanAfterExponent(s, before, j);
      r.success ==>
        IsExponent(s[j - 1..r.end]) && (r.end == |s| || !IsDigit(s[r.end]))
        && (s[j] == '+' || s[j] == '-' ==> r.end == |s| || s[r.end] != '.')
        && (s[j] != '+' && s[j] != '-' ==> '+' !in s[j - 1..r.end] && '-' !in s[j - 1..r.end])
        && '.' !in s[j - 1..r.end]
  {
    var r := ScanAfterExponent(s, before, j);
    if r.success {
      var x := s[j - 1..r.end];
      if IsDigit(s[j]) {
        assert x[1..] == s[j..r.end];
        assert AllDigits(x[1..]);
        DigitsHaveNoMarks(x[1..]);
        assert x == [x[0]] + x[1..];
      } else {
        assert x[2..] == s[j + 1..r.end];
        assert AllDigits(x[2..]);
        DigitsHaveNoMarks(x[2..]);
        assert x == [x[0], x[1]] + x[2..];
      }
    }
  }

  /** What follows the integer digits of a literal: an optional fraction, then an optional exponent. */
  predicate IsTail(x: string)
  {
    exists q :: 0 <= q <= |x| && IsFraction(x[..q]) && IsExponent(x[q..])
  }

  lemma LiteralOfTail(w: string, p: nat)
    requires 0 < p <= |w| && AllDigits(w[..p]) && IsTail(w[p..])
    ensures IsLiteral(w)
  {
    var x := w[p..];
    var q :| 0 <= q <= |x| && IsFraction(x[..q]) && IsExponent(x[q..]);
    assert w[p..p + q] == x[..q] && w[p + q..] == x[q..];
    LiteralFrom(w, p, p + q);
  }

  /** The facts about one scanned piece `x` of a literal that ends at `end`. */
  predicate PieceFollows(s: string, x: string, end: nat)
    requires end <= |s|
  {
    (end == |s| || !IsDigit(s[end]))
    && ('e' !in x ==> EndsLiteral(s, end))
    && ('+' in x || '-' in x ==> end == |s| || s[end] != '.')
  }

  lemma ExponentPiece(s: string, before: string, j: nat)
    requires 0 < j <= |s| && s[j - 1] == 'e'
    ensures var r := ScanAfterExponent(s, before, j);
      r.success ==> IsTail(s[j - 1..r.end]) && PieceFollows(s, s[j - 1..r.end], r.end)
  {
    var r := ScanAfterExponent(s, before, j);
    if r.success {
      ExponentSound(s, before, j);
      var x := s[j - 1..r.end];
      assert x[..0] == [] && x[0..] == x;
      assert x[0] == 'e';
    }
  }

  /** A slice is the part before index j, the character at j and the part after it. */
  lemma Rejoin(s: string, i: nat, j: nat, e: nat)
    requires i <= j < e <= |s|
    ensures s[i..j] + [s[j]] + s[j + 1..e] == s[i..e]
  {
  }

  /** What a fraction scan that succeeds has read (`j` just past the `.`). */
  lemma DecimalPiece(s: string, before: string, j: nat)
    requires 0 < j <= |s| && s[j - 1] == '.'
    ensures var r := ScanAfterDecimal(s, before, j);
      r.success ==> IsTail(s[j - 1..r.end]) && PieceFollows(s, s[j - 1..r.end], r.end)
  {
    var k := DigitsEnd(s, j);
    FractionRun(s, j);
    if k == |s| || IsTerminator(s[k]) {
      DecimalPieceEnds(s, before, j);
    } else {
      DecimalPieceExponent(s, before, j);
    }
  }

  /** The `.` and the digits after it. */
  lemma FractionRun(s: string, j: nat)
    requires 0 < j <= |s| && s[j - 1] == '.'
    ensures var f := s[j - 1..DigitsEnd(s, j)];
      f[0] == '.' && AllDigits(f[1..]) && 'e' !in f && '+' !in f && '-' !in f
  {
    var k := DigitsEnd(s, j);
    var f := s[j - 1..k];
    assert f == [s[j - 1]] + s[j..k];
    assert AllDigits(f[1..]) by { assert f[1..] == s[j..k]; }
    DigitsHaveNoMarks(s[j..k]);
  }

  /** A fraction followed by a terminator or the end of input. */
  lemma DecimalPieceEnds(s: string, before: string, j: nat)
    requires 0 < j <= |s| && s[j - 1] == '.'
    requires var k := DigitsEnd(s, j); k == |s| || IsTerminator(s[k])
    requires var f := s[j - 1..DigitsEnd(s, j)];
      f[0] == '.' && AllDigits(f[1..]) && 'e' !in f && '+' !in f && '-' !in f
    ensures var r := ScanAfterDecimal(s, before, j);
      r.success ==> IsTail(s[j - 1..r.end]) && PieceFollows(s, s[j - 1..r.end], r.end)
  {
    var r := ScanAfterDecimal(s, before, j);
    var k := DigitsEnd(s, j);
    var x := s[j - 1..k];
    assert r.success && r.end == k;
    assert x[..|x|] == x && x[|x|..] == [];
  }

  /** A fraction followed by an exponent. */
  lemma DecimalPieceExponent(s: string, before: string, j: nat)
    requires 0 < j <= |s| && s[j - 1] == '.'
    requires var k := DigitsEnd(s, j); k < |s| && !IsTerminator(s[k])
    requires var f := s[j - 1..DigitsEnd(s, j)];
      f[0] == '.' && AllDigits(f[1..]) && 'e' !in f && '+' !in f && '-' !in f
    ensures var r := ScanAfterDecimal(s, before, j);
      r.success ==> IsTail(s[j - 1..r.end]) && PieceFollows(s, s[j - 1..r.end], r.end)
  {
    var r := ScanAfterDecimal(s, before, j);
    if r.success {
      var k := DigitsEnd(s, j);
      DecimalTakesExponent(s, before, j);
      ExponentSound(s, before + "." + s[j..k], k + 1);
      PieceJoin(s, j - 1, k, r.end);
    }
  }

  /** After the fraction digits only an exponent lets the scan succeed. */
  lemma DecimalTakesExponent(s: string, before: string, j: nat)
    requires 0 < j <= |s|
    requires var k := DigitsEnd(s, j); k < |s| && !IsTerminator(s[k])
    ensures var k := DigitsEnd(s, j); var r := ScanAfterDecimal(s, before, j);
      r.success ==> s[k] == 'e' && r == ScanAfterExponent(s, before + "." + s[j..k], k + 1)
  {
  }

  /** A fraction and an exponent after it make one tail of a literal. */
  lemma PieceJoin(s: string, a: nat, k: nat, e: nat)
    requires a < k && k + 1 < e <= |s|
    requires var f := s[a..k]; f[0] == '.' && AllDigits(f[1..]) && 'e' !in f && '+' !in f && '-' !in f
    requires s[k] == 'e' && IsExponent(s[k..e]) && (e == |s| || !IsDigit(s[e]))
    requires s[k + 1] == '+' || s[k + 1] == '-' ==> e == |s| || s[e] != '.'
    requires s[k + 1] != '+' && s[k + 1] != '-' ==> '+' !in s[k..e] && '-' !in s[k..e]
    ensures IsTail(s[a..e]) && PieceFollows(s, s[a..e], e)
  {
    var x, f, g := s[a..e], s[a..k], s[k..e];
    assert x == f + g;
    assert x[..k - a] == f && x[k - a..] == g;
    assert IsFraction(x[..k - a]) && IsExponent(x[k - a..]);
    assert x[k - a] == 'e';
    assert g[1] == s[k + 1];
  }

  /**
   * parseNumber succeeds only on a literal of the grammar, read up to a
   * non-digit; without an exponent it must end at a terminator or the end of
   * input, and with a signed exponent it may not end before a `.`.
   */
  lemma ScanNumberSound(s: string, i: nat)
    requires i < |s| && IsDigit(s[i])
    ensures var r := ScanNumber(s, i);
      r.success ==> IsLiteral(s[i..r.end]) && PieceFollows(s, s[i..r.end], r.end)
  {
    var j := DigitsEnd(s, i);
    if EndsLiteral(s, j) {
      ScanNumberPlain(s, i);
    } else if s[j] == 'e' {
      var r := ScanAfterExponent(s, s[i..j], j + 1);
      ScanNumberTakesExponent(s, i);
      ExponentPiece(s, s[i..j], j + 1);
      if r.success {
        JoinPiece(s, i, j, r.end);
      }
    } else if s[j] == '.' {
      var r := ScanAfterDecimal(s, s[i..j], j + 1);
      ScanNumberTakesDecimal(s, i);
      DecimalPiece(s, s[i..j], j + 1);
      if r.success {
        JoinPiece(s, i, j, r.end);
      }
    } else {
      ScanNumberFails(s, i);
    }
  }

  /** A run of digits that ends at a terminator or at the end of input is a literal by itself. */
  lemma ScanNumberPlain(s: string, i: nat)
    requires i < |s| && IsDigit(s[i]) && EndsLiteral(s, DigitsEnd(s, i))
    ensures var r := ScanNumber(s, i);
      r.success && r.end == DigitsEnd(s, i) && IsLiteral(s[i..r.end]) && PieceFollows(s, s[i..r.end], r.end)
  {
    var j := DigitsEnd(s, i);
    var w := s[i..j];
    assert AllDigits(w[..j - i]) by { assert w[..j - i] == w; }
    DigitsHaveNoMarks(w);
    assert w[j - i..] == [] && w[j - i..][..0] == [] && w[j - i..][0..] == [];
    LiteralOfTail(w, j - i);
  }

  lemma ScanNumberTakesExponent(s: string, i: nat)
    requires i < |s| && !EndsLiteral(s, DigitsEnd(s, i)) && s[DigitsEnd(s, i)] == 'e'
    ensures ScanNumber(s, i) == ScanAfterExponent(s, s[i..DigitsEnd(s, i)], DigitsEnd(s, i) + 1)
  {
  }

  lemma ScanNumberTakesDecimal(s: string, i: nat)
    requires i < |s| && !EndsLiteral(s, DigitsEnd(s, i)) && s[DigitsEnd(s, i)] == '.'
    ensures ScanNumber(s, i) == ScanAfterDecimal(s, s[i..DigitsEnd(s, i)], DigitsEnd(s, i) + 1)
  {
  }

  lemma ScanNumberFails(s: string, i: nat)
    requires i < |s| && !EndsLiteral(s, DigitsEnd(s, i))
    requires s[DigitsEnd(s, i)] != 'e' && s[DigitsEnd(s, i)] != '.'
    ensures !ScanNumber(s, i).success
  {
  }

  /** The digits before a scanned fraction or exponent and that piece together form a literal. */
  lemma JoinPiece(s: string, i: nat, j: nat, e: nat)
    requires i < j <= e <= |s| && j == DigitsEnd(s, i)
    requires IsTail(s[j..e]) && PieceFollows(s, s[j..e], e)
    ensures IsLiteral(s[i..e]) && PieceFollows(s, s[i..e], e)
  {
    var w := s[i..e];
    var d := s[i..j];
    var x := s[j..e];
    assert w == d + x;
    assert w[..j - i] == d && w[j - i..] == x;
    assert AllDigits(d);
    DigitsHaveNoMarks(d);
    LiteralOfTail(w, j - i);
  }

  /**
   * Conversely, a literal of the grammar that ends at a terminator or at the
   * end of input is read in full.
   */
  lemma ScanNumberComplete(s: string, i: nat, e: nat)
    requires i <= e <= |s| && IsLiteral(s[i..e]) && EndsLiteral(s, e)
    ensures ScanNumber(s, i).success && ScanNumber(s, i).end == e
  {
    var w := s[i..e];
    var p, q :| 0 < p <= q <= |w| && AllDigits(w[..p]) && IsFraction(w[p..q]) && IsExponent(w[q..]);
    ScanNumberCompleteAt(s, i, e, p, q);
  }

  lemma ScanNumberCompleteAt(s: string, i: nat, e: nat, p: nat, q: nat)
    requires i <= e <= |s| && EndsLiteral(s, e)
    requires 0 < p <= q <= e - i && AllDigits(s[i..e][..p]) && IsFraction(s[i..e][p..q]) && IsExponent(s[i..e][q..])
    ensures ScanNumber(s, i).success && ScanNumber(s, i).end == e
  {
    var j := i + p;
    IntegerPartEnd(s, i, e, p, q);
    if j == e {
      NumberEndsAtDigits(s, i, j);
    } else if q > p {
      DecimalComplete(s, s[i..j], i, e, p, q);
      NumberTakesDecimal(s, i, j);
    } else {
      ExponentComplete(s, s[i..j], j, e, s[i..e][q..]);
      NumberTakesExponent(s, i, j);
    }
  }

  lemma NumberEndsAtDigits(s: string, i: nat, j: nat)
    requires i <= j <= |s| && DigitsEnd(s, i) == j && EndsLiteral(s, j)
    ensures ScanNumber(s, i).success && ScanNumber(s, i).end == j
  {
  }

  lemma NumberTakesDecimal(s: string, i: nat, j: nat)
    requires i <= j < |s| && DigitsEnd(s, i) == j && s[j] == '.'
    ensures ScanNumber(s, i) == ScanAfterDecimal(s, s[i..j], j + 1)
  {
  }

  lemma NumberTakesExponent(s: string, i: nat, j: nat)
    requires i <= j < |s| && DigitsEnd(s, i) == j && s[j] == 'e'
    ensures ScanNumber(s, i) == ScanAfterExponent(s, s[i..j], j + 1)
  {
  }

  lemma DecimalComplete(s: string, before: string, i: nat, e: nat, p: nat, q: nat)
    requires i <= e <= |s| && EndsLiteral(s, e)
    requires 0 < p < q <= e - i && IsFraction(s[i..e][p..q]) && IsExponent(s[i..e][q..])
    requires s[i + p] == '.'
    ensures ScanAfterDecimal(s, before, i + p + 1).success && ScanAfterDecimal(s, before, i + p + 1).end == e
  {
    var k := i + q;
    FractionPartEnd(s, i, e, p, q);
    if k < e {
      var frac := before + "." + s[i + p + 1..k];
      ExponentComplete(s, frac, k, e, s[i..e][q..]);
    }
  }

  lemma IntegerPartEnd(s: string, i: nat, e: nat, p: nat, q: nat)
    requires i <= e <= |s| && EndsLiteral(s, e)
    requires 0 < p <= q <= e - i && AllDigits(s[i..e][..p]) && IsFraction(s[i..e][p..q]) && IsExponent(s[i..e][q..])
    ensures DigitsEnd(s, i) == i + p
    ensures i + p < e ==> s[i + p] == (if q > p then '.' else 'e')
  {
    var w := s[i..e];
    var j := i + p;
    PrefixDigits(s, i, e, p);
    if j < e {
      assert s[j] == w[p];
      if q > p { assert w[p..q][0] == w[p]; } else { assert w[q..][0] == w[p]; }
    }
    DigitsEndAt(s, i, j);
  }

  lemma PrefixDigits(s: string, i: nat, e: nat, p: nat)
    requires i <= e <= |s| && p <= e - i && AllDigits(s[i..e][..p])
    ensures forall n :: i <= n < i + p ==> IsDigit(s[n])
  {
    forall n | i <= n < i + p ensures IsDigit(s[n]) {
      assert s[i..e][..p][n - i] == s[n];
    }
  }

  lemma FractionPartEnd(s: string, i: nat, e: nat, p: nat, q: nat)
    requires i <= e <= |s| && EndsLiteral(s, e)
    requires 0 < p < q <= e - i && IsFraction(s[i..e][p..q]) && IsExponent(s[i..e][q..])
    ensures DigitsEnd(s, i + p + 1) == i + q
    ensures i + q < e ==> s[i + q] == 'e'
  {
    var w := s[i..e];
    var j := i + p;
    var k := i + q;
    assert forall n :: j + 1 <= n < k ==> IsDigit(s[n]) by {
      forall n | j + 1 <= n < k ensures IsDigit(s[n]) { assert w[p..q][1..][n - j - 1] == s[n]; }
    }
    if k < e {
      assert s[k] == w[q..][0];
    }
    DigitsEndAt(s, j + 1, k);
  }

  /** An exponent `e [+|-] digits` at `k`, ending at a terminator or the end, is read to its end. */
  lemma ExponentComplete(s: string, before: string, k: nat, e: nat, x: string)
    requires k < e <= |s| && x == s[k..e] && IsExponent(x) && x != [] && EndsLiteral(s, e)
    ensures ScanAfterExponent(s, before, k + 1).success && ScanAfterExponent(s, before, k + 1).end == e
  {
    if x[1] == '+' || x[1] == '-' {
      assert forall n :: k + 2 <= n < e ==> IsDigit(s[n]) by {
        forall n | k + 2 <= n < e ensures IsDigit(s[n]) { assert x[2..][n - k - 2] == s[n]; }
      }
      DigitsEndAt(s, k + 2, e);
    } else {
      assert forall n :: k + 1 <= n < e ==> IsDigit(s[n]) by {
        forall n | k + 1 <= n < e ensures IsDigit(s[n]) { assert x[1..][n - k - 1] == s[n]; }
      }
      DigitsEndAt(s, k + 1, e);
    }
  }

  /** The inputs `2x`, `1e`, `1e+` and `1.5.3` are refused. */
  lemma RejectedNumbers()
    ensures !ScanNumber("2x", 0).success
    ensures !ScanNumber("1e", 0).success
    ensures !ScanNumber("1e+", 0).success
    ensures !ScanNumber("1.5.3", 0).success
  {
    DigitsEndAt("2x", 0, 1);
    DigitsEndAt("1e", 0, 1);
    DigitsEndAt("1e+", 0, 1);
    DigitsEndAt("1.5.3", 0, 1);
    DigitsEndAt("1.5.3", 2, 3);
  }

  /**
   * An unsigned exponent is accepted even before a `.` or a letter, while a
   * signed one is refused before a `.`: `1e5.` reads `1e5`, `1e+5.` fails.
   */
  lemma ExponentFollowers()
    ensures ScanNumber("1e5.", 0) == ScanResult(true, Some("1e5"), 3)
    ensures ScanNumber("1e5x", 0) == ScanResult(true, Some("1e5"), 3)
    ensures !ScanNumber("1e+5.", 0).success
  {
    DigitsEndAt("1e5.", 0, 1);
    DigitsEndAt("1e5.", 2, 3);
    assert "1e5."[0..1] + "e" + "1e5."[2..3] == "1e5";
    DigitsEndAt("1e5x", 0, 1);
    DigitsEndAt("1e5x", 2, 3);
    assert "1e5x"[0..1] + "e" + "1e5x"[2..3] == "1e5";
    DigitsEndAt("1e+5.", 0, 1);
    DigitsEndAt("1e+5.", 3, 4);
  }
}
