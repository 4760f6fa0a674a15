/**
 * The engine's fixed vocabulary: character classes, the function table and
 * the precedence table (the constants at the head of the parsing section of
 * the Minkowski sketch).
 */
module Chars {
  import opened Wrappers

  /** The keys of the function table, in table order. */
  const FunctionNames: seq<string> := ["abs", "exp", "sin", "cos", "tan", "sinh", "cosh", "tanh", "log", "step"]

  /** `isSingleCharacterNumber`: one of the characters of the string `'1234567890'`. */
  predicate IsDigit(c: char)
  {
    '0' <= c <= '9'
  }

  /** `isALetter`: one of the characters of the `LETTERS` string. */
  predicate IsLetter(c: char)
  {
    'a' <= c <= 'z' || 'A' <= c <= 'Z'
  }

  /** `isSingleCharacterOp`: one of the characters `^ / * + -` of the `OPS` string. */
  predicate IsOp(c: char)
  {
    c == '^' || c == '/' || c == '*' || c == '+' || c == '-'
  }

  /** The digits are exactly the characters of `'1234567890'`. */
  lemma DigitCharacters(c: char)
    ensures IsDigit(c) <==> c in {'1', '2', '3', '4', '5', '6', '7', '8', '9', '0'}
  {
  }

  /** The letters are exactly the characters of `LETTERS`, the keyboard rows in both cases. */
  lemma LetterCharacters(c: char)
    ensures IsLetter(c) <==> c in {'q', 'w', 'e', 'r', 't', 'y', 'u', 'i', 'o', 'p', 'a', 's', 'd',
                                   'f', 'g', 'h', 'j', 'k', 'l', 'z', 'x', 'c', 'v', 'b', 'n', 'm',
                                   'Q', 'W', 'E', 'R', 'T', 'Y', 'U', 'I', 'O', 'P', 'A', 'S', 'D',
                                   'F', 'G', 'H', 'J', 'K', 'L', 'Z', 'X', 'C', 'V', 'B', 'N', 'M'}
  {
  }

  /** The operators are exactly the characters of `OPS`. */
  lemma OpCharacters(c: char)
    ensures IsOp(c) <==> c in {'^', '/', '*', '+', '-'}
  {
  }

  /** Digits plus `e - + .`, the characters of a floating point literal. */
  predicate IsValidNumericalCharacter(c: char) { IsDigit(c) || c == 'e' || c == '-' || c == '+' || c == '.' }
  /** `isLeftParenthesis`: `(` belongs to no number, operator or name. */
  predicate IsLeftParenthesis(c: char)
    ensures IsLeftParenthesis(c) ==> !IsValidNumericalCharacter(c) && !IsOp(c) && !IsLetter(c) && !IsRightParenthesis(c)
  {
    c == '('
  }

  /** `isRightParenthesis`: `)` belongs to no number, operator or name. */
  predicate IsRightParenthesis(c: char)
    ensures IsRightParenthesis(c) ==> !IsValidNumericalCharacter(c) && !IsOp(c) && !IsLetter(c)
  {
    c == ')'
  }

  /** `isParenthesis`: either of the two. */
  predicate IsParenthesis(c: char)
    ensures IsParenthesis(c) <==> IsLeftParenthesis(c) || IsRightParenthesis(c)
  {
    c == '(' || c == ')'
  }
  predicate IsDecimalPoint(c: char) { c == '.' }

  /** A token (a string) that is one operator character, as `isSingleCharacterOp` tests it. */
  predicate IsOpToken(t: string) { |t| == 1 && IsOp(t[0]) }

  predicate IsFunctionName(t: string) { t in FunctionNames }

  /** `precedenceOf`: functions 3, `^` 2, `*` and `/` 1, `+` and `-` 0, anything else undefined. */
  function PrecedenceOf(t: string): (r: Option<nat>)
    ensures r.Some? <==> IsOpToken(t) || IsFunctionName(t)
    ensures r.Some? ==> r.value <= 3
  {
    if IsFunctionName(t) then Some(3)
    else if t == "^" then Some(2)
    else if t == "/" || t == "*" then Some(1)
    else if t == "+" || t == "-" then Some(0)
    else None
  }

  /**
   * The classes used to split an expression are pairwise disjoint, except that
   * `e`, `+`, `-` belong both to a number literal and to another class.
   */
  lemma ClassesDisjoint(c: char)
    ensures IsDigit(c) ==> !IsLetter(c) && !IsOp(c) && !IsParenthesis(c) && c != ' ' && c != '.'
    ensures IsLetter(c) ==> !IsOp(c) && !IsParenthesis(c) && c != ' ' && c != '.'
    ensures IsOp(c) ==> !IsParenthesis(c) && c != ' ' && c != '.'
    ensures IsDigit(c) ==> IsValidNumericalCharacter(c)
  {
  }

  /** Functions bind tighter than `^`, which binds tighter than `*` `/`, then `+` `-`. */
  lemma PrecedenceOrder(f: string)
    requires IsFunctionName(f)
    ensures PrecedenceOf(f).value > PrecedenceOf("^").value > PrecedenceOf("*").value
    ensures PrecedenceOf("*") == PrecedenceOf("/") && PrecedenceOf("+") == PrecedenceOf("-")
    ensures PrecedenceOf("/").value > PrecedenceOf("-").value
  {
  }

  /** The end of the maximal run of digits of `s` that starts at `i`. */
  function DigitsEnd(s: string, i: nat): (r: nat)
    requires i <= |s|
    ensures i <= r <= |s|
    ensures forall k :: i <= k < r ==> IsDigit(s[k])
    ensures r == |s| || !IsDigit(s[r])
    decreases |s| - i
  {
    if i < |s| && IsDigit(s[i]) then DigitsEnd(s, i + 1) else i
  }

  /** Every character of `s` is a digit. */
  predicate AllDigits(s: string) { forall k :: 0 <= k < |s| ==> IsDigit(s[k]) }
}
