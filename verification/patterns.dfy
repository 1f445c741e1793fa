// The character patterns the simulated reply looks for in a message: the
// arithmetic expression of `/\d+[+\-*\/]\d+/` and the blank message, and
// how lower-casing leaves both alone.

module Patterns {
  import opened Strings

  predicate IsOperator(c: char) {
    c == '+' || c == '-' || c == '*' || c == '/'
  }

  /** A digit, an arithmetic operator and a digit stand next to each other. */
  predicate HasArithmetic(s: string) {
    exists j | 1 <= j < |s| - 1 :: IsDigit(s[j - 1]) && IsOperator(s[j]) && IsDigit(s[j + 1])
  }

  /** Every character of `s[lo..hi]` is a digit. */
  predicate DigitsBetween(s: string, lo: int, hi: int)
    requires 0 <= lo <= hi <= |s|
  {
    forall i | lo <= i < hi :: IsDigit(s[i])
  }

  /** `s[a..c]` is a run of one or more digits, the operator at `b` and
      another run of one or more digits. */
  predicate DigitsOpDigits(s: string, a: int, b: int, c: int) {
    0 <= a < b && b + 1 < c <= |s| &&
    DigitsBetween(s, a, b) && IsOperator(s[b]) && DigitsBetween(s, b + 1, c)
  }

  /** `/\d+[+\-*\/]\d+/.test(s)`: the pattern matches somewhere in `s`. */
  ghost predicate ArithmeticRegexMatches(s: string) {
    exists a, b, c :: DigitsOpDigits(s, a, b, c)
  }

  /** The three-character window the model tests is exactly the regular
      expression's test. */
  lemma ArithmeticWindowIsRegex(s: string)
    ensures HasArithmetic(s) <==> ArithmeticRegexMatches(s)
  {
    if HasArithmetic(s) {
      WindowMatchesRegex(s);
    }
    if ArithmeticRegexMatches(s) {
      RegexMatchHasWindow(s);
    }
  }

  lemma WindowMatchesRegex(s: string)
    requires HasArithmetic(s)
    ensures ArithmeticRegexMatches(s)
  {
    forall j | 1 <= j < |s| - 1 && IsDigit(s[j - 1]) && IsOperator(s[j]) && IsDigit(s[j + 1])
      ensures DigitsOpDigits(s, j - 1, j, j + 2)
    {
    }
  }

  lemma RegexMatchHasWindow(s: string)
    requires ArithmeticRegexMatches(s)
    ensures HasArithmetic(s)
  {
    forall a, b, c | DigitsOpDigits(s, a, b, c)
      ensures 1 <= b < |s| - 1 && IsDigit(s[b - 1]) && IsOperator(s[b]) && IsDigit(s[b + 1])
    {
    }
  }

  lemma LowerIsIdempotent(s: string)
    ensures ToLower(ToLower(s)) == ToLower(s)
  {
    var lower := ToLower(s);
    assert forall i | 0 <= i < |s| :: ToLower(lower)[i] == lower[i];
  }

  lemma BlankIgnoresCase(s: string)
    ensures IsBlank(ToLower(s)) <==> IsBlank(s)
  {
    var lower := ToLower(s);
    assert forall i | 0 <= i < |s| :: IsWhitespace(lower[i]) <==> IsWhitespace(s[i]);
  }

  lemma ArithmeticIgnoresCase(s: string)
    ensures HasArithmetic(ToLower(s)) <==> HasArithmetic(s)
  {
    if HasArithmetic(s) {
      ArithmeticSurvivesLowering(s);
    }
    if HasArithmetic(ToLower(s)) {
      ArithmeticSurvivesRaising(s);
    }
  }

  lemma ArithmeticSurvivesLowering(s: string)
    requires HasArithmetic(s)
    ensures HasArithmetic(ToLower(s))
  {
    var lower := ToLower(s);
    forall j | 1 <= j < |s| - 1 && IsDigit(s[j - 1]) && IsOperator(s[j]) && IsDigit(s[j + 1])
      ensures 1 <= j < |lower| - 1 && IsDigit(lower[j - 1]) && IsOperator(lower[j]) && IsDigit(lower[j + 1])
    {
      ArithmeticAt(s, lower, j);
    }
  }

  lemma ArithmeticSurvivesRaising(s: string)
    requires HasArithmetic(ToLower(s))
    ensures HasArithmetic(s)
  {
    var lower := ToLower(s);
    forall j | 1 <= j < |lower| - 1 && IsDigit(lower[j - 1]) && IsOperator(lower[j]) && IsDigit(lower[j + 1])
      ensures 1 <= j < |s| - 1 && IsDigit(s[j - 1]) && IsOperator(s[j]) && IsDigit(s[j + 1])
    {
      ArithmeticAt(s, lower, j);
    }
  }

  /** A digit, operator, digit window is one in either case. */
  lemma ArithmeticAt(s: string, lower: string, j: int)
    requires lower == ToLower(s) && 1 <= j < |s| - 1
    ensures IsDigit(lower[j - 1]) && IsOperator(lower[j]) && IsDigit(lower[j + 1]) <==>
            IsDigit(s[j - 1]) && IsOperator(s[j]) && IsDigit(s[j + 1])
  {
    LowerKeepsArithmetic(s[j - 1]);
    LowerKeepsArithmetic(s[j]);
    LowerKeepsArithmetic(s[j + 1]);
  }

  lemma LowerKeepsArithmetic(c: char)
    ensures IsDigit(LowerChar(c)) <==> IsDigit(c)
    ensures IsOperator(LowerChar(c)) <==> IsOperator(c)
  {
  }
}
