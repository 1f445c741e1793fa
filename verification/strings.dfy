/** The parts of JavaScript's string library the chat widget relies on:
    `trim`, `toLowerCase`, `startsWith`, `endsWith`, `includes`,
    `Array.prototype.join` and the decimal rendering of a number in a
    template literal. Strings are sequences of characters. */
module Strings {

  /** The characters `String.prototype.trim` removes: the WhiteSpace and
      LineTerminator code points of ECMAScript. */
  predicate IsWhitespace(c: char) {
    c == ' ' || c == '\t' || c == '\n' || c == '\r' ||
    c == '\U{000B}' || c == '\U{000C}' || c == '\U{00A0}' || c == '\U{1680}' ||
    ('\U{2000}' <= c <= '\U{200A}') ||
    c == '\U{2028}' || c == '\U{2029}' || c == '\U{202F}' || c == '\U{205F}' ||
    c == '\U{3000}' || c == '\U{FEFF}'
  }

  /** Every character is whitespace (the empty string included). */
  predicate IsBlank(s: string) {
    forall i | 0 <= i < |s| :: IsWhitespace(s[i])
  }

  /** Number of whitespace characters at the start of `s`. */
  function LeadingWhitespace(s: string): (k: nat)
    ensures k <= |s|
    ensures forall i | 0 <= i < k :: IsWhitespace(s[i])
    ensures k < |s| ==> !IsWhitespace(s[k])
  {
    if |s| == 0 || !IsWhitespace(s[0]) then 0 else 1 + LeadingWhitespace(s[1..])
  }

  /** Index at which the trailing whitespace of `s` begins. */
  function TrailingWhitespaceStart(s: string): (k: nat)
    ensures k <= |s|
    ensures forall i | k <= i < |s| :: IsWhitespace(s[i])
    ensures k > 0 ==> !IsWhitespace(s[k - 1])
  {
    if |s| == 0 || !IsWhitespace(s[|s| - 1]) then |s|
    else TrailingWhitespaceStart(s[..|s| - 1])
  }

  /** `s.trim()`: what is left after dropping leading and trailing
      whitespace. It is empty exactly when `s` is blank. */
  function Trim(s: string): (r: string)
    ensures |r| <= |s|
    ensures r == [] <==> IsBlank(s)
  {
    var i := LeadingWhitespace(s);
    var j := TrailingWhitespaceStart(s[i..]);
    TrimSlice(s, i, j);
    s[i..][..j]
  }

  /** The trimmed string is a slice of `s` with only whitespace on either
      side, and starts and ends with a character that is not whitespace. */
  lemma TrimIsSlice(s: string)
    ensures var r := Trim(s);
      (r != [] ==> !IsWhitespace(r[0]) && !IsWhitespace(r[|r| - 1])) &&
      exists i :: 0 <= i <= |s| - |r| && r == s[i..i + |r|] && IsBlank(s[..i]) && IsBlank(s[i + |r|..])
  {
    var i := LeadingWhitespace(s);
    var t := s[i..];
    var j := TrailingWhitespaceStart(t);
    TrimSlice(s, i, j);
    var r := Trim(s);
    assert r == s[i..i + j] && |r| == j;
    if r != [] {
      assert r[0] == t[0] && r[|r| - 1] == t[j - 1];
    }
    assert r == s[i..i + |r|] && IsBlank(s[..i]) && IsBlank(s[i + |r|..]);
  }

  lemma TrimSlice(s: string, i: nat, j: nat)
    requires i == LeadingWhitespace(s) && j == TrailingWhitespaceStart(s[i..])
    ensures s[i..][..j] == s[i..i + j]
    ensures IsBlank(s[..i]) && IsBlank(s[i + j..])
    ensures j == 0 ==> IsBlank(s)
  {
    var t := s[i..];
    assert s[i + j..] == t[j..];
    if j == 0 {
      assert i == |s|;
      assert s[..i] == s;
    }
  }

  /** `c.toLowerCase()` for one character, on the ASCII letters. */
  function LowerChar(c: char): char {
    if 'A' <= c <= 'Z' then (c as int + 32) as char else c
  }

  /** `s.toLowerCase()` restricted to ASCII letters. */
  function ToLower(s: string): (r: string)
    ensures |r| == |s|
    ensures forall i | 0 <= i < |s| :: r[i] == LowerChar(s[i])
  {
    seq(|s|, i requires 0 <= i < |s| => LowerChar(s[i]))
  }

  /** No upper-case ASCII letter occurs in `s`: the shape of a literal that a
      lower-cased string is compared against. */
  predicate NoUpperAscii(s: string) {
    forall i | 0 <= i < |s| :: !('A' <= s[i] <= 'Z')
  }

  /** Character `c` is the lower-case character `e` written in either case. */
  predicate SameIgnoringCase(c: char, e: char) {
    c == e || ('a' <= e <= 'z' && c as int == e as int - 32)
  }

  /** `s` ends with `suffix`, compared letter by letter ignoring ASCII case;
      `suffix` is written in lower case. */
  predicate EndsWithIgnoringCase(s: string, suffix: string) {
    |suffix| <= |s| &&
    forall i | 0 <= i < |suffix| :: SameIgnoringCase(s[|s| - |suffix| + i], suffix[i])
  }

  predicate StartsWith(s: string, prefix: string) {
    |prefix| <= |s| && s[..|prefix|] == prefix
  }

  predicate EndsWith(s: string, suffix: string) {
    |suffix| <= |s| && s[|s| - |suffix|..] == suffix
  }

  /** `sub` occurs in `s` starting at index `i`. */
  predicate OccursAt(s: string, sub: string, i: int) {
    0 <= i && i + |sub| <= |s| && s[i..i + |sub|] == sub
  }

  /** `s.includes(sub)`: some window of s spells sub; a prefix or a suffix
      is such a window, and sub never outgrows s. */
  predicate Contains(s: string, sub: string): (b: bool)
    ensures b ==> |sub| <= |s|
    ensures StartsWith(s, sub) ==> b
    ensures EndsWith(s, sub) ==> b
  {
    assert StartsWith(s, sub) ==> OccursAt(s, sub, 0);
    assert EndsWith(s, sub) ==> OccursAt(s, sub, |s| - |sub|);
    exists i | 0 <= i <= |s| - |sub| :: OccursAt(s, sub, i)
  }

  /** Lower-casing `s` and testing `endsWith(suffix)` is the same as testing
      that `s` ends with `suffix` in any mixture of upper and lower case. */
  lemma {:induction false} LowerEndsWith(s: string, suffix: string)
    requires NoUpperAscii(suffix)
    ensures EndsWith(ToLower(s), suffix) <==> EndsWithIgnoringCase(s, suffix)
  {
    var l := ToLower(s);
    if |suffix| <= |s| {
      var o := |s| - |suffix|;
      forall i | 0 <= i < |suffix|
        ensures l[o + i] == suffix[i] <==> SameIgnoringCase(s[o + i], suffix[i])
      {
        var c := s[o + i];
        if 'A' <= c <= 'Z' {
          assert l[o + i] == (c as int + 32) as char;
        } else {
          assert l[o + i] == c;
        }
      }
      if EndsWith(l, suffix) {
        forall i | 0 <= i < |suffix| ensures SameIgnoringCase(s[o + i], suffix[i]) {
          assert l[o..][i] == l[o + i];
        }
      }
      if EndsWithIgnoringCase(s, suffix) {
        assert l[o..] == suffix by {
          forall i | 0 <= i < |suffix| ensures l[o..][i] == suffix[i] {
            assert l[o..][i] == l[o + i];
          }
        }
      }
    }
  }

  /** Where the pieces of a three-way concatenation sit. */
  lemma ConcatParts(x: string, y: string, z: string)
    ensures StartsWith(x + y + z, x) && StartsWith(x + y + z, x + y)
    ensures OccursAt(x + y + z, y, |x|) && EndsWith(x + y + z, z)
  {
    assert (x + y + z)[..|x|] == x;
    assert (x + y + z)[..|x + y|] == x + y;
    assert (x + y + z)[|x|..|x| + |y|] == y;
    assert (x + y + z)[|x + y + z| - |z|..] == z;
  }

  /** A suffix of a suffix is a suffix. */
  lemma EndsWithWithin(s: string, t: string, u: string)
    requires EndsWith(s, t) && EndsWith(t, u)
    ensures EndsWith(s, u)
  {
    assert s[|s| - |u|..] == t[|t| - |u|..];
  }

  /** `parts.join(sep)`: the parts in order with `sep` between neighbours,
      so the result begins with the first part and ends with the last. */
  function Join(sep: string, parts: seq<string>): (r: string)
    ensures |parts| > 0 ==> StartsWith(r, parts[0])
    ensures |parts| > 0 ==> EndsWith(r, parts[|parts| - 1])
    ensures |parts| == 1 ==> r == parts[0]
  {
    if |parts| == 0 then ""
    else if |parts| == 1 then parts[0]
    else
      var rest := Join(sep, parts[1..]);
      ConcatParts(parts[0], sep, rest);
      EndsWithWithin(parts[0] + sep + rest, rest, parts[|parts| - 1]);
      parts[0] + sep + rest
  }

  /** Joining is empty exactly when there is nothing to join, provided no
      part is empty. */
  lemma {:induction false} JoinEmptyIff(sep: string, parts: seq<string>)
    requires forall i | 0 <= i < |parts| :: parts[i] != []
    ensures Join(sep, parts) == [] <==> parts == []
  {
  }

  /** Joining two lists is joining each, with one separator between them
      when both are non-empty. */
  lemma {:induction false} JoinAppend(sep: string, a: seq<string>, b: seq<string>)
    ensures Join(sep, a + b) == Join(sep, a) + (if a == [] || b == [] then "" else sep) + Join(sep, b)
  {
    if a == [] {
      assert a + b == b;
    } else if b == [] {
      assert a + b == a;
    } else if |a| == 1 {
      assert (a + b)[0] == a[0] && (a + b)[1..] == b;
    } else {
      assert (a + b)[0] == a[0] && (a + b)[1..] == a[1..] + b;
      JoinAppend(sep, a[1..], b);
      assert Join(sep, a + b) == a[0] + sep + (Join(sep, a[1..]) + sep + Join(sep, b));
    }
  }

  /** A string occurs in any concatenation it is a middle piece of. */
  lemma OccursInConcat(a: string, b: string, c: string)
    ensures OccursAt(a + b + c, b, |a|)
  {
    assert (a + b + c)[|a|..|a| + |b|] == b;
  }

  /** `includes` is transitive. */
  lemma ContainsWithin(s: string, t: string, u: string)
    requires Contains(s, t) && Contains(t, u)
    ensures Contains(s, u)
  {
    var i :| 0 <= i <= |s| - |t| && OccursAt(s, t, i);
    var j :| 0 <= j <= |t| - |u| && OccursAt(t, u, j);
    forall k | 0 <= k < |u| ensures s[i + j + k] == u[k] {
      assert s[i + j + k] == s[i..i + |t|][j + k] == t[j + k];
      assert t[j + k] == t[j..j + |u|][k];
    }
    assert s[i + j..i + j + |u|] == u;
    assert OccursAt(s, u, i + j);
  }

  /** Every part of a join occurs in the joined string. */
  lemma {:induction false} JoinContainsPart(sep: string, parts: seq<string>, k: nat)
    requires k < |parts|
    ensures Contains(Join(sep, parts), parts[k])
  {
    if |parts| == 1 {
      OccursInConcat("", parts[0], "");
      assert "" + parts[0] + "" == parts[0];
    } else if k == 0 {
      OccursInConcat("", parts[0], sep + Join(sep, parts[1..]));
      assert "" + parts[0] + (sep + Join(sep, parts[1..])) == Join(sep, parts);
    } else {
      var rest := Join(sep, parts[1..]);
      JoinContainsPart(sep, parts[1..], k - 1);
      OccursInConcat(parts[0] + sep, rest, "");
      assert parts[0] + sep + rest + "" == Join(sep, parts);
      ContainsWithin(Join(sep, parts), rest, parts[k]);
    }
  }

  /** Every part of a join occurs in the joined string. */
  lemma JoinContainsEveryPart(sep: string, parts: seq<string>)
    ensures forall k | 0 <= k < |parts| :: Contains(Join(sep, parts), parts[k])
  {
    forall k | 0 <= k < |parts| ensures Contains(Join(sep, parts), parts[k]) {
      JoinContainsPart(sep, parts, k);
    }
  }

  predicate IsDigit(c: char) {
    '0' <= c <= '9'
  }

  function DigitChar(d: nat): (c: char)
    requires d < 10
    ensures IsDigit(c) && c as int - '0' as int == d
  {
    ('0' as int + d) as char
  }

  /** The decimal text of `n`, as a template literal renders a number. */
  function NatToString(n: nat): (r: string)
    ensures |r| > 0
    ensures forall i | 0 <= i < |r| :: IsDigit(r[i])
    // no leading zero: only 0 itself renders starting with '0'
    ensures r[0] == '0' ==> n == 0
  {
    if n < 10 then [DigitChar(n)] else NatToString(n / 10) + [DigitChar(n % 10)]
  }

  /** The number a string of decimal digits denotes. */
  function DigitsValue(s: string): nat
    requires forall i | 0 <= i < |s| :: IsDigit(s[i])
  {
    if |s| == 0 then 0
    else
      assert IsDigit(s[|s| - 1]);
      10 * DigitsValue(s[..|s| - 1]) + (s[|s| - 1] as int - '0' as int)
  }

  /** Reading the rendered digits back gives the number: rendering is
      injective, so distinct page numbers give distinct markers. */
  lemma {:induction false} NatToStringValue(n: nat)
    ensures DigitsValue(NatToString(n)) == n
  {
    var r := NatToString(n);
    if n >= 10 {
      NatToStringValue(n / 10);
      assert r[..|r| - 1] == NatToString(n / 10);
    }
  }
}
