/**
 * The few Python string built-ins the program relies on, restricted to ASCII:
 * `str.isspace`, `str.strip`, `str.lower`, `int(digits)`, `str(int)` and `str.rfind`.
 */
module Strings {

  /** `c.isspace()` for an ASCII character. */
  predicate IsSpace(c: char) {
    c == ' ' || c == '\t' || c == '\n' || c == '\r' || c == '\U{000B}' || c == '\U{000C}'
    || ('\U{001C}' <= c <= '\U{001F}')
  }

  /** Whitespace that stays inside one line: what `\s` matches without crossing a line break. */
  predicate IsBlank(c: char) {
    IsSpace(c) && c != '\n'
  }

  predicate IsDigit(c: char) {
    '0' <= c <= '9'
  }

  predicate AllDigits(s: string) {
    forall i :: 0 <= i < |s| ==> IsDigit(s[i])
  }

  predicate AllBlank(s: string) {
    forall i :: 0 <= i < |s| ==> IsBlank(s[i])
  }

  /** Length of the longest prefix of `s` whose characters all satisfy `inClass`. */
  function Span(s: string, inClass: char -> bool): (n: nat)
    ensures n <= |s|
    ensures forall i :: 0 <= i < n ==> inClass(s[i])
    ensures n == |s| || !inClass(s[n])
  {
    if s == [] || !inClass(s[0]) then 0 else 1 + Span(s[1..], inClass)
  }

  /** A run of class characters followed by a non-class character (or nothing) is spanned exactly. */
  lemma SpanOfRun(x: string, y: string, inClass: char -> bool)
    requires forall i :: 0 <= i < |x| ==> inClass(x[i])
    requires y == [] || !inClass(y[0])
    ensures Span(x + y, inClass) == |x|
  {
    SpanOfPrefix(x, y, inClass);
  }

  /** A prefix of class characters adds its length to the span. */
  lemma {:induction false} SpanOfPrefix(x: string, y: string, inClass: char -> bool)
    requires forall i :: 0 <= i < |x| ==> inClass(x[i])
    ensures Span(x + y, inClass) == |x| + Span(y, inClass)
  {
    if x == [] {
      assert x + y == y;
    } else {
      assert (x + y)[0] == x[0];
      assert (x + y)[1..] == x[1..] + y;
      SpanOfPrefix(x[1..], y, inClass);
    }
  }

  /** The run `Span` measures consists of blanks. */
  lemma BlankRun(s: string)
    ensures AllBlank(s[..Span(s, IsBlank)])
  {
    var n := Span(s, IsBlank);
    forall i | 0 <= i < n ensures IsBlank(s[..n][i]) {
      assert s[..n][i] == s[i];
    }
  }

  /** `s.lstrip()`: the suffix left after removing leading whitespace. */
  function StripLeft(s: string): (r: string)
    ensures |r| <= |s| && r == s[|s| - |r|..]
    ensures forall i :: 0 <= i < |s| - |r| ==> IsSpace(s[i])
    ensures r == [] || !IsSpace(r[0])
  {
    s[Span(s, IsSpace)..]
  }

  /** `s.rstrip()`: the prefix left after removing trailing whitespace. */
  function StripRight(s: string): (r: string)
    ensures |r| <= |s| && r == s[..|r|]
    ensures forall i :: |r| <= i < |s| ==> IsSpace(s[i])
    ensures r == [] || !IsSpace(r[|r| - 1])
  {
    if s == [] || !IsSpace(s[|s| - 1]) then s else StripRight(s[..|s| - 1])
  }

  /** `s.strip()`: `s` is the result framed by whitespace on both sides. */
  function Strip(s: string): (r: string)
    ensures |r| <= |s|
    ensures var i := Span(s, IsSpace);
            i + |r| <= |s| && r == s[i..i + |r|] && forall j :: i + |r| <= j < |s| ==> IsSpace(s[j])
    ensures r == [] || (!IsSpace(r[0]) && !IsSpace(r[|r| - 1]))
  {
    StripRight(StripLeft(s))
  }

  /** Stripping ignores whitespace that is added in front. */
  lemma StripSpacePrefix(w: string, s: string)
    requires forall i :: 0 <= i < |w| ==> IsSpace(w[i])
    ensures Strip(w + s) == Strip(s)
  {
    SpanOfPrefix(w, s, IsSpace);
    assert StripLeft(w + s) == StripLeft(s);
  }

  /** ASCII case folding, the only part of `str.lower` that the program's comparisons see. */
  function LowerChar(c: char): (l: char)
  {
    if 'A' <= c <= 'Z' then (c as int + 32) as char else c
  }

  function Lower(s: string): (r: string)
    ensures |r| == |s| && forall i :: 0 <= i < |s| ==> r[i] == LowerChar(s[i])
  {
    seq(|s|, i requires 0 <= i < |s| => LowerChar(s[i]))
  }

  function DigitValue(c: char): nat
    requires IsDigit(c)
  {
    (c as int) - ('0' as int)
  }

  function DigitChar(d: nat): (c: char)
    requires d < 10
    ensures IsDigit(c) && DigitValue(c) == d
  {
    ('0' as int + d) as char
  }

  /** `int(d)` for a string of decimal digits (leading zeros allowed). */
  function DigitsValue(d: string): nat
    requires AllDigits(d)
  {
    if d == [] then 0 else 10 * DigitsValue(d[..|d| - 1]) + DigitValue(d[|d| - 1])
  }

  /** `str(n)` for a natural number: decimal digits without leading zeros that read back as `n`. */
  function NatToString(n: nat): (s: string)
    ensures |s| > 0 && AllDigits(s)
    ensures DigitsValue(s) == n
    ensures s[0] == '0' ==> s == "0"
  {
    if n < 10 then [DigitChar(n)]
    else
      var prefix := NatToString(n / 10);
      var s := prefix + [DigitChar(n % 10)];
      assert s[..|s| - 1] == prefix;
      s
  }

  /** `str(i)` for any integer (a `-` in front of negative numbers). */
  function IntToString(i: int): (s: string)
    ensures i >= 0 ==> s == NatToString(i)
    ensures i < 0 ==> s == "-" + NatToString(-i)
  {
    if i < 0 then "-" + NatToString(-i) else NatToString(i)
  }

  /** Distinct integers are written differently. */
  lemma IntToStringInjective(a: int, b: int)
    requires IntToString(a) == IntToString(b)
    ensures a == b
  {
    if a < 0 && b < 0 {
      assert IntToString(a)[1..] == NatToString(-a);
      assert IntToString(b)[1..] == NatToString(-b);
    }
  }

  /** `s.rfind(c)`: the index of the last occurrence of `c`, or -1. */
  function RFind(s: string, c: char): (r: int)
    ensures -1 <= r < |s|
    ensures r >= 0 ==> s[r] == c
    ensures forall i :: r < i < |s| ==> s[i] != c
  {
    if s == [] then -1 else if s[|s| - 1] == c then |s| - 1 else RFind(s[..|s| - 1], c)
  }

  /** The result of `rfind` is determined by its two defining facts. */
  lemma RFindAt(s: string, c: char, k: nat)
    requires k < |s| && s[k] == c
    requires forall i :: k < i < |s| ==> s[i] != c
    ensures RFind(s, c) == k
  {
  }

  /** A character absent from a text is absent from each of its prefixes. */
  lemma NotInPrefix(c: char, s: string, k: nat)
    requires c !in s && k <= |s|
    ensures c !in s[..k]
  {
    forall i | 0 <= i < k
      ensures s[..k][i] != c
    {
      assert s[..k][i] == s[i];
    }
  }

  /** A character absent from two texts is absent from their concatenation. */
  lemma NotInAppend(c: char, a: string, b: string)
    requires c !in a && c !in b
    ensures c !in a + b
  {
    forall i | 0 <= i < |a + b|
      ensures (a + b)[i] != c
    {
      if i < |a| {
        assert (a + b)[i] == a[i];
      } else {
        assert (a + b)[i] == b[i - |a|];
      }
    }
  }
}
