/** The .NET / JavaScript string primitives the add-in relies on, over `seq<char>`. */
module Strings {
  import opened Wrappers

  /** The white-space characters of `Char.IsWhiteSpace`, which `String.Trim` and
      the regular-expression class `\s` use: the ASCII ones, NEL, NO-BREAK SPACE,
      the Unicode space separators, and the line and paragraph separators. */
  predicate IsWhite(c: char) {
    c == ' ' || c == '\t' || c == '\n' || c == '\U{000B}' || c == '\U{000C}' || c == '\r'
    || c == '\U{0085}' || c == '\U{00A0}' || c == '\U{1680}' || '\U{2000}' <= c <= '\U{200A}'
    || c == '\U{2028}' || c == '\U{2029}' || c == '\U{202F}' || c == '\U{205F}' || c == '\U{3000}'
  }

  predicate AllWhite(s: string) {
    forall i :: 0 <= i < |s| ==> IsWhite(s[i])
  }

  /** `string.IsNullOrEmpty`. */
  predicate IsNullOrEmpty(s: Option<string>) {
    s.None? || s.value == ""
  }

  /** `string.IsNullOrWhiteSpace`. */
  predicate IsNullOrWhiteSpace(s: Option<string>) {
    s.None? || AllWhite(s.value)
  }

  /** The number of white-space characters at the start of `s`. */
  function LeadingWhite(s: string): (n: nat)
    ensures n <= |s|
    ensures forall i :: 0 <= i < n ==> IsWhite(s[i])
    ensures n == |s| || !IsWhite(s[n])
    decreases |s|
  {
    if |s| > 0 && IsWhite(s[0]) then 1 + LeadingWhite(s[1..]) else 0
  }

  /** The number of white-space characters at the end of `s`. */
  function TrailingWhite(s: string): (n: nat)
    ensures n <= |s|
    ensures forall i :: |s| - n <= i < |s| ==> IsWhite(s[i])
    ensures n == |s| || !IsWhite(s[|s| - 1 - n])
    decreases |s|
  {
    if |s| > 0 && IsWhite(s[|s| - 1]) then 1 + TrailingWhite(s[..|s| - 1]) else 0
  }

  /** `String.TrimStart()`: drops the leading white space. */
  function TrimStart(s: string): string {
    s[LeadingWhite(s)..]
  }

  /** `String.TrimEnd()`: drops the trailing white space. */
  function TrimEnd(s: string): string {
    s[..|s| - TrailingWhite(s)]
  }

  /** Text with no white space at either end. */
  predicate IsTrimmed(m: string) {
    m == [] || (!IsWhite(m[0]) && !IsWhite(m[|m| - 1]))
  }

  /** `String.Trim()`: the result is a slice of the input with no white space
      at either end. */
  function Trim(s: string): (r: string)
    ensures |r| <= |s| && IsTrimmed(r)
  {
    TrimEnd(TrimStart(s))
  }

  /** The trimmed text is the slice between the leading and the trailing white space. */
  lemma TrimSlice(s: string) returns (i: nat, j: nat)
    ensures i <= j <= |s| && Trim(s) == s[i..j]
  {
    var t := TrimStart(s);
    i := LeadingWhite(s);
    j := i + |t| - TrailingWhite(t);
  }

  /** Text that starts with a non-white character has no leading white space. */
  lemma TrimStartOfTrimmed(s: string)
    requires s == [] || !IsWhite(s[0])
    ensures TrimStart(s) == s
  {
    assert LeadingWhite(s) == 0;
  }

  /** Text that ends with a non-white character has no trailing white space. */
  lemma TrimEndOfTrimmed(s: string)
    requires s == [] || !IsWhite(s[|s| - 1])
    ensures TrimEnd(s) == s
  {
    assert TrailingWhite(s) == 0;
  }

  /** Trimming is idempotent. */
  lemma TrimIdempotent(s: string)
    ensures Trim(Trim(s)) == Trim(s)
  {
    TrimOfTrimmed(Trim(s));
  }

  /** Trimmed text is its own trim. */
  lemma TrimOfTrimmed(r: string)
    requires IsTrimmed(r)
    ensures Trim(r) == r
  {
    TrimStartOfTrimmed(r);
    TrimEndOfTrimmed(r);
  }

  /** White space followed by a non-white start trims to that start. */
  lemma TrimStartExact(w: string, y: string)
    requires AllWhite(w) && (y == [] || !IsWhite(y[0]))
    ensures TrimStart(w + y) == y
  {
    assert (w + y)[|w|..] == y;
  }

  /** A non-white end followed by white space trims to that end. */
  lemma TrimEndExact(y: string, w: string)
    requires AllWhite(w) && (y == [] || !IsWhite(y[|y| - 1]))
    ensures TrimEnd(y + w) == y
  {
    var s := y + w;
    assert s[..|y|] == y;
  }

  /** `s.IndexOf(c)`, with `|s|` standing for "not found". */
  function IndexOfChar(s: string, c: char): (i: nat)
    ensures i <= |s|
    ensures forall k :: 0 <= k < i ==> s[k] != c
    ensures i < |s| ==> s[i] == c
  {
    if s == [] then 0 else if s[0] == c then 0 else 1 + IndexOfChar(s[1..], c)
  }

  /** `s.EndsWith(p)`. */
  predicate EndsWith(s: string, p: string) {
    |p| <= |s| && s[|s| - |p|..] == p
  }

  /** `s.Contains(p)`: `p` occurs somewhere in `s`. */
  predicate Contains(s: string, p: string)
    decreases |s|
  {
    p <= s || (|s| > 0 && Contains(s[1..], p))
  }

  /** A one-character pattern occurs exactly when some character equals it. */
  lemma {:induction false} ContainsChar(s: string, c: char)
    ensures Contains(s, [c]) <==> exists i :: 0 <= i < |s| && s[i] == c
    decreases |s|
  {
    if s != [] {
      ContainsChar(s[1..], c);
      if exists i :: 0 <= i < |s| && s[i] == c {
        var i :| 0 <= i < |s| && s[i] == c;
        if i > 0 {
          assert s[1..][i - 1] == c;
        }
      }
      if Contains(s, [c]) {
        if [c] <= s {
          assert s[0] == c;
        } else {
          var i :| 0 <= i < |s[1..]| && s[1..][i] == c;
          assert s[i + 1] == c;
        }
      }
    }
  }

  /** A string shorter than the pattern cannot contain it. */
  lemma {:induction false} ContainsLength(s: string, p: string)
    requires Contains(s, p)
    ensures |p| <= |s|
    decreases |s|
  {
    if !(p <= s) {
      ContainsLength(s[1..], p);
    }
  }

  /** An occurrence inside a slice is an occurrence in the whole string. */
  lemma {:induction false} ContainsSlice(s: string, i: nat, j: nat, p: string)
    requires i <= j <= |s|
    requires Contains(s[i..j], p)
    ensures Contains(s, p)
    decreases i, |s|
  {
    if i > 0 {
      assert s[1..][i - 1..j - 1] == s[i..j];
      ContainsSlice(s[1..], i - 1, j - 1, p);
    } else if p <= s[i..j] {
      assert p <= s;
    } else {
      assert |s[i..j]| > 0 && Contains(s[i..j][1..], p);
      assert s[i..j][1..] == s[1..][0..j - 1];
      ContainsSlice(s[1..], 0, j - 1, p);
    }
  }

  /** An occurrence in the left part of a concatenation is one in the whole. */
  lemma ContainsLeft(x: string, y: string, p: string)
    requires Contains(x, p)
    ensures Contains(x + y, p)
  {
    assert (x + y)[0..|x|] == x;
    ContainsSlice(x + y, 0, |x|, p);
  }

  /** An occurrence in the right part of a concatenation is one in the whole. */
  lemma ContainsRight(x: string, y: string, p: string)
    requires Contains(y, p)
    ensures Contains(x + y, p)
  {
    assert (x + y)[|x|..|x| + |y|] == y;
    ContainsSlice(x + y, |x|, |x| + |y|, p);
  }

  /** An occurrence of a longer pattern is an occurrence of each of its prefixes. */
  lemma {:induction false} ContainsPrefix(s: string, p: string, q: string)
    requires q <= p && Contains(s, p)
    ensures Contains(s, q)
    decreases |s|
  {
    if !(p <= s) {
      ContainsPrefix(s[1..], p, q);
    }
  }

  /** `s.Replace(pat, rep)` with an ordinal comparison: every occurrence of `pat`,
      found left to right and without overlap, is replaced by `rep`. */
  function ReplaceAll(s: string, pat: string, rep: string): string
    requires |pat| > 0
    decreases |s|
  {
    if |s| < |pat| then s
    else if pat <= s then rep + ReplaceAll(s[|pat|..], pat, rep)
    else [s[0]] + ReplaceAll(s[1..], pat, rep)
  }

  /** A string without the pattern is left as it is. */
  lemma {:induction false} ReplaceAllAbsent(s: string, pat: string, rep: string)
    requires |pat| > 0 && !Contains(s, pat)
    ensures ReplaceAll(s, pat, rep) == s
    decreases |s|
  {
    if |s| >= |pat| {
      ReplaceAllAbsent(s[1..], pat, rep);
    }
  }

  /** A prefix without the pattern's first character passes through unchanged. */
  lemma {:induction false} ReplaceAllSkip(a: string, b: string, pat: string, rep: string)
    requires |pat| > 0
    requires forall i :: 0 <= i < |a| ==> a[i] != pat[0]
    ensures ReplaceAll(a + b, pat, rep) == a + ReplaceAll(b, pat, rep)
    decreases |a|
  {
    if a != [] {
      assert (a + b)[1..] == a[1..] + b;
      assert (a + b)[0] != pat[0];
      ReplaceAllSkip(a[1..], b, pat, rep);
      if |a + b| >= |pat| {
        assert ReplaceAll(a + b, pat, rep) == [a[0]] + ReplaceAll(a[1..] + b, pat, rep);
        assert [a[0]] + a[1..] == a;
      }
    } else {
      assert a + b == b;
    }
  }

  /** Replacing a single character by a single character is a character map. */
  function MapChar(s: string, a: char, b: char): (r: string)
    ensures |r| == |s|
    ensures forall i :: 0 <= i < |s| ==> r[i] == if s[i] == a then b else s[i]
  {
    if s == [] then [] else [if s[0] == a then b else s[0]] + MapChar(s[1..], a, b)
  }

  lemma {:induction false} ReplaceCharIsMap(s: string, a: char, b: char)
    ensures ReplaceAll(s, [a], [b]) == MapChar(s, a, b)
    decreases |s|
  {
    if |s| > 0 {
      ReplaceCharIsMap(s[1..], a, b);
      if [a] <= s {
        assert s[|[a]|..] == s[1..];
      }
    }
  }

  /** Invariant-culture lower-casing of the ASCII letters. */
  function Lower(c: char): char {
    if 'A' <= c <= 'Z' then (c as int + 32) as char else c
  }

  function LowerAll(s: string): (r: string)
    ensures |r| == |s| && forall i :: 0 <= i < |s| ==> r[i] == Lower(s[i])
  {
    if s == [] then [] else [Lower(s[0])] + LowerAll(s[1..])
  }

  /** Case-insensitive comparison of two strings. */
  predicate EqualsIgnoreCase(a: string, b: string) {
    |a| == |b| && forall i :: 0 <= i < |a| ==> Lower(a[i]) == Lower(b[i])
  }

  predicate IsDigit(c: char) { '0' <= c <= '9' }

  predicate AllDigits(s: string) {
    forall i :: 0 <= i < |s| ==> IsDigit(s[i])
  }

  function DigitChar(d: nat): char
    requires d < 10
  {
    ('0' as int + d) as char
  }

  /** The decimal text of a natural number, as `int.ToString()` prints it. */
  function NatToString(n: nat): (r: string)
    ensures |r| > 0 && AllDigits(r)
    decreases n
  {
    if n < 10 then [DigitChar(n)] else NatToString(n / 10) + [DigitChar(n % 10)]
  }

  /** The value of a string of decimal digits. */
  function DigitsValue(s: string): nat
    requires AllDigits(s)
    decreases |s|
  {
    if s == [] then 0
    else DigitsValue(s[..|s| - 1]) * 10 + (s[|s| - 1] as int - '0' as int)
  }

  /** Parsing a non-empty run of digits; anything else is rejected. */
  function ParseNat(s: string): Option<nat> {
    if |s| > 0 && AllDigits(s) then Some(DigitsValue(s)) else None
  }

  /** Printing and parsing a natural number are inverse. */
  lemma {:induction false} NatToStringRoundTrip(n: nat)
    ensures ParseNat(NatToString(n)) == Some(n)
    decreases n
  {
    var s := NatToString(n);
    if n >= 10 {
      NatToStringRoundTrip(n / 10);
      assert s[..|s| - 1] == NatToString(n / 10);
      assert s[|s| - 1] as int - '0' as int == n % 10;
      assert DigitsValue(s) == (n / 10) * 10 + n % 10;
    }
  }

  /** Distinct numbers print differently. */
  lemma NatToStringInjective(a: nat, b: nat)
    requires NatToString(a) == NatToString(b)
    ensures a == b
  {
    NatToStringRoundTrip(a);
    NatToStringRoundTrip(b);
  }

  /** `int.ToString()` for a possibly negative number. */
  function IntToString(i: int): string {
    if i < 0 then "-" + NatToString(-i) else NatToString(i)
  }

  /** `int.Parse` restricted to an optional minus sign followed by digits. */
  function ParseInt(s: string): Option<int> {
    if |s| > 0 && s[0] == '-' then
      match ParseNat(s[1..])
      case Some(n) => Some(0 - n)
      case None => None
    else
      match ParseNat(s)
      case Some(n) => Some(n as int)
      case None => None
  }

  lemma IntToStringRoundTrip(i: int)
    ensures ParseInt(IntToString(i)) == Some(i)
  {
    if i < 0 {
      NatToStringRoundTrip(-i);
      assert IntToString(i)[1..] == NatToString(-i);
    } else {
      NatToStringRoundTrip(i);
      assert NatToString(i)[0] != '-';
    }
  }

  /** Concatenation of a list of strings. */
  function Concat(parts: seq<string>): string {
    if parts == [] then "" else parts[0] + Concat(parts[1..])
  }

  lemma ConcatAppend(parts: seq<string>, last: string)
    ensures Concat(parts + [last]) == Concat(parts) + last
  {
    if parts != [] {
      assert (parts + [last])[1..] == parts[1..] + [last];
      ConcatAppend(parts[1..], last);
    }
  }
}
