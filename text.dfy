/** The few JavaScript string primitives the modelled code relies on:
    `trim`, `startsWith`, `indexOf` of one character, `join`, and the
    decimal rendering of a positive integer in a template literal. */
module Text {

  /** ECMAScript WhiteSpace and LineTerminator code points: exactly the
      characters `String.prototype.trim` removes from both ends. */
  const JsSpaces: set<char> := {
    '\t', '\n', '\U{000B}', '\U{000C}', '\r', ' ', '\U{00A0}', '\U{1680}',
    '\U{2000}', '\U{2001}', '\U{2002}', '\U{2003}', '\U{2004}', '\U{2005}', '\U{2006}',
    '\U{2007}', '\U{2008}', '\U{2009}', '\U{200A}', '\U{2028}', '\U{2029}', '\U{202F}',
    '\U{205F}', '\U{3000}', '\U{FEFF}' }

  predicate IsJsSpace(c: char) {
    c in JsSpaces
  }

  /** Every character of `s` is white space (vacuously so for ""). */
  predicate IsBlank(s: string) {
    forall i :: 0 <= i < |s| ==> IsJsSpace(s[i])
  }

  predicate StartsWith(s: string, prefix: string) {
    |prefix| <= |s| && s[..|prefix|] == prefix
  }

  /** `s` with its leading white space removed. */
  function TrimStart(s: string): string {
    if |s| > 0 && IsJsSpace(s[0]) then TrimStart(s[1..]) else s
  }

  /** `s` with its trailing white space removed. */
  function TrimEnd(s: string): string {
    if |s| > 0 && IsJsSpace(s[|s| - 1]) then TrimEnd(s[..|s| - 1]) else s
  }

  /** `s.trim()`. */
  function Trim(s: string): string {
    TrimStart(TrimEnd(s))
  }

  /** `TrimStart` removes a blank prefix and stops at the first other character. */
  lemma {:induction false} TrimStartRemovesBlankPrefix(s: string)
    ensures var r := TrimStart(s);
      |r| <= |s| && r == s[|s| - |r|..] && IsBlank(s[..|s| - |r|])
      && (r == [] || !IsJsSpace(r[0]))
  {
    if |s| > 0 && IsJsSpace(s[0]) {
      TrimStartRemovesBlankPrefix(s[1..]);
      var r := TrimStart(s);
      assert s[1..][|s| - 1 - |r|..] == s[|s| - |r|..];
      forall i | 0 <= i < |s| - |r| ensures IsJsSpace(s[i]) {
        if i > 0 {
          assert s[1..][..|s| - 1 - |r|][i - 1] == s[i];
        }
      }
    }
  }

  /** `TrimEnd` removes a blank suffix and stops at the last other character. */
  lemma {:induction false} TrimEndRemovesBlankSuffix(s: string)
    ensures var r := TrimEnd(s);
      |r| <= |s| && r == s[..|r|] && IsBlank(s[|r|..])
      && (r == [] || !IsJsSpace(r[|r| - 1]))
  {
    if |s| > 0 && IsJsSpace(s[|s| - 1]) {
      var s' := s[..|s| - 1];
      TrimEndRemovesBlankSuffix(s');
      var r := TrimEnd(s);
      assert s'[..|r|] == s[..|r|];
      forall i | |r| <= i < |s| ensures IsJsSpace(s[i]) {
        if i < |s| - 1 {
          assert s'[|r|..][i - |r|] == s[i];
        }
      }
    }
  }

  /** `s.trim() === ""` holds exactly for the blank strings. */
  lemma TrimEmptyIffBlank(s: string)
    ensures Trim(s) == "" <==> IsBlank(s)
  {
    TrimEndRemovesBlankSuffix(s);
    var e := TrimEnd(s);
    TrimStartRemovesBlankPrefix(e);
    if IsBlank(s) {
      assert IsBlank(s[..|e|]);
    } else {
      var k :| 0 <= k < |s| && !IsJsSpace(s[k]);
      forall i | |e| <= i < |s| ensures IsJsSpace(s[i]) {
        assert s[|e|..][i - |e|] == s[i];
      }
      assert e[k] == s[k];
      var t := TrimStart(e);
      forall i | 0 <= i < |e| - |t| ensures IsJsSpace(e[i]) {
        assert e[..|e| - |t|][i] == e[i];
      }
    }
  }

  /** Trimming ignores one more white-space character at the end. */
  lemma TrimIgnoresTrailingSpace(s: string, c: char)
    requires IsJsSpace(c)
    ensures Trim(s + [c]) == Trim(s)
  {
    assert (s + [c])[..|s|] == s;
  }

  /** `s.indexOf(c)`: the first position of `c` in `s`, or -1. */
  function IndexOf(s: string, c: char): (i: int)
    ensures -1 <= i < |s|
    ensures i == -1 <==> c !in s
    ensures i >= 0 ==> s[i] == c && c !in s[..i]
  {
    if |s| == 0 then -1
    else if s[0] == c then 0
    else
      var j := IndexOf(s[1..], c);
      if j == -1 then -1
      else
        assert s[..j + 1] == [s[0]] + s[1..][..j];
        j + 1
  }

  /** Text appended after the first occurrence does not move it. */
  lemma IndexOfAppend(s: string, t: string, c: char)
    requires c in s
    ensures IndexOf(s + t, c) == IndexOf(s, c)
  {
    var i, j := IndexOf(s, c), IndexOf(s + t, c);
    assert (s + t)[i] == c;
    forall m | 0 <= m < i ensures (s + t)[m] != c {
      assert s[..i][m] == s[m];
    }
    forall m | 0 <= m < j ensures (s + t)[m] != c {
      assert (s + t)[..j][m] == (s + t)[m];
    }
  }

  /** A line without `c`, then `c`: the first `c` is the line's terminator. */
  lemma IndexOfTerminated(line: string, c: char, rest: string)
    requires c !in line
    ensures IndexOf(line + [c] + rest, c) == |line|
    ensures (line + [c] + rest)[..|line|] == line && (line + [c] + rest)[|line| + 1..] == rest
  {
    var s := line + [c] + rest;
    var j := IndexOf(s, c);
    assert s[|line|] == c;
    forall m | 0 <= m < |line| ensures s[m] != c {
      assert s[m] == line[m];
    }
    forall m | 0 <= m < j ensures s[m] != c {
      assert s[..j][m] == s[m];
    }
  }

  /** The character of one decimal digit. */
  function DigitChar(d: nat): (c: char)
    requires d < 10
    ensures '0' <= c <= '9' && (c as int) - ('0' as int) == d
  {
    ['0', '1', '2', '3', '4', '5', '6', '7', '8', '9'][d]
  }

  /** The decimal numeral of `n`, as a template literal renders a number. */
  function Decimal(n: nat): (s: string)
    ensures |s| >= 1
    ensures forall i :: 0 <= i < |s| ==> '0' <= s[i] <= '9'
    ensures s[0] == '0' ==> n == 0
  {
    if n < 10 then [DigitChar(n)] else Decimal(n / 10) + [DigitChar(n % 10)]
  }

  /** The value of a string of decimal digits (reference reading of a numeral). */
  function DecimalValue(s: string): nat
    requires forall i :: 0 <= i < |s| ==> '0' <= s[i] <= '9'
  {
    if |s| == 0 then 0
    else DecimalValue(s[..|s| - 1]) * 10 + ((s[|s| - 1] as int) - ('0' as int))
  }

  /** Reading back a rendered number gives the number. */
  lemma {:induction false} DecimalRoundTrip(n: nat)
    ensures DecimalValue(Decimal(n)) == n
  {
    var s := Decimal(n);
    if n >= 10 {
      DecimalRoundTrip(n / 10);
      assert s[..|s| - 1] == Decimal(n / 10);
    }
  }

  /** `parts.join(sep)`. */
  function Join(sep: string, parts: seq<string>): (r: string)
    ensures |parts| > 0 ==> StartsWith(r, parts[0])
    ensures |parts| == 1 ==> r == parts[0]
    ensures |parts| == 0 ==> r == ""
  {
    if |parts| == 0 then ""
    else if |parts| == 1 then parts[0]
    else parts[0] + sep + Join(sep, parts[1..])
  }

  lemma StringAssoc(a: string, b: string, c: string)
    ensures (a + b) + c == a + (b + c)
  {
  }

  /** `s` is a suffix of `t`. */
  predicate IsSuffix(s: string, t: string) {
    |s| <= |t| && t[|t| - |s|..] == s
  }

  /** A suffix of a suffix is a suffix. */
  lemma SuffixOfDrop(s: string, t: string, k: nat)
    requires k <= |t| && IsSuffix(s, t[k..])
    ensures IsSuffix(s, t)
  {
    assert t[k..][|t| - k - |s|..] == t[|t| - |s|..];
  }

  /** A non-empty suffix contains the last character. */
  lemma SuffixHoldsLast(s: string, t: string)
    requires IsSuffix(s, t) && |t| > 0
    ensures s == [] || t[|t| - 1] in s
  {
    if s != [] {
      assert s[|s| - 1] == t[|t| - 1];
    }
  }
}
