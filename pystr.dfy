/**
 * The few behaviours of Python's `str` and `int` that the application relies on:
 * `strip()`, `replace()`, `"sep".join(...)`, `split(sep)`, `str(n)` for a
 * non-negative integer, `int(s)` and the code-point order of `<=` on strings.
 */
module PyStr {
  import opened Wrappers

  /** Python's `str.isspace()` for one character. */
  predicate IsSpace(c: char)
  {
    var n := c as int;
    n == 32 || 9 <= n <= 13 || 28 <= n <= 31 || n == 0x85 || n == 0xA0 || n == 0x1680
    || 0x2000 <= n <= 0x200A || n == 0x2028 || n == 0x2029 || n == 0x202F || n == 0x205F
    || n == 0x3000
  }

  predicate IsDigit(c: char)
  {
    '0' <= c <= '9'
  }

  /** `s.lstrip()`: the suffix of `s` left after dropping leading whitespace. */
  function LStrip(s: string): (r: string)
    ensures |r| <= |s| && r == s[|s| - |r|..]
    ensures forall i :: 0 <= i < |s| - |r| ==> IsSpace(s[i])
    ensures r == [] || !IsSpace(r[0])
  {
    if s != [] && IsSpace(s[0]) then LStrip(s[1..]) else s
  }

  /** `s.rstrip()`: the prefix of `s` left after dropping trailing whitespace. */
  function RStrip(s: string): (r: string)
    ensures |r| <= |s| && r == s[..|r|]
    ensures forall i :: |r| <= i < |s| ==> IsSpace(s[i])
    ensures r == [] || !IsSpace(r[|r| - 1])
  {
    if s != [] && IsSpace(s[|s| - 1]) then RStrip(s[..|s| - 1]) else s
  }

  /** `s.strip()`. */
  function Strip(s: string): string
  {
    RStrip(LStrip(s))
  }

  /** A string without leading or trailing whitespace is its own strip. */
  lemma StripNoEdges(s: string)
    requires s == [] || (!IsSpace(s[0]) && !IsSpace(s[|s| - 1]))
    ensures Strip(s) == s
  {
  }

  /** Stripping twice is stripping once. */
  lemma StripIdempotent(s: string)
    ensures Strip(Strip(s)) == Strip(s)
  {
    var t := Strip(s);
    var l := LStrip(s);
    if t != [] {
      assert t == l[..|t|];
      assert t[0] == l[0];
    }
    StripNoEdges(t);
  }

  /** `sub` occurs somewhere in `s`. */
  predicate Contains(s: string, sub: string)
    decreases |s|
  {
    |sub| <= |s| && (s[..|sub|] == sub || (s != [] && Contains(s[1..], sub)))
  }

  /**
   * `s.replace(pat, rep)`: every occurrence of `pat`, scanning left to right
   * without overlaps, is replaced by `rep`.
   */
  function Replace(s: string, pat: string, rep: string): string
    requires |pat| > 0
    decreases |s|
  {
    if |s| < |pat| then s
    else if s[..|pat|] == pat then rep + Replace(s[|pat|..], pat, rep)
    else [s[0]] + Replace(s[1..], pat, rep)
  }

  /** A string without an occurrence of the pattern is left alone. */
  lemma {:induction false} ReplaceAbsent(s: string, pat: string, rep: string)
    requires |pat| > 0
    requires !Contains(s, pat)
    ensures Replace(s, pat, rep) == s
    decreases |s|
  {
    if |s| >= |pat| {
      assert s[..|pat|] != pat;
      ReplaceAbsent(s[1..], pat, rep);
      assert s == [s[0]] + s[1..];
    }
  }

  /** Removing a pattern never lengthens a string. */
  lemma {:induction false} ReplaceByEmptyShrinks(s: string, pat: string)
    requires |pat| > 0
    ensures |Replace(s, pat, "")| <= |s|
    decreases |s|
  {
    if |s| >= |pat| {
      if s[..|pat|] == pat {
        ReplaceByEmptyShrinks(s[|pat|..], pat);
      } else {
        ReplaceByEmptyShrinks(s[1..], pat);
      }
    }
  }

  /** `sep.join(parts)`. */
  function Join(sep: string, parts: seq<string>): string
  {
    if parts == [] then ""
    else if |parts| == 1 then parts[0]
    else parts[0] + sep + Join(sep, parts[1..])
  }

  /** The index of the first `c` in `s`. */
  function IndexOf(s: string, c: char): (i: nat)
    requires c in s
    ensures i < |s| && s[i] == c && c !in s[..i]
  {
    if s[0] == c then 0 else 1 + IndexOf(s[1..], c)
  }

  /** `s.split(sep)` for a one-character separator. */
  function Split(s: string, sep: char): (r: seq<string>)
    ensures |r| >= 1
    decreases |s|
  {
    if sep !in s then [s]
    else
      var i := IndexOf(s, sep);
      [s[..i]] + Split(s[i + 1..], sep)
  }

  /** Splitting a join of separator-free parts gives the parts back. */
  lemma {:induction false} SplitJoin(parts: seq<string>, sep: char)
    requires |parts| >= 1
    requires forall k :: 0 <= k < |parts| ==> sep !in parts[k]
    ensures Split(Join([sep], parts), sep) == parts
  {
    if |parts| > 1 {
      var s := Join([sep], parts);
      var rest := Join([sep], parts[1..]);
      assert s == parts[0] + [sep] + rest;
      assert s[..|parts[0]|] == parts[0];
      assert s[|parts[0]|] == sep;
      assert sep in s;
      assert IndexOf(s, sep) == |parts[0]|;
      assert s[|parts[0]| + 1..] == rest;
      SplitJoin(parts[1..], sep);
    }
  }

  function DigitChar(d: nat): char
    requires d < 10
  {
    ('0' as int + d) as char
  }

  /** `str(n)` for a non-negative integer: its decimal digits, no leading zero. */
  function NatToStr(n: nat): (r: string)
    ensures |r| >= 1
    ensures forall i :: 0 <= i < |r| ==> IsDigit(r[i])
    ensures n >= 10 ==> |r| >= 2 && r[0] != '0'
    ensures n < 10 <==> |r| == 1
  {
    if n < 10 then [DigitChar(n)] else NatToStr(n / 10) + [DigitChar(n % 10)]
  }

  /** Distinct numbers have distinct decimal representations. */
  lemma {:induction false} NatToStrInjective(a: nat, b: nat)
    requires NatToStr(a) == NatToStr(b)
    ensures a == b
  {
    if a >= 10 && b >= 10 {
      var sa, sb := NatToStr(a), NatToStr(b);
      assert sa[|sa| - 1] == DigitChar(a % 10) && sb[|sb| - 1] == DigitChar(b % 10);
      assert sa[..|sa| - 1] == NatToStr(a / 10);
      assert sb[..|sb| - 1] == NatToStr(b / 10);
      NatToStrInjective(a / 10, b / 10);
    }
  }

  /** The numeric value of a string of digits and underscores, underscores ignored. */
  function DigitsValue(d: string): nat
    requires forall i :: 0 <= i < |d| ==> IsDigit(d[i]) || d[i] == '_'
  {
    if d == [] then 0
    else
      var last := d[|d| - 1];
      assert IsDigit(last) || last == '_';
      if last == '_' then DigitsValue(d[..|d| - 1])
      else 10 * DigitsValue(d[..|d| - 1]) + DigitValue(last)
  }

  function DigitValue(c: char): nat
    requires IsDigit(c)
  {
    c as int - '0' as int
  }

  /**
   * The digit groups `int()` accepts: ASCII digits, with single underscores
   * allowed between two digits.
   */
  predicate IsDigitGroup(d: string)
  {
    && |d| > 0 && IsDigit(d[0]) && IsDigit(d[|d| - 1])
    && (forall i :: 0 <= i < |d| ==> IsDigit(d[i]) || d[i] == '_')
    && NoDoubleUnderscore(d)
  }

  predicate NoDoubleUnderscore(d: string)
  {
    |d| < 2 || (!(d[0] == '_' && d[1] == '_') && NoDoubleUnderscore(d[1..]))
  }

  /** A string of digits alone is a digit group when it is not empty. */
  lemma {:induction false} DigitsAreGroup(d: string)
    requires forall i :: 0 <= i < |d| ==> IsDigit(d[i])
    ensures NoDoubleUnderscore(d)
    ensures |d| > 0 ==> IsDigitGroup(d)
  {
    if |d| >= 2 {
      DigitsAreGroup(d[1..]);
    }
  }

  /** `int(s)`: `None` stands for the `ValueError` Python raises. */
  function ParseInt(s: string): Option<int>
  {
    ParseStripped(Strip(s))
  }

  /** `int` on a string without surrounding whitespace: an optional sign and a digit group. */
  function ParseStripped(t: string): Option<int>
  {
    if t == [] then None
    else if t[0] == '-' || t[0] == '+' then
      var d := t[1..];
      if IsDigitGroup(d) then
        var v: int := DigitsValue(d);
        Some(if t[0] == '-' then -v else v)
      else None
    else if IsDigitGroup(t) then Some(DigitsValue(t))
    else None
  }

  lemma {:induction false} DigitsValueOfNatToStr(n: nat)
    ensures DigitsValue(NatToStr(n)) == n
  {
    var s := NatToStr(n);
    if n >= 10 {
      assert s[..|s| - 1] == NatToStr(n / 10);
      DigitsValueOfNatToStr(n / 10);
    }
  }

  /** A decimal representation is a digit group and its own strip. */
  lemma {:induction false} NatToStrIsGroup(n: nat)
    ensures IsDigitGroup(NatToStr(n)) && Strip(NatToStr(n)) == NatToStr(n)
  {
    var s := NatToStr(n);
    DigitsAreGroup(s);
    StripNoEdges(s);
  }

  /** `int(str(n)) == n`. */
  lemma {:induction false} ParseIntOfNatToStr(n: nat)
    ensures ParseInt(NatToStr(n)) == Some(n)
  {
    NatToStrIsGroup(n);
    DigitsValueOfNatToStr(n);
  }

  /** `int(str(-n)) == -n`. */
  lemma {:induction false} ParseIntOfNegative(n: nat)
    ensures ParseInt("-" + NatToStr(n)) == Some(-(n as int))
  {
    var d := NatToStr(n);
    NatToStrIsGroup(n);
    DigitsValueOfNatToStr(n);
    NegativeValue(d, n);
  }

  lemma MinusNoEdges(d: string)
    requires IsDigitGroup(d)
    ensures Strip("-" + d) == "-" + d
  {
    var s := "-" + d;
    assert s[0] == '-' && s[|s| - 1] == d[|d| - 1];
    StripNoEdges(s);
  }

  lemma NegativeValue(d: string, n: nat)
    requires IsDigitGroup(d) && DigitsValue(d) == n
    ensures ParseInt("-" + d) == Some(-(n as int))
  {
    MinusNoEdges(d);
    NegativeStripped(d);
  }

  lemma NegativeStripped(d: string)
    requires IsDigitGroup(d)
    ensures ParseStripped("-" + d) == Some(-(DigitsValue(d) as int))
  {
    var t := "-" + d;
    assert t[0] == '-' && t[1..] == d;
  }

  /** Python's `a <= b` on strings: code-point lexicographic order. */
  predicate StrLe(a: string, b: string)
  {
    if a == [] then true
    else if b == [] then false
    else if a[0] != b[0] then a[0] < b[0]
    else StrLe(a[1..], b[1..])
  }

  lemma {:induction false} StrLeTotal(a: string, b: string)
    ensures StrLe(a, b) || StrLe(b, a)
  {
    if a != [] && b != [] && a[0] == b[0] {
      StrLeTotal(a[1..], b[1..]);
    }
  }

  lemma {:induction false} StrLeTransitive(a: string, b: string, c: string)
    requires StrLe(a, b) && StrLe(b, c)
    ensures StrLe(a, c)
  {
    if a != [] && b != [] && c != [] && a[0] == b[0] && b[0] == c[0] {
      StrLeTransitive(a[1..], b[1..], c[1..]);
    }
  }

  lemma {:induction false} StrLeAntisymmetric(a: string, b: string)
    requires StrLe(a, b) && StrLe(b, a)
    ensures a == b
  {
    if a != [] && b != [] {
      StrLeAntisymmetric(a[1..], b[1..]);
      assert a == [a[0]] + a[1..] && b == [b[0]] + b[1..];
    }
  }
}
