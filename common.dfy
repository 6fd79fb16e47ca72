/** Option and Result for the source's `None` values and raised exceptions. */
module Wrappers {

  datatype Option<+T> = None | Some(value: T) {
    function GetOr(default: T): T {
      match this
      case Some(v) => v
      case None => default
    }
  }

  datatype Result<+T, +E> = Ok(value: T) | Err(error: E)
}

/**
 * The parts of Python's `str` that the core uses: `strip`, `upper`, `replace`,
 * `in`, `startswith`, `endswith`, `isdigit`, `split(sep, 1)`, `splitlines`,
 * and the decimal rendering of an index inside an f-string.
 */
module Text {
  import opened Wrappers

  /** The characters for which Python's `str.isspace` holds. */
  predicate IsSpace(c: char) {
    || c == ' '
    || ('\t' <= c <= '\r')
    || ('\U{1C}' <= c <= '\U{1F}')
    || c == '\U{85}' || c == '\U{A0}' || c == '\U{1680}'
    || ('\U{2000}' <= c <= '\U{200A}')
    || c == '\U{2028}' || c == '\U{2029}' || c == '\U{202F}' || c == '\U{205F}' || c == '\U{3000}'
  }

  /** `s.lstrip()`: the suffix left after dropping leading white space. */
  function TrimStart(s: string): (r: string)
    ensures |r| <= |s|
    ensures r == [] || !IsSpace(r[0])
  {
    if |s| > 0 && IsSpace(s[0]) then TrimStart(s[1..]) else s
  }

  /** `s.rstrip()`: the prefix left after dropping trailing white space. */
  function TrimEnd(s: string): (r: string)
    ensures |r| <= |s|
    ensures r == [] || !IsSpace(r[|r| - 1])
  {
    if |s| > 0 && IsSpace(s[|s| - 1]) then TrimEnd(s[..|s| - 1]) else s
  }

  /** `lstrip` keeps a suffix and drops only white space. */
  lemma {:induction false} TrimStartSuffix(s: string)
    ensures TrimStart(s) == s[|s| - |TrimStart(s)|..]
    ensures forall i :: 0 <= i < |s| - |TrimStart(s)| ==> IsSpace(s[i])
    decreases |s|
  {
    if |s| > 0 && IsSpace(s[0]) {
      TrimStartSuffix(s[1..]);
      assert s[1..][|s| - 1 - |TrimStart(s)|..] == s[|s| - |TrimStart(s)|..];
    }
  }

  /** `rstrip` keeps a prefix and drops only white space. */
  lemma {:induction false} TrimEndPrefix(s: string)
    ensures TrimEnd(s) == s[..|TrimEnd(s)|]
    ensures forall i :: |TrimEnd(s)| <= i < |s| ==> IsSpace(s[i])
    decreases |s|
  {
    if |s| > 0 && IsSpace(s[|s| - 1]) {
      TrimEndPrefix(s[..|s| - 1]);
      assert s[..|s| - 1][..|TrimEnd(s)|] == s[..|TrimEnd(s)|];
    }
  }

  /** `s.strip()`. */
  function Strip(s: string): (r: string)
    ensures |r| <= |s|
    ensures r == [] || !IsSpace(r[|r| - 1])
  {
    TrimEnd(TrimStart(s))
  }

  /** `strip` keeps a contiguous slice of its argument, starting at `k`, with no white space at either end. */
  lemma StripSlice(s: string) returns (k: nat)
    ensures k + |Strip(s)| <= |s| && Strip(s) == s[k..k + |Strip(s)|]
    ensures Strip(s) == [] || (!IsSpace(Strip(s)[0]) && !IsSpace(Strip(s)[|Strip(s)| - 1]))
  {
    var t := TrimStart(s);
    TrimStartSuffix(s);
    TrimEndPrefix(t);
    k := |s| - |t|;
    assert Strip(s) == t[..|Strip(s)|] == s[k..k + |Strip(s)|];
  }

  /** A string with no white space at either end is its own strip. */
  lemma StripStripped(s: string)
    requires s == [] || (!IsSpace(s[0]) && !IsSpace(s[|s| - 1]))
    ensures Strip(s) == s
  {
  }

  function UpperChar(c: char): (u: char)
    ensures 'a' <= c <= 'z' ==> u as int == c as int - 32
    ensures !('a' <= c <= 'z') ==> u == c
  {
    if 'a' <= c <= 'z' then (c as int - 32) as char else c
  }

  /** `s.upper()`, on the ASCII letters. */
  function Upper(s: string): (r: string)
    ensures |r| == |s|
    ensures forall i :: 0 <= i < |s| ==> r[i] == UpperChar(s[i])
  {
    seq(|s|, i requires 0 <= i < |s| => UpperChar(s[i]))
  }

  lemma UpperIdempotent(s: string)
    ensures Upper(Upper(s)) == Upper(s)
  {
  }

  /** `s.replace(pat, rep)`: every non-overlapping occurrence, left to right. */
  function Replace(s: string, pat: string, rep: string): string
    requires |pat| > 0
    decreases |s|
  {
    if |s| < |pat| then s
    else if s[..|pat|] == pat then rep + Replace(s[|pat|..], pat, rep)
    else [s[0]] + Replace(s[1..], pat, rep)
  }

  /** Replacing one character by another: same length, every `a` becomes `b`, the rest stays. */
  lemma {:induction false} ReplaceChar(s: string, a: char, b: char)
    ensures |Replace(s, [a], [b])| == |s|
    ensures forall i :: 0 <= i < |s| ==> Replace(s, [a], [b])[i] == if s[i] == a then b else s[i]
    decreases |s|
  {
    if |s| > 0 {
      ReplaceChar(s[1..], a, b);
      assert s[..1] == [s[0]];
    }
  }

  /** Deleting one character: the result is `s` with every `a` left out. */
  lemma {:induction false} DeleteChar(s: string, a: char)
    ensures Replace(s, [a], "") == Without(s, a)
    decreases |s|
  {
    if |s| > 0 {
      DeleteChar(s[1..], a);
      assert s[..1] == [s[0]];
    }
  }

  /** `s` with every occurrence of `a` left out. */
  function Without(s: string, a: char): (r: string)
    ensures a !in r
    ensures forall c :: c in r ==> c in s
  {
    if s == [] then [] else (if s[0] == a then [] else [s[0]]) + Without(s[1..], a)
  }

  predicate StartsWith(s: string, p: string) {
    |p| <= |s| && s[..|p|] == p
  }

  predicate EndsWith(s: string, p: string) {
    |p| <= |s| && s[|s| - |p|..] == p
  }

  /** `sub in s`. */
  predicate Contains(s: string, sub: string)
    decreases |s|
  {
    StartsWith(s, sub) || (|s| > 0 && Contains(s[1..], sub))
  }

  /** `s.isdigit()` on ASCII digits: non-empty and every character a digit. */
  predicate IsDigits(s: string) {
    |s| > 0 && forall i :: 0 <= i < |s| ==> '0' <= s[i] <= '9'
  }

  /** A string of digits ends in no suffix that holds a character other than a digit. */
  lemma DigitsEndInDigits(s: string, p: string, k: nat)
    requires IsDigits(s) && k < |p| && !('0' <= p[k] <= '9')
    ensures !EndsWith(s, p)
  {
    if |p| <= |s| {
      assert s[|s| - |p|..][k] == s[|s| - |p| + k];
    }
  }

  /** The position of the first `c` in `s`, if any. */
  function IndexOf(s: string, c: char): (r: Option<nat>)
    ensures r.None? <==> c !in s
    ensures r.Some? ==> r.value < |s| && s[r.value] == c && c !in s[..r.value]
  {
    if s == [] then None
    else if s[0] == c then Some(0)
    else
      match IndexOf(s[1..], c)
      case None => None
      case Some(k) =>
        assert s[..k + 1] == [s[0]] + s[1..][..k];
        Some(k + 1)
  }

  /** `s.split(c, 1)[0]`: the text before the first `c`, or all of `s`. */
  function Before(s: string, c: char): (r: string)
    ensures c !in r
    ensures c !in s ==> r == s
    ensures StartsWith(s, r)
  {
    match IndexOf(s, c)
    case None => s
    case Some(k) => s[..k]
  }

  /** The characters Python's `str.splitlines` ends a line at (`\r\n` counts once). */
  predicate IsLineBreak(c: char) {
    c == '\n' || c == '\r' || c == '\U{B}' || c == '\U{C}' || ('\U{1C}' <= c <= '\U{1E}')
    || c == '\U{85}' || c == '\U{2028}' || c == '\U{2029}'
  }

  /** `s.splitlines()`: no line holds a break, and a final break adds no empty line. */
  function SplitLines(s: string): (r: seq<string>)
    ensures forall i, j :: 0 <= i < |r| && 0 <= j < |r[i]| ==> !IsLineBreak(r[i][j])
    decreases |s|
  {
    if s == [] then []
    else LinesFrom(s, 0, 0)
  }

  /** Scan `s` from `i`; the current line started at `start`. */
  function LinesFrom(s: string, start: nat, i: nat): (r: seq<string>)
    requires start <= i <= |s|
    requires forall j :: start <= j < i ==> !IsLineBreak(s[j])
    ensures forall k, j :: 0 <= k < |r| && 0 <= j < |r[k]| ==> !IsLineBreak(r[k][j])
    decreases |s| - i
  {
    if i == |s| then (if start < i then [s[start..i]] else [])
    else if !IsLineBreak(s[i]) then LinesFrom(s, start, i + 1)
    else
      var next := if s[i] == '\r' && i + 1 < |s| && s[i + 1] == '\n' then i + 2 else i + 1;
      [s[start..i]] + LinesFrom(s, next, next)
  }

  /** Decimal digits of a natural number, as an f-string prints an `int`. */
  function NatToString(n: nat): (r: string)
    ensures |r| > 0 && IsDigits(r)
    decreases n
  {
    var d := ['0' + ((n % 10) as char)];
    if n < 10 then d else NatToString(n / 10) + d
  }

  /** Upper-case letters only among the ASCII letters: `upper()` leaves the string alone. */
  predicate IsUpper(s: string) {
    forall i :: 0 <= i < |s| ==> !('a' <= s[i] <= 'z')
  }

  lemma UpperIsUpper(s: string)
    ensures IsUpper(Upper(s))
  {
  }

  lemma {:induction false} ReplaceKeepsUpper(s: string, pat: string)
    requires |pat| > 0 && IsUpper(s)
    ensures IsUpper(Replace(s, pat, ""))
    decreases |s|
  {
    if |s| >= |pat| {
      if s[..|pat|] == pat {
        ReplaceKeepsUpper(s[|pat|..], pat);
      } else {
        ReplaceKeepsUpper(s[1..], pat);
      }
    }
  }

  lemma StripKeepsUpper(s: string)
    requires IsUpper(s)
    ensures IsUpper(Strip(s))
  {
    var k := StripSlice(s);
  }

  /** A cable size as both analyses read it: stripped, upper-cased, "KCMIL" removed, stripped again. */
  function CleanSize(size: string): string {
    Strip(Replace(Upper(Strip(size)), "KCMIL", ""))
  }

  /** A cleaned size is upper-case and has no surrounding white space. */
  lemma CleanSizeIsClean(size: string)
    ensures IsUpper(CleanSize(size)) && Strip(CleanSize(size)) == CleanSize(size)
  {
    UpperIsUpper(Strip(size));
    ReplaceKeepsUpper(Upper(Strip(size)), "KCMIL");
    StripKeepsUpper(Replace(Upper(Strip(size)), "KCMIL", ""));
    var k := StripSlice(Replace(Upper(Strip(size)), "KCMIL", ""));
    StripStripped(CleanSize(size));
  }
}

/**
 * Numbers: Python floats are modelled as `real`. `math.sqrt(3)` is the double
 * 1.7320508075688772; other square roots are bisected from above to a depth
 * the model leaves open, so every property stated about them holds at any depth.
 */
module Numerics {

  const Sqrt3: real := 1.7320508075688772

  /** `x / math.sqrt(3)`; the numeral is written out so that the solver sees a division by a constant. */
  function OverSqrt3(x: real): real { x / 1.7320508075688772 }
  const Pi: real := 3.141592653589793
  /** How many halvings `Sqrt` makes: deliberately unspecified. */
  const BisectSteps: nat

  function Max(a: real, b: real): real { if a >= b then a else b }
  function Min(a: real, b: real): real { if a <= b then a else b }
  function MaxInt(a: int, b: int): int { if a >= b then a else b }
  function MinInt(a: int, b: int): int { if a <= b then a else b }
  function Abs(a: real): real { if a < 0.0 then -a else a }

  /**
   * A square root from above, by bisection on [0, max(1, x)]: never below the
   * true root, positive for a positive argument, and exact at 0 and 1.
   */
  function Sqrt(x: real): (r: real)
    ensures 0.0 <= r <= Max(1.0, x)
    ensures x <= 0.0 ==> r == 0.0
    ensures 0.0 < x ==> 0.0 < r && x <= r * r
  {
    if x <= 0.0 then 0.0
    else if x <= 1.0 then Bisect(x, 0.0, 1.0, BisectSteps)
    else
      SquareGrows(x);
      Bisect(x, 0.0, x, BisectSteps)
  }

  lemma SquareGrows(x: real)
    requires 1.0 <= x
    ensures x <= x * x
  {
    calc {
      x;
    == x * 1.0;
    <= x * x;
    }
  }

  function Bisect(x: real, lo: real, hi: real, steps: nat): (r: real)
    requires 0.0 <= lo <= hi && 0.0 < hi && x <= hi * hi
    ensures lo <= r <= hi && 0.0 < r && x <= r * r
    decreases steps
  {
    if steps == 0 then hi
    else
      var mid := (lo + hi) / 2.0;
      if x <= mid * mid && 0.0 < mid then Bisect(x, lo, mid, steps - 1) else Bisect(x, mid, hi, steps - 1)
  }

  /** A Python `complex` value. */
  datatype Complex = Complex(re: real, im: real) {
    function Add(o: Complex): Complex { Complex(re + o.re, im + o.im) }
    /** `bool(z)`: a complex number is truthy unless both parts are zero. */
    predicate IsZero() { re == 0.0 && im == 0.0 }
    /** `abs(z)` (`hypot`), which is exact when one part is zero. */
    function Magnitude(): (m: real)
      ensures 0.0 <= m
      ensures im == 0.0 ==> m == Abs(re)
      ensures !IsZero() ==> 0.0 < m
    {
      if im == 0.0 then Abs(re)
      else if re == 0.0 then Abs(im)
      else Sqrt(re * re + im * im)
    }
  }
}
