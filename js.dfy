/**
 * The few JavaScript value semantics the scoring code relies on:
 * integer-or-NaN numbers, `Math.round` of a ratio, the truncating `%`,
 * `String(n)`, `padStart(2, "0")`, `trim()`, `toLowerCase()` and `split`.
 */
module Js {

  datatype Option<+T> = None | Some(value: T)

  /**
   * A JS number that is a non-negative integer or NaN: every count, score and
   * percentage of the model is one of these.
   */
  datatype Num = Val(v: nat) | NaN {

    /** `+` on numbers: NaN is absorbing. */
    function Plus(other: Num): (r: Num)
      ensures r.NaN? <==> this.NaN? || other.NaN?
      ensures r.Val? ==> r.v == this.v + other.v
    {
      if this.NaN? || other.NaN? then NaN else Val(v + other.v)
    }

    /** `this < bound`: every comparison with NaN is false. */
    predicate Below(bound: int) {
      Val? && v < bound
    }

    /** `this > bound`. */
    predicate Above(bound: int) {
      Val? && v > bound
    }
  }

  /** `Math.round(a / b * scale)` for non-negative integers, computed exactly. */
  function RoundRatio(a: nat, b: nat, scale: nat): (r: nat)
    requires b > 0
    // r is a/b*scale rounded half up: r - 1/2 <= a*scale/b < r + 1/2
    ensures 2 * b * r <= 2 * a * scale + b < 2 * b * r + 2 * b
    ensures a <= b ==> r <= scale
    ensures a == b ==> r == scale
    ensures a == 0 ==> r == 0
  {
    RoundRatioFacts(a, b, scale);
    (2 * a * scale + b) / (2 * b)
  }

  lemma RoundRatioFacts(a: nat, b: nat, scale: nat)
    requires b > 0
    ensures var r := (2 * a * scale + b) / (2 * b);
      && 2 * b * r <= 2 * a * scale + b < 2 * b * r + 2 * b
      && (a <= b ==> r <= scale)
      && (a == b ==> r == scale)
      && (a == 0 ==> r == 0)
  {
    var n := 2 * a * scale + b;
    var d := 2 * b;
    DivBounds(n, d);
    if a <= b {
      assert n <= d * scale + b by { MulMono(a, b, 2 * scale); }
      DivBelow(n, d, scale + 1);
    }
    if a == b {
      DivExact(n, d, scale, b);
    }
    if a == 0 {
      DivExact(n, d, 0, b);
    }
  }

  lemma DivBounds(n: nat, d: nat)
    requires d > 0
    ensures d * (n / d) <= n < d * (n / d) + d
  {
  }

  lemma MulMono(a: nat, b: nat, c: nat)
    requires a <= b
    ensures a * c <= b * c
  {
  }

  lemma DivBelow(n: nat, d: nat, k: nat)
    requires d > 0 && n < d * k
    ensures n / d < k
  {
    DivBounds(n, d);
    if n / d >= k {
      MulMono(k, n / d, d);
    }
  }

  lemma DivExact(n: nat, d: nat, q: nat, rest: nat)
    requires d > 0 && rest < d && n == d * q + rest
    ensures n / d == q
  {
    DivBounds(n, d);
    if n / d < q {
      MulMono(n / d + 1, q, d);
    } else if n / d > q {
      MulMono(q + 1, n / d, d);
    }
  }

  /** The rounded ratio never decreases as the numerator grows. */
  lemma RoundRatioMono(a1: nat, a2: nat, b: nat, scale: nat)
    requires b > 0 && a1 <= a2
    ensures RoundRatio(a1, b, scale) <= RoundRatio(a2, b, scale)
  {
    MulMono(a1, a2, 2 * scale);
    DivMono(2 * a1 * scale + b, 2 * a2 * scale + b, 2 * b);
  }

  lemma DivMono(n1: nat, n2: nat, d: nat)
    requires d > 0 && n1 <= n2
    ensures n1 / d <= n2 / d
  {
    var q1, q2 := n1 / d, n2 / d;
    DivBounds(n1, d);
    DivBounds(n2, d);
    if q1 > q2 {
      MulMono(q2 + 1, q1, d);
    }
  }

  /** JS `a % b` for a positive divisor: the sign follows the dividend. */
  function TruncRem(a: int, b: int): (r: int)
    requires b > 0
    ensures -b < r < b
    ensures a >= 0 ==> r == a % b
    ensures a < 0 ==> r <= 0
  {
    if a >= 0 then a % b else -((-a) % b)
  }

  // ---------------------------------------------------------------- strings

  /** The characters JS `trim()` removes and `\s` matches (WhiteSpace and LineTerminator). */
  predicate IsSpace(c: char) {
    c == '\t' || c == '\n' || c == '\U{000B}' || c == '\U{000C}' || c == '\r' || c == ' '
    || c == '\U{00A0}' || c == '\U{1680}' || ('\U{2000}' <= c <= '\U{200A}')
    || c == '\U{2028}' || c == '\U{2029}' || c == '\U{202F}' || c == '\U{205F}'
    || c == '\U{3000}' || c == '\U{FEFF}'
  }

  /** The characters that JS `.` does not match. */
  predicate IsLineTerminator(c: char) {
    c == '\n' || c == '\r' || c == '\U{2028}' || c == '\U{2029}'
  }

  predicate AllSpace(s: string) {
    forall i :: 0 <= i < |s| ==> IsSpace(s[i])
  }

  /** `trimStart()`: drops the leading whitespace. */
  function TrimStart(s: string): (r: string)
    ensures |r| <= |s|
  {
    if s == [] || !IsSpace(s[0]) then s else TrimStart(s[1..])
  }

  /** `trimEnd()`: drops the trailing whitespace. */
  function TrimEnd(s: string): (r: string)
    ensures |r| <= |s|
  {
    if s == [] || !IsSpace(s[|s| - 1]) then s else TrimEnd(s[..|s| - 1])
  }

  /** How much leading whitespace `trim()` cuts. */
  function TrimOffset(s: string): nat {
    |s| - |TrimStart(s)|
  }

  /** TrimStart cuts whitespace only, and stops at the first character that is not whitespace. */
  lemma {:induction false} TrimStartFacts(s: string)
    ensures TrimStart(s) == s[TrimOffset(s)..]
    ensures AllSpace(s[..TrimOffset(s)])
    ensures TrimStart(s) == [] || !IsSpace(TrimStart(s)[0])
    decreases |s|
  {
    if s != [] && IsSpace(s[0]) {
      var rest := s[1..];
      TrimStartFacts(rest);
      assert TrimOffset(s) == TrimOffset(rest) + 1;
      assert rest[TrimOffset(rest)..] == s[TrimOffset(s)..];
      assert s[..TrimOffset(s)] == [s[0]] + rest[..TrimOffset(rest)];
    }
  }

  /** TrimEnd keeps a prefix, cuts whitespace only, and stops at the last character that is not whitespace. */
  lemma {:induction false} TrimEndFacts(s: string)
    ensures TrimEnd(s) == s[..|TrimEnd(s)|]
    ensures AllSpace(s[|TrimEnd(s)|..])
    ensures TrimEnd(s) == [] || !IsSpace(TrimEnd(s)[|TrimEnd(s)| - 1])
    decreases |s|
  {
    if s != [] && IsSpace(s[|s| - 1]) {
      var init := s[..|s| - 1];
      TrimEndFacts(init);
      var n := |TrimEnd(s)|;
      assert TrimEnd(s) == TrimEnd(init);
      assert init[..n] == s[..n];
      assert s[n..] == init[n..] + [s[|s| - 1]];
    }
  }

  /**
   * `s.trim()`: what is left after removing leading and trailing whitespace
   * (TrimEnds: no whitespace at either end; TrimIsSlice: it is the contiguous
   * part of s between the two whitespace runs).
   */
  function Trim(s: string): string {
    TrimEnd(TrimStart(s))
  }

  /** The trimmed text neither starts nor ends with whitespace, and is empty exactly when s is all whitespace. */
  lemma TrimEnds(s: string)
    ensures Trim(s) == [] || (!IsSpace(Trim(s)[0]) && !IsSpace(Trim(s)[|Trim(s)| - 1]))
    ensures Trim(s) == [] <==> AllSpace(s)
  {
    var t := TrimStart(s);
    var r := TrimEnd(t);
    TrimStartFacts(s);
    TrimEndFacts(t);
    if r != [] {
      assert r[0] == t[0];
    }
    TrimEmpty(s, t, r, TrimOffset(s));
  }

  /** The trimmed text is the slice of s after its leading whitespace, and only whitespace follows it. */
  lemma TrimIsSlice(s: string)
    ensures TrimOffset(s) + |Trim(s)| <= |s|
    ensures Trim(s) == s[TrimOffset(s)..TrimOffset(s) + |Trim(s)|]
    ensures AllSpace(s[..TrimOffset(s)])
    ensures AllSpace(s[TrimOffset(s) + |Trim(s)|..])
  {
    var t := TrimStart(s);
    TrimStartFacts(s);
    TrimEndFacts(t);
    TrimSlice(s, t, Trim(s), TrimOffset(s));
  }

  /**
   * A suffix t = s[i..] and a prefix r of t with only whitespace after it in t:
   * r is the slice of s at i, and only whitespace follows it in s.
   */
  lemma TrimSlice(s: string, t: string, r: string, i: nat)
    requires i <= |s| && t == s[i..]
    requires |r| <= |t| && r == t[..|r|] && AllSpace(t[|r|..])
    ensures i + |r| <= |s| && r == s[i..i + |r|] && AllSpace(s[i + |r|..])
  {
    assert t[|r|..] == s[i + |r|..];
  }

  /** Whitespace, then t, of which r keeps a prefix followed by whitespace: r is empty exactly when s is all whitespace. */
  lemma TrimEmpty(s: string, t: string, r: string, i: nat)
    requires i <= |s| && t == s[i..] && AllSpace(s[..i]) && (t == [] || !IsSpace(t[0]))
    requires |r| <= |t| && r == t[..|r|] && AllSpace(t[|r|..])
    ensures r == [] <==> AllSpace(s)
  {
    if r == [] {
      assert t == [];
      assert s == s[..i];
    } else {
      assert s[i] == t[0] && !IsSpace(t[0]);
    }
  }

  /**
   * The part of `toLowerCase()` for the Basic Latin and Latin-1 capitals:
   * A-Z and U+00C0-U+00DE except the multiplication sign U+00D7 each move
   * 32 code points down to their small letter. Other characters are kept.
   */
  function LowerChar(c: char): char {
    if 'A' <= c <= 'Z' || ('\U{00C0}' <= c <= '\U{00DE}' && c != '\U{00D7}') then (c as int + 32) as char else c
  }

  function ToLower(s: string): string {
    if s == [] then [] else [LowerChar(s[0])] + ToLower(s[1..])
  }

  /** Lower-casing keeps the length and maps each character on its own. */
  lemma {:induction false} ToLowerFacts(s: string)
    ensures |ToLower(s)| == |s|
    ensures forall i :: 0 <= i < |s| ==> ToLower(s)[i] == LowerChar(s[i])
  {
    if s != [] {
      ToLowerFacts(s[1..]);
      forall i | 0 < i < |s|
        ensures ToLower(s)[i] == LowerChar(s[i])
      {
        assert ToLower(s)[i] == ToLower(s[1..])[i - 1];
      }
    }
  }

  function UpperChar(c: char): char {
    if 'a' <= c <= 'z' then (c as int - 32) as char else c
  }

  predicate IsDigit(c: char) {
    '0' <= c <= '9'
  }

  predicate AllDigits(s: string) {
    forall i :: 0 <= i < |s| ==> IsDigit(s[i])
  }

  function DigitChar(d: nat): (c: char)
    requires d < 10
    ensures IsDigit(c)
  {
    ('0' as int + d) as char
  }

  /** `String(n)` for a non-negative integer. */
  function NatToString(n: nat): (s: string)
    ensures |s| >= 1 && AllDigits(s)
    ensures n < 10 <==> |s| == 1
    decreases n
  {
    if n < 10 then [DigitChar(n)] else NatToString(n / 10) + [DigitChar(n % 10)]
  }

  /** `String(n)` for any integer. */
  function IntToString(n: int): (s: string)
    ensures |s| >= 1
    ensures n >= 0 ==> AllDigits(s)
    ensures n < 0 ==> s[0] == '-'
  {
    if n < 0 then "-" + NatToString(-n) else NatToString(n)
  }

  /** Decimal value of a digit string; the reference reading of `String(n)`. */
  function ParseDigits(s: string): nat
    requires AllDigits(s)
  {
    if s == [] then 0
    else ParseDigits(s[..|s| - 1]) * 10 + (s[|s| - 1] as int - '0' as int)
  }

  lemma {:induction false} ParseNatToString(n: nat)
    ensures ParseDigits(NatToString(n)) == n
    decreases n
  {
    if n >= 10 {
      var s := NatToString(n);
      assert s[..|s| - 1] == NatToString(n / 10);
      ParseNatToString(n / 10);
    }
  }

  lemma {:induction false} ParseLeadingZero(s: string)
    requires AllDigits(s)
    ensures ParseDigits("0" + s) == ParseDigits(s)
    decreases |s|
  {
    if s != [] {
      var t := "0" + s;
      assert t[..|t| - 1] == "0" + s[..|s| - 1];
      ParseLeadingZero(s[..|s| - 1]);
    }
  }

  /** `s.padStart(2, "0")`. */
  function PadStart2(s: string): (r: string)
    ensures |r| == if |s| >= 2 then |s| else 2
    ensures r[|r| - |s|..] == s
    ensures forall i :: 0 <= i < |r| - |s| ==> r[i] == '0'
  {
    if |s| >= 2 then s else if |s| == 1 then "0" + s else "00"
  }

  lemma ParsePadded(n: nat)
    ensures AllDigits(PadStart2(NatToString(n)))
    ensures ParseDigits(PadStart2(NatToString(n))) == n
  {
    var s := NatToString(n);
    ParseNatToString(n);
    if |s| == 1 {
      ParseLeadingZero(s);
    }
  }

  // ----------------------------------------------------------------- split

  /** `s.split(sep)` for a one-character separator. */
  function Split(s: string, sep: char): (parts: seq<string>)
    ensures |parts| >= 1
    ensures forall k :: 0 <= k < |parts| ==> sep !in parts[k]
    decreases |s|
  {
    if s == [] then [""]
    else
      var rest := Split(s[1..], sep);
      if s[0] == sep then [""] + rest
      else [[s[0]] + rest[0]] + rest[1..]
  }

  /** `parts.join(sep)`, the inverse of Split. */
  function Join(parts: seq<string>, sep: char): string
    requires |parts| >= 1
    decreases |parts|
  {
    if |parts| == 1 then parts[0] else parts[0] + [sep] + Join(parts[1..], sep)
  }

  lemma {:induction false} JoinSplit(s: string, sep: char)
    ensures Join(Split(s, sep), sep) == s
    decreases |s|
  {
    if s != [] {
      var rest := Split(s[1..], sep);
      JoinSplit(s[1..], sep);
      if s[0] != sep {
        var parts := [[s[0]] + rest[0]] + rest[1..];
        if |rest| == 1 {
          assert Join(parts, sep) == [s[0]] + rest[0];
        } else {
          assert parts[1..] == rest[1..];
          assert Join(rest, sep) == rest[0] + [sep] + Join(rest[1..], sep);
        }
      }
    }
  }

  lemma {:induction false} SplitNoSep(a: string, sep: char)
    requires sep !in a
    ensures Split(a, sep) == [a]
    decreases |a|
  {
    if a != [] {
      SplitNoSep(a[1..], sep);
      assert [a[0]] + a[1..] == a;
    }
  }

  lemma {:induction false} SplitAtSep(a: string, b: string, sep: char)
    requires sep !in a
    ensures Split(a + [sep] + b, sep) == [a] + Split(b, sep)
    decreases |a|
  {
    if a == [] {
      assert a + [sep] + b == [sep] + b;
    } else {
      var s := a + [sep] + b;
      assert s[0] == a[0] && s[1..] == a[1..] + [sep] + b;
      SplitAtSep(a[1..], b, sep);
      var rest := Split(s[1..], sep);
      assert rest[0] == a[1..] && rest[1..] == Split(b, sep);
      assert [a[0]] + a[1..] == a;
    }
  }
}
