/**
 * The parts of JavaScript's string semantics that the application relies on:
 * String.prototype.trim, toUpperCase on ASCII, the decimal rendering of
 * integral Numbers, padStart with '0', and the code-unit order used by the
 * default comparator of Array.prototype.sort.
 */
module JsString {

  /**
   * The WhiteSpace and LineTerminator code points of ECMA-262 (sections 12.2
   * and 12.3): TAB, LF, VT, FF, CR, SPACE, NBSP, ZWNBSP, LS, PS and the other
   * space separators (category Zs).
   */
  predicate IsWhiteSpace(c: char) {
    var n := c as int;
    if n <= 0x20 then n == 0x20 || 0x09 <= n <= 0x0D
    else if n < 0xA0 then false
    else || n == 0xA0 || n == 0x1680 || 0x2000 <= n <= 0x200A || n == 0x2028 || n == 0x2029
         || n == 0x202F || n == 0x205F || n == 0x3000 || n == 0xFEFF
  }

  predicate AllWhiteSpace(s: string) {
    forall i :: 0 <= i < |s| ==> IsWhiteSpace(s[i])
  }
  // ---- trimStart, trimEnd and trim ----

  lemma AllWhiteSpaceCons(c: char, s: string)
    ensures AllWhiteSpace([c] + s) <==> IsWhiteSpace(c) && AllWhiteSpace(s)
  {
    var t := [c] + s;
    assert t[0] == c;
    assert forall i :: 0 <= i < |s| ==> t[i + 1] == s[i];
    assert forall i :: 1 <= i < |t| ==> t[i] == s[i - 1];
  }
  lemma AllWhiteSpaceSnoc(s: string, c: char)
    ensures AllWhiteSpace(s + [c]) <==> AllWhiteSpace(s) && IsWhiteSpace(c)
  {
    var t := s + [c];
    assert t[|s|] == c;
    assert forall i :: 0 <= i < |s| ==> t[i] == s[i];
  }
  lemma AllWhiteSpaceConcat(a: string, b: string)
    requires AllWhiteSpace(a) && AllWhiteSpace(b)
    ensures AllWhiteSpace(a + b)
  {
    assert forall i :: |a| <= i < |a + b| ==> (a + b)[i] == b[i - |a|];
  }

  /** String.prototype.trimStart: s without the white space it starts with. */
  function TrimStart(s: string): (r: string)
    ensures r != [] ==> !IsWhiteSpace(r[0])
  {
    if s != [] && IsWhiteSpace(s[0]) then TrimStart(s[1..]) else s
  }
  /** String.prototype.trimEnd: s without the white space it ends with. */
  function TrimEnd(s: string): (r: string)
    ensures r != [] ==> !IsWhiteSpace(r[|r| - 1])
  {
    if s != [] && IsWhiteSpace(s[|s| - 1]) then TrimEnd(s[..|s| - 1]) else s
  }

  /** s is white space followed by TrimStart(s). */
  lemma {:induction false} TrimStartSplit(s: string) returns (w: string)
    ensures AllWhiteSpace(w) && s == w + TrimStart(s)
  {
    if s != [] && IsWhiteSpace(s[0]) {
      var w' := TrimStartSplit(s[1..]);
      w := [s[0]] + w';
      AllWhiteSpaceCons(s[0], w');
      assert s == [s[0]] + s[1..];
    } else {
      w := [];
    }
  }

  /** s is TrimEnd(s) followed by white space. */
  lemma {:induction false} TrimEndSplit(s: string) returns (w: string)
    ensures AllWhiteSpace(w) && s == TrimEnd(s) + w
  {
    if s != [] && IsWhiteSpace(s[|s| - 1]) {
      var w' := TrimEndSplit(s[..|s| - 1]);
      w := w' + [s[|s| - 1]];
      AllWhiteSpaceSnoc(w', s[|s| - 1]);
      assert s == s[..|s| - 1] + [s[|s| - 1]];
    } else {
      w := [];
    }
  }

  /** String.prototype.trim: white space cut off at both ends. */
  function Trim(s: string): string {
    TrimEnd(TrimStart(s))
  }

  /** s is white space, then Trim(s), then white space. */
  lemma TrimShape(s: string) returns (w1: string, w2: string)
    ensures AllWhiteSpace(w1) && AllWhiteSpace(w2) && s == w1 + Trim(s) + w2
  {
    w1 := TrimStartSplit(s);
    w2 := TrimEndSplit(TrimStart(s));
  }

  /** Trim(s) neither starts nor ends with white space. */
  lemma TrimEnds(s: string)
    ensures Trim(s) != [] ==> !IsWhiteSpace(Trim(s)[0]) && !IsWhiteSpace(Trim(s)[|Trim(s)| - 1])
  {
    var u := TrimStart(s);
    var w := TrimEndSplit(u);
    if Trim(s) != [] {
      assert u[0] == Trim(s)[0];
    }
  }

  /** Trim(s) is empty exactly when s is all white space. */
  lemma TrimEmpty(s: string)
    ensures Trim(s) == [] <==> AllWhiteSpace(s)
  {
    var w1, w2 := TrimShape(s);
    if Trim(s) == [] {
      assert s == w1 + w2;
      AllWhiteSpaceConcat(w1, w2);
    } else {
      TrimEnds(s);
      assert s[|w1|] == Trim(s)[0];
    }
  }

  /** A string already without white space at either end is left as it is. */
  lemma TrimKeeps(s: string)
    requires s != [] ==> !IsWhiteSpace(s[0]) && !IsWhiteSpace(s[|s| - 1])
    ensures Trim(s) == s
  {
    assert TrimStart(s) == s;
  }

  lemma TrimIdempotent(s: string)
    ensures Trim(Trim(s)) == Trim(s)
  {
    TrimEnds(s);
    TrimKeeps(Trim(s));
  }

  /**
   * The characterisation of trim: whenever s is white space, then t, then
   * white space, and t neither starts nor ends with white space, Trim(s) is t.
   * With TrimShape and TrimEnds this determines Trim(s) completely.
   */
  lemma TrimUnique(w1: string, t: string, w2: string)
    requires AllWhiteSpace(w1) && AllWhiteSpace(w2)
    requires t != [] ==> !IsWhiteSpace(t[0]) && !IsWhiteSpace(t[|t| - 1])
    ensures Trim(w1 + t + w2) == t
  {
    TrimPadded(w1, t, w2);
    TrimKeeps(t);
  }

  lemma {:induction false} TrimStartPadded(w: string, s: string)
    requires AllWhiteSpace(w)
    ensures TrimStart(w + s) == TrimStart(s)
  {
    if w != [] {
      assert (w + s)[1..] == w[1..] + s;
      TrimStartPadded(w[1..], s);
    } else {
      assert w + s == s;
    }
  }

  lemma {:induction false} TrimEndPadded(s: string, w: string)
    requires AllWhiteSpace(w)
    ensures TrimEnd(s + w) == TrimEnd(s)
  {
    if w != [] {
      assert (s + w)[..|s + w| - 1] == s + w[..|w| - 1];
      TrimEndPadded(s, w[..|w| - 1]);
    } else {
      assert s + w == s;
    }
  }

  /** TrimStart of s + w, when s has a non-white character, keeps w at the end. */
  lemma {:induction false} TrimStartAppend(s: string, w: string)
    requires !AllWhiteSpace(s)
    ensures TrimStart(s + w) == TrimStart(s) + w
  {
    if IsWhiteSpace(s[0]) {
      assert (s + w)[1..] == s[1..] + w;
      TrimStartAppend(s[1..], w);
    }
  }

  lemma {:induction false} TrimStartAllWhite(s: string)
    requires AllWhiteSpace(s)
    ensures TrimStart(s) == []
  {
    if s != [] { TrimStartAllWhite(s[1..]); }
  }

  /** White space added around a string does not change its trimmed form. */
  lemma TrimPadded(w1: string, s: string, w2: string)
    requires AllWhiteSpace(w1) && AllWhiteSpace(w2)
    ensures Trim(w1 + s + w2) == Trim(s)
  {
    assert w1 + s + w2 == w1 + (s + w2);
    TrimStartPadded(w1, s + w2);
    if AllWhiteSpace(s) {
      assert AllWhiteSpace(s + w2);
      TrimStartAllWhite(s + w2);
      TrimStartAllWhite(s);
    } else {
      TrimStartAppend(s, w2);
      TrimEndPadded(TrimStart(s), w2);
    }
  }
  /** toUpperCase restricted to the ASCII letters. */
  function UpperChar(c: char): char {
    if 'a' <= c <= 'z' then (c as int - 32) as char else c
  }

  function ToUpper(s: string): (r: string)
    ensures |r| == |s| && forall i :: 0 <= i < |s| ==> r[i] == UpperChar(s[i])
  {
    if s == [] then [] else [UpperChar(s[0])] + ToUpper(s[1..])
  }

  // ---- decimal rendering of integral Numbers (Number::toString, radix 10) ----

  predicate IsDigit(c: char) { 48 <= c as int <= 57 }

  function DigitChar(d: nat): (c: char)
    requires d < 10
    ensures IsDigit(c)
  {
    (48 + d) as char
  }

  /** The value of a non-empty string of decimal digits. */
  function DecimalValue(s: string): nat
    requires forall i :: 0 <= i < |s| ==> IsDigit(s[i])
  {
    if s == [] then 0
    else
      assert IsDigit(s[|s| - 1]);
      10 * DecimalValue(s[..|s| - 1]) + (s[|s| - 1] as int - 48)
  }

  /**
   * The shortest decimal rendering of n, without leading zeros. This is
   * String(n) for n below 10^21, from where JavaScript switches to exponent form.
   */
  function NatToString(n: nat): (r: string)
    ensures |r| >= 1 && forall i :: 0 <= i < |r| ==> IsDigit(r[i])
    ensures |r| == 1 <==> n < 10
    ensures r[0] != '0' || n == 0
    ensures DecimalValue(r) == n
  {
    if n < 10 then [DigitChar(n)]
    else
      var p := NatToString(n / 10);
      var r := p + [DigitChar(n % 10)];
      assert r[..|r| - 1] == p;
      r
  }

  lemma NatToStringInjective(a: nat, b: nat)
    requires NatToString(a) == NatToString(b)
    ensures a == b
  {
  }

  /** The decimal rendering of an integral Number, with a leading '-' when negative. */
  function IntToString(n: int): (r: string)
    ensures r != [] && (r[0] == '-' <==> n < 0)
  {
    if n < 0 then "-" + NatToString(-n) else NatToString(n)
  }

  lemma IntToStringInjective(a: int, b: int)
    requires IntToString(a) == IntToString(b)
    ensures a == b
  {
    if a < 0 {
      assert IntToString(a)[1..] == NatToString(-a);
      assert IntToString(b)[1..] == NatToString(-b);
      NatToStringInjective(-a, -b);
    } else {
      NatToStringInjective(a, b);
    }
  }

  /** String(n).padStart(2, '0'). */
  function PadStart2(s: string): (r: string)
    ensures |r| == if |s| >= 2 then |s| else 2
    ensures r[|r| - |s|..] == s
  {
    if |s| >= 2 then s else seq(2 - |s|, _ => '0') + s
  }

  // ---- the order of the default comparator of Array.prototype.sort ----

  /** s comes strictly before t in code-unit order (IsLessThan of ECMA-262 section 7.2.13 on strings). */
  predicate StrLess(s: string, t: string) {
    if s == [] then t != []
    else if t == [] then false
    else if s[0] != t[0] then s[0] < t[0]
    else StrLess(s[1..], t[1..])
  }

  lemma {:induction false} StrLessIrreflexive(s: string)
    ensures !StrLess(s, s)
  {
    if s != [] { StrLessIrreflexive(s[1..]); }
  }

  lemma {:induction false} StrLessTransitive(s: string, t: string, u: string)
    requires StrLess(s, t) && StrLess(t, u)
    ensures StrLess(s, u)
  {
    if s != [] && t != [] && u != [] && s[0] == t[0] == u[0] {
      StrLessTransitive(s[1..], t[1..], u[1..]);
    }
  }

  lemma {:induction false} StrLessTotal(s: string, t: string)
    requires s != t
    ensures StrLess(s, t) || StrLess(t, s)
  {
    if s != [] && t != [] && s[0] == t[0] {
      assert s == [s[0]] + s[1..] && t == [t[0]] + t[1..];
      StrLessTotal(s[1..], t[1..]);
    }
  }

  lemma StrLessAsymmetric(s: string, t: string)
    requires StrLess(s, t)
    ensures !StrLess(t, s)
  {
    if StrLess(t, s) {
      StrLessTransitive(s, t, s);
      StrLessIrreflexive(s);
    }
  }
}
