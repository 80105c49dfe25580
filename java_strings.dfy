/**
 * The `java.lang.String`, `Integer`/`Long` and Spring `StringUtils` behaviour the
 * back end leans on, restricted to what its handlers use.
 * Characters are compared by code point; case mapping covers ASCII letters only.
 */
module JavaStrings {
  import opened Base

  // ---------------------------------------------------------------------------
  // String.trim(): strips every char <= ' ' at both ends
  // ---------------------------------------------------------------------------

  function TrimLeft(s: string): (r: string)
    ensures |r| <= |s| && r == s[|s| - |r|..]
    ensures forall k :: 0 <= k < |s| - |r| ==> s[k] <= ' '
    ensures r == [] || r[0] > ' '
    decreases |s|
  {
    if s == [] || s[0] > ' ' then s else TrimLeft(s[1..])
  }

  function TrimRight(s: string): (r: string)
    ensures |r| <= |s| && r == s[..|r|]
    ensures forall k :: |r| <= k < |s| ==> s[k] <= ' '
    ensures r == [] || r[|r| - 1] > ' '
    decreases |s|
  {
    if s == [] || s[|s| - 1] > ' ' then s else TrimRight(s[..|s| - 1])
  }

  /** Java `String.trim()`. */
  function Trim(s: string): (r: string)
    ensures |r| <= |s|
    ensures r == [] || (r[0] > ' ' && r[|r| - 1] > ' ')
  {
    TrimRight(TrimLeft(s))
  }

  /** Java `s != null ? s.trim() : ""`, the form converters' default. */
  function TrimOrEmpty(s: Option<string>): (r: string)
    ensures r == [] || (r[0] > ' ' && r[|r| - 1] > ' ')
    ensures r == [] <==> s.None? || forall k :: 0 <= k < |s.value| ==> s.value[k] <= ' '
    ensures s.None? ==> r == ""
    ensures s.Some? ==> r == Trim(s.value)
  {
    if s.Some? then TrimEmptyIff(s.value); Trim(s.value) else ""
  }

  /** Java `s != null ? s.trim() : null`. */
  function TrimOrNull(s: Option<string>): (r: Option<string>)
    ensures r.Some? <==> s.Some?
    ensures r.Some? ==> r.value == [] || (r.value[0] > ' ' && r.value[|r.value| - 1] > ' ')
    ensures r.Some? ==> (r.value == [] <==> forall k :: 0 <= k < |s.value| ==> s.value[k] <= ' ')
    ensures s.Some? ==> r.value == Trim(s.value)
  {
    if s.Some? then TrimEmptyIff(s.value); Some(Trim(s.value)) else None
  }

  /** `trim()` removes exactly the outer control/space characters: it is idempotent. */
  /** A text with no char <= ' ' at either end is its own trim. */
  lemma TrimNoop(s: string)
    requires s == [] || (s[0] > ' ' && s[|s| - 1] > ' ')
    ensures Trim(s) == s
  {
    assert TrimLeft(s) == s;
    assert TrimRight(s) == s;
  }

  lemma TrimIdempotent(s: string)
    ensures Trim(Trim(s)) == Trim(s)
  {
    var t := Trim(s);
    assert TrimLeft(t) == t;
    assert TrimRight(t) == t;
  }

  /** `s.trim().isEmpty()` holds exactly when every character of `s` is <= ' '. */
  lemma TrimEmptyIff(s: string)
    ensures Trim(s) == [] <==> forall k :: 0 <= k < |s| ==> s[k] <= ' '
  {
    var l := TrimLeft(s);
    if l != [] {
      assert l[0] == s[|s| - |l|];
      assert l[0] > ' ';
      assert TrimRight(l)[0] == l[0];
    }
  }

  // ---------------------------------------------------------------------------
  // Character.isWhitespace, StringUtils.hasText, String.isBlank
  // ---------------------------------------------------------------------------

  /** `Character.isWhitespace` on the ASCII range. */
  predicate IsWhitespace(c: char)
  {
    ('\t' <= c <= '\r') || ('\U{1c}' <= c <= '\U{1f}') || c == ' '
  }

  /** Spring `StringUtils.hasText` on a non-null string. */
  predicate HasText(s: string)
  {
    exists k :: 0 <= k < |s| && !IsWhitespace(s[k])
  }

  /** Spring `StringUtils.hasText` on a nullable string. */
  predicate HasTextOpt(s: Option<string>)
  {
    s.Some? && HasText(s.value)
  }

  /** Java 11 `String.isBlank` on a nullable string, as `s == null || s.isBlank()`. */
  predicate IsBlankOpt(s: Option<string>)
  {
    !HasTextOpt(s)
  }

  /** Java `s == null || s.trim().isEmpty()`. */
  predicate IsEmptyAfterTrim(s: Option<string>)
  {
    s.None? || Trim(s.value) == []
  }

  /**
   * The two blankness tests the handlers mix differ: a string that survives
   * `trim()` always has text, but not the other way round (a lone U+0001 has
   * text and trims to "").
   */
  lemma TrimmedNonEmptyHasText(s: string)
    requires Trim(s) != []
    ensures HasText(s)
  {
    var t := Trim(s);
    var l := TrimLeft(s);
    assert t[0] == l[0] == s[|s| - |l|];
    assert !IsWhitespace(s[|s| - |l|]);
  }

  lemma HasTextDoesNotImplyTrimmedNonEmpty()
    ensures HasText("\U{1}") && Trim("\U{1}") == []
  {
    assert !IsWhitespace("\U{1}"[0]);
  }

  // ---------------------------------------------------------------------------
  // Case: toLowerCase, equalsIgnoreCase, compareToIgnoreCase (ASCII letters)
  // ---------------------------------------------------------------------------

  function LowerChar(c: char): (r: char)
    ensures 'A' <= c <= 'Z' ==> r as int == c as int + 32
    ensures !('A' <= c <= 'Z') ==> r == c
    ensures !('A' <= r <= 'Z')
  {
    if 'A' <= c <= 'Z' then (c as int + 32) as char else c
  }

  function ToLower(s: string): (r: string)
    ensures |r| == |s|
    ensures forall k :: 0 <= k < |s| ==> r[k] == LowerChar(s[k])
    decreases |s|
  {
    if s == [] then [] else [LowerChar(s[0])] + ToLower(s[1..])
  }

  predicate EqualsIgnoreCase(a: string, b: string)
  {
    ToLower(a) == ToLower(b)
  }

  /** `toLowerCase` is idempotent, so lower-casing twice changes nothing. */
  lemma ToLowerIdempotent(s: string)
    ensures ToLower(ToLower(s)) == ToLower(s)
  {
    assert forall k :: 0 <= k < |s| ==> ToLower(ToLower(s))[k] == ToLower(s)[k];
  }

  /** Lexicographic `<=` on code points. */
  predicate LexLeq(a: string, b: string)
    decreases |a|
  {
    a == [] || (b != [] && (a[0] < b[0] || (a[0] == b[0] && LexLeq(a[1..], b[1..]))))
  }

  /** `a.compareToIgnoreCase(b) <= 0`. */
  predicate LeqIgnoreCase(a: string, b: string)
  {
    LexLeq(ToLower(a), ToLower(b))
  }

  lemma {:induction false} LexLeqTotal(a: string, b: string)
    ensures LexLeq(a, b) || LexLeq(b, a)
    decreases |a|
  {
    if a != [] && b != [] && a[0] == b[0] {
      LexLeqTotal(a[1..], b[1..]);
    }
  }

  lemma {:induction false} LexLeqTrans(a: string, b: string, c: string)
    requires LexLeq(a, b) && LexLeq(b, c)
    ensures LexLeq(a, c)
    decreases |a|
  {
    if a != [] && b != [] && c != [] && a[0] == b[0] && b[0] == c[0] {
      LexLeqTrans(a[1..], b[1..], c[1..]);
    }
  }

  // ---------------------------------------------------------------------------
  // Prefix, substring, character search and replacement
  // ---------------------------------------------------------------------------

  predicate StartsWith(s: string, prefix: string)
  {
    |prefix| <= |s| && s[..|prefix|] == prefix
  }

  /** Java `s.contains(t)`. */
  predicate Contains(s: string, t: string)
    decreases |s|
  {
    StartsWith(s, t) || (s != [] && Contains(s[1..], t))
  }

  /** `Contains` means `t` occurs at some offset of `s`. */
  lemma {:induction false} ContainsAt(s: string, t: string, i: nat)
    requires i + |t| <= |s| && s[i..i + |t|] == t
    ensures Contains(s, t)
    decreases i
  {
    if i == 0 {
      assert s[..|t|] == t;
    } else {
      assert s[1..][i - 1..i - 1 + |t|] == s[i..i + |t|];
      ContainsAt(s[1..], t, i - 1);
    }
  }

  /** Java `s.lastIndexOf(c)`, with -1 as `None`. */
  function LastIndexOf(s: string, c: char): (r: Option<nat>)
    ensures r.None? <==> c !in s
    ensures r.Some? ==> r.value < |s| && s[r.value] == c
    ensures r.Some? ==> forall k :: r.value < k < |s| ==> s[k] != c
    decreases |s|
  {
    if s == [] then None
    else if s[|s| - 1] == c then Some(|s| - 1)
    else
      var r := LastIndexOf(s[..|s| - 1], c);
      assert s == s[..|s| - 1] + [s[|s| - 1]];
      r
  }

  /** Java `s.replace(from, to)` for single characters. */
  function ReplaceChar(s: string, from: char, to: char): (r: string)
    ensures |r| == |s|
    ensures forall k :: 0 <= k < |s| ==> r[k] == (if s[k] == from then to else s[k])
    decreases |s|
  {
    if s == [] then [] else [if s[0] == from then to else s[0]] + ReplaceChar(s[1..], from, to)
  }

  // ---------------------------------------------------------------------------
  // Decimal integers: Integer.parseInt / Long.parseLong / String.valueOf
  // ---------------------------------------------------------------------------

  predicate IsDigit(c: char) { '0' <= c <= '9' }

  predicate AllDigits(s: string) { forall k :: 0 <= k < |s| ==> IsDigit(s[k]) }

  function DigitChar(d: nat): (c: char)
    requires d < 10
    ensures IsDigit(c)
  {
    ('0' as int + d) as char
  }

  function DigitsValue(s: string): nat
    requires AllDigits(s)
    decreases |s|
  {
    if s == [] then 0 else DigitsValue(s[..|s| - 1]) * 10 + (s[|s| - 1] as int - '0' as int)
  }

  /** `String.valueOf(n)` for a non-negative `n`: the canonical decimal digits. */
  function NatToString(n: nat): (r: string)
    ensures |r| >= 1 && AllDigits(r)
    ensures DigitsValue(r) == n
    ensures r[0] == '0' ==> n == 0
    decreases n
  {
    if n < 10 then [DigitChar(n)]
    else
      var p := NatToString(n / 10);
      var r := p + [DigitChar(n % 10)];
      assert r[..|r| - 1] == p;
      r
  }

  /** `String.valueOf(i)` for any integer. */
  function IntToString(i: int): (r: string)
    ensures |r| >= 1
    ensures i < 0 <==> r[0] == '-'
  {
    if i < 0 then "-" + NatToString(-i) else NatToString(i)
  }

  /**
   * Java's decimal parser: an optional sign followed by at least one digit,
   * whose value lies in `[lo, hi]`; anything else is a `NumberFormatException`
   * (here `None`).
   */
  function ParseInteger(s: string, lo: int, hi: int): (r: Option<int>)
    ensures r.Some? ==> lo <= r.value <= hi
    ensures r.Some? ==> s != [] && (IsDigit(s[0]) || s[0] == '-' || s[0] == '+')
    ensures s == [] ==> r.None?
  {
    if s == [] then None
    else
      var body := if s[0] == '-' || s[0] == '+' then s[1..] else s;
      if body == [] || !AllDigits(body) then None
      else
        var v: int := if s[0] == '-' then -(DigitsValue(body) as int) else DigitsValue(body);
        if lo <= v <= hi then Some(v) else None
  }

  /** `Long.parseLong`. */
  function ParseLong(s: string): (r: Option<int>)
    ensures r.Some? ==> IsInt64(r.value)
  {
    ParseInteger(s, INT64_MIN, INT64_MAX)
  }

  /** `Integer.parseInt`. */
  function ParseInt(s: string): (r: Option<int>)
    ensures r.Some? ==> IsInt32(r.value)
  {
    ParseInteger(s, INT32_MIN, INT32_MAX)
  }

  /** Parsing what `String.valueOf` printed gives the number back. */
  lemma ParseIntegerRoundTrip(n: int, lo: int, hi: int)
    requires lo <= n <= hi
    ensures ParseInteger(IntToString(n), lo, hi) == Some(n)
  {
    var s := IntToString(n);
    if n < 0 {
      assert s[1..] == NatToString(-n);
    }
  }

  lemma ParseLongRoundTrip(n: int)
    requires IsInt64(n)
    ensures ParseLong(IntToString(n)) == Some(n)
  {
    ParseIntegerRoundTrip(n, INT64_MIN, INT64_MAX);
  }

  /** JavaScript `String(s).padStart(width, c)`. */
  function PadStart(s: string, width: nat, c: char): (r: string)
    ensures |r| == if |s| >= width then |s| else width
    ensures r[|r| - |s|..] == s
    ensures forall k :: 0 <= k < |r| - |s| ==> r[k] == c
  {
    if |s| >= width then s else seq(width - |s|, _ => c) + s
  }

  /** A natural number's decimal digits, left-padded with '0' to at least `width` characters. */
  function Pad(n: nat, width: nat): (r: string)
    ensures |r| >= width
    ensures AllDigits(r)
  {
    PadStartDigits(NatToString(n), width);
    PadStart(NatToString(n), width, '0')
  }

  /** Padding digits with '0' leaves only digits. */
  lemma PadStartDigits(s: string, width: nat)
    requires AllDigits(s)
    ensures AllDigits(PadStart(s, width, '0'))
  {
    var r := PadStart(s, width, '0');
    forall k | 0 <= k < |r| ensures IsDigit(r[k]) {
      if k >= |r| - |s| { assert r[k] == r[|r| - |s|..][k - (|r| - |s|)]; }
    }
  }

  /** Leading zeros do not change a decimal's value. */
  lemma {:induction false} LeadingZeros(z: nat, s: string)
    requires AllDigits(s)
    ensures AllDigits(seq(z, _ => '0') + s)
    ensures DigitsValue(seq(z, _ => '0') + s) == DigitsValue(s)
    decreases |s|
  {
    var p := seq(z, _ => '0');
    if s == [] {
      assert p + s == p;
      ZerosValue(z);
    } else {
      var init := s[..|s| - 1];
      LeadingZeros(z, init);
      assert (p + s)[..|p + s| - 1] == p + init;
    }
  }

  lemma {:induction false} ZerosValue(z: nat)
    ensures AllDigits(seq(z, _ => '0'))
    ensures DigitsValue(seq(z, _ => '0')) == 0
    decreases z
  {
    if z > 0 {
      ZerosValue(z - 1);
      assert seq(z, _ => '0')[..z - 1] == seq(z - 1, _ => '0');
    }
  }

  lemma PadValue(n: nat, width: nat)
    ensures DigitsValue(Pad(n, width)) == n
  {
    var s := NatToString(n);
    if |s| < width {
      LeadingZeros(width - |s|, s);
    }
  }

  // ---------------------------------------------------------------------------
  // String.hashCode: h = 31 * h + c over the characters, in 32-bit arithmetic
  // ---------------------------------------------------------------------------

  function HashCode(s: string): (h: int)
    ensures IsInt32(h)
    decreases |s|
  {
    if s == [] then 0 else Wrap32(31 * HashCode(s[..|s| - 1]) + s[|s| - 1] as int)
  }

  /** `Objects.hash(s)` of a single string: `31 + s.hashCode()` in 32-bit arithmetic, null hashing as 0. */
  function ObjectsHash(s: Option<string>): (h: int)
    ensures IsInt32(h)
    ensures s.None? ==> h == 31
  {
    Wrap32(31 + if s.Some? then HashCode(s.value) else 0)
  }
}
