/** Character classes and text conversions that the Python code takes from its
    runtime: the regular-expression class `\w`, `str.capitalize`, the decimal
    rendering of an integer in an f-string, and the code-point order of strings
    used by `order_by`. */
module Text {

  predicate IsAsciiLower(c: char) { 'a' <= c <= 'z' }
  predicate IsAsciiUpper(c: char) { 'A' <= c <= 'Z' }
  predicate IsDigit(c: char) { '0' <= c <= '9' }
  predicate IsCyrillicLower(c: char) { 'а' <= c <= 'я' || c == 'ё' }
  predicate IsCyrillicUpper(c: char) { 'А' <= c <= 'Я' || c == 'Ё' }

  /** Letters of the two alphabets the application is written for. */
  predicate IsLetter(c: char) {
    IsAsciiLower(c) || IsAsciiUpper(c) || IsCyrillicLower(c) || IsCyrillicUpper(c)
  }

  /** Stand-in for Python's Unicode-aware `\w`: letters, digits and `_`. */
  predicate IsWordChar(c: char) {
    IsLetter(c) || IsDigit(c) || c == '_'
  }

  function ToUpper(c: char): (r: char)
    ensures IsAsciiLower(c) || IsCyrillicLower(c) ==> IsAsciiUpper(r) || IsCyrillicUpper(r)
    ensures !(IsAsciiLower(c) || IsCyrillicLower(c)) ==> r == c
  {
    if IsAsciiLower(c) then (c as int - 32) as char
    else if 'а' <= c <= 'я' then (c as int - 32) as char
    else if c == 'ё' then 'Ё'
    else c
  }

  function ToLower(c: char): (r: char)
    ensures IsAsciiUpper(c) || IsCyrillicUpper(c) ==> IsAsciiLower(r) || IsCyrillicLower(r)
    ensures !(IsAsciiUpper(c) || IsCyrillicUpper(c)) ==> r == c
  {
    if IsAsciiUpper(c) then (c as int + 32) as char
    else if 'А' <= c <= 'Я' then (c as int + 32) as char
    else if c == 'Ё' then 'ё'
    else c
  }

  /** Every character of `s` lower-cased. */
  function LowerAll(s: string): (r: string)
    ensures |r| == |s|
    ensures forall i :: 0 <= i < |s| ==> r[i] == ToLower(s[i])
  {
    if s == [] then [] else [ToLower(s[0])] + LowerAll(s[1..])
  }

  /** Python's `str.capitalize`: the first character upper-cased, all others
      lower-cased. */
  function Capitalize(s: string): (r: string)
    ensures |r| == |s|
    ensures |s| > 0 ==> r[0] == ToUpper(s[0])
    ensures forall i :: 1 <= i < |s| ==> r[i] == ToLower(s[i])
  {
    if s == [] then [] else [ToUpper(s[0])] + LowerAll(s[1..])
  }

  /** Capitalizing twice is capitalizing once. */
  lemma CapitalizeIdempotent(s: string)
    ensures Capitalize(Capitalize(s)) == Capitalize(s)
  {
    var c, cc := Capitalize(s), Capitalize(Capitalize(s));
    assert |cc| == |c|;
    forall i | 0 <= i < |c| ensures cc[i] == c[i] {
      if i == 0 {
        assert ToUpper(ToUpper(s[0])) == ToUpper(s[0]);
      } else {
        assert ToLower(ToLower(s[i])) == ToLower(s[i]);
      }
    }
  }

  function DigitChar(d: nat): (c: char)
    requires d < 10
    ensures IsDigit(c) && c as int - '0' as int == d
  {
    ('0' as int + d) as char
  }

  /** Decimal digits of `n`, most significant first, without leading zeros. */
  function NatToString(n: nat): (r: string)
    ensures |r| >= 1
    ensures forall i :: 0 <= i < |r| ==> IsDigit(r[i])
    ensures n > 0 ==> r[0] != '0'
    decreases n
  {
    if n < 10 then [DigitChar(n)] else NatToString(n / 10) + [DigitChar(n % 10)]
  }

  /** `str(i)` for an integer, as an f-string renders it. */
  function IntToString(i: int): (r: string)
    ensures IsIntLiteral(r)
    ensures r[0] == '-' <==> i < 0
  {
    if i < 0 then "-" + NatToString(-i) else NatToString(i)
  }

  predicate AllDigits(s: string) {
    forall i :: 0 <= i < |s| ==> IsDigit(s[i])
  }

  /** The number a string of decimal digits denotes. */
  function DigitsValue(s: string): nat
    requires AllDigits(s)
  {
    if s == [] then 0 else DigitsValue(s[..|s| - 1]) * 10 + (s[|s| - 1] as int - '0' as int)
  }

  /** An optional minus sign, then at least one decimal digit. */
  predicate IsIntLiteral(s: string) {
    && |s| > 0
    && (s[0] == '-' ==> |s| > 1 && AllDigits(s[1..]))
    && (s[0] != '-' ==> AllDigits(s))
  }

  /** Python's `int(s)` on an integer literal. */
  function ParseInt(s: string): (r: int)
    requires IsIntLiteral(s)
    ensures r < 0 ==> s[0] == '-'
    ensures s[0] != '-' ==> r >= 0
  {
    if s[0] == '-' then -(DigitsValue(s[1..]) as int) else DigitsValue(s)
  }

  lemma {:induction false} NatToStringRoundTrip(n: nat)
    ensures DigitsValue(NatToString(n)) == n
    decreases n
  {
    if n >= 10 {
      var s := NatToString(n);
      assert s[..|s| - 1] == NatToString(n / 10);
      NatToStringRoundTrip(n / 10);
    }
  }

  /** `int(str(i)) == i`. */
  lemma IntToStringRoundTrip(i: int)
    ensures IsIntLiteral(IntToString(i)) && ParseInt(IntToString(i)) == i
  {
    if i < 0 {
      assert ("-" + NatToString(-i))[1..] == NatToString(-i);
      NatToStringRoundTrip(-i);
    } else {
      NatToStringRoundTrip(i);
    }
  }

  /** Python's `str.isspace`: the characters `str.strip()` removes. */
  predicate IsSpace(c: char) {
    || '\t' <= c <= '\r'
    || '\U{1C}' <= c <= ' '
    || c == '\U{85}' || c == '\U{A0}' || c == '\U{1680}'
    || '\U{2000}' <= c <= '\U{200A}'
    || c == '\U{2028}' || c == '\U{2029}' || c == '\U{202F}' || c == '\U{205F}' || c == '\U{3000}'
  }

  /** `s.lstrip()`: the suffix left once the leading white space is gone. */
  function TrimStart(s: string): (r: string)
    ensures |r| <= |s| && r == s[|s| - |r|..]
    ensures forall i :: 0 <= i < |s| - |r| ==> IsSpace(s[i])
    ensures r == [] || !IsSpace(r[0])
  {
    if s != [] && IsSpace(s[0]) then TrimStart(s[1..]) else s
  }

  /** `s.rstrip()`: the prefix left once the trailing white space is gone. */
  function TrimEnd(s: string): (r: string)
    ensures |r| <= |s| && r == s[..|r|]
    ensures forall i :: |r| <= i < |s| ==> IsSpace(s[i])
    ensures r == [] || !IsSpace(r[|r| - 1])
  {
    if s != [] && IsSpace(s[|s| - 1]) then TrimEnd(s[..|s| - 1]) else s
  }

  /** `s.strip()`. */
  function Strip(s: string): string {
    TrimEnd(TrimStart(s))
  }

  /** What `strip` keeps: a slice of the input with white space only before
      and after it, and none at either of its own ends; and nothing at all
      exactly when the input is all white space. */
  lemma StripCharacterization(s: string)
    ensures exists i, j ::
      && 0 <= i <= j <= |s| && Strip(s) == s[i..j]
      && (forall k :: 0 <= k < i ==> IsSpace(s[k]))
      && (forall k :: j <= k < |s| ==> IsSpace(s[k]))
    ensures Strip(s) == [] || (!IsSpace(Strip(s)[0]) && !IsSpace(Strip(s)[|Strip(s)| - 1]))
    ensures Strip(s) == [] <==> forall k :: 0 <= k < |s| ==> IsSpace(s[k])
  {
    var i, j := StripSlice(s);
    StripEnds(s);
  }

  /** The slice `strip` keeps, with only white space outside it. */
  lemma StripSlice(s: string) returns (i: nat, j: nat)
    ensures i <= j <= |s| && Strip(s) == s[i..j]
    ensures forall k :: 0 <= k < i ==> IsSpace(s[k])
    ensures forall k :: j <= k < |s| ==> IsSpace(s[k])
  {
    var t := TrimStart(s);
    var r := TrimEnd(t);
    i := |s| - |t|;
    j := i + |r|;
    SpacesAfter(s, i, |r|);
  }

  /** White space at the end of a suffix of `s` is white space at the end of
      `s`, and a prefix of that suffix is a slice of `s`. */
  lemma SpacesAfter(s: string, i: nat, m: nat)
    requires i + m <= |s|
    requires forall k :: m <= k < |s[i..]| ==> IsSpace(s[i..][k])
    ensures s[i..][..m] == s[i..i + m]
    ensures forall k :: i + m <= k < |s| ==> IsSpace(s[k])
  {
    forall k | i + m <= k < |s| ensures IsSpace(s[k]) {
      assert s[k] == s[i..][k - i];
    }
  }

  /** Neither end of a non-empty stripped value is white space. */
  lemma StripEnds(s: string)
    ensures Strip(s) == [] || (!IsSpace(Strip(s)[0]) && !IsSpace(Strip(s)[|Strip(s)| - 1]))
  {
    var t := TrimStart(s);
    var r := TrimEnd(t);
    if r != [] {
      assert r[0] == t[0];
    }
  }

  /** Stripping twice is stripping once. */
  lemma StripIdempotent(s: string)
    ensures Strip(Strip(s)) == Strip(s)
  {
    var r := Strip(s);
    StripCharacterization(s);
    assert TrimStart(r) == r;
    assert TrimEnd(r) == r;
  }

  /** Strict lexicographic order of strings by code point, as `order_by`
      compares text under a binary collation. */
  predicate StrLess(a: string, b: string)
    decreases |a|
  {
    |b| > 0 && (|a| == 0 || a[0] < b[0] || (a[0] == b[0] && StrLess(a[1..], b[1..])))
  }

  lemma {:induction false} StrLessIrreflexive(a: string)
    ensures !StrLess(a, a)
    decreases |a|
  {
    if |a| > 0 { StrLessIrreflexive(a[1..]); }
  }

  lemma {:induction false} StrLessTransitive(a: string, b: string, c: string)
    requires StrLess(a, b) && StrLess(b, c)
    ensures StrLess(a, c)
    decreases |a|
  {
    if |a| > 0 && a[0] == b[0] && b[0] == c[0] {
      StrLessTransitive(a[1..], b[1..], c[1..]);
    }
  }

  lemma {:induction false} StrLessTotal(a: string, b: string)
    requires a != b
    ensures StrLess(a, b) || StrLess(b, a)
    decreases |a|
  {
    if |a| > 0 && |b| > 0 && a[0] == b[0] {
      assert a == [a[0]] + a[1..] && b == [b[0]] + b[1..];
      StrLessTotal(a[1..], b[1..]);
    }
  }
}
