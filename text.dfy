/** The string operations of JavaScript that the modelled code relies on: `trim`, ASCII
    `toUpperCase`, decimal formatting of a non-negative integer and `parseInt`. */
module Text {
  import opened Common

  /** The characters `String.prototype.trim` and `parseInt` skip: ECMAScript WhiteSpace and LineTerminator. */
  predicate IsJsWhitespace(c: char)
  {
    || c == '\t' || c == '\n' || c == '\U{000B}' || c == '\U{000C}' || c == '\r' || c == ' '
    || c == '\U{00A0}' || c == '\U{1680}' || ('\U{2000}' <= c <= '\U{200A}')
    || c == '\U{2028}' || c == '\U{2029}' || c == '\U{202F}' || c == '\U{205F}'
    || c == '\U{3000}' || c == '\U{FEFF}'
  }

  /** Every character of `s` is white space (so `s.trim()` is the empty, falsy, string). */
  predicate Blank(s: string)
  {
    forall i :: 0 <= i < |s| ==> IsJsWhitespace(s[i])
  }

  /** `s` with its leading white space removed. */
  function TrimStart(s: string): (r: string)
    ensures |r| <= |s| && r == s[|s| - |r|..]
    ensures r == [] || !IsJsWhitespace(r[0])
    ensures Blank(s[..|s| - |r|])
  {
    if s != [] && IsJsWhitespace(s[0]) then TrimStart(s[1..]) else s
  }

  /** `s` with its trailing white space removed. */
  function TrimEnd(s: string): (r: string)
    ensures |r| <= |s| && r == s[..|r|]
    ensures r == [] || !IsJsWhitespace(r[|r| - 1])
    ensures Blank(s[|r|..])
  {
    if s != [] && IsJsWhitespace(s[|s| - 1]) then TrimEnd(s[..|s| - 1]) else s
  }

  /** Every suffix of a blank string is blank. */
  lemma BlankSuffix(s: string, k: nat)
    requires Blank(s) && k <= |s|
    ensures Blank(s[k..])
  {
    forall i | 0 <= i < |s[k..]| ensures IsJsWhitespace(s[k..][i]) {
      assert s[k..][i] == s[k + i];
    }
  }

  /** A string whose two parts around `cut` are blank is blank. */
  lemma BlankSplit(s: string, cut: nat)
    requires cut <= |s| && Blank(s[..cut]) && Blank(s[cut..])
    ensures Blank(s)
  {
    forall i | 0 <= i < |s| ensures IsJsWhitespace(s[i]) {
      if i < cut {
        assert s[..cut][i] == s[i];
      } else {
        assert s[cut..][i - cut] == s[i];
      }
    }
  }

  /** Trimming the end of a blank string leaves nothing. */
  lemma {:induction false} TrimEndOfBlank(t: string)
    requires Blank(t)
    ensures TrimEnd(t) == []
  {
    if t != [] {
      var front := t[..|t| - 1];
      forall i | 0 <= i < |front| ensures IsJsWhitespace(front[i]) {
        assert front[i] == t[i];
      }
      TrimEndOfBlank(front);
    }
  }

  /** Trimming both ends leaves nothing exactly when the string is blank. */
  lemma TrimEmptyIffBlank(s: string)
    ensures TrimEnd(TrimStart(s)) == [] <==> Blank(s)
  {
    var t := TrimStart(s);
    var cut := |s| - |t|;
    assert t == s[cut..];
    if Blank(s) {
      BlankSuffix(s, cut);
      TrimEndOfBlank(t);
    }
    if TrimEnd(t) == [] {
      assert t[0..] == t;
      BlankSplit(s, cut);
    }
  }

  /** `s.trim()`: the result is empty exactly when `s` is blank, and otherwise neither starts nor ends with white space. */
  function Trim(s: string): (r: string)
    ensures r == [] <==> Blank(s)
    ensures r != [] ==> !IsJsWhitespace(r[0]) && !IsJsWhitespace(r[|r| - 1])
    ensures |r| <= |s|
  {
    TrimEmptyIffBlank(s);
    var t := TrimStart(s);
    var r := TrimEnd(t);
    assert r != [] ==> r[0] == t[0];
    r
  }

  predicate IsDigit(c: char) { '0' <= c <= '9' }

  predicate IsAsciiLetter(c: char) { 'a' <= c <= 'z' || 'A' <= c <= 'Z' }

  /** The class `[A-Za-z0-9]`. */
  predicate IsAsciiAlnum(c: char) { IsAsciiLetter(c) || IsDigit(c) }

  /** The class `[A-Z0-9]`. */
  predicate IsUpperAlnum(c: char) { 'A' <= c <= 'Z' || IsDigit(c) }

  /** `toUpperCase` on one character; only the ASCII letters are mapped. */
  function UpperChar(c: char): (u: char)
    ensures !('a' <= u <= 'z')
    ensures IsAsciiAlnum(c) <==> IsUpperAlnum(u)
    ensures !('a' <= c <= 'z') ==> u == c
  {
    if 'a' <= c <= 'z' then (c as int - 32) as char else c
  }

  /** `s.toUpperCase()` restricted to ASCII case mapping. */
  function Upper(s: string): (r: string)
    ensures |r| == |s|
    ensures forall i :: 0 <= i < |s| ==> r[i] == UpperChar(s[i])
  {
    seq(|s|, i requires 0 <= i < |s| => UpperChar(s[i]))
  }

  /** No lower-case ASCII letter occurs in `s`. */
  predicate IsUpperCase(s: string)
  {
    forall i :: 0 <= i < |s| ==> !('a' <= s[i] <= 'z')
  }

  lemma UpperIsUpperCase(s: string)
    ensures IsUpperCase(Upper(s))
    ensures IsUpperCase(s) <==> Upper(s) == s
  {
    if IsUpperCase(s) {
      assert forall i :: 0 <= i < |s| ==> Upper(s)[i] == s[i];
    }
    if Upper(s) == s {
      assert forall i :: 0 <= i < |s| ==> !('a' <= Upper(s)[i] <= 'z');
    }
  }

  /** Upper-casing twice is upper-casing once, so an upper-cased key can be upper-cased again without effect. */
  lemma UpperIdempotent(s: string)
    ensures Upper(Upper(s)) == Upper(s)
  {
    UpperIsUpperCase(s);
    UpperIsUpperCase(Upper(s));
  }

  function DigitChar(d: nat): (c: char)
    requires d < 10
    ensures IsDigit(c) && c as int - '0' as int == d
  {
    ('0' as int + d) as char
  }

  predicate AllDigits(s: string)
  {
    forall i :: 0 <= i < |s| ==> IsDigit(s[i])
  }

  /** The decimal notation JavaScript prints for a non-negative integer: digits only, no leading zero. */
  function NatToString(n: nat): (s: string)
    ensures |s| >= 1 && AllDigits(s)
    ensures s[0] == '0' ==> n == 0
  {
    if n < 10 then [DigitChar(n)] else NatToString(n / 10) + [DigitChar(n % 10)]
  }

  /** The number a string of decimal digits denotes. */
  function DigitsValue(s: string): nat
    requires AllDigits(s)
  {
    if s == [] then 0 else DigitsValue(s[..|s| - 1]) * 10 + (s[|s| - 1] as int - '0' as int)
  }

  /** Reading back the printed digits gives the number that was printed. */
  lemma {:induction false} NatToStringRoundTrip(n: nat)
    ensures DigitsValue(NatToString(n)) == n
  {
    if n >= 10 {
      NatToStringRoundTrip(n / 10);
      var s := NatToString(n);
      assert s[..|s| - 1] == NatToString(n / 10);
    }
  }

  /** The longest prefix of `s` made of decimal digits. */
  function LeadingDigits(s: string): (d: string)
    ensures |d| <= |s| && d == s[..|d|] && AllDigits(d)
    ensures |d| == |s| || !IsDigit(s[|d|])
  {
    if s != [] && IsDigit(s[0]) then [s[0]] + LeadingDigits(s[1..]) else []
  }

  /** `parseInt(s)` for decimal text: leading white space and one sign are skipped, then the longest
      run of digits is read; `None` stands for `NaN` (no digit at all). */
  function ParseIntPrefix(s: string): (r: Option<int>)
    ensures s == [] ==> r.None?
    ensures s != [] && IsDigit(s[0]) ==> r.Some? && r.value >= 0
    ensures r.Some? && r.value < 0 ==> TrimStart(s) != [] && TrimStart(s)[0] == '-'
  {
    var t := TrimStart(s);
    var negative := t != [] && t[0] == '-';
    var body := if t != [] && (t[0] == '-' || t[0] == '+') then t[1..] else t;
    var d := LeadingDigits(body);
    if d == [] then None
    else if negative then Some(-(DigitsValue(d) as int))
    else Some(DigitsValue(d))
  }

  lemma {:induction false} LeadingDigitsOfNumber(digits: string, rest: string)
    requires AllDigits(digits)
    requires rest == [] || !IsDigit(rest[0])
    ensures LeadingDigits(digits + rest) == digits
  {
    if digits != [] {
      assert (digits + rest)[1..] == digits[1..] + rest;
      LeadingDigitsOfNumber(digits[1..], rest);
    }
  }

  /** `parseInt` reads back a printed non-negative integer followed by any non-digit text, such as the
      fractional part `".0000000"` of a stored decimal. */
  lemma ParseIntOfPrintedNumber(n: nat, rest: string)
    requires rest == [] || !IsDigit(rest[0])
    ensures ParseIntPrefix(NatToString(n) + rest) == Some(n)
  {
    var d := NatToString(n);
    var s := d + rest;
    assert s[0] == d[0] && IsDigit(d[0]);
    assert TrimStart(s) == s;
    assert s[0] != '-' && s[0] != '+';
    LeadingDigitsOfNumber(d, rest);
    assert LeadingDigits(s) == d;
    NatToStringRoundTrip(n);
  }
}
