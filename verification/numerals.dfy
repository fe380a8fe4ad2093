/** The two string-to-integer conversions the system relies on:
    JavaScript's `parseInt(s)` (no radix, used on the listing's `page` and
    `limit` query parameters) and `BigInt(s)` (used on the `$numberLong`
    file size of a raw record). Both are modelled on integers; `None` stands
    for `NaN` and for the `SyntaxError` that `BigInt` throws. */
module Numerals {
  import opened Maybe

  /** The white space and line terminators JavaScript trims. */
  predicate IsSpace(c: char) {
    || c == '\t' || c == '\n' || c == '\U{B}' || c == '\U{C}' || c == '\r'
    || c == ' ' || c == '\U{A0}' || c == '\U{1680}'
    || ('\U{2000}' <= c <= '\U{200A}') || c == '\U{2028}' || c == '\U{2029}'
    || c == '\U{202F}' || c == '\U{205F}' || c == '\U{3000}' || c == '\U{FEFF}'
  }

  /** The value of a digit character in bases up to 36; 36 for a non-digit. */
  function DigitValue(c: char): (v: nat)
    ensures v <= 36
  {
    if '0' <= c <= '9' then c as int - '0' as int
    else if 'a' <= c <= 'z' then c as int - 'a' as int + 10
    else if 'A' <= c <= 'Z' then c as int - 'A' as int + 10
    else 36
  }

  predicate IsDigit(c: char, base: nat) {
    DigitValue(c) < base
  }

  predicate AllDigits(s: string, base: nat) {
    forall i :: 0 <= i < |s| ==> IsDigit(s[i], base)
  }

  /** The value of a string of digits, most significant first. */
  function ValueOf(s: string, base: nat): nat
    requires AllDigits(s, base)
  {
    if |s| == 0 then 0
    else ValueOf(s[..|s| - 1], base) * base + DigitValue(s[|s| - 1])
  }

  /** The longest prefix of `s` made of digits of `base`. */
  function LeadingDigits(s: string, base: nat): (r: string)
    ensures AllDigits(r, base)
    ensures |r| <= |s| && s[..|r|] == r
    ensures |r| < |s| ==> !IsDigit(s[|r|], base)
  {
    if |s| == 0 || !IsDigit(s[0], base) then ""
    else [s[0]] + LeadingDigits(s[1..], base)
  }

  function TrimStart(s: string): (r: string)
    ensures |r| <= |s| && r == s[|s| - |r|..]
    ensures |r| > 0 ==> !IsSpace(r[0])
  {
    if |s| > 0 && IsSpace(s[0]) then TrimStart(s[1..]) else s
  }

  function TrimEnd(s: string): (r: string)
    ensures |r| <= |s| && r == s[..|r|]
    ensures |r| > 0 ==> !IsSpace(r[|r| - 1])
  {
    if |s| > 0 && IsSpace(s[|s| - 1]) then TrimEnd(s[..|s| - 1]) else s
  }

  function Signed(negative: bool, n: nat): int {
    if negative then -(n as int) else n
  }

  /** Splits an optional leading `-` or `+` off `t`. */
  function SplitSign(t: string): (bool, string) {
    if |t| > 0 && (t[0] == '-' || t[0] == '+') then (t[0] == '-', t[1..]) else (false, t)
  }

  predicate HasHexPrefix(u: string) {
    |u| >= 2 && u[0] == '0' && (u[1] == 'x' || u[1] == 'X')
  }

  /** How both conversions see a plain decimal numeral: nothing to trim, no
      sign, no radix prefix, and every character a digit. */
  predicate DecimalShape(s: string) {
    && TrimStart(s) == s && TrimEnd(s) == s
    && SplitSign(s) == (false, s)
    && !HasHexPrefix(s) && NonDecimalBase(s).None?
    && LeadingDigits(s, 10) == s
  }

  lemma DecimalDigit(c: char)
    requires IsDigit(c, 10)
    ensures '0' <= c <= '9' && !IsSpace(c)
  {
  }

  lemma DecimalNumeral(s: string)
    requires |s| > 0 && AllDigits(s, 10)
    ensures DecimalShape(s)
  {
    DecimalDigit(s[0]);
    DecimalDigit(s[|s| - 1]);
    assert TrimStart(s) == s;
    assert TrimEnd(s) == s;
    if |s| >= 2 {
      DecimalDigit(s[1]);
    }
    LeadingDigitsOfDigits(s, 10);
  }

  /** `parseInt(s)`: skip leading white space, take an optional sign, switch
      to base 16 after a `0x`/`0X` prefix, then read the longest run of
      digits; no digit at all is `NaN`. Anything after the digits is
      ignored. */
  function ParseInt(s: string): (r: Option<int>)
    ensures var u := SplitSign(TrimStart(s)).1;
      HasHexPrefix(u) ==> (r.Some? <==> |u| > 2 && IsDigit(u[2], 16))
    ensures var u := SplitSign(TrimStart(s)).1;
      !HasHexPrefix(u) ==> (r.Some? <==> |u| > 0 && IsDigit(u[0], 10))
    ensures r.Some? && r.value < 0 ==> SplitSign(TrimStart(s)).0
    ensures |s| > 0 && AllDigits(s, 10) ==> r == Some(ValueOf(s, 10))
  {
    assert |s| > 0 && AllDigits(s, 10) ==> DecimalShape(s) by {
      if |s| > 0 && AllDigits(s, 10) {
        DecimalNumeral(s);
      }
    }
    var (negative, u) := SplitSign(TrimStart(s));
    var base := if HasHexPrefix(u) then 16 else 10;
    var digits := LeadingDigits(if HasHexPrefix(u) then u[2..] else u, base);
    if |digits| == 0 then None else Some(Signed(negative, ValueOf(digits, base)))
  }

  /** The radix a `BigInt` literal prefix `0x`, `0o` or `0b` selects, if any. */
  function NonDecimalBase(t: string): Option<nat> {
    if |t| >= 2 && t[0] == '0' then
      if t[1] == 'x' || t[1] == 'X' then Some(16)
      else if t[1] == 'o' || t[1] == 'O' then Some(8)
      else if t[1] == 'b' || t[1] == 'B' then Some(2)
      else None
    else None
  }

  /** The numerals `BigInt` accepts after trimming: decimal digits with an
      optional sign, or `0x`, `0o` or `0b` (either case) followed by digits
      of that radix, without sign. */
  predicate BigIntNumeral(t: string) {
    || (|t| > 0 && AllDigits(t, 10))
    || (|t| > 1 && (t[0] == '-' || t[0] == '+') && AllDigits(t[1..], 10))
    || (|t| > 2 && t[0] == '0' && (t[1] == 'x' || t[1] == 'X') && AllDigits(t[2..], 16))
    || (|t| > 2 && t[0] == '0' && (t[1] == 'o' || t[1] == 'O') && AllDigits(t[2..], 8))
    || (|t| > 2 && t[0] == '0' && (t[1] == 'b' || t[1] == 'B') && AllDigits(t[2..], 2))
  }

  /** `BigIntNumeral` is the radix-prefix test followed by the digit test
      of that radix, or the sign split followed by the decimal test. */
  lemma BigIntNumeralCases(t: string)
    requires |t| > 0
    ensures BigIntNumeral(t) <==>
      if NonDecimalBase(t).Some? then |t| > 2 && AllDigits(t[2..], NonDecimalBase(t).value)
      else |SplitSign(t).1| > 0 && AllDigits(SplitSign(t).1, 10)
  {
    if NonDecimalBase(t).Some? {
      assert t[0] == '0' && !IsDigit(t[1], 10);
    } else if t[0] == '-' || t[0] == '+' {
      assert !IsDigit(t[0], 10);
    }
  }

  /** `BigInt(s)`: the string, trimmed at both ends, must be empty (giving
      zero), a signed decimal numeral, or a `0x`, `0o` or `0b` numeral
      without sign; anything else throws. */
  function ParseBigInt(s: string): (r: Option<int>)
    ensures TrimEnd(TrimStart(s)) == "" ==> r == Some(0)
    ensures r.Some? <==> TrimEnd(TrimStart(s)) == "" || BigIntNumeral(TrimEnd(TrimStart(s)))
    ensures r.Some? && r.value < 0 ==> |TrimStart(s)| > 0 && TrimStart(s)[0] == '-'
    ensures |s| > 0 && AllDigits(s, 10) ==> r == Some(ValueOf(s, 10))
  {
    assert |s| > 0 && AllDigits(s, 10) ==> DecimalShape(s) by {
      if |s| > 0 && AllDigits(s, 10) {
        DecimalNumeral(s);
      }
    }
    var t := TrimEnd(TrimStart(s));
    assert |t| > 0 ==> (BigIntNumeral(t) <==>
      if NonDecimalBase(t).Some? then |t| > 2 && AllDigits(t[2..], NonDecimalBase(t).value)
      else |SplitSign(t).1| > 0 && AllDigits(SplitSign(t).1, 10)) by {
      if |t| > 0 {
        BigIntNumeralCases(t);
      }
    }
    if |t| == 0 then Some(0)
    else if NonDecimalBase(t).Some? then
      var base := NonDecimalBase(t).value;
      var ds := t[2..];
      if |ds| > 0 && AllDigits(ds, base) then Some(ValueOf(ds, base)) else None
    else
      var (negative, ds) := SplitSign(t);
      if |ds| > 0 && AllDigits(ds, 10) then Some(Signed(negative, ValueOf(ds, 10))) else None
  }

  /** The decimal numeral of a natural number, as `String(n)` writes it. */
  function ShowNat(n: nat): (s: string)
    ensures |s| > 0 && AllDigits(s, 10)
    ensures ValueOf(s, 10) == n
    ensures s[0] == '0' ==> s == "0"
  {
    var d := ['0' + (n % 10) as char];
    assert DigitValue(d[0]) == n % 10;
    if n < 10 then d
    else
      var front := ShowNat(n / 10);
      var s := front + d;
      assert s[..|s| - 1] == front;
      s
  }

  /** The decimal numeral of an integer, with a leading `-` when negative. */
  function Show(n: int): (s: string)
    ensures |s| > 0
  {
    if n < 0 then "-" + ShowNat(-n) else ShowNat(n)
  }

  lemma LeadingDigitsOfDigits(s: string, base: nat)
    requires AllDigits(s, base)
    ensures LeadingDigits(s, base) == s
  {
    if |s| > 0 {
      LeadingDigitsOfDigits(s[1..], base);
    }
  }

  /** A numeral starts and ends with a character that is not white space,
      and its sign splits off to leave the digits of the magnitude. */
  lemma ShowShape(n: int)
    ensures !IsSpace(Show(n)[0]) && !IsSpace(Show(n)[|Show(n)| - 1])
    ensures SplitSign(Show(n)) == (n < 0, ShowNat(if n < 0 then -n else n))
    ensures !HasHexPrefix(ShowNat(if n < 0 then -n else n))
    ensures NonDecimalBase(Show(n)).None?
  {
    var m := if n < 0 then -n else n;
    var d := ShowNat(m);
    assert IsDigit(d[0], 10) && IsDigit(d[|d| - 1], 10);
    if |d| >= 2 {
      assert IsDigit(d[1], 10);
    }
    if n < 0 {
      assert Show(n)[1..] == d;
    }
  }

  /** The integers a JavaScript number holds exactly: `parseInt` returns a
      double, so larger numerals are rounded. */
  const MaxSafe: int := 0x20_0000_0000_0000

  /** Whether a double holds `n` exactly. */
  predicate Exact(n: int) {
    -MaxSafe <= n <= MaxSafe
  }

  /** `parseInt` reads back every numeral `String(n)` writes, for the
      integers a double represents exactly. */
  lemma ParseIntShow(n: int)
    requires Exact(n)
    ensures ParseInt(Show(n)) == Some(n)
  {
    ShowShape(n);
    var m := if n < 0 then -n else n;
    LeadingDigitsOfDigits(ShowNat(m), 10);
    assert TrimStart(Show(n)) == Show(n);
  }

  lemma {:induction false} LeadingDigitsAppend(d: string, rest: string, base: nat)
    requires AllDigits(d, base)
    requires |rest| == 0 || !IsDigit(rest[0], base)
    ensures LeadingDigits(d + rest, base) == d
  {
    if |d| == 0 {
      assert d + rest == rest;
    } else {
      assert (d + rest)[1..] == d[1..] + rest;
      LeadingDigitsAppend(d[1..], rest, base);
    }
  }

  /** Text with no leading space, sign or `0x` is read as its leading
      decimal digits. */
  lemma ParseIntUnsigned(s: string)
    requires |s| > 0 && !IsSpace(s[0]) && s[0] != '-' && s[0] != '+' && !HasHexPrefix(s)
    ensures var d := LeadingDigits(s, 10);
      ParseInt(s) == if |d| == 0 then None else Some(ValueOf(d, 10))
  {
    assert TrimStart(s) == s;
    assert SplitSign(s) == (false, s);
  }

  /** `parseInt` reads the leading run of decimal digits and ignores what
      follows it, for values a double represents exactly. */
  lemma ParseIntPrefix(d: string, rest: string)
    requires |d| > 0 && AllDigits(d, 10) && Exact(ValueOf(d, 10))
    requires |rest| == 0 || !IsDigit(rest[0], 10)
    requires !HasHexPrefix(d + rest)
    ensures ParseInt(d + rest) == Some(ValueOf(d, 10))
  {
    DecimalDigit(d[0]);
    assert (d + rest)[0] == d[0];
    LeadingDigitsAppend(d, rest, 10);
    ParseIntUnsigned(d + rest);
  }

  /** `parseInt` reads the hexadecimal digits after a `0x` or `0X` prefix
      and ignores what follows them. */
  lemma ParseIntHexPrefix(x: char, h: string, rest: string)
    requires x == 'x' || x == 'X'
    requires |h| > 0 && AllDigits(h, 16) && Exact(ValueOf(h, 16))
    requires |rest| == 0 || !IsDigit(rest[0], 16)
    ensures ParseInt(['0', x] + h + rest) == Some(ValueOf(h, 16))
  {
    var t := h + rest;
    var s := ['0', x] + t;
    assert ['0', x] + h + rest == s && HasHexPrefix(s) && s[2..] == t by {
      assert s[0] == '0' && s[1] == x;
    }
    assert LeadingDigits(s[2..], 16) == h by {
      LeadingDigitsAppend(h, rest, 16);
    }
    ParseIntHexUnsigned(s);
  }

  /** Text with no leading space or sign and a `0x` prefix is read as the
      hexadecimal digits after the prefix. */
  lemma ParseIntHexUnsigned(s: string)
    requires HasHexPrefix(s)
    ensures var d := LeadingDigits(s[2..], 16);
      ParseInt(s) == if |d| == 0 then None else Some(ValueOf(d, 16))
  {
    assert TrimStart(s) == s;
    assert SplitSign(s) == (false, s);
  }

  /** `BigInt` reads back every numeral `String(n)` writes. */
  lemma ParseBigIntShow(n: int)
    ensures ParseBigInt(Show(n)) == Some(n)
  {
    ShowShape(n);
    assert TrimStart(Show(n)) == Show(n);
    assert TrimEnd(Show(n)) == Show(n);
  }
}
