/**
 * The few JavaScript string and number primitives the clinic code relies on:
 * `String.prototype.trim`, `startsWith`, `padStart`, `parseInt(s, 10)` and
 * `String(n)` of an integer. Strings are sequences of code points.
 */
module JsStrings {
  import opened Wrappers

  /** ECMAScript WhiteSpace and LineTerminator code points: what `trim` strips and `parseInt` skips. */
  predicate IsWhiteSpace(c: char) {
    var n := c as int;
    n == 0x09 || n == 0x0A || n == 0x0B || n == 0x0C || n == 0x0D || n == 0x20 || n == 0xA0
    || n == 0x1680 || (0x2000 <= n && n <= 0x200A) || n == 0x2028 || n == 0x2029 || n == 0x202F
    || n == 0x205F || n == 0x3000 || n == 0xFEFF
  }

  predicate IsBlank(s: string) {
    forall i | 0 <= i < |s| :: IsWhiteSpace(s[i])
  }

  predicate IsDigit(c: char) {
    '0' <= c <= '9'
  }

  predicate AllDigits(s: string) {
    forall i | 0 <= i < |s| :: IsDigit(s[i])
  }

  /** `s.startsWith(p)`. */
  predicate StartsWith(s: string, p: string) {
    p <= s
  }

  /** `s` without its leading white space. */
  function TrimStart(s: string): (r: string)
    ensures |r| <= |s| && r == s[|s| - |r|..]
    ensures forall i | 0 <= i < |s| - |r| :: IsWhiteSpace(s[i])
    ensures r != [] ==> !IsWhiteSpace(r[0])
  {
    if s != [] && IsWhiteSpace(s[0]) then TrimStart(s[1..]) else s
  }

  /** `s` without its trailing white space. */
  function TrimEnd(s: string): (r: string)
    ensures |r| <= |s| && r == s[..|r|]
    ensures forall i | |r| <= i < |s| :: IsWhiteSpace(s[i])
    ensures r != [] ==> !IsWhiteSpace(r[|r| - 1])
  {
    if s != [] && IsWhiteSpace(s[|s| - 1]) then TrimEnd(s[..|s| - 1]) else s
  }

  /** `s.trim()`: empty exactly when `s` is made of white space only. */
  function Trim(s: string): (r: string)
    ensures r == [] <==> IsBlank(s)
    ensures r != [] ==> !IsWhiteSpace(r[0]) && !IsWhiteSpace(r[|r| - 1])
  {
    var t := TrimStart(s);
    var r := TrimEnd(t);
    assert r != [] ==> r[0] == t[0];
    r
  }

  function DigitValue(c: char): nat
    requires IsDigit(c)
  {
    (c as int) - ('0' as int)
  }

  function DigitChar(d: nat): (c: char)
    requires d < 10
    ensures IsDigit(c) && DigitValue(c) == d
  {
    (('0' as int) + d) as char
  }

  /** The number a string of decimal digits denotes, most significant digit first. */
  function DigitsValue(ds: string): nat
    requires AllDigits(ds)
  {
    if ds == [] then 0 else 10 * DigitsValue(ds[..|ds| - 1]) + DigitValue(ds[|ds| - 1])
  }

  /** The longest prefix of `s` made of decimal digits. */
  function LeadingDigits(s: string): (r: string)
    ensures r <= s && AllDigits(r)
    ensures |r| < |s| ==> !IsDigit(s[|r|])
  {
    if s != [] && IsDigit(s[0]) then [s[0]] + LeadingDigits(s[1..]) else []
  }

  /** `String(n)` of a non-negative integer: its decimal numeral without leading zeros. */
  function NatToString(n: nat): (s: string)
    ensures s != [] && AllDigits(s) && DigitsValue(s) == n
    ensures s[0] == '0' ==> n == 0 && |s| == 1
  {
    if n < 10 then [DigitChar(n)]
    else
      var s := NatToString(n / 10) + [DigitChar(n % 10)];
      assert s[..|s| - 1] == NatToString(n / 10);
      s
  }

  /** `String(k)` of an integer. */
  function IntToString(k: int): (s: string)
  {
    if k < 0 then "-" + NatToString(-k) else NatToString(k)
  }

  /** `parseInt(s, 10)`; `None` stands for `NaN`. */
  function ParseInt(s: string): (r: Option<int>)
  {
    var t := TrimStart(s);
    var negative := t != [] && t[0] == '-';
    var u := if t != [] && (t[0] == '-' || t[0] == '+') then t[1..] else t;
    var ds := LeadingDigits(u);
    if ds == [] then None
    else
      var v: int := DigitsValue(ds);
      Some(if negative then -v else v)
  }

  /** `n` copies of `c`. */
  function Repeat(c: char, n: nat): (r: string)
    ensures |r| == n && forall i | 0 <= i < n :: r[i] == c
  {
    if n == 0 then [] else [c] + Repeat(c, n - 1)
  }

  /** `s.padStart(width, c)` for a one-character pad: never shorter than `s`, never truncating it. */
  function PadStart(s: string, width: nat, c: char): (r: string)
    ensures |r| == if |s| < width then width else |s|
    ensures r[|r| - |s|..] == s
    ensures forall i | 0 <= i < |r| - |s| :: r[i] == c
  {
    if |s| < width then Repeat(c, width - |s|) + s else s
  }

  /** Leading zeros do not change the value of a numeral. */
  lemma {:induction false} LeadingZerosValue(z: nat, ds: string)
    requires AllDigits(ds)
    ensures AllDigits(Repeat('0', z) + ds)
    ensures DigitsValue(Repeat('0', z) + ds) == DigitsValue(ds)
    decreases |ds|, z
  {
    var zs := Repeat('0', z);
    if ds == [] {
      assert zs + ds == zs;
      if z > 0 {
        LeadingZerosValue(z - 1, ds);
        assert zs[..|zs| - 1] == Repeat('0', z - 1) + ds;
      }
    } else {
      var init := ds[..|ds| - 1];
      LeadingZerosValue(z, init);
      assert (zs + ds)[..|zs + ds| - 1] == zs + init;
    }
  }

  /** Padding a numeral with zeros on the left keeps it a numeral of the same value. */
  lemma PadStartValue(ds: string, width: nat)
    requires AllDigits(ds)
    ensures AllDigits(PadStart(ds, width, '0'))
    ensures DigitsValue(PadStart(ds, width, '0')) == DigitsValue(ds)
  {
    if |ds| < width {
      LeadingZerosValue(width - |ds|, ds);
    }
  }

  /** A non-empty numeral followed by a non-digit parses to the numeral's value. */
  lemma {:induction false} ParseIntOfNumeral(ds: string, rest: string)
    requires ds != [] && AllDigits(ds)
    requires rest == [] || !IsDigit(rest[0])
    ensures ParseInt(ds + rest) == Some(DigitsValue(ds))
  {
    var s := ds + rest;
    assert s[0] == ds[0] && !IsWhiteSpace(s[0]);
    assert TrimStart(s) == s;
    LeadingDigitsOfNumeral(ds, rest);
  }

  lemma {:induction false} LeadingDigitsOfNumeral(ds: string, rest: string)
    requires AllDigits(ds)
    requires rest == [] || !IsDigit(rest[0])
    ensures LeadingDigits(ds + rest) == ds
  {
    if ds == [] {
      assert ds + rest == rest;
    } else {
      LeadingDigitsOfNumeral(ds[1..], rest);
      assert (ds + rest)[1..] == ds[1..] + rest;
    }
  }

  /** `parseInt(String(k), 10) == k`: the two conversions are inverse on integers. */
  lemma ParseIntOfIntToString(k: int)
    ensures ParseInt(IntToString(k)) == Some(k)
  {
    if k < 0 {
      var ds := NatToString(-k);
      var s := "-" + ds;
      assert TrimStart(s) == s;
      assert s[1..] == ds + [];
      LeadingDigitsOfNumeral(ds, []);
    } else {
      ParseIntOfNumeral(NatToString(k), []);
      assert NatToString(k) + [] == NatToString(k);
    }
  }
}
