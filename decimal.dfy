/** Python's conversions between integers and decimal text, as the scripts use
    them: `str(n)` / f"{n}" to name files and `int(text)` to read timestamps and
    file-name stems back, and `int(x)` on a float, which truncates toward zero. */
module Decimal {
  import opened Wrappers

  predicate IsDigit(c: char) {
    '0' <= c <= '9'
  }

  function DigitValue(c: char): nat
    requires IsDigit(c)
  {
    (c as int) - ('0' as int)
  }

  function DigitChar(d: nat): (c: char)
    requires d < 10
    ensures IsDigit(c) && DigitValue(c) == d
  {
    (('0' as int) + d) as char
  }

  /** The characters below 0x80 that `int()` skips around a number: the ASCII
      whitespace and the four separator controls 0x1C..0x1F. Python also skips the
      Unicode spaces above 0x80 (0x85, 0xA0, 0x2000..0x200A and others); here they
      are not whitespace. */
  predicate IsSpace(c: char) {
    c == ' ' || c == '\t' || c == '\n' || c == '\r' || c == '\U{B}' || c == '\U{C}' ||
    ('\U{1C}' <= c <= '\U{1F}')
  }

  function TrimLeft(s: string): string {
    if s != [] && IsSpace(s[0]) then TrimLeft(s[1..]) else s
  }

  function TrimRight(s: string): string {
    if s != [] && IsSpace(s[|s| - 1]) then TrimRight(s[..|s| - 1]) else s
  }

  /** The body of a base-10 literal as `int()` accepts it: digits, where single
      underscores may separate two digits. */
  predicate IsDigitGroups(t: string) {
    && |t| > 0
    && IsDigit(t[0])
    && IsDigit(t[|t| - 1])
    && (forall k | 0 <= k < |t| :: IsDigit(t[k]) || t[k] == '_')
    && (forall k | 0 <= k < |t| - 1 :: t[k] == '_' ==> t[k + 1] != '_')
  }

  /** The value of the digits of t, skipping underscores. */
  function DigitsValue(t: string): nat
    requires forall k | 0 <= k < |t| :: IsDigit(t[k]) || t[k] == '_'
  {
    if t == [] then 0
    else if t[|t| - 1] == '_' then DigitsValue(t[..|t| - 1])
    else 10 * DigitsValue(t[..|t| - 1]) + DigitValue(t[|t| - 1])
  }

  /** `int(s)` on a string made of ASCII characters: Some(value) when Python accepts s,
      None where it raises ValueError. Python also reads the other Unicode decimal
      digits and skips the other Unicode spaces; here such text gives None. */
  function ParseInt(s: string): Option<int> {
    var t := TrimRight(TrimLeft(s));
    if |t| > 0 && (t[0] == '-' || t[0] == '+') then
      if IsDigitGroups(t[1..]) then
        var magnitude: int := DigitsValue(t[1..]);
        Some(if t[0] == '-' then -magnitude else magnitude)
      else None
    else if IsDigitGroups(t) then Some(DigitsValue(t))
    else None
  }

  /** `str(n)` for n >= 0: its decimal digits, no leading zero. */
  function FormatNat(n: nat): (s: string)
    ensures |s| > 0
    ensures forall k | 0 <= k < |s| :: IsDigit(s[k])
    ensures |s| > 1 ==> s[0] != '0'
  {
    if n < 10 then [DigitChar(n)] else FormatNat(n / 10) + [DigitChar(n % 10)]
  }

  /** `str(n)`: a minus sign for negative n, then the digits of |n|. */
  function FormatInt(n: int): (s: string) {
    if n < 0 then "-" + FormatNat(-n) else FormatNat(n)
  }

  lemma {:induction false} DigitsOfFormatNat(n: nat)
    ensures DigitsValue(FormatNat(n)) == n
  {
    var s := FormatNat(n);
    if n >= 10 {
      DigitsOfFormatNat(n / 10);
      assert s[..|s| - 1] == FormatNat(n / 10);
    }
  }

  /** Stripping on the left removes a prefix of whitespace and stops at the first
      character that is not whitespace. */
  lemma {:induction false} TrimLeftStrips(s: string)
    ensures var r := TrimLeft(s);
      && |r| <= |s| && r == s[|s| - |r|..]
      && (forall k | 0 <= k < |s| - |r| :: IsSpace(s[k]))
      && (r == [] || !IsSpace(r[0]))
    decreases |s|
  {
    if s != [] && IsSpace(s[0]) {
      TrimLeftStrips(s[1..]);
    }
  }

  /** Stripping on the right removes a suffix of whitespace and stops at the last
      character that is not whitespace. */
  lemma {:induction false} TrimRightStrips(s: string)
    ensures var r := TrimRight(s);
      && |r| <= |s| && r == s[..|r|]
      && (forall k | |r| <= k < |s| :: IsSpace(s[k]))
      && (r == [] || !IsSpace(r[|r| - 1]))
    decreases |s|
  {
    if s != [] && IsSpace(s[|s| - 1]) {
      TrimRightStrips(s[..|s| - 1]);
    }
  }

  lemma TrimKeepsEnds(s: string)
    requires |s| > 0 && !IsSpace(s[0]) && !IsSpace(s[|s| - 1])
    ensures TrimLeft(s) == s && TrimRight(s) == s
  {
  }

  lemma DigitsAreGroups(d: string)
    requires |d| > 0 && forall k | 0 <= k < |d| :: IsDigit(d[k])
    ensures IsDigitGroups(d)
  {
  }

  /** `int()` reads a run of digits as their value. */
  lemma ParseDigits(d: string)
    requires |d| > 0 && forall k | 0 <= k < |d| :: IsDigit(d[k])
    ensures ParseInt(d) == Some(DigitsValue(d))
  {
    DigitsAreGroups(d);
    TrimKeepsEnds(d);
    var t := TrimRight(TrimLeft(d));
    assert t == d;
    assert !(t[0] == '-' || t[0] == '+');
  }

  /** `int()` reads a minus sign and a run of digits as minus their value. */
  lemma ParseNegativeDigits(s: string)
    requires |s| > 1 && s[0] == '-' && forall k | 1 <= k < |s| :: IsDigit(s[k])
    ensures ParseInt(s) == Some(-(DigitsValue(s[1..]) as int))
  {
    TrimKeepsEnds(s);
    DigitsAreGroups(s[1..]);
  }

  lemma ParseFormatNat(m: nat)
    ensures ParseInt(FormatNat(m)) == Some(m)
  {
    ParseDigits(FormatNat(m));
    DigitsOfFormatNat(m);
  }

  lemma ParseNegated(m: nat)
    requires m > 0
    ensures ParseInt("-" + FormatNat(m)) == Some(-(m as int))
  {
    var d := FormatNat(m);
    var s := "-" + d;
    assert s[1..] == d;
    ParseNegativeDigits(s);
    DigitsOfFormatNat(m);
  }

  /** Reading back what `str` wrote gives the same integer, for every integer. */
  lemma ParseFormatInt(n: int)
    ensures ParseInt(FormatInt(n)) == Some(n)
  {
    if n < 0 {
      ParseNegated(-n);
    } else {
      ParseFormatNat(n);
    }
  }

  /** `int(x)` on a finite float: x truncated toward zero. */
  function TruncateToInt(x: real): (n: int)
    ensures x >= 0.0 ==> n as real <= x < n as real + 1.0
    ensures x < 0.0 ==> n as real - 1.0 < x <= n as real
  {
    if x >= 0.0 then x.Floor else -((-x).Floor)
  }
}
