/**
 * The PHP string built-ins the core relies on: trim, strtolower, strtoupper,
 * str_contains, substr($s, 0, $n), the decimal form of an int and the (int)
 * cast of a string. PHP strings are byte strings; here a string is a
 * sequence of chars and the case mappings are the ASCII ones PHP 8 uses.
 */
module PhpStrings {
  import opened Common

  /** The characters trim() strips by default: " \t\n\r\0\x0B". */
  predicate IsTrimChar(c: char) {
    c == ' ' || c == '\t' || c == '\n' || c == '\r' || c as int == 0 || c as int == 0x0B
  }

  function TrimLeft(s: string): (r: string)
    ensures |r| <= |s|
    ensures r == [] || !IsTrimChar(r[0])
  {
    if |s| > 0 && IsTrimChar(s[0]) then TrimLeft(s[1..]) else s
  }

  function TrimRight(s: string): (r: string)
    ensures |r| <= |s|
    ensures r == [] || !IsTrimChar(r[|r| - 1])
  {
    if |s| > 0 && IsTrimChar(s[|s| - 1]) then TrimRight(s[..|s| - 1]) else s
  }

  /** ltrim keeps a suffix and drops only trim characters. */
  lemma {:induction false} TrimLeftIsSuffix(s: string)
    ensures var r := TrimLeft(s);
      r == s[|s| - |r|..] && forall i | 0 <= i < |s| - |r| :: IsTrimChar(s[i])
  {
    if |s| > 0 && IsTrimChar(s[0]) {
      var t := s[1..];
      TrimLeftIsSuffix(t);
      var r := TrimLeft(t);
      assert t[|t| - |r|..] == s[|s| - |r|..];
      forall i | 0 <= i < |s| - |r| ensures IsTrimChar(s[i]) {
        if i > 0 {
          assert s[i] == t[i - 1];
        }
      }
    }
  }

  /** rtrim keeps a prefix and drops only trim characters. */
  lemma {:induction false} TrimRightIsPrefix(s: string)
    ensures var r := TrimRight(s);
      r == s[..|r|] && forall i | |r| <= i < |s| :: IsTrimChar(s[i])
  {
    if |s| > 0 && IsTrimChar(s[|s| - 1]) {
      var t := s[..|s| - 1];
      TrimRightIsPrefix(t);
      var r := TrimRight(t);
      assert t[..|r|] == s[..|r|];
      forall i | |r| <= i < |s| ensures IsTrimChar(s[i]) {
        if i < |s| - 1 {
          assert s[i] == t[i];
        }
      }
    }
  }

  /** trim($s) */
  function Trim(s: string): (r: string)
    ensures |r| <= |s|
    ensures r == [] || (!IsTrimChar(r[0]) && !IsTrimChar(r[|r| - 1]))
  {
    var l := TrimLeft(s);
    TrimRightIsPrefix(l);
    TrimRight(l)
  }

  /** trim($s) === '' */
  predicate IsBlank(s: string) { Trim(s) == "" }

  /** Non-empty, with no trim character at either end: what trim() leaves of a non-blank string. */
  predicate IsTrimmedNonBlank(s: string) {
    s != [] && !IsTrimChar(s[0]) && !IsTrimChar(s[|s| - 1])
  }

  /** A string with no trim character at either end is its own trim. */
  lemma TrimOfTrimmed(s: string)
    requires s == [] || (!IsTrimChar(s[0]) && !IsTrimChar(s[|s| - 1]))
    ensures Trim(s) == s
  {
  }

  lemma TrimIdempotent(s: string)
    ensures Trim(Trim(s)) == Trim(s)
  {
    TrimOfTrimmed(Trim(s));
  }

  /** A string is blank exactly when every character is a trim character. */
  lemma {:induction false} BlankIffAllTrimChars(s: string)
    ensures IsBlank(s) <==> forall i | 0 <= i < |s| :: IsTrimChar(s[i])
  {
    var l := TrimLeft(s);
    TrimLeftIsSuffix(s);
    TrimRightIsPrefix(l);
    if l == [] {
      assert forall i | 0 <= i < |s| :: IsTrimChar(s[i]);
    } else {
      assert !IsTrimChar(s[|s| - |l|]);
      assert !IsTrimChar(l[0]);
    }
  }

  function LowerChar(c: char): char {
    if 'A' <= c <= 'Z' then (c as int + 32) as char else c
  }

  function UpperChar(c: char): char {
    if 'a' <= c <= 'z' then (c as int - 32) as char else c
  }

  /** Lower-casing a trimmed string leaves it trimmed. */
  lemma LowerOfTrimmedIsTrimmed(s: string)
    ensures Trim(Lower(Trim(s))) == Lower(Trim(s))
  {
    var t := Trim(s);
    var l := Lower(t);
    if t != [] {
      assert l[0] == LowerChar(t[0]) && l[|l| - 1] == LowerChar(t[|t| - 1]);
    }
    TrimOfTrimmed(l);
  }

  predicate IsUpperAscii(c: char) { 'A' <= c <= 'Z' }
  predicate IsLowerAscii(c: char) { 'a' <= c <= 'z' }

  /**
   * strtolower($s) (ASCII, as in PHP 8): no letter A-Z remains, each one
   * becomes its lower-case letter, and every other character is kept.
   */
  function Lower(s: string): (r: string)
    ensures |r| == |s|
    ensures forall i | 0 <= i < |r| :: !IsUpperAscii(r[i])
    ensures forall i | 0 <= i < |s| :: IsUpperAscii(s[i]) ==> IsLowerAscii(r[i]) && r[i] as int == s[i] as int + 32
    ensures forall i | 0 <= i < |s| :: !IsUpperAscii(s[i]) ==> r[i] == s[i]
  {
    seq(|s|, i requires 0 <= i < |s| => LowerChar(s[i]))
  }

  /**
   * strtoupper($s) (ASCII, as in PHP 8): no letter a-z remains, each one
   * becomes its upper-case letter, and every other character is kept.
   */
  function Upper(s: string): (r: string)
    ensures |r| == |s|
    ensures forall i | 0 <= i < |r| :: !IsLowerAscii(r[i])
    ensures forall i | 0 <= i < |s| :: IsLowerAscii(s[i]) ==> IsUpperAscii(r[i]) && r[i] as int == s[i] as int - 32
    ensures forall i | 0 <= i < |s| :: !IsLowerAscii(s[i]) ==> r[i] == s[i]
  {
    seq(|s|, i requires 0 <= i < |s| => UpperChar(s[i]))
  }

  predicate OccursAt(s: string, sub: string, i: int)
    requires 0 <= i <= |s| - |sub|
  {
    s[i..i + |sub|] == sub
  }

  /** str_contains($haystack, $needle) */
  predicate Contains(haystack: string, needle: string) {
    exists i | 0 <= i <= |haystack| - |needle| :: OccursAt(haystack, needle, i)
  }

  /** substr($s, 0, $n) for a non-negative length $n. */
  function Prefix(s: string, n: nat): (r: string)
    ensures |r| == Min(n, |s|) && r == s[..|r|]
  {
    s[..Min(n, |s|)]
  }

  predicate IsDigit(c: char) { '0' <= c <= '9' }

  function DigitChar(d: int): (c: char)
    requires 0 <= d < 10
    ensures IsDigit(c) && c as int - '0' as int == d
  {
    (d + '0' as int) as char
  }

  /** The decimal digits of a natural number. */
  function NatToString(n: nat): (r: string)
    ensures |r| > 0 && forall i | 0 <= i < |r| :: IsDigit(r[i])
  {
    if n < 10 then [DigitChar(n)] else NatToString(n / 10) + [DigitChar(n % 10)]
  }

  /** (string)$i for an int, and the '%d' of sprintf. */
  function IntToString(i: int): (r: string)
    ensures |r| > 0
  {
    if i < 0 then "-" + NatToString(-i) else NatToString(i)
  }

  /** The value of a string made only of decimal digits. */
  function DecimalValue(d: string): nat
    requires forall i | 0 <= i < |d| :: IsDigit(d[i])
  {
    if d == [] then 0
    else
      var last := d[|d| - 1];
      assert IsDigit(last);
      DecimalValue(d[..|d| - 1]) * 10 + (last as int - '0' as int)
  }

  /** The longest prefix of decimal digits. */
  function DigitPrefix(s: string): (r: string)
    ensures |r| <= |s| && r == s[..|r|]
    ensures forall i | 0 <= i < |r| :: IsDigit(r[i])
    ensures |r| < |s| ==> !IsDigit(s[|r|])
  {
    if s != [] && IsDigit(s[0]) then [s[0]] + DigitPrefix(s[1..]) else []
  }

  /** The white space PHP allows in front of a numeric string. */
  predicate IsNumericSpace(c: char) {
    c == ' ' || c == '\t' || c == '\n' || c == '\r' || c as int == 0x0B || c as int == 0x0C
  }

  function SkipNumericSpace(s: string): (r: string)
    ensures |r| <= |s|
  {
    if s != [] && IsNumericSpace(s[0]) then SkipNumericSpace(s[1..]) else s
  }

  /**
   * (int)$s for a string: leading white space, an optional sign and the
   * leading decimal digits; a string without leading digits casts to 0.
   */
  function IntCast(s: string): int {
    var t := SkipNumericSpace(s);
    if t != [] && t[0] == '-' then 0 - DecimalValue(DigitPrefix(t[1..])) as int
    else if t != [] && t[0] == '+' then DecimalValue(DigitPrefix(t[1..]))
    else DecimalValue(DigitPrefix(t))
  }

  lemma {:induction false} DecimalValueOfNatToString(n: nat)
    ensures DecimalValue(NatToString(n)) == n
  {
    if n >= 10 {
      var d := NatToString(n);
      assert d[..|d| - 1] == NatToString(n / 10);
      DecimalValueOfNatToString(n / 10);
    }
  }

  lemma {:induction false} DigitPrefixOfDigits(d: string)
    requires forall i | 0 <= i < |d| :: IsDigit(d[i])
    ensures DigitPrefix(d) == d
  {
    if d != [] {
      DigitPrefixOfDigits(d[1..]);
    }
  }

  /** Casting the decimal form of an int back to int gives the int. */
  lemma IntCastOfIntToString(i: int)
    ensures IntCast(IntToString(i)) == i
  {
    var n: nat := if i < 0 then -i else i;
    var d := NatToString(n);
    var s := IntToString(i);
    DigitPrefixOfDigits(d);
    DecimalValueOfNatToString(n);
    assert IsDigit(d[0]);
    assert SkipNumericSpace(s) == s;
    if i < 0 {
      assert s == "-" + d && s[1..] == d;
      assert IntCast(s) == 0 - DecimalValue(d) as int;
    } else {
      assert s == d && s[0] != '-' && s[0] != '+';
      assert IntCast(s) == DecimalValue(d);
    }
  }
}
