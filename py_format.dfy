/**
 * The two integer-to-text conversions the Python SDK uses in values it
 * returns: `f"{x:04X}"` (upper-case hexadecimal, zero-padded to width four,
 * the sign counted in the width) and `str(x)` (decimal). Their partner is a
 * positional reader written separately, and each conversion is proved to be
 * read back to the number it came from.
 */
module PyFormat {

  /** The character of one digit below 16: '0'-'9', then 'A'-'F'. */
  function DigitChar(d: nat): (c: char)
    requires d < 16
  {
    if d < 10 then (48 + d) as char else (55 + d) as char
  }

  /** A digit character of `base` (upper-case letters above 9). */
  predicate IsDigit(c: char, base: nat)
  {
    ('0' <= c <= '9' && (c as int) - 48 < base) || ('A' <= c <= 'F' && (c as int) - 55 < base)
  }

  /** The value of a digit character; 0 for anything else. */
  function DigitValue(c: char): (d: nat)
    ensures d < 16
  {
    if '0' <= c <= '9' then (c as int) - 48
    else if 'A' <= c <= 'F' then (c as int) - 55
    else 0
  }

  /** The shortest digit string of n in `base`. */
  function Digits(n: nat, base: nat): (s: string)
    requires 2 <= base <= 16
    ensures |s| >= 1
    ensures forall i :: 0 <= i < |s| ==> IsDigit(s[i], base)
    ensures |s| > 1 ==> s[0] != '0'
    decreases n
  {
    if n < base then
      DigitIsDigit(n, base);
      [DigitChar(n)]
    else
      DivFacts(n, base);
      DigitIsDigit(n % base, base);
      Digits(n / base, base) + [DigitChar(n % base)]
  }

  /** The character of a digit below the base is a digit of that base, and only 0 gives '0'. */
  lemma DigitIsDigit(d: nat, base: nat)
    requires d < base <= 16
    ensures IsDigit(DigitChar(d), base)
    ensures DigitChar(d) == '0' <==> d == 0
  {
  }

  /** Division by the base of a number at least as large as the base. */
  lemma DivFacts(n: nat, base: nat)
    requires 2 <= base <= n
    ensures 1 <= n / base < n && n % base < base
    ensures n == n / base * base + n % base
  {
  }

  /** The positional value of a digit string, read left to right. */
  function Value(s: string, base: nat): (n: nat)
  {
    if s == [] then 0 else Value(s[..|s| - 1], base) * base + DigitValue(s[|s| - 1])
  }

  /** Reads an optional minus sign, then digits. */
  function ReadSigned(s: string, base: nat): (n: int)
  {
    if |s| > 0 && s[0] == '-' then 0 - Value(s[1..], base) else Value(s, base)
  }

  /** `s` preceded by enough '0' characters to be `width` long. */
  function PadZeros(s: string, width: nat): (r: string)
    ensures |r| == if |s| < width then width else |s|
    ensures r[|r| - |s|..] == s
    ensures forall i :: 0 <= i < |r| - |s| ==> r[i] == '0'
  {
    if |s| < width then seq(width - |s|, _ => '0') + s else s
  }

  /** Python's `f"{x:04X}"`. */
  function Format04X(x: int): (s: string)
    ensures |s| >= 4
    ensures s[0] == '-' <==> x < 0
    ensures forall i :: (if x < 0 then 1 else 0) <= i < |s| ==> IsDigit(s[i], 16)
  {
    if x >= 0 then PadZeros(Digits(x, 16), 4) else "-" + PadZeros(Digits(-x, 16), 3)
  }

  /** Python's `str(x)` for an int. */
  function Decimal(x: int): (s: string)
    ensures |s| >= 1
    ensures s[0] == '-' <==> x < 0
    ensures forall i :: (if x < 0 then 1 else 0) <= i < |s| ==> IsDigit(s[i], 10)
  {
    if x >= 0 then Digits(x, 10) else "-" + Digits(-x, 10)
  }

  lemma DigitRoundTrip(d: nat)
    requires d < 16
    ensures DigitValue(DigitChar(d)) == d
  {
  }

  /** The digits of n read back to n. */
  lemma {:induction false} ValueDigits(n: nat, base: nat)
    requires 2 <= base <= 16
    ensures Value(Digits(n, base), base) == n
    decreases n
  {
    var s := Digits(n, base);
    if n < base {
      assert s[..0] == [];
      DigitRoundTrip(n);
    } else {
      DivFacts(n, base);
      ValueDigits(n / base, base);
      assert s[..|s| - 1] == Digits(n / base, base);
      DigitRoundTrip(n % base);
    }
  }

  /** Leading zeros do not change the value. */
  lemma {:induction false} ValueLeadingZeros(k: nat, s: string, base: nat)
    ensures Value(seq(k, _ => '0') + s, base) == Value(s, base)
    decreases |s|
  {
    var z: string := seq(k, _ => '0');
    if s == [] {
      assert z + s == z;
      ValueZeros(k, base);
    } else {
      var t := z + s;
      assert t[..|t| - 1] == z + s[..|s| - 1];
      ValueLeadingZeros(k, s[..|s| - 1], base);
    }
  }

  /** A string of zeros is worth 0. */
  lemma {:induction false} ValueZeros(k: nat, base: nat)
    ensures Value(seq(k, _ => '0'), base) == 0
    decreases k
  {
    if k > 0 {
      var z: string := seq(k, _ => '0');
      assert z[..k - 1] == seq(k - 1, _ => '0');
      ValueZeros(k - 1, base);
    }
  }

  lemma PadValue(s: string, width: nat, base: nat)
    ensures Value(PadZeros(s, width), base) == Value(s, base)
  {
    if |s| < width {
      ValueLeadingZeros(width - |s|, s, base);
    }
  }

  /** `f"{x:04X}"` reads back to x, negative or not. */
  lemma Format04XRoundTrip(x: int)
    ensures ReadSigned(Format04X(x), 16) == x
  {
    var s := Format04X(x);
    if x >= 0 {
      PadValue(Digits(x, 16), 4, 16);
      ValueDigits(x, 16);
    } else {
      assert s[1..] == PadZeros(Digits(-x, 16), 3);
      PadValue(Digits(-x, 16), 3, 16);
      ValueDigits(-x, 16);
    }
  }

  /** `str(x)` reads back to x, negative or not. */
  lemma DecimalRoundTrip(x: int)
    ensures ReadSigned(Decimal(x), 10) == x
  {
    var s := Decimal(x);
    if x >= 0 {
      ValueDigits(x, 10);
    } else {
      assert s[1..] == Digits(-x, 10);
      ValueDigits(-x, 10);
    }
  }

  /** Different numbers are never formatted alike. */
  lemma Format04XInjective(x: int, y: int)
    requires Format04X(x) == Format04X(y)
    ensures x == y
  {
    Format04XRoundTrip(x);
    Format04XRoundTrip(y);
  }
}
