/** 256-bit words as digit strings. */
module Radix {
  import opened Common

  const WORD := 0x1_0000000000000000_0000000000000000_0000000000000000_0000000000000000
  const HALF := 0x8000000000000000_0000000000000000_0000000000000000_0000000000000000

  function DigitOf(c: char): Option<nat> {
    if '0' <= c <= '9' then Some(c as int - '0' as int)
    else if 'a' <= c <= 'z' then Some(c as int - 'a' as int + 10)
    else if 'A' <= c <= 'Z' then Some(c as int - 'A' as int + 10)
    else None
  }

  function DigitChar(d: nat): (c: char)
    requires d < 36
    ensures DigitOf(c) == Some(d)
  {
    if d < 10 then (d + '0' as int) as char else (d - 10 + 'a' as int) as char
  }

  predicate IsDigit(c: char, radix: nat) {
    DigitOf(c).Some? && DigitOf(c).value < radix
  }

  /** The word parser: `_` is skipped, the empty string is zero, overflow is an error. */
  function FromStrRadix(s: string, radix: nat): (r: Result<nat>)
    ensures r.Ok? ==> r.value < WORD
  {
    if s == [] then Ok(0)
    else
      var p :- FromStrRadix(s[..|s| - 1], radix);
      var c := s[|s| - 1];
      if c == '_' then Ok(p)
      else if !IsDigit(c, radix) then Err
      else
        var v := p * radix + DigitOf(c).value;
        if v >= WORD then Err else Ok(v)
  }

  /** The radices numbers are printed in. */
  predicate IsRadix(radix: nat) { radix == 2 || radix == 8 || radix == 10 || radix == 16 }

  function Digits(n: nat, radix: nat): (s: string)
    requires IsRadix(radix)
    ensures s != []
    decreases n
  {
    if n < radix then [DigitChar(n)]
    else
      assert n / radix < n by { Quotient(n, radix); }
      Digits(n / radix, radix) + [DigitChar(n % radix)]
  }

  lemma Quotient(n: nat, radix: nat)
    requires IsRadix(radix) && radix <= n
    ensures 0 < n / radix < n
    ensures n / radix * radix + n % radix == n
  {
    if radix == 2 {
    } else if radix == 8 {
    } else if radix == 10 {
    } else {
      assert radix == 16;
    }
  }

  lemma ParseStep(s: string, c: char, radix: nat, p: nat, v: nat)
    requires FromStrRadix(s, radix) == Ok(p) && IsDigit(c, radix) && c != '_'
    requires v == p * radix + DigitOf(c).value && v < WORD
    ensures FromStrRadix(s + [c], radix) == Ok(v)
  {
    assert (s + [c])[..|s|] == s;
  }

  /** Reading back the digits of a word gives the word. */
  lemma {:induction false} DigitsParse(n: nat, radix: nat)
    requires IsRadix(radix) && n < WORD
    ensures FromStrRadix(Digits(n, radix), radix) == Ok(n)
    decreases n
  {
    if n < radix {
      ParseStep("", DigitChar(n), radix, 0, n);
      assert "" + [DigitChar(n)] == [DigitChar(n)];
    } else {
      Quotient(n, radix);
      DigitsParse(n / radix, radix);
      ParseStep(Digits(n / radix, radix), DigitChar(n % radix), radix, n / radix, n);
    }
  }

  /** Digits are plain and start with no zero. */
  lemma {:induction false} DigitsPlain(n: nat, radix: nat)
    requires IsRadix(radix)
    ensures forall i :: 0 <= i < |Digits(n, radix)| ==> IsDigit(Digits(n, radix)[i], radix)
    ensures n > 0 ==> Digits(n, radix)[0] != '0'
    decreases n
  {
    if n >= radix {
      Quotient(n, radix);
      DigitsPlain(n / radix, radix);
    }
  }
}
