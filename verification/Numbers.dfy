/** Number parsing and printing in four bases, with the sign kept beside a two's complement word. */
module Numbers {
  import opened Common
  import opened Radix

  datatype Base = Binary | Octal | Decimal | Hexadecimal

  function RadixOf(b: Base): (r: nat)
    ensures IsRadix(r)
  {
    match b case Binary => 2 case Octal => 8 case Decimal => 10 case Hexadecimal => 16
  }

  function Prefix(b: Base): string {
    match b case Binary => "0b" case Octal => "0o" case Decimal => "" case Hexadecimal => "0x"
  }

  // ----- Base detection -----

  datatype U64Parse = Parsed(value: nat) | Empty | InvalidDigit | PosOverflow

  function U64Digits(s: string, radix: nat, acc: nat): U64Parse {
    if s == [] then Parsed(acc)
    else if !IsDigit(s[0], radix) then InvalidDigit
    else if acc * radix + DigitOf(s[0]).value >= U64_LIMIT then PosOverflow
    else U64Digits(s[1..], radix, acc * radix + DigitOf(s[0]).value)
  }

  /** `u64::from_str_radix`. */
  function U64FromStrRadix(s: string, radix: nat): U64Parse {
    if s == [] then Empty
    else if s == "+" || s == "-" then InvalidDigit
    else if s[0] == '+' then U64Digits(s[1..], radix, 0)
    else U64Digits(s, radix, 0)
  }

  /** `0` followed by one of `letters`. */
  predicate Prefixed(s: string, letters: set<char>) {
    |s| >= 2 && s[0] == '0' && s[1] in letters
  }

  function DetectPrefixed(s: string, base: Base): Result<Base>
    requires |s| >= 2
  {
    var p := U64FromStrRadix(s[2..], RadixOf(base));
    if p.Parsed? || p.PosOverflow? then Ok(base) else Err
  }

  function Detect(s: string): Result<Base> {
    if s != [] && s[0] in {'+', '-'} then Detect(s[1..])
    else if Prefixed(s, {'b'}) then DetectPrefixed(s, Binary)
    else if Prefixed(s, {'o'}) then DetectPrefixed(s, Octal)
    else if Prefixed(s, {'x'}) then DetectPrefixed(s, Hexadecimal)
    else if FromStrRadix(s, 10).Ok? then Ok(Decimal)
    else if FromStrRadix(s, 16).Ok? then Ok(Hexadecimal)
    else Err
  }

  // ----- Numbers -----

  datatype NumberWithBase = NumberWithBase(number: nat, isNonnegative: bool, base: Base)

  predicate IsWord(n: NumberWithBase) { n.number < WORD }

  /** The 256-bit two's complement word of a signed number: `v` modulo 2^256. */
  function Word(v: int): (w: nat)
    requires -HALF <= v < HALF
    ensures w < WORD && (w == v || w == v + WORD)
  {
    if v >= 0 then v else v + WORD
  }

  /** `From<I256>`. */
  function FromSigned(v: int): NumberWithBase
    requires -HALF <= v < HALF
  {
    NumberWithBase(Word(v), v >= 0, Decimal)
  }

  /** Magnitude of a word read as a two's complement integer. */
  function Magnitude(number: nat): nat
    requires number < WORD
  {
    if number < HALF then number else WORD - number
  }

  function TrimZeros(s: string): string {
    if s != [] && s[0] == '0' then TrimZeros(s[1..]) else s
  }

  /** `NumberWithBase::format`: digits only, no sign, no prefix. */
  function Format(n: NumberWithBase): string
    requires IsWord(n)
  {
    TrimZeros(if n.base.Decimal? && !n.isNonnegative then Digits(Magnitude(n.number), 10)
              else Digits(n.number, RadixOf(n.base)))
  }

  /** The `Debug` form; `alternate` adds the base's prefix. */
  function Show(n: NumberWithBase, alternate: bool): string
    requires IsWord(n)
  {
    var prefix := if alternate then Prefix(n.base) else "";
    if n.number == 0 then prefix + "0"
    else if n.base.Decimal? && !n.isNonnegative then "-" + prefix + Format(n)
    else prefix + Format(n)
  }

  // ----- Parsing -----

  function ParseUint(s: string, base: Base): (r: Result<nat>)
    ensures r.Ok? ==> r.value < WORD
  {
    if Prefixed(s, {'x', 'X', 'o', 'O', 'b', 'B'}) then FromStrRadix(s[2..], RadixOf(base))
    else FromStrRadix(s, RadixOf(base))
  }

  /** `(!n).overflowing_add(1)`. */
  function Negated(n: nat): (r: nat)
    requires n < WORD
    ensures r < WORD && (n + r == WORD || n == r == 0)
  {
    if n == 0 then 0 else WORD - n
  }

  /** The word and whether it is non-negative; a negative one is stored in two's complement. */
  function ParseSigned(s: string, base: Base): (r: Result<(nat, bool)>)
    ensures r.Ok? ==> r.value.0 < WORD
  {
    if s != [] && s[0] == '-' then
      var n :- ParseUint(s[1..], base);
      Ok((Negated(n), false))
    else
      var n :- ParseUint(if s != [] && s[0] == '+' then s[1..] else s, base);
      Ok((n, true))
  }

  function ParseInt(s: string, base: Option<Base>): (r: Result<NumberWithBase>)
    ensures r.Ok? ==> IsWord(r.value)
  {
    var b :- if base.Some? then Ok(base.value) else Detect(s);
    var p :- ParseSigned(s, b);
    Ok(NumberWithBase(p.0, p.1, b))
  }

  /** `str::to_base` with the prefix added. */
  function Rebase(s: string, base: Base): Result<string> {
    var n :- ParseInt(s, None);
    Ok(Show(n.(base := base), true))
  }

  // ----- Round trip -----

  lemma {:induction false} PlainDigitsDetected(s: string, radix: nat, acc: nat)
    requires forall i :: 0 <= i < |s| ==> IsDigit(s[i], radix)
    ensures var p := U64Digits(s, radix, acc); p.Parsed? || p.PosOverflow?
  {
    if s != [] && acc * radix + DigitOf(s[0]).value < U64_LIMIT {
      PlainDigitsDetected(s[1..], radix, acc * radix + DigitOf(s[0]).value);
    }
  }

  lemma DigitsKept(n: nat, radix: nat)
    requires IsRadix(radix) && 0 < n < WORD
    ensures TrimZeros(Digits(n, radix)) == Digits(n, radix)
  {
    DigitsPlain(n, radix);
  }

  /** A prefixed digit string is detected as its base. */
  lemma PrefixedDetected(d: string, base: Base)
    requires !base.Decimal? && d != [] && forall i :: 0 <= i < |d| ==> IsDigit(d[i], RadixOf(base))
    ensures Detect(Prefix(base) + d) == Ok(base)
  {
    var s := Prefix(base) + d;
    assert s[2..] == d;
    assert IsDigit(d[0], RadixOf(base));
    PlainDigitsDetected(d, RadixOf(base), 0);
    assert U64FromStrRadix(d, RadixOf(base)) == U64Digits(d, RadixOf(base), 0);
  }

  lemma PrefixedParses(n: nat, base: Base)
    requires n < WORD && !base.Decimal?
    ensures ParseInt(Prefix(base) + Digits(n, RadixOf(base)), None) == Ok(NumberWithBase(n, true, base))
  {
    var d := Digits(n, RadixOf(base));
    var s := Prefix(base) + d;
    DigitsParse(n, RadixOf(base));
    DigitsPlain(n, RadixOf(base));
    PrefixedDetected(d, base);
    assert s[2..] == d && s[0] == '0';
    assert ParseUint(s, base) == Ok(n);
  }

  /** A plain decimal string is detected as decimal and read back. */
  lemma DecimalParses(n: nat)
    requires n < WORD
    ensures Detect(Digits(n, 10)) == Ok(Decimal)
    ensures ParseUint(Digits(n, 10), Decimal) == Ok(n)
    ensures Digits(n, 10)[0] !in {'+', '-'}
  {
    var s := Digits(n, 10);
    DigitsParse(n, 10);
    DigitsPlain(n, 10);
    assert IsDigit(s[0], 10);
    if |s| >= 2 {
      assert IsDigit(s[1], 10);
    }
  }

  lemma PlainParses(n: nat)
    requires n < WORD
    ensures ParseInt(Digits(n, 10), None) == Ok(NumberWithBase(n, true, Decimal))
  {
    DecimalParses(n);
  }

  lemma NegatedParses(m: nat)
    requires m < WORD
    ensures ParseInt("-" + Digits(m, 10), None) == Ok(NumberWithBase(Negated(m), false, Decimal))
  {
    DecimalParses(m);
    assert ("-" + Digits(m, 10))[1..] == Digits(m, 10);
  }

  /** Exactly the numbers whose word survives printing: the sign must agree with the word. */
  predicate SignConsistent(n: NumberWithBase) {
    n.isNonnegative || n.number == 0 || n.number >= HALF
  }

  predicate ShowsSign(n: NumberWithBase) {
    n.base.Decimal? && !n.isNonnegative && n.number != 0
  }

  lemma ShownPlain(n: NumberWithBase)
    requires IsWord(n) && !ShowsSign(n)
    ensures Show(n, true) == Prefix(n.base) + Digits(n.number, RadixOf(n.base))
  {
    if n.number != 0 {
      DigitsKept(n.number, RadixOf(n.base));
    }
  }

  lemma ShownNegative(n: NumberWithBase)
    requires IsWord(n) && ShowsSign(n)
    ensures Show(n, true) == "-" + Digits(Magnitude(n.number), 10)
  {
    DigitsKept(Magnitude(n.number), 10);
  }

  /** What the parser makes of a printed number. */
  lemma {:induction false} ShowParsesTo(n: NumberWithBase)
    requires IsWord(n)
    ensures ParseInt(Show(n, true), None)
         == Ok(if ShowsSign(n) then NumberWithBase(Negated(Magnitude(n.number)), false, Decimal)
               else NumberWithBase(n.number, true, n.base))
  {
    if ShowsSign(n) {
      ShownNegative(n);
      NegatedParses(Magnitude(n.number));
    } else {
      ShownPlain(n);
      if n.base.Decimal? {
        PlainParses(n.number);
        assert "" + Digits(n.number, 10) == Digits(n.number, 10);
      } else {
        PrefixedParses(n.number, n.base);
      }
    }
  }

  /**
   Parsing what was printed, with no base given, detects the base printed in and recovers the
   sign as shown; it recovers the word if and only if the base is not decimal or the sign is
   consistent with the word.
   */
  lemma {:induction false} ShowParses(n: NumberWithBase)
    requires IsWord(n)
    ensures ParseInt(Show(n, true), None).Ok?
    ensures var r := ParseInt(Show(n, true), None).value;
            && r.base == n.base
            && r.isNonnegative == !ShowsSign(n)
            && (r.number == n.number <==> !n.base.Decimal? || SignConsistent(n))
  {
    ShowParsesTo(n);
  }

  /** Minus 2^256 - 1 wraps to the word 1, prints as `-1` and is then read as minus one. */
  lemma NegativeWrapChanges()
    ensures var n := NumberWithBase(1, false, Decimal);
            && ParseInt("-" + Digits(WORD - 1, 10), None) == Ok(n)
            && Show(n, true) == "-1"
            && ParseInt("-1", None) == Ok(FromSigned(-1)) != Ok(n)
  {
    NegatedParses(WORD - 1);
    NegatedParses(1);
    assert Digits(1, 10) == "1";
    ShownNegative(NumberWithBase(1, false, Decimal));
  }

  /** Every 256-bit unsigned number comes back from every base. */
  lemma {:induction false} UnsignedRoundTrip(n: nat, base: Base)
    requires n < WORD
    ensures ParseInt(Show(NumberWithBase(n, true, base), true), None) == Ok(NumberWithBase(n, true, base))
  {
    ShowParses(NumberWithBase(n, true, base));
  }

  /** Signed decimal recovers word and sign over the whole signed range. */
  lemma {:induction false} SignedRoundTrip(v: int)
    requires -HALF <= v < HALF
    ensures ParseInt(Show(FromSigned(v), true), None) == Ok(FromSigned(v))
  {
    ShowParses(FromSigned(v));
  }

  function RebaseAll(s: string, bases: seq<Base>): Result<string> {
    if bases == [] then Ok(s)
    else
      var t :- RebaseAll(s, bases[..|bases| - 1]);
      Rebase(t, bases[|bases| - 1])
  }

  predicate AllDecimal(bases: seq<Base>) {
    forall i :: 0 <= i < |bases| ==> bases[i] == Decimal
  }

  ghost predicate ReadsAs(s: string, n: NumberWithBase) {
    ParseInt(s, None) == Ok(n)
  }

  /** What is read back after printing in another base. */
  function Rebased(n: NumberWithBase, base: Base): NumberWithBase {
    NumberWithBase(n.number, !ShowsSign(n.(base := base)), base)
  }

  function RebasedAll(n: NumberWithBase, bases: seq<Base>): NumberWithBase {
    if bases == [] then n else Rebased(RebasedAll(n, bases[..|bases| - 1]), bases[|bases| - 1])
  }

  lemma {:induction false} RebaseStep(s: string, n: NumberWithBase, base: Base)
    requires ReadsAs(s, n) && IsWord(n) && SignConsistent(n)
    ensures Rebase(s, base).Ok? && ReadsAs(Rebase(s, base).value, Rebased(n, base))
  {
    ShowParses(n.(base := base));
  }

  lemma {:induction false} RebasedForm(n: NumberWithBase, bases: seq<Base>)
    requires IsWord(n) && SignConsistent(n)
    ensures var m := RebasedAll(n, bases);
            && m.number == n.number
            && SignConsistent(m)
            && (bases != [] ==> m.base == bases[|bases| - 1])
            && (bases != [] ==> m.isNonnegative == (n.isNonnegative || n.number == 0 || !AllDecimal(bases)))
  {
    if bases != [] {
      var init := bases[..|bases| - 1];
      RebasedForm(n, init);
      assert AllDecimal(bases) <==> AllDecimal(init) && bases[|bases| - 1] == Decimal by {
        assert forall i :: 0 <= i < |init| ==> init[i] == bases[i];
      }
    }
  }

  lemma {:induction false} RebaseChain(s: string, n: NumberWithBase, bases: seq<Base>)
    requires ReadsAs(s, n) && IsWord(n) && SignConsistent(n)
    ensures RebaseAll(s, bases).Ok? && ReadsAs(RebaseAll(s, bases).value, RebasedAll(n, bases))
  {
    if bases != [] {
      var init := bases[..|bases| - 1];
      RebaseChain(s, n, init);
      RebasedForm(n, init);
      RebaseStep(RebaseAll(s, init).value, RebasedAll(n, init), bases[|bases| - 1]);
    }
  }

  /** Any chain of base changes keeps the value modulo 2^256; the sign survives while all are decimal. */
  lemma {:induction false} BaseChangesKeepValue(v: int, bases: seq<Base>)
    requires -HALF <= v < HALF
    ensures RebaseAll(Show(FromSigned(v), true), bases).Ok?
    ensures ReadsAs(RebaseAll(Show(FromSigned(v), true), bases).value,
                    NumberWithBase(Word(v), v >= 0 || !AllDecimal(bases),
                                   if bases == [] then Decimal else bases[|bases| - 1]))
  {
    SignedRoundTrip(v);
    RebaseChain(Show(FromSigned(v), true), FromSigned(v), bases);
    RebasedForm(FromSigned(v), bases);
  }
}
