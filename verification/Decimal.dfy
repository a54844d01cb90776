/** Decimal printing and parsing of unsigned numbers, as strconv does it. */
module Decimal {
  import opened Text

  const MAX_UID := 0xFFFF_FFFF

  type Uid = n: nat | n <= MAX_UID

  function DigitChar(d: nat): (c: char)
    requires d < 10
    ensures IsDigit(c) && DigitValue(c) == d
  {
    (d + '0' as int) as char
  }

  function DigitValue(c: char): (d: nat)
    requires IsDigit(c)
    ensures d < 10
  {
    c as int - '0' as int
  }

  predicate AllDigits(s: string) {
    forall i :: 0 <= i < |s| ==> IsDigit(s[i])
  }

  /** strconv.FormatUint(n, 10). */
  function Dec(n: nat): (s: string)
    ensures s != [] && AllDigits(s)
  {
    if n < 10 then [DigitChar(n)] else Dec(n / 10) + [DigitChar(n % 10)]
  }

  function Value(s: string): nat
    requires AllDigits(s)
  {
    if s == [] then 0 else 10 * Value(s[..|s| - 1]) + DigitValue(s[|s| - 1])
  }

  /** strconv.ParseUint(s, 10, 32): digits only, and the value fits 32 bits. */
  function ParseUint32(s: string): Option<Uid> {
    if s == [] || !AllDigits(s) || Value(s) > MAX_UID then None else Some(Value(s))
  }

  lemma {:induction false} ValueOfDec(n: nat)
    ensures Value(Dec(n)) == n
  {
    if n >= 10 {
      var s := Dec(n);
      assert s[..|s| - 1] == Dec(n / 10);
      ValueOfDec(n / 10);
    }
  }

  lemma ParseOfDec(n: Uid)
    ensures ParseUint32(Dec(n)) == Some(n)
  {
    ValueOfDec(n);
  }

  /** Decimal digits, the last one that of the unit, and no leading zero. */
  lemma DecReads(n: nat)
    ensures n < 10 ==> Dec(n) == [(n + '0' as int) as char]
    ensures n >= 10 ==> Dec(n) == Dec(n / 10) + [(n % 10 + '0' as int) as char]
    ensures n > 0 ==> Dec(n)[0] != '0'
  {
    if n >= 10 {
      DecReads(n / 10);
    }
  }

  /** Exactly the digit strings with a value of at most 32 bits are numbers. */
  lemma ParseMeans(s: string)
    ensures ParseUint32(s).Some? <==> s != "" && (forall i :: 0 <= i < |s| ==> '0' <= s[i] <= '9') && AllDigits(s) && Value(s) < 0x1_0000_0000
    ensures ParseUint32(s).Some? ==> ParseUint32(s).value == Value(s)
  {
  }

  lemma DecInjective(m: nat, n: nat)
    requires Dec(m) == Dec(n)
    ensures m == n
  {
    ValueOfDec(m);
    ValueOfDec(n);
  }

  lemma DecFree(n: nat, c: char)
    requires !IsDigit(c)
    ensures Free(Dec(n), c)
  {
  }

  /** A numeral strconv would print: no sign, no leading zero, in range. */
  predicate Canonical(s: string) {
    ParseUint32(s).Some? && s == Dec(ParseUint32(s).value)
  }

  lemma CanonicalIffPrinted(s: string)
    ensures Canonical(s) <==> exists n: Uid :: s == Dec(n)
  {
    forall n: Uid | s == Dec(n) ensures Canonical(s) {
      ParseOfDec(n);
    }
    if Canonical(s) {
      var n: Uid := ParseUint32(s).value;
      assert s == Dec(n);
    }
  }

  lemma {:induction false} DecLength(n: nat, k: nat, bound: nat)
    requires k >= 1 && n < bound && bound == Pow10(k)
    ensures |Dec(n)| <= k
  {
    if n >= 10 {
      DecLength(n / 10, k - 1, Pow10(k - 1));
    }
  }

  function Pow10(k: nat): nat {
    if k == 0 then 1 else 10 * Pow10(k - 1)
  }

  /** digits of internal/bus/provenance.go: fills a ten-byte buffer from the right.
      Ten bytes are enough for every 32-bit number, so the index never underflows. */
  method Digits(n: Uid) returns (s: string)
    ensures s == Dec(n)
  {
    if n == 0 {
      return "0";
    }
    assert n < Pow10(10);
    DecLength(n, 10, Pow10(10));
    var buf := new char[10];
    var i, rest: nat := 10, n;
    hide Pow10, DigitChar;
    while rest > 0
      invariant 0 <= i <= 10
      invariant (if rest > 0 then Dec(rest) else []) + buf[i..] == Dec(n)
    {
      ghost var before := buf[i..];
      i := i - 1;
      buf[i] := DigitChar(rest % 10);
      assert buf[i..] == [DigitChar(rest % 10)] + before;
      rest := rest / 10;
    }
    s := buf[i..];
    assert [] + s == s;
  }
}
