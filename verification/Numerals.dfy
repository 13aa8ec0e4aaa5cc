/** Numbers as they are written in a base: digits from the left, letters in either case behind nine. */
module Numerals {
  import opened Common

  predicate IsHexDigit(c: Byte) { 0x30 <= c as int <= 0x39 || 0x41 <= c as int <= 0x46 || 0x61 <= c as int <= 0x66 }

  function DigitValue(c: Byte): (v: nat)
    requires IsHexDigit(c)
    ensures v < 16
  {
    if c as int <= 0x39 then c as int - 0x30 else if c as int <= 0x46 then c as int - 0x37 else c as int - 0x57
  }

  predicate AreHexDigits(ds: Text) { forall i :: 0 <= i < |ds| ==> IsHexDigit(ds[i]) }

  /** The number that digits write behind one already read. */
  function ValueOf(v: nat, ds: Text, base: nat): nat
    requires AreHexDigits(ds)
    decreases |ds|
  {
    if ds == [] then v else ValueOf(v * base + DigitValue(ds[0]), ds[1..], base)
  }

  function DigitFor(v: nat, capital: bool): (c: Byte)
    requires v < 16
    ensures IsHexDigit(c) && DigitValue(c) == v
  {
    if v < 10 then (0x30 + v) as char else if capital then (0x37 + v) as char else (0x57 + v) as char
  }

  /** The number written without leading zeros. */
  function Numeral(n: nat, base: nat, capital: bool): (ds: Text)
    requires 2 <= base <= 16
    ensures ds != [] && AreHexDigits(ds)
  {
    if n < base then [DigitFor(n, capital)] else Divided(n, base); Numeral(n / base, base, capital) + [DigitFor(n % base, capital)]
  }

  lemma {:induction false} ValueSnoc(v: nat, ds: Text, c: Byte, base: nat)
    requires AreHexDigits(ds) && IsHexDigit(c)
    ensures AreHexDigits(ds + [c]) && ValueOf(v, ds + [c], base) == ValueOf(v, ds, base) * base + DigitValue(c)
    decreases |ds|
  {
    if ds == [] {
      assert ds + [c] == [c];
    } else {
      assert (ds + [c])[1..] == ds[1..] + [c];
      ValueSnoc(v * base + DigitValue(ds[0]), ds[1..], c, base);
    }
  }

  lemma Divided(n: nat, base: nat)
    requires 2 <= base <= n
    ensures n == n / base * base + n % base && n / base < n
  {}

  /** A number is read as it was written. */
  lemma {:induction false} NumeralReads(n: nat, base: nat, capital: bool)
    requires 2 <= base <= 16
    ensures ValueOf(0, Numeral(n, base, capital), base) == n
  {
    if n < base {
      assert Numeral(n, base, capital)[1..] == [];
    } else {
      var q := n / base;
      Divided(n, base);
      NumeralReads(q, base, capital);
      ValueSnoc(0, Numeral(q, base, capital), DigitFor(n % base, capital), base);
    }
  }

  /** The digits that the components share. */
  lemma SharedDigits(c: Byte)
    ensures IsHex(c) <==> IsHexDigit(c)
    ensures IsHex(c) ==> FromHex(c) == DigitValue(c)
  {}
}
