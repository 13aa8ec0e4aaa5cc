/** The numbers that the parser accepts, and those of section 6 of RFC 8259. */
module JsonNumbers {
  import opened Common
  import opened JsonSpec
  import opened JsonRoundTrip

  datatype Exponent = Exponent(mark: Byte, sign: Option<Byte>, digits: Text)

  /** The parts of a number; the fraction without its point. */
  datatype Number = Number(minus: bool, whole: Text, fraction: Option<Text>, exponent: Option<Exponent>)

  predicate AreDigits(ds: Text) { forall i :: 0 <= i < |ds| ==> ds[i] in "0123456789" }

  /** No leading zero. */
  predicate IsWhole(ds: Text) { ds != [] && AreDigits(ds) && (ds[0] == '0' ==> ds == "0") }

  function ExponentText(x: Exponent): Text { [x.mark] + ((if x.sign.Some? then [x.sign.value] else []) + x.digits) }

  function FractionText(f: Option<Text>): Text { if f.Some? then ['.'] + f.value else [] }

  function EndText(f: Option<Text>, x: Option<Exponent>): Text { FractionText(f) + if x.Some? then ExponentText(x.value) else [] }

  function NumberText(n: Number): Text { (if n.minus then ['-'] else []) + (n.whole + EndText(n.fraction, n.exponent)) }

  predicate IsMark(x: Exponent) { x.mark in "eE" && (x.sign.Some? ==> x.sign.value in "+-") && AreDigits(x.digits) }

  /** A number of the standard: digits behind a point, and in an exponent. */
  predicate IsStandard(n: Number) {
    && IsWhole(n.whole) && (n.fraction.Some? ==> n.fraction.value != [] && AreDigits(n.fraction.value))
    && (n.exponent.Some? ==> IsMark(n.exponent.value) && n.exponent.value.digits != [])
  }

  /** A zero with an exponent right behind it. */
  predicate IsScaledZero(n: Number) { n.whole == "0" && n.fraction.None? && n.exponent.Some? }

  /** A number of the parser: it needs no digits behind a point or a sign, and refuses scaled zeros. */
  predicate IsAccepted(n: Number) {
    && IsWhole(n.whole) && (n.fraction.Some? ==> AreDigits(n.fraction.value))
    && (n.exponent.Some? ==> IsMark(n.exponent.value) && (n.exponent.value.sign.None? ==> n.exponent.value.digits != []))
    && !IsScaledZero(n)
  }

  lemma StandardNumbers(n: Number)
    requires IsStandard(n)
    ensures IsAccepted(n) <==> !IsScaledZero(n)
  {}

  /** The characters that go on with a number or spoil it. */
  predicate IsNumeric(c: Byte) { c in "0123456789.-+eE" }

  // ----- runs of digits -----

  lemma {:induction false} SkipIs(t: Text, pos: nat, q: nat)
    requires Terminated(t) && pos <= q < |t| && (forall i :: pos <= i < q ==> IsDigit(t[i])) && !IsDigit(t[q])
    ensures SkipDigits(t, pos) == q
    decreases q - pos
  {
    if pos < q { SkipIs(t, pos + 1, q); }
  }

  /** Digits in a part that takes any. */
  lemma {:induction false} DigitsRun(t: Text, pos: nat, q: nat, n: nat)
    requires Terminated(t) && pos <= q < |t| && (forall i :: pos <= i < q ==> IsDigit(t[i])) && !IsDigit(t[q])
    requires n == 3 || n == 4 || n == 6
    ensures ScanNumber(t, pos, n) == ScanNumber(t, q, n)
    decreases q - pos
  {
    if pos < q {
      if t[pos] == '0' { DigitsRun(t, pos + 1, q, n); } else { SkipIs(t, pos + 1, q); }
    }
  }

  /** The first digits of a whole number or of an exponent. */
  lemma FirstDigits(t: Text, pos: nat, q: nat, n: nat)
    requires Terminated(t) && pos < q < |t| && (forall i :: pos <= i < q ==> IsDigit(t[i])) && !IsDigit(t[q])
    ensures n <= 1 && t[pos] != '0' ==> ScanNumber(t, pos, n) == ScanNumber(t, q, 3)
    ensures n == 5 ==> ScanNumber(t, pos, n) == ScanNumber(t, q, 6)
  {
    SkipIs(t, pos + 1, q);
    if n == 5 && t[pos] == '0' { DigitsRun(t, pos + 1, q, 6); }
  }

  lemma DigitsAt(t: Text, pos: nat, ds: Text)
    requires WordAt(t, pos, ds) && AreDigits(ds)
    ensures pos + |ds| <= |t| && forall i :: pos <= i < pos + |ds| ==> IsDigit(t[i])
  {
    forall i | pos <= i < pos + |ds| ensures IsDigit(t[i]) { WordHas(t, pos, ds, i - pos); }
  }

  /** The characters other than digits that a number goes on with. */
  lemma Steps(t: Text, pos: nat)
    requires Terminated(t) && pos < |t|
    ensures t[pos] == '-' ==> pos + 1 < |t| && ScanNumber(t, pos, 0) == ScanNumber(t, pos + 1, 1)
    ensures t[pos] == '.' ==> pos + 1 < |t| && ScanNumber(t, pos, 2) == ScanNumber(t, pos, 3) == ScanNumber(t, pos + 1, 4)
    ensures t[pos] in "eE" ==> pos + 1 < |t| && ScanNumber(t, pos, 3) == ScanNumber(t, pos, 4) == ScanNumber(t, pos + 1, 5)
    ensures t[pos] in "+-" ==> pos + 1 < |t| && ScanNumber(t, pos, 5) == ScanNumber(t, pos + 1, 6)
    ensures t[pos] == '0' ==> pos + 1 < |t| && ScanNumber(t, pos, 0) == ScanNumber(t, pos, 1) == ScanNumber(t, pos + 1, 2)
  {}

  // ----- accepted numbers are read -----

  /** Where a number may stop, it does. */
  lemma Stops(t: Text, pos: nat, n: nat)
    requires Terminated(t) && pos < |t| && !IsNumeric(t[pos]) && (n == 2 || n == 3 || n == 4 || n == 6)
    ensures ScanNumber(t, pos, n) == Some(pos)
  {}

  lemma ExponentReads(t: Text, pos: nat, n: nat, x: Exponent)
    requires Terminated(t) && WordAt(t, pos, ExponentText(x)) && (n == 3 || n == 4) && IsMark(x) && (x.sign.None? ==> x.digits != [])
    requires pos + |ExponentText(x)| < |t| && !IsNumeric(t[pos + |ExponentText(x)|])
    ensures ScanNumber(t, pos, n) == Some(pos + |ExponentText(x)|)
  {
    hide ScanNumber;
    hide WordAt;
    hide IsNumeric;
    var e, k := pos + |ExponentText(x)|, pos + 1 + if x.sign.Some? then 1 else 0;
    var sign := if x.sign.Some? then [x.sign.value] else [];
    WordSplit(t, pos, [x.mark], sign + x.digits);
    WordSplit(t, pos + 1, sign, x.digits);
    WordHas(t, pos, [x.mark], 0);
    DigitsAt(t, k, x.digits);
    Stops(t, e, 6);
    MarkIsNumeric(t[e]);
    Steps(t, pos);
    if x.sign.Some? {
      WordHas(t, pos + 1, sign, 0);
      Steps(t, pos + 1);
      DigitsRun(t, k, e, 6);
    } else {
      FirstDigits(t, k, e, 5);
    }
  }

  lemma FractionReads(t: Text, pos: nat, n: nat, f: Option<Text>)
    requires Terminated(t) && WordAt(t, pos, FractionText(f)) && (n == 2 || n == 3) && (f.Some? ==> AreDigits(f.value))
    requires pos + |FractionText(f)| < |t| && !IsDigit(t[pos + |FractionText(f)|])
    ensures ScanNumber(t, pos, n) == ScanNumber(t, pos + |FractionText(f)|, if f.Some? then 4 else n)
  {
    hide ScanNumber;
    hide WordAt;
    if f.Some? {
      WordHas(t, pos, FractionText(f), 0);
      WordSplit(t, pos, ['.'], f.value);
      DigitsAt(t, pos + 1, f.value);
      Steps(t, pos);
      DigitsRun(t, pos + 1, pos + |FractionText(f)|, 4);
    }
  }

  /** What stands behind the whole number. */
  lemma EndReads(t: Text, pos: nat, n: nat, f: Option<Text>, x: Option<Exponent>)
    requires Terminated(t) && WordAt(t, pos, EndText(f, x)) && (n == 2 || n == 3) && (f.Some? ==> AreDigits(f.value))
    requires (x.Some? ==> IsMark(x.value) && (x.value.sign.None? ==> x.value.digits != [])) && (n == 2 && f.None? ==> x.None?)
    requires pos + |EndText(f, x)| < |t| && !IsNumeric(t[pos + |EndText(f, x)|])
    ensures ScanNumber(t, pos, n) == Some(pos + |EndText(f, x)|)
  {
    hide IsMark;
    hide ScanNumber;
    hide WordAt;
    hide IsNumeric;
    hide FractionText;
    var k := pos + |FractionText(f)|;
    WordSplit(t, pos, FractionText(f), if x.Some? then ExponentText(x.value) else []);
    if x.Some? {
      WordHas(t, k, ExponentText(x.value), 0);
      MarkIs(x.value);
    }
    MarkIsNumeric(t[k]);
    FractionReads(t, pos, n, f);
    var m := if f.Some? then 4 else n;
    if x.Some? { ExponentReads(t, k, m, x.value); } else { Stops(t, k, m); }
  }

  lemma MarkIsNumeric(c: Byte)
    ensures IsDigit(c) ==> IsNumeric(c) && c !in "eE"
    ensures c == '.' ==> IsNumeric(c)
    ensures c in ".eE" ==> !IsDigit(c)
  {}

  lemma MarkIs(x: Exponent)
    requires IsMark(x)
    ensures x.mark in "eE"
  {}

  lemma WholeReads(t: Text, k: nat, s: nat, whole: Text)
    requires Terminated(t) && s <= 1 && WordAt(t, k, whole) && IsWhole(whole) && k + |whole| < |t| && !IsDigit(t[k + |whole|])
    ensures ScanNumber(t, k, s) == ScanNumber(t, k + |whole|, if whole == "0" then 2 else 3)
  {
    hide ScanNumber;
    hide WordAt;
    DigitsAt(t, k, whole);
    WordHas(t, k, whole, 0);
    if whole == "0" { Steps(t, k); } else { FirstDigits(t, k, k + |whole|, s); }
  }

  lemma MinusReads(t: Text, pos: nat, minus: bool)
    requires Terminated(t) && pos < |t| && (minus ==> t[pos] == '-')
    ensures minus ==> pos + 1 < |t|
    ensures ScanNumber(t, pos, 0) == if minus then ScanNumber(t, pos + 1, 1) else ScanNumber(t, pos, 0)
  {
    hide ScanNumber;
    Steps(t, pos);
  }

  /** An accepted number is read up to its end wherever it stands before some other character. */
  lemma NumberReads(t: Text, pos: nat, n: Number)
    requires Terminated(t) && WordAt(t, pos, NumberText(n)) && IsAccepted(n)
    requires pos + |NumberText(n)| < |t| && !IsNumeric(t[pos + |NumberText(n)|])
    ensures ScanNumber(t, pos, 0) == Some(pos + |NumberText(n)|)
  {
    hide IsMark;
    hide ScanNumber;
    hide WordAt;
    hide IsNumeric;
    hide EndText;
    hide IsWhole;
    var minus := if n.minus then ['-'] else [];
    var rest := EndText(n.fraction, n.exponent);
    var k, q := pos + |minus|, pos + |minus| + |n.whole|;
    WordSplit(t, pos, minus, n.whole + rest);
    WordSplit(t, k, n.whole, rest);
    if n.minus { WordHas(t, pos, minus, 0); }
    EndStarts(n.fraction, n.exponent);
    if rest != [] { WordHas(t, q, rest, 0); }
    MarkIsNumeric(t[q]);
    MinusReads(t, pos, n.minus);
    WholeReads(t, k, k - pos, n.whole);
    EndReads(t, q, if n.whole == "0" then 2 else 3, n.fraction, n.exponent);
  }

  lemma EndStarts(f: Option<Text>, x: Option<Exponent>)
    requires x.Some? ==> IsMark(x.value)
    ensures EndText(f, x) != [] ==> EndText(f, x)[0] in ".eE"
  {}

  // ----- what is read is an accepted number -----

  predicate MayFollow(n: nat, c: Byte) {
    match n
    case 0 => c == '-' || IsDigit(c)
    case 1 => IsDigit(c)
    case 2 => c == '.' || !IsNumeric(c)
    case 3 => IsDigit(c) || c in ".eE" || !IsNumeric(c)
    case 4 => IsDigit(c) || c in "eE" || !IsNumeric(c)
    case 5 => IsDigit(c) || c in "+-"
    case 6 => IsDigit(c) || !IsNumeric(c)
    case _ => false
  }

  lemma Refuses(t: Text, pos: nat, n: nat)
    requires Terminated(t) && pos < |t| && n <= 7 && ScanNumber(t, pos, n).Some?
    ensures MayFollow(n, t[pos])
  {}

  lemma {:induction false} SkipAll(t: Text, pos: nat) returns (q: nat)
    requires Terminated(t) && pos < |t|
    ensures pos <= q < |t| && (forall i :: pos <= i < q ==> IsDigit(t[i])) && !IsDigit(t[q])
    ensures AreDigits(t[pos..q])
    decreases |t| - pos
  {
    q := pos;
    if IsDigit(t[pos]) { q := SkipAll(t, pos + 1); }
    forall i | 0 <= i < q - pos ensures t[pos..q][i] in "0123456789" { DigitIs(t[pos + i]); }
  }

  lemma DigitIs(c: Byte)
    ensures IsDigit(c) <==> c in "0123456789"
  {}

  /** The digits of an exponent: some where there is no sign, any behind one. */
  lemma ScaleScanned(t: Text, k: nat, n: nat) returns (q: nat)
    requires Terminated(t) && k < |t| && ((n == 5 && IsDigit(t[k])) || n == 6) && ScanNumber(t, k, n).Some?
    ensures k <= q < |t| && ScanNumber(t, k, n) == Some(q) && AreDigits(t[k..q]) && (n == 5 ==> k < q) && !IsNumeric(t[q])
  {
    hide ScanNumber;
    hide IsNumeric;
    q := SkipAll(t, k);
    if n == 6 { DigitsRun(t, k, q, 6); } else { FirstDigits(t, k, q, 5); }
    Refuses(t, q, 6);
    Stops(t, q, 6);
  }

  lemma ExponentScanned(t: Text, pos: nat, n: nat) returns (x: Exponent)
    requires Terminated(t) && pos < |t| && (n == 3 || n == 4) && t[pos] in "eE" && ScanNumber(t, pos, n).Some?
    ensures IsMark(x) && (x.sign.None? ==> x.digits != [])
    ensures var e := ScanNumber(t, pos, n).value; ExponentText(x) == t[pos..e] && !IsNumeric(t[e])
  {
    hide ScanNumber;
    hide IsNumeric;
    hide AreDigits;
    Steps(t, pos);
    Refuses(t, pos + 1, 5);
    Steps(t, pos + 1);
    var signed := t[pos + 1] in "+-";
    var k := pos + 1 + if signed then 1 else 0;
    var q := ScaleScanned(t, k, if signed then 6 else 5);
    x := Exponent(t[pos], if signed then Some(t[pos + 1]) else None, t[k..q]);
    assert ExponentText(x) == t[pos..q];
  }

  lemma FractionScanned(t: Text, pos: nat, n: nat) returns (f: Option<Text>, k: nat)
    requires Terminated(t) && pos < |t| && (n == 2 || n == 3) && !IsDigit(t[pos])
    ensures pos <= k < |t| && FractionText(f) == t[pos..k] && !IsDigit(t[k]) && (f.Some? ==> AreDigits(f.value))
    ensures ScanNumber(t, pos, n) == ScanNumber(t, k, if f.Some? then 4 else n) && (f.None? ==> t[k] != '.')
  {
    hide ScanNumber;
    if t[pos] == '.' {
      Steps(t, pos);
      k := SkipAll(t, pos + 1);
      DigitsRun(t, pos + 1, k, 4);
      f := Some(t[pos + 1..k]);
    } else {
      f, k := None, pos;
    }
  }

  lemma EndScanned(t: Text, pos: nat, n: nat) returns (f: Option<Text>, x: Option<Exponent>)
    requires Terminated(t) && pos < |t| && (n == 2 || n == 3) && !IsDigit(t[pos]) && ScanNumber(t, pos, n).Some?
    ensures (f.Some? ==> AreDigits(f.value)) && (n == 2 && f.None? ==> x.None?)
    ensures x.Some? ==> IsMark(x.value) && (x.value.sign.None? ==> x.value.digits != [])
    ensures var e := ScanNumber(t, pos, n).value; EndText(f, x) == t[pos..e] && !IsNumeric(t[e])
  {
    hide ScanNumber;
    hide IsNumeric;
    hide IsMark;
    hide FractionText;
    hide ExponentText;
    var k: nat;
    f, k := FractionScanned(t, pos, n);
    var m := if f.Some? then 4 else n;
    Refuses(t, k, m);
    x := None;
    if t[k] in "eE" {
      MarksAreNumeric(t[k]);
      var y := ExponentScanned(t, k, m);
      x := Some(y);
      assert t[pos..ScanNumber(t, pos, n).value] == t[pos..k] + t[k..ScanNumber(t, pos, n).value];
    } else {
      Stops(t, k, m);
      assert t[pos..k] + [] == t[pos..k];
    }
  }

  lemma MarksAreNumeric(c: Byte)
    requires c in "eE"
    ensures IsNumeric(c) && c != '.'
  {}

  lemma WholeScanned(t: Text, k: nat, s: nat) returns (q: nat, m: nat)
    requires Terminated(t) && k < |t| && s <= 1 && IsDigit(t[k]) && ScanNumber(t, k, s).Some?
    ensures k < q < |t| && !IsDigit(t[q]) && IsWhole(t[k..q]) && m == (if t[k..q] == "0" then 2 else 3)
    ensures ScanNumber(t, k, s) == ScanNumber(t, q, m)
  {
    hide ScanNumber;
    hide IsNumeric;
    if t[k] == '0' {
      Steps(t, k);
      q, m := k + 1, 2;
      Refuses(t, q, m);
      DigitIsNumeric(t[q]);
      assert t[k..q] == "0";
    } else {
      q := SkipAll(t, k);
      m := 3;
      FirstDigits(t, k, q, s);
    }
  }

  /** What the scan takes for a number is an accepted one, with no character behind it that could go on with it. */
  lemma NumberScanned(t: Text, pos: nat) returns (n: Number)
    requires Terminated(t) && pos < |t| && ScanNumber(t, pos, 0).Some?
    ensures IsAccepted(n)
    ensures var e := ScanNumber(t, pos, 0).value; NumberText(n) == t[pos..e] && !IsNumeric(t[e])
  {
    hide ScanNumber;
    hide IsNumeric;
    hide IsMark;
    hide EndText;
    hide IsWhole;
    Refuses(t, pos, 0);
    Steps(t, pos);
    var k := if t[pos] == '-' then pos + 1 else pos;
    Refuses(t, k, k - pos);
    var q, m := WholeScanned(t, k, k - pos);
    var f, x := EndScanned(t, q, m);
    var e := ScanNumber(t, q, m).value;
    n := Number(t[pos] == '-', t[k..q], f, x);
    assert t[pos..k] == if n.minus then ['-'] else [];
    assert t[pos..e] == t[pos..k] + (t[k..q] + t[q..e]);
  }

  lemma DigitIsNumeric(c: Byte)
    ensures IsDigit(c) ==> IsNumeric(c) && c != '.'
  {}

  lemma ScaledEnd(n: Number)
    requires IsStandard(n) && IsScaledZero(n)
    ensures var rest := EndText(n.fraction, n.exponent); rest != [] && rest[0] in "eE"
  {}

  /** A scaled zero is refused, although the standard has it. */
  lemma ScaledZeroRefused(t: Text, pos: nat, n: Number)
    requires Terminated(t) && WordAt(t, pos, NumberText(n)) && IsStandard(n) && IsScaledZero(n)
    ensures pos < |t| && ScanNumber(t, pos, 0).None?
  {
    hide WordAt;
    hide ScanNumber;
    hide IsNumeric;
    hide EndText;
    var minus := if n.minus then ['-'] else [];
    var rest := EndText(n.fraction, n.exponent);
    ScaledEnd(n);
    WordSplit(t, pos, minus, n.whole + rest);
    WordSplit(t, pos + |minus|, n.whole, rest);
    if n.minus { WordHas(t, pos, minus, 0); }
    WordHas(t, pos + |minus|, n.whole, 0);
    WordHas(t, pos + |minus| + 1, rest, 0);
    WordIs(t, pos + |minus| + 1, rest);
    MarksAreNumeric(rest[0]);
    Steps(t, pos);
    Steps(t, pos + |minus|);
    if ScanNumber(t, pos, 0).Some? { Refuses(t, pos + |minus| + 1, 2); }
  }
}
