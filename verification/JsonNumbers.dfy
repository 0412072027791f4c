/**
  Numbers as JavaScript writes them: a finite number is printed from its shortest decimal form
  (section 6.1.6.1.20 of ECMA-262), and read back by the grammar of section 6 of RFC 8259.
*/
module JsonNumbers {
  import opened Texts

  /** A finite number: digits times a power of ten, the digits without a trailing zero. */
  datatype Number = Zero(negative: bool) | Finite(negative: bool, digits: nat, exponent: int)

  predicate Shortest(n: Number) {
    n.Finite? ==> n.digits > 0 && n.digits % 10 != 0
  }

  const MINUS: CodeUnit := 45
  const PLUS: CodeUnit := 43
  const POINT: CodeUnit := 46
  const SMALL_E: CodeUnit := 101
  const LARGE_E: CodeUnit := 69

  predicate IsDigit(c: CodeUnit) { ZERO <= c < ZERO + 10 }

  // ----- printing -----

  function PrintExponent(e: int): Text {
    if e < 0 then [SMALL_E, MINUS] + Decimal(-e) else [SMALL_E, PLUS] + Decimal(e)
  }

  /** The digits, k of them, with the decimal point n places from their start. */
  function PrintMagnitude(digits: nat, exponent: int): Text {
    var d := Decimal(digits);
    var k, n := |d|, |d| + exponent;
    if k <= n <= 21 then d + Zeros(n - k)
    else if 0 < n <= 21 then d[..n] + [POINT] + d[n..]
    else if -6 < n <= 0 then [ZERO, POINT] + Zeros(-n) + d
    else if k == 1 then d + PrintExponent(n - 1)
    else d[..1] + [POINT] + d[1..] + PrintExponent(n - 1)
  }

  function PrintNumber(n: Number): Text {
    if n.Zero? then [ZERO]
    else (if n.negative then [MINUS] else []) + PrintMagnitude(n.digits, n.exponent)
  }

  // ----- reading -----

  /** The number of leading digits. */
  function Run(t: Text): (k: nat)
    ensures k <= |t| && Digits(t[..k]) && (k < |t| ==> !IsDigit(t[k]))
  {
    if t == [] || !IsDigit(t[0]) then 0
    else
      var k := 1 + Run(t[1..]);
      assert t[..k] == [t[0]] + t[1..][..k - 1];
      k
  }

  function Strip(digits: nat, exponent: int): (int, int)
    requires digits > 0
  {
    if digits % 10 == 0 then Strip(digits / 10, exponent + 1) else (digits, exponent)
  }

  lemma {:induction false} ValueNat(t: Text)
    requires Digits(t)
    ensures Value(t) >= 0
  {
    if t != [] {
      ValueNat(t[..|t| - 1]);
    }
  }

  function NumberOf(negative: bool, whole: Text, fraction: Text, exponent: int): Number
    requires Digits(whole) && Digits(fraction)
  {
    ValueNat(whole + fraction);
    var m := Value(whole + fraction);
    if m == 0 then Zero(negative)
    else
      var (d, e) := Strip(m, exponent - |fraction|);
      if d >= 0 then Finite(negative, d, e) else Zero(negative)
  }

  datatype Reading = Bad | Read(number: Number, rest: Text)

  /** `exp`: an optional exponent with an optional sign. */
  function ReadExponent(negative: bool, whole: Text, fraction: Text, t: Text): Reading
    requires Digits(whole) && Digits(fraction)
  {
    if t == [] || (t[0] != SMALL_E && t[0] != LARGE_E) then Read(NumberOf(negative, whole, fraction, 0), t)
    else
      var signed := |t| > 1 && (t[1] == MINUS || t[1] == PLUS);
      var u := if signed then t[2..] else t[1..];
      var k := Run(u);
      if k == 0 then Bad
      else Read(NumberOf(negative, whole, fraction, if signed && t[1] == MINUS then -Value(u[..k]) else Value(u[..k])), u[k..])
  }

  /** `int [ frac ] [ exp ]`, without superfluous leading zeros. */
  function ReadMagnitude(negative: bool, t: Text): Reading {
    var k := Run(t);
    if k == 0 || (k > 1 && t[0] == ZERO) then Bad
    else if k < |t| && t[k] == POINT then
      var j := Run(t[k + 1..]);
      if j == 0 then Bad else ReadExponent(negative, t[..k], t[k + 1..][..j], t[k + 1..][j..])
    else ReadExponent(negative, t[..k], [], t[k..])
  }

  function ReadNumber(t: Text): Reading {
    if t != [] && t[0] == MINUS then ReadMagnitude(true, t[1..]) else ReadMagnitude(false, t)
  }

  // ----- reading undoes printing -----

  /** What follows does not continue a number. */
  predicate Stops(rest: Text) {
    rest == [] || !(IsDigit(rest[0]) || rest[0] == POINT || rest[0] == SMALL_E || rest[0] == LARGE_E)
  }

  lemma {:induction false} RunIs(d: Text, rest: Text)
    requires Digits(d) && (rest == [] || !IsDigit(rest[0]))
    ensures Run(d + rest) == |d| && (d + rest)[..|d|] == d && (d + rest)[|d|..] == rest
  {
    if d == [] {
      assert d + rest == rest;
    } else {
      RunIs(d[1..], rest);
      assert (d + rest)[1..] == d[1..] + rest;
    }
  }

  lemma ValueAppendZero(t: Text)
    ensures Value(t + [ZERO]) == 10 * Value(t)
  {
    assert (t + [ZERO])[..|t|] == t;
  }

  lemma TimesTen(v: int, p: nat, q: nat)
    requires q == 10 * p
    ensures v * q == 10 * (v * p)
  {
  }

  lemma {:induction false} ValueShift(d: Text, k: nat)
    ensures Value(d + Zeros(k)) == Value(d) * Power10(k)
  {
    hide Value, Zeros;
    if k == 0 {
      NoZeros();
      assert d + [] == d;
    } else {
      ValueShift(d, k - 1);
      ZerosEnd(k - 1);
      assert d + Zeros(k) == (d + Zeros(k - 1)) + [ZERO];
      ValueAppendZero(d + Zeros(k - 1));
      TimesTen(Value(d), Power10(k - 1), Power10(k));
    }
  }

  lemma NoZeros()
    ensures Zeros(0) == []
  {
  }

  lemma {:induction false} StripIs(digits: nat, k: nat, exponent: int)
    requires digits > 0 && digits % 10 != 0
    ensures digits * Power10(k) > 0
    ensures Strip(digits * Power10(k), exponent) == (digits, exponent + k)
  {
    if k == 0 {
      assert digits * 1 == digits;
    } else {
      StripIs(digits, k - 1, exponent + 1);
      TimesTen(digits, Power10(k - 1), Power10(k));
      StripTen(digits * Power10(k - 1), exponent);
    }
  }

  lemma StripTen(x: nat, exponent: int)
    requires x > 0
    ensures Strip(10 * x, exponent) == Strip(x, exponent + 1)
  {
    assert 10 * x % 10 == 0 && 10 * x / 10 == x;
  }

  lemma {:induction false} DecimalLeads(n: nat)
    ensures Digits(Decimal(n)) && |Decimal(n)| >= 1
    ensures n > 0 ==> Decimal(n)[0] != ZERO
  {
    if n >= 10 {
      DecimalLeads(n / 10);
    }
  }

  lemma ZerosDigits(k: nat)
    ensures |Zeros(k)| == k && Digits(Zeros(k)) && forall i :: 0 <= i < k ==> Zeros(k)[i] == ZERO
  {
  }

  /** The parts of a printed number that its value depends on. */
  lemma NumberParts(n: Number, whole: Text, fraction: Text, k: nat, exponent: int)
    requires n.Finite? && Shortest(n) && Digits(whole) && Digits(fraction)
    requires Value(whole + fraction) == n.digits * Power10(k) && exponent - |fraction| == n.exponent - k
    ensures NumberOf(n.negative, whole, fraction, exponent) == n
  {
    StripIs(n.digits, k, exponent - |fraction|);
  }

  lemma ExponentRead(negative: bool, whole: Text, fraction: Text, e: int, rest: Text)
    requires Digits(whole) && Digits(fraction) && Stops(rest)
    ensures ReadExponent(negative, whole, fraction, PrintExponent(e) + rest) == Read(NumberOf(negative, whole, fraction, e), rest)
  {
    hide Decimal, NumberOf;
    var a: nat := if e < 0 then -e else e;
    DecimalLeads(a);
    DecimalValue(a);
    RunIs(Decimal(a), rest);
    var t := PrintExponent(e) + rest;
    assert t[2..] == Decimal(a) + rest;
  }

  lemma PlainRead(negative: bool, whole: Text, fraction: Text, rest: Text)
    requires Digits(whole) && Digits(fraction) && Stops(rest)
    ensures ReadExponent(negative, whole, fraction, rest) == Read(NumberOf(negative, whole, fraction, 0), rest)
  {
  }

  lemma WholeRead(negative: bool, whole: Text, rest: Text)
    requires Digits(whole) && |whole| > 0 && (|whole| > 1 ==> whole[0] != ZERO)
    requires rest == [] || !(IsDigit(rest[0]) || rest[0] == POINT)
    ensures ReadMagnitude(negative, whole + rest) == ReadExponent(negative, whole, [], rest)
  {
    RunIs(whole, rest);
  }

  lemma PointRead(negative: bool, whole: Text, fraction: Text, rest: Text)
    requires Digits(whole) && |whole| > 0 && (|whole| > 1 ==> whole[0] != ZERO)
    requires Digits(fraction) && |fraction| > 0 && (rest == [] || !IsDigit(rest[0]))
    ensures ReadMagnitude(negative, whole + [POINT] + fraction + rest) == ReadExponent(negative, whole, fraction, rest)
  {
    hide Run, Value, ReadExponent;
    var tail := [POINT] + fraction + rest;
    assert whole + tail == whole + [POINT] + fraction + rest;
    RunIs(whole, tail);
    assert tail[1..] == fraction + rest;
    assert (whole + tail)[|whole| + 1..] == tail[1..];
    RunIs(fraction, rest);
  }

  lemma WholeMagnitude(n: Number, zeros: nat, rest: Text)
    requires n.Finite? && Shortest(n) && Stops(rest) && n.exponent == zeros
    ensures ReadMagnitude(n.negative, Decimal(n.digits) + Zeros(zeros) + rest) == Read(n, rest)
  {
    hide ReadMagnitude, ReadExponent, NumberOf, Decimal, Zeros, Value, Power10;
    var d, z := Decimal(n.digits), Zeros(zeros);
    DecimalLeads(n.digits);
    DecimalValue(n.digits);
    ZerosDigits(zeros);
    ValueShift(d, zeros);
    assert (d + z) + [] == d + z;
    NumberParts(n, d + z, [], zeros, 0);
    WholeRead(n.negative, d + z, rest);
    PlainRead(n.negative, d + z, [], rest);
  }

  lemma PointMagnitude(n: Number, whole: Text, fraction: Text, rest: Text)
    requires n.Finite? && Shortest(n) && Stops(rest) && Digits(whole) && Digits(fraction)
    requires |whole| > 0 && (|whole| > 1 ==> whole[0] != ZERO) && |fraction| > 0
    requires Value(whole + fraction) == n.digits && -|fraction| == n.exponent
    ensures ReadMagnitude(n.negative, whole + [POINT] + fraction + rest) == Read(n, rest)
  {
    hide ReadMagnitude, ReadExponent, NumberOf, Value, Power10;
    NoPower();
    NumberParts(n, whole, fraction, 0, 0);
    PointRead(n.negative, whole, fraction, rest);
    PlainRead(n.negative, whole, fraction, rest);
  }

  lemma ExponentMagnitude(n: Number, e: int, rest: Text)
    requires n.Finite? && Shortest(n) && Stops(rest) && e == |Decimal(n.digits)| + n.exponent - 1
    ensures var d := Decimal(n.digits);
            ReadMagnitude(n.negative, (if |d| == 1 then d else d[..1] + [POINT] + d[1..]) + PrintExponent(e) + rest) == Read(n, rest)
  {
    hide ReadMagnitude, ReadExponent, NumberOf, Decimal, Value, PrintExponent, Power10;
    var d := Decimal(n.digits);
    DecimalLeads(n.digits);
    DecimalValue(n.digits);
    NoPower();
    ExponentStarts(e, rest);
    if |d| == 1 {
      assert d + [] == d;
      NumberParts(n, d, [], 0, e);
      WholeRead(n.negative, d, PrintExponent(e) + rest);
      ExponentRead(n.negative, d, [], e, rest);
      assert d + PrintExponent(e) + rest == d + (PrintExponent(e) + rest);
    } else {
      assert d[..1] + d[1..] == d;
      NumberParts(n, d[..1], d[1..], 0, e);
      PointRead(n.negative, d[..1], d[1..], PrintExponent(e) + rest);
      ExponentRead(n.negative, d[..1], d[1..], e, rest);
      assert d[..1] + [POINT] + d[1..] + PrintExponent(e) + rest == d[..1] + [POINT] + d[1..] + (PrintExponent(e) + rest);
    }
  }

  lemma MagnitudeRead(n: Number, rest: Text)
    requires n.Finite? && Shortest(n) && Stops(rest)
    ensures ReadMagnitude(n.negative, PrintMagnitude(n.digits, n.exponent) + rest) == Read(n, rest)
  {
    hide ReadMagnitude, Decimal, Zeros, Value, PrintExponent;
    var d := Decimal(n.digits);
    var k, p := |d|, |d| + n.exponent;
    var t := PrintMagnitude(n.digits, n.exponent);
    DecimalLeads(n.digits);
    DecimalValue(n.digits);
    if k <= p <= 21 {
      WholeMagnitude(n, p - k, rest);
    } else if 0 < p <= 21 {
      assert d[..p] + d[p..] == d;
      PointMagnitude(n, d[..p], d[p..], rest);
    } else if -6 < p <= 0 {
      var f := Zeros(-p) + d;
      ZerosDigits(-p);
      LeadingZeros(-p, d);
      PointMagnitude(n, [ZERO], f, rest);
      assert t + rest == [ZERO] + [POINT] + f + rest;
    } else {
      ExponentMagnitude(n, p - 1, rest);
    }
  }

  lemma NoPower()
    ensures Power10(0) == 1
  {
  }

  lemma LeadingZeros(k: nat, d: Text)
    requires Digits(d)
    ensures Value([ZERO] + (Zeros(k) + d)) == Value(d)
  {
    ZerosValue(k + 1, d);
    assert [ZERO] + (Zeros(k) + d) == Zeros(k + 1) + d;
  }

  lemma ExponentStarts(e: int, rest: Text)
    ensures PrintExponent(e) + rest != [] && (PrintExponent(e) + rest)[0] == SMALL_E
  {
  }

  /** A printed number is read back, and what follows it is left; a negative zero is printed as zero. */
  lemma NumberReadBack(n: Number, rest: Text)
    requires Shortest(n) && Stops(rest) && n != Zero(true)
    ensures ReadNumber(PrintNumber(n) + rest) == Read(n, rest)
  {
    hide ReadMagnitude, PrintMagnitude;
    if n.Zero? {
      ZeroRead(rest);
    } else {
      MagnitudeRead(n, rest);
      var t := PrintMagnitude(n.digits, n.exponent);
      if n.negative {
        assert ([MINUS] + t + rest)[1..] == t + rest;
      } else {
        assert [] + t == t;
        MagnitudeStarts(n.digits, n.exponent);
      }
    }
  }

  lemma ZeroRead(rest: Text)
    requires Stops(rest)
    ensures ReadMagnitude(false, [ZERO] + rest) == Read(Zero(false), rest)
  {
    hide Value;
    WholeRead(false, [ZERO], rest);
    LeadingZeros(0, []);
    assert Value([]) == 0 by {
      ValueEmpty();
    }
    assert Zeros(0) + [] == [] && [ZERO] + [] == [ZERO];
  }

  lemma ValueEmpty()
    ensures Value([]) == 0
  {
  }

  lemma MagnitudeStarts(digits: nat, exponent: int)
    ensures PrintMagnitude(digits, exponent) != [] && IsDigit(PrintMagnitude(digits, exponent)[0])
  {
    hide Decimal;
    DecimalLeads(digits);
  }
}
