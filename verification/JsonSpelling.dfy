/** Which text exactly a number and a string have, apart from how they are read back. */
module JsonSpelling {
  import opened Texts
  import opened JsonNumbers
  import opened JsonStrings

  // ----- powers and decimals -----

  lemma {:induction false} PowerPositive(a: nat)
    ensures Power10(a) >= 1
  {
    if a > 0 {
      PowerPositive(a - 1);
    }
  }

  lemma {:induction false} PowerSum(a: nat, b: nat)
    ensures Power10(a + b) == Power10(a) * Power10(b)
  {
    if a > 0 {
      PowerSum(a - 1, b);
      assert Power10(a + b) == 10 * Power10(a - 1 + b);
      assert 10 * (Power10(a - 1) * Power10(b)) == (10 * Power10(a - 1)) * Power10(b);
    }
  }

  lemma {:induction false} PowerGrows(a: nat, b: nat)
    requires a <= b
    ensures Power10(a) <= Power10(b)
    decreases b
  {
    if a < b {
      PowerGrows(a, b - 1);
      PowerPositive(b - 1);
    }
  }

  /** The number of decimal digits. */
  lemma {:induction false} DecimalSize(n: nat)
    requires n > 0
    ensures |Decimal(n)| >= 1 && Power10(|Decimal(n)| - 1) <= n < Power10(|Decimal(n)|)
  {
    if n >= 10 {
      DecimalSize(n / 10);
    } else {
      assert Power10(1) == 10 * Power10(0);
    }
  }

  /** Scaled by a power of ten it has as many digits more. */
  lemma ScaledSize(n: nat, a: nat)
    requires n > 0
    ensures Power10(|Decimal(n)| - 1 + a) <= n * Power10(a) < Power10(|Decimal(n)| + a)
  {
    hide Decimal, Power10;
    DecimalSize(n);
    PowerPositive(a);
    PowerSum(|Decimal(n)| - 1, a);
    PowerSum(|Decimal(n)|, a);
    ScaleMono(Power10(|Decimal(n)| - 1), n, Power10(a));
    ScaleStrict(n, Power10(|Decimal(n)|), Power10(a));
  }

  lemma ScaleMono(x: int, y: int, z: int)
    requires x <= y && z >= 0
    ensures x * z <= y * z
  {
  }

  lemma ScaleStrict(x: int, y: int, z: int)
    requires x < y && z >= 1
    ensures x * z < y * z
  {
  }

  /** So it reaches a power of ten exactly if it has enough digits. */
  lemma ReachesExactly(n: nat, a: nat, b: nat)
    requires n > 0
    ensures n * Power10(a) < Power10(b) <==> |Decimal(n)| + a <= b
  {
    hide Decimal, Power10;
    ScaledSize(n, a);
    if |Decimal(n)| + a <= b {
      PowerGrows(|Decimal(n)| + a, b);
    } else {
      PowerGrows(b, |Decimal(n)| - 1 + a);
    }
  }

  lemma {:induction false} DecimalScaled(n: nat, a: nat)
    requires n > 0
    ensures n * Power10(a) > 0 && Decimal(n * Power10(a)) == Decimal(n) + Zeros(a)
  {
    hide Decimal, Zeros;
    if a == 0 {
      NoZeros();
      assert n * Power10(0) == n && Decimal(n) + [] == Decimal(n);
    } else {
      DecimalScaled(n, a - 1);
      var m := n * Power10(a - 1);
      TimesTen(n, Power10(a - 1), Power10(a));
      DecimalTen(m);
      ZerosEnd(a - 1);
      assert Decimal(n) + Zeros(a) == (Decimal(n) + Zeros(a - 1)) + [ZERO];
    }
  }

  lemma DecimalTen(m: nat)
    requires m > 0
    ensures Decimal(10 * m) == Decimal(m) + [ZERO]
  {
    assert 10 * m / 10 == m && 10 * m % 10 == 0;
  }

  /** n / 10^f and n % 10^f */
  function Quotient(n: nat, f: nat): nat {
    PowerPositive(f);
    Divided(n, Power10(f)).0
  }

  function Remainder(n: nat, f: nat): nat {
    PowerPositive(f);
    Divided(n, Power10(f)).1
  }

  function Divided(n: nat, p: nat): (nat, nat)
    requires p >= 1
  {
    (n / p, n % p)
  }

  lemma QuotientStep(n: nat, f: nat)
    requires f > 0
    ensures Quotient(n, f) == Quotient(n / 10, f - 1)
    ensures Remainder(n, f) == Remainder(n / 10, f - 1) * 10 + n % 10
  {
    PowerPositive(f - 1);
    DivideTwice(n, Power10(f - 1));
  }

  lemma NoCut(n: nat)
    ensures Quotient(n, 0) == n && Remainder(n, 0) == 0
  {
    assert n / 1 == n && n % 1 == 0;
  }

  /** Cutting digits off the end divides by a power of ten. */
  lemma {:induction false} DecimalCut(n: nat, d: Text, f: nat)
    requires d == Decimal(n) && f < |d|
    ensures d[..|d| - f] == Decimal(Quotient(n, f))
    ensures Digits(d[|d| - f..]) && Value(d[|d| - f..]) == Remainder(n, f)
    decreases f
  {
    hide Quotient, Remainder;
    if f == 0 {
      NoCut(n);
      assert d[..|d|] == d && d[|d|..] == [];
    } else {
      var c := Decimal(n / 10);
      assert d == c + [Digit(n % 10)];
      DecimalCut(n / 10, c, f - 1);
      QuotientStep(n, f);
      assert d[..|d| - f] == c[..|c| - (f - 1)];
      var tail := d[|d| - f..];
      assert tail == c[|c| - (f - 1)..] + [Digit(n % 10)];
      assert tail[..|tail| - 1] == c[|c| - (f - 1)..];
    }
  }

  lemma DivideTwice(n: nat, p: nat)
    requires p >= 1
    ensures n / (10 * p) == n / 10 / p && n % (10 * p) == n / 10 % p * 10 + n % 10
  {
    var q := n / 10;
    assert n == 10 * q + n % 10;
    var a, b := q / p, q % p;
    assert q == a * p + b;
    var low := 10 * b + n % 10;
    assert n == a * (10 * p) + low by {
      assert 10 * (a * p) == a * (10 * p);
    }
    assert 0 <= low < 10 * p;
    DivisionUnique(n, 10 * p, a, low);
  }

  lemma DivisionUnique(n: int, d: int, q: int, r: int)
    requires d > 0 && n == q * d + r && 0 <= r < d
    ensures n / d == q && n % d == r
  {
    var q', r' := n / d, n % d;
    assert q' * d + r' == n && 0 <= r' < d;
    if q' < q {
      NextMultiple(q', q, d);
    } else if q' > q {
      NextMultiple(q, q', d);
    }
  }

  lemma NextMultiple(x: int, y: int, d: int)
    requires x < y && d > 0
    ensures x * d + d <= y * d
  {
    ScaleMono(x + 1, y, d);
    assert (x + 1) * d == x * d + d;
  }

  // ----- numbers -----

  /** |x| lies in [10^-6, 10^21), for x = digits * 10^exponent. */
  predicate Plain(n: Number)
    requires n.Finite?
  {
    if n.exponent >= 0 then n.digits * Power10(n.exponent) < Power10(21)
    else n.digits * Power10(6) >= Power10(-n.exponent) && n.digits < Power10(21 - n.exponent)
  }

  /** The decimal digits of |x|, which is whole. */
  predicate WholeForm(n: Number, t: Text)
    requires n.Finite? && n.exponent >= 0
  {
    var x := n.digits * Power10(n.exponent);
    x >= 0 && t == Decimal(x)
  }

  /** The decimal digits of the whole part, a point, and as many more as the exponent says. */
  ghost predicate PointForm(n: Number, t: Text)
    requires n.Finite? && n.exponent < 0
  {
    exists fraction :: |fraction| == -n.exponent && Digits(fraction) && Value(fraction) == Remainder(n.digits, -n.exponent)
                       && t == Decimal(Quotient(n.digits, -n.exponent)) + [POINT] + fraction
  }

  /** The first digit, a point and the others if there are any, and the signed power of ten of the first digit. */
  predicate ExponentForm(n: Number, t: Text)
    requires n.Finite?
  {
    var d := Decimal(n.digits);
    var e := |d| - 1 + n.exponent;
    |d| >= 1 && t == (if |d| == 1 then d else [d[0], POINT] + d[1..]) + (if e >= 0 then [SMALL_E, PLUS] + Decimal(e) else [SMALL_E, MINUS] + Decimal(-e))
  }

  lemma PlainExactly(n: Number)
    requires n.Finite? && n.digits > 0
    ensures Plain(n) <==> -6 < |Decimal(n.digits)| + n.exponent <= 21
  {
    hide Decimal, Power10;
    if n.exponent >= 0 {
      ReachesExactly(n.digits, n.exponent, 21);
      DecimalLeads(n.digits);
    } else {
      ReachesExactly(n.digits, 6, -n.exponent);
      ReachesExactly(n.digits, 0, 21 - n.exponent);
      assert n.digits * Power10(0) == n.digits by {
        NoPower();
      }
    }
  }

  lemma PointIsPrinted(n: Number)
    requires n.Finite? && n.digits > 0 && n.exponent < 0
    ensures var d := Decimal(n.digits); var p := |d| + n.exponent;
            if p > 0 then PointForm(n, d[..p] + [POINT] + d[p..]) else PointForm(n, [ZERO, POINT] + Zeros(-p) + d)
  {
    hide Power10, Decimal, Value, Zeros, Quotient, Remainder;
    var d, f := Decimal(n.digits), -n.exponent;
    var p := |d| - f;
    DecimalLeads(n.digits);
    if p > 0 {
      DecimalCut(n.digits, d, f);
    } else {
      SmallQuotient(n.digits, f);
      ZerosDigits(-p);
      ZerosValue(-p, d);
      DecimalValue(n.digits);
      var fraction := Zeros(-p) + d;
      assert [ZERO, POINT] + Zeros(-p) + d == [ZERO] + [POINT] + fraction;
      NullDigit();
    }
  }

  lemma NullDigit()
    ensures Decimal(0) == [ZERO]
  {
  }

  lemma SmallQuotient(n: nat, f: nat)
    requires n > 0 && |Decimal(n)| <= f
    ensures Quotient(n, f) == 0 && Remainder(n, f) == n
  {
    hide Decimal, Power10;
    DecimalSize(n);
    PowerGrows(|Decimal(n)|, f);
    SmallDivided(n, Power10(f));
  }

  lemma SmallDivided(n: nat, p: nat)
    requires n < p
    ensures Divided(n, p) == (0, n)
  {
  }

  lemma DigitsHaveNoE(t: Text)
    requires Digits(t)
    ensures SMALL_E !in t
  {
  }

  lemma PlainPrinted(n: Number)
    requires n.Finite? && n.digits > 0 && -6 < |Decimal(n.digits)| + n.exponent <= 21
    ensures var t := PrintMagnitude(n.digits, n.exponent);
            (if n.exponent >= 0 then WholeForm(n, t) else PointForm(n, t)) && SMALL_E !in t
  {
    hide Decimal, Power10, Value, Zeros, Quotient, Remainder, PointForm;
    var d := Decimal(n.digits);
    var p := |d| + n.exponent;
    DecimalLeads(n.digits);
    DigitsHaveNoE(d);
    ZerosDigits(if n.exponent >= 0 then n.exponent else if p <= 0 then -p else 0);
    if n.exponent >= 0 {
      DecimalScaled(n.digits, n.exponent);
      DigitsHaveNoE(d + Zeros(n.exponent));
    } else {
      PointIsPrinted(n);
    }
  }

  lemma ExponentPrinted(n: Number)
    requires n.Finite? && n.digits > 0 && !(-6 < |Decimal(n.digits)| + n.exponent <= 21)
    ensures var t := PrintMagnitude(n.digits, n.exponent); ExponentForm(n, t) && SMALL_E in t
  {
    hide Decimal, Zeros;
    var d := Decimal(n.digits);
    DecimalLeads(n.digits);
    assert d == [d[0]] + d[1..] && d[..1] == [d[0]];
    assert SMALL_E in PrintExponent(|d| + n.exponent - 1);
  }

  /** The text of a number: zero has no sign; others have theirs, and behind it the plain decimal form exactly if
      they are in range, and else the form with an exponent. */
  lemma NumberSpelled(n: Number) returns (t: Text)
    requires Shortest(n)
    ensures PrintNumber(n) == (if n.negative && n.Finite? then [MINUS] else []) + t
    ensures n.Zero? ==> t == [ZERO]
    ensures n.Finite? && !Plain(n) ==> ExponentForm(n, t)
    ensures n.Finite? && Plain(n) && n.exponent >= 0 ==> WholeForm(n, t)
    ensures n.Finite? && Plain(n) && n.exponent < 0 ==> PointForm(n, t)
    ensures n.Finite? ==> (SMALL_E in t <==> !Plain(n))
  {
    hide Decimal, Plain, WholeForm, PointForm, ExponentForm, PrintMagnitude;
    if n.Zero? {
      t := [ZERO];
    } else {
      t := PrintMagnitude(n.digits, n.exponent);
      PlainExactly(n);
      if -6 < |Decimal(n.digits)| + n.exponent <= 21 {
        PlainPrinted(n);
      } else {
        ExponentPrinted(n);
      }
    }
  }

  // ----- strings -----

  /** A surrogate that is not half of a pair. */
  predicate Lone(s: Text, i: nat)
    requires i < |s|
  {
    || (High(s[i]) && !(i + 1 < |s| && Low(s[i + 1])))
    || (Low(s[i]) && !(i > 0 && High(s[i - 1])))
  }

  /** The letter of a short escape: b, t, n, f, r, the quote and the backslash. */
  function Letter(c: CodeUnit): Text {
    match c
    case 8 => [98]
    case 9 => [116]
    case 10 => [110]
    case 12 => [102]
    case 13 => [114]
    case 34 => [34]
    case 92 => [92]
    case _ => []
  }

  /** A lower-case hexadecimal digit. */
  function Hex(d: int): (c: CodeUnit)
    requires 0 <= d < 16
  {
    if d <= 9 then 48 + d else 87 + d
  }

  /** How the i-th unit of a string is written: escaped exactly if it is a quote, a backslash, a control character or
      a lone surrogate, in the short form if there is one. */
  function Spelling(s: Text, i: nat): Text
    requires i < |s|
  {
    var c := s[i];
    if Letter(c) != [] then [92] + Letter(c)
    else if c < 0x20 || Lone(s, i) then [92, 117, Hex(c / 0x1000), Hex(c / 0x100 % 16), Hex(c / 16 % 16), Hex(c % 16)]
    else [c]
  }

  function SpelledFrom(s: Text, i: nat): Text
    requires i <= |s|
    decreases |s| - i
  {
    if i == |s| then [] else Spelling(s, i) + SpelledFrom(s, i + 1)
  }

  lemma EscapeSpells(s: Text, i: nat)
    requires i < |s| && (High(s[i]) || Low(s[i]) ==> Lone(s, i))
    ensures Escape(s[i]) == Spelling(s, i)
  {
    hide Lone;
    if Lone(s, i) {
      OnlySurrogates(s, i);
    }
  }

  lemma OnlySurrogates(s: Text, i: nat)
    requires i < |s| && Lone(s, i)
    ensures High(s[i]) || Low(s[i])
  {
  }

  /** A string literal is its units, each as it is written, between quotes. */
  lemma {:induction false} EscapedFrom(s: Text, i: nat)
    requires i <= |s| && (0 < i < |s| ==> !(High(s[i - 1]) && Low(s[i])))
    ensures Escaped(s[i..]) == SpelledFrom(s, i)
    decreases |s| - i
  {
    hide Escape, Spelling;
    if i < |s| {
      var t := s[i..];
      if i + 1 < |s| && High(s[i]) && Low(s[i + 1]) {
        EscapedFrom(s, i + 2);
        PairSpells(s, i);
        assert t[2..] == s[i + 2..];
        assert SpelledFrom(s, i) == [s[i]] + ([s[i + 1]] + SpelledFrom(s, i + 2));
      } else {
        EscapedFrom(s, i + 1);
        EscapeSpells(s, i);
        assert t[1..] == s[i + 1..];
      }
    }
  }

  lemma PairSpells(s: Text, i: nat)
    requires i + 1 < |s| && High(s[i]) && Low(s[i + 1])
    ensures Spelling(s, i) == [s[i]] && Spelling(s, i + 1) == [s[i + 1]]
  {
  }

  lemma StringSpelled(s: Text)
    ensures Quoted(s) == [34] + SpelledFrom(s, 0) + [34]
  {
    EscapedFrom(s, 0);
    assert s[0..] == s;
  }
}
