/**
  JavaScript strings as sequences of UTF-16 code units, their default sort order, and the decimal
  numbers that pad file names.
*/
module Texts {
  type CodeUnit = n: int | 0 <= n < 0x1_0000 witness 0
  type Text = seq<CodeUnit>

  /** The order of `<` on strings and of `sort()` without a comparator. */
  predicate Less(a: Text, b: Text) {
    b != [] && (a == [] || a[0] < b[0] || (a[0] == b[0] && Less(a[1..], b[1..])))
  }

  lemma {:induction false} LessTotal(a: Text, b: Text)
    ensures Less(a, b) || Less(b, a) || a == b
  {
    if a != [] && b != [] && a[0] == b[0] {
      LessTotal(a[1..], b[1..]);
      assert a == [a[0]] + a[1..] && b == [b[0]] + b[1..];
    }
  }

  lemma {:induction false} LessTransitive(a: Text, b: Text, c: Text)
    requires Less(a, b) && Less(b, c)
    ensures Less(a, c)
  {
    if a != [] && a[0] == b[0] == c[0] {
      LessTransitive(a[1..], b[1..], c[1..]);
    }
  }

  lemma {:induction false} LessIrreflexive(a: Text)
    ensures !Less(a, a)
  {
    if a != [] {
      LessIrreflexive(a[1..]);
    }
  }

  lemma LessAsymmetric(a: Text, b: Text)
    requires Less(a, b)
    ensures !Less(b, a) && a != b
  {
    LessIrreflexive(a);
    if Less(b, a) {
      LessTransitive(a, b, a);
    }
  }

  /** Of two different texts of one length, what follows them does not matter. */
  lemma {:induction false} LessPrefix(a: Text, b: Text, x: Text, y: Text)
    requires |a| == |b| && Less(a, b)
    ensures Less(a + x, b + y)
  {
    assert (a + x)[0] == a[0] && (b + y)[0] == b[0];
    if a[0] == b[0] {
      LessPrefix(a[1..], b[1..], x, y);
      assert (a + x)[1..] == a[1..] + x && (b + y)[1..] == b[1..] + y;
    }
  }

  /** Behind a common prefix, the rest decides. */
  lemma {:induction false} LessSuffix(p: Text, x: Text, y: Text)
    ensures Less(p + x, p + y) <==> Less(x, y)
  {
    if p == [] {
      assert p + x == x && p + y == y;
    } else {
      LessSuffix(p[1..], x, y);
      assert (p + x)[1..] == p[1..] + x && (p + y)[1..] == p[1..] + y;
    }
  }

  // ----- sorted listings -----

  ghost predicate Increasing(s: seq<Text>) {
    forall i, j :: 0 <= i < j < |s| ==> Less(s[i], s[j])
  }

  function Members(s: seq<Text>): set<Text> {
    set x | x in s
  }

  /** What `sort()` makes of a set of different names. */
  ghost predicate IsSortOf(s: seq<Text>, names: set<Text>) {
    Increasing(s) && Members(s) == names
  }

  lemma IncreasingTail(s: seq<Text>)
    requires Increasing(s) && s != []
    ensures Increasing(s[1..]) && Members(s[1..]) == Members(s) - {s[0]}
    ensures forall x :: x in s[1..] ==> Less(s[0], x)
  {
    forall x | x in s[1..] ensures x != s[0] && Less(s[0], x) {
      LessAsymmetric(s[0], x);
    }
    assert forall x :: x in s <==> x == s[0] || x in s[1..];
  }

  lemma IncreasingCons(x: Text, s: seq<Text>)
    requires Increasing(s) && forall y :: y in s ==> Less(x, y)
    ensures Increasing([x] + s) && Members([x] + s) == Members(s) + {x}
  {
  }

  lemma SizeZero(s: seq<Text>, t: seq<Text>)
    requires Members(s) == Members(t)
    ensures s == [] <==> t == []
  {
    assert s != [] ==> s[0] in Members(s);
    assert t != [] ==> t[0] in Members(t);
  }

  lemma {:induction false} SortUnique(s: seq<Text>, t: seq<Text>)
    requires Increasing(s) && Increasing(t) && Members(s) == Members(t)
    ensures s == t
  {
    if s == [] || t == [] {
      SizeZero(s, t);
    } else {
      assert s[0] in Members(t) && t[0] in Members(s);
      IncreasingTail(s);
      IncreasingTail(t);
      if s[0] != t[0] {
        assert s[0] in t[1..] && t[0] in s[1..];
        LessAsymmetric(s[0], t[0]);
      }
      SortUnique(s[1..], t[1..]);
      assert s == [s[0]] + s[1..] && t == [t[0]] + t[1..];
    }
  }

  /** Insertion into a sorted listing. */
  function Insert(x: Text, s: seq<Text>): seq<Text> {
    if s == [] then [x] else if Less(x, s[0]) then [x] + s else if x == s[0] then s else [s[0]] + Insert(x, s[1..])
  }

  lemma {:induction false} InsertSorts(x: Text, s: seq<Text>)
    requires Increasing(s)
    ensures IsSortOf(Insert(x, s), Members(s) + {x})
  {
    if s != [] {
      IncreasingTail(s);
      if Less(x, s[0]) {
        forall y | y in s ensures Less(x, y) {
          if y != s[0] {
            LessTransitive(x, s[0], y);
          }
        }
        IncreasingCons(x, s);
      } else if x != s[0] {
        InsertSorts(x, s[1..]);
        LessTotal(x, s[0]);
        var t := Insert(x, s[1..]);
        forall y | y in t ensures Less(s[0], y) {
          assert y in Members(t);
        }
        IncreasingCons(s[0], t);
      }
    }
  }

  /** `[...names].sort()` */
  method Sort(names: set<Text>) returns (s: seq<Text>)
    ensures IsSortOf(s, names)
  {
    s := [];
    var todo := names;
    while todo != {}
      invariant todo <= names && IsSortOf(s, names - todo)
      decreases todo
    {
      var x :| x in todo;
      InsertSorts(x, s);
      s := Insert(x, s);
      todo := todo - {x};
      assert names - todo == (names - (todo + {x})) + {x};
    }
  }

  lemma {:induction false} SortExists(names: set<Text>) returns (s: seq<Text>)
    ensures IsSortOf(s, names)
    decreases names
  {
    if names == {} {
      s := [];
    } else {
      var x :| x in names;
      var t := SortExists(names - {x});
      InsertSorts(x, t);
      s := Insert(x, t);
      assert names - {x} + {x} == names;
    }
  }

  ghost function Sorted(names: set<Text>): (s: seq<Text>)
    ensures IsSortOf(s, names)
  {
    assert exists s :: IsSortOf(s, names) by {
      var s := SortExists(names);
    }
    var s :| IsSortOf(s, names);
    s
  }

  // ----- padded decimal numbers -----

  const ZERO := 48

  function Digit(d: int): (u: CodeUnit)
    requires 0 <= d < 10
  {
    ZERO + d
  }

  /** `String(n)` */
  function Decimal(n: nat): Text {
    if n < 10 then [Digit(n)] else Decimal(n / 10) + [Digit(n % 10)]
  }

  function Zeros(k: nat): Text {
    if k == 0 then [] else [ZERO] + Zeros(k - 1)
  }

  /** `String(n).padStart(width, '0')` */
  function Padded(n: nat, width: nat): Text {
    var d := Decimal(n);
    if |d| < width then Zeros(width - |d|) + d else d
  }

  function Power10(w: nat): nat {
    if w == 0 then 1 else 10 * Power10(w - 1)
  }

  /** The last w decimal digits. */
  function Fixed(n: nat, w: nat): (t: Text)
    ensures |t| == w
  {
    if w == 0 then [] else Fixed(n / 10, w - 1) + [Digit(n % 10)]
  }

  lemma {:induction false} FixedIncreases(n: nat, m: nat, w: nat)
    requires n < m < Power10(w)
    ensures Less(Fixed(n, w), Fixed(m, w))
  {
    var a, b := Fixed(n / 10, w - 1), Fixed(m / 10, w - 1);
    if n / 10 < m / 10 {
      FixedIncreases(n / 10, m / 10, w - 1);
      LessPrefix(a, b, [Digit(n % 10)], [Digit(m % 10)]);
    } else {
      assert n / 10 == m / 10;
      LessSuffix(a, [Digit(n % 10)], [Digit(m % 10)]);
    }
  }

  lemma {:induction false} ZerosEnd(k: nat)
    ensures Zeros(k + 1) == Zeros(k) + [ZERO]
  {
    if k > 0 {
      ZerosEnd(k - 1);
    }
  }

  lemma {:induction false} PaddedIsFixed(n: nat, w: nat)
    requires n < Power10(w) && w > 0
    ensures |Decimal(n)| <= w && Zeros(w - |Decimal(n)|) + Decimal(n) == Fixed(n, w)
  {
    if n < 10 {
      ZerosAreFixed(w - 1);
      assert Fixed(n, w) == Fixed(0, w - 1) + [Digit(n)];
    } else {
      assert w > 1 by {
        assert Power10(1) == 10 * Power10(0);
      }
      PaddedIsFixed(n / 10, w - 1);
      var z := Zeros(w - |Decimal(n)|);
      assert z + Decimal(n) == (z + Decimal(n / 10)) + [Digit(n % 10)];
    }
  }

  lemma {:induction false} ZerosAreFixed(w: nat)
    ensures Zeros(w) == Fixed(0, w)
  {
    if w > 0 {
      ZerosAreFixed(w - 1);
      ZerosEnd(w - 1);
    }
  }

  /** Numbers that fit the width are padded to it, and their padded forms are in numeric order. */
  lemma PaddedIncreases(n: nat, m: nat, w: nat)
    requires w > 0 && n < m < Power10(w)
    ensures |Padded(n, w)| == |Padded(m, w)| == w
    ensures Less(Padded(n, w), Padded(m, w))
  {
    PaddedIsFixed(n, w);
    PaddedIsFixed(m, w);
    FixedIncreases(n, m, w);
    assert [] + Decimal(n) == Decimal(n) && [] + Decimal(m) == Decimal(m);
  }

  // ----- reading digits -----

  function Value(t: Text): int {
    if t == [] then 0 else 10 * Value(t[..|t| - 1]) + (t[|t| - 1] - ZERO)
  }

  predicate Digits(t: Text) {
    forall i :: 0 <= i < |t| ==> ZERO <= t[i] < ZERO + 10
  }

  lemma {:induction false} DecimalValue(n: nat)
    ensures Value(Decimal(n)) == n && Digits(Decimal(n))
  {
    var d := Decimal(n);
    if n >= 10 {
      DecimalValue(n / 10);
      assert d[..|d| - 1] == Decimal(n / 10);
    } else {
      assert d[..0] == [];
      assert Value([]) == 0;
      assert Value(d) == 10 * Value(d[..|d| - 1]) + (d[|d| - 1] - ZERO);
    }
  }

  lemma {:induction false} ZerosValue(k: nat, t: Text)
    requires Digits(t)
    ensures Value(Zeros(k) + t) == Value(t) && Digits(Zeros(k) + t)
    decreases |t|, k
  {
    var z := Zeros(k) + t;
    if t != [] {
      ZerosValue(k, t[..|t| - 1]);
      assert z[..|z| - 1] == Zeros(k) + t[..|t| - 1];
      assert z[|z| - 1] == t[|t| - 1];
    } else if k > 0 {
      ZerosValue(k - 1, []);
      ZerosEnd(k - 1);
      assert z == Zeros(k - 1) + [ZERO] && Zeros(k - 1) + [] == Zeros(k - 1);
      assert z[..|z| - 1] == Zeros(k - 1);
    } else {
      assert z == t;
    }
  }

  lemma PaddedValue(n: nat, w: nat)
    ensures Value(Padded(n, w)) == n && Digits(Padded(n, w))
  {
    DecimalValue(n);
    if |Decimal(n)| < w {
      ZerosValue(w - |Decimal(n)|, Decimal(n));
    }
  }
}
