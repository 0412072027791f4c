/** String literals: what `JSON.stringify` escapes, and how they are read back (section 7 of RFC 8259). */
module JsonStrings {
  import opened Texts

  const QUOTE: CodeUnit := 34
  const BACKSLASH: CodeUnit := 92

  predicate High(c: CodeUnit) { 0xD800 <= c <= 0xDBFF }

  predicate Low(c: CodeUnit) { 0xDC00 <= c <= 0xDFFF }

  // ----- writing -----

  function HexDigit(d: int): (c: CodeUnit)
    requires 0 <= d < 16
  {
    if d < 10 then ZERO + d else 97 + d - 10
  }

  /** A backslash, `u` and four lower-case hexadecimal digits. */
  function Unicode(c: CodeUnit): Text {
    [BACKSLASH, 117, HexDigit(c / 0x1000), HexDigit(c / 0x100 % 16), HexDigit(c / 16 % 16), HexDigit(c % 16)]
  }

  function Escape(c: CodeUnit): Text {
    if c == 8 then [BACKSLASH, 98]
    else if c == 9 then [BACKSLASH, 116]
    else if c == 10 then [BACKSLASH, 110]
    else if c == 12 then [BACKSLASH, 102]
    else if c == 13 then [BACKSLASH, 114]
    else if c == QUOTE || c == BACKSLASH then [BACKSLASH, c]
    else if c < 32 || High(c) || Low(c) then Unicode(c)
    else [c]
  }

  /** A surrogate pair is written as it is, a lone surrogate is escaped. */
  function Escaped(s: Text): Text {
    if s == [] then []
    else if |s| > 1 && High(s[0]) && Low(s[1]) then [s[0], s[1]] + Escaped(s[2..])
    else Escape(s[0]) + Escaped(s[1..])
  }

  function Quoted(s: Text): Text {
    [QUOTE] + Escaped(s) + [QUOTE]
  }

  // ----- reading -----

  datatype Reading = Bad | Read(text: Text, rest: Text)

  function HexValue(c: CodeUnit): int {
    if ZERO <= c < ZERO + 10 then c - ZERO
    else if 97 <= c <= 102 then c - 97 + 10
    else if 65 <= c <= 70 then c - 65 + 10
    else -1
  }

  /** The character behind a one-letter escape. */
  function Unescape(c: CodeUnit): int {
    if c == QUOTE || c == BACKSLASH || c == 47 then c
    else if c == 98 then 8
    else if c == 102 then 12
    else if c == 110 then 10
    else if c == 114 then 13
    else if c == 116 then 9
    else -1
  }

  function Prepend(c: CodeUnit, r: Reading): Reading {
    if r.Bad? then Bad else Read([c] + r.text, r.rest)
  }

  /** Reads up to and including the closing quote. */
  function ReadString(t: Text): (r: Reading)
    ensures r.Read? ==> |r.rest| < |t|
  {
    if t == [] || t[0] < 32 then Bad
    else if t[0] == QUOTE then Read([], t[1..])
    else if t[0] != BACKSLASH then Prepend(t[0], ReadString(t[1..]))
    else if |t| > 1 && Unescape(t[1]) >= 0 then Prepend(Unescape(t[1]), ReadString(t[2..]))
    else if |t| > 5 && t[1] == 117 && HexValue(t[2]) >= 0 && HexValue(t[3]) >= 0 && HexValue(t[4]) >= 0 && HexValue(t[5]) >= 0 then
      Prepend(0x1000 * HexValue(t[2]) + 0x100 * HexValue(t[3]) + 16 * HexValue(t[4]) + HexValue(t[5]), ReadString(t[6..]))
    else Bad
  }

  // ----- reading undoes writing -----

  lemma LiteralRead(c: CodeUnit, t: Text)
    requires c >= 32 && c != QUOTE && c != BACKSLASH
    ensures ReadString([c] + t) == Prepend(c, ReadString(t))
  {
    assert ([c] + t)[1..] == t;
  }

  lemma LetterRead(c: CodeUnit, t: Text)
    requires Unescape(c) >= 0
    ensures ReadString([BACKSLASH, c] + t) == Prepend(Unescape(c), ReadString(t))
  {
    assert ([BACKSLASH, c] + t)[2..] == t;
  }

  lemma HexRead(d: int)
    requires 0 <= d < 16
    ensures HexValue(HexDigit(d)) == d
  {
  }

  lemma HexSum(c: CodeUnit)
    ensures 0 <= c / 0x1000 < 16
    ensures 0x1000 * (c / 0x1000) + 0x100 * (c / 0x100 % 16) + 16 * (c / 16 % 16) + c % 16 == c
  {
    var q := c / 16;
    assert c / 0x100 == q / 16 && c / 0x1000 == q / 16 / 16;
  }

  lemma UnicodeRead(c: CodeUnit, t: Text)
    ensures ReadString(Unicode(c) + t) == Prepend(c, ReadString(t))
  {
    hide HexValue, HexDigit;
    HexSum(c);
    HexRead(c / 0x1000);
    HexRead(c / 0x100 % 16);
    HexRead(c / 16 % 16);
    HexRead(c % 16);
    assert (Unicode(c) + t)[6..] == t;
  }

  lemma EscapeReadBack(c: CodeUnit, t: Text)
    ensures ReadString(Escape(c) + t) == Prepend(c, ReadString(t))
  {
    hide ReadString, Unicode;
    if c == 8 || c == 9 || c == 10 || c == 12 || c == 13 || c == QUOTE || c == BACKSLASH {
      LetterRead(Escape(c)[1], t);
    } else if c < 32 || High(c) || Low(c) {
      UnicodeRead(c, t);
    } else {
      LiteralRead(c, t);
    }
  }

  lemma QuoteRead(rest: Text)
    ensures ReadString([] + [QUOTE] + rest) == Read([], rest)
  {
    assert ([] + [QUOTE] + rest)[1..] == rest;
  }

  lemma PairRead(high: CodeUnit, low: CodeUnit, t: Text)
    requires High(high) && Low(low)
    ensures ReadString([high] + ([low] + t)) == Prepend(high, Prepend(low, ReadString(t)))
  {
    hide ReadString;
    LiteralRead(high, [low] + t);
    LiteralRead(low, t);
  }

  lemma {:induction false} StringReadBack(s: Text, rest: Text)
    ensures ReadString(Escaped(s) + [QUOTE] + rest) == Read(s, rest)
  {
    hide ReadString, Escape;
    if s == [] {
      QuoteRead(rest);
    } else if |s| > 1 && High(s[0]) && Low(s[1]) {
      StringReadBack(s[2..], rest);
      var t := Escaped(s[2..]) + [QUOTE] + rest;
      assert Escaped(s) + [QUOTE] + rest == [s[0]] + ([s[1]] + t);
      PairRead(s[0], s[1], t);
      assert [s[0]] + ([s[1]] + s[2..]) == s;
    } else {
      StringReadBack(s[1..], rest);
      var t := Escaped(s[1..]) + [QUOTE] + rest;
      EscapeReadBack(s[0], t);
      assert Escaped(s) + [QUOTE] + rest == Escape(s[0]) + t;
      assert [s[0]] + s[1..] == s;
    }
  }
}
