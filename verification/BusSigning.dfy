/** The text under a bus frame's signature, and the comparison of signatures in constant time. */
module BusSigning {
  import opened Basics
  import opened Texts

  datatype Direction = ClientToDaemon | DaemonToClients

  /** The fields a signature covers. */
  datatype Fields = Fields(
    workspaceId: string, runtimeTargetId: Option<string>, machineId: Option<string>, sourceRelayId: string,
    targetRelayId: Option<string>, direction: Direction, payload: string, issuedAtMs: int)

  function DirectionName(d: Direction): string {
    if d.ClientToDaemon? then "client_to_daemon" else "daemon_to_clients"
  }

  function OrEmpty(o: Option<string>): string { if o.Some? then o.value else "" }

  /** ASCII code units as characters. */
  function AsString(t: Text): (s: string)
    ensures |s| == |t|
  {
    seq(|t|, i requires 0 <= i < |t| => if t[i] < 128 then t[i] as char else ' ')
  }

  /** `String(n)` */
  function NumberText(n: int): string {
    if n < 0 then "-" + AsString(Decimal(-n)) else AsString(Decimal(n))
  }

  /** `join('\n')` */
  function Lines(parts: seq<string>): string {
    if parts == [] then "" else if |parts| == 1 then parts[0] else parts[0] + "\n" + Lines(parts[1..])
  }

  function Head(f: Fields): seq<string> {
    [f.workspaceId, OrEmpty(f.runtimeTargetId), OrEmpty(f.machineId), f.sourceRelayId, OrEmpty(f.targetRelayId),
     DirectionName(f.direction), NumberText(f.issuedAtMs)]
  }

  function BusSignatureBase(f: Fields): string {
    Lines(Head(f) + [f.payload])
  }

  // ----- which frames share a signed text -----

  function Breaks(s: string): nat {
    if s == "" then 0 else (if s[0] == '\n' then 1 else 0) + Breaks(s[1..])
  }

  /** Each identifier has as many line breaks in one frame as in the other; the payloads may be anything. */
  predicate SameBreaks(f: Fields, g: Fields) {
    && Breaks(f.workspaceId) == Breaks(g.workspaceId)
    && Breaks(OrEmpty(f.runtimeTargetId)) == Breaks(OrEmpty(g.runtimeTargetId))
    && Breaks(OrEmpty(f.machineId)) == Breaks(OrEmpty(g.machineId))
    && Breaks(f.sourceRelayId) == Breaks(g.sourceRelayId)
    && Breaks(OrEmpty(f.targetRelayId)) == Breaks(OrEmpty(g.targetRelayId))
  }

  /** The identifiers are on one line each. */
  predicate OnLines(f: Fields) {
    && Breaks(f.workspaceId) == 0
    && Breaks(OrEmpty(f.runtimeTargetId)) == 0
    && Breaks(OrEmpty(f.machineId)) == 0
    && Breaks(f.sourceRelayId) == 0
    && Breaks(OrEmpty(f.targetRelayId)) == 0
  }

  /** Agreement in every field, a missing optional field being the same as an empty one. */
  predicate Agree(f: Fields, g: Fields) {
    && f.workspaceId == g.workspaceId
    && OrEmpty(f.runtimeTargetId) == OrEmpty(g.runtimeTargetId)
    && OrEmpty(f.machineId) == OrEmpty(g.machineId)
    && f.sourceRelayId == g.sourceRelayId
    && OrEmpty(f.targetRelayId) == OrEmpty(g.targetRelayId)
    && f.direction == g.direction
    && f.payload == g.payload
    && f.issuedAtMs == g.issuedAtMs
  }

  lemma {:induction false} BreaksSum(a: string, b: string)
    ensures Breaks(a + b) == Breaks(a) + Breaks(b)
  {
    if a == "" {
      assert a + b == b;
    } else {
      BreaksSum(a[1..], b);
      assert (a + b)[1..] == a[1..] + b;
    }
  }

  lemma {:induction false} NoBreaks(s: string)
    requires '\n' !in s
    ensures Breaks(s) == 0
  {
    if s != "" {
      NoBreaks(s[1..]);
    }
  }

  /** A first part that is longer has the other's break in it, and so more breaks. */
  lemma LongerHasMore(a: string, b: string, x: string, y: string)
    requires a + "\n" + x == b + "\n" + y && |a| < |b|
    ensures Breaks(a) < Breaks(b)
  {
    var s := a + "\n" + x;
    assert s[..|a| + 1] == a + "\n";
    assert (b + "\n" + y)[..|b|] == b;
    var rest := b[|a| + 1..];
    assert b == s[..|b|] == (a + "\n") + rest;
    BreaksSum(a + "\n", rest);
    BreaksSum(a, "\n");
  }

  lemma FirstPart(a: string, b: string, x: string, y: string)
    requires Breaks(a) == Breaks(b) && a + "\n" + x == b + "\n" + y
    ensures a == b && x == y
  {
    if |a| < |b| {
      LongerHasMore(a, b, x, y);
    } else if |b| < |a| {
      LongerHasMore(b, a, y, x);
    } else {
      var s, t := a + "\n" + x, b + "\n" + y;
      assert a == s[..|a|] && b == t[..|b|];
      assert x == s[|a| + 1..] && y == t[|b| + 1..];
    }
  }

  lemma {:induction false} LinesUnique(a: seq<string>, b: seq<string>, x: string, y: string)
    requires |a| == |b| && forall i :: 0 <= i < |a| ==> Breaks(a[i]) == Breaks(b[i])
    requires Lines(a + [x]) == Lines(b + [y])
    ensures a == b && x == y
  {
    if a != [] {
      assert (a + [x])[1..] == a[1..] + [x] && (b + [y])[1..] == b[1..] + [y];
      FirstPart(a[0], b[0], Lines(a[1..] + [x]), Lines(b[1..] + [y]));
      LinesUnique(a[1..], b[1..], x, y);
      assert a == [a[0]] + a[1..] && b == [b[0]] + b[1..];
    }
  }

  lemma DigitsAsString(t: Text)
    requires Digits(t)
    ensures forall i :: 0 <= i < |t| ==> '0' <= AsString(t)[i] <= '9' && AsString(t)[i] as int == t[i]
  {
  }

  lemma NumberTextIs(n: int)
    ensures |NumberText(n)| > 0 && Breaks(NumberText(n)) == 0
    ensures n < 0 <==> NumberText(n)[0] == '-'
  {
    var d := Decimal(if n < 0 then -n else n);
    DecimalValue(if n < 0 then -n else n);
    DigitsAsString(d);
    assert |d| > 0;
    NoBreaks(NumberText(n));
  }

  lemma AsStringUnique(t: Text, u: Text)
    requires Digits(t) && Digits(u) && AsString(t) == AsString(u)
    ensures t == u
  {
    hide AsString;
    DigitsAsString(t);
    DigitsAsString(u);
    forall i | 0 <= i < |t| ensures t[i] == u[i] {
      assert AsString(t)[i] == AsString(u)[i];
    }
  }

  lemma NumberTextUnique(n: int, m: int)
    requires NumberText(n) == NumberText(m)
    ensures n == m
  {
    hide AsString, Decimal, Value, Digits;
    NumberTextIs(n);
    NumberTextIs(m);
    var a: nat := if n < 0 then -n else n;
    var b: nat := if m < 0 then -m else m;
    DecimalValue(a);
    DecimalValue(b);
    assert AsString(Decimal(a)) == (if n < 0 then NumberText(n)[1..] else NumberText(n));
    assert AsString(Decimal(b)) == (if m < 0 then NumberText(m)[1..] else NumberText(m));
    AsStringUnique(Decimal(a), Decimal(b));
  }

  lemma DirectionBreaks(d: Direction)
    ensures Breaks(DirectionName(d)) == 0
  {
    NoBreaks(DirectionName(d));
  }

  lemma HeadBreaks(f: Fields, g: Fields)
    requires SameBreaks(f, g)
    ensures |Head(f)| == |Head(g)| && forall i :: 0 <= i < |Head(f)| ==> Breaks(Head(f)[i]) == Breaks(Head(g)[i])
  {
    hide NumberText, Breaks, DirectionName;
    NumberTextIs(f.issuedAtMs);
    NumberTextIs(g.issuedAtMs);
    DirectionBreaks(f.direction);
    DirectionBreaks(g.direction);
  }

  /** Two frames agree in every field exactly when their signed texts are equal and each identifier has
      as many line breaks in one as in the other. */
  lemma BaseExactly(f: Fields, g: Fields)
    ensures Agree(f, g) <==> BusSignatureBase(f) == BusSignatureBase(g) && SameBreaks(f, g)
  {
    hide NumberText, Lines;
    if BusSignatureBase(f) == BusSignatureBase(g) && SameBreaks(f, g) {
      HeadBreaks(f, g);
      var a, b := Head(f), Head(g);
      LinesUnique(a, b, f.payload, g.payload);
      assert a[0] == b[0] && a[1] == b[1] && a[2] == b[2] && a[3] == b[3] && a[4] == b[4] && a[5] == b[5] && a[6] == b[6];
      NumberTextUnique(f.issuedAtMs, g.issuedAtMs);
    }
  }

  /** One line break moved from one identifier to the next: the text stays the same. */
  lemma MovedBreak(f: Fields, g: Fields, x: string, y: string, z: string)
    requires f.machineId == Some(x + "\n" + y) && f.sourceRelayId == z
    requires g == f.(machineId := Some(x), sourceRelayId := y + "\n" + z)
    ensures BusSignatureBase(f) == BusSignatureBase(g)
  {
    hide NumberText, Lines, DirectionName;
    var rest := Lines([OrEmpty(f.targetRelayId), DirectionName(f.direction), NumberText(f.issuedAtMs), f.payload]);
    FirstFour(f);
    FirstFour(g);
    assert (x + "\n" + y) + "\n" + (z + "\n" + rest) == x + "\n" + ((y + "\n" + z) + "\n" + rest);
  }

  lemma FirstFour(f: Fields)
    ensures BusSignatureBase(f) ==
            f.workspaceId + "\n" + (OrEmpty(f.runtimeTargetId) + "\n" + (OrEmpty(f.machineId) + "\n" + (f.sourceRelayId + "\n" +
            Lines([OrEmpty(f.targetRelayId), DirectionName(f.direction), NumberText(f.issuedAtMs), f.payload]))))
  {
    hide NumberText, DirectionName, Lines;
    var a := Head(f) + [f.payload];
    LinesCons(a);
    LinesCons(a[1..]);
    LinesCons(a[2..]);
    LinesCons(a[3..]);
    assert a[1..][1..] == a[2..] && a[2..][1..] == a[3..] && a[3..][1..] == a[4..];
    assert a[4..] == [OrEmpty(f.targetRelayId), DirectionName(f.direction), NumberText(f.issuedAtMs), f.payload];
  }

  lemma LinesCons(a: seq<string>)
    requires |a| > 1
    ensures Lines(a) == a[0] + "\n" + Lines(a[1..])
  {
  }

  // ----- the lines of the signed text -----

  /** What follows the first n line breaks. */
  function AfterLines(s: string, n: nat): string
    decreases |s|
  {
    if n == 0 || s == "" then s else AfterLines(s[1..], if s[0] == '\n' then n - 1 else n)
  }

  function FirstLine(s: string): string {
    if s == "" || s[0] == '\n' then "" else [s[0]] + FirstLine(s[1..])
  }

  lemma {:induction false} LineCut(a: string, x: string, n: nat)
    requires Breaks(a) == 0
    ensures FirstLine(a + "\n" + x) == a && AfterLines(a + "\n" + x, n + 1) == AfterLines(x, n)
  {
    if a == "" {
      assert a + "\n" + x == "\n" + x && ("\n" + x)[1..] == x;
    } else {
      LineCut(a[1..], x, n);
      assert (a + "\n" + x)[1..] == a[1..] + "\n" + x;
    }
  }

  /** The i-th of several joined lines. */
  lemma {:induction false} LineIs(parts: seq<string>, i: nat)
    requires i + 1 < |parts| && forall j :: 0 <= j <= i ==> Breaks(parts[j]) == 0
    ensures FirstLine(AfterLines(Lines(parts), i)) == parts[i]
    ensures AfterLines(Lines(parts), i + 1) == Lines(parts[i + 1..])
  {
    hide Lines, Breaks;
    LinesCons(parts);
    var rest := Lines(parts[1..]);
    assert parts[0] + "\n" + rest == Lines(parts);
    LineCut(parts[0], rest, if i == 0 then 0 else i - 1);
    if i == 0 {
      LineCut(parts[0], rest, 0);
    } else {
      LineCut(parts[0], rest, i);
      LineIs(parts[1..], i - 1);
      assert parts[1..][i..] == parts[i + 1..];
    }
  }

  /** With identifiers on one line each, the signed text has one field per line, in this order, and the payload
      after the seventh line break, whatever it holds. */
  lemma SignedTextLines(f: Fields)
    requires OnLines(f)
    ensures var t := BusSignatureBase(f);
            && FirstLine(t) == f.workspaceId
            && FirstLine(AfterLines(t, 1)) == OrEmpty(f.runtimeTargetId)
            && FirstLine(AfterLines(t, 2)) == OrEmpty(f.machineId)
            && FirstLine(AfterLines(t, 3)) == f.sourceRelayId
            && FirstLine(AfterLines(t, 4)) == OrEmpty(f.targetRelayId)
            && FirstLine(AfterLines(t, 5)) == (match f.direction case ClientToDaemon => "client_to_daemon" case DaemonToClients => "daemon_to_clients")
            && FirstLine(AfterLines(t, 6)) == NumberText(f.issuedAtMs)
            && AfterLines(t, 7) == f.payload
  {
    hide NumberText, Breaks, Lines, FirstLine, AfterLines;
    var parts := Head(f) + [f.payload];
    HeadOnLines(f);
    NothingCut(Lines(parts));
    LineIs(parts, 0);
    LineIs(parts, 1);
    LineIs(parts, 2);
    LineIs(parts, 3);
    LineIs(parts, 4);
    LineIs(parts, 5);
    LineIs(parts, 6);
    assert parts[7..] == [f.payload];
    OneLine(f.payload);
  }

  lemma HeadOnLines(f: Fields)
    requires OnLines(f)
    ensures forall i :: 0 <= i < |Head(f)| ==> Breaks(Head(f)[i]) == 0
  {
    hide NumberText, Breaks, DirectionName;
    NumberTextIs(f.issuedAtMs);
    DirectionBreaks(f.direction);
  }

  lemma NothingCut(s: string)
    ensures AfterLines(s, 0) == s
  {
  }

  lemma OneLine(s: string)
    ensures Lines([s]) == s
  {
  }

  // ----- comparing -----

  /** `Buffer.alloc(n)` and `copy` */
  method Padded(bytes: seq<bv8>, n: nat) returns (buffer: array<bv8>)
    requires |bytes| <= n
    ensures fresh(buffer) && buffer.Length == n
    ensures forall i :: 0 <= i < n ==> buffer[i] == if i < |bytes| then bytes[i] else 0
  {
    buffer := new bv8[n](_ => 0);
    for i := 0 to |bytes|
      invariant forall j :: 0 <= j < n ==> buffer[j] == if j < i then bytes[j] else 0
    {
      buffer[i] := bytes[i];
    }
  }

  /** Looks at every byte, whatever it has found. */
  method TimingSafeEqual(a: array<bv8>, b: array<bv8>) returns (equal: bool)
    requires a.Length == b.Length
    ensures equal <==> a[..] == b[..]
  {
    equal := true;
    for i := 0 to a.Length
      invariant equal <==> a[..i] == b[..i]
    {
      assert a[..i + 1] == a[..i] + [a[i]] && b[..i + 1] == b[..i] + [b[i]];
      equal := (a[i] == b[i]) && equal;
    }
    assert a[..a.Length] == a[..] && b[..b.Length] == b[..];
  }

  /** The padded comparison decides equality of the signatures. */
  method VerifyBytes(expected: seq<bv8>, provided: seq<bv8>) returns (valid: bool)
    ensures valid <==> expected == provided
  {
    var compareLength := if |expected| > |provided| then |expected| else |provided|;
    if compareLength < 1 {
      compareLength := 1;
    }
    var paddedExpected := Padded(expected, compareLength);
    var paddedProvided := Padded(provided, compareLength);
    var equal := TimingSafeEqual(paddedExpected, paddedProvided);
    valid := equal && |expected| == |provided|;
    assert expected == provided ==> paddedExpected[..] == paddedProvided[..];
    if valid {
      forall i | 0 <= i < |expected| ensures expected[i] == provided[i] {
        assert paddedExpected[..][i] == paddedProvided[..][i];
      }
    }
  }
}
