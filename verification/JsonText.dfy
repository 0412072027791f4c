/** JSON values, the compact and the indented form that print them, and the parser that undoes both. */
module JsonText {
  import opened Texts
  import opened JsonNumbers
  import Strings = JsonStrings

  /** Members in the order of `Object.keys`. */
  datatype Json =
    | JNull
    | JBool(b: bool)
    | JNumber(n: Number)
    | JString(s: Text)
    | JArray(items: seq<Json>)
    | JObject(members: seq<Member>)

  datatype Member = Member(key: Text, value: Json)

  const QUOTE: CodeUnit := 34
  const COMMA: CodeUnit := 44
  const COLON: CodeUnit := 58
  const OPEN_ARRAY: CodeUnit := 91
  const CLOSE_ARRAY: CodeUnit := 93
  const OPEN_OBJECT: CodeUnit := 123
  const CLOSE_OBJECT: CodeUnit := 125

  const NULL: Text := [110, 117, 108, 108]
  const TRUE: Text := [116, 114, 117, 101]
  const FALSE: Text := [102, 97, 108, 115, 101]

  function Keys(members: seq<Member>): (keys: seq<Text>)
    ensures |keys| == |members| && forall i :: 0 <= i < |members| ==> keys[i] == members[i].key
  {
    if members == [] then [] else [members[0].key] + Keys(members[1..])
  }

  predicate DistinctKeys(members: seq<Member>) {
    members != [] ==> members[0].key !in Keys(members[1..]) && DistinctKeys(members[1..])
  }

  /** Objects have each key once; numbers are in shortest form and not minus zero. */
  predicate Proper(j: Json) {
    match j
    case JNumber(n) => Shortest(n) && n != Zero(true)
    case JArray(items) => forall i :: 0 <= i < |items| ==> Proper(items[i])
    case JObject(members) => DistinctKeys(members) && forall i :: 0 <= i < |members| ==> Proper(members[i].value)
    case _ => true
  }

  // ----- printing -----

  /** `JSON.stringify(value)`, or `JSON.stringify(value, null, 2)` at some depth. */
  datatype Layout = Compact | Indented(depth: nat)

  function Spaces(k: nat): Text {
    if k == 0 then [] else [32] + Spaces(k - 1)
  }

  function Gap(l: Layout): Text {
    if l.Compact? then [] else [10] + Spaces(2 * l.depth)
  }

  function Inner(l: Layout): Layout {
    if l.Compact? then Compact else Indented(l.depth + 1)
  }

  function Separator(l: Layout): Text {
    if l.Compact? then [COLON] else [COLON, 32]
  }

  function Print(j: Json, l: Layout): Text {
    match j
    case JNull => NULL
    case JBool(b) => if b then TRUE else FALSE
    case JNumber(n) => PrintNumber(n)
    case JString(s) => Strings.Quoted(s)
    case JArray(items) =>
      if items == [] then [OPEN_ARRAY, CLOSE_ARRAY]
      else [OPEN_ARRAY] + Gap(Inner(l)) + PrintItems(items, l) + Gap(l) + [CLOSE_ARRAY]
    case JObject(members) =>
      if members == [] then [OPEN_OBJECT, CLOSE_OBJECT]
      else [OPEN_OBJECT] + Gap(Inner(l)) + PrintMembers(members, l) + Gap(l) + [CLOSE_OBJECT]
  }

  function PrintItems(items: seq<Json>, l: Layout): Text
    requires items != []
  {
    Print(items[0], Inner(l)) + if |items| == 1 then [] else [COMMA] + Gap(Inner(l)) + PrintItems(items[1..], l)
  }

  function PrintMember(m: Member, l: Layout): Text {
    Strings.Quoted(m.key) + Separator(l) + Print(m.value, Inner(l))
  }

  function PrintMembers(members: seq<Member>, l: Layout): Text
    requires members != []
  {
    PrintMember(members[0], l) + if |members| == 1 then [] else [COMMA] + Gap(Inner(l)) + PrintMembers(members[1..], l)
  }

  // ----- parsing -----

  datatype Parsed<T> = Malformed | Done(value: T, rest: Text)

  predicate IsSpace(c: CodeUnit) { c == 32 || c == 9 || c == 10 || c == 13 }

  function Skip(t: Text): (u: Text)
    ensures |u| <= |t| && (u != [] ==> !IsSpace(u[0]))
  {
    if t != [] && IsSpace(t[0]) then Skip(t[1..]) else t
  }

  function Expect<T>(t: Text, word: Text, value: T): (r: Parsed<T>)
    requires word != []
    ensures r.Done? ==> |r.rest| < |t|
  {
    if |t| >= |word| && t[..|word|] == word then Done(value, t[|word|..]) else Malformed
  }

  /** A key seen again keeps its place and takes the later value. */
  function Put(key: Text, value: Json, members: seq<Member>): seq<Member> {
    if members == [] then [Member(key, value)]
    else if key in Keys(members) then [Member(key, Last(key, value, members))] + Without(key, members)
    else [Member(key, value)] + members
  }

  function Last(key: Text, value: Json, members: seq<Member>): Json
    decreases |members|
  {
    if members == [] then value
    else Last(key, if members[0].key == key then members[0].value else value, members[1..])
  }

  function Without(key: Text, members: seq<Member>): seq<Member> {
    if members == [] then []
    else (if members[0].key == key then [] else [members[0]]) + Without(key, members[1..])
  }

  function ParseValue(t0: Text): (r: Parsed<Json>)
    ensures r.Done? ==> |r.rest| < |t0|
    decreases |t0|, 0
  {
    var t := Skip(t0);
    if t == [] then Malformed
    else if t[0] == 110 then Expect(t, NULL, JNull)
    else if t[0] == 116 then Expect(t, TRUE, JBool(true))
    else if t[0] == 102 then Expect(t, FALSE, JBool(false))
    else if t[0] == QUOTE then
      var s := Strings.ReadString(t[1..]);
      if s.Bad? then Malformed else Done(JString(s.text), s.rest)
    else if t[0] == OPEN_ARRAY then
      var u := Skip(t[1..]);
      if u != [] && u[0] == CLOSE_ARRAY then Done(JArray([]), u[1..])
      else
        var items := ParseItems(t[1..]);
        if items.Malformed? then Malformed else Done(JArray(items.value), items.rest)
    else if t[0] == OPEN_OBJECT then
      var u := Skip(t[1..]);
      if u != [] && u[0] == CLOSE_OBJECT then Done(JObject([]), u[1..])
      else
        var members := ParseMembers(t[1..]);
        if members.Malformed? then Malformed else Done(JObject(members.value), members.rest)
    else
      var n := ReadNumber(t);
      if n.Bad? || |n.rest| >= |t| then Malformed else Done(JNumber(n.number), n.rest)
  }

  /** Items up to and including the closing bracket. */
  function ParseItems(t: Text): (r: Parsed<seq<Json>>)
    ensures r.Done? ==> |r.rest| < |t|
    decreases |t|, 1
  {
    var first := ParseValue(t);
    if first.Malformed? then Malformed
    else
      var u := Skip(first.rest);
      if u == [] then Malformed
      else if u[0] == CLOSE_ARRAY then Done([first.value], u[1..])
      else if u[0] != COMMA then Malformed
      else
        var others := ParseItems(u[1..]);
        if others.Malformed? then Malformed else Done([first.value] + others.value, others.rest)
  }

  /** One member: a string, a colon and a value. */
  function ParseMember(t0: Text): (r: Parsed<Member>)
    ensures r.Done? ==> |r.rest| < |t0|
    decreases |t0|, 0
  {
    var t := Skip(t0);
    if t == [] || t[0] != QUOTE then Malformed
    else
      var key := Strings.ReadString(t[1..]);
      if key.Bad? then Malformed
      else
        var u := Skip(key.rest);
        if u == [] || u[0] != COLON then Malformed
        else
          var value := ParseValue(u[1..]);
          if value.Malformed? then Malformed else Done(Member(key.text, value.value), value.rest)
  }

  function ParseMembers(t: Text): (r: Parsed<seq<Member>>)
    ensures r.Done? ==> |r.rest| < |t|
    decreases |t|, 1
  {
    var first := ParseMember(t);
    if first.Malformed? then Malformed
    else
      var u := Skip(first.rest);
      if u == [] then Malformed
      else if u[0] == CLOSE_OBJECT then Done([first.value], u[1..])
      else if u[0] != COMMA then Malformed
      else
        var others := ParseMembers(u[1..]);
        if others.Malformed? then Malformed else Done(Put(first.value.key, first.value.value, others.value), others.rest)
  }

  /** `JSON.parse`: one value with nothing but white space around it. */
  function Parse(t: Text): Parsed<Json> {
    var r := ParseValue(t);
    if r.Done? && Skip(r.rest) == [] then r.(rest := []) else Malformed
  }

  // ----- parsing undoes printing -----

  lemma {:induction false} SpacesSkip(k: nat, t: Text)
    ensures Skip(Spaces(k) + t) == Skip(t)
  {
    if k == 0 {
      assert Spaces(0) + t == t;
    } else {
      SpacesSkip(k - 1, t);
      assert (Spaces(k) + t)[1..] == Spaces(k - 1) + t;
    }
  }

  lemma GapSkip(l: Layout, t: Text)
    ensures Skip(Gap(l) + t) == Skip(t)
  {
    if l.Compact? {
      assert Gap(l) + t == t;
    } else {
      SpacesSkip(2 * l.depth, t);
      assert (Gap(l) + t)[1..] == Spaces(2 * l.depth) + t;
    }
  }

  lemma NumberStarts(n: Number)
    ensures PrintNumber(n) != [] && (IsDigit(PrintNumber(n)[0]) || PrintNumber(n)[0] == MINUS)
  {
    hide PrintMagnitude;
    if n.Finite? {
      MagnitudeStarts(n.digits, n.exponent);
    }
  }

  /** A printed value starts with something that is neither white space nor the end of a list. */
  lemma PrintStarts(j: Json, l: Layout)
    ensures Print(j, l) != [] && !IsSpace(Print(j, l)[0]) && Print(j, l)[0] != CLOSE_ARRAY
  {
    hide PrintNumber, PrintItems, PrintMembers;
    if j.JNumber? {
      NumberStarts(j.n);
    }
  }

  lemma NoSkip(t: Text)
    requires t != [] && !IsSpace(t[0])
    ensures Skip(t) == t
  {
  }

  /** Where a list goes on or ends, a number stops. */
  lemma GapStops(l: Layout, t: Text)
    requires t != [] && (t[0] == COMMA || t[0] == CLOSE_ARRAY || t[0] == CLOSE_OBJECT)
    ensures Stops(Gap(l) + t) && Stops(t)
  {
  }

  lemma ParseSkips(t: Text, u: Text)
    requires Skip(t) == Skip(u)
    ensures ParseValue(t) == ParseValue(u) && ParseMember(t) == ParseMember(u)
  {
    hide ParseItems, ParseMembers, Expect, Strings.ReadString, ReadNumber;
  }

  lemma ItemsSkip(t: Text, u: Text)
    requires Skip(t) == Skip(u)
    ensures ParseItems(t) == ParseItems(u) && ParseMembers(t) == ParseMembers(u)
  {
    hide ParseValue, ParseMember;
    ParseSkips(t, u);
  }

  lemma ScalarReadBack(j: Json, l: Layout, rest: Text)
    requires Proper(j) && Stops(rest) && !j.JArray? && !j.JObject?
    ensures ParseValue(Print(j, l) + rest) == Done(j, rest)
  {
    hide ParseItems, ParseMembers, ReadNumber, PrintNumber, Strings.ReadString, Strings.Escaped, Shortest;
    var t := Print(j, l) + rest;
    PrintStarts(j, l);
    match j {
      case JNull => assert t[|NULL|..] == rest && t[..|NULL|] == NULL;
      case JBool(b) =>
        var word := if b then TRUE else FALSE;
        assert t[|word|..] == rest && t[..|word|] == word;
      case JNumber(n) =>
        NumberReadBack(n, rest);
        NumberStarts(n);
      case JString(s) =>
        Strings.StringReadBack(s, rest);
        assert t[1..] == Strings.Escaped(s) + [QUOTE] + rest;
    }
  }

  lemma {:induction false} ReadBack(j: Json, l: Layout, rest: Text)
    requires Proper(j) && Stops(rest)
    ensures ParseValue(Print(j, l) + rest) == Done(j, rest)
    decreases j, 1
  {
    hide ParseItems, ParseMembers, PrintItems, PrintMembers, ParseValue, Gap;
    match j {
      case JArray(items) =>
        if items == [] {
          EmptyReadBack(rest);
        } else {
          ItemsReadBack(items, l, rest);
          OpenArray(items, l, rest);
        }
      case JObject(members) =>
        if members == [] {
          EmptyReadBack(rest);
        } else {
          MembersReadBack(members, l, rest);
          OpenObject(members, l, rest);
        }
      case _ => ScalarReadBack(j, l, rest);
    }
  }

  lemma EmptyReadBack(rest: Text)
    ensures ParseValue([OPEN_ARRAY, CLOSE_ARRAY] + rest) == Done(JArray([]), rest)
    ensures ParseValue([OPEN_OBJECT, CLOSE_OBJECT] + rest) == Done(JObject([]), rest)
  {
    hide ParseItems, ParseMembers;
    var t, u := [OPEN_ARRAY, CLOSE_ARRAY] + rest, [OPEN_OBJECT, CLOSE_OBJECT] + rest;
    assert t[1..] == [CLOSE_ARRAY] + rest && u[1..] == [CLOSE_OBJECT] + rest;
    assert t[1..][1..] == rest && u[1..][1..] == rest;
  }

  lemma OpenArray(items: seq<Json>, l: Layout, rest: Text)
    requires items != []
    requires ParseItems(PrintItems(items, l) + Gap(l) + [CLOSE_ARRAY] + rest) == Done(items, rest)
    ensures ParseValue(Print(JArray(items), l) + rest) == Done(JArray(items), rest)
  {
    hide ParseItems, ParseMembers, Gap, PrintMembers;
    var t, u := Print(JArray(items), l) + rest, PrintItems(items, l) + Gap(l) + [CLOSE_ARRAY] + rest;
    assert t[1..] == Gap(Inner(l)) + u;
    GapSkip(Inner(l), u);
    ItemsSkip(t[1..], u);
    PrintStarts(items[0], Inner(l));
    NoSkip(u);
  }

  lemma ObjectParse(t: Text, members: seq<Member>, rest: Text)
    requires t != [] && t[0] == OPEN_OBJECT && Skip(t[1..]) != [] && Skip(t[1..])[0] == QUOTE
    requires ParseMembers(t[1..]) == Done(members, rest)
    ensures ParseValue(t) == Done(JObject(members), rest)
  {
    hide ParseItems, ParseMembers, Expect, ReadNumber, Strings.ReadString;
    NoSkip(t);
  }

  lemma MembersStart(members: seq<Member>, l: Layout, rest: Text)
    requires members != []
    ensures PrintMembers(members, l) + rest != [] && (PrintMembers(members, l) + rest)[0] == QUOTE
  {
    hide Print, Strings.Escaped;
  }

  lemma OpenObject(members: seq<Member>, l: Layout, rest: Text)
    requires members != []
    requires ParseMembers(PrintMembers(members, l) + Gap(l) + [CLOSE_OBJECT] + rest) == Done(members, rest)
    ensures ParseValue(Print(JObject(members), l) + rest) == Done(JObject(members), rest)
  {
    hide ParseItems, ParseMembers, ParseValue, Gap, PrintItems, PrintMembers, Skip;
    var t, u := Print(JObject(members), l) + rest, PrintMembers(members, l) + Gap(l) + [CLOSE_OBJECT] + rest;
    assert t[1..] == Gap(Inner(l)) + u;
    GapSkip(Inner(l), u);
    ItemsSkip(t[1..], u);
    MembersStart(members, l, Gap(l) + [CLOSE_OBJECT] + rest);
    assert u == PrintMembers(members, l) + (Gap(l) + [CLOSE_OBJECT] + rest);
    NoSkip(u);
    ObjectParse(t, members, rest);
  }

  lemma MoreItemsParse(t: Text, first: Json, tail: Text, others: seq<Json>, rest: Text)
    requires ParseValue(t) == Done(first, tail) && tail != [] && tail[0] == COMMA
    requires ParseItems(tail[1..]) == Done(others, rest)
    ensures ParseItems(t) == Done([first] + others, rest)
  {
    hide ParseValue;
    NoSkip(tail);
  }

  lemma LastItemParse(t: Text, first: Json, gap: Text, rest: Text)
    requires ParseValue(t) == Done(first, gap) && Skip(gap) == [CLOSE_ARRAY] + rest
    ensures ParseItems(t) == Done([first], rest)
  {
    hide ParseValue, Skip;
    assert ([CLOSE_ARRAY] + rest)[1..] == rest;
  }

  lemma {:induction false} ItemsReadBack(items: seq<Json>, l: Layout, rest: Text)
    requires items != [] && forall i :: 0 <= i < |items| ==> Proper(items[i])
    ensures ParseItems(PrintItems(items, l) + Gap(l) + [CLOSE_ARRAY] + rest) == Done(items, rest)
    decreases items, 0
  {
    hide ParseItems, ParseValue, Print, Gap, Skip, Proper, Stops;
    var first := Print(items[0], Inner(l));
    var t := PrintItems(items, l) + Gap(l) + [CLOSE_ARRAY] + rest;
    if |items| == 1 {
      var tail := [CLOSE_ARRAY] + rest;
      GapStops(l, tail);
      ReadBack(items[0], Inner(l), Gap(l) + tail);
      GapSkip(l, tail);
      NoSkip(tail);
      assert t == first + (Gap(l) + tail);
      LastItemParse(t, items[0], Gap(l) + tail, rest);
      assert [items[0]] == items;
    } else {
      var more := PrintItems(items[1..], l) + Gap(l) + [CLOSE_ARRAY] + rest;
      var tail := [COMMA] + (Gap(Inner(l)) + more);
      GapStops(l, tail);
      ReadBack(items[0], Inner(l), tail);
      assert t == first + tail;
      assert tail[1..] == Gap(Inner(l)) + more;
      GapSkip(Inner(l), more);
      ItemsSkip(tail[1..], more);
      ItemsReadBack(items[1..], l, rest);
      MoreItemsParse(t, items[0], tail, items[1..], rest);
      assert [items[0]] + items[1..] == items;
    }
  }

  lemma MemberParse(t: Text, m: Member, tail: Text, rest: Text)
    requires t != [] && t[0] == QUOTE && Strings.ReadString(t[1..]) == Strings.Read(m.key, tail)
    requires tail != [] && tail[0] == COLON && ParseValue(tail[1..]) == Done(m.value, rest)
    ensures ParseMember(t) == Done(m, rest)
  {
    hide ParseValue, Strings.ReadString;
    NoSkip(t);
    NoSkip(tail);
  }

  /** A key as it is printed is read back. */
  lemma KeyRead(m: Member, l: Layout, rest: Text)
    ensures var tail := Separator(l) + (Print(m.value, Inner(l)) + rest); var t := PrintMember(m, l) + rest;
            t != [] && t[0] == QUOTE && Strings.ReadString(t[1..]) == Strings.Read(m.key, tail)
  {
    hide Print, Strings.ReadString, Strings.Escaped, Separator;
    var tail := Separator(l) + (Print(m.value, Inner(l)) + rest);
    var t := PrintMember(m, l) + rest;
    assert t[1..] == Strings.Escaped(m.key) + [QUOTE] + tail;
    Strings.StringReadBack(m.key, tail);
  }

  /** The separator is a colon, and a space behind it is passed over. */
  lemma ValueRead(l: Layout, value: Text)
    ensures var tail := Separator(l) + value; tail != [] && tail[0] == COLON && ParseValue(tail[1..]) == ParseValue(value)
  {
    hide ParseValue, Skip;
    var tail := Separator(l) + value;
    if l.Compact? {
      assert tail[1..] == value;
    } else {
      assert tail[1..] == [32] + value;
      SpaceSkip(value);
      ParseSkips(tail[1..], value);
    }
  }

  lemma MemberParts(m: Member, l: Layout, rest: Text)
    requires ParseValue(Print(m.value, Inner(l)) + rest) == Done(m.value, rest)
    ensures ParseMember(PrintMember(m, l) + rest) == Done(m, rest)
  {
    hide ParseValue, ParseMember, Print, PrintMember, Separator, Strings.ReadString;
    var value := Print(m.value, Inner(l)) + rest;
    KeyRead(m, l, rest);
    ValueRead(l, value);
    MemberParse(PrintMember(m, l) + rest, m, Separator(l) + value, rest);
  }

  lemma SpaceSkip(t: Text)
    ensures Skip([32] + t) == Skip(t)
  {
    assert ([32] + t)[1..] == t;
  }

  lemma MoreMembersParse(t: Text, first: Member, tail: Text, others: seq<Member>, rest: Text)
    requires ParseMember(t) == Done(first, tail) && tail != [] && tail[0] == COMMA
    requires ParseMembers(tail[1..]) == Done(others, rest) && first.key !in Keys(others)
    ensures ParseMembers(t) == Done([first] + others, rest)
  {
    hide ParseMember;
    NoSkip(tail);
  }

  lemma LastMemberParse(t: Text, first: Member, gap: Text, rest: Text)
    requires ParseMember(t) == Done(first, gap) && Skip(gap) == [CLOSE_OBJECT] + rest
    ensures ParseMembers(t) == Done([first], rest)
  {
    hide ParseMember, Skip;
    assert ([CLOSE_OBJECT] + rest)[1..] == rest;
  }

  lemma LastMember(m: Member, l: Layout, rest: Text)
    requires forall t :: Stops(t) ==> ParseMember(PrintMember(m, l) + t) == Done(m, t)
    ensures ParseMembers(PrintMembers([m], l) + Gap(l) + [CLOSE_OBJECT] + rest) == Done([m], rest)
  {
    hide ParseMember, ParseMembers, PrintMember, Gap, Skip, Stops;
    var tail := [CLOSE_OBJECT] + rest;
    var t := PrintMember(m, l) + (Gap(l) + tail);
    GapStops(l, tail);
    GapSkip(l, tail);
    NoSkip(tail);
    assert PrintMembers([m], l) + Gap(l) + [CLOSE_OBJECT] + rest == t;
    LastMemberParse(t, m, Gap(l) + tail, rest);
  }

  lemma MoreMembers(m: Member, members: seq<Member>, l: Layout, rest: Text)
    requires members != [] && m.key !in Keys(members)
    requires forall t :: Stops(t) ==> ParseMember(PrintMember(m, l) + t) == Done(m, t)
    requires ParseMembers(PrintMembers(members, l) + Gap(l) + [CLOSE_OBJECT] + rest) == Done(members, rest)
    ensures ParseMembers(PrintMembers([m] + members, l) + Gap(l) + [CLOSE_OBJECT] + rest) == Done([m] + members, rest)
  {
    hide ParseMember, ParseMembers, PrintMember, Gap, Skip, Stops, Keys;
    var more := PrintMembers(members, l) + Gap(l) + [CLOSE_OBJECT] + rest;
    var tail := [COMMA] + (Gap(Inner(l)) + more);
    var t := PrintMembers([m] + members, l) + Gap(l) + [CLOSE_OBJECT] + rest;
    GapStops(l, tail);
    assert ([m] + members)[1..] == members;
    assert t == PrintMember(m, l) + tail;
    assert tail[1..] == Gap(Inner(l)) + more;
    GapSkip(Inner(l), more);
    ItemsSkip(tail[1..], more);
    MoreMembersParse(t, m, tail, members, rest);
  }

  lemma {:induction false} MembersReadBack(members: seq<Member>, l: Layout, rest: Text)
    requires members != [] && DistinctKeys(members) && forall i :: 0 <= i < |members| ==> Proper(members[i].value)
    ensures ParseMembers(PrintMembers(members, l) + Gap(l) + [CLOSE_OBJECT] + rest) == Done(members, rest)
    decreases members, 0
  {
    hide ParseMember, PrintMember, PrintMembers, ParseMembers, ParseValue, Print, Gap, Skip, Proper, Stops;
    var m := members[0];
    forall t | Stops(t) ensures ParseMember(PrintMember(m, l) + t) == Done(m, t) {
      ReadBack(m.value, Inner(l), t);
      MemberParts(m, l, t);
    }
    assert [m] + members[1..] == members;
    if |members| == 1 {
      assert [m] == members;
      LastMember(m, l, rest);
    } else {
      MembersReadBack(members[1..], l, rest);
      MoreMembers(m, members[1..], l, rest);
    }
  }

  /** The parser undoes both printed forms, with white space behind them. */
  lemma ParseUndoesPrint(j: Json, l: Layout, k: nat)
    requires Proper(j)
    ensures Parse(Print(j, l) + Lines(k)) == Done(j, [])
  {
    hide ParseValue, Print, Proper, Skip;
    LinesSkip(k);
    ReadBack(j, l, Lines(k));
  }

  /** Line ends. */
  function Lines(k: nat): (t: Text)
    ensures Stops(t)
  {
    if k == 0 then [] else [10] + Lines(k - 1)
  }

  lemma {:induction false} LinesSkip(k: nat)
    ensures Skip(Lines(k)) == []
  {
    if k > 0 {
      LinesSkip(k - 1);
    }
  }
}
