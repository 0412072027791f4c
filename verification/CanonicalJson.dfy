/** The canonical form that is signed and digested, and what survives writing a value to a file. */
module CanonicalJson {
  import opened Basics
  import opened Texts
  import opened JsonNumbers
  import opened JsonText
  import Strings = JsonStrings

  /** A number is finite, or it is NaN or an infinity. */
  datatype Numeric = Ordinary(n: Number) | NotFinite

  datatype Value =
    | Undefined
    | Null
    | Bool(b: bool)
    | Num(number: Numeric)
    | Str(s: Text)
    | Arr(elements: seq<Value>)
    | Obj(fields: seq<Field>)

  datatype Field = Field(key: Text, value: Value)

  function FieldKeys(fields: seq<Field>): seq<Text> {
    if fields == [] then [] else [fields[0].key] + FieldKeys(fields[1..])
  }

  predicate DistinctFields(fields: seq<Field>) {
    fields != [] ==> fields[0].key !in FieldKeys(fields[1..]) && DistinctFields(fields[1..])
  }

  predicate WellFormed(v: Value) {
    match v
    case Num(Ordinary(n)) => Shortest(n)
    case Arr(elements) => forall i :: 0 <= i < |elements| ==> WellFormed(elements[i])
    case Obj(fields) => DistinctFields(fields) && forall i :: 0 <= i < |fields| ==> WellFormed(fields[i].value)
    case _ => true
  }

  // ----- canonicalize -----

  function DefinedKeys(fields: seq<Field>): seq<Text> {
    if fields == [] then []
    else (if fields[0].value.Undefined? then [] else [fields[0].key]) + DefinedKeys(fields[1..])
  }

  /** `sort()` on different keys. */
  function SortKeys(keys: seq<Text>): seq<Text> {
    if keys == [] then [] else Insert(keys[0], SortKeys(keys[1..]))
  }

  /** `value[key]` */
  function Get(fields: seq<Field>, key: Text): (v: Value)
    ensures v.Undefined? || exists i :: 0 <= i < |fields| && fields[i].value == v
  {
    if fields == [] then Undefined
    else if fields[0].key == key then fields[0].value
    else
      var v := Get(fields[1..], key);
      assert forall i :: 0 <= i < |fields[1..]| ==> fields[1..][i] == fields[i + 1];
      v
  }

  /** `JSON.stringify` of anything but an object. */
  function Scalar(v: Value): Text
    requires !v.Undefined? && !v.Arr? && !v.Obj?
  {
    match v
    case Null => NULL
    case Bool(b) => if b then TRUE else FALSE
    case Num(NotFinite) => NULL
    case Num(Ordinary(n)) => PrintNumber(n)
    case Str(s) => Strings.Quoted(s)
  }

  /** `join(',')` */
  function Join(parts: seq<Text>): Text {
    if parts == [] then [] else if |parts| == 1 then parts[0] else parts[0] + [COMMA] + Join(parts[1..])
  }

  function Canonicalize(v: Value): (t: Option<Text>)
    ensures t.None? <==> v.Undefined?
    decreases v, 0
  {
    match v
    case Undefined => None
    case Arr(elements) => Some([OPEN_ARRAY] + Join(CanonicalItems(elements)) + [CLOSE_ARRAY])
    case Obj(fields) => Some([OPEN_OBJECT] + Join(CanonicalMembers(fields, SortKeys(DefinedKeys(fields)))) + [CLOSE_OBJECT])
    case _ => Some(Scalar(v))
  }

  function CanonicalItems(elements: seq<Value>): (parts: seq<Text>)
    ensures |parts| == |elements|
    decreases elements, 0
  {
    if elements == [] then []
    else [if elements[0].Undefined? then NULL else Canonicalize(elements[0]).value] + CanonicalItems(elements[1..])
  }

  function CanonicalMembers(fields: seq<Field>, keys: seq<Text>): (parts: seq<Text>)
    ensures |parts| == |keys|
    decreases fields, |keys|
  {
    if keys == [] then []
    else
      var v := Get(fields, keys[0]);
      [Strings.Quoted(keys[0]) + [COLON] + (if v.Undefined? then [] else Canonicalize(v).value)] + CanonicalMembers(fields, keys[1..])
  }

  // ----- what JSON keeps of a value -----

  /** `JSON.stringify` drops undefined members and prints null for what has no JSON form. */
  function Clean(v: Value): Json {
    match v
    case Undefined => JNull
    case Null => JNull
    case Bool(b) => JBool(b)
    case Num(NotFinite) => JNull
    case Num(Ordinary(n)) => JNumber(if n.Zero? then Zero(false) else n)
    case Str(s) => JString(s)
    case Arr(elements) => JArray(CleanItems(elements))
    case Obj(fields) => JObject(CleanFields(fields))
  }

  function CleanItems(elements: seq<Value>): (items: seq<Json>)
    ensures |items| == |elements| && forall i :: 0 <= i < |items| ==> items[i] == Clean(elements[i])
  {
    if elements == [] then [] else [Clean(elements[0])] + CleanItems(elements[1..])
  }

  function CleanFields(fields: seq<Field>): seq<Member> {
    if fields == [] then []
    else (if fields[0].value.Undefined? then [] else [Member(fields[0].key, Clean(fields[0].value))]) + CleanFields(fields[1..])
  }

  /** All objects with their members in key order. */
  function Sort(j: Json): Json {
    match j
    case JArray(items) => JArray(SortItems(items))
    case JObject(members) => JObject(SortMembers(members))
    case _ => j
  }

  function SortItems(items: seq<Json>): (r: seq<Json>)
    ensures |r| == |items| && forall i :: 0 <= i < |r| ==> r[i] == Sort(items[i])
  {
    if items == [] then [] else [Sort(items[0])] + SortItems(items[1..])
  }

  function SortMembers(members: seq<Member>): seq<Member> {
    if members == [] then [] else InsertMember(Member(members[0].key, Sort(members[0].value)), SortMembers(members[1..]))
  }

  function InsertMember(m: Member, members: seq<Member>): seq<Member> {
    if members == [] || Less(m.key, members[0].key) then [m] + members else [members[0]] + InsertMember(m, members[1..])
  }

  /** Equal up to the order of members. */
  ghost predicate Same(j: Json, k: Json) {
    match (j, k)
    case (JArray(a), JArray(b)) => |a| == |b| && forall i :: 0 <= i < |a| ==> Same(a[i], b[i])
    case (JObject(a), JObject(b)) =>
      && Members(Keys(a)) == Members(Keys(b))
      && forall x, y :: 0 <= x < |a| && 0 <= y < |b| && a[x].key == b[y].key ==> Same(a[x].value, b[y].value)
    case _ => j == k
  }

  // ----- sorting members -----

  lemma KeysCons(m: Member, members: seq<Member>)
    ensures Keys([m] + members) == [m.key] + Keys(members)
    ensures Members(Keys([m] + members)) == {m.key} + Members(Keys(members))
  {
    assert ([m] + members)[1..] == members;
    assert Keys([m] + members) == [m.key] + Keys(members);
  }

  lemma ConsIncreases(m: Member, members: seq<Member>)
    requires Increasing(Keys(members)) && forall k :: k in Members(Keys(members)) ==> Less(m.key, k)
    ensures Increasing(Keys([m] + members))
  {
    hide Less;
    KeysCons(m, members);
    IncreasingCons(m.key, Keys(members));
  }

  /** What is less than the first key is less than all of them; the first is less than the others. */
  lemma FirstIsLeast(head: Member, tail: seq<Member>, k: Text)
    requires Increasing(Keys([head] + tail))
    ensures Increasing(Keys(tail)) && forall x :: x in Members(Keys(tail)) ==> Less(head.key, x)
    ensures Less(k, head.key) ==> forall x :: x in Members(Keys(tail)) ==> Less(k, x)
  {
    hide Less;
    KeysCons(head, tail);
    IncreasingTail(Keys([head] + tail));
    if Less(k, head.key) {
      forall x | x in Members(Keys(tail)) ensures Less(k, x) {
        LessTransitive(k, head.key, x);
      }
    }
  }

  lemma {:induction false} InsertMemberIs(m: Member, members: seq<Member>)
    requires Increasing(Keys(members)) && m.key !in Members(Keys(members))
    ensures var r := InsertMember(m, members);
            && Increasing(Keys(r)) && Members(Keys(r)) == Members(Keys(members)) + {m.key}
            && forall x :: x in r <==> x == m || x in members
  {
    hide Less, Increasing, Keys;
    KeysCons(m, members);
    if members == [] {
      NoKeys();
      ConsIncreases(m, []);
    } else {
      var head, tail := members[0], members[1..];
      assert [head] + tail == members;
      KeysCons(head, tail);
      FirstIsLeast(head, tail, m.key);
      if Less(m.key, head.key) {
        ConsIncreases(m, members);
      } else {
        LessTotal(m.key, head.key);
        InsertMemberIs(m, tail);
        KeysCons(head, InsertMember(m, tail));
        ConsIncreases(head, InsertMember(m, tail));
      }
    }
  }

  lemma NoKeys()
    ensures Keys([]) == [] && Members([]) == {} && Increasing([])
  {
  }

  predicate SortedFrom(m: Member, from: Member) { m == Member(from.key, Sort(from.value)) }

  /** Sorting orders the keys and keeps the members, with their values sorted. */
  lemma {:induction false} SortMembersIs(members: seq<Member>)
    requires DistinctKeys(members)
    ensures var r := SortMembers(members);
            && Increasing(Keys(r)) && Members(Keys(r)) == Members(Keys(members))
            && (forall m :: m in r ==> exists f :: f in members && SortedFrom(m, f))
            && (forall f :: f in members ==> Member(f.key, Sort(f.value)) in r)
  {
    hide Sort, Increasing, Keys;
    NoKeys();
    if members != [] {
      var head, tail := members[0], members[1..];
      assert [head] + tail == members;
      KeysCons(head, tail);
      assert head.key !in Members(Keys(tail));
      SortMembersIs(tail);
      InsertMemberIs(Member(head.key, Sort(head.value)), SortMembers(tail));
      assert SortedFrom(Member(head.key, Sort(head.value)), head);
    }
  }

  lemma {:induction false} IncreasingIsDistinct(members: seq<Member>)
    requires Increasing(Keys(members))
    ensures DistinctKeys(members)
  {
    if members != [] {
      var head, tail := members[0], members[1..];
      assert [head] + tail == members;
      FirstIsLeast(head, tail, head.key);
      IncreasingIsDistinct(tail);
      LessIrreflexive(head.key);
      assert head.key !in Members(Keys(tail));
    }
  }

  lemma {:induction false} SortProper(j: Json)
    requires Proper(j)
    ensures Proper(Sort(j))
  {
    match j {
      case JArray(items) =>
        forall i | 0 <= i < |items| ensures Proper(Sort(items[i])) {
          SortProper(items[i]);
        }
      case JObject(members) =>
        SortMembersIs(members);
        IncreasingIsDistinct(SortMembers(members));
        forall m | m in SortMembers(members) ensures Proper(m.value) {
          var f :| f in members && SortedFrom(m, f);
          SortProper(f.value);
        }
      case _ =>
    }
  }

  lemma SameKeySameMember(members: seq<Member>, m: Member, n: Member)
    requires Increasing(Keys(members)) && m in members && n in members && m.key == n.key
    ensures m == n
  {
    var i, j :| 0 <= i < |members| && members[i] == m && 0 <= j < |members| && members[j] == n;
    LessIrreflexive(m.key);
    assert Keys(members)[i] == Keys(members)[j];
  }

  /** Sorting makes values alike exactly when they are equal up to the order of members. */
  lemma {:induction false} SortSame(j: Json, k: Json)
    requires Proper(j) && Proper(k)
    ensures Sort(j) == Sort(k) <==> Same(j, k)
  {
    hide Increasing, Keys;
    match (j, k) {
      case (JArray(a), JArray(b)) =>
        if |a| == |b| {
          forall i | 0 <= i < |a| ensures SortItems(a)[i] == SortItems(b)[i] <==> Same(a[i], b[i]) {
            SortSame(a[i], b[i]);
          }
          assert SortItems(a) == SortItems(b) <==> forall i :: 0 <= i < |a| ==> SortItems(a)[i] == SortItems(b)[i];
        } else {
          assert |SortItems(a)| != |SortItems(b)|;
        }
      case (JObject(a), JObject(b)) =>
        forall x, y | x in a && y in b ensures Sort(x.value) == Sort(y.value) <==> Same(x.value, y.value) {
          SortSame(x.value, y.value);
        }
        ObjectsSame(a, b);
      case _ =>
    }
  }

  lemma ObjectsSame(a: seq<Member>, b: seq<Member>)
    requires DistinctKeys(a) && DistinctKeys(b)
    requires forall x, y :: x in a && y in b ==> (Sort(x.value) == Sort(y.value) <==> Same(x.value, y.value))
    ensures SortMembers(a) == SortMembers(b) <==> Same(JObject(a), JObject(b))
  {
    hide Sort, SortMembers, DistinctKeys, Increasing, Same, Keys;
    SortMembersIs(a);
    SortMembersIs(b);
    if SortMembers(a) == SortMembers(b) {
      OneSorting(a, b, SortMembers(a));
    } else if Same(JObject(a), JObject(b)) {
      SameKeys(a, b);
      SortUnique(Keys(SortMembers(a)), Keys(SortMembers(b)));
      SameEverywhere(a, b, SortMembers(a), SortMembers(b));
    }
  }

  lemma SameKeys(a: seq<Member>, b: seq<Member>)
    requires Same(JObject(a), JObject(b))
    ensures Members(Keys(a)) == Members(Keys(b))
  {
    hide Keys;
  }

  lemma OneSorting(a: seq<Member>, b: seq<Member>, m: seq<Member>)
    requires Members(Keys(a)) == Members(Keys(b)) && Increasing(Keys(m))
    requires forall x, y :: x in a && y in b ==> (Sort(x.value) == Sort(y.value) <==> Same(x.value, y.value))
    requires forall f :: f in a ==> Member(f.key, Sort(f.value)) in m
    requires forall f :: f in b ==> Member(f.key, Sort(f.value)) in m
    ensures Same(JObject(a), JObject(b))
  {
    hide Sort, Keys, Increasing;
    forall x, y | 0 <= x < |a| && 0 <= y < |b| && a[x].key == b[y].key ensures Same(a[x].value, b[y].value) {
      assert a[x] in a && b[y] in b;
      SameKeySameMember(m, Member(a[x].key, Sort(a[x].value)), Member(b[y].key, Sort(b[y].value)));
    }
  }

  lemma SameEverywhere(a: seq<Member>, b: seq<Member>, m: seq<Member>, n: seq<Member>)
    requires Keys(m) == Keys(n)
    requires forall x, y :: x in a && y in b ==> (Sort(x.value) == Sort(y.value) <==> Same(x.value, y.value))
    requires forall x :: x in m ==> exists f :: f in a && SortedFrom(x, f)
    requires forall y :: y in n ==> exists f :: f in b && SortedFrom(y, f)
    requires Same(JObject(a), JObject(b))
    ensures m == n
  {
    hide Sort;
    assert |Keys(m)| == |m| && |Keys(n)| == |n|;
    forall i | 0 <= i < |m| ensures m[i] == n[i] {
      assert m[i] in m && n[i] in n && Keys(m)[i] == Keys(n)[i];
      var f :| f in a && SortedFrom(m[i], f);
      var g :| g in b && SortedFrom(n[i], g);
      assert f.key == g.key;
    }
  }

  // ----- the code's canonical form is the compact print of the sorted value -----

  lemma {:induction false} CleanKeys(fields: seq<Field>)
    ensures Keys(CleanFields(fields)) == DefinedKeys(fields)
  {
    if fields != [] {
      CleanKeys(fields[1..]);
      if !fields[0].value.Undefined? {
        KeysCons(Member(fields[0].key, Clean(fields[0].value)), CleanFields(fields[1..]));
      }
    }
  }

  lemma {:induction false} DefinedAmong(fields: seq<Field>)
    ensures forall k :: k in DefinedKeys(fields) ==> k in FieldKeys(fields)
  {
    if fields != [] {
      DefinedAmong(fields[1..]);
    }
  }

  /** A cleaned member has the value that the object has for its key. */
  lemma {:induction false} CleanMember(fields: seq<Field>, m: Member)
    requires DistinctFields(fields) && m in CleanFields(fields)
    ensures m.key in FieldKeys(fields)
    ensures !Get(fields, m.key).Undefined? && m.value == Clean(Get(fields, m.key))
  {
    var f := fields[0];
    if !(!f.value.Undefined? && m == Member(f.key, Clean(f.value))) {
      CleanMember(fields[1..], m);
    }
  }

  lemma {:induction false} CleanProper(v: Value)
    requires WellFormed(v)
    ensures Proper(Clean(v))
  {
    match v {
      case Arr(elements) =>
        forall i | 0 <= i < |elements| ensures Proper(Clean(elements[i])) {
          CleanProper(elements[i]);
        }
      case Obj(fields) =>
        forall i | 0 <= i < |fields| ensures Proper(Clean(fields[i].value)) {
          CleanProper(fields[i].value);
        }
        CleanFieldsProper(fields);
      case _ =>
    }
  }

  lemma {:induction false} CleanFieldsProper(fields: seq<Field>)
    requires DistinctFields(fields) && forall i :: 0 <= i < |fields| ==> Proper(Clean(fields[i].value))
    ensures DistinctKeys(CleanFields(fields)) && forall m :: m in CleanFields(fields) ==> Proper(m.value)
  {
    hide Clean, Proper, DistinctKeys, Keys;
    DistinctCleaned(fields);
    if fields != [] {
      DistinctCleaned(fields[1..]);
      CleanFieldsProper(fields[1..]);
    }
  }

  lemma {:induction false} SortKeysIs(keys: seq<Text>)
    ensures IsSortOf(SortKeys(keys), Members(keys))
  {
    if keys != [] {
      SortKeysIs(keys[1..]);
      InsertSorts(keys[0], SortKeys(keys[1..]));
      assert keys == [keys[0]] + keys[1..];
    }
  }

  lemma {:induction false} CanonicalizeIs(v: Value)
    requires WellFormed(v) && !v.Undefined?
    ensures Canonicalize(v) == Some(Print(Sort(Clean(v)), Compact))
    decreases v, 0
  {
    hide PrintMagnitude, Strings.Quoted, PrintItems, PrintMembers, CanonicalItems, CanonicalMembers, SortMembers, Join, WellFormed;
    WellFormedParts(v);
    match v {
      case Arr(elements) =>
        PrintArray(SortItems(CleanItems(elements)));
        if elements != [] {
          ItemsJoin(elements);
        } else {
          NothingJoined([]);
        }
      case Obj(fields) =>
        ObjectJoin(fields);
      case _ =>
    }
  }

  lemma WellFormedParts(v: Value)
    requires WellFormed(v)
    ensures v.Arr? ==> forall i :: 0 <= i < |v.elements| ==> WellFormed(v.elements[i])
    ensures v.Obj? ==> DistinctFields(v.fields) && forall i :: 0 <= i < |v.fields| ==> WellFormed(v.fields[i].value)
  {
  }

  lemma NothingJoined(fields: seq<Field>)
    ensures Join(CanonicalItems([])) == [] && Join(CanonicalMembers(fields, [])) == []
  {
  }

  lemma {:induction false} ItemsJoin(elements: seq<Value>)
    requires elements != [] && forall i :: 0 <= i < |elements| ==> WellFormed(elements[i])
    ensures Join(CanonicalItems(elements)) == PrintItems(SortItems(CleanItems(elements)), Compact)
    decreases elements, 0
  {
    hide WellFormed, Print, Canonicalize, Clean, Sort;
    var parts := CanonicalItems(elements);
    assert parts[0] == Print(Sort(Clean(elements[0])), Compact) by {
      FirstItem(elements);
      if !elements[0].Undefined? {
        CanonicalizeIs(elements[0]);
      }
    }
    assert SortItems(CleanItems(elements))[1..] == SortItems(CleanItems(elements[1..]));
    assert parts[1..] == CanonicalItems(elements[1..]);
    if |elements| > 1 {
      ItemsJoin(elements[1..]);
      assert [COMMA] + [] + Join(parts[1..]) == [COMMA] + Join(parts[1..]);
    }
  }

  lemma FirstItem(elements: seq<Value>)
    requires elements != []
    ensures elements[0].Undefined? ==> Print(Sort(Clean(elements[0])), Compact) == NULL
  {
  }

  lemma {:induction false} MembersJoin(fields: seq<Field>, members: seq<Member>)
    requires forall m :: m in members ==> Canonicalize(Get(fields, m.key)) == Some(Print(m.value, Compact))
    ensures Join(CanonicalMembers(fields, Keys(members))) == if members == [] then [] else PrintMembers(members, Compact)
    decreases |members|
  {
    hide Print, Canonicalize, Get, Strings.Quoted;
    var parts := CanonicalMembers(fields, Keys(members));
    if members == [] {
      NoKeys();
    } else {
      var m, tail := members[0], members[1..];
      MembersJoin(fields, tail);
      assert Keys(members)[0] == m.key && Keys(members)[1..] == Keys(tail);
      assert Canonicalize(Get(fields, m.key)) == Some(Print(m.value, Compact));
      assert parts[0] == PrintMember(m, Compact);
      assert parts[1..] == CanonicalMembers(fields, Keys(tail));
      if |members| > 1 {
        assert [COMMA] + [] + Join(parts[1..]) == [COMMA] + Join(parts[1..]);
      }
    }
  }

  lemma {:induction false} ObjectJoin(fields: seq<Field>)
    requires DistinctFields(fields) && forall i :: 0 <= i < |fields| ==> WellFormed(fields[i].value)
    ensures Canonicalize(Obj(fields)) == Some(Print(Sort(Clean(Obj(fields))), Compact))
    decreases fields, 1
  {
    hide Increasing, WellFormed, CanonicalMembers, SortMembers, SortKeys, CleanFields, DefinedKeys, PrintMembers, Join, Get, Keys;
    var doc, keys := CleanFields(fields), SortKeys(DefinedKeys(fields));
    var members := SortMembers(doc);
    SortedKeysAgree(fields);
    forall i | 0 <= i < |fields| ensures WellFormed(fields[i].value) && (fields[i].value.Undefined? || Canonicalize(fields[i].value) == Some(Print(Sort(Clean(fields[i].value)), Compact))) {
      if !fields[i].value.Undefined? {
        CanonicalizeIs(fields[i].value);
      }
    }
    MembersCanonical(fields);
    MembersJoin(fields, members);
    PrintObject(members);
    if members == [] {
      assert [OPEN_OBJECT] + [] + [CLOSE_OBJECT] == [OPEN_OBJECT, CLOSE_OBJECT];
    }
  }

  lemma PrintArray(items: seq<Json>)
    ensures Print(JArray(items), Compact) == [OPEN_ARRAY] + (if items == [] then [] else PrintItems(items, Compact)) + [CLOSE_ARRAY]
  {
    hide PrintItems;
  }

  lemma PrintObject(members: seq<Member>)
    ensures Print(JObject(members), Compact) == [OPEN_OBJECT] + (if members == [] then [] else PrintMembers(members, Compact)) + [CLOSE_OBJECT]
  {
    hide PrintMembers;
  }

  lemma SortedKeysAgree(fields: seq<Field>)
    requires DistinctFields(fields)
    ensures DistinctKeys(CleanFields(fields))
    ensures Keys(SortMembers(CleanFields(fields))) == SortKeys(DefinedKeys(fields))
  {
    hide Increasing, SortMembers, SortKeys, DistinctFields, CleanFields;
    DistinctCleaned(fields);
    CleanKeys(fields);
    SortMembersIs(CleanFields(fields));
    SortKeysIs(DefinedKeys(fields));
    SortUnique(Keys(SortMembers(CleanFields(fields))), SortKeys(DefinedKeys(fields)));
  }

  lemma {:induction false} DistinctCleaned(fields: seq<Field>)
    requires DistinctFields(fields)
    ensures DistinctKeys(CleanFields(fields))
  {
    hide Clean;
    if fields != [] {
      DistinctCleaned(fields[1..]);
      CleanKeys(fields[1..]);
      DefinedAmong(fields[1..]);
      var m, tail := Member(fields[0].key, Clean(fields[0].value)), CleanFields(fields[1..]);
      assert ([m] + tail)[1..] == tail && [] + tail == tail;
    }
  }

  lemma MembersCanonical(fields: seq<Field>)
    requires DistinctFields(fields) && DistinctKeys(CleanFields(fields))
    requires forall i :: 0 <= i < |fields| ==> fields[i].value.Undefined? || Canonicalize(fields[i].value) == Some(Print(Sort(Clean(fields[i].value)), Compact))
    ensures forall m :: m in SortMembers(CleanFields(fields)) ==> Canonicalize(Get(fields, m.key)) == Some(Print(m.value, Compact))
  {
    hide Increasing, SortMembers, CleanFields, Canonicalize, Print, Sort, Clean, DistinctFields, DistinctKeys, Keys, FieldKeys, Get;
    SortMembersIs(CleanFields(fields));
    forall m | m in SortMembers(CleanFields(fields)) ensures Canonicalize(Get(fields, m.key)) == Some(Print(m.value, Compact)) {
      var f :| f in CleanFields(fields) && SortedFrom(m, f);
      CleanMember(fields, f);
    }
  }

  // ----- main results -----

  /** The parser undoes `canonicalize`, up to key order and dropped undefined members. */
  lemma ParseUndoesCanonicalize(v: Value)
    requires WellFormed(v) && !v.Undefined?
    ensures Parse(Canonicalize(v).value) == Done(Sort(Clean(v)), [])
  {
    hide Parse, Print, Canonicalize, Sort, Clean, Proper, WellFormed;
    CanonicalizeIs(v);
    CleanProper(v);
    SortProper(Clean(v));
    ParseUndoesPrint(Sort(Clean(v)), Compact, 0);
    NoLines();
    assert Print(Sort(Clean(v)), Compact) + [] == Print(Sort(Clean(v)), Compact);
  }

  lemma NoLines()
    ensures Lines(0) == [] && Lines(1) == [10]
  {
    assert Lines(1) == [10] + Lines(0);
  }

  /** Two values have the same canonical form exactly when JSON keeps the same of them, up to the order
      of members: no two different payloads share their signed bytes. */
  lemma CanonicalExactly(v: Value, w: Value)
    requires WellFormed(v) && WellFormed(w) && !v.Undefined? && !w.Undefined?
    ensures Canonicalize(v) == Canonicalize(w) <==> Same(Clean(v), Clean(w))
  {
    hide Parse, Print, Canonicalize, Sort, Clean, Proper, WellFormed, Same;
    ParseUndoesCanonicalize(v);
    ParseUndoesCanonicalize(w);
    CanonicalizeIs(v);
    CanonicalizeIs(w);
    CleanProper(v);
    CleanProper(w);
    SortSame(Clean(v), Clean(w));
  }

  // ----- the layout -----

  /** Where a scan of a text stands: outside string literals, in one, or behind its backslash. */
  datatype Place = Outside | Inside | Escaping

  function Onward(p: Place, c: CodeUnit): Place {
    match p
    case Outside => if c == QUOTE then Inside else Outside
    case Inside => if c == QUOTE then Outside else if c == Strings.BACKSLASH then Escaping else Inside
    case Escaping => Inside
  }

  function EndOf(p: Place, t: Text): Place
    decreases |t|
  {
    if t == [] then p else EndOf(Onward(p, t[0]), t[1..])
  }

  /** There is no white space outside string literals. */
  predicate Dense(p: Place, t: Text)
    decreases |t|
  {
    t != [] ==> !(p.Outside? && IsSpace(t[0])) && Dense(Onward(p, t[0]), t[1..])
  }

  /** A part of a text that is dense and complete. */
  predicate Token(t: Text) {
    Dense(Outside, t) && EndOf(Outside, t) == Outside
  }

  lemma {:induction false} ScanSum(p: Place, a: Text, b: Text)
    ensures EndOf(p, a + b) == EndOf(EndOf(p, a), b)
    ensures Dense(p, a + b) <==> Dense(p, a) && Dense(EndOf(p, a), b)
    decreases |a|
  {
    if a == [] {
      assert a + b == b;
    } else {
      ScanSum(Onward(p, a[0]), a[1..], b);
      assert (a + b)[1..] == a[1..] + b && (a + b)[0] == a[0];
    }
  }

  lemma TokenSum(a: Text, b: Text)
    requires Token(a) && Token(b)
    ensures Token(a + b)
  {
    hide Dense, EndOf;
    ScanSum(Outside, a, b);
  }

  lemma {:induction false} PlainToken(t: Text)
    requires forall i :: 0 <= i < |t| ==> t[i] != QUOTE && !IsSpace(t[i])
    ensures Token(t)
  {
    if t != [] {
      PlainToken(t[1..]);
    }
  }

  lemma BackslashScan(c: CodeUnit)
    ensures EndOf(Inside, [Strings.BACKSLASH, c]) == Inside && Dense(Inside, [Strings.BACKSLASH, c])
  {
    var t := [Strings.BACKSLASH, c];
    assert t[1..] == [c] && [c][1..] == [];
    assert EndOf(Escaping, [c]) == EndOf(Inside, []) == Inside;
    assert Dense(Escaping, [c]) == Dense(Inside, []) == true;
  }

  lemma EscapeInside(c: CodeUnit)
    ensures Dense(Inside, Strings.Escape(c)) && EndOf(Inside, Strings.Escape(c)) == Inside
  {
    hide Dense, EndOf;
    var e := Strings.Escape(c);
    if |e| == 1 {
      LettersInside(e);
    } else {
      BackslashScan(e[1]);
      LettersInside(e[2..]);
      ScanSum(Inside, [Strings.BACKSLASH, e[1]], e[2..]);
      assert e == [Strings.BACKSLASH, e[1]] + e[2..];
    }
  }

  lemma {:induction false} LettersInside(t: Text)
    requires forall i :: 0 <= i < |t| ==> t[i] != QUOTE && t[i] != Strings.BACKSLASH
    ensures Dense(Inside, t) && EndOf(Inside, t) == Inside
  {
    if t != [] {
      LettersInside(t[1..]);
    }
  }

  lemma {:induction false} EscapedInside(s: Text)
    ensures Dense(Inside, Strings.Escaped(s)) && EndOf(Inside, Strings.Escaped(s)) == Inside
  {
    hide Dense, EndOf, Strings.Escape;
    if s == [] {
      LettersInside([]);
    } else if |s| > 1 && Strings.High(s[0]) && Strings.Low(s[1]) {
      EscapedInside(s[2..]);
      LettersInside([s[0], s[1]]);
      ScanSum(Inside, [s[0], s[1]], Strings.Escaped(s[2..]));
    } else {
      EscapedInside(s[1..]);
      EscapeInside(s[0]);
      ScanSum(Inside, Strings.Escape(s[0]), Strings.Escaped(s[1..]));
    }
  }

  lemma QuotedToken(s: Text)
    ensures Token(Strings.Quoted(s))
  {
    EscapedInside(s);
    QuoteScan();
    hide Dense, EndOf;
    ScanSum(Outside, [QUOTE], Strings.Escaped(s));
    ScanSum(Outside, [QUOTE] + Strings.Escaped(s), [QUOTE]);
  }

  lemma QuoteScan()
    ensures EndOf(Outside, [QUOTE]) == Inside && Dense(Outside, [QUOTE])
    ensures EndOf(Inside, [QUOTE]) == Outside && Dense(Inside, [QUOTE])
  {
    assert [QUOTE][1..] == [];
  }

  /** The units of which numbers are made. */
  predicate NumberUnits(t: Text) {
    forall i :: 0 <= i < |t| ==> IsDigit(t[i]) || t[i] in {MINUS, PLUS, POINT, SMALL_E}
  }

  lemma NumericSum(a: Text, b: Text)
    requires NumberUnits(a) && NumberUnits(b)
    ensures NumberUnits(a + b)
  {
  }

  lemma DecimalNumeric(n: nat, k: nat)
    ensures NumberUnits(Decimal(n)) && |Decimal(n)| >= 1 && NumberUnits(Zeros(k)) && |Zeros(k)| == k
  {
    DecimalLeads(n);
    ZerosDigits(k);
  }

  lemma NumberNumeric(n: Number)
    ensures NumberUnits(PrintNumber(n))
  {
    hide Decimal, Zeros;
    if n.Finite? {
      var d := Decimal(n.digits);
      var p := |d| + n.exponent;
      DecimalNumeric(n.digits, if n.exponent >= 0 then n.exponent else if p <= 0 then -p else 0);
      DecimalNumeric(if p >= 1 then p - 1 else 1 - p, 0);
      NumericSum(d, Zeros(if n.exponent >= 0 then n.exponent else 0));
      assert NumberUnits(PrintExponent(p - 1));
    }
  }

  lemma NumberToken(n: Number)
    ensures Token(PrintNumber(n))
  {
    hide PrintNumber, Token;
    NumberNumeric(n);
    PlainToken(PrintNumber(n));
  }

  lemma {:induction false} PrintedDense(j: Json)
    ensures Token(Print(j, Compact))
    decreases j, 0
  {
    hide Token, PrintNumber, Strings.Quoted, PrintItems, PrintMembers;
    match j {
      case JNumber(n) => NumberToken(n);
      case JString(s) => QuotedToken(s);
      case JArray(items) =>
        PlainToken([OPEN_ARRAY]);
        PlainToken([CLOSE_ARRAY]);
        TokenSum([OPEN_ARRAY], [CLOSE_ARRAY]);
        PrintArray(items);
        if items != [] {
          ItemsDense(items);
          TokenSum([OPEN_ARRAY], PrintItems(items, Compact));
          TokenSum([OPEN_ARRAY] + PrintItems(items, Compact), [CLOSE_ARRAY]);
        } else {
          assert [OPEN_ARRAY] + [] + [CLOSE_ARRAY] == [OPEN_ARRAY] + [CLOSE_ARRAY];
        }
      case JObject(members) =>
        PlainToken([OPEN_OBJECT]);
        PlainToken([CLOSE_OBJECT]);
        TokenSum([OPEN_OBJECT], [CLOSE_OBJECT]);
        PrintObject(members);
        if members != [] {
          MembersDense(members);
          TokenSum([OPEN_OBJECT], PrintMembers(members, Compact));
          TokenSum([OPEN_OBJECT] + PrintMembers(members, Compact), [CLOSE_OBJECT]);
        } else {
          assert [OPEN_OBJECT] + [] + [CLOSE_OBJECT] == [OPEN_OBJECT] + [CLOSE_OBJECT];
        }
      case _ => PlainToken(Print(j, Compact));
    }
  }

  lemma {:induction false} ItemsDense(items: seq<Json>)
    requires items != []
    ensures Token(PrintItems(items, Compact))
    decreases items, 0
  {
    hide Token, Print;
    PrintedDense(items[0]);
    if |items| > 1 {
      ItemsDense(items[1..]);
      PlainToken([COMMA]);
      TokenSum([COMMA], PrintItems(items[1..], Compact));
      TokenSum(Print(items[0], Compact), [COMMA] + PrintItems(items[1..], Compact));
      assert [COMMA] + [] == [COMMA];
    } else {
      assert Print(items[0], Compact) + [] == Print(items[0], Compact);
    }
  }

  lemma {:induction false} MembersDense(members: seq<Member>)
    requires members != []
    ensures Token(PrintMembers(members, Compact))
    decreases members, 0
  {
    hide Token, Print, Strings.Quoted, PrintMember, PrintMembers;
    var m := members[0];
    PrintMemberIs(m);
    PrintMembersIs(members);
    PrintedDense(m.value);
    QuotedToken(m.key);
    PlainToken([COLON]);
    TokenSum(Strings.Quoted(m.key), [COLON]);
    TokenSum(Strings.Quoted(m.key) + [COLON], Print(m.value, Compact));
    if |members| > 1 {
      MembersDense(members[1..]);
      PlainToken([COMMA]);
      TokenSum([COMMA], PrintMembers(members[1..], Compact));
      TokenSum(PrintMember(m, Compact), [COMMA] + PrintMembers(members[1..], Compact));
    }
  }

  lemma PrintMemberIs(m: Member)
    ensures PrintMember(m, Compact) == Strings.Quoted(m.key) + [COLON] + Print(m.value, Compact)
  {
    hide Print, Strings.Quoted;
  }

  lemma PrintMembersIs(members: seq<Member>)
    requires members != []
    ensures PrintMembers(members, Compact) ==
            if |members| == 1 then PrintMember(members[0], Compact) else PrintMember(members[0], Compact) + ([COMMA] + PrintMembers(members[1..], Compact))
  {
    hide PrintMember;
    assert [COMMA] + [] == [COMMA];
    assert PrintMember(members[0], Compact) + [] == PrintMember(members[0], Compact);
  }

  /** The canonical form has no white space outside its strings. */
  lemma CanonicalDense(v: Value)
    requires WellFormed(v) && !v.Undefined?
    ensures Dense(Outside, Canonicalize(v).value)
  {
    hide Canonicalize, Print, Dense;
    CanonicalizeIs(v);
    PrintedDense(Sort(Clean(v)));
  }

  // ----- files -----

  /** `writeJson`: indented, with a line end. */
  function WriteJson(v: Value): Text {
    Print(Clean(v), Indented(0)) + Lines(1)
  }

  function AsValue(j: Json): Value {
    match j
    case JNull => Null
    case JBool(b) => Bool(b)
    case JNumber(n) => Num(Ordinary(n))
    case JString(s) => Str(s)
    case JArray(items) => Arr(AsElements(items))
    case JObject(members) => Obj(AsFields(members))
  }

  function AsElements(items: seq<Json>): (r: seq<Value>)
    ensures |r| == |items| && forall i :: 0 <= i < |r| ==> r[i] == AsValue(items[i])
  {
    if items == [] then [] else [AsValue(items[0])] + AsElements(items[1..])
  }

  function AsFields(members: seq<Member>): (r: seq<Field>)
    ensures |r| == |members| && forall i :: 0 <= i < |r| ==> r[i] == Field(members[i].key, AsValue(members[i].value))
  {
    if members == [] then [] else [Field(members[0].key, AsValue(members[0].value))] + AsFields(members[1..])
  }

  /** `readJson` */
  function ReadJson(t: Text): Option<Value> {
    var r := Parse(t);
    if r.Done? then Some(AsValue(r.value)) else None
  }

  lemma {:induction false} CleanAsValue(j: Json)
    requires Proper(j)
    ensures Clean(AsValue(j)) == j && WellFormed(AsValue(j)) && !AsValue(j).Undefined?
  {
    match j {
      case JArray(items) =>
        forall i | 0 <= i < |items| ensures Clean(AsValue(items[i])) == items[i] && WellFormed(AsValue(items[i])) {
          CleanAsValue(items[i]);
        }
        assert CleanItems(AsElements(items)) == items;
      case JObject(members) =>
        forall i | 0 <= i < |members|
          ensures Clean(AsValue(members[i].value)) == members[i].value && WellFormed(AsValue(members[i].value)) && !AsValue(members[i].value).Undefined?
        {
          CleanAsValue(members[i].value);
        }
        CleanAsFields(members);
      case _ =>
    }
  }

  lemma {:induction false} CleanAsFields(members: seq<Member>)
    requires DistinctKeys(members)
    requires forall i :: 0 <= i < |members| ==> Clean(AsValue(members[i].value)) == members[i].value && !AsValue(members[i].value).Undefined?
    ensures CleanFields(AsFields(members)) == members && FieldKeys(AsFields(members)) == Keys(members) && DistinctFields(AsFields(members))
  {
    hide Clean, AsValue;
    if members != [] {
      CleanAsFields(members[1..]);
      assert AsFields(members)[1..] == AsFields(members[1..]);
      assert members == [members[0]] + members[1..];
    }
  }

  /** Writing a value to a file and reading it back leaves its canonical form unchanged. */
  lemma CanonicalFormSurvives(v: Value)
    requires WellFormed(v) && !v.Undefined?
    ensures ReadJson(WriteJson(v)) == Some(AsValue(Clean(v)))
    ensures WellFormed(AsValue(Clean(v))) && Canonicalize(AsValue(Clean(v))) == Canonicalize(v)
  {
    hide Parse, Print, Canonicalize, Sort, Clean, Proper, WellFormed, AsValue;
    CleanProper(v);
    CleanAsValue(Clean(v));
    ParseUndoesPrint(Clean(v), Indented(0), 1);
    CanonicalizeIs(v);
    CanonicalizeIs(AsValue(Clean(v)));
  }

  /** Object rest: all fields but one. */
  function OmitField(fields: seq<Field>, key: Text): seq<Field> {
    if fields == [] then []
    else (if fields[0].key == key then [] else [fields[0]]) + OmitField(fields[1..], key)
  }

  const SIGNATURE: Text := [115, 105, 103, 110, 97, 116, 117, 114, 101]

  /** `{ ...event, signature }` */
  function WithSignature(fields: seq<Field>, signature: Text): seq<Field> {
    fields + [Field(SIGNATURE, Str(signature))]
  }

  lemma {:induction false} CleanSigned(fields: seq<Field>, signature: Text)
    requires DistinctFields(fields) && SIGNATURE !in FieldKeys(fields)
    ensures CleanFields(WithSignature(fields, signature)) == CleanFields(fields) + [Member(SIGNATURE, JString(signature))]
    ensures FieldKeys(WithSignature(fields, signature)) == FieldKeys(fields) + [SIGNATURE]
    ensures DistinctFields(WithSignature(fields, signature))
  {
    hide Clean;
    var all := WithSignature(fields, signature);
    if fields == [] {
      SignatureAlone(signature);
      assert all == [Field(SIGNATURE, Str(signature))];
    } else {
      CleanSigned(fields[1..], signature);
      assert all[1..] == WithSignature(fields[1..], signature);
    }
  }

  lemma SignatureAlone(signature: Text)
    ensures CleanFields([Field(SIGNATURE, Str(signature))]) == [Member(SIGNATURE, JString(signature))]
  {
  }

  lemma {:induction false} OmitSigned(members: seq<Member>, signature: Text)
    requires SIGNATURE !in Keys(members)
    ensures OmitField(AsFields(members + [Member(SIGNATURE, JString(signature))]), SIGNATURE) == AsFields(members)
  {
    var all := members + [Member(SIGNATURE, JString(signature))];
    if members != [] {
      OmitSigned(members[1..], signature);
      assert all[1..] == members[1..] + [Member(SIGNATURE, JString(signature))];
    }
  }

  /** An event is signed over its canonical form, written with its signature, read back, and verified
      over the same bytes. */
  lemma SignedBytesSurvive(fields: seq<Field>, signature: Text)
    requires WellFormed(Obj(fields)) && SIGNATURE !in FieldKeys(fields)
    ensures var read := ReadJson(WriteJson(Obj(WithSignature(fields, signature))));
            && read.Some? && read.value.Obj? && Get(read.value.fields, SIGNATURE) == Str(signature)
            && Canonicalize(Obj(OmitField(read.value.fields, SIGNATURE))) == Canonicalize(Obj(fields))
  {
    hide Parse, Print, Canonicalize, Sort, Proper, WriteJson, ReadJson, AsFields, CleanFields, DistinctFields, FieldKeys;
    var signed := WithSignature(fields, signature);
    var members := CleanFields(fields);
    FieldsParts(fields);
    CleanSigned(fields, signature);
    CanonicalFormSurvives(Obj(signed));
    CleanKeys(fields);
    DefinedAmong(fields);
    OmitSigned(members, signature);
    GetSignature(members, signature);
    CanonicalFormSurvives(Obj(fields));
  }

  lemma FieldsParts(fields: seq<Field>)
    requires WellFormed(Obj(fields))
    ensures DistinctFields(fields)
  {
  }

  lemma {:induction false} GetSignature(members: seq<Member>, signature: Text)
    requires SIGNATURE !in Keys(members)
    ensures Get(AsFields(members + [Member(SIGNATURE, JString(signature))]), SIGNATURE) == Str(signature)
  {
    var all := members + [Member(SIGNATURE, JString(signature))];
    if members != [] {
      GetSignature(members[1..], signature);
      assert all[1..] == members[1..] + [Member(SIGNATURE, JString(signature))];
      assert AsFields(all)[1..] == AsFields(all[1..]);
    }
  }
}
