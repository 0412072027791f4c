/**
  Local semantic ranking: token vectors with synonyms, cosine similarity, and the rows that a query
  selects. Weights are counted in twentieths, so that they are whole numbers, and a score is
  represented by its square, which orders scores in the same way.
*/
module Semantic {
  import opened Texts

  // ----- tokens and synonyms -----

  predicate IsTokenUnit(c: CodeUnit) { 97 <= c <= 122 || 48 <= c <= 57 }

  /** `match(/[a-z0-9]+/g)` on lower-cased text: the maximal runs of letters and digits. */
  function Tokens(t: Text, current: Text): seq<Text> {
    if t == [] then if current == [] then [] else [current]
    else if IsTokenUnit(t[0]) then Tokens(t[1..], current + [t[0]])
    else (if current == [] then [] else [current]) + Tokens(t[1..], [])
  }

  /** ASCII text as code units. */
  function A(s: string): Text {
    seq(|s|, i requires 0 <= i < |s| => if s[i] < '\U{0080}' then s[i] as int else 0)
  }

  function Synonyms(token: Text): seq<Text> {
    if token == A("auth") then [A("authentication"), A("login"), A("session"), A("sessions")]
    else if token == A("authentication") then [A("auth"), A("login"), A("session"), A("sessions")]
    else if token == A("regression") then [A("proof"), A("test"), A("tests"), A("coverage")]
    else if token == A("proof") then [A("regression"), A("test"), A("tests"), A("evidence")]
    else if token == A("decision") then [A("standard"), A("rule"), A("architecture"), A("choice")]
    else if token == A("decisions") then [A("standard"), A("rule"), A("architecture"), A("choice")]
    else if token == A("deploy") then [A("deployment"), A("release"), A("ship")]
    else if token == A("deployment") then [A("deploy"), A("release"), A("ship")]
    else if token == A("review") then [A("pr"), A("pull"), A("request"), A("approval")]
    else if token == A("pr") then [A("review"), A("pull"), A("request")]
    else []
  }

  const TOKEN_WEIGHT := 20
  const SYNONYM_WEIGHT := 7

  type Vector = map<Text, nat>

  function At(v: Vector, key: Text): nat { if key in v then v[key] else 0 }

  function Add(v: Vector, key: Text, weight: nat): Vector { v[key := At(v, key) + weight] }

  function AddAll(v: Vector, keys: seq<Text>, weight: nat): Vector {
    if keys == [] then v else Add(AddAll(v, keys[..|keys| - 1], weight), keys[|keys| - 1], weight)
  }

  function VectorOf(tokens: seq<Text>): Vector {
    if tokens == [] then map[]
    else
      var token := tokens[|tokens| - 1];
      AddAll(Add(VectorOf(tokens[..|tokens| - 1]), token, TOKEN_WEIGHT), Synonyms(token), SYNONYM_WEIGHT)
  }

  /** The tokens and their synonyms. */
  function Vocabulary(tokens: seq<Text>): set<Text> {
    Members(tokens) + set t, s | t in tokens && s in Synonyms(t) :: s
  }

  predicate Positive(v: Vector) { forall k :: k in v ==> v[k] > 0 }

  lemma {:induction false} AddAllKeys(v: Vector, keys: seq<Text>, weight: nat)
    requires weight > 0 && Positive(v)
    ensures Positive(AddAll(v, keys, weight)) && AddAll(v, keys, weight).Keys == v.Keys + Members(keys)
  {
    if keys != [] {
      AddAllKeys(v, keys[..|keys| - 1], weight);
      assert keys == keys[..|keys| - 1] + [keys[|keys| - 1]];
    }
  }

  /** The vector has exactly the expanded vocabulary, with positive weights. */
  lemma {:induction false} VectorKeys(tokens: seq<Text>)
    ensures Positive(VectorOf(tokens)) && VectorOf(tokens).Keys == Vocabulary(tokens)
  {
    hide Synonyms, AddAll;
    if tokens != [] {
      var init, token := tokens[..|tokens| - 1], tokens[|tokens| - 1];
      VectorKeys(init);
      assert tokens == init + [token];
      AddAllKeys(Add(VectorOf(init), token, TOKEN_WEIGHT), Synonyms(token), SYNONYM_WEIGHT);
      VocabularyAppend(init, token);
    }
  }

  lemma VocabularyAppend(tokens: seq<Text>, token: Text)
    ensures Vocabulary(tokens + [token]) == Vocabulary(tokens) + {token} + Members(Synonyms(token))
  {
    hide Synonyms;
    forall s ensures s in Vocabulary(tokens + [token]) <==> s in Vocabulary(tokens) + {token} + Members(Synonyms(token)) {
    }
  }

  /** How often a token is written, and how often it is a synonym of one that is. */
  function Mentions(tokens: seq<Text>, key: Text): nat {
    if tokens == [] then 0 else Mentions(tokens[..|tokens| - 1], key) + multiset(Synonyms(tokens[|tokens| - 1]))[key]
  }

  lemma {:induction false} AddAllWeights(v: Vector, keys: seq<Text>, weight: nat, key: Text)
    ensures At(AddAll(v, keys, weight), key) == At(v, key) + weight * multiset(keys)[key]
  {
    if keys != [] {
      var init, last := keys[..|keys| - 1], keys[|keys| - 1];
      AddAllWeights(v, init, weight, key);
      assert keys == init + [last];
      assert weight * (multiset(init)[key] + 1) == weight * multiset(init)[key] + weight;
    }
  }

  /** A token weighs one each time it is written and 0.35 each time a synonym of it is, in twentieths. */
  lemma {:induction false} WeightsExactly(tokens: seq<Text>, key: Text)
    ensures At(VectorOf(tokens), key) == 20 * multiset(tokens)[key] + 7 * Mentions(tokens, key)
  {
    hide Synonyms, AddAll;
    if tokens != [] {
      var init, token := tokens[..|tokens| - 1], tokens[|tokens| - 1];
      WeightsExactly(init, key);
      assert tokens == init + [token];
      AddAllWeights(Add(VectorOf(init), token, TOKEN_WEIGHT), Synonyms(token), SYNONYM_WEIGHT, key);
    }
  }

  // ----- which tokens -----

  predicate AllTokenUnits(t: Text) {
    forall i :: 0 <= i < |t| ==> IsTokenUnit(t[i])
  }

  /** A stretch of letters and digits that goes on to neither side. */
  ghost predicate MaximalRun(t: Text, x: Text) {
    exists i, j :: 0 <= i < j <= |t| && RunAt(t, i, j) && t[i..j] == x
  }

  predicate RunAt(t: Text, i: nat, j: nat)
    requires i < j <= |t|
  {
    AllTokenUnits(t[i..j]) && (i > 0 ==> !IsTokenUnit(t[i - 1])) && (j < |t| ==> !IsTokenUnit(t[j]))
  }

  lemma RunsOfWord(w: Text, x: Text)
    requires AllTokenUnits(w)
    ensures MaximalRun(w, x) <==> w != [] && x == w
  {
    hide IsTokenUnit;
    if w != [] && x == w {
      assert RunAt(w, 0, |w|) && w[0..|w|] == x;
    }
    if MaximalRun(w, x) {
      var i, j :| 0 <= i < j <= |w| && RunAt(w, i, j) && w[i..j] == x;
      assert i > 0 ==> IsTokenUnit(w[i - 1]);
      assert w[0..|w|] == w;
    }
  }

  lemma UnitsBefore(w: Text, all: Text)
    requires AllTokenUnits(w) && |w| <= |all| && all[..|w|] == w
    ensures forall k :: 0 <= k < |w| ==> IsTokenUnit(all[k])
  {
    assert forall k :: 0 <= k < |w| ==> all[k] == w[k];
  }

  lemma UnitInRun(t: Text, i: nat, j: nat, k: nat)
    requires i <= k < j <= |t| && RunAt(t, i, j)
    ensures IsTokenUnit(t[k])
  {
    assert t[i..j][k - i] == t[k];
  }

  lemma RunAfter(w: Text, c: CodeUnit, t: Text, i: nat, j: nat)
    requires !IsTokenUnit(c) && i < j <= |t|
    ensures (w + [c] + t)[|w| + 1 + i..|w| + 1 + j] == t[i..j]
    ensures RunAt(w + [c] + t, |w| + 1 + i, |w| + 1 + j) <==> RunAt(t, i, j)
  {
    hide IsTokenUnit;
    var all, n := w + [c] + t, |w| + 1;
    assert all[n + i..n + j] == t[i..j];
    assert i > 0 ==> all[n + i - 1] == t[i - 1];
    assert all[n - 1] == c;
    assert j < |t| ==> all[n + j] == t[j];
  }

  lemma RunsOfParts(w: Text, c: CodeUnit, t: Text, x: Text)
    requires AllTokenUnits(w) && !IsTokenUnit(c)
    ensures MaximalRun(w + [c] + t, x) <==> (w != [] && x == w) || MaximalRun(t, x)
  {
    hide IsTokenUnit, RunAt;
    var all := w + [c] + t;
    if w != [] && x == w {
      WordRuns(w, c, t);
    }
    if MaximalRun(t, x) {
      var i, j :| 0 <= i < j <= |t| && RunAt(t, i, j) && t[i..j] == x;
      RunAfter(w, c, t, i, j);
    }
    if MaximalRun(all, x) {
      var i, j :| 0 <= i < j <= |all| && RunAt(all, i, j) && all[i..j] == x;
      RunOfEither(w, c, t, i, j);
      if i > |w| {
        RunAfter(w, c, t, i - |w| - 1, j - |w| - 1);
      }
    }
  }

  lemma WordRuns(w: Text, c: CodeUnit, t: Text)
    requires AllTokenUnits(w) && !IsTokenUnit(c) && w != []
    ensures MaximalRun(w + [c] + t, w)
  {
    hide IsTokenUnit;
    var all := w + [c] + t;
    assert all[0..|w|] == w && all[|w|] == c;
    assert RunAt(all, 0, |w|);
  }

  lemma RunOfEither(w: Text, c: CodeUnit, t: Text, i: nat, j: nat)
    requires AllTokenUnits(w) && !IsTokenUnit(c) && i < j <= |w| + 1 + |t| && RunAt(w + [c] + t, i, j)
    ensures i > |w| || (w != [] && (w + [c] + t)[i..j] == w)
  {
    hide IsTokenUnit;
    var all := w + [c] + t;
    assert all[..|w|] == w && all[|w|] == c;
    UnitsBefore(w, all);
    if i <= |w| {
      if i <= |w| < j {
        UnitInRun(all, i, j, |w|);
      }
      assert all[0..|w|] == w;
    }
  }

  lemma {:induction false} TokensAre(t: Text, current: Text, x: Text)
    requires AllTokenUnits(current)
    ensures x in Tokens(t, current) <==> MaximalRun(current + t, x)
    decreases |t|
  {
    hide MaximalRun, IsTokenUnit;
    if t == [] {
      RunsOfWord(current, x);
      assert current + [] == current;
    } else if IsTokenUnit(t[0]) {
      TokensAre(t[1..], current + [t[0]], x);
      assert current + t == (current + [t[0]]) + t[1..];
    } else {
      TokensAre(t[1..], [], x);
      RunsOfParts(current, t[0], t[1..], x);
      assert current + t == current + [t[0]] + t[1..];
      assert [] + t[1..] == t[1..];
    }
  }

  /** The tokens of a lower-cased text are exactly its maximal runs of letters and digits. */
  lemma TokensExactly(t: Text, x: Text)
    ensures x in Tokens(t, []) <==> MaximalRun(t, x)
  {
    hide MaximalRun;
    TokensAre(t, [], x);
    assert [] + t == t;
  }

  method Vectorize(tokens: seq<Text>) returns (vector: Vector)
    ensures vector == VectorOf(tokens)
  {
    hide Synonyms;
    vector := map[];
    var i := 0;
    assert tokens[..0] == [];
    while i < |tokens|
      invariant 0 <= i <= |tokens| && vector == VectorOf(tokens[..i])
    {
      var token := tokens[i];
      assert tokens[..i + 1][..i] == tokens[..i];
      vector := Add(vector, token, TOKEN_WEIGHT);
      ghost var start := vector;
      var synonyms, j := Synonyms(token), 0;
      assert synonyms[..0] == [];
      while j < |synonyms|
        invariant 0 <= j <= |synonyms| && vector == AddAll(start, synonyms[..j], SYNONYM_WEIGHT)
      {
        assert synonyms[..j + 1][..j] == synonyms[..j];
        vector := Add(vector, synonyms[j], SYNONYM_WEIGHT);
        j := j + 1;
      }
      assert synonyms[..j] == synonyms;
      i := i + 1;
    }
    assert tokens[..i] == tokens;
  }

  // ----- sums over vectors -----

  /** Sum over the keys of the products of two vectors. */
  function DotOver(keys: seq<Text>, a: Vector, b: Vector): nat {
    if keys == [] then 0 else DotOver(keys[1..], a, b) + At(a, keys[0]) * At(b, keys[0])
  }

  /** The scalar product: over the keys of b, in any order. */
  ghost function Dot(a: Vector, b: Vector): nat {
    DotOver(Sorted(b.Keys), a, b)
  }

  predicate NoRepeats(keys: seq<Text>) {
    forall i, j :: 0 <= i < j < |keys| ==> keys[i] != keys[j]
  }

  lemma {:induction false} DotMoveFirst(keys: seq<Text>, i: nat, a: Vector, b: Vector)
    requires i < |keys|
    ensures DotOver(keys, a, b) == DotOver(keys[..i] + keys[i + 1..], a, b) + At(a, keys[i]) * At(b, keys[i])
  {
    if i == 0 {
      assert keys[..0] + keys[1..] == keys[1..];
    } else {
      DotMoveFirst(keys[1..], i - 1, a, b);
      var rest := keys[..i] + keys[i + 1..];
      assert rest[0] == keys[0] && rest[1..] == keys[1..][..i - 1] + keys[1..][i..];
    }
  }

  /** The order of summation does not matter. */
  lemma {:induction false} DotAnyOrder(k: seq<Text>, l: seq<Text>, a: Vector, b: Vector)
    requires NoRepeats(k) && NoRepeats(l) && Members(k) == Members(l)
    ensures DotOver(k, a, b) == DotOver(l, a, b)
  {
    if k == [] || l == [] {
      SizeZero(k, l);
    } else {
      assert k[0] in Members(l);
      var i :| 0 <= i < |l| && l[i] == k[0];
      var rest := l[..i] + l[i + 1..];
      DotMoveFirst(l, i, a, b);
      RemovedMembers(l, i);
      assert Members(k[1..]) == Members(k) - {k[0]} by {
        assert k == [k[0]] + k[1..];
      }
      DotAnyOrder(k[1..], rest, a, b);
    }
  }

  lemma RemovedMembers(l: seq<Text>, i: nat)
    requires NoRepeats(l) && i < |l|
    ensures var rest := l[..i] + l[i + 1..]; NoRepeats(rest) && Members(rest) == Members(l) - {l[i]}
  {
    var rest := l[..i] + l[i + 1..];
    assert forall j :: 0 <= j < |rest| ==> rest[j] == if j < i then l[j] else l[j + 1];
    forall x ensures x in rest <==> x in l && x != l[i] {
      if x in l && x != l[i] {
        var j :| 0 <= j < |l| && l[j] == x;
        assert rest[if j < i then j else j - 1] == x;
      }
    }
  }

  lemma IncreasingNoRepeats(keys: seq<Text>)
    requires Increasing(keys)
    ensures NoRepeats(keys)
  {
    forall i, j | 0 <= i < j < |keys| ensures keys[i] != keys[j] {
      LessIrreflexive(keys[i]);
    }
  }

  function Only(keys: seq<Text>, names: set<Text>): seq<Text> {
    if keys == [] then [] else (if keys[0] in names then [keys[0]] else []) + Only(keys[1..], names)
  }

  lemma {:induction false} OnlyIs(keys: seq<Text>, names: set<Text>)
    requires NoRepeats(keys)
    ensures NoRepeats(Only(keys, names)) && Members(Only(keys, names)) == Members(keys) * names
  {
    if keys != [] {
      OnlyIs(keys[1..], names);
      assert keys == [keys[0]] + keys[1..];
      var tail := Only(keys[1..], names);
      assert keys[0] !in Members(keys[1..]);
      assert Members(keys) == {keys[0]} + Members(keys[1..]);
      if keys[0] in names {
        SeenMore(tail, keys[0]);
      } else {
        assert Only(keys, names) == tail;
      }
    }
  }

  lemma {:induction false} DotOnly(keys: seq<Text>, a: Vector, b: Vector)
    ensures DotOver(Only(keys, b.Keys), a, b) == DotOver(keys, a, b)
  {
    if keys != [] {
      DotOnly(keys[1..], a, b);
      if keys[0] in b.Keys {
        assert ([keys[0]] + Only(keys[1..], b.Keys))[1..] == Only(keys[1..], b.Keys);
      } else {
        assert [] + Only(keys[1..], b.Keys) == Only(keys[1..], b.Keys);
      }
    }
  }

  /** Summing over more keys, in any order, adds nothing. */
  lemma DotIs(keys: seq<Text>, a: Vector, b: Vector)
    requires NoRepeats(keys) && b.Keys <= Members(keys)
    ensures DotOver(keys, a, b) == Dot(a, b)
  {
    DotOnly(keys, a, b);
    OnlyIs(keys, b.Keys);
    IncreasingNoRepeats(Sorted(b.Keys));
    DotAnyOrder(Only(keys, b.Keys), Sorted(b.Keys), a, b);
  }

  // ----- Cauchy-Schwarz -----

  lemma Grows(s: nat, p: nat, q: nat, x: nat, y: nat)
    requires s * s <= p * q
    ensures (s + x * y) * (s + x * y) <= (p + x * x) * (q + y * y)
  {
    var u, v := p * y * y, q * x * x;
    var w := 2 * s * (x * y);
    var z := (x * y) * (x * y);
    Square(u, v);
    assert 4 * u * v == 4 * (p * q) * z by {
      Regroup(p, q, x, y);
    }
    MonotoneProduct(s * s, p * q, 4 * z);
    assert w * w == 4 * (s * s) * z by {
      SquareOfDouble(s, x * y);
    }
    assert w * w <= (u + v) * (u + v);
    RootMonotone(w, u + v);
    Expand(s, p, q, x, y);
  }

  lemma Regroup(p: nat, q: nat, x: nat, y: nat)
    ensures 4 * (p * y * y) * (q * x * x) == 4 * (p * q) * ((x * y) * (x * y))
  {
    calc {
      (p * y * y) * (q * x * x);
      (p * q) * ((y * y) * (x * x));
      (p * q) * ((x * y) * (x * y));
    }
  }

  lemma SquareOfDouble(s: nat, t: nat)
    ensures (2 * s * t) * (2 * s * t) == 4 * (s * s) * (t * t)
  {
  }

  lemma Square(u: nat, v: nat)
    ensures 4 * u * v <= (u + v) * (u + v)
  {
    assert (u + v) * (u + v) - 4 * u * v == (u - v) * (u - v);
    assert (u - v) * (u - v) >= 0;
  }

  lemma MonotoneProduct(a: nat, b: nat, c: nat)
    requires a <= b
    ensures a * c <= b * c
  {
  }

  lemma RootMonotone(w: nat, t: nat)
    requires w * w <= t * t
    ensures w <= t
  {
    if w > t {
      SquareGrows(t, w);
    }
  }

  lemma SquareGrows(t: nat, w: nat)
    requires w > t
    ensures w * w > t * t
  {
    assert w * w >= w * (t + 1) >= (t + 1) * (t + 1);
  }

  lemma Expand(s: nat, p: nat, q: nat, x: nat, y: nat)
    ensures (s + x * y) * (s + x * y) == s * s + 2 * s * (x * y) + (x * y) * (x * y)
    ensures (p + x * x) * (q + y * y) == p * q + p * y * y + q * x * x + (x * y) * (x * y)
  {
  }

  lemma {:induction false} CauchySchwarz(keys: seq<Text>, a: Vector, b: Vector)
    ensures DotOver(keys, a, b) * DotOver(keys, a, b) <= DotOver(keys, a, a) * DotOver(keys, b, b)
  {
    if keys != [] {
      CauchySchwarz(keys[1..], a, b);
      Grows(DotOver(keys[1..], a, b), DotOver(keys[1..], a, a), DotOver(keys[1..], b, b), At(a, keys[0]), At(b, keys[0]));
    }
  }

  // ----- cosine similarity -----

  method CosineSimilarity(a: Vector, b: Vector) returns (dot: nat, aMag: nat, bMag: nat)
    ensures dot == Dot(a, b) && aMag == Dot(a, a) && bMag == Dot(b, b)
  {
    dot, aMag, bMag := 0, 0, 0;
    var todo := a.Keys;
    ghost var seen := [];
    while todo != {}
      invariant todo <= a.Keys && NoRepeats(seen) && Members(seen) == a.Keys - todo
      invariant aMag == DotOver(seen, a, a)
      decreases todo
    {
      var key :| key in todo;
      todo := todo - {key};
      aMag := aMag + a[key] * a[key];
      SeenMore(seen, key);
      seen := [key] + seen;
    }
    DotIs(seen, a, a);
    todo, seen := b.Keys, [];
    while todo != {}
      invariant todo <= b.Keys && NoRepeats(seen) && Members(seen) == b.Keys - todo
      invariant bMag == DotOver(seen, b, b) && dot == DotOver(seen, a, b)
      decreases todo
    {
      var key :| key in todo;
      todo := todo - {key};
      bMag := bMag + b[key] * b[key];
      dot := dot + At(a, key) * b[key];
      SeenMore(seen, key);
      seen := [key] + seen;
    }
    DotIs(seen, b, b);
    DotIs(seen, a, b);
  }

  lemma SeenMore(seen: seq<Text>, key: Text)
    requires NoRepeats(seen) && key !in Members(seen)
    ensures NoRepeats([key] + seen) && Members([key] + seen) == Members(seen) + {key} && ([key] + seen)[1..] == seen
  {
    forall i | 0 <= i < |seen| ensures seen[i] != key {
      assert seen[i] in Members(seen);
    }
  }

  /** The square of the score. */
  ghost function Squared(a: Vector, b: Vector): real {
    if Dot(a, a) == 0 || Dot(b, b) == 0 then 0.0
    else (Dot(a, b) * Dot(a, b)) as real / (Dot(a, a) * Dot(b, b)) as real
  }

  lemma Cancel(n: nat, d: nat)
    requires d > 0
    ensures n as real / d as real * d as real == n as real
    ensures n == d ==> n as real / d as real == 1.0
  {
  }

  /** For vectors that are not empty, the squared score times both squared lengths is the squared scalar product;
      a vector scores one against itself. */
  lemma SquaredExactly(a: Vector, b: Vector)
    requires Dot(a, a) > 0 && Dot(b, b) > 0
    ensures Squared(a, b) * (Dot(a, a) * Dot(b, b)) as real == (Dot(a, b) * Dot(a, b)) as real
    ensures Squared(a, a) == 1.0
  {
    hide Dot;
    ProductPositive(Dot(a, a), Dot(b, b));
    ProductPositive(Dot(a, a), Dot(a, a));
    Cancel(Dot(a, b) * Dot(a, b), Dot(a, a) * Dot(b, b));
    Cancel(Dot(a, a) * Dot(a, a), Dot(a, a) * Dot(a, a));
  }

  lemma FractionInUnit(n: nat, d: nat)
    requires n <= d && d > 0
    ensures 0.0 <= n as real / d as real <= 1.0
    ensures n as real / d as real > 0.0 <==> n > 0
  {
  }

  lemma ProductPositive(p: nat, q: nat)
    ensures p * q > 0 <==> p > 0 && q > 0
  {
  }

  lemma {:induction false} DotPositive(keys: seq<Text>, a: Vector, b: Vector)
    requires Positive(a) && Positive(b)
    ensures DotOver(keys, a, b) > 0 <==> exists k :: k in keys && k in a && k in b
  {
    if keys != [] {
      DotPositive(keys[1..], a, b);
      assert keys == [keys[0]] + keys[1..];
      ProductPositive(At(a, keys[0]), At(b, keys[0]));
    }
  }

  lemma Meeting(all: seq<Text>, x: set<Text>, y: set<Text>)
    requires x * y <= Members(all)
    ensures (exists k :: k in all && k in x && k in y) <==> x * y != {}
  {
    if k :| k in x * y {
      assert k in Members(all);
    }
    if k :| k in all && k in x && k in y {
      assert k in x * y;
    }
  }

  /** Every score lies between 0 and 1, and is positive exactly when the expanded vocabularies meet. */
  lemma ScoreInUnit(p: seq<Text>, q: seq<Text>)
    ensures 0.0 <= Squared(VectorOf(p), VectorOf(q)) <= 1.0
    ensures Squared(VectorOf(p), VectorOf(q)) > 0.0 <==> Vocabulary(p) * Vocabulary(q) != {}
  {
    hide Vocabulary, VectorOf, Dot, DotOver;
    var a, b := VectorOf(p), VectorOf(q);
    VectorKeys(p);
    VectorKeys(q);
    var all := Sorted(a.Keys + b.Keys);
    IncreasingNoRepeats(all);
    DotIs(all, a, b);
    DotIs(all, a, a);
    DotIs(all, b, b);
    CauchySchwarz(all, a, b);
    DotPositive(all, a, b);
    DotPositive(all, a, a);
    DotPositive(all, b, b);
    var s := Dot(a, b);
    ProductPositive(Dot(a, a), Dot(b, b));
    ProductPositive(s, s);
    Meeting(all, a.Keys, b.Keys);
    Meeting(all, a.Keys, a.Keys);
    Meeting(all, b.Keys, b.Keys);
    assert a.Keys * a.Keys == a.Keys && b.Keys * b.Keys == b.Keys;
    if Dot(a, a) * Dot(b, b) > 0 {
      FractionInUnit(s * s, Dot(a, a) * Dot(b, b));
    }
  }
}
