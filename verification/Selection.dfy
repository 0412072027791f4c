/** The rows a bundle takes: ranked by score and id for a query, in the given order without one. */
module Selection {
  import opened Basics
  import opened Texts
  import opened VaultEvents
  import opened Semantic

  /** Lower-casing and the collation of ids are the runtime's; different ids may collate alike. */
  datatype Runtime = Runtime(collation: Text -> real, lower: Text -> Text)

  function WordsOf(rt: Runtime, t: Text): seq<Text> {
    Tokens(rt.lower(t), [])
  }

  function EntryText(e: Entry): Text {
    e.title + [10] + e.body + [10] + e.source
  }

  ghost function Score(rt: Runtime, query: Text, e: Entry): real {
    Squared(VectorOf(WordsOf(rt, query)), VectorOf(WordsOf(rt, EntryText(e))))
  }

  /** `b.score - a.score || a.entry.id.localeCompare(b.entry.id)` is negative. */
  ghost predicate Before(rt: Runtime, query: Text, x: Entry, y: Entry) {
    var s, t := Score(rt, query, x), Score(rt, query, y);
    s > t || (s == t && rt.collation(x.id) < rt.collation(y.id))
  }

  /** No row comes before one that should come before it. */
  ghost predicate Ranked(rt: Runtime, query: Text, rows: seq<Entry>) {
    forall i, j :: 0 <= i < j < |rows| ==> !Before(rt, query, rows[j], rows[i])
  }

  lemma BeforeOrders(rt: Runtime, query: Text, x: Entry, y: Entry, z: Entry)
    ensures !Before(rt, query, x, x)
    ensures !(Before(rt, query, x, y) && Before(rt, query, y, x))
    ensures !Before(rt, query, y, x) && !Before(rt, query, z, y) ==> !Before(rt, query, z, x)
  {
  }

  // ----- sorting -----

  /** Insertion in front of rows that rank alike, so that the order of the rows decides between them. */
  ghost function Place(rt: Runtime, query: Text, e: Entry, ranked: seq<Entry>): seq<Entry> {
    if ranked == [] then [e]
    else if Before(rt, query, ranked[0], e) then [ranked[0]] + Place(rt, query, e, ranked[1..])
    else [e] + ranked
  }

  /** A stable sort. */
  ghost function RankEntries(rt: Runtime, query: Text, rows: seq<Entry>): seq<Entry> {
    if rows == [] then [] else Place(rt, query, rows[0], RankEntries(rt, query, rows[1..]))
  }

  lemma {:induction false} PlaceRanks(rt: Runtime, query: Text, e: Entry, ranked: seq<Entry>)
    requires Ranked(rt, query, ranked)
    ensures Ranked(rt, query, Place(rt, query, e, ranked))
    ensures multiset(Place(rt, query, e, ranked)) == multiset(ranked) + multiset{e}
  {
    hide Before;
    if ranked != [] {
      var head, tail := ranked[0], ranked[1..];
      assert ranked == [head] + tail;
      if Before(rt, query, head, e) {
        PlaceRanks(rt, query, e, tail);
        var p := Place(rt, query, e, tail);
        forall x | x in p ensures !Before(rt, query, x, head) {
          assert x in multiset(p);
          assert x == e || x in tail;
          BeforeOrders(rt, query, head, e, e);
        }
      } else {
        forall x | x in ranked ensures !Before(rt, query, x, e) {
          BeforeOrders(rt, query, e, head, x);
        }
      }
    }
  }

  lemma {:induction false} RankedAll(rt: Runtime, query: Text, rows: seq<Entry>)
    ensures Ranked(rt, query, RankEntries(rt, query, rows)) && multiset(RankEntries(rt, query, rows)) == multiset(rows)
  {
    hide Before;
    if rows != [] {
      RankedAll(rt, query, rows[1..]);
      assert rows == [rows[0]] + rows[1..];
      PlaceRanks(rt, query, rows[0], RankEntries(rt, query, rows[1..]));
    }
  }

  // ----- rows that rank alike -----

  ghost predicate Precedes(s: seq<Entry>, x: Entry, y: Entry) {
    exists i, j :: 0 <= i < j < |s| && s[i] == x && s[j] == y
  }

  lemma PrecedesCons(h: Entry, s: seq<Entry>, x: Entry, y: Entry)
    ensures Precedes([h] + s, x, y) <==> (h == x && y in s) || Precedes(s, x, y)
  {
    var t := [h] + s;
    if h == x && y in s {
      var j :| 0 <= j < |s| && s[j] == y;
      assert t[0] == x && t[j + 1] == y;
    }
    if Precedes(s, x, y) {
      var i, j :| 0 <= i < j < |s| && s[i] == x && s[j] == y;
      assert t[i + 1] == x && t[j + 1] == y;
    }
    if Precedes(t, x, y) {
      var i, j :| 0 <= i < j < |t| && t[i] == x && t[j] == y;
      assert y == s[j - 1] && (i > 0 ==> x == s[i - 1]);
    }
  }

  lemma {:induction false} PlaceKeepsOrder(rt: Runtime, query: Text, e: Entry, ranked: seq<Entry>, x: Entry, y: Entry)
    ensures Precedes(ranked, x, y) ==> Precedes(Place(rt, query, e, ranked), x, y)
    ensures forall z :: z in Place(rt, query, e, ranked) <==> z == e || z in ranked
  {
    hide Before, Precedes;
    if ranked == [] {
      NothingPrecedes(x, y);
    } else {
      var head, tail := ranked[0], ranked[1..];
      assert ranked == [head] + tail;
      PlaceKeepsOrder(rt, query, e, tail, x, y);
      PrecedesCons(head, tail, x, y);
      PrecedesCons(head, Place(rt, query, e, tail), x, y);
      PrecedesCons(e, ranked, x, y);
    }
  }

  lemma NothingPrecedes(x: Entry, y: Entry)
    ensures !Precedes([], x, y)
  {
  }

  lemma {:induction false} PlacedFirst(rt: Runtime, query: Text, e: Entry, ranked: seq<Entry>, y: Entry)
    requires y in ranked && !Before(rt, query, y, e)
    ensures Precedes(Place(rt, query, e, ranked), e, y)
  {
    hide Before, Precedes;
    var head, tail := ranked[0], ranked[1..];
    assert ranked == [head] + tail;
    if Before(rt, query, head, e) {
      PlacedFirst(rt, query, e, tail, y);
      PrecedesCons(head, Place(rt, query, e, tail), e, y);
    } else {
      PrecedesCons(e, ranked, e, y);
    }
  }

  /** Rows that rank alike stay in the order in which they come. */
  lemma {:induction false} TiesKeepOrder(rt: Runtime, query: Text, rows: seq<Entry>, x: Entry, y: Entry)
    requires Precedes(rows, x, y) && !Before(rt, query, y, x)
    ensures Precedes(RankEntries(rt, query, rows), x, y)
  {
    hide Before, Precedes, Place;
    if rows == [] {
      NothingPrecedes(x, y);
    } else {
      var head, tail := rows[0], rows[1..];
      assert rows == [head] + tail;
      PrecedesCons(head, tail, x, y);
      var others := RankEntries(rt, query, tail);
      RankedAll(rt, query, tail);
      assert y in tail ==> y in multiset(others);
      PlaceKeepsOrder(rt, query, head, others, x, y);
      if Precedes(tail, x, y) {
        TiesKeepOrder(rt, query, tail, x, y);
      } else {
        PlacedFirst(rt, query, head, others, y);
      }
    }
  }

  // ----- selecting -----

  ghost function Scored(rt: Runtime, query: Text, rows: seq<Entry>): seq<Entry> {
    if rows == [] then []
    else (if Score(rt, query, rows[0]) > 0.0 then [rows[0]] else []) + Scored(rt, query, rows[1..])
  }

  /** `slice(0, end)`: a negative end counts from the back. */
  function Slice(rows: seq<Entry>, end: int): seq<Entry> {
    if end >= |rows| then rows
    else if end >= 0 then rows[..end]
    else if |rows| + end > 0 then rows[..|rows| + end]
    else []
  }

  /** An empty query is no query. */
  ghost function SelectRows(rt: Runtime, rows: seq<Entry>, query: Text, maxItems: Option<int>): seq<Entry> {
    var ranked := if query != [] then Scored(rt, query, RankEntries(rt, query, rows)) else rows;
    Slice(ranked, if maxItems.Some? then maxItems.value else |rows|)
  }

  lemma {:induction false} ScoredIs(rt: Runtime, query: Text, rows: seq<Entry>)
    requires Ranked(rt, query, rows)
    ensures Ranked(rt, query, Scored(rt, query, rows)) && |Scored(rt, query, rows)| <= |rows|
    ensures forall e :: multiset(Scored(rt, query, rows))[e] == if Score(rt, query, e) > 0.0 then multiset(rows)[e] else 0
  {
    hide Before, Score;
    if rows != [] {
      ScoredIs(rt, query, rows[1..]);
      assert rows == [rows[0]] + rows[1..];
      var s := Scored(rt, query, rows[1..]);
      forall x | x in s ensures x in rows[1..] {
        assert multiset(s)[x] > 0;
      }
      forall x | x in rows[1..] ensures !Before(rt, query, x, rows[0]) {
      }
    }
  }

  lemma {:induction false} ScoredKeepsOrder(rt: Runtime, query: Text, rows: seq<Entry>, x: Entry, y: Entry)
    requires Precedes(rows, x, y) && Score(rt, query, x) > 0.0 && Score(rt, query, y) > 0.0
    ensures Precedes(Scored(rt, query, rows), x, y)
    ensures forall z :: z in rows && Score(rt, query, z) > 0.0 ==> z in Scored(rt, query, rows)
  {
    hide Score, Precedes;
    ScoredHas(rt, query, rows);
    if rows == [] {
      NothingPrecedes(x, y);
    } else {
      var head, tail := rows[0], rows[1..];
      assert rows == [head] + tail;
      PrecedesCons(head, tail, x, y);
      PrecedesCons(head, Scored(rt, query, tail), x, y);
      ScoredHas(rt, query, tail);
      if Precedes(tail, x, y) {
        ScoredKeepsOrder(rt, query, tail, x, y);
      }
      assert [] + Scored(rt, query, tail) == Scored(rt, query, tail);
    }
  }

  lemma {:induction false} ScoredHas(rt: Runtime, query: Text, rows: seq<Entry>)
    ensures forall z :: z in rows && Score(rt, query, z) > 0.0 ==> z in Scored(rt, query, rows)
  {
    hide Score;
    if rows != [] {
      ScoredHas(rt, query, rows[1..]);
      assert rows == [rows[0]] + rows[1..];
    }
  }

  /** Do the query and the entry share a word, counting synonyms? */
  predicate Related(rt: Runtime, query: Text, e: Entry) {
    Vocabulary(WordsOf(rt, query)) * Vocabulary(WordsOf(rt, e.title + [10] + e.body + [10] + e.source)) != {}
  }

  lemma RelatedExactly(rt: Runtime, query: Text, e: Entry)
    ensures Score(rt, query, e) > 0.0 <==> Related(rt, query, e)
  {
    hide Squared, VectorOf, Vocabulary;
    ScoreInUnit(WordsOf(rt, query), WordsOf(rt, EntryText(e)));
  }

  /** The higher score goes first and, of equal ones, the id that the collation puts first. */
  ghost predicate BestFirst(rt: Runtime, query: Text, x: Entry, y: Entry) {
    Score(rt, query, x) >= Score(rt, query, y) && (Score(rt, query, x) == Score(rt, query, y) ==> rt.collation(x.id) <= rt.collation(y.id))
  }

  lemma NotWorse(rt: Runtime, query: Text, x: Entry, y: Entry)
    requires !Before(rt, query, y, x)
    ensures BestFirst(rt, query, x, y)
  {
    hide Score;
  }

  /** With a query, the selection is cut from a ranking - by score, then id, then the order in which they
      come - of exactly the rows that share a word with it, each as often as it comes. */
  lemma SelectExactly(rt: Runtime, rows: seq<Entry>, query: Text, maxItems: Option<int>) returns (ranking: seq<Entry>)
    requires query != []
    ensures Ranked(rt, query, ranking) && |ranking| <= |rows|
    ensures forall i, j :: 0 <= i < j < |ranking| ==> BestFirst(rt, query, ranking[i], ranking[j])
    ensures forall e :: multiset(ranking)[e] == if Related(rt, query, e) then multiset(rows)[e] else 0
    ensures forall x, y :: Precedes(rows, x, y) && Related(rt, query, x) && Related(rt, query, y) && !Before(rt, query, y, x) ==> Precedes(ranking, x, y)
    ensures ranking == Scored(rt, query, RankEntries(rt, query, rows))
    ensures SelectRows(rt, rows, query, maxItems) == Slice(ranking, if maxItems.Some? then maxItems.value else |ranking|)
  {
    hide Before, Score, Related, Precedes, BestFirst;
    var all := RankEntries(rt, query, rows);
    RankedAll(rt, query, rows);
    ScoredIs(rt, query, all);
    ranking := Scored(rt, query, all);
    forall e ensures Score(rt, query, e) > 0.0 <==> Related(rt, query, e) {
      RelatedExactly(rt, query, e);
    }
    forall x, y | Precedes(rows, x, y) && Related(rt, query, x) && Related(rt, query, y) && !Before(rt, query, y, x) ensures Precedes(ranking, x, y) {
      TiesKeepOrder(rt, query, rows, x, y);
      ScoredKeepsOrder(rt, query, all, x, y);
    }
    forall i, j | 0 <= i < j < |ranking| ensures BestFirst(rt, query, ranking[i], ranking[j]) {
      NotWorse(rt, query, ranking[i], ranking[j]);
    }
    assert |all| == |multiset(all)| == |multiset(rows)| == |rows|;
  }

  /** A slice is a front part, as long as asked for if there are enough rows; a negative end leaves off so many. */
  lemma SliceIs(rows: seq<Entry>, end: int)
    ensures var s := Slice(rows, end);
            && |s| <= |rows| && s == rows[..|s|]
            && |s| == if end > |rows| then |rows| else if end >= 0 then end else if |rows| > -end then |rows| + end else 0
  {
  }

  /** Without a query, rows are taken in the order in which they come, all of them or as many as asked for. */
  lemma NoQueryTakesFirst(rt: Runtime, rows: seq<Entry>, maxItems: Option<nat>)
    ensures var s := SelectRows(rt, rows, [], maxItems);
            && |s| == (if maxItems.None? || maxItems.value > |rows| then |rows| else maxItems.value)
            && forall i :: 0 <= i < |s| ==> s[i] == rows[i]
  {
    SliceIs(rows, if maxItems.Some? then maxItems.value else |rows|);
  }

  // ----- the order in which the rows come -----

  predicate NoRepeats(rows: seq<Entry>) {
    forall i, j :: 0 <= i < j < |rows| ==> rows[i] != rows[j]
  }

  /** No two related rows of equal score have ids that collate alike. */
  ghost predicate Untied(rt: Runtime, query: Text, rows: seq<Entry>) {
    forall x, y :: x in rows && y in rows && x != y && Related(rt, query, x) && Related(rt, query, y) ==>
      Score(rt, query, x) != Score(rt, query, y) || rt.collation(x.id) != rt.collation(y.id)
  }

  ghost predicate Reordered(rows: seq<Entry>, other: seq<Entry>) {
    multiset(other) == multiset(rows)
  }

  /** The sort prefers one of two rows exactly if their scores or the places of their ids differ. */
  lemma TiedExactly(rt: Runtime, query: Text, x: Entry, y: Entry)
    ensures Before(rt, query, x, y) || Before(rt, query, y, x) <==>
            Score(rt, query, x) != Score(rt, query, y) || rt.collation(x.id) != rt.collation(y.id)
  {
  }

  lemma {:induction false} OnceEach(rows: seq<Entry>)
    requires NoRepeats(rows)
    ensures forall e :: multiset(rows)[e] <= 1
  {
    if rows != [] {
      OnceEach(rows[1..]);
      assert rows == [rows[0]] + rows[1..];
      assert rows[0] !in rows[1..];
    }
  }

  lemma TwiceCounts(rows: seq<Entry>, i: nat, j: nat)
    requires i < j < |rows| && rows[i] == rows[j]
    ensures multiset(rows)[rows[i]] >= 2
  {
    var a, b := rows[..j], rows[j..];
    assert rows == a + b && a[i] == rows[i] && b[0] == rows[j];
    assert a[i] in a && b[0] in b;
  }

  lemma NoRepeatsOf(rows: seq<Entry>)
    requires forall e :: multiset(rows)[e] <= 1
    ensures NoRepeats(rows)
  {
    forall i, j | 0 <= i < j < |rows| ensures rows[i] != rows[j] {
      if rows[i] == rows[j] {
        TwiceCounts(rows, i, j);
      }
    }
  }

  lemma OnlyOneWay(s: seq<Entry>, x: Entry, y: Entry)
    requires NoRepeats(s) && Precedes(s, x, y)
    ensures !Precedes(s, y, x)
  {
  }

  /** Two rankings of the same rows, no two of which are tied, are the same. */
  lemma {:induction false} RankingUnique(rt: Runtime, query: Text, s: seq<Entry>, t: seq<Entry>)
    requires Ranked(rt, query, s) && Ranked(rt, query, t) && multiset(s) == multiset(t)
    requires forall x, y :: x in s && y in s && x != y ==> Before(rt, query, x, y) || Before(rt, query, y, x)
    ensures s == t
  {
    hide Before;
    if s == [] || t == [] {
      assert |s| == |multiset(s)| == |multiset(t)| == |t|;
    } else {
      HeadsAgree(rt, query, s, t);
      TailsAgree(s, t);
      forall x | x in s[1..] ensures x in s {
      }
      RankedTail(rt, query, s);
      RankedTail(rt, query, t);
      RankingUnique(rt, query, s[1..], t[1..]);
      assert s == [s[0]] + s[1..] && t == [t[0]] + t[1..];
    }
  }

  lemma RankedTail(rt: Runtime, query: Text, s: seq<Entry>)
    requires Ranked(rt, query, s) && s != []
    ensures Ranked(rt, query, s[1..])
  {
    hide Before;
  }

  lemma TailsAgree(s: seq<Entry>, t: seq<Entry>)
    requires s != [] && t != [] && s[0] == t[0] && multiset(s) == multiset(t)
    ensures multiset(s[1..]) == multiset(t[1..])
  {
    assert s == [s[0]] + s[1..] && t == [t[0]] + t[1..];
    assert multiset(s[1..]) == multiset(s) - multiset{s[0]} && multiset(t[1..]) == multiset(t) - multiset{t[0]};
  }

  lemma HeadsAgree(rt: Runtime, query: Text, s: seq<Entry>, t: seq<Entry>)
    requires Ranked(rt, query, s) && Ranked(rt, query, t) && multiset(s) == multiset(t) && s != [] && t != []
    requires forall x, y :: x in s && y in s && x != y ==> Before(rt, query, x, y) || Before(rt, query, y, x)
    ensures s[0] == t[0]
  {
    hide Before;
    assert s[0] in multiset(t) && t[0] in multiset(s);
    var i :| 0 <= i < |s| && s[i] == t[0];
    var j :| 0 <= j < |t| && t[j] == s[0];
  }

  lemma UntiedIgnoresOrder(rt: Runtime, rows: seq<Entry>, other: seq<Entry>, query: Text, maxItems: Option<int>)
    requires query != [] && Reordered(rows, other) && Untied(rt, query, rows)
    ensures SelectRows(rt, other, query, maxItems) == SelectRows(rt, rows, query, maxItems)
  {
    hide Before, Score, Related, SelectRows, Precedes, Untied, Ranked, RankEntries, Scored;
    var a := SelectExactly(rt, rows, query, maxItems);
    var b := SelectExactly(rt, other, query, maxItems);
    assert multiset(a) == multiset(b);
    RelatedUntied(rt, rows, query, a);
    RankingUnique(rt, query, a, b);
  }

  lemma RelatedUntied(rt: Runtime, rows: seq<Entry>, query: Text, a: seq<Entry>)
    requires Untied(rt, query, rows)
    requires forall e :: multiset(a)[e] == if Related(rt, query, e) then multiset(rows)[e] else 0
    ensures forall x, y :: x in a && y in a && x != y ==> Before(rt, query, x, y) || Before(rt, query, y, x)
  {
    hide Before, Related, Score;
    forall x | x in a ensures x in rows && Related(rt, query, x) {
      assert multiset(a)[x] > 0;
    }
    forall x, y | x in a && y in a && x != y ensures Before(rt, query, x, y) || Before(rt, query, y, x) {
      TiedExactly(rt, query, x, y);
    }
  }

  /** Two tied rows, swapped: the selection without a limit is another one. */
  lemma SwapShows(rt: Runtime, rows: seq<Entry>, query: Text, i: nat, j: nat) returns (other: seq<Entry>)
    requires query != [] && NoRepeats(rows) && i < j < |rows|
    requires Related(rt, query, rows[i]) && Related(rt, query, rows[j])
    requires !Before(rt, query, rows[i], rows[j]) && !Before(rt, query, rows[j], rows[i])
    ensures Reordered(rows, other) && SelectRows(rt, other, query, None) != SelectRows(rt, rows, query, None)
  {
    hide Before, Score, Related, Precedes, RankEntries, Scored;
    var x, y := rows[i], rows[j];
    other := rows[i := y][j := x];
    Swapped(rows, i, j);
    var a := SelectExactly(rt, rows, query, None);
    var b := SelectExactly(rt, other, query, None);
    OnceEach(rows);
    NoRepeatsOf(a);
    if a == b {
      OnlyOneWay(a, x, y);
    }
  }

  lemma Swapped(rows: seq<Entry>, i: nat, j: nat)
    requires i < j < |rows|
    ensures var other := rows[i := rows[j]][j := rows[i]];
            Reordered(rows, other) && Precedes(rows, rows[i], rows[j]) && Precedes(other, rows[j], rows[i])
  {
    var other := rows[i := rows[j]][j := rows[i]];
    assert other[i] == rows[j] && other[j] == rows[i];
  }

  /** What a query selects does not depend on the order in which the rows come, for any limit, exactly when
      no two related rows of equal score have ids that collate alike. */
  lemma SelectAnyOrderExactly(rt: Runtime, rows: seq<Entry>, query: Text)
    requires query != [] && NoRepeats(rows)
    ensures (forall other, maxItems :: Reordered(rows, other) ==>
               SelectRows(rt, other, query, maxItems) == SelectRows(rt, rows, query, maxItems))
            <==> Untied(rt, query, rows)
  {
    hide Before, Score, Related, SelectRows;
    if Untied(rt, query, rows) {
      forall other, maxItems | Reordered(rows, other)
        ensures SelectRows(rt, other, query, maxItems) == SelectRows(rt, rows, query, maxItems)
      {
        UntiedIgnoresOrder(rt, rows, other, query, maxItems);
      }
    } else {
      var x, y :| && x in rows && y in rows && x != y && Related(rt, query, x) && Related(rt, query, y)
                  && Score(rt, query, x) == Score(rt, query, y) && rt.collation(x.id) == rt.collation(y.id);
      TiedExactly(rt, query, x, y);
      var i, j :| 0 <= i < |rows| && rows[i] == x && 0 <= j < |rows| && rows[j] == y;
      var other := SwapShows(rt, rows, query, if i < j then i else j, if i < j then j else i);
      assert !(SelectRows(rt, other, query, None) == SelectRows(rt, rows, query, None));
    }
  }
}
