/**
  The append-only log as a directory of numbered files, and the order in which it is read back.
*/
module EventLog {
  import opened Texts
  import opened VaultEvents

  const WIDTH := 8
  const LIMIT := 100000000
  const DASH: CodeUnit := 45
  const SUFFIX: Text := [46, 106, 115, 111, 110]

  function FileName(number: nat, id: Text): Text {
    Padded(number, WIDTH) + [DASH] + id + SUFFIX
  }

  type Files = map<Text, Event>

  /** The names of a log numbered 1..n. */
  function Names(log: seq<Event>): seq<Text> {
    seq(|log|, i requires 0 <= i < |log| => FileName(i + 1, log[i].id))
  }

  /** The files are exactly the log's events under the numbers 1..n. */
  ghost predicate Numbered(files: Files, log: seq<Event>) {
    && |files| == |log|
    && files.Keys == Members(Names(log))
    && forall i :: 0 <= i < |log| ==> files[Names(log)[i]] == log[i]
  }

  /** What reading the directory gives: the events in the order of their file names. */
  ghost function Listing(files: Files): (r: seq<Event>)
    ensures |r| == |Sorted(files.Keys)|
  {
    Read(files, Sorted(files.Keys))
  }

  function Read(files: Files, names: seq<Text>): (r: seq<Event>)
    requires Members(names) <= files.Keys
    ensures |r| == |names|
  {
    seq(|names|, i requires 0 <= i < |names| => assert names[i] in Members(names); files[names[i]])
  }

  lemma NameAt(files: Files, log: seq<Event>, i: nat)
    requires Numbered(files, log) && i < |log|
    ensures Names(log)[i] == FileName(i + 1, log[i].id) && Names(log)[i] in files && files[Names(log)[i]] == log[i]
  {
    hide FileName;
    assert Names(log)[i] in Members(Names(log));
  }

  lemma NumberOf(files: Files, log: seq<Event>, f: Text) returns (i: nat)
    requires Numbered(files, log) && f in files
    ensures i < |log| && Names(log)[i] == f && files[f] == log[i]
  {
    hide FileName;
    assert f in Members(Names(log));
    i :| 0 <= i < |log| && Names(log)[i] == f;
  }

  // ----- file order is append order -----

  lemma LimitIsPower()
    ensures Power10(WIDTH) == LIMIT
  {
    assert Power10(2) == 100;
    assert Power10(4) == 10000;
  }

  lemma FileNameParts(n: nat, id: Text)
    ensures FileName(n, id) == Padded(n, WIDTH) + ([DASH] + id + SUFFIX)
  {
    hide Padded;
  }

  lemma NamesInOrder(n: nat, a: Text, m: nat, b: Text)
    requires n < m < LIMIT
    ensures Less(FileName(n, a), FileName(m, b))
  {
    hide FileName, Less, Padded, Power10;
    LimitIsPower();
    PaddedIncreases(n, m, WIDTH);
    LessPrefix(Padded(n, WIDTH), Padded(m, WIDTH), [DASH] + a + SUFFIX, [DASH] + b + SUFFIX);
    FileNameParts(n, a);
    FileNameParts(m, b);
  }

  lemma NamesIncrease(log: seq<Event>)
    requires |log| < LIMIT
    ensures Increasing(Names(log))
  {
    forall i, j | 0 <= i < j < |log| ensures Less(Names(log)[i], Names(log)[j]) {
      NamesInOrder(i + 1, log[i].id, j + 1, log[j].id);
    }
  }

  lemma ReadBack(files: Files, log: seq<Event>)
    requires Numbered(files, log)
    ensures Read(files, Names(log)) == log
  {
    forall i | 0 <= i < |log| ensures Read(files, Names(log))[i] == log[i] {
      assert Names(log)[i] in Members(Names(log));
    }
  }

  /** The last name of eight digits sorts behind the first of nine. */
  lemma NineDigitsSortFirst(a: Text, b: Text)
    ensures Less(FileName(LIMIT, b), FileName(LIMIT - 1, a))
  {
    var nines, ones := FileName(LIMIT - 1, a), FileName(LIMIT, b);
    Leading(LIMIT - 1, 9);
    Leading(LIMIT, 1);
    assert nines[0] == ZERO + 9 && ones[0] == ZERO + 1;
  }

  /** The first digit, for the two numbers around the limit. */
  lemma Leading(n: nat, d: nat)
    requires (n == LIMIT && d == 1) || (n == LIMIT - 1 && d == 9)
    ensures |Padded(n, WIDTH)| > 0 && Padded(n, WIDTH)[0] == ZERO + d
  {
    DecimalHead(n / 10);
    DecimalHead(n / 100);
    DecimalHead(n / 1000);
    DecimalHead(n / 10000);
    DecimalHead(n / 100000);
    DecimalHead(n / 1000000);
    DecimalHead(n / 10000000);
    DecimalHead(n);
  }

  lemma DecimalHead(n: nat)
    ensures |Decimal(n)| >= 1
    ensures n >= 10 ==> Decimal(n)[0] == Decimal(n / 10)[0] && |Decimal(n)| == |Decimal(n / 10)| + 1
  {
  }
  /** A log numbered 1..n is read back in append order exactly when it is shorter than 10^8. */
  lemma FileOrderIsAppendOrder(log: seq<Event>)
    ensures Increasing(Names(log)) <==> |log| < LIMIT
  {
    if |log| < LIMIT {
      NamesIncrease(log);
    } else {
      var i, j := LIMIT - 2, LIMIT - 1;
      NineDigitsSortFirst(log[i].id, log[j].id);
      LessAsymmetric(Names(log)[j], Names(log)[i]);
    }
  }

  // ----- different numbers, different names -----

  /** A name gives away its number and its event id. */
  lemma NamesDiffer(n: nat, a: Text, m: nat, b: Text)
    requires FileName(n, a) == FileName(m, b)
    ensures n == m && a == b
  {
    var p, q := Padded(n, WIDTH), Padded(m, WIDTH);
    PaddedValue(n, WIDTH);
    PaddedValue(m, WIDTH);
    var s, t := FileName(n, a), FileName(m, b);
    assert s[|p|] == DASH && t[|q|] == DASH;
    assert forall i :: 0 <= i < |p| ==> s[i] == p[i];
    assert forall i :: 0 <= i < |q| ==> t[i] == q[i];
    assert |p| == |q|;
    assert p == s[..|p|] && q == t[..|q|];
    assert a == s[|p| + 1..|s| - |SUFFIX|] && b == t[|q| + 1..|t| - |SUFFIX|];
  }

  lemma NamesAppend(log: seq<Event>, e: Event)
    ensures Names(log + [e]) == Names(log) + [FileName(|log| + 1, e.id)]
    ensures Members(Names(log + [e])) == Members(Names(log)) + {FileName(|log| + 1, e.id)}
  {
    hide FileName;
    assert Names(log + [e]) == Names(log) + [FileName(|log| + 1, e.id)];
  }

  lemma NewName(files: Files, log: seq<Event>, id: Text)
    requires Numbered(files, log)
    ensures FileName(|log| + 1, id) !in files
  {
    hide FileName;
    var name := FileName(|log| + 1, id);
    if name in files {
      var i := NumberOf(files, log, name);
      NameAt(files, log, i);
      NamesDiffer(i + 1, log[i].id, |log| + 1, id);
    }
  }

  lemma NumberedAppend(files: Files, log: seq<Event>, e: Event)
    requires Numbered(files, log)
    ensures Numbered(files[FileName(|files| + 1, e.id) := e], log + [e])
  {
    hide FileName;
    var name, log' := FileName(|files| + 1, e.id), log + [e];
    NamesAppend(log, e);
    NewName(files, log, e.id);
    var files' := files[name := e];
    assert files'.Keys == files.Keys + {name};
    assert |files'.Keys| == |files'| && |files.Keys| == |files|;
    forall i | 0 <= i < |log'| ensures files'[Names(log')[i]] == log'[i] {
      if i < |log| {
        NameAt(files, log, i);
      }
    }
  }

  lemma NewFile(files: Files, log: seq<Event>, e: Event)
    requires Numbered(files, log)
    ensures |files[FileName(|files| + 1, e.id) := e]| == |files| + 1
  {
    hide FileName;
    NumberedAppend(files, log, e);
  }

  predicate DistinctIds(log: seq<Event>) {
    forall i, j :: 0 <= i < j < |log| ==> log[i].id != log[j].id
  }

  lemma ReadInOrder(files: Files, log: seq<Event>)
    requires Numbered(files, log) && DistinctIds(log) && Listing(files) == log
    ensures Names(log) == Sorted(files.Keys)
  {
    hide FileName;
    var s := Sorted(files.Keys);
    forall k | 0 <= k < |log| ensures s[k] == Names(log)[k] {
      assert s[k] in Members(s);
      var i := NumberOf(files, log, s[k]);
      assert Listing(files)[k] == files[s[k]];
    }
  }

  /** The directory of a numbered log with distinct event ids is read back as the log exactly when the
      log is shorter than 10^8. */
  lemma ListingIsLog(files: Files, log: seq<Event>)
    requires Numbered(files, log)
    ensures |log| < LIMIT ==> Listing(files) == log
    ensures DistinctIds(log) ==> (Listing(files) == log <==> |log| < LIMIT)
  {
    hide FileName;
    FileOrderIsAppendOrder(log);
    if |log| < LIMIT {
      SortUnique(Sorted(files.Keys), Names(log));
      ReadBack(files, log);
    } else if DistinctIds(log) && Listing(files) == log {
      ReadInOrder(files, log);
    }
  }

  // ----- the shared part of a log -----

  function Shared(log: seq<Event>): (r: seq<Event>)
    ensures |r| <= |log|
  {
    if log == [] then []
    else Shared(log[..|log| - 1]) + (if Private(log[|log| - 1]) then [] else [log[|log| - 1]])
  }

  function SharedFiles(files: Files): Files {
    map f | f in files && !Private(files[f]) :: files[f]
  }

  function SharedNames(files: Files, names: seq<Text>): seq<Text>
    requires Members(names) <= files.Keys
  {
    if names == [] then []
    else
      var last := names[|names| - 1];
      assert last in Members(names) && Members(names[..|names| - 1]) <= Members(names);
      SharedNames(files, names[..|names| - 1]) + (if Private(files[last]) then [] else [last])
  }

  lemma {:induction false} SharedNamesAre(files: Files, names: seq<Text>)
    requires Members(names) <= files.Keys
    ensures forall f :: f in SharedNames(files, names) <==> f in names && f in SharedFiles(files)
  {
    if names != [] {
      var init, last := names[..|names| - 1], names[|names| - 1];
      assert last in Members(names) && Members(init) <= Members(names);
      assert names == init + [last];
      SharedNamesAre(files, init);
    }
  }

  lemma {:induction false} SharedNamesIncrease(files: Files, names: seq<Text>)
    requires Members(names) <= files.Keys && Increasing(names)
    ensures Increasing(SharedNames(files, names))
  {
    if names != [] {
      var init, last := names[..|names| - 1], names[|names| - 1];
      assert last in Members(names) && Members(init) <= Members(names);
      SharedNamesIncrease(files, init);
      SharedNamesAre(files, init);
      forall f | f in SharedNames(files, init) ensures Less(f, last) {
        assert f in init;
      }
    }
  }

  lemma {:induction false} SharedNamesRead(files: Files, names: seq<Text>)
    requires Members(names) <= files.Keys
    ensures var r := SharedNames(files, names);
            Members(r) <= SharedFiles(files).Keys && Read(SharedFiles(files), r) == Shared(Read(files, names))
  {
    SharedNamesAre(files, names);
    if names != [] {
      var init, last := names[..|names| - 1], names[|names| - 1];
      assert last in Members(names) && Members(init) <= Members(names);
      SharedNamesRead(files, init);
      var all := Read(files, names);
      assert all[..|names| - 1] == Read(files, init) && all[|names| - 1] == files[last];
      var r := SharedNames(files, init);
      if !Private(files[last]) {
        assert Read(SharedFiles(files), r + [last]) == Read(SharedFiles(files), r) + [files[last]];
      }
    }
  }

  /** Reading the shared files gives the shared part of the log, in the same order. */
  lemma ListingShared(files: Files)
    ensures Listing(SharedFiles(files)) == Shared(Listing(files))
  {
    var names := Sorted(files.Keys);
    SharedNamesAre(files, names);
    SharedNamesIncrease(files, names);
    SharedNamesRead(files, names);
    assert forall f :: f in Members(names) <==> f in names;
    assert Members(SharedNames(files, names)) == SharedFiles(files).Keys;
    SortUnique(SharedNames(files, names), Sorted(SharedFiles(files).Keys));
  }

  // ----- appending to an import that kept its names -----

  lemma SortedLast(names: set<Text>, f: Text)
    requires f !in names && forall g :: g in names ==> Less(g, f)
    ensures Sorted(names + {f}) == Sorted(names) + [f]
  {
    var s := Sorted(names);
    forall i | 0 <= i < |s| ensures Less(s[i], f) {
      assert s[i] in Members(s);
    }
    assert Members(s + [f]) == names + {f};
    SortUnique(Sorted(names + {f}), s + [f]);
  }

  lemma ListedIsFiled(files: Files, k: nat)
    requires k < |Listing(files)|
    ensures Listing(files)[k] in files.Values
  {
    assert Sorted(files.Keys)[k] in Members(Sorted(files.Keys));
  }

  /** An event written under a new name is read last exactly if all other names sort before the new one. */
  lemma AppendedLastExactly(files: Files, f: Text, e: Event)
    requires f !in files && e !in files.Values
    ensures Listing(files[f := e]) == Listing(files) + [e] <==> forall g :: g in files ==> Less(g, f)
  {
    hide Less;
    var s, t := Sorted(files.Keys), Sorted(files[f := e].Keys);
    assert files[f := e].Keys == files.Keys + {f};
    if forall g :: g in files ==> Less(g, f) {
      SortedLast(files.Keys, f);
      forall i | 0 <= i < |s| ensures s[i] != f {
        assert s[i] in Members(s);
      }
    }
    if Listing(files[f := e]) == Listing(files) + [e] {
      assert f in Members(t);
      var k :| 0 <= k < |t| && t[k] == f;
      assert Listing(files[f := e])[k] == e;
      if k < |s| {
        ListedIsFiled(files, k);
      }
      forall g | g in files ensures Less(g, f) {
        assert g in Members(t);
        var j :| 0 <= j < |t| && t[j] == g;
      }
    }
  }

  lemma {:induction false} IncreasingCount(s: seq<Text>)
    requires Increasing(s)
    ensures |Members(s)| == |s|
  {
    if s != [] {
      IncreasingTail(s);
      IncreasingCount(s[1..]);
      assert Members(s) == Members(s[1..]) + {s[0]};
    }
  }

  /** The number of private events. */
  function Privates(log: seq<Event>): nat {
    if log == [] then 0 else Privates(log[..|log| - 1]) + if Private(log[|log| - 1]) then 1 else 0
  }

  lemma {:induction false} SharedCount(log: seq<Event>)
    ensures |Shared(log)| + Privates(log) == |log|
  {
    if log != [] {
      SharedCount(log[..|log| - 1]);
    }
  }

  /** The i-th event is the last one that is shared. */
  predicate LastShared(log: seq<Event>, i: nat) {
    i < |log| && !Private(log[i]) && forall j :: i < j < |log| ==> Private(log[j])
  }

  lemma {:induction false} NoneSharedAfter(log: seq<Event>, i: nat)
    requires LastShared(log, i)
    ensures |Shared(log)| + Privates(log[..i]) == i + 1
  {
    if i == |log| - 1 {
      SharedCount(log[..i]);
    } else {
      NoneSharedAfter(log[..|log| - 1], i);
      assert log[..|log| - 1][..i] == log[..i];
    }
  }

  lemma SharedFilesCount(files: Files, log: seq<Event>)
    requires Numbered(files, log) && |log| < LIMIT
    ensures |SharedFiles(files)| == |Shared(log)|
  {
    hide FileName, Numbered;
    ListingIsLog(files, log);
    ListingShared(files);
    var names := Sorted(SharedFiles(files).Keys);
    IncreasingCount(names);
    assert |SharedFiles(files).Keys| == |SharedFiles(files)|;
  }

  /** A name with a number comes behind one with a smaller number, or with the same number and a smaller id. */
  lemma NamesOrdered(n: nat, a: Text, m: nat, b: Text)
    requires n < LIMIT && m < LIMIT
    ensures Less(FileName(n, a), FileName(m, b)) <==> n < m || (n == m && Less(a + SUFFIX, b + SUFFIX))
  {
    hide Less;
    if n < m {
      NamesInOrder(n, a, m, b);
    } else if n > m {
      NamesInOrder(m, b, n, a);
      LessAsymmetric(FileName(m, b), FileName(n, a));
    } else {
      var p := Padded(n, WIDTH) + [DASH];
      LessSuffix(p, a + SUFFIX, b + SUFFIX);
      assert FileName(n, a) == p + (a + SUFFIX) && FileName(m, b) == p + (b + SUFFIX);
    }
  }

  /** A replica imports an export under the exporter's file names, and writes its next event under the
      number of files it has, plus one. That event is read last exactly if the exporter's log has no private
      event before the last shared one, or a single one and the ids happen to sort so. */
  lemma AppendAfterImportExactly(files: Files, log: seq<Event>, i: nat, e: Event)
    requires Numbered(files, log) && |log| + 1 < LIMIT && LastShared(log, i)
    requires e !in log && FileName(|SharedFiles(files)| + 1, e.id) !in SharedFiles(files)
    ensures var imported := SharedFiles(files); var name := FileName(|imported| + 1, e.id);
            Listing(imported[name := e]) == Listing(imported) + [e] <==>
            || Privates(log[..i]) == 0
            || (Privates(log[..i]) == 1 && Less(log[i].id + SUFFIX, e.id + SUFFIX))
  {
    hide FileName, Less, Numbered, Listing, Shared, Privates;
    var imported := SharedFiles(files);
    var n := |imported| + 1;
    var name := FileName(n, e.id);
    SharedFilesCount(files, log);
    NoneSharedAfter(log, i);
    forall f | f in files ensures files[f] in log {
      var j := NumberOf(files, log, f);
    }
    assert e !in imported.Values;
    AppendedLastExactly(imported, name, e);
    NameAt(files, log, i);
    NamesOrdered(i + 1, log[i].id, n, e.id);
    assert Names(log)[i] in imported;
    if Less(FileName(i + 1, log[i].id), name) {
      forall g | g in imported ensures Less(g, name) {
        EarlierName(files, log, i, g);
        if g != Names(log)[i] {
          LessTransitive(g, Names(log)[i], name);
        }
      }
    }
  }

  lemma EarlierName(files: Files, log: seq<Event>, i: nat, g: Text)
    requires Numbered(files, log) && |log| + 1 < LIMIT && LastShared(log, i) && g in SharedFiles(files)
    ensures g == Names(log)[i] || Less(g, Names(log)[i])
  {
    hide FileName, Less, Numbered;
    var j := NumberOf(files, log, g);
    NameAt(files, log, j);
    NameAt(files, log, i);
    if j < i {
      NamesInOrder(j + 1, log[j].id, i + 1, log[i].id);
    }
  }

  /** With two private events in between, files 1 and 4 arrive; the next event is numbered 3 and is read
      between them, whatever the ids. */
  lemma ReadInBetween(a: Event, b: Event, c: Event, d: Event, e: Event)
    requires !Private(a) && Private(b) && Private(c) && !Private(d)
    ensures var imported := map[FileName(1, a.id) := a, FileName(4, d.id) := d];
            && imported == SharedFiles(map[FileName(1, a.id) := a, FileName(2, b.id) := b, FileName(3, c.id) := c, FileName(4, d.id) := d])
            && |imported| + 1 == 3
            && Listing(imported[FileName(3, e.id) := e]) == [a, e, d]
  {
    hide FileName, Less;
    NumberedApart(1, a.id, 2, b.id);
    NumberedApart(1, a.id, 3, c.id);
    NumberedApart(1, a.id, 4, d.id);
    NumberedApart(2, b.id, 3, c.id);
    NumberedApart(2, b.id, 4, d.id);
    NumberedApart(3, c.id, 4, d.id);
    NumberedApart(1, a.id, 3, e.id);
    NumberedApart(3, e.id, 4, d.id);
    var imported := map[FileName(1, a.id) := a, FileName(4, d.id) := d];
    assert imported.Keys == {FileName(1, a.id), FileName(4, d.id)};
    assert |imported| == |imported.Keys|;
    var names := [FileName(1, a.id), FileName(3, e.id), FileName(4, d.id)];
    var files := imported[FileName(3, e.id) := e];
    assert Members(names) == files.Keys;
    SortUnique(names, Sorted(files.Keys));
    assert Read(files, names) == [a, e, d];
  }

  lemma NumberedApart(n: nat, a: Text, m: nat, b: Text)
    requires n < m < LIMIT
    ensures Less(FileName(n, a), FileName(m, b)) && FileName(n, a) != FileName(m, b)
  {
    hide FileName;
    NamesInOrder(n, a, m, b);
    LessAsymmetric(FileName(n, a), FileName(m, b));
  }

  // ----- importing a batch -----

  function Ids(log: seq<Event>): set<Text> {
    set e | e in log :: e.id
  }

  /** The events of a batch whose ids are not there yet. */
  function Missing(ids: set<Text>, batch: seq<Event>): seq<Event> {
    if batch == [] then []
    else Missing(ids, batch[..|batch| - 1]) + (if batch[|batch| - 1].id in ids then [] else [batch[|batch| - 1]])
  }

  lemma {:induction false} MissingAre(ids: set<Text>, batch: seq<Event>)
    ensures forall e :: e in Missing(ids, batch) <==> e in batch && e.id !in ids
  {
    if batch != [] {
      var init, last := batch[..|batch| - 1], batch[|batch| - 1];
      MissingAre(ids, init);
      assert batch == init + [last];
    }
  }

  lemma IdIn(log: seq<Event>, id: Text)
    ensures id in Ids(log) <==> exists e :: e in log && e.id == id
  {
  }

  lemma MissingIds(ids: set<Text>, batch: seq<Event>)
    ensures Ids(Missing(ids, batch)) == Ids(batch) - ids
    ensures forall e :: e in Missing(ids, batch) <==> e in batch && e.id !in ids
  {
    hide Ids, Missing;
    MissingAre(ids, batch);
    forall id ensures id in Ids(Missing(ids, batch)) <==> id in Ids(batch) - ids {
      IdIn(Missing(ids, batch), id);
      IdIn(batch, id);
    }
  }

  function Imported(log: seq<Event>, batch: seq<Event>): seq<Event> {
    log + Missing(Ids(log), batch)
  }

  lemma {:induction false} NothingMissing(ids: set<Text>, batch: seq<Event>)
    ensures Missing(ids, batch) == [] <==> Ids(batch) <= ids
  {
    if batch != [] {
      var init, last := batch[..|batch| - 1], batch[|batch| - 1];
      NothingMissing(ids, init);
      assert batch == init + [last];
      assert Ids(batch) == Ids(init) + {last.id};
    }
  }

  lemma IdsOfSum(a: seq<Event>, b: seq<Event>)
    ensures Ids(a + b) == Ids(a) + Ids(b)
  {
  }

  /** Importing a batch a second time adds nothing, whatever has been appended in between. */
  lemma ImportTwice(log: seq<Event>, batch: seq<Event>, later: seq<Event>)
    ensures var once := Imported(log, batch);
            Imported(once + later, batch) == once + later
  {
    var once := Imported(log, batch);
    MissingIds(Ids(log), batch);
    IdsOfSum(log, Missing(Ids(log), batch));
    IdsOfSum(once, later);
    NothingMissing(Ids(once + later), batch);
  }

  lemma {:induction false} MissingDistinct(ids: set<Text>, batch: seq<Event>)
    requires DistinctIds(batch)
    ensures DistinctIds(Missing(ids, batch))
  {
    if batch != [] {
      var init, last := batch[..|batch| - 1], batch[|batch| - 1];
      MissingDistinct(ids, init);
      MissingIds(ids, init);
      assert forall e :: e in Missing(ids, init) ==> e in init;
    }
  }

  /** A batch of distinct ids keeps the ids of the log distinct. */
  lemma ImportKeepsDistinct(log: seq<Event>, batch: seq<Event>)
    requires DistinctIds(log) && DistinctIds(batch)
    ensures DistinctIds(Imported(log, batch))
  {
    var m := Missing(Ids(log), batch);
    MissingDistinct(Ids(log), batch);
    MissingIds(Ids(log), batch);
    forall i, j | 0 <= i < |log| && 0 <= j < |m| ensures log[i].id != m[j].id {
      assert m[j] in m && log[i].id in Ids(log);
    }
  }

  predicate InOrder(log: seq<Event>, x: Event, y: Event) {
    exists i, j :: 0 <= i < j < |log| && log[i] == x && log[j] == y
  }

  lemma MissingStep(ids: set<Text>, init: seq<Event>, last: Event)
    ensures Missing(ids, init + [last]) == Missing(ids, init) + if last.id in ids then [] else [last]
  {
    assert (init + [last])[..|init|] == init;
  }

  lemma {:induction false} MissingCount(ids: set<Text>, batch: seq<Event>, e: Event)
    ensures multiset(Missing(ids, batch))[e] == if e.id in ids then 0 else multiset(batch)[e]
  {
    if batch != [] {
      var init, last := batch[..|batch| - 1], batch[|batch| - 1];
      MissingCount(ids, init, e);
      MissingStep(ids, init, last);
      hide Missing;
      assert batch == init + [last];
    }
  }

  lemma {:induction false} MissingOrder(ids: set<Text>, batch: seq<Event>, i: nat, j: nat)
    requires i < j < |batch| && batch[i].id !in ids && batch[j].id !in ids
    ensures InOrder(Missing(ids, batch), batch[i], batch[j])
  {
    hide Missing;
    var init, last := batch[..|batch| - 1], batch[|batch| - 1];
    assert batch == init + [last];
    var before := Missing(ids, init);
    MissingStep(ids, init, last);
    if j < |init| {
      MissingOrder(ids, init, i, j);
      OrderGrows(before, if last.id in ids then [] else [last], init[i], init[j]);
    } else {
      MissingAre(ids, init);
      assert init[i] in before;
      OrderEnds(before, init[i], last);
    }
  }

  lemma OrderEnds(a: seq<Event>, x: Event, y: Event)
    requires x in a
    ensures InOrder(a + [y], x, y)
  {
    var i :| 0 <= i < |a| && a[i] == x;
    assert (a + [y])[i] == x && (a + [y])[|a|] == y;
  }

  lemma OrderGrows(a: seq<Event>, b: seq<Event>, x: Event, y: Event)
    requires InOrder(a, x, y)
    ensures InOrder(a + b, x, y)
  {
    var i, j :| 0 <= i < j < |a| && a[i] == x && a[j] == y;
    assert (a + b)[i] == x && (a + b)[j] == y;
  }

  /** An import keeps the log and adds behind it exactly the events of the batch whose ids it does not have, each as
      often as the batch, in the order of the batch. */
  lemma ImportExactly(log: seq<Event>, batch: seq<Event>)
    ensures var t := Imported(log, batch);
            && |t| >= |log| && t[..|log|] == log
            && (forall e :: multiset(t[|log|..])[e] == if (exists x :: x in log && x.id == e.id) then 0 else multiset(batch)[e])
            && (forall i, j :: 0 <= i < j < |batch| && batch[i].id !in Ids(log) && batch[j].id !in Ids(log) ==> InOrder(t[|log|..], batch[i], batch[j]))
  {
    hide InOrder, Missing, Ids;
    var t := Imported(log, batch);
    assert t[|log|..] == Missing(Ids(log), batch);
    forall e: Event
      ensures multiset(t[|log|..])[e] == if (exists x :: x in log && x.id == e.id) then 0 else multiset(batch)[e]
    {
      MissingCount(Ids(log), batch, e);
      IdIn(log, e.id);
    }
    forall i, j | 0 <= i < j < |batch| && batch[i].id !in Ids(log) && batch[j].id !in Ids(log) ensures InOrder(t[|log|..], batch[i], batch[j]) {
      MissingOrder(Ids(log), batch, i, j);
    }
  }

  // ----- the directory -----

  class EventDirectory {
    var files: Files
    ghost var log: seq<Event>

    ghost predicate Valid()
      reads this
    {
      Numbered(files, log)
    }

    constructor ()
      ensures Valid() && log == []
    {
      files, log := map[], [];
    }

    lemma AsManyFiles()
      requires Valid()
      ensures |files| == |log|
    {
    }

    /** `listJsonFiles(dir).map(readJson)` */
    method List() returns (events: seq<Event>)
      ensures events == Listing(files)
    {
      var names := Sort(files.Keys);
      SortUnique(names, Sorted(files.Keys));
      events := Read(files, names);
    }

    /** The tail of `appendUnsignedEvent`: write under the next number. */
    method Append(event: Event)
      requires Valid()
      modifies this
      ensures Valid() && log == old(log) + [event]
    {
      var sequence := |files| + 1;
      NumberedAppend(files, log, event);
      files := files[FileName(sequence, event.id) := event];
      log := log + [event];
    }

    method ImportSyncEvents(batch: seq<Event>)
      requires Valid()
      modifies this
      ensures Valid() && log == Imported(old(log), batch)
    {
      hide Numbered, FileName;
      var existing := set f | f in files :: files[f].id;
      IdsOfFiles(files, log);
      var sequence, i := |files|, 0;
      assert batch[..0] == [];
      while i < |batch|
        invariant 0 <= i <= |batch| && sequence == |files|
        invariant Valid() && log == old(log) + Missing(existing, batch[..i])
      {
        var event := batch[i];
        assert batch[..i + 1][..i] == batch[..i];
        if event.id !in existing {
          sequence := sequence + 1;
          NumberedAppend(files, log, event);
          NewFile(files, log, event);
          files := files[FileName(sequence, event.id) := event];
          log := log + [event];
        }
        i := i + 1;
      }
      assert batch[..i] == batch;
    }

    /** Copies of the shared files, under their own names. */
    method ExportSync() returns (out: Files)
      ensures out == SharedFiles(files)
    {
      out := map[];
      var todo := files.Keys;
      while todo != {}
        invariant todo <= files.Keys
        invariant out == map f | f in files && f !in todo && !Private(files[f]) :: files[f]
        decreases todo
      {
        var f :| f in todo;
        todo := todo - {f};
        if !Private(files[f]) {
          out := out[f := files[f]];
        }
      }
    }

    /** Copy in what is not there under the same name. The result need not be numbered. */
    method ImportSync(inDir: Files)
      modifies this`files
      ensures files == inDir + old(files)
    {
      var todo := inDir.Keys;
      while todo != {}
        invariant todo <= inDir.Keys
        invariant files == (map f | f in inDir && f !in todo :: inDir[f]) + old(files)
        decreases todo
      {
        var f :| f in todo;
        todo := todo - {f};
        if f !in files {
          files := files[f := inDir[f]];
        }
      }
      assert (map f | f in inDir && f !in todo :: inDir[f]) == inDir;
    }
  }

  lemma IdsOfFiles(files: Files, log: seq<Event>)
    requires Numbered(files, log)
    ensures Ids(log) == set f | f in files :: files[f].id
  {
    hide FileName, Numbered;
    forall e | e in log ensures exists f :: f in files && files[f].id == e.id {
      var i :| 0 <= i < |log| && log[i] == e;
      NameAt(files, log, i);
    }
    forall f | f in files ensures files[f].id in Ids(log) {
      var i := NumberOf(files, log, f);
      assert log[i] in log;
    }
  }
}
