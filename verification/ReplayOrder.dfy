/** Replay and the places of grants in the log; replaying twice. */
module ReplayOrder {
  import opened Basics
  import opened Texts
  import opened VaultEvents
  import opened Materializer

  lemma Last(log: seq<Event>)
    requires log != []
    ensures log == log[..|log| - 1] + [log[|log| - 1]]
    ensures forall e :: e in log <==> e in log[..|log| - 1] || e == log[|log| - 1]
  {
  }

  // ----- what the asynchronous pass finds -----

  /** The log has a grant of this key for this epoch that the reader can open. */
  ghost predicate Handed(log: seq<Event>, r: Reader, epoch: nat, key: Key) {
    exists e :: e in log && Gives(e, r, epoch, key)
  }

  predicate Gives(e: Event, r: Reader, epoch: nat, key: Key) {
    Hands(r, e) && e.epoch == epoch && e.envelope.key == key
  }

  /** All grants of an epoch that the reader can open wrap one key. */
  ghost predicate OneKeyPerEpoch(log: seq<Event>, r: Reader) {
    forall n, k, l :: Handed(log, r, n, k) && Handed(log, r, n, l) ==> k == l
  }

  lemma HandedLast(log: seq<Event>, r: Reader, n: nat, k: Key)
    requires log != []
    ensures Handed(log, r, n, k) <==> Handed(log[..|log| - 1], r, n, k) || Gives(log[|log| - 1], r, n, k)
  {
    hide Gives;
    Last(log);
  }

  /** An epoch's key is one that a grant handed over or, without any such grant, the one from before. */
  lemma {:induction false} AsyncKeyAt(log: seq<Event>, r: Reader, keys: Keys, n: nat)
    ensures var all := AsyncKeys(log, r, keys);
            if n in all then Handed(log, r, n, all[n]) || (n in keys && all[n] == keys[n] && forall k :: !Handed(log, r, n, k))
            else n !in keys && forall k :: !Handed(log, r, n, k)
  {
    if log != [] {
      AsyncKeyAt(log[..|log| - 1], r, keys, n);
      forall k ensures Handed(log, r, n, k) <==> Handed(log[..|log| - 1], r, n, k) || Gives(log[|log| - 1], r, n, k) {
        HandedLast(log, r, n, k);
      }
    }
  }

  /** A grant hands its key over exactly if the first of the reader's recipients with its name has the key pair that it
      is wrapped for, in the form it is wrapped in. */
  lemma HandsExactly(r: Reader, e: Event)
    requires e.Grant?
    ensures var all := [r.main] + r.others;
            Hands(r, e) <==>
            exists i :: 0 <= i < |all| && all[i].name == e.recipient && (forall j :: 0 <= j < i ==> all[j].name != e.recipient)
                        && e.envelope.holder == (if e.envelope.hpke then all[i].hpke else all[i].legacy)
  {
    FirstNamedExactly([r.main] + r.others, e.recipient);
  }

  lemma {:induction false} FirstNamedExactly(all: seq<Recipient>, name: Text)
    ensures var w := FirstNamed(all, name);
            if w.None? then forall i :: 0 <= i < |all| ==> all[i].name != name
            else exists i :: 0 <= i < |all| && all[i] == w.value && all[i].name == name && forall j :: 0 <= j < i ==> all[j].name != name
  {
    if all != [] {
      FirstNamedExactly(all[1..], name);
      assert all == [all[0]] + all[1..];
      if all[0].name == name {
        assert all[0] == FirstNamed(all, name).value;
      } else if FirstNamed(all[1..], name).Some? {
        var i :| 0 <= i < |all[1..]| && all[1..][i] == FirstNamed(all, name).value && all[1..][i].name == name
                 && forall j :: 0 <= j < i ==> all[1..][j].name != name;
        assert all[i + 1] == all[1..][i] && forall j :: 0 < j < i + 1 ==> all[j] == all[1..][j - 1];
      }
    }
  }

  /** Of several grants for an epoch, the last that hands a key over decides. */
  lemma {:induction false} LastGrantDecides(log: seq<Event>, r: Reader, keys: Keys, i: nat)
    requires i < |log| && Hands(r, log[i]) && forall j :: i < j < |log| ==> !(Hands(r, log[j]) && log[j].epoch == log[i].epoch)
    ensures log[i].epoch in AsyncKeys(log, r, keys) && AsyncKeys(log, r, keys)[log[i].epoch] == log[i].envelope.key
  {
    hide Hands;
    var init := log[..|log| - 1];
    if i < |init| {
      assert init[i] == log[i];
      LastGrantDecides(init, r, keys, i);
    }
  }

  ghost predicate SameEvents(a: seq<Event>, b: seq<Event>) {
    forall e :: e in a <==> e in b
  }

  lemma AsyncKeysOrderFree(a: seq<Event>, b: seq<Event>, r: Reader, keys: Keys)
    requires SameEvents(a, b) && OneKeyPerEpoch(a, r)
    ensures AsyncKeys(a, r, keys) == AsyncKeys(b, r, keys)
  {
    hide AsyncKeys, Gives;
    forall n, k ensures Handed(a, r, n, k) <==> Handed(b, r, n, k) {
    }
    var x, y := AsyncKeys(a, r, keys), AsyncKeys(b, r, keys);
    forall n: nat ensures (n in x <==> n in y) && (n in x ==> x[n] == y[n]) {
      AsyncKeyAt(a, r, keys, n);
      AsyncKeyAt(b, r, keys, n);
    }
    assert x == y;
  }

  // ----- the second pass ignores grants -----

  function NonGrants(log: seq<Event>): seq<Event> {
    if log == [] then []
    else NonGrants(log[..|log| - 1]) + (if log[|log| - 1].Grant? then [] else [log[|log| - 1]])
  }

  lemma ReplayAppend(log: seq<Event>, e: Event, r: Reader, keys: Keys)
    ensures Replay(log + [e], r, keys) == ReplayStep(Replay(log, r, keys), e, r, keys)
  {
    assert (log + [e])[..|log|] == log;
  }

  lemma {:induction false} ReplayNonGrants(log: seq<Event>, r: Reader, keys: Keys)
    ensures Replay(NonGrants(log), r, keys) == Replay(log, r, keys)
  {
    hide Apply;
    if log != [] {
      var init, e := log[..|log| - 1], log[|log| - 1];
      ReplayNonGrants(init, r, keys);
      if e.Grant? {
        assert NonGrants(log) == NonGrants(init);
      } else {
        assert NonGrants(log) == NonGrants(init) + [e];
        ReplayAppend(NonGrants(init), e, r, keys);
      }
    }
  }

  /** The same events, in the same order except for where the grants stand. */
  ghost predicate GrantsMoved(a: seq<Event>, b: seq<Event>) {
    multiset(a) == multiset(b) && NonGrants(a) == NonGrants(b)
  }

  lemma MovedSame(a: seq<Event>, b: seq<Event>)
    requires multiset(a) == multiset(b)
    ensures SameEvents(a, b)
  {
    forall e ensures e in a <==> e in b {
      assert e in a <==> multiset(a)[e] > 0;
      assert e in b <==> multiset(b)[e] > 0;
    }
  }

  // ----- the synchronous pass behind the asynchronous one -----

  predicate Blocks(e: Event, r: Reader, keys: Keys) {
    e.Grant? && e.recipient == r.main.name && e.envelope.hpke && e.epoch !in keys
  }

  ghost predicate Stuck(log: seq<Event>, r: Reader, keys: Keys) {
    exists e :: e in log && Blocks(e, r, keys)
  }

  /** The keys already hold what the grants hand over. */
  ghost predicate Complete(log: seq<Event>, r: Reader, keys: Keys) {
    forall e :: e in log && Hands(r, e) ==> e.epoch in keys && keys[e.epoch] == e.envelope.key
  }

  lemma {:induction false} SyncOnComplete(log: seq<Event>, r: Reader, publicKeys: PublicKeys, keys: Keys)
    requires AllSigned(log, publicKeys) && Complete(log, r, keys)
    ensures SyncKeys(log, r, publicKeys, keys) == if Stuck(log, r, keys) then Err(NEEDS_ASYNC) else Ok(keys)
  {
    if log != [] {
      var init, e := log[..|log| - 1], log[|log| - 1];
      Last(log);
      SyncOnComplete(init, r, publicKeys, keys);
      assert Stuck(log, r, keys) <==> Stuck(init, r, keys) || Blocks(e, r, keys);
      if e.Grant? && e.recipient == r.main.name {
        MainIsFirst(r, e.recipient);
        assert Hands(r, e) <==> Unwraps(r.main, e.envelope);
        assert Hands(r, e) ==> keys[e.epoch := e.envelope.key] == keys;
      }
    }
  }

  lemma MainIsFirst(r: Reader, name: Text)
    requires name == r.main.name
    ensures FirstNamed([r.main] + r.others, name) == Some(r.main)
  {
  }

  lemma AsyncIsComplete(log: seq<Event>, r: Reader, keys: Keys)
    requires OneKeyPerEpoch(log, r)
    ensures Complete(log, r, AsyncKeys(log, r, keys))
  {
    hide AsyncKeys;
    forall e | e in log && Hands(r, e) ensures e.epoch in AsyncKeys(log, r, keys) && AsyncKeys(log, r, keys)[e.epoch] == e.envelope.key {
      assert Gives(e, r, e.epoch, e.envelope.key) && Handed(log, r, e.epoch, e.envelope.key);
      AsyncKeyAt(log, r, keys, e.epoch);
    }
  }

  /** If all grants of an epoch wrap one key, the outcome of replay - keys, entries, index, edges and
      candidates, or the failure - does not depend on where in the log the grants stand. */
  lemma GrantPositionsDoNotMatter(a: seq<Event>, b: seq<Event>, r: Reader, publicKeys: PublicKeys, keys: Keys)
    requires GrantsMoved(a, b) && OneKeyPerEpoch(a, r)
    ensures MaterializeAsync(a, r, publicKeys, keys) == MaterializeAsync(b, r, publicKeys, keys)
  {
    hide AsyncKeys, SyncKeys, Replay, NonGrants;
    MovedSame(a, b);
    if AllSigned(a, publicKeys) {
      assert OneKeyPerEpoch(b, r) by {
        forall n, k ensures Handed(a, r, n, k) <==> Handed(b, r, n, k) {
        }
      }
      AsyncKeysOrderFree(a, b, r, keys);
      var all := AsyncKeys(a, r, keys);
      AsyncIsComplete(a, r, keys);
      AsyncIsComplete(b, r, keys);
      SyncOnComplete(a, r, publicKeys, all);
      SyncOnComplete(b, r, publicKeys, all);
      ReplayNonGrants(a, r, all);
      ReplayNonGrants(b, r, all);
    }
  }

  // ----- twice is once -----

  /** Two key stores that agree on the epochs the log hands nothing over for. */
  ghost predicate AgreeElsewhere(log: seq<Event>, r: Reader, k: Keys, l: Keys) {
    forall n :: (forall x :: !Handed(log, r, n, x)) ==> ((n in k <==> n in l) && (n in k ==> k[n] == l[n]))
  }

  lemma {:induction false} AsyncFromAgreeing(log: seq<Event>, r: Reader, k: Keys, l: Keys, n: nat)
    requires (forall x :: !Handed(log, r, n, x)) ==> ((n in k <==> n in l) && (n in k ==> k[n] == l[n]))
    ensures var a, b := AsyncKeys(log, r, k), AsyncKeys(log, r, l);
            (n in a <==> n in b) && (n in a ==> a[n] == b[n])
  {
    if log != [] {
      var e := log[|log| - 1];
      if !(Hands(r, e) && e.epoch == n) {
        forall x ensures Handed(log, r, n, x) <==> Handed(log[..|log| - 1], r, n, x) {
          HandedLast(log, r, n, x);
        }
        AsyncFromAgreeing(log[..|log| - 1], r, k, l, n);
      }
    }
  }

  /** The synchronous pass changes only epochs that the log hands over, and loses none. */
  lemma {:induction false} SyncAgrees(log: seq<Event>, r: Reader, publicKeys: PublicKeys, keys: Keys)
    requires SyncKeys(log, r, publicKeys, keys).Ok?
    ensures AgreeElsewhere(log, r, keys, SyncKeys(log, r, publicKeys, keys).value)
  {
    if log != [] {
      var init, e := log[..|log| - 1], log[|log| - 1];
      SyncAgrees(init, r, publicKeys, keys);
      forall n, x ensures Handed(log, r, n, x) <==> Handed(init, r, n, x) || Gives(e, r, n, x) {
        HandedLast(log, r, n, x);
      }
      if e.Grant? && e.recipient == r.main.name && Unwraps(r.main, e.envelope) {
        MainIsFirst(r, e.recipient);
        assert Gives(e, r, e.epoch, e.envelope.key) && Handed(log, r, e.epoch, e.envelope.key);
      }
    }
  }

  function KeysLeft(log: seq<Event>, r: Reader, publicKeys: PublicKeys, keys: Keys): Keys {
    var o := MaterializeAsync(log, r, publicKeys, keys);
    if o.Ready? then o.keys else KeysWritten(log, r, publicKeys, keys)
  }

  /** Materializing a second time, from the keys the first time left behind, gives the same outcome. */
  lemma MaterializeTwice(log: seq<Event>, r: Reader, publicKeys: PublicKeys, keys: Keys)
    ensures MaterializeAsync(log, r, publicKeys, KeysLeft(log, r, publicKeys, keys)) == MaterializeAsync(log, r, publicKeys, keys)
  {
    hide AsyncKeys, SyncKeys, Replay;
    if AllSigned(log, publicKeys) {
      var once, left := AsyncKeys(log, r, keys), KeysLeft(log, r, publicKeys, keys);
      if SyncKeys(log, r, publicKeys, once).Ok? {
        SyncAgrees(log, r, publicKeys, once);
      }
      assert AgreeElsewhere(log, r, once, left);
      forall n: nat ensures (n in once <==> n in AsyncKeys(log, r, left)) && (n in once ==> once[n] == AsyncKeys(log, r, left)[n]) {
        AsyncKeyAt(log, r, keys, n);
        AsyncFromAgreeing(log, r, keys, left, n);
      }
      assert AsyncKeys(log, r, left) == once;
    }
  }

  // ----- the synchronous pass alone -----

  /** A grant that the synchronous pass can open. */
  predicate Legacy(e: Event, r: Reader) {
    e.Grant? && e.recipient == r.main.name && !e.envelope.hpke && Unwraps(r.main, e.envelope)
  }

  function LegacyKeys(log: seq<Event>, r: Reader): Keys {
    if log == [] then map[]
    else
      var e := log[|log| - 1];
      var before := LegacyKeys(log[..|log| - 1], r);
      if Legacy(e, r) then before[e.epoch := e.envelope.key]
      else before
  }

  /** An HPKE grant to the reader for an epoch that is not known when its turn comes. */
  ghost predicate BlockedAt(log: seq<Event>, r: Reader, keys: Keys, i: nat)
    requires i < |log|
  {
    Blocks(log[i], r, keys + LegacyKeys(log[..i], r))
  }

  lemma {:induction false} SyncExactly(log: seq<Event>, r: Reader, publicKeys: PublicKeys, keys: Keys)
    requires AllSigned(log, publicKeys)
    ensures SyncKeys(log, r, publicKeys, keys).Ok? <==> forall i :: 0 <= i < |log| ==> !BlockedAt(log, r, keys, i)
    ensures SyncKeys(log, r, publicKeys, keys).Ok? ==> SyncKeys(log, r, publicKeys, keys).value == keys + LegacyKeys(log, r)
  {
    if log != [] {
      var init, e := log[..|log| - 1], log[|log| - 1];
      Last(log);
      SyncExactly(init, r, publicKeys, keys);
      forall i | 0 <= i < |init| ensures BlockedAt(log, r, keys, i) <==> BlockedAt(init, r, keys, i) {
        assert log[..i] == init[..i];
      }
      assert BlockedAt(log, r, keys, |log| - 1) <==> Blocks(e, r, keys + LegacyKeys(init, r));
    } else {
      assert keys + map[] == keys;
    }
  }

  /** The synchronous pass, run again on its own result, gives the same outcome. */
  lemma SyncTwice(log: seq<Event>, r: Reader, publicKeys: PublicKeys, keys: Keys)
    requires AllSigned(log, publicKeys) && SyncKeys(log, r, publicKeys, keys).Ok?
    ensures var all := SyncKeys(log, r, publicKeys, keys).value;
            Materialize(log, r, publicKeys, all) == Materialize(log, r, publicKeys, keys)
  {
    hide SyncKeys, LegacyKeys, Replay;
    var all := SyncKeys(log, r, publicKeys, keys).value;
    SyncExactly(log, r, publicKeys, keys);
    SyncExactly(log, r, publicKeys, all);
    assert all == all + LegacyKeys(log, r);
    forall i | 0 <= i < |log| ensures !BlockedAt(log, r, all, i) {
      assert !BlockedAt(log, r, keys, i);
      LegacyGrow(log, r, i);
    }
  }

  lemma {:induction false} LegacyGrow(log: seq<Event>, r: Reader, i: nat)
    requires i <= |log|
    ensures LegacyKeys(log[..i], r).Keys <= LegacyKeys(log, r).Keys
  {
    if i < |log| {
      LegacyGrow(log[..|log| - 1], r, i);
      assert log[..|log| - 1][..i] == log[..i];
    } else {
      assert log[..i] == log;
    }
  }

  lemma LegacyHands(r: Reader, e: Event)
    requires Legacy(e, r)
    ensures Hands(r, e) && Gives(e, r, e.epoch, e.envelope.key)
  {
    MainIsFirst(r, e.recipient);
  }

  /** The epochs of the legacy keys are those of the legacy grants, and each key is one of a grant's. */
  lemma {:induction false} LegacyKeyAt(log: seq<Event>, r: Reader, n: nat)
    ensures if n in LegacyKeys(log, r) then exists e :: e in log && Legacy(e, r) && e.epoch == n && e.envelope.key == LegacyKeys(log, r)[n]
            else forall e :: e in log && Legacy(e, r) ==> e.epoch != n
  {
    if log != [] {
      var init, e := log[..|log| - 1], log[|log| - 1];
      Last(log);
      LegacyKeyAt(init, r, n);
      if Legacy(e, r) && e.epoch == n {
        assert e in log && LegacyKeys(log, r)[n] == e.envelope.key;
      }
    }
  }

  lemma LegacyOrderFree(a: seq<Event>, b: seq<Event>, r: Reader)
    requires SameEvents(a, b) && OneKeyPerEpoch(a, r)
    ensures LegacyKeys(a, r) == LegacyKeys(b, r)
  {
    hide LegacyKeys, Gives, Hands, Unwraps;
    var x, y := LegacyKeys(a, r), LegacyKeys(b, r);
    forall n: nat ensures (n in x <==> n in y) && (n in x ==> x[n] == y[n]) {
      LegacyKeyAt(a, r, n);
      LegacyKeyAt(b, r, n);
      if n in x && n in y {
        var d :| d in a && Legacy(d, r) && d.epoch == n && d.envelope.key == x[n];
        var e :| e in b && Legacy(e, r) && e.epoch == n && e.envelope.key == y[n];
        LegacyHands(r, d);
        LegacyHands(r, e);
        assert Handed(a, r, n, x[n]) && Handed(a, r, n, y[n]);
      }
    }
    assert x == y;
  }

  /** On signed events the synchronous pass fails only for want of the asynchronous one. */
  lemma {:induction false} SyncFailure(log: seq<Event>, r: Reader, publicKeys: PublicKeys, keys: Keys)
    requires AllSigned(log, publicKeys)
    ensures SyncKeys(log, r, publicKeys, keys).Err? ==> SyncKeys(log, r, publicKeys, keys) == Err(NEEDS_ASYNC)
  {
    if log != [] {
      Last(log);
      SyncFailure(log[..|log| - 1], r, publicKeys, keys);
    }
  }

  /** Two placings of the grants with which the pass succeeds, or fails, give the same outcome. */
  lemma SameFate(a: seq<Event>, b: seq<Event>, r: Reader, publicKeys: PublicKeys, keys: Keys)
    requires GrantsMoved(a, b) && OneKeyPerEpoch(a, r) && AllSigned(a, publicKeys)
    ensures SyncKeys(a, r, publicKeys, keys).Ok? == SyncKeys(b, r, publicKeys, keys).Ok?
            <==> Materialize(a, r, publicKeys, keys) == Materialize(b, r, publicKeys, keys)
  {
    hide SyncKeys, LegacyKeys, NonGrants, Replay, OneKeyPerEpoch;
    MovedSame(a, b);
    LegacyOrderFree(a, b, r);
    SyncExactly(a, r, publicKeys, keys);
    SyncExactly(b, r, publicKeys, keys);
    SyncFailure(a, r, publicKeys, keys);
    SyncFailure(b, r, publicKeys, keys);
    ReplayNonGrants(a, r, keys + LegacyKeys(a, r));
    ReplayNonGrants(b, r, keys + LegacyKeys(a, r));
  }

  /** If no HPKE grant to the reader is for an epoch without a stored key, the synchronous pass succeeds. */
  lemma FreeSucceeds(log: seq<Event>, r: Reader, publicKeys: PublicKeys, keys: Keys)
    requires AllSigned(log, publicKeys) && !Stuck(log, r, keys)
    ensures SyncKeys(log, r, publicKeys, keys).Ok?
  {
    hide SyncKeys, LegacyKeys;
    SyncExactly(log, r, publicKeys, keys);
    forall i | 0 <= i < |log| ensures !BlockedAt(log, r, keys, i) {
      assert log[i] in log;
    }
  }

  /** If one is for an epoch that no legacy grant brings either, it fails. */
  lemma StuckFails(log: seq<Event>, r: Reader, publicKeys: PublicKeys, keys: Keys)
    requires AllSigned(log, publicKeys) && Stuck(log, r, keys + LegacyKeys(log, r))
    ensures !SyncKeys(log, r, publicKeys, keys).Ok?
  {
    hide SyncKeys, LegacyKeys;
    SyncExactly(log, r, publicKeys, keys);
    var i :| 0 <= i < |log| && Blocks(log[i], r, keys + LegacyKeys(log, r));
    LegacyGrow(log, r, i);
    assert BlockedAt(log, r, keys, i);
  }

  /** With an HPKE grant for an epoch without a stored key in front, the pass fails. */
  lemma FailingPlace(log: seq<Event>, r: Reader, publicKeys: PublicKeys, keys: Keys) returns (b: seq<Event>)
    requires AllSigned(log, publicKeys) && Stuck(log, r, keys)
    ensures GrantsMoved(log, b) && !SyncKeys(b, r, publicKeys, keys).Ok?
  {
    hide SyncKeys, LegacyKeys, NonGrants;
    var i :| 0 <= i < |log| && Blocks(log[i], r, keys);
    b := [log[i]] + (log[..i] + log[i + 1..]);
    GrantToFront(log, i);
    MovedSame(log, b);
    SyncExactly(b, r, publicKeys, keys);
    NoLegacyYet(r);
    assert b[..0] == [];
    assert BlockedAt(b, r, keys, 0);
  }

  /** The HPKE grants, or all other events. */
  function Picked(log: seq<Event>, hpke: bool): seq<Event> {
    if log == [] then []
    else
      var e := log[|log| - 1];
      Picked(log[..|log| - 1], hpke) + if (e.Grant? && e.envelope.hpke) == hpke then [e] else []
  }

  lemma PickedLast(log: seq<Event>)
    requires log != []
    ensures var init, e := log[..|log| - 1], log[|log| - 1];
            var hpke := e.Grant? && e.envelope.hpke;
            Picked(log, hpke) == Picked(init, hpke) + [e] && Picked(log, !hpke) == Picked(init, !hpke)
  {
    var init, e := log[..|log| - 1], log[|log| - 1];
    assert Picked(init, true) + [] == Picked(init, true) && Picked(init, false) + [] == Picked(init, false);
  }

  lemma {:induction false} PickedMoved(log: seq<Event>)
    ensures multiset(Picked(log, false)) + multiset(Picked(log, true)) == multiset(log)
    ensures NonGrants(Picked(log, false)) == NonGrants(log) && NonGrants(Picked(log, true)) == []
  {
    hide Picked, NonGrants;
    if log == [] {
      PickedNone();
    } else {
      var init, e := log[..|log| - 1], log[|log| - 1];
      PickedMoved(init);
      PickedLast(log);
      assert log == init + [e];
      NonGrantsOne(init, e);
      NonGrantsOne(Picked(init, false), e);
      NonGrantsOne(Picked(init, true), e);
    }
  }

  lemma PickedNone()
    ensures Picked([], false) == Picked([], true) == NonGrants([]) == []
  {
  }

  lemma NonGrantsOne(init: seq<Event>, e: Event)
    ensures NonGrants(init + [e]) == NonGrants(init) + if e.Grant? then [] else [e]
  {
    assert (init + [e])[..|init|] == init;
  }

  lemma {:induction false} PickedLegacy(log: seq<Event>, r: Reader)
    ensures LegacyKeys(Picked(log, false), r) == LegacyKeys(log, r)
    ensures forall e :: e in Picked(log, false) ==> !(e.Grant? && e.envelope.hpke)
  {
    if log != [] {
      PickedLegacy(log[..|log| - 1], r);
      PickedLast(log);
      hide Picked;
    }
  }

  /** With the HPKE grants behind everything else, the pass succeeds if legacy grants bring what is missing. */
  lemma SucceedingPlace(log: seq<Event>, r: Reader, publicKeys: PublicKeys, keys: Keys) returns (b: seq<Event>)
    requires AllSigned(log, publicKeys) && !Stuck(log, r, keys + LegacyKeys(log, r))
    ensures GrantsMoved(log, b) && SyncKeys(b, r, publicKeys, keys).Ok?
  {
    hide SyncKeys, LegacyKeys, NonGrants, Picked;
    var x, y := Picked(log, false), Picked(log, true);
    b := x + y;
    PickedMoved(log);
    PickedLegacy(log, r);
    NonGrantsSum(x, y);
    MovedSame(log, b);
    SyncExactly(b, r, publicKeys, keys);
    forall i | 0 <= i < |b| ensures !BlockedAt(b, r, keys, i) {
      assert b[i] in log && !Blocks(b[i], r, keys + LegacyKeys(log, r));
      if i < |x| {
        assert b[i] in x;
      } else {
        assert b[..i][..|x|] == x;
        LegacyGrow(b[..i], r, |x|);
      }
    }
  }

  /** Alone, the synchronous pass does depend on where grants stand: if all grants of an epoch wrap one key,
      keys and store are the same for every placing of them exactly if no HPKE grant to the reader is for an
      epoch without a stored key, or one is for an epoch that no legacy grant brings either. */
  lemma SyncOrderFreeExactly(log: seq<Event>, r: Reader, publicKeys: PublicKeys, keys: Keys)
    requires AllSigned(log, publicKeys) && OneKeyPerEpoch(log, r)
    ensures (forall b :: GrantsMoved(log, b) ==> Materialize(b, r, publicKeys, keys) == Materialize(log, r, publicKeys, keys))
            <==> !Stuck(log, r, keys) || Stuck(log, r, keys + LegacyKeys(log, r))
  {
    hide SyncKeys, LegacyKeys, NonGrants, Materialize, Blocks, OneKeyPerEpoch;
    if !Stuck(log, r, keys) || Stuck(log, r, keys + LegacyKeys(log, r)) {
      forall b | GrantsMoved(log, b) ensures Materialize(b, r, publicKeys, keys) == Materialize(log, r, publicKeys, keys) {
        MovedSame(log, b);
        LegacyOrderFree(log, b, r);
        SameFate(log, b, r, publicKeys, keys);
        if Stuck(log, r, keys) {
          StuckFails(log, r, publicKeys, keys);
          StuckFails(b, r, publicKeys, keys);
        } else {
          FreeSucceeds(log, r, publicKeys, keys);
          FreeSucceeds(b, r, publicKeys, keys);
        }
      }
    } else {
      var x := FailingPlace(log, r, publicKeys, keys);
      var y := SucceedingPlace(log, r, publicKeys, keys);
      SameFate(log, x, r, publicKeys, keys);
      SameFate(log, y, r, publicKeys, keys);
    }
  }

  function LegacyGrant(r: Reader, actor: Text, signer: Holder, key: Key): Event {
    Grant([1], actor, signer, MemberGranted, r.main.name, 1, Envelope(r.main.legacy, key, false))
  }

  function HpkeGrant(r: Reader, actor: Text, signer: Holder, key: Key): Event {
    Grant([2], actor, signer, MemberGranted, r.main.name, 1, Envelope(r.main.hpke, key, true))
  }

  /** A legacy and an HPKE grant of one epoch's key: in one order the pass succeeds, in the other it fails. */
  lemma TwoPlaces(r: Reader, actor: Text, signer: Holder, key: Key)
    ensures var x, y := LegacyGrant(r, actor, signer, key), HpkeGrant(r, actor, signer, key);
            && GrantsMoved([x, y], [y, x]) && OneKeyPerEpoch([x, y], r) && AllSigned([x, y], map[actor := signer])
            && Materialize([x, y], r, map[actor := signer], map[]) == Ready(map[1 := key], EMPTY)
            && Materialize([y, x], r, map[actor := signer], map[]) == Failed(NEEDS_ASYNC)
  {
    var x, y := LegacyGrant(r, actor, signer, key), HpkeGrant(r, actor, signer, key);
    TwoPass(x, y, r, map[actor := signer]);
    TwoPass(y, x, r, map[actor := signer]);
    GrantToFront([x, y], 1);
    assert [y] + ([x, y][..1] + [x, y][2..]) == [y, x];
    OneKey(x, y, r, key);
    hide Replay, GrantsMoved, OneKeyPerEpoch, SyncKeys;
  }

  lemma OneKey(x: Event, y: Event, r: Reader, key: Key)
    requires x.Grant? && y.Grant? && x.envelope.key == key && y.envelope.key == key
    ensures OneKeyPerEpoch([x, y], r)
  {
    hide Hands;
    forall n, k | Handed([x, y], r, n, k) ensures k == key {
      var e :| e in [x, y] && Gives(e, r, n, k);
    }
  }

  lemma TwoPass(x: Event, y: Event, r: Reader, publicKeys: PublicKeys)
    requires x.Grant? && y.Grant?
    ensures SyncKeys([x, y], r, publicKeys, map[]) ==
            if !Signed(x, publicKeys) then Err(BAD_SIGNATURE)
            else var k := SyncStep(map[], x, r);
                 if k.Err? then k else if !Signed(y, publicKeys) then Err(BAD_SIGNATURE) else SyncStep(k.value, y, r)
    ensures forall keys :: Replay([x, y], r, keys) == EMPTY
  {
    hide SyncStep, Signed;
    assert [x, y][..1] == [x] && [x][..0] == [];
    assert SyncKeys([], r, publicKeys, map[]) == Ok(map[]);
    assert SyncKeys([x], r, publicKeys, map[]) == if Signed(x, publicKeys) then SyncStep(map[], x, r) else Err(BAD_SIGNATURE);
    forall keys ensures Replay([x, y], r, keys) == EMPTY {
      assert Replay([x], r, keys) == ReplayStep(Replay([], r, keys), x, r, keys);
    }
  }

  lemma NoLegacyYet(r: Reader)
    ensures LegacyKeys([], r) == map[]
  {
  }

  lemma {:induction false} NonGrantsSum(a: seq<Event>, b: seq<Event>)
    ensures NonGrants(a + b) == NonGrants(a) + NonGrants(b)
  {
    if b == [] {
      assert a + b == a;
    } else {
      var init := b[..|b| - 1];
      NonGrantsSum(a, init);
      assert (a + b)[..|a + b| - 1] == a + init;
    }
  }

  lemma GrantToFront(log: seq<Event>, i: nat)
    requires i < |log| && log[i].Grant?
    ensures GrantsMoved(log, [log[i]] + (log[..i] + log[i + 1..]))
  {
    hide NonGrants;
    var e, x, y := log[i], log[..i], log[i + 1..];
    assert log == x + ([e] + y);
    OneGrant(e);
    assert [] + NonGrants(y) == NonGrants(y) && [] + NonGrants(x + y) == NonGrants(x + y);
    NonGrantsSum([e], x + y);
    NonGrantsSum(x, y);
    NonGrantsSum([e], y);
    NonGrantsSum(x, [e] + y);
  }

  lemma OneGrant(e: Event)
    requires e.Grant?
    ensures NonGrants([e]) == []
  {
    assert [e][..0] == [];
  }
}
