/** What a revoked reader still sees of what is written afterwards. */
module RevokedReaders {
  import opened Basics
  import opened Texts
  import opened VaultEvents
  import opened Materializer
  import opened ReplayOrder
  import opened MembershipSpec
  import opened MembershipProofs

  // ----- readers that are shut out -----

  function NamesOf(r: Reader): set<Text> {
    {r.main.name} + set o | o in r.others :: o.name
  }

  /** None of these names is active, and the current key is for an epoch from `start` on, or none that is known. */
  ghost predicate ShutOut(r: Repo, names: set<Text>, start: nat, known: set<Key>) {
    && r.epoch.Some?
    && ActiveRecipients(r.log) !! names
    && (r.epoch.value >= start || (HasKey(r) ==> r.keys[r.epoch.value] !in known))
  }

  /** The operation does not itself grant anything to these names. */
  predicate Bypasses(p: People, op: Op, names: set<Text>) {
    match op
    case Create(owner, _, _, _) => owner !in names
    case GrantTo(recipient, _, _, _) => recipient !in names
    case GrantIdentity(identity, _, _) => identity.name !in names
    case Revoke(_, actor, _, _) => actor in p.own ==> GrantRecipientName(p, actor) !in names
    case _ => true
  }

  /** A key drawn for an epoch before `start`, as after a new creation, is not one that is known. */
  predicate DrawsNew(r: Repo, op: Op, start: nat, known: set<Key>) {
    match op
    case Create(_, _, _, random) => 1 < start ==> random.key !in known
    case Revoke(_, _, _, random) => r.epoch.Some? && r.epoch.value + 1 < start ==> random.key !in known
    case _ => true
  }

  /** What may be added to the log while the names are shut out. */
  ghost predicate Passing(d: seq<Event>, names: set<Text>, start: nat, known: set<Key>) {
    forall e :: e in d ==> Passes(e, names, start, known)
  }

  predicate Passes(e: Event, names: set<Text>, start: nat, known: set<Key>) {
    && !(e.Grant? && e.recipient in names)
    && (e.Written? && !e.private ==> e.epoch >= start || e.sealedWith !in known)
  }

  ghost predicate Grows(r: Repo, t: Repo, names: set<Text>, start: nat, known: set<Key>) {
    && |r.log| <= |t.log| && t.log[..|r.log|] == r.log
    && Passing(t.log[|r.log|..], names, start, known)
  }

  lemma GrowsTransitive(r: Repo, t: Repo, u: Repo, names: set<Text>, start: nat, known: set<Key>)
    requires Grows(r, t, names, start, known) && Grows(t, u, names, start, known)
    ensures Grows(r, u, names, start, known)
  {
    hide Passes;
    assert u.log[..|r.log|] == t.log[..|r.log|];
    assert u.log[|r.log|..] == t.log[|r.log|..] + u.log[|t.log|..];
  }

  lemma GrowsSame(r: Repo, names: set<Text>, start: nat, known: set<Key>)
    ensures Grows(r, r, names, start, known)
  {
    assert r.log[..|r.log|] == r.log && r.log[|r.log|..] == [];
  }

  lemma GrowsOne(r: Repo, t: Repo, e: Event, names: set<Text>, start: nat, known: set<Key>)
    requires t.log == r.log + [e] && Passes(e, names, start, known)
    ensures Grows(r, t, names, start, known)
  {
    assert t.log[..|r.log|] == r.log && t.log[|r.log|..] == [e];
  }

  lemma AppendShut(r: Repo, e: Event, names: set<Text>, start: nat, known: set<Key>)
    requires ShutOut(r, names, start, known) && Passes(e, names, start, known)
    ensures ShutOut(Append(r, e), names, start, known) && Grows(r, Append(r, e), names, start, known)
  {
    hide ActiveRecipients;
    ActiveAppend(r.log, e);
    GrowsOne(r, Append(r, e), e, names, start, known);
  }

  lemma {:induction false} RotateShut(p: People, r: Repo, served: seq<Text>, actor: Text, epoch: nat, hpke: bool, random: Random,
                                      names: set<Text>, start: nat, known: set<Key>)
    requires WellFiled(p) && actor in p.own && ShutOut(r, names, start, known) && Members(served) !! names
    ensures var t := RotateFor(p, r, served, actor, epoch, hpke, random);
            ShutOut(t, names, start, known) && Grows(r, t, names, start, known)
    decreases |served|
  {
    hide ShutOut, Grows;
    if served != [] && served[0] in p.known {
      assert served[0] in Members(served) && Members(served[1..]) <= Members(served);
      var e := GrantEvent(p, actor, p.known[served[0]], epoch, random.key, KeyRotated, hpke, random.ids(|r.log|));
      AppendShut(r, e, names, start, known);
      RotateShut(p, Append(r, e), served[1..], actor, epoch, hpke, random, names, start, known);
      GrowsTransitive(r, Append(r, e), RotateFor(p, Append(r, e), served[1..], actor, epoch, hpke, random), names, start, known);
    } else {
      GrowsSame(r, names, start, known);
    }
  }

  /** A revocation that does not hand these names the new key, once they are inactive. */
  lemma RevokeShuts(p: People, r: Repo, recipient: Text, actor: Text, hpke: bool, random: Random,
                    names: set<Text>, start: nat, known: set<Key>)
    requires WellFiled(p) && actor in p.own && r.epoch.Some? && GrantRecipientName(p, actor) !in names
    requires (ActiveRecipients(r.log) - if recipient == [] then {} else {recipient}) !! names
    requires r.epoch.value + 1 >= start || random.key !in known
    ensures var t := RevokeRepo(p, r, recipient, actor, hpke, random);
            ShutOut(t, names, start, known) && Grows(r, t, names, start, known)
  {
    hide ActiveRecipients, RotateFor, ShutOut, Grows;
    var t := Rotated(p, r, recipient, actor, random);
    var e := t.log[|r.log|];
    var served := Sorted(Remaining(p, r, recipient, actor));
    ActiveAppend(r.log, e);
    GrowsOne(r, t, e, names, start, known);
    RotatedShut(p, r, recipient, actor, random, names, start, known);
    assert Members(served) == Remaining(p, r, recipient, actor);
    RotateShut(p, t, served, actor, r.epoch.value + 1, hpke, random, names, start, known);
    GrowsTransitive(r, t, RotateFor(p, t, served, actor, r.epoch.value + 1, hpke, random), names, start, known);
  }

  lemma RotatedShut(p: People, r: Repo, recipient: Text, actor: Text, random: Random, names: set<Text>, start: nat, known: set<Key>)
    requires actor in p.own && r.epoch.Some?
    requires (ActiveRecipients(r.log) - if recipient == [] then {} else {recipient}) !! names
    requires r.epoch.value + 1 >= start || random.key !in known
    ensures ShutOut(Rotated(p, r, recipient, actor, random), names, start, known)
  {
    hide ActiveRecipients;
    var t := Rotated(p, r, recipient, actor, random);
    ActiveAppend(r.log, t.log[|r.log|]);
  }

  lemma PerformKeepsShut(p: People, r: Repo, op: Op, names: set<Text>, start: nat, known: set<Key>)
    requires WellFiled(p) && ShutOut(r, names, start, known) && Bypasses(p, op, names) && DrawsNew(r, op, start, known)
    ensures ShutOut(Perform(p, r, op), names, start, known) && Grows(r, Perform(p, r, op), names, start, known)
  {
    hide ActiveRecipients, RevokeRepo, Grows;
    GrowsSame(r, names, start, known);
    var t := Perform(p, r, op);
    if op.Revoke? {
      if op.actor in p.own {
        RevokeShuts(p, r, op.recipient, op.actor, op.hpke, op.random, names, start, known);
      } else {
        NothingRevoked(p, r, op.recipient, op.actor, op.hpke, op.random);
      }
    } else if op.Create? {
      CreateKeepsShut(p, r, op.owner, op.actor, op.hpke, op.random, names, start, known);
    } else if t != r {
      AppendShut(r, t.log[|r.log|], names, start, known);
    }
  }

  lemma CreateKeepsShut(p: People, r: Repo, owner: Text, actor: Text, hpke: bool, random: Random, names: set<Text>, start: nat, known: set<Key>)
    requires WellFiled(p) && ShutOut(r, names, start, known) && owner !in names && (1 < start ==> random.key !in known)
    ensures var t := CreateRepo(p, r, owner, actor, hpke, random);
            ShutOut(t, names, start, known) && Grows(r, t, names, start, known)
  {
    hide ActiveRecipients, Grows;
    GrowsSame(r, names, start, known);
    var t := CreateRepo(p, r, owner, actor, hpke, random);
    if owner in p.known {
      var u := r.(keys := map[1 := random.key], epoch := Some(1));
      if actor in p.own {
        AppendShut(u, t.log[|r.log|], names, start, known);
        GrowsOne(r, t, t.log[|r.log|], names, start, known);
      } else {
        SameLogGrows(r, t, names, start, known);
      }
    }
  }

  lemma SameLogGrows(r: Repo, t: Repo, names: set<Text>, start: nat, known: set<Key>)
    requires t.log == r.log
    ensures Grows(r, t, names, start, known)
  {
    assert r.log[..|r.log|] == r.log && r.log[|r.log|..] == [];
  }

  /** Operations, creations among them, from a shut-out state on. */
  ghost predicate IsSpan(people: seq<People>, states: seq<Repo>, ops: seq<Op>, names: set<Text>, start: nat, known: set<Key>) {
    && |people| == |ops| && |states| == |ops| + 1
    && forall i :: 0 <= i < |ops| ==>
         && WellFiled(people[i]) && states[i + 1] == Perform(people[i], states[i], ops[i])
         && Bypasses(people[i], ops[i], names) && DrawsNew(states[i], ops[i], start, known)
  }

  lemma {:induction false} SpanKeepsShut(people: seq<People>, states: seq<Repo>, ops: seq<Op>, names: set<Text>, start: nat, known: set<Key>, n: nat)
    requires IsSpan(people, states, ops, names, start, known) && ShutOut(states[0], names, start, known) && n <= |ops|
    ensures ShutOut(states[n], names, start, known) && Grows(states[0], states[n], names, start, known)
  {
    hide ShutOut, Perform, Bypasses, DrawsNew, Grows;
    if n == 0 {
      GrowsSame(states[0], names, start, known);
    } else {
      SpanKeepsShut(people, states, ops, names, start, known, n - 1);
      PerformKeepsShut(people[n - 1], states[n - 1], ops[n - 1], names, start, known);
      GrowsTransitive(states[0], states[n - 1], states[n], names, start, known);
    }
  }

  // ----- what a shut-out reader sees -----

  function PrivateOnly(d: seq<Event>): seq<Event> {
    if d == [] then []
    else PrivateOnly(d[..|d| - 1]) + (if Private(d[|d| - 1]) then [d[|d| - 1]] else [])
  }

  lemma {:induction false} FirstNamedIsMember(recipients: seq<Recipient>, name: Text)
    ensures var w := FirstNamed(recipients, name); w.Some? ==> w.value in recipients && w.value.name == name
  {
    if recipients != [] {
      FirstNamedIsMember(recipients[1..], name);
    }
  }

  lemma HandsByName(r: Reader, e: Event)
    requires Hands(r, e)
    ensures e.recipient in NamesOf(r)
  {
    FirstNamedIsMember([r.main] + r.others, e.recipient);
  }

  lemma {:induction false} NoGrantNoChange(log: seq<Event>, d: seq<Event>, r: Reader, publicKeys: PublicKeys, keys: Keys)
    requires forall e :: e in d ==> !(e.Grant? && e.recipient in NamesOf(r))
    ensures AsyncKeys(log + d, r, keys) == AsyncKeys(log, r, keys)
    ensures AllSigned(d, publicKeys) ==> SyncKeys(log + d, r, publicKeys, keys) == SyncKeys(log, r, publicKeys, keys)
  {
    if d == [] {
      assert log + d == log;
    } else {
      var init, e := d[..|d| - 1], d[|d| - 1];
      assert d == init + [e] && e in d;
      assert (log + d)[..|log + d| - 1] == log + init;
      NoGrantNoChange(log, init, r, publicKeys, keys);
      if Hands(r, e) {
        HandsByName(r, e);
      }
    }
  }

  lemma {:induction false} PrivateOnlyAre(d: seq<Event>)
    ensures forall e :: e in PrivateOnly(d) <==> e in d && Private(e)
  {
    if d != [] {
      PrivateOnlyAre(d[..|d| - 1]);
      assert d == d[..|d| - 1] + [d[|d| - 1]];
    }
  }


  /** The keys a reader starts with or is handed by a log. */
  ghost function KeysOf(log: seq<Event>, r: Reader, keys: Keys): set<Key> {
    keys.Values + set e | e in log && Hands(r, e) :: e.envelope.key
  }

  /** Nothing here is for an epoch from `start` on, or unknown. */
  ghost predicate Below(keys: Keys, start: nat, known: set<Key>) {
    forall n :: n in keys ==> n < start && keys[n] in known
  }

  lemma AsyncBelow(log: seq<Event>, r: Reader, keys: Keys, start: nat)
    requires forall n :: n in keys ==> n < start
    requires forall e :: e in log && e.Grant? && e.recipient in NamesOf(r) ==> e.epoch < start
    ensures Below(AsyncKeys(log, r, keys), start, KeysOf(log, r, keys))
  {
    hide AsyncKeys, Hands;
    var all := AsyncKeys(log, r, keys);
    forall n: nat | n in all ensures n < start && all[n] in KeysOf(log, r, keys) {
      AsyncKeyAt(log, r, keys, n);
      if Handed(log, r, n, all[n]) {
        var e :| e in log && Gives(e, r, n, all[n]);
        HandsByName(r, e);
        HandsGrants(r, e);
      }
    }
  }

  lemma HandsGrants(r: Reader, e: Event)
    requires Hands(r, e)
    ensures e.Grant?
  {
  }

  lemma SyncBelow(log: seq<Event>, r: Reader, publicKeys: PublicKeys, keys: Keys, start: nat, known: set<Key>)
    requires Below(keys, start, known) && KeysOf(log, r, map[]) <= known
    requires forall e :: e in log && e.Grant? && e.recipient in NamesOf(r) ==> e.epoch < start
    requires SyncKeys(log, r, publicKeys, keys).Ok?
    ensures Below(SyncKeys(log, r, publicKeys, keys).value, start, known)
  {
    hide SyncKeys, LegacyKeys, Hands;
    SyncIsSigned(log, r, publicKeys, keys);
    SyncExactly(log, r, publicKeys, keys);
    var all := SyncKeys(log, r, publicKeys, keys).value;
    forall n: nat | n in all ensures n < start && all[n] in known {
      if n in LegacyKeys(log, r) {
        LegacyKeyAt(log, r, n);
        var e :| e in log && Legacy(e, r) && e.epoch == n && e.envelope.key == LegacyKeys(log, r)[n];
        LegacyHands(r, e);
        assert all[n] in KeysOf(log, r, map[]);
      }
    }
  }

  lemma {:induction false} SyncIsSigned(log: seq<Event>, r: Reader, publicKeys: PublicKeys, keys: Keys)
    requires SyncKeys(log, r, publicKeys, keys).Ok?
    ensures AllSigned(log, publicKeys)
  {
    if log != [] {
      SyncIsSigned(log[..|log| - 1], r, publicKeys, keys);
      assert log == log[..|log| - 1] + [log[|log| - 1]];
    }
  }

  /** With keys that are all below, only private events of the added ones count. */
  lemma {:induction false} ReplayPassing(log: seq<Event>, d: seq<Event>, r: Reader, keys: Keys, names: set<Text>, start: nat, known: set<Key>)
    requires Passing(d, names, start, known) && Below(keys, start, known)
    ensures Replay(log + d, r, keys) == Replay(log + PrivateOnly(d), r, keys)
  {
    hide Apply;
    if d != [] {
      var init, e := d[..|d| - 1], d[|d| - 1];
      assert d == init + [e] && e in d;
      assert log + d == (log + init) + [e];
      assert Passes(e, names, start, known);
      ReplayPassing(log, init, r, keys, names, start, known);
      ReplayAppend(log + init, e, r, keys);
      if Private(e) {
        assert log + PrivateOnly(d) == (log + PrivateOnly(init)) + [e];
        ReplayAppend(log + PrivateOnly(init), e, r, keys);
      } else {
        assert PrivateOnly(d) == PrivateOnly(init);
      }
    }
  }

  /** Synchronous replay of the added events changes nothing but for the private ones. */
  lemma FrozenSync(base: seq<Event>, d: seq<Event>, r: Reader, publicKeys: PublicKeys, keys: Keys, start: nat, known: set<Key>)
    requires Below(keys, start, known) && KeysOf(base, r, map[]) <= known
    requires forall e :: e in base && e.Grant? && e.recipient in NamesOf(r) ==> e.epoch < start
    requires Passing(d, NamesOf(r), start, known) && AllSigned(d, publicKeys)
    ensures Materialize(base + d, r, publicKeys, keys) == Materialize(base + PrivateOnly(d), r, publicKeys, keys)
  {
    hide AsyncKeys, SyncKeys, Replay, PrivateOnly, NamesOf, KeysOf;
    PrivateOnlyAre(d);
    NoGrantNoChange(base, d, r, publicKeys, keys);
    NoGrantNoChange(base, PrivateOnly(d), r, publicKeys, keys);
    if SyncKeys(base, r, publicKeys, keys).Ok? {
      SyncBelow(base, r, publicKeys, keys, start, known);
      ReplayPassing(base, d, r, SyncKeys(base, r, publicKeys, keys).value, NamesOf(r), start, known);
    }
  }

  lemma FrozenAsync(base: seq<Event>, d: seq<Event>, r: Reader, publicKeys: PublicKeys, keys: Keys, start: nat)
    requires forall n :: n in keys ==> n < start
    requires forall e :: e in base && e.Grant? && e.recipient in NamesOf(r) ==> e.epoch < start
    requires Passing(d, NamesOf(r), start, KeysOf(base, r, keys)) && AllSigned(d, publicKeys)
    ensures MaterializeAsync(base + d, r, publicKeys, keys) == MaterializeAsync(base + PrivateOnly(d), r, publicKeys, keys)
  {
    hide AsyncKeys, Materialize, PrivateOnly, NamesOf, Passing;
    PrivateOnlyAre(d);
    PassingGrants(d, NamesOf(r), start, KeysOf(base, r, keys));
    NoGrantNoChange(base, d, r, publicKeys, keys);
    NoGrantNoChange(base, PrivateOnly(d), r, publicKeys, keys);
    AsyncBelow(base, r, keys, start);
    FrozenSync(base, d, r, publicKeys, AsyncKeys(base, r, keys), start, KeysOf(base, r, keys));
  }

  lemma PassingGrants(d: seq<Event>, names: set<Text>, start: nat, known: set<Key>)
    requires Passing(d, names, start, known)
    ensures forall e :: e in d ==> !(e.Grant? && e.recipient in names)
  {
    assert forall e :: e in d ==> Passes(e, names, start, known);
  }

  /** The reader has keys of epochs before `start` only, and the log hands it no others. */
  ghost predicate HoldsBefore(log: seq<Event>, r: Reader, keys: Keys, start: nat) {
    && (forall n :: n in keys ==> n < start)
    && forall e :: e in log && e.Grant? && e.recipient in NamesOf(r) ==> e.epoch < start
  }

  /** While none of a reader's names is active, no shared event changes what it materializes, in either
      replay: the outcome - keys, entries, candidates, index and edges, or the failure - is that of the log
      before the span with only the private events of the span, of which the reader can open its own. New
      creations may fall in the span, if the keys they draw are not the reader's. */
  lemma FrozenWhileShutOut(people: seq<People>, states: seq<Repo>, ops: seq<Op>, r: Reader, publicKeys: PublicKeys, keys: Keys, start: nat)
    requires |states| == |ops| + 1 && HoldsBefore(states[0].log, r, keys, start)
    requires var known := KeysOf(states[0].log, r, keys);
             IsSpan(people, states, ops, NamesOf(r), start, known) && ShutOut(states[0], NamesOf(r), start, known)
    requires |states[0].log| <= |states[|ops|].log| ==> AllSigned(states[|ops|].log[|states[0].log|..], publicKeys)
    ensures |states[0].log| <= |states[|ops|].log| && states[|ops|].log[..|states[0].log|] == states[0].log
    ensures var whole := states[|ops|].log; var seen := states[0].log + PrivateOnly(whole[|states[0].log|..]);
            && MaterializeAsync(whole, r, publicKeys, keys) == MaterializeAsync(seen, r, publicKeys, keys)
            && Materialize(whole, r, publicKeys, keys) == Materialize(seen, r, publicKeys, keys)
  {
    hide IsSpan, MaterializeAsync, Materialize;
    var base, whole, known := states[0].log, states[|ops|].log, KeysOf(states[0].log, r, keys);
    SpanKeepsShut(people, states, ops, NamesOf(r), start, known, |ops|);
    var d := whole[|base|..];
    assert whole == base + d;
    FrozenAsync(base, d, r, publicKeys, keys, start);
    FrozenSync(base, d, r, publicKeys, keys, start, known);
  }

  /** After a recipient is revoked by someone else - even if the rotation stops half-way - and until its
      next grant, its projection is frozen. */
  lemma RevokedReaderIsFrozen(p: People, r: Repo, recipient: Text, actor: Text, hpke: bool, random: Random,
                              people: seq<People>, states: seq<Repo>, ops: seq<Op>,
                              reader: Reader, publicKeys: PublicKeys, keys: Keys)
    requires WellFiled(p) && r.epoch.Some? && Bounded(r.log, r.epoch.value) && actor in p.own
    requires recipient != GrantRecipientName(p, actor)
    requires reader.main.name == recipient && reader.others == []
    requires forall n :: n in keys ==> n <= r.epoch.value
    requires |states| == |ops| + 1 && states[0] == RevokeRepo(p, r, recipient, actor, hpke, random)
    requires IsSpan(people, states, ops, {recipient}, r.epoch.value + 1, KeysOf(states[0].log, reader, keys))
    requires |states[0].log| <= |states[|ops|].log| ==> AllSigned(states[|ops|].log[|states[0].log|..], publicKeys)
    ensures |states[0].log| <= |states[|ops|].log| && states[|ops|].log[..|states[0].log|] == states[0].log
    ensures var whole := states[|ops|].log; var seen := states[0].log + PrivateOnly(whole[|states[0].log|..]);
            && MaterializeAsync(whole, reader, publicKeys, keys) == MaterializeAsync(seen, reader, publicKeys, keys)
            && Materialize(whole, reader, publicKeys, keys) == Materialize(seen, reader, publicKeys, keys)
  {
    hide IsSpan, MaterializeAsync, Materialize, RevokeRepo, ShutOut, ActiveRecipients, KeysOf, Bounded;
    var start := r.epoch.value + 1;
    var known := KeysOf(states[0].log, reader, keys);
    EmptyIsNeverActive(r.log);
    RevokeShuts(p, r, recipient, actor, hpke, random, {recipient}, start, known);
    assert NamesOf(reader) == {recipient};
    GrantsBefore(r, states[0], recipient, start, known);
    FrozenWhileShutOut(people, states, ops, reader, publicKeys, keys, start);
  }

  lemma GrantsBefore(r: Repo, t: Repo, recipient: Text, start: nat, known: set<Key>)
    requires r.epoch.Some? && Bounded(r.log, r.epoch.value) && start == r.epoch.value + 1
    requires Grows(r, t, {recipient}, start, known)
    ensures forall e :: e in t.log && e.Grant? && e.recipient in {recipient} ==> e.epoch < start
  {
    assert t.log == r.log + t.log[|r.log|..];
    PassingGrants(t.log[|r.log|..], {recipient}, start, known);
    assert forall e :: e in r.log ==> Within(e, r.epoch.value);
  }
}
