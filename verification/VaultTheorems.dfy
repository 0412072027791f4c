/** Results that span writing a log and replaying it: replicas made from an export, and readers that can
    open what is written. */
module VaultTheorems {
  import opened Basics
  import opened Texts
  import opened VaultEvents
  import opened Materializer
  import opened ReplayOrder
  import opened MembershipSpec
  import opened MembershipProofs
  import opened RevokedReaders
  import opened StoreTheorems
  import EventLog

  // ----- a replica made from an export -----

  /** The epoch that missing metadata is rebuilt with. */
  function RebuiltEpoch(log: seq<Event>): nat {
    if log == [] then 1
    else
      var before := RebuiltEpoch(log[..|log| - 1]);
      if Carries(log[|log| - 1]) > before then Carries(log[|log| - 1]) else before
  }

  lemma {:induction false} RebuiltIsMax(log: seq<Event>)
    ensures RebuiltEpoch(log) >= 1 && forall e :: e in log ==> Carries(e) <= RebuiltEpoch(log)
    ensures RebuiltEpoch(log) == 1 || exists e :: e in log && Carries(e) == RebuiltEpoch(log)
  {
    if log != [] {
      RebuiltIsMax(log[..|log| - 1]);
      assert log == log[..|log| - 1] + [log[|log| - 1]];
    }
  }

  lemma {:induction false} SharedAre(log: seq<Event>)
    ensures forall e :: e in EventLog.Shared(log) <==> e in log && !Private(e)
  {
    if log != [] {
      SharedAre(log[..|log| - 1]);
      assert log == log[..|log| - 1] + [log[|log| - 1]];
    }
  }

  /** An export rebuilds the exporter's epoch exactly when some shared event announces it. */
  lemma RebuiltExactly(r: Repo)
    requires Tidy(r) && r.epoch.Some?
    ensures RebuiltEpoch(EventLog.Shared(r.log)) == r.epoch.value <==> Announced(r)
  {
    hide KeysUpTo;
    RebuiltIsMax(EventLog.Shared(r.log));
    SharedAre(r.log);
    assert forall e :: e in r.log ==> Within(e, r.epoch.value);
  }

  /** Creating the repository anew after a rotation, an export no longer rebuilds its epoch. */
  lemma CreatingAgainLosesEpoch(p: People, r: Repo, owner: Text, actor: Text, hpke: bool, random: Random)
    requires Announced(r) && r.epoch.Some? && r.epoch.value > 1 && owner in p.known
    ensures var t := CreateRepo(p, r, owner, actor, hpke, random);
            t.epoch == Some(1) && RebuiltEpoch(EventLog.Shared(t.log)) >= r.epoch.value
  {
    var t := CreateRepo(p, r, owner, actor, hpke, random);
    var e :| e in r.log && !Private(e) && Carries(e) == r.epoch.value;
    SharedAre(t.log);
    RebuiltIsMax(EventLog.Shared(t.log));
    assert e in t.log;
  }

  /** A replica made by importing an export into an empty directory reads the shared part of the log, no
      private event among it, and rebuilds the exporter's key epoch - in every history whose creations come
      before any rotation, whatever its operations throw. */
  lemma BootstrapFromExport(people: seq<People>, states: seq<Repo>, ops: seq<Op>, n: nat, files: EventLog.Files)
    requires |people| == |ops| && |states| == |ops| + 1 && n <= |ops|
    requires IsHistory(people, states, ops) && EarlyThrough(people, states, ops, n) && states[n].epoch.Some?
    requires EventLog.Numbered(files, states[n].log) && |states[n].log| < EventLog.LIMIT
    ensures var read := EventLog.Listing(EventLog.SharedFiles(files) + map[]);
            && (forall e :: e in read <==> e in states[n].log && !Private(e))
            && read == EventLog.Shared(states[n].log)
            && RebuiltEpoch(read) == states[n].epoch.value
  {
    hide Tidy, Announced, IsHistory, EarlyThrough, EventLog.Numbered, EventLog.Shared, EventLog.SharedFiles, RebuiltEpoch;
    EveryHistoryTidy(people, states, ops, n);
    HistoryAnnounces(people, states, ops, n);
    RebuiltExactly(states[n]);
    SharedAre(states[n].log);
    EventLog.ListingIsLog(files, states[n].log);
    EventLog.ListingShared(files);
    NothingAdded(EventLog.SharedFiles(files));
  }

  lemma NothingAdded(files: EventLog.Files)
    ensures files + map[] == files
  {
  }

  /** A reader that opens no private event of the log materializes the same from the exported part. */
  lemma {:induction false} SharedSuffices(log: seq<Event>, r: Reader, publicKeys: PublicKeys, keys: Keys)
    requires forall e :: e in log && Private(e) ==> !Decryptable(e, r, keys)
    requires AllSigned(log, publicKeys)
    ensures var s := EventLog.Shared(log);
            && AllSigned(s, publicKeys)
            && AsyncKeys(s, r, keys) == AsyncKeys(log, r, keys)
            && SyncKeys(s, r, publicKeys, keys) == SyncKeys(log, r, publicKeys, keys)
            && Replay(s, r, keys) == Replay(log, r, keys)
  {
    hide Apply;
    if log != [] {
      var init, e := log[..|log| - 1], log[|log| - 1];
      assert log == init + [e];
      SharedSuffices(init, r, publicKeys, keys);
      var s := EventLog.Shared(init);
      if Private(e) {
        assert EventLog.Shared(log) == s && !Decryptable(e, r, keys);
      } else {
        var t := s + [e];
        assert EventLog.Shared(log) == t && t[..|t| - 1] == s && t[|t| - 1] == e;
        assert Signed(e, publicKeys);
      }
    }
  }

  /** Private events are sealed with personal keys, so which of them open does not depend on epoch keys. */
  lemma ExportMaterializesAlike(log: seq<Event>, r: Reader, publicKeys: PublicKeys, keys: Keys)
    requires forall e :: e in log && Private(e) ==> !(e.actor == r.name && e.sealedWith == r.personalKey)
    requires AllSigned(log, publicKeys)
    ensures MaterializeAsync(EventLog.Shared(log), r, publicKeys, keys) == MaterializeAsync(log, r, publicKeys, keys)
  {
    hide AsyncKeys, SyncKeys, Replay, EventLog.Shared;
    SharedSuffices(log, r, publicKeys, keys);
    var all := AsyncKeys(log, r, keys);
    SharedSuffices(log, r, publicKeys, all);
    if SyncKeys(log, r, publicKeys, all).Ok? {
      SharedSuffices(log, r, publicKeys, SyncKeys(log, r, publicKeys, all).value);
    }
  }

  // ----- one key per epoch, and who can read -----

  /** Grants wrap, and shared events are sealed with, the key that the key file has for their epoch. */
  predicate UsesKeys(e: Event, keys: Keys) {
    && (e.Grant? ==> e.epoch in keys && e.envelope.key == keys[e.epoch])
    && (e.Written? && !e.private ==> e.epoch in keys && e.sealedWith == keys[e.epoch])
  }

  ghost predicate Genuine(r: Repo) {
    forall e :: e in r.log ==> UsesKeys(e, r.keys)
  }

  lemma {:induction false} RotateGenuine(p: People, r: Repo, names: seq<Text>, actor: Text, epoch: nat, hpke: bool, random: Random)
    requires actor in p.own && Genuine(r) && epoch in r.keys && r.keys[epoch] == random.key
    ensures Genuine(RotateFor(p, r, names, actor, epoch, hpke, random))
    decreases |names|
  {
    if names != [] && names[0] in p.known {
      RotateGenuine(p, Append(r, GrantEvent(p, actor, p.known[names[0]], epoch, random.key, KeyRotated, hpke, random.ids(|r.log|))),
                    names[1..], actor, epoch, hpke, random);
    }
  }

  /** A creation comes first. */
  predicate CreatesFirst(p: People, r: Repo, op: Op) {
    op.Create? && op.owner in p.known ==> r.epoch.None?
  }

  lemma PerformGenuine(p: People, r: Repo, op: Op)
    requires Tidy(r) && Genuine(r) && CreatesFirst(p, r, op)
    ensures Genuine(Perform(p, r, op))
  {
    hide RotateFor, ActiveRecipients;
    if op.Revoke? && op.actor in p.own && r.epoch.Some? {
      var t := Rotated(p, r, op.recipient, op.actor, op.random);
      assert r.epoch.value + 1 !in r.keys;
      forall e | e in r.log ensures UsesKeys(e, t.keys) {
        assert UsesKeys(e, r.keys);
      }
      assert Genuine(t);
      RotateGenuine(p, t, Sorted(Remaining(p, r, op.recipient, op.actor)), op.actor, r.epoch.value + 1, op.hpke, op.random);
    } else if op.Create? && r.epoch.None? {
      forall e | e in r.log ensures Private(e) {
      }
    }
  }

  /** Creating again before any rotation keeps one key per epoch only if the log has nothing of epoch 1 yet,
      or the same key is drawn. */
  lemma CreateGenuineExactly(p: People, r: Repo, owner: Text, actor: Text, hpke: bool, random: Random)
    requires Tidy(r) && Genuine(r) && r.epoch == Some(1) && owner in p.known
    ensures Genuine(CreateRepo(p, r, owner, actor, hpke, random)) <==>
            random.key == r.keys[1] || forall e :: e in r.log ==> !e.Grant? && !(e.Written? && !e.private)
  {
    var t := CreateRepo(p, r, owner, actor, hpke, random);
    forall e | e in r.log
      ensures UsesKeys(e, t.keys) <==> random.key == r.keys[1] || (!e.Grant? && !(e.Written? && !e.private))
    {
      assert UsesKeys(e, r.keys) && Within(e, 1);
    }
    assert forall e :: e in r.log ==> e in t.log;
  }

  ghost predicate FirstThrough(people: seq<People>, states: seq<Repo>, ops: seq<Op>, n: nat)
    requires n <= |people| && n <= |states| && n <= |ops|
  {
    forall i :: 0 <= i < n ==> CreatesFirst(people[i], states[i], ops[i])
  }

  lemma {:induction false} HistoryGenuine(people: seq<People>, states: seq<Repo>, ops: seq<Op>, n: nat)
    requires IsHistory(people, states, ops) && n <= |ops| && FirstThrough(people, states, ops, n)
    ensures Genuine(states[n])
  {
    hide Perform, Tidy;
    if n > 0 {
      HistoryGenuine(people, states, ops, n - 1);
      EveryHistoryTidy(people, states, ops, n - 1);
      PerformGenuine(people[n - 1], states[n - 1], ops[n - 1]);
    }
  }

  /** In the log of a history that creates its repository once, all grants of an epoch wrap one key, so
      replaying it does not depend on where its grants stand. */
  lemma HistoryReplaysInAnyGrantOrder(people: seq<People>, states: seq<Repo>, ops: seq<Op>, n: nat,
                                      other: seq<Event>, r: Reader, publicKeys: PublicKeys, keys: Keys)
    requires |people| == |ops| && |states| == |ops| + 1 && n <= |ops|
    requires IsHistory(people, states, ops) && FirstThrough(people, states, ops, n)
    requires GrantsMoved(states[n].log, other)
    ensures MaterializeAsync(other, r, publicKeys, keys) == MaterializeAsync(states[n].log, r, publicKeys, keys)
  {
    hide IsHistory, FirstThrough, MaterializeAsync, GrantsMoved;
    HistoryGenuine(people, states, ops, n);
    GenuineOneKey(states[n], r);
    GrantPositionsDoNotMatter(states[n].log, other, r, publicKeys, keys);
  }

  lemma GenuineOneKey(s: Repo, r: Reader)
    requires Genuine(s)
    ensures OneKeyPerEpoch(s.log, r)
  {
    forall n: nat, k: Key | Handed(s.log, r, n, k) ensures n in s.keys && k == s.keys[n] {
      var e :| e in s.log && Gives(e, r, n, k);
      HandsGrants(r, e);
      assert UsesKeys(e, s.keys);
    }
  }

  /** The reader can unwrap what is addressed to its own recipient name. */
  ghost predicate UnwrapsOwn(log: seq<Event>, r: Reader) {
    forall g :: g in log && g.Grant? && g.recipient == r.main.name ==> Unwraps(r.main, g.envelope)
  }

  /** An identity under the recipient's name has the recipient's own key pairs. */
  predicate Matches(to: PublicIdentity, who: Recipient) {
    to.name == who.name ==> to.legacy == who.legacy && to.hpke == who.hpke
  }

  ghost predicate FiledFor(p: People, who: Recipient) {
    forall n :: n in p.known ==> Matches(p.known[n], who)
  }

  /** So it is with all identities filed up to the n-th operation, and all that are granted directly. */
  ghost predicate FiledThrough(people: seq<People>, ops: seq<Op>, who: Recipient, n: nat)
    requires n <= |people| && n <= |ops|
  {
    forall i :: 0 <= i < n ==> FiledFor(people[i], who) && (ops[i].GrantIdentity? ==> Matches(ops[i].identity, who))
  }

  /** A grant to a matching identity can be opened by its recipient, in either form. */
  lemma GrantOpens(p: People, actor: Text, to: PublicIdentity, epoch: nat, key: Key, kind: GrantKind, hpke: bool, id: Text, r: Reader)
    requires actor in p.own && Matches(to, r.main)
    ensures var g := GrantEvent(p, actor, to, epoch, key, kind, hpke, id);
            && g.recipient == to.name && g.envelope.key == key && g.epoch == epoch
            && (to.name == r.main.name ==> g.envelope.holder == (if g.envelope.hpke then r.main.hpke else r.main.legacy) && Unwraps(r.main, g.envelope))
  {
  }

  lemma AppendUnwraps(r: Repo, e: Event, reader: Reader)
    requires UnwrapsOwn(r.log, reader) && (e.Grant? && e.recipient == reader.main.name ==> Unwraps(reader.main, e.envelope))
    ensures UnwrapsOwn(Append(r, e).log, reader)
  {
  }

  lemma {:induction false} RotateUnwraps(p: People, r: Repo, names: seq<Text>, actor: Text, epoch: nat, hpke: bool, random: Random, reader: Reader)
    requires actor in p.own && UnwrapsOwn(r.log, reader) && FiledFor(p, reader.main)
    ensures UnwrapsOwn(RotateFor(p, r, names, actor, epoch, hpke, random).log, reader)
    decreases |names|
  {
    hide UnwrapsOwn;
    if names != [] && names[0] in p.known {
      var e := GrantEvent(p, actor, p.known[names[0]], epoch, random.key, KeyRotated, hpke, random.ids(|r.log|));
      AppendUnwraps(r, e, reader);
      RotateUnwraps(p, Append(r, e), names[1..], actor, epoch, hpke, random, reader);
    }
  }

  lemma PerformUnwraps(p: People, r: Repo, op: Op, reader: Reader)
    requires UnwrapsOwn(r.log, reader) && FiledFor(p, reader.main) && (op.GrantIdentity? ==> Matches(op.identity, reader.main))
    ensures UnwrapsOwn(Perform(p, r, op).log, reader)
  {
    hide RotateFor, ActiveRecipients;
    if op.Revoke? && op.actor in p.own && r.epoch.Some? {
      RotateUnwraps(p, Rotated(p, r, op.recipient, op.actor, op.random), Sorted(Remaining(p, r, op.recipient, op.actor)),
                    op.actor, r.epoch.value + 1, op.hpke, op.random, reader);
    }
  }

  /** If a reader's name is only ever filed with the reader's own key pairs, it can open every grant that a history
      addresses to it. */
  lemma {:induction false} HistoryUnwraps(people: seq<People>, states: seq<Repo>, ops: seq<Op>, n: nat, r: Reader)
    requires |people| == |ops| && |states| == |ops| + 1 && n <= |ops|
    requires IsHistory(people, states, ops) && FiledThrough(people, ops, r.main, n)
    ensures UnwrapsOwn(states[n].log, r)
  {
    hide Perform;
    if n > 0 {
      HistoryUnwraps(people, states, ops, n - 1, r);
      hide UnwrapsOwn;
      PerformUnwraps(people[n - 1], states[n - 1], ops[n - 1], r);
    }
  }

  // ----- who signed, and who reads private events -----

  /** The public keys have, for everybody who operates, the key that signs. */
  ghost predicate Knows(publicKeys: PublicKeys, p: People) {
    forall a :: a in p.own ==> p.own[a].name in publicKeys && publicKeys[p.own[a].name] == p.own[a].signer
  }

  ghost predicate KnownThrough(people: seq<People>, publicKeys: PublicKeys, n: nat)
    requires n <= |people|
  {
    forall i :: 0 <= i < n ==> Knows(publicKeys, people[i])
  }

  lemma AppendSigned(r: Repo, e: Event, publicKeys: PublicKeys)
    requires AllSigned(r.log, publicKeys) && Signed(e, publicKeys)
    ensures AllSigned(Append(r, e).log, publicKeys)
  {
  }

  lemma {:induction false} RotateSigned(p: People, r: Repo, names: seq<Text>, actor: Text, epoch: nat, hpke: bool, random: Random, publicKeys: PublicKeys)
    requires actor in p.own && AllSigned(r.log, publicKeys) && Knows(publicKeys, p)
    ensures AllSigned(RotateFor(p, r, names, actor, epoch, hpke, random).log, publicKeys)
    decreases |names|
  {
    hide AllSigned;
    if names != [] && names[0] in p.known {
      var e := GrantEvent(p, actor, p.known[names[0]], epoch, random.key, KeyRotated, hpke, random.ids(|r.log|));
      AppendSigned(r, e, publicKeys);
      RotateSigned(p, Append(r, e), names[1..], actor, epoch, hpke, random, publicKeys);
    }
  }

  lemma PerformSigned(p: People, r: Repo, op: Op, publicKeys: PublicKeys)
    requires AllSigned(r.log, publicKeys) && Knows(publicKeys, p)
    ensures AllSigned(Perform(p, r, op).log, publicKeys)
  {
    hide RotateFor, ActiveRecipients;
    if op.Revoke? && op.actor in p.own && r.epoch.Some? {
      RotateSigned(p, Rotated(p, r, op.recipient, op.actor, op.random), Sorted(Remaining(p, r, op.recipient, op.actor)),
                   op.actor, r.epoch.value + 1, op.hpke, op.random, publicKeys);
    }
  }

  /** Every event that a history writes passes the signature check of whoever knows the operators' public keys. */
  lemma {:induction false} HistorySigned(people: seq<People>, states: seq<Repo>, ops: seq<Op>, n: nat, publicKeys: PublicKeys)
    requires |people| == |ops| && |states| == |ops| + 1 && n <= |ops|
    requires IsHistory(people, states, ops) && KnownThrough(people, publicKeys, n)
    ensures AllSigned(states[n].log, publicKeys)
  {
    hide Perform;
    if n > 0 {
      HistorySigned(people, states, ops, n - 1, publicKeys);
      hide AllSigned;
      PerformSigned(people[n - 1], states[n - 1], ops[n - 1], publicKeys);
    }
  }

  lemma {:induction false} RotateWritesNone(p: People, r: Repo, names: seq<Text>, actor: Text, epoch: nat, hpke: bool, random: Random)
    requires actor in p.own
    ensures forall e :: e in RotateFor(p, r, names, actor, epoch, hpke, random).log && e.Written? ==> e in r.log
    decreases |names|
  {
    if names != [] && names[0] in p.known {
      RotateWritesNone(p, Append(r, GrantEvent(p, actor, p.known[names[0]], epoch, random.key, KeyRotated, hpke, random.ids(|r.log|))),
                       names[1..], actor, epoch, hpke, random);
    }
  }

  /** The event is what this operation wrote: its payload, by this author, sealed with the author's personal key if
      private and else with the key of the epoch. */
  predicate WrittenBy(e: Event, who: Identity, r: Repo, op: Op) {
    && e.Written? && e.actor == who.name
    && match op {
         case WritePrivate(act, _, _) => e.private && e.act == act && e.sealedWith == who.personalKey
         case WriteShared(act, _, _) => !e.private && e.act == act && HasKey(r) && e.epoch == r.epoch.value && e.sealedWith == r.keys[e.epoch]
         case _ => false
       }
  }

  lemma PerformWrites(p: People, r: Repo, op: Op, e: Event)
    requires e in Perform(p, r, op).log && e.Written? && e !in r.log
    ensures (op.WritePrivate? || op.WriteShared?) && op.actor in p.own && WrittenBy(e, p.own[op.actor], r, op)
  {
    hide RotateFor, ActiveRecipients;
    if op.Revoke? && op.actor in p.own && r.epoch.Some? {
      RotateWritesNone(p, Rotated(p, r, op.recipient, op.actor, op.random), Sorted(Remaining(p, r, op.recipient, op.actor)),
                       op.actor, r.epoch.value + 1, op.hpke, op.random);
    }
  }

  /** Every written event of a history comes from a write operation with that payload, by that author. */
  lemma {:induction false} EveryEventWasWritten(people: seq<People>, states: seq<Repo>, ops: seq<Op>, n: nat, e: Event) returns (m: nat)
    requires |people| == |ops| && |states| == |ops| + 1 && n <= |ops| && IsHistory(people, states, ops)
    requires e in states[n].log && e.Written?
    ensures m < n && (ops[m].WritePrivate? || ops[m].WriteShared?) && ops[m].actor in people[m].own
    ensures WrittenBy(e, people[m].own[ops[m].actor], states[m], ops[m])
  {
    hide Perform, WrittenBy;
    if e in states[n - 1].log {
      m := EveryEventWasWritten(people, states, ops, n - 1, e);
    } else {
      PerformWrites(people[n - 1], states[n - 1], ops[n - 1], e);
      m := n - 1;
    }
  }

  /** A private event of a history opens for exactly the readers that have its author's name and personal key,
      whatever epoch keys they have. */
  lemma PrivateIsOwn(people: seq<People>, states: seq<Repo>, ops: seq<Op>, n: nat, e: Event, r: Reader, keys: Keys) returns (m: nat)
    requires |people| == |ops| && |states| == |ops| + 1 && n <= |ops| && IsHistory(people, states, ops)
    requires e in states[n].log && Private(e)
    ensures m < n && ops[m].WritePrivate? && ops[m].act == e.act && ops[m].actor in people[m].own
    ensures var who := people[m].own[ops[m].actor];
            Decryptable(e, r, keys) <==> r.name == who.name && r.personalKey == who.personalKey
  {
    hide IsHistory;
    m := EveryEventWasWritten(people, states, ops, n, e);
  }

  /** A write with a key to seal with is in the log, and a private one opens for its author. */
  lemma WriteIsThere(p: People, r: Repo, act: Act, actor: Text, private: bool, random: Random)
    requires actor in p.own && (private || HasKey(r))
    ensures var t := Perform(p, r, if private then WritePrivate(act, actor, random) else WriteShared(act, actor, random));
            && |t.log| == |r.log| + 1 && t.log[..|r.log|] == r.log && t.keys == r.keys && t.epoch == r.epoch
            && WrittenBy(t.log[|r.log|], p.own[actor], r, if private then WritePrivate(act, actor, random) else WriteShared(act, actor, random))
  {
    hide ActiveRecipients;
  }

  lemma HolderHasKey(s: Repo, r: Reader, keys: Keys)
    requires Genuine(s) && s.epoch.Some? && r.main.name in Holders(s.log, s.epoch.value) && UnwrapsOwn(s.log, r)
    ensures var all := AsyncKeys(s.log, r, keys); var n := s.epoch.value;
            n in all && n in s.keys && all[n] == s.keys[n]
    ensures Complete(s.log, r, AsyncKeys(s.log, r, keys)) && !Stuck(s.log, r, AsyncKeys(s.log, r, keys))
  {
    hide AsyncKeys;
    var g :| g in s.log && g.Grant? && g.epoch == s.epoch.value && g.recipient == r.main.name;
    GenuineOneKey(s, r);
    AsyncIsComplete(s.log, r, keys);
    assert UsesKeys(g, s.keys);
    forall e | e in s.log && e.Grant? && e.recipient == r.main.name ensures Hands(r, e) {
      MainIsFirst(r, e.recipient);
    }
  }

  /** A holder of a grant for the current epoch - an active recipient of a consistent repository, say - whose name
      was only filed with its own key pairs materializes successfully: it opens every shared event of the current epoch, and
      every entry approved by one is in its store as the last word on it has it. */
  lemma HolderMaterializes(people: seq<People>, states: seq<Repo>, ops: seq<Op>, n: nat, r: Reader, publicKeys: PublicKeys, keys: Keys)
    requires |people| == |ops| && |states| == |ops| + 1 && n <= |ops|
    requires IsHistory(people, states, ops) && FirstThrough(people, states, ops, n) && states[n].epoch.Some?
    requires r.main.name in Holders(states[n].log, states[n].epoch.value) && FiledThrough(people, ops, r.main, n)
    requires KnownThrough(people, publicKeys, n)
    ensures var o := MaterializeAsync(states[n].log, r, publicKeys, keys);
            && o.Ready?
            && forall e :: e in states[n].log && e.Written? && !e.private && e.epoch == states[n].epoch.value ==>
                 && Decryptable(e, r, o.keys)
                 && (e.act.EntryApproved? ==>
                       && e.act.entry.id in o.store.entries
                       && LastWord(states[n].log, r, o.keys, e.act.entry.id) == Some(o.store.entries[e.act.entry.id]))
  {
    hide IsHistory, FirstThrough, AsyncKeys, SyncKeys, Replay, LastWord, Holders, UnwrapsOwn, FiledThrough, KnownThrough, Complete, Stuck;
    var s := states[n];
    var all := AsyncKeys(s.log, r, keys);
    HistoryGenuine(people, states, ops, n);
    HistoryUnwraps(people, states, ops, n, r);
    HistorySigned(people, states, ops, n, publicKeys);
    HolderHasKey(s, r, keys);
    SyncOnComplete(s.log, r, publicKeys, all);
    forall e | e in s.log && e.Written? && !e.private && e.epoch == s.epoch.value
      ensures Decryptable(e, r, all)
      ensures e.act.EntryApproved? ==>
                && e.act.entry.id in Replay(s.log, r, all).entries
                && LastWord(s.log, r, all, e.act.entry.id) == Some(Replay(s.log, r, all).entries[e.act.entry.id])
    {
      assert UsesKeys(e, s.keys);
      if e.act.EntryApproved? {
        EntryIsLastWord(s.log, r, all, e.act.entry.id);
        ApprovedHasWord(s.log, r, all, e);
      }
    }
  }

  lemma {:induction false} ApprovedHasWord(log: seq<Event>, r: Reader, keys: Keys, e: Event)
    requires e in log && Decryptable(e, r, keys) && e.act.EntryApproved?
    ensures LastWord(log, r, keys, e.act.entry.id).Some?
  {
    var init, last := log[..|log| - 1], log[|log| - 1];
    assert log == init + [last];
    if e != last {
      ApprovedHasWord(init, r, keys, e);
    }
  }

  /** In a consistent history the active recipients are those holders. */
  lemma ActiveReaderMaterializes(people: seq<People>, states: seq<Repo>, ops: seq<Op>, n: nat, r: Reader, publicKeys: PublicKeys, keys: Keys)
    requires |people| == |ops| && |states| == |ops| + 1 && n <= |ops|
    requires IsHistory(people, states, ops) && FirstThrough(people, states, ops, n) && SensibleThrough(people, states, ops, n)
    requires states[n].epoch.Some? && r.main.name in ActiveRecipients(states[n].log) && FiledThrough(people, ops, r.main, n)
    requires KnownThrough(people, publicKeys, n)
    ensures var o := MaterializeAsync(states[n].log, r, publicKeys, keys);
            o.Ready? && forall e :: e in states[n].log && e.Written? && !e.private && e.epoch == states[n].epoch.value ==> Decryptable(e, r, o.keys)
  {
    hide IsHistory, FirstThrough, SensibleThrough, MaterializeAsync, ActiveRecipients, Holders, Decryptable, LastWord, FiledThrough, KnownThrough;
    EveryHistoryConsistent(people, states, ops, n);
    HolderMaterializes(people, states, ops, n, r, publicKeys, keys);
  }
}
