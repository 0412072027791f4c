/** What the operations of the replica keep, over every history. */
module MembershipProofs {
  import opened Basics
  import opened Texts
  import opened VaultEvents
  import opened MembershipSpec

  // ----- who is active, who holds a grant -----

  ghost function Holders(log: seq<Event>, epoch: nat): set<Text> {
    set e | e in log && e.Grant? && e.epoch == epoch :: e.recipient
  }

  /** No event is ahead of the current epoch. */
  ghost predicate Bounded(log: seq<Event>, epoch: nat) {
    forall e :: e in log ==> Within(e, epoch)
  }

  predicate Within(e: Event, epoch: nat) {
    e.epoch <= epoch && (e.Revocation? ==> e.nextEpoch <= epoch)
  }

  ghost predicate KeysUpTo(keys: map<nat, Key>, epoch: nat) {
    forall n: nat :: n in keys <==> 1 <= n <= epoch
  }

  /** No event is ahead of the current epoch, and the key file has the keys of exactly the epochs so far. */
  ghost predicate Tidy(r: Repo) {
    match r.epoch
    case None => r.keys == map[] && OnlyPrivate(r.log)
    case Some(epoch) => epoch >= 1 && Bounded(r.log, epoch) && KeysUpTo(r.keys, epoch)
  }

  /** Besides, the recipients derived from the log are exactly the holders of a grant for the current epoch. */
  ghost predicate Consistent(r: Repo) {
    Tidy(r) && (r.epoch.Some? ==> ActiveRecipients(r.log) == Holders(r.log, r.epoch.value))
  }

  /** Private events may be written before the repository is created. */
  ghost predicate OnlyPrivate(log: seq<Event>) {
    forall e :: e in log ==> Private(e) && e.epoch == 0
  }

  lemma {:induction false} NobodyInPrivate(log: seq<Event>, epoch: nat)
    requires OnlyPrivate(log)
    ensures ActiveRecipients(log) == {} == Holders(log, epoch) && Bounded(log, epoch)
  {
    if log != [] {
      var init, e := log[..|log| - 1], log[|log| - 1];
      assert log == init + [e];
      NobodyInPrivate(init, epoch);
      HoldersAppend(init, e, epoch);
    }
  }

  lemma HoldersAppend(log: seq<Event>, e: Event, epoch: nat)
    ensures Holders(log + [e], epoch) == Holders(log, epoch) + if e.Grant? && e.epoch == epoch then {e.recipient} else {}
  {
    assert forall x :: x in log + [e] <==> x in log || x == e;
  }

  lemma ActiveAppend(log: seq<Event>, e: Event)
    ensures ActiveRecipients(log + [e]) == ActiveStep(ActiveRecipients(log), e)
  {
    assert (log + [e])[..|log|] == log;
  }

  lemma BoundedAppend(log: seq<Event>, e: Event, epoch: nat)
    requires Bounded(log, epoch) && Within(e, epoch)
    ensures Bounded(log + [e], epoch)
  {
  }

  /** Before anything of an epoch is written, nobody holds a grant for it. */
  lemma NobodyYet(log: seq<Event>, epoch: nat)
    requires Bounded(log, epoch)
    ensures Holders(log, epoch + 1) == {}
    ensures Bounded(log, epoch + 1)
  {
  }

  lemma {:induction false} EmptyIsNeverActive(log: seq<Event>)
    ensures [] !in ActiveRecipients(log)
  {
    if log != [] {
      EmptyIsNeverActive(log[..|log| - 1]);
    }
  }

  // ----- rotation -----

  /** The names that get the new key: those before the first unknown one. */
  function Served(p: People, names: seq<Text>): seq<Text> {
    if names == [] || names[0] !in p.known then [] else [names[0]] + Served(p, names[1..])
  }

  lemma {:induction false} RotateForIs(p: People, r: Repo, names: seq<Text>, actor: Text, epoch: nat, hpke: bool, random: Random)
    requires WellFiled(p) && actor in p.own && Bounded(r.log, epoch)
    ensures var t := RotateFor(p, r, names, actor, epoch, hpke, random);
            && t.keys == r.keys && t.epoch == r.epoch
            && Bounded(t.log, epoch)
            && ActiveRecipients(t.log) == ActiveRecipients(r.log) + Members(Served(p, names))
            && Holders(t.log, epoch) == Holders(r.log, epoch) + Members(Served(p, names))
    decreases |names|
  {
    hide ActiveRecipients, Holders, Bounded;
    if names != [] && names[0] in p.known {
      var e := GrantEvent(p, actor, p.known[names[0]], epoch, random.key, KeyRotated, hpke, random.ids(|r.log|));
      ActiveAppend(r.log, e);
      HoldersAppend(r.log, e, epoch);
      BoundedAppend(r.log, e, epoch);
      RotateForIs(p, Append(r, e), names[1..], actor, epoch, hpke, random);
      MembersCons(names[0], Served(p, names[1..]));
    } else {
      assert Members([]) == {};
    }
  }

  lemma MembersCons(x: Text, s: seq<Text>)
    ensures Members([x] + s) == {x} + Members(s)
  {
  }

  /** Everybody is served if all names are known; otherwise exactly those that sort before every unknown name. */
  lemma {:induction false} ServedAre(p: People, names: seq<Text>)
    requires Increasing(names)
    ensures forall n :: n in Served(p, names) <==> n in names && n in p.known && forall u :: u in names && u !in p.known ==> Less(n, u)
  {
    if names != [] {
      IncreasingTail(names);
      ServedAre(p, names[1..]);
      assert names == [names[0]] + names[1..];
      if names[0] !in p.known {
        forall n | n in names ensures !(n in p.known && Less(n, names[0])) {
          LessIrreflexive(n);
          if n != names[0] {
            LessAsymmetric(names[0], n);
          }
        }
      }
    }
  }

  /** A caller can check this before revoking: no name that stays active sorts behind, or is, an unknown name. */
  ghost predicate RotationReaches(p: People, r: Repo, recipient: Text, actor: Text)
    requires actor in p.own
  {
    forall n, u :: n in ActiveRecipients(r.log) - {recipient} && u in Remaining(p, r, recipient, actor) && u !in p.known ==> Less(n, u)
  }

  /** Revocation keeps the repository consistent exactly when the rotation reaches everybody who stays. */
  lemma RevokeExactly(p: People, r: Repo, recipient: Text, actor: Text, hpke: bool, random: Random)
    requires WellFiled(p) && Consistent(r) && r.epoch.Some? && actor in p.own
    ensures Consistent(RevokeRepo(p, r, recipient, actor, hpke, random)) <==> RotationReaches(p, r, recipient, actor)
  {
    hide ActiveRecipients, Holders, Bounded, RotateFor, Served;
    var epoch := r.epoch.value;
    var r', stay := Rotated(p, r, recipient, actor, random), ActiveRecipients(r.log) - {recipient};
    var e := r'.log[|r.log|];
    var names := Sorted(Remaining(p, r, recipient, actor));
    ActiveAppend(r.log, e);
    EmptyIsNeverActive(r.log);
    HoldersAppend(r.log, e, epoch + 1);
    NobodyYet(r.log, epoch);
    BoundedAppend(r.log, e, epoch + 1);
    RotateForIs(p, r', names, actor, epoch + 1, hpke, random);
    ServedAre(p, names);
    var served := Members(Served(p, names));
    assert forall n :: n in names <==> n in Members(names);
    assert stay + served == served <==> stay <= served;
    ServedStay(p, names, stay);
  }

  lemma ServedStay(p: People, names: seq<Text>, stay: set<Text>)
    requires Increasing(names) && stay <= Members(names)
    ensures stay <= Members(Served(p, names)) <==> forall n, u :: n in stay && u in Members(names) && u !in p.known ==> Less(n, u)
  {
    hide Served;
    ServedAre(p, names);
    var served := Members(Served(p, names));
    if forall n, u :: n in stay && u in Members(names) && u !in p.known ==> Less(n, u) {
      forall n | n in stay ensures n in served {
        LessIrreflexive(n);
      }
    }
  }

  // ----- announced epochs -----

  /** `event.grant?.nextKeyEpoch ?? event.grant?.keyEpoch ?? event.keyEpoch` */
  function Carries(e: Event): nat {
    if e.Revocation? then e.nextEpoch else e.epoch
  }

  /** Some shared event announces the current epoch; for the first one none is needed. */
  ghost predicate Announced(r: Repo) {
    r.epoch.Some? ==> r.epoch.value == 1 || exists e :: e in r.log && !Private(e) && Carries(e) == r.epoch.value
  }

  lemma AnnouncedGrows(r: Repo, t: Repo)
    requires Announced(r) && r.epoch == t.epoch && |r.log| <= |t.log| && t.log[..|r.log|] == r.log
    ensures Announced(t)
  {
    assert forall e :: e in r.log ==> e in t.log;
  }

  lemma {:induction false} RotateEpochIs(p: People, r: Repo, names: seq<Text>, actor: Text, epoch: nat, hpke: bool, random: Random)
    requires actor in p.own
    ensures var t := RotateFor(p, r, names, actor, epoch, hpke, random);
            t.epoch == r.epoch && t.keys == r.keys && |r.log| <= |t.log| && t.log[..|r.log|] == r.log
    decreases |names|
  {
    if names != [] && names[0] in p.known {
      var next := Append(r, GrantEvent(p, actor, p.known[names[0]], epoch, random.key, KeyRotated, hpke, random.ids(|r.log|)));
      RotateEpochIs(p, next, names[1..], actor, epoch, hpke, random);
      var t := RotateFor(p, next, names[1..], actor, epoch, hpke, random);
      assert t.log[..|r.log|] == t.log[..|next.log|][..|r.log|];
    }
  }

  /** Every operation, whatever it throws, leaves the current epoch announced. */
  lemma PerformAnnounces(p: People, r: Repo, op: Op)
    requires Announced(r)
    ensures Announced(Perform(p, r, op))
  {
    hide RotateFor, ActiveRecipients;
    var t := Perform(p, r, op);
    if op.Revoke? && op.actor in p.own && r.epoch.Some? {
      var u := Rotated(p, r, op.recipient, op.actor, op.random);
      var e := u.log[|r.log|];
      assert e in u.log && Carries(e) == r.epoch.value + 1;
      RotateEpochIs(p, u, Sorted(Remaining(p, r, op.recipient, op.actor)), op.actor, r.epoch.value + 1, op.hpke, op.random);
      AnnouncedGrows(u, t);
    } else if t != r && !op.Create? {
      AnnouncedGrows(r, t);
    }
  }

  // ----- every operation -----

  /** A creation that does something comes first, or before any epoch has followed. */
  predicate CreatesEarly(p: People, r: Repo, op: Op) {
    op.Create? && op.owner in p.known ==> r.epoch.None? || r.epoch == Some(1)
  }

  lemma AppendTidy(r: Repo, e: Event)
    requires Tidy(r) && (if r.epoch.Some? then Within(e, r.epoch.value) else Private(e) && e.epoch == 0)
    ensures Tidy(Append(r, e))
  {
  }

  lemma {:induction false} RotateTidy(p: People, r: Repo, names: seq<Text>, actor: Text, epoch: nat, hpke: bool, random: Random)
    requires actor in p.own && Tidy(r) && r.epoch == Some(epoch)
    ensures Tidy(RotateFor(p, r, names, actor, epoch, hpke, random))
    decreases |names|
  {
    hide Tidy;
    if names != [] && names[0] in p.known {
      var e := GrantEvent(p, actor, p.known[names[0]], epoch, random.key, KeyRotated, hpke, random.ids(|r.log|));
      AppendTidy(r, e);
      RotateTidy(p, Append(r, e), names[1..], actor, epoch, hpke, random);
    }
  }

  lemma PrivateIsWithin(log: seq<Event>, epoch: nat)
    requires OnlyPrivate(log)
    ensures Bounded(log, epoch)
  {
  }

  lemma CreateTidy(p: People, r: Repo, owner: Text, actor: Text, hpke: bool, random: Random)
    requires Tidy(r) && Announced(r)
    ensures Tidy(CreateRepo(p, r, owner, actor, hpke, random)) <==> owner !in p.known || r.epoch.None? || r.epoch == Some(1)
  {
    var t := CreateRepo(p, r, owner, actor, hpke, random);
    if owner in p.known {
      if r.epoch.None? {
        PrivateIsWithin(r.log, 1);
      } else if r.epoch != Some(1) {
        var e :| e in r.log && !Private(e) && Carries(e) == r.epoch.value;
        assert e in t.log && !Within(e, 1);
      }
    }
  }

  /** No event is ahead of the current epoch, and the keys are complete, after any operation - also one
      that throws half-way - exactly unless it creates the repository anew after a rotation. */
  lemma PerformTidy(p: People, r: Repo, op: Op)
    requires WellFiled(p) && Tidy(r) && Announced(r)
    ensures Tidy(Perform(p, r, op)) <==> CreatesEarly(p, r, op)
  {
    hide Announced, RotateFor;
    match op {
      case Create(owner, actor, hpke, random) => CreateTidy(p, r, owner, actor, hpke, random);
      case Revoke(recipient, actor, hpke, random) =>
        if actor in p.own && r.epoch.Some? {
          var t := Rotated(p, r, recipient, actor, random);
          assert Tidy(t);
          RotateTidy(p, t, Sorted(Remaining(p, r, recipient, actor)), actor, r.epoch.value + 1, hpke, random);
        }
      case _ =>
    }
  }

  /** When the recipients stay consistent, from what can be seen before the operation: a creation comes
      early, a grant goes to a name, and a rotation reaches everybody who stays. */
  ghost predicate Sensible(p: People, r: Repo, op: Op) {
    match op
    case Create(_, _, _, _) => CreatesEarly(p, r, op)
    case GrantIdentity(identity, actor, _) => identity.name != [] || r.epoch.None? || actor !in p.own
    case Revoke(recipient, actor, _, _) => actor in p.own && r.epoch.Some? ==> RotationReaches(p, r, recipient, actor)
    case _ => true
  }

  lemma AppendExactly(r: Repo, e: Event)
    requires Consistent(r) && r.epoch.Some? && Within(e, r.epoch.value)
    requires e.Written? || (e.Grant? && e.epoch == r.epoch.value)
    ensures Consistent(Append(r, e)) <==> !(e.Grant? && e.recipient == [])
  {
    hide ActiveRecipients, Holders;
    EmptyIsNeverActive(r.log);
    EmptyIsNeverActive(r.log + [e]);
    ActiveAppend(r.log, e);
    HoldersAppend(r.log, e, r.epoch.value);
  }

  lemma CreateExactly(p: People, r: Repo, owner: Text, actor: Text, hpke: bool, random: Random)
    requires WellFiled(p) && Consistent(r) && Announced(r)
    ensures Consistent(CreateRepo(p, r, owner, actor, hpke, random)) <==> owner !in p.known || r.epoch.None? || r.epoch == Some(1)
  {
    hide Announced, ActiveRecipients, Holders;
    CreateTidy(p, r, owner, actor, hpke, random);
    if owner in p.known && (r.epoch.None? || r.epoch == Some(1)) {
      var r' := r.(keys := map[1 := random.key], epoch := Some(1));
      if r.epoch.None? {
        NobodyInPrivate(r.log, 1);
      }
      assert Consistent(r');
      if actor in p.own {
        AppendExactly(r', GrantEvent(p, actor, p.known[owner], 1, random.key, RepoCreated, hpke, random.ids(|r.log|)));
      }
    }
  }

  /** Every operation, whatever it throws, keeps a consistent repository consistent exactly when it is sensible. */
  lemma PerformExactly(p: People, r: Repo, op: Op)
    requires WellFiled(p) && Consistent(r) && Announced(r)
    ensures Consistent(Perform(p, r, op)) <==> Sensible(p, r, op)
  {
    hide Consistent, Announced, RevokeRepo, CreateRepo, RotationReaches;
    match op {
      case Create(owner, actor, hpke, random) => CreateExactly(p, r, owner, actor, hpke, random);
      case GrantTo(recipient, actor, hpke, random) =>
        if recipient in p.known {
          GrantExactly(p, r, p.known[recipient], actor, hpke, random);
        }
      case GrantIdentity(identity, actor, random) => GrantExactly(p, r, identity, actor, true, random);
      case Revoke(recipient, actor, hpke, random) =>
        if actor in p.own && r.epoch.Some? {
          RevokeExactly(p, r, recipient, actor, hpke, random);
        } else {
          NothingRevoked(p, r, recipient, actor, hpke, random);
        }
      case WriteShared(act, actor, random) => WriteConsistent(p, r, act, actor, false, random);
      case WritePrivate(act, actor, random) => WriteConsistent(p, r, act, actor, true, random);
    }
  }

  lemma NothingRevoked(p: People, r: Repo, recipient: Text, actor: Text, hpke: bool, random: Random)
    requires actor !in p.own || r.epoch.None?
    ensures RevokeRepo(p, r, recipient, actor, hpke, random) == r
  {
  }

  lemma GrantExactly(p: People, r: Repo, to: PublicIdentity, actor: Text, hpke: bool, random: Random)
    requires Consistent(r)
    ensures Consistent(GrantCurrent(p, r, to, actor, hpke, random)) <==> to.name != [] || r.epoch.None? || actor !in p.own
  {
    hide Bounded, ActiveRecipients, Holders;
    if HasKey(r) && actor in p.own {
      AppendExactly(r, GrantEvent(p, actor, to, r.epoch.value, r.keys[r.epoch.value], MemberGranted, hpke, random.ids(|r.log|)));
    }
  }

  lemma WriteConsistent(p: People, r: Repo, act: Act, actor: Text, private: bool, random: Random)
    requires Consistent(r)
    ensures Consistent(Write(p, r, act, actor, private, random))
  {
    hide Bounded, KeysUpTo, ActiveRecipients, Holders;
    var r' := Write(p, r, act, actor, private, random);
    if r' != r {
      if r.epoch.Some? {
        AppendExactly(r, r'.log[|r.log|]);
      }
    }
  }

  // ----- histories -----

  /** A run of the operating replica; who is known may change from one operation to the next. */
  ghost predicate IsHistory(people: seq<People>, states: seq<Repo>, ops: seq<Op>) {
    && |people| == |ops| && |states| == |ops| + 1
    && states[0] == NO_REPO
    && forall i :: 0 <= i < |ops| ==> WellFiled(people[i]) && states[i + 1] == Perform(people[i], states[i], ops[i])
  }

  ghost predicate TidyThrough(states: seq<Repo>, n: nat)
    requires n < |states|
  {
    forall i :: 0 <= i <= n ==> Tidy(states[i])
  }

  ghost predicate ConsistentThrough(states: seq<Repo>, n: nat)
    requires n < |states|
  {
    forall i :: 0 <= i <= n ==> Consistent(states[i])
  }

  ghost predicate EarlyThrough(people: seq<People>, states: seq<Repo>, ops: seq<Op>, n: nat)
    requires n <= |people| && n <= |states| && n <= |ops|
  {
    forall i :: 0 <= i < n ==> CreatesEarly(people[i], states[i], ops[i])
  }

  ghost predicate SensibleThrough(people: seq<People>, states: seq<Repo>, ops: seq<Op>, n: nat)
    requires n <= |people| && n <= |states| && n <= |ops|
  {
    forall i :: 0 <= i < n ==> Sensible(people[i], states[i], ops[i])
  }

  /** In every history the current epoch is announced at every point. */
  lemma {:induction false} HistoryAnnounces(people: seq<People>, states: seq<Repo>, ops: seq<Op>, n: nat)
    requires IsHistory(people, states, ops) && n <= |ops|
    ensures Announced(states[n])
  {
    hide Perform, Announced;
    if n > 0 {
      HistoryAnnounces(people, states, ops, n - 1);
      PerformAnnounces(people[n - 1], states[n - 1], ops[n - 1]);
    } else {
      NothingToAnnounce();
    }
  }

  lemma NothingToAnnounce()
    ensures Announced(NO_REPO)
  {
  }

  /** In every history - half-way rotations included - no event is ahead of the current epoch and the keys
      are those of exactly the epochs so far, up to the first creation after a rotation and no further. */
  lemma {:induction false} EveryHistoryTidy(people: seq<People>, states: seq<Repo>, ops: seq<Op>, n: nat)
    requires IsHistory(people, states, ops) && n <= |ops|
    ensures TidyThrough(states, n) <==> EarlyThrough(people, states, ops, n)
  {
    hide Perform, CreatesEarly, Tidy, Announced;
    if n > 0 {
      var m := n - 1;
      EveryHistoryTidy(people, states, ops, m);
      HistoryAnnounces(people, states, ops, m);
      if Tidy(states[m]) {
        PerformTidy(people[m], states[m], ops[m]);
      }
      assert TidyThrough(states, n) <==> TidyThrough(states, m) && Tidy(states[n]);
      assert EarlyThrough(people, states, ops, n) <==> EarlyThrough(people, states, ops, m) && CreatesEarly(people[m], states[m], ops[m]);
    } else {
      NoRepoConsistent();
      TidyOf(NO_REPO);
    }
  }

  lemma TidyOf(r: Repo)
    requires Consistent(r)
    ensures Tidy(r)
  {
  }

  /** In every history, at every point up to n, the recipients derived from the log are exactly the holders
      of a grant for the current epoch, and the keys at hand are those of exactly the epochs so far - if and
      only if every operation before was sensible. */
  lemma {:induction false} EveryHistoryConsistent(people: seq<People>, states: seq<Repo>, ops: seq<Op>, n: nat)
    requires IsHistory(people, states, ops) && n <= |ops|
    ensures ConsistentThrough(states, n) <==> SensibleThrough(people, states, ops, n)
  {
    hide Perform, Sensible, Consistent, Announced;
    if n > 0 {
      var m := n - 1;
      EveryHistoryConsistent(people, states, ops, m);
      HistoryAnnounces(people, states, ops, m);
      if Consistent(states[m]) {
        PerformExactly(people[m], states[m], ops[m]);
      }
      assert ConsistentThrough(states, n) <==> ConsistentThrough(states, m) && Consistent(states[n]);
      assert SensibleThrough(people, states, ops, n) <==> SensibleThrough(people, states, ops, m) && Sensible(people[m], states[m], ops[m]);
    } else {
      NoRepoConsistent();
    }
  }

  /** Conditions on the operation and the filed identities alone. */
  predicate Ordinary(p: People, r: Repo, op: Op) {
    match op
    case Create(_, _, _, _) => CreatesEarly(p, r, op)
    case GrantIdentity(identity, _, _) => identity.name in p.known
    case Revoke(_, actor, _, _) => actor in p.own ==> GrantRecipientName(p, actor) in p.known
    case _ => true
  }

  ghost predicate ActiveKnown(p: People, r: Repo) {
    ActiveRecipients(r.log) <= p.known.Keys
  }

  lemma OrdinaryIsSensible(p: People, r: Repo, op: Op)
    requires WellFiled(p) && ActiveKnown(p, r) && Ordinary(p, r, op)
    ensures Sensible(p, r, op)
  {
    hide ActiveRecipients;
  }

  lemma {:induction false} RotateActive(p: People, r: Repo, names: seq<Text>, actor: Text, epoch: nat, hpke: bool, random: Random, bound: set<Text>)
    requires actor in p.own && ActiveRecipients(r.log) <= bound
    requires forall n :: n in names && n in p.known ==> p.known[n].name in bound
    ensures ActiveRecipients(RotateFor(p, r, names, actor, epoch, hpke, random).log) <= bound
    decreases |names|
  {
    hide ActiveRecipients;
    if names != [] && names[0] in p.known {
      var e := GrantEvent(p, actor, p.known[names[0]], epoch, random.key, KeyRotated, hpke, random.ids(|r.log|));
      ActiveAppend(r.log, e);
      RotateActive(p, Append(r, e), names[1..], actor, epoch, hpke, random, bound);
    }
  }

  lemma OrdinaryKeepsKnown(p: People, r: Repo, op: Op)
    requires WellFiled(p) && ActiveKnown(p, r) && Ordinary(p, r, op)
    ensures ActiveKnown(p, Perform(p, r, op))
  {
    hide ActiveRecipients, RotateFor;
    forall e ensures ActiveRecipients(r.log + [e]) == ActiveStep(ActiveRecipients(r.log), e) {
      ActiveAppend(r.log, e);
    }
    if op.Revoke? && op.actor in p.own && r.epoch.Some? {
      RotateActive(p, Rotated(p, r, op.recipient, op.actor, op.random), Sorted(Remaining(p, r, op.recipient, op.actor)), op.actor,
                   r.epoch.value + 1, op.hpke, op.random, p.known.Keys);
    }
  }

  /** Histories in which every grant goes to a filed name, and everybody who revokes has a filed
      recipient name, are consistent throughout. Identities may be filed at any time. */
  lemma {:induction false} OrdinaryHistoryConsistent(people: seq<People>, states: seq<Repo>, ops: seq<Op>, n: nat)
    requires IsHistory(people, states, ops) && n <= |ops|
    requires forall i :: 0 <= i < |ops| ==> Ordinary(people[i], states[i], ops[i])
    requires forall i :: 0 < i < |ops| ==> people[i - 1].known.Keys <= people[i].known.Keys
    ensures Consistent(states[n])
    ensures n < |ops| ==> ActiveKnown(people[n], states[n])
  {
    hide Perform, Ordinary, Sensible, ActiveRecipients, Consistent, Announced;
    if n > 0 {
      OrdinaryHistoryConsistent(people, states, ops, n - 1);
      OrdinaryIsSensible(people[n - 1], states[n - 1], ops[n - 1]);
      HistoryAnnounces(people, states, ops, n - 1);
      PerformExactly(people[n - 1], states[n - 1], ops[n - 1]);
      OrdinaryKeepsKnown(people[n - 1], states[n - 1], ops[n - 1]);
    } else {
      NoRepoConsistent();
    }
  }

  lemma NoRepoConsistent()
    ensures Consistent(NO_REPO) && ActiveRecipients(NO_REPO.log) == {}
  {
  }
}
