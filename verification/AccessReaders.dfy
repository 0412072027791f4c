/** What members of the access model can read: from which epoch on, and until when. */
module AccessReaders {
  import opened Basics
  import opened Texts
  import opened VaultEvents
  import opened Materializer
  import opened ReplayOrder
  import opened MembershipSpec
  import opened MembershipProofs
  import opened RevokedReaders
  import opened VaultTheorems
  import opened AccessModel

  // ----- epochs -----

  /** A new member joins in the current epoch; a join-date member in a new one, above all that have a key. */
  lemma AddStartsEpoch(p: People, a: Access, actor: Text, user: Text, history: History, key: Key)
    requires Sound(a)
    ensures var b := AccessModel.Perform(p, a, actor, Add(user, history, key)); var before := a.repo.epoch.value;
            && b.repo.log == a.repo.log && b.devices == a.devices
            && b.members.Keys == a.members.Keys + {user} && b.members[user].active && b.members[user].history == history
            && (forall u :: u in a.members && u != user ==> b.members[u] == a.members[u])
            && b.repo.epoch == Some(b.members[user].joinedEpoch)
            && (if history.JoinDate? then
                  && b.members[user].joinedEpoch == before + 1 && (forall n :: n in a.repo.keys ==> n < b.members[user].joinedEpoch)
                  && b.repo.keys == a.repo.keys[before + 1 := key]
                else b.repo == a.repo)
  {
  }

  /** A removal leaves everything but the member's activity, and starts an epoch above all that have a key. */
  lemma RemoveStartsEpoch(p: People, a: Access, actor: Text, user: Text, key: Key)
    requires Sound(a) && user in a.members
    ensures var b := AccessModel.Perform(p, a, actor, Remove(user, key)); var next := a.repo.epoch.value + 1;
            && b.repo.log == a.repo.log && b.devices == a.devices
            && b.members.Keys == a.members.Keys && !b.members[user].active
            && (forall u :: u in a.members && u != user ==> b.members[u] == a.members[u])
            && b.repo.epoch == Some(next) && (forall n :: n in a.repo.keys ==> n < next)
            && b.repo.keys == a.repo.keys[next := key]
  {
  }

  // ----- the decision -----

  /** Access is allowed exactly for an active member on an approved device of its own; it is pending exactly while an
      allowed epoch has not been granted to it as an active recipient. Pending, the epochs are the ones to deliver,
      and otherwise all that are allowed. */
  lemma DecisionExactly(a: Access, user: Text, device: Text)
    requires a.repo.epoch.Some?
    ensures var d := AccessDecision(a, user, device);
            var active := user in a.members && a.members[user].active;
            var own := device in a.devices && a.devices[device].userName == user;
            && (d.allowed <==> active && own && a.devices[device].approved)
            && (d.reason == AclDenied <==> !active) && (d.reason == DeviceUnknown <==> active && !own)
            && (d.reason == DeviceNotApproved <==> active && own && !a.devices[device].approved)
            && (!d.allowed ==> d.epochs == [] && !d.pending)
            && (d.allowed ==>
                  var start := if a.members[user].history.Full? then 1 else a.members[user].joinedEpoch;
                  && (d.pending <==> d.reason == KeyDeliveryPending)
                  && (d.pending <==> exists n :: start <= n <= a.repo.epoch.value && !HasGrant(a.repo.log, user, n))
                  && forall n :: n in d.epochs <==> start <= n <= a.repo.epoch.value
                                                    && (d.pending ==> !HasGrant(a.repo.log, user, n)))
  {
    hide ActiveRecipients, HasGrant, UpTo, MissingEpochs;
    if user in a.members {
      var epochs := AllowedEpochs(a.members[user], a.repo.epoch.value);
      var missing := MissingEpochs(a.repo.log, user, epochs);
      if missing != [] {
        assert missing[0] in missing && missing[0] in epochs && !HasGrant(a.repo.log, user, missing[0]);
      }
    }
  }

  // ----- reading -----

  /** All grants to these names are for epochs in this range. */
  ghost predicate GrantedWithin(log: seq<Event>, names: set<Text>, low: nat, high: nat) {
    forall e :: e in log && e.Grant? && e.recipient in names ==> low <= e.epoch <= high
  }

  /** A reader that starts without keys opens only shared events of epochs that were granted to it. */
  lemma ReadsWithin(log: seq<Event>, r: Reader, low: nat, high: nat, e: Event)
    requires GrantedWithin(log, NamesOf(r), low, high) && e.Written? && !e.private
    requires Decryptable(e, r, AsyncKeys(log, r, map[]))
    ensures low <= e.epoch <= high
  {
    hide AsyncKeys, Gives;
    AsyncKeyAt(log, r, map[], e.epoch);
    var k := AsyncKeys(log, r, map[])[e.epoch];
    var g :| g in log && Gives(g, r, e.epoch, k);
    GivesGrants(r, g, e.epoch, k);
  }

  lemma GivesGrants(r: Reader, g: Event, n: nat, k: Key)
    requires Gives(g, r, n, k)
    ensures g.Grant? && g.recipient in NamesOf(r) && g.epoch == n
  {
    HandsByName(r, g);
  }

  /** The member joined in this epoch, without the history before it. */
  predicate JoinedIn(a: Access, user: Text, epoch: nat) {
    user in a.members && a.members[user].joinedEpoch == epoch && !a.members[user].history.Full?
  }

  lemma {:induction false} JoinDateGrants(people: seq<People>, states: seq<Access>, steps: seq<Step>, actor: Text, m: nat, n: nat, user: Text)
    requires AccessModel.IsRun(people, states, steps, actor) && m < n <= |steps|
    requires steps[m].Add? && steps[m].user == user && steps[m].history.JoinDate?
    requires forall i :: m < i < n ==> !(steps[i].Add? && steps[i].user == user)
    requires forall e :: e in states[m].repo.log ==> !(e.Grant? && e.recipient == user)
    ensures states[m].repo.epoch.Some? && states[n].repo.epoch.Some?
    ensures JoinedIn(states[n], user, states[m].repo.epoch.value + 1)
    ensures GrantedWithin(states[n].repo.log, {user}, states[m].repo.epoch.value + 1, states[n].repo.epoch.value)
    decreases n
  {
    hide Sound;
    RunIsSound(people, states, steps, actor, n - 1);
    RunIsSound(people, states, steps, actor, m);
    SoundEpoch(states[n - 1]);
    PerformKeeps(people[n - 1], states[n - 1], actor, steps[n - 1]);
    SoundEpoch(AccessModel.Perform(people[n - 1], states[n - 1], actor, steps[n - 1]));
    assert states[n - 1 + 1] == AccessModel.Perform(people[n - 1], states[n - 1], actor, steps[n - 1]);
    if n == m + 1 {
      AddStartsEpoch(people[m], states[m], actor, user, steps[m].history, steps[m].key);
    } else {
      JoinDateGrants(people, states, steps, actor, m, n - 1, user);
      hide AccessModel.IsRun;
      StepKeepsJoin(people[n - 1], states[n - 1], actor, steps[n - 1], user, states[m].repo.epoch.value + 1);
    }
  }

  lemma SoundEpoch(a: Access)
    requires Sound(a)
    ensures a.repo.epoch.Some?
  {
  }

  lemma StepKeepsJoin(p: People, a: Access, actor: Text, s: Step, user: Text, joined: nat)
    requires WellFiled(p) && Sound(a) && JoinedIn(a, user, joined) && !(s.Add? && s.user == user)
    requires GrantedWithin(a.repo.log, {user}, joined, a.repo.epoch.value)
    ensures var b := AccessModel.Perform(p, a, actor, s);
            && JoinedIn(b, user, joined) && b.repo.epoch.Some? && GrantedWithin(b.repo.log, {user}, joined, b.repo.epoch.value)
  {
    PerformKeeps(p, a, actor, s);
    var b := AccessModel.Perform(p, a, actor, s);
    EpochGrows(p, a, actor, s);
    forall e | e in b.repo.log && e.Grant? && e.recipient == user ensures joined <= e.epoch <= b.repo.epoch.value {
      OldOrNew(a.repo.log, b.repo.log, e);
    }
  }

  lemma OldOrNew(before: seq<Event>, after: seq<Event>, e: Event)
    requires |before| <= |after| && after[..|before|] == before && e in after
    ensures e in before || e in after[|before|..]
  {
    assert after == before + after[|before|..];
  }

  lemma EpochGrows(p: People, a: Access, actor: Text, s: Step)
    requires Sound(a)
    ensures var b := AccessModel.Perform(p, a, actor, s); b.repo.epoch.Some? && b.repo.epoch.value >= a.repo.epoch.value
  {
  }

  /** In every run, a member that joined by date, not granted anything before, reads nothing shared of the epochs
      before it joined, whatever is granted to it later. */
  lemma JoinDateReadsNothingEarlier(people: seq<People>, states: seq<Access>, steps: seq<Step>, actor: Text, m: nat, n: nat, r: Reader, e: Event)
    requires AccessModel.IsRun(people, states, steps, actor) && m < n <= |steps| && NamesOf(r) == {r.main.name}
    requires steps[m].Add? && steps[m].user == r.main.name && steps[m].history.JoinDate?
    requires forall i :: m < i < n ==> !(steps[i].Add? && steps[i].user == r.main.name)
    requires forall g :: g in states[m].repo.log ==> !(g.Grant? && g.recipient == r.main.name)
    requires e.Written? && !e.private && states[m].repo.epoch.Some? && e.epoch <= states[m].repo.epoch.value
    ensures !Decryptable(e, r, AsyncKeys(states[n].repo.log, r, map[]))
  {
    hide AccessModel.Perform, Sound, AsyncKeys, Decryptable;
    JoinDateGrants(people, states, steps, actor, m, n, r.main.name);
    if Decryptable(e, r, AsyncKeys(states[n].repo.log, r, map[])) {
      ReadsWithin(states[n].repo.log, r, states[m].repo.epoch.value + 1, states[n].repo.epoch.value, e);
    }
  }

  /** In every run, a removed member, until it is added again, reads nothing shared of the epoch that its removal
      started or of a later one. */
  lemma RemovedReadsNothingLater(people: seq<People>, states: seq<Access>, steps: seq<Step>, actor: Text, n: nat, r: Reader, key: Key, e: Event)
    requires AccessModel.IsRun(people, states, steps, actor) && 0 < n <= |steps| && NamesOf(r) == {r.main.name}
    requires steps[0] == Remove(r.main.name, key) && r.main.name in states[0].members
    requires forall i :: 0 < i < n ==> !(steps[i].Add? && steps[i].user == r.main.name)
    requires states[0].repo.epoch.Some? && GrantedWithin(states[0].repo.log, {r.main.name}, 0, states[0].repo.epoch.value)
    requires e.Written? && !e.private && e.epoch > states[0].repo.epoch.value
    ensures !Decryptable(e, r, AsyncKeys(states[n].repo.log, r, map[]))
  {
    hide AsyncKeys, Decryptable, Sound;
    var name := r.main.name;
    assert states[1] == AccessModel.Perform(people[0], states[0], actor, steps[0]);
    RemoveStartsEpoch(people[0], states[0], actor, name, key);
    var later := states[1..];
    forall i | 0 <= i < |steps| - 1 ensures later[i + 1] == AccessModel.Perform(people[1..][i], later[i], actor, steps[1..][i]) {
      assert states[i + 2] == AccessModel.Perform(people[i + 1], states[i + 1], actor, steps[i + 1]);
    }
    RunIsSound(people, states, steps, actor, 1);
    RemovedGetsNothing(people[1..], later, steps[1..], actor, n - 1, name);
    var before, after := states[1].repo.log, states[n].repo.log;
    assert after[..|before|] == before by {
      LogGrows(people, states, steps, actor, 1, n);
    }
    forall g | g in after && g.Grant? && g.recipient in {name} ensures 0 <= g.epoch <= states[0].repo.epoch.value {
      OldOrNew(before, after, g);
    }
    if Decryptable(e, r, AsyncKeys(after, r, map[])) {
      ReadsWithin(after, r, 0, states[0].repo.epoch.value, e);
    }
  }

  lemma {:induction false} LogGrows(people: seq<People>, states: seq<Access>, steps: seq<Step>, actor: Text, m: nat, n: nat)
    requires AccessModel.IsRun(people, states, steps, actor) && m <= n <= |steps|
    ensures |states[m].repo.log| <= |states[n].repo.log| && states[n].repo.log[..|states[m].repo.log|] == states[m].repo.log
    decreases n
  {
    hide AccessModel.Perform, Sound;
    if m < n {
      LogGrows(people, states, steps, actor, m, n - 1);
      RunIsSound(people, states, steps, actor, n - 1);
      PerformKeeps(people[n - 1], states[n - 1], actor, steps[n - 1]);
      assert states[n - 1 + 1] == AccessModel.Perform(people[n - 1], states[n - 1], actor, steps[n - 1]);
      assert states[n].repo.log[..|states[m].repo.log|] == states[n - 1].repo.log[..|states[m].repo.log|];
    }
  }

  // ----- grants that open -----

  lemma {:induction false} GrantEpochsOpen(p: People, r: Repo, user: Text, epochs: seq<nat>, actor: Text, random: Random, reader: Reader)
    requires UnwrapsOwn(r.log, reader) && FiledFor(p, reader.main)
    ensures UnwrapsOwn(GrantEpochs(p, r, user, epochs, actor, random).log, reader)
    decreases |epochs|
  {
    hide UnwrapsOwn;
    if epochs != [] && user in p.known && epochs[0] in r.keys && actor in p.own {
      var e := GrantEvent(p, actor, p.known[user], epochs[0], r.keys[epochs[0]], MemberGranted, true, random.ids(|r.log|));
      AppendUnwraps(r, e, reader);
      GrantEpochsOpen(p, Append(r, e), user, epochs[1..], actor, random, reader);
    }
  }

  /** In every run, a reader whose name is only filed with its own key pairs can open every grant addressed to it. */
  lemma {:induction false} EveryGrantOpens(people: seq<People>, states: seq<Access>, steps: seq<Step>, actor: Text, n: nat, r: Reader)
    requires AccessModel.IsRun(people, states, steps, actor) && n <= |steps| && UnwrapsOwn(states[0].repo.log, r)
    requires forall i :: 0 <= i < n ==> FiledFor(people[i], r.main)
    ensures UnwrapsOwn(states[n].repo.log, r)
  {
    hide UnwrapsOwn, GrantEpochs, AccessDecision, Sound, FiledFor;
    if n > 0 {
      EveryGrantOpens(people, states, steps, actor, n - 1, r);
      var a, s := states[n - 1], steps[n - 1];
      assert states[n - 1 + 1] == AccessModel.Perform(people[n - 1], a, actor, s);
      if s.Ensure? {
        GrantEpochsOpen(people[n - 1], a.repo, s.user, AccessDecision(a, s.user, s.device).epochs, actor, s.random, r);
      }
    }
  }

  lemma GrantedHasKey(s: Repo, r: Reader, keys: Keys, n: nat)
    requires Genuine(s) && UnwrapsOwn(s.log, r) && Granted(s.log, r.main.name, n)
    ensures n in AsyncKeys(s.log, r, keys) && n in s.keys && AsyncKeys(s.log, r, keys)[n] == s.keys[n]
  {
    hide AsyncKeys;
    var g :| g in s.log && g.Grant? && g.recipient == r.main.name && g.epoch == n;
    GenuineOneKey(s, r);
    AsyncIsComplete(s.log, r, keys);
    assert UsesKeys(g, s.keys);
    MainIsFirst(r, g.recipient);
  }

  lemma NothingStuck(s: Repo, r: Reader, keys: Keys)
    requires Genuine(s) && UnwrapsOwn(s.log, r)
    ensures Complete(s.log, r, AsyncKeys(s.log, r, keys)) && !Stuck(s.log, r, AsyncKeys(s.log, r, keys))
  {
    hide AsyncKeys;
    GenuineOneKey(s, r);
    AsyncIsComplete(s.log, r, keys);
    forall e | e in s.log && e.Grant? && e.recipient == r.main.name ensures Hands(r, e) {
      MainIsFirst(r, e.recipient);
    }
  }

  lemma EnsureGenuine(p: People, a: Access, user: Text, device: Text, actor: Text, random: Random)
    requires WellFiled(p) && Sound(a) && Genuine(a.repo)
    ensures Genuine(EnsureAccess(p, a, user, device, actor, random).repo)
  {
    hide GrantEpochs, AccessDecision;
    PerformKeeps(p, a, actor, Ensure(user, device, random));
    var b := EnsureAccess(p, a, user, device, actor, random);
    forall e | e in b.repo.log ensures UsesKeys(e, b.repo.keys) {
      OldOrNew(a.repo.log, b.repo.log, e);
    }
  }

  /** After `ensureAccess` an allowed member, filed with its own key pairs, materializes and opens every shared
      event of all epochs that it is allowed, from the day it joined or from the first. */
  lemma ReadyReaderOpens(p: People, a: Access, device: Text, actor: Text, random: Random, r: Reader, publicKeys: PublicKeys, keys: Keys)
    requires WellFiled(p) && Sound(a) && Genuine(a.repo) && UnwrapsOwn(a.repo.log, r) && FiledFor(p, r.main)
    requires AccessDecision(a, r.main.name, device).allowed && r.main.name in p.known && actor in p.own
    requires AllSigned(EnsureAccess(p, a, r.main.name, device, actor, random).repo.log, publicKeys)
    ensures var b := EnsureAccess(p, a, r.main.name, device, actor, random); var o := MaterializeAsync(b.repo.log, r, publicKeys, keys);
            var start := if a.members[r.main.name].history.Full? then 1 else a.members[r.main.name].joinedEpoch;
            o.Ready? && forall e :: e in b.repo.log && e.Written? && !e.private && start <= e.epoch <= a.repo.epoch.value ==> Decryptable(e, r, o.keys)
  {
    hide AsyncKeys, SyncKeys, Replay, GrantEpochs, MissingEpochs, ActiveRecipients, Complete, Stuck;
    var name := r.main.name;
    var b := EnsureAccess(p, a, name, device, actor, random);
    EnsureGenuine(p, a, name, device, actor, random);
    GrantEpochsOpen(p, a.repo, name, AccessDecision(a, name, device).epochs, actor, random, r);
    EnsureLeavesReady(p, a, name, device, actor, random);
    NothingStuck(b.repo, r, keys);
    SyncOnComplete(b.repo.log, r, publicKeys, AsyncKeys(b.repo.log, r, keys));
    var start := if a.members[name].history.Full? then 1 else a.members[name].joinedEpoch;
    forall e | e in b.repo.log && e.Written? && !e.private && start <= e.epoch <= a.repo.epoch.value
      ensures Decryptable(e, r, AsyncKeys(b.repo.log, r, keys))
    {
      ReadyIsGranted(b, name, device, e.epoch);
      GrantedHasKey(b.repo, r, keys, e.epoch);
      assert UsesKeys(e, b.repo.keys);
    }
  }

  lemma ReadyIsGranted(a: Access, user: Text, device: Text, n: nat)
    requires a.repo.epoch.Some? && AccessDecision(a, user, device).reason == IsReady && n in AccessDecision(a, user, device).epochs
    ensures Granted(a.repo.log, user, n)
  {
    hide ActiveRecipients;
  }
}
