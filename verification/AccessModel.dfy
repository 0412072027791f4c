/** Which user on which device may hold which epoch keys, and the grants that deliver them. */
module AccessModel {
  import opened Basics
  import opened Texts
  import opened VaultEvents
  import opened EventLog
  import opened MembershipSpec
  import opened MembershipProofs
  import opened Vault
  import opened VaultTheorems

  /** The `history` option: full, from the day of joining, or any other value. */
  datatype History = Full | JoinDate | OtherHistory(name: Text)

  datatype Member = Member(active: bool, history: History, joinedEpoch: nat)

  datatype Device = Device(userName: Text, approved: bool)

  datatype Reason = AclDenied | DeviceUnknown | DeviceNotApproved | KeyDeliveryPending | IsReady

  datatype Decision = Decision(allowed: bool, pending: bool, reason: Reason, epochs: seq<nat>)

  datatype Access = Access(repo: Repo, members: map<Text, Member>, devices: map<Text, Device>)

  /** The key file has the keys of exactly the epochs so far, and members joined in one of them. */
  ghost predicate Sound(a: Access) {
    && a.repo.epoch.Some? && a.repo.epoch.value >= 1
    && KeysUpTo(a.repo.keys, a.repo.epoch.value)
    && forall u :: u in a.members ==> 1 <= a.members[u].joinedEpoch <= a.repo.epoch.value
  }

  /** A new epoch and key, and no event about it. */
  function RotateEpoch(r: Repo, key: Key): Repo
    requires r.epoch.Some?
  {
    r.(keys := r.keys[r.epoch.value + 1 := key], epoch := Some(r.epoch.value + 1))
  }

  function AddMember(a: Access, user: Text, history: History, key: Key): Access {
    if a.repo.epoch.None? then a
    else
      var repo := if history.JoinDate? then RotateEpoch(a.repo, key) else a.repo;
      a.(repo := repo, members := a.members[user := Member(true, history, repo.epoch.value)])
  }

  /** An unknown member throws; so does a missing repository, after the member became inactive. */
  function RemoveMember(a: Access, user: Text, key: Key): Access {
    if user !in a.members then a
    else
      a.(members := a.members[user := a.members[user].(active := false)],
         repo := if a.repo.epoch.Some? then RotateEpoch(a.repo, key) else a.repo)
  }

  function AllowedEpochs(m: Member, current: nat): (epochs: seq<nat>)
    ensures forall n :: n in epochs <==> (if m.history.Full? then 1 else m.joinedEpoch) <= n <= current
  {
    UpTo(if m.history.Full? then 1 else m.joinedEpoch, current)
  }

  function UpTo(start: nat, last: nat): (epochs: seq<nat>)
    ensures forall n :: n in epochs <==> start <= n <= last
    decreases last + 1 - start
  {
    if start > last then [] else [start] + UpTo(start + 1, last)
  }

  predicate Granted(log: seq<Event>, user: Text, epoch: nat) {
    exists e :: e in log && e.Grant? && e.recipient == user && e.epoch == epoch
  }

  predicate HasGrant(log: seq<Event>, user: Text, epoch: nat) {
    user in ActiveRecipients(log) && Granted(log, user, epoch)
  }

  function MissingEpochs(log: seq<Event>, user: Text, epochs: seq<nat>): (missing: seq<nat>)
    ensures forall n :: n in missing <==> n in epochs && !HasGrant(log, user, n)
    ensures missing == [] <==> forall n :: n in epochs ==> HasGrant(log, user, n)
  {
    if epochs == [] then []
    else (if HasGrant(log, user, epochs[0]) then [] else [epochs[0]]) + MissingEpochs(log, user, epochs[1..])
  }

  function AccessDecision(a: Access, user: Text, device: Text): Decision
    requires a.repo.epoch.Some?
  {
    if user !in a.members || !a.members[user].active then Decision(false, false, AclDenied, [])
    else if device !in a.devices || a.devices[device].userName != user then Decision(false, false, DeviceUnknown, [])
    else if !a.devices[device].approved then Decision(false, false, DeviceNotApproved, [])
    else
      var epochs := AllowedEpochs(a.members[user], a.repo.epoch.value);
      var missing := MissingEpochs(a.repo.log, user, epochs);
      if missing != [] then Decision(true, true, KeyDeliveryPending, missing) else Decision(true, false, IsReady, epochs)
  }

  /** An HPKE grant per epoch; an unknown identity or a missing key throws. */
  function GrantEpochs(p: People, r: Repo, user: Text, epochs: seq<nat>, actor: Text, random: Random): (t: Repo)
    ensures t.epoch == r.epoch && t.keys == r.keys
    decreases |epochs|
  {
    if epochs == [] || user !in p.known || epochs[0] !in r.keys || actor !in p.own then r
    else
      GrantEpochs(p, Append(r, GrantEvent(p, actor, p.known[user], epochs[0], r.keys[epochs[0]], MemberGranted, true, random.ids(|r.log|))),
                  user, epochs[1..], actor, random)
  }

  /** A decision that is ready lists all allowed epochs, and they are all granted again. */
  function EnsureAccess(p: People, a: Access, user: Text, device: Text, actor: Text, random: Random): Access
    requires a.repo.epoch.Some?
  {
    a.(repo := GrantEpochs(p, a.repo, user, AccessDecision(a, user, device).epochs, actor, random))
  }

  /** Do all grants of the decision go out? An unknown identity on either side, or a missing key, throws. */
  predicate Delivers(p: People, r: Repo, user: Text, epochs: seq<nat>, actor: Text) {
    epochs == [] || (user in p.known && actor in p.own && forall n :: n in epochs ==> n in r.keys)
  }

  // ----- what a run of member and device steps keeps -----

  datatype Step =
    | Add(user: Text, history: History, key: Key)
    | Remove(user: Text, key: Key)
    | Approve(device: Text, user: Text)
    | Deny(device: Text, user: Text)
    | Ensure(user: Text, device: Text, random: Random)

  function Perform(p: People, a: Access, actor: Text, s: Step): Access
    requires a.repo.epoch.Some?
  {
    match s
    case Add(user, history, key) => AddMember(a, user, history, key)
    case Remove(user, key) => RemoveMember(a, user, key)
    case Approve(device, user) => a.(devices := a.devices[device := Device(user, true)])
    case Deny(device, user) => a.(devices := a.devices[device := Device(user, false)])
    case Ensure(user, device, random) => EnsureAccess(p, a, user, device, actor, random)
  }

  lemma {:induction false} GrantEpochsAre(p: People, r: Repo, user: Text, epochs: seq<nat>, actor: Text, random: Random)
    requires WellFiled(p)
    ensures var t := GrantEpochs(p, r, user, epochs, actor, random);
            && t.keys == r.keys && t.epoch == r.epoch
            && |r.log| <= |t.log| && t.log[..|r.log|] == r.log
            && (forall e :: e in t.log[|r.log|..] ==> e.Grant? && e.recipient == user && e.epoch in epochs && e.epoch in r.keys && e.envelope.key == r.keys[e.epoch])
            && (user in p.known && actor in p.own && (forall n :: n in epochs ==> n in r.keys) ==>
                  && (forall n :: n in epochs ==> Granted(t.log, user, n))
                  && (epochs != [] ==> user in ActiveRecipients(t.log))
                  && (user in ActiveRecipients(r.log) ==> user in ActiveRecipients(t.log)))
    decreases |epochs|
  {
    hide ActiveRecipients;
    if epochs != [] && user in p.known && epochs[0] in r.keys && actor in p.own {
      var e := GrantEvent(p, actor, p.known[user], epochs[0], r.keys[epochs[0]], MemberGranted, true, random.ids(|r.log|));
      var next := Append(r, e);
      ActiveAppend(r.log, e);
      GrantEpochsAre(p, next, user, epochs[1..], actor, random);
      var t := GrantEpochs(p, next, user, epochs[1..], actor, random);
      assert t.log[..|r.log|] == t.log[..|next.log|][..|r.log|] == r.log;
      assert t.log[|r.log|..] == [e] + t.log[|next.log|..];
      GrantedGrows(next.log, t.log, e);
      assert epochs == [epochs[0]] + epochs[1..];
    } else {
      assert r.log[|r.log|..] == [] && r.log[..|r.log|] == r.log;
    }
  }

  lemma GrantedGrows(log: seq<Event>, longer: seq<Event>, e: Event)
    requires |log| <= |longer| && longer[..|log|] == log && e in log && e.Grant?
    ensures Granted(longer, e.recipient, e.epoch)
  {
    assert e in longer[..|log|];
  }

  lemma GrantedStays(log: seq<Event>, longer: seq<Event>, user: Text, epoch: nat)
    requires |log| <= |longer| && longer[..|log|] == log && Granted(log, user, epoch)
    ensures Granted(longer, user, epoch)
  {
    var e :| e in log && e.Grant? && e.recipient == user && e.epoch == epoch;
    GrantedGrows(log, longer, e);
  }

  /** `ensureAccess` leaves an allowed user ready: known identities on both sides are all it needs. */
  lemma EnsureLeavesReady(p: People, a: Access, user: Text, device: Text, actor: Text, random: Random)
    requires WellFiled(p) && Sound(a) && AccessDecision(a, user, device).allowed && user in p.known && actor in p.own
    ensures var d := AccessDecision(EnsureAccess(p, a, user, device, actor, random), user, device);
            d.allowed && d.reason == IsReady && d.epochs == AllowedEpochs(a.members[user], a.repo.epoch.value)
  {
    hide ActiveRecipients, Granted;
    var d := AccessDecision(a, user, device);
    var t := GrantEpochs(p, a.repo, user, d.epochs, actor, random);
    var epochs := AllowedEpochs(a.members[user], a.repo.epoch.value);
    GrantEpochsAre(p, a.repo, user, d.epochs, actor, random);
    forall n | n in epochs ensures HasGrant(t.log, user, n) {
      if n in d.epochs {
      } else {
        assert HasGrant(a.repo.log, user, n);
        GrantedStays(a.repo.log, t.log, user, n);
      }
    }
  }

  /** May this user be granted this epoch in this state? */
  ghost predicate May(a: Access, user: Text, epoch: nat) {
    && a.repo.epoch.Some? && epoch <= a.repo.epoch.value
    && user in a.members && a.members[user].active
    && (exists d :: d in a.devices && a.devices[d].userName == user && a.devices[d].approved)
    && (!a.members[user].history.Full? ==> epoch >= a.members[user].joinedEpoch)
  }

  /** Every step keeps the state sound and only appends; what it appends are grants of existing epoch
      keys, each to an active member with an approved device, for an epoch that member is allowed. */
  lemma PerformKeeps(p: People, a: Access, actor: Text, s: Step)
    requires WellFiled(p) && Sound(a)
    ensures var b := Perform(p, a, actor, s);
            && Sound(b)
            && |a.repo.log| <= |b.repo.log| && b.repo.log[..|a.repo.log|] == a.repo.log
            && forall e :: e in b.repo.log[|a.repo.log|..] ==>
                 && s.Ensure? && e.Grant? && e.recipient == s.user && May(a, e.recipient, e.epoch)
                 && e.epoch in a.repo.keys && e.envelope.key == a.repo.keys[e.epoch]
  {
    hide ActiveRecipients, Granted;
    var b := Perform(p, a, actor, s);
    if s.Ensure? {
      var d := AccessDecision(a, s.user, s.device);
      GrantEpochsAre(p, a.repo, s.user, d.epochs, actor, s.random);
      if !d.allowed {
        assert d.epochs == [];
      }
    } else {
      assert b.repo.log[|a.repo.log|..] == [];
    }
  }

  ghost predicate IsRun(people: seq<People>, states: seq<Access>, steps: seq<Step>, actor: Text) {
    && |people| == |steps| && |states| == |steps| + 1
    && Sound(states[0])
    && forall i :: 0 <= i < |steps| ==>
         WellFiled(people[i]) && states[i].repo.epoch.Some? && states[i + 1] == Perform(people[i], states[i], actor, steps[i])
  }

  lemma {:induction false} RunIsSound(people: seq<People>, states: seq<Access>, steps: seq<Step>, actor: Text, n: nat)
    requires IsRun(people, states, steps, actor) && n <= |steps|
    ensures Sound(states[n]) && |states[0].repo.log| <= |states[n].repo.log|
  {
    hide Perform, Sound;
    if n > 0 {
      RunIsSound(people, states, steps, actor, n - 1);
      PerformKeeps(people[n - 1], states[n - 1], actor, steps[n - 1]);
    }
  }

  /** In every run, each event written since the start is a grant that its recipient was allowed when it
      was written: an active member, an approved device, an epoch not before a join-date member joined. */
  lemma {:induction false} EveryGrantWasAllowed(people: seq<People>, states: seq<Access>, steps: seq<Step>, actor: Text, n: nat, i: nat) returns (m: nat)
    requires IsRun(people, states, steps, actor) && n <= |steps|
    requires |states[0].repo.log| <= i < |states[n].repo.log|
    ensures m < n && |states[m].repo.log| <= i
    ensures var e := states[n].repo.log[i]; e.Grant? && May(states[m], e.recipient, e.epoch)
  {
    hide Perform, Sound, May;
    RunIsSound(people, states, steps, actor, n - 1);
    PerformKeeps(people[n - 1], states[n - 1], actor, steps[n - 1]);
    var before, after := states[n - 1].repo.log, states[n].repo.log;
    if i < |before| {
      m := EveryGrantWasAllowed(people, states, steps, actor, n - 1, i);
      assert after[i] == after[..|before|][i];
    } else {
      m := n - 1;
      assert after[i] == after[|before|..][i - |before|];
    }
  }

  predicate Inactive(a: Access, user: Text) {
    user in a.members ==> !a.members[user].active
  }

  /** A removed member, until it is added again, is granted nothing, so it never gets the key of the
      epoch that its removal started or of a later one. */
  lemma {:induction false} RemovedGetsNothing(people: seq<People>, states: seq<Access>, steps: seq<Step>, actor: Text, n: nat, user: Text)
    requires IsRun(people, states, steps, actor) && n <= |steps| && Inactive(states[0], user)
    requires forall i :: 0 <= i < n ==> !(steps[i].Add? && steps[i].user == user)
    ensures Inactive(states[n], user)
    ensures |states[0].repo.log| <= |states[n].repo.log|
    ensures forall e :: e in states[n].repo.log[|states[0].repo.log|..] ==> !(e.Grant? && e.recipient == user)
  {
    hide Sound;
    if n > 0 {
      RemovedGetsNothing(people, states, steps, actor, n - 1, user);
      RunIsSound(people, states, steps, actor, n - 1);
      PerformKeeps(people[n - 1], states[n - 1], actor, steps[n - 1]);
      var start, before, after := |states[0].repo.log|, states[n - 1].repo.log, states[n].repo.log;
      assert after[start..] == before[start..] + after[|before|..];
    }
  }

  /** Rotation writes no event: nobody holds a grant for the new epoch, and a replica made from an
      export rebuilds an older one. */
  lemma RotationIsSilent(r: Repo, key: Key)
    requires Tidy(r) && r.epoch.Some?
    ensures var t := RotateEpoch(r, key);
            t.log == r.log && Holders(t.log, t.epoch.value) == {} && RebuiltEpoch(Shared(t.log)) < t.epoch.value
  {
    hide ActiveRecipients;
    NobodyYet(r.log, r.epoch.value);
    RebuiltIsMax(Shared(r.log));
    SharedAre(r.log);
  }

  // ----- the object -----

  method GrantIn(events: seq<Event>, user: Text, epoch: nat) returns (found: bool)
    ensures found == Granted(events, user, epoch)
  {
    var i := 0;
    found := false;
    while i < |events|
      invariant 0 <= i <= |events|
      invariant found <==> exists k :: 0 <= k < i && events[k].Grant? && events[k].recipient == user && events[k].epoch == epoch
    {
      found := found || (events[i].Grant? && events[i].recipient == user && events[i].epoch == epoch);
      i := i + 1;
    }
  }

  class ContextAccessModel {
    const peerVault: ContextVault
    const peerActorName: Text
    var members: map<Text, Member>
    var devices: map<Text, Device>

    ghost predicate Valid()
      reads this, peerVault, peerVault.eventsDir
    {
      peerVault.Valid()
    }

    ghost function View(): Access
      reads this, peerVault, peerVault.eventsDir
    {
      Access(peerVault.View(), members, devices)
    }

    constructor (peerVault: ContextVault, peerActorName: Text)
      requires peerVault.Valid()
      ensures Valid() && View() == Access(peerVault.View(), map[], map[]) && this.peerVault == peerVault
    {
      this.peerVault, this.peerActorName := peerVault, peerActorName;
      members, devices := map[], map[];
    }

    method RotateEpochNow(key: Key) returns (next: nat)
      requires Valid() && peerVault.currentKeyEpoch.Some?
      modifies peerVault
      ensures Valid() && peerVault.View() == RotateEpoch(old(peerVault.View()), key) && Some(next) == peerVault.currentKeyEpoch
    {
      next := peerVault.currentKeyEpoch.value + 1;
      peerVault.keys := peerVault.keys[next := key];
      peerVault.currentKeyEpoch := Some(next);
    }

    method AddMemberNow(user: Text, history: History, key: Key)
      requires Valid()
      modifies this, peerVault
      ensures Valid() && View() == AddMember(old(View()), user, history, key)
    {
      if peerVault.currentKeyEpoch.None? {
        return;
      }
      var joinedEpoch := peerVault.currentKeyEpoch.value;
      if history.JoinDate? {
        joinedEpoch := RotateEpochNow(key);
      }
      members := members[user := Member(true, history, joinedEpoch)];
    }

    method RemoveMemberNow(user: Text, key: Key) returns (ok: bool)
      requires Valid()
      modifies this, peerVault
      ensures Valid() && View() == RemoveMember(old(View()), user, key)
      ensures ok <==> user in old(members) && old(peerVault.currentKeyEpoch).Some?
    {
      if user !in members {
        return false;
      }
      members := members[user := members[user].(active := false)];
      if peerVault.currentKeyEpoch.None? {
        return false;
      }
      var _ := RotateEpochNow(key);
      return true;
    }

    method SetDevice(device: Text, user: Text, approved: bool)
      modifies this`devices
      ensures devices == old(devices)[device := Device(user, approved)]
    {
      devices := devices[device := Device(user, approved)];
    }

    /** `grantEventsFor(...).length > 0`, over the log read back in file order. */
    method HasGrantFor(user: Text, epoch: nat) returns (has: bool)
      requires Valid() && |peerVault.eventsDir.log| < LIMIT
      ensures has == HasGrant(peerVault.eventsDir.log, user, epoch)
    {
      hide ActiveRecipients, Numbered, Granted;
      var active := peerVault.ActiveRecipientsOf();
      var events := peerVault.eventsDir.List();
      ListingIsLog(peerVault.eventsDir.files, peerVault.eventsDir.log);
      var granted := GrantIn(events, user, epoch);
      has := user in active && granted;
    }

    method AccessDecisionNow(user: Text, device: Text) returns (d: Decision)
      requires Valid() && peerVault.currentKeyEpoch.Some? && |peerVault.eventsDir.log| < LIMIT
      ensures d == AccessDecision(View(), user, device)
    {
      if user !in members || !members[user].active {
        return Decision(false, false, AclDenied, []);
      }
      if device !in devices || devices[device].userName != user {
        return Decision(false, false, DeviceUnknown, []);
      }
      if !devices[device].approved {
        return Decision(false, false, DeviceNotApproved, []);
      }
      var epochs := AllowedEpochs(members[user], peerVault.currentKeyEpoch.value);
      var missing, i := [], |epochs|;
      assert epochs[|epochs|..] == [];
      while i > 0
        invariant 0 <= i <= |epochs|
        invariant missing == MissingEpochs(peerVault.eventsDir.log, user, epochs[i..])
      {
        i := i - 1;
        assert epochs[i..][0] == epochs[i] && epochs[i..][1..] == epochs[i + 1..];
        var has := HasGrantFor(user, epochs[i]);
        missing := if has then missing else [epochs[i]] + missing;
      }
      assert epochs[0..] == epochs;
      return if missing != [] then Decision(true, true, KeyDeliveryPending, missing) else Decision(true, false, IsReady, epochs);
    }

    /** Grants every epoch of the decision and decides again; the first unknown identity or missing key throws. */
    method EnsureAccessNow(p: People, user: Text, device: Text, random: Random) returns (decision: Option<Decision>)
      requires Valid() && peerVault.currentKeyEpoch.Some?
      requires |peerVault.eventsDir.log| + peerVault.currentKeyEpoch.value + 1 < LIMIT
      modifies peerVault.eventsDir
      ensures Valid() && View() == EnsureAccess(p, old(View()), user, device, peerActorName, random)
      ensures var epochs := AccessDecision(old(View()), user, device).epochs;
              decision == if Delivers(p, old(peerVault.View()), user, epochs, peerActorName) then Some(AccessDecision(View(), user, device)) else None
    {
      hide ActiveRecipients, AccessDecision, Numbered, EnsureAccess, MissingEpochs, AllowedEpochs;
      ghost var a := View();
      var d := AccessDecisionNow(user, device);
      DecisionSize(a, user, device);
      var ok := GrantAll(p, user, d.epochs, random);
      EnsureIs(p, a, user, device, peerActorName, random);
      if !ok {
        return None;
      }
      var again := AccessDecisionNow(user, device);
      return Some(again);
    }

    method GrantAll(p: People, user: Text, epochs: seq<nat>, random: Random) returns (ok: bool)
      requires Valid()
      modifies peerVault.eventsDir
      ensures Valid() && peerVault.View() == GrantEpochs(p, old(peerVault.View()), user, epochs, peerActorName, random)
      ensures ok <==> Delivers(p, old(peerVault.View()), user, epochs, peerActorName)
    {
      hide ActiveRecipients, Numbered;
      var i := 0;
      assert epochs[0..] == epochs;
      while i < |epochs|
        invariant 0 <= i <= |epochs| && Valid()
        invariant members == old(members) && devices == old(devices)
        invariant peerVault.keys == old(peerVault.keys)
        invariant GrantEpochs(p, peerVault.View(), user, epochs[i..], peerActorName, random)
                  == GrantEpochs(p, old(peerVault.View()), user, epochs, peerActorName, random)
        invariant i > 0 ==> user in p.known && peerActorName in p.own
        invariant forall k :: 0 <= k < i ==> epochs[k] in peerVault.keys
      {
        assert epochs[i..][0] == epochs[i] && epochs[i..][1..] == epochs[i + 1..];
        if user !in p.known || epochs[i] !in peerVault.keys || peerActorName !in p.own {
          assert epochs[i] in epochs;
          return false;
        }
        peerVault.AppendGrantEvent(p, peerActorName, p.known[user], epochs[i], peerVault.keys[epochs[i]], MemberGranted, true, random);
        i := i + 1;
      }
      return true;
    }
  }

  lemma {:induction false} UpToSize(start: nat, last: nat)
    ensures |UpTo(start, last)| <= last + 1
    ensures start <= last ==> |UpTo(start, last)| == last + 1 - start
    decreases last + 1 - start
  {
    if start <= last {
      UpToSize(start + 1, last);
    }
  }

  lemma {:induction false} MissingSize(log: seq<Event>, user: Text, epochs: seq<nat>)
    ensures |MissingEpochs(log, user, epochs)| <= |epochs|
  {
    hide HasGrant;
    if epochs != [] {
      MissingSize(log, user, epochs[1..]);
    }
  }

  lemma DecisionSize(a: Access, user: Text, device: Text)
    requires a.repo.epoch.Some?
    ensures |AccessDecision(a, user, device).epochs| <= a.repo.epoch.value + 1
  {
    hide MissingEpochs, UpTo;
    if user in a.members {
      var m := a.members[user];
      var start: nat := if m.history.Full? then 1 else m.joinedEpoch;
      UpToSize(start, a.repo.epoch.value);
      MissingSize(a.repo.log, user, AllowedEpochs(m, a.repo.epoch.value));
    }
  }

  lemma EnsureIs(p: People, a: Access, user: Text, device: Text, actor: Text, random: Random)
    requires a.repo.epoch.Some?
    ensures var epochs := AccessDecision(a, user, device).epochs;
            && EnsureAccess(p, a, user, device, actor, random) == a.(repo := GrantEpochs(p, a.repo, user, epochs, actor, random))
            && |GrantEpochs(p, a.repo, user, epochs, actor, random).log| <= |a.repo.log| + |epochs|
  {
    hide AccessDecision;
    GrantEpochsSize(p, a.repo, user, AccessDecision(a, user, device).epochs, actor, random);
  }

  lemma {:induction false} GrantEpochsSize(p: People, r: Repo, user: Text, epochs: seq<nat>, actor: Text, random: Random)
    ensures |GrantEpochs(p, r, user, epochs, actor, random).log| <= |r.log| + |epochs|
    decreases |epochs|
  {
    if epochs != [] && user in p.known && epochs[0] in r.keys && actor in p.own {
      GrantEpochsSize(p, Append(r, GrantEvent(p, actor, p.known[user], epochs[0], r.keys[epochs[0]], MemberGranted, true, random.ids(|r.log|))),
                      user, epochs[1..], actor, random);
    }
  }
}
