/** What each operation of the replica achieves: who is active afterwards, and who was handed which key. */
module MembershipEffects {
  import opened Basics
  import opened Texts
  import opened VaultEvents
  import opened MembershipSpec
  import opened MembershipProofs

  /** A name is active exactly if a grant went to it and no revocation of it came later. */
  lemma {:induction false} ActiveExactly(log: seq<Event>, name: Text)
    ensures name in ActiveRecipients(log) <==>
            name != [] && exists i :: 0 <= i < |log| && log[i].Grant? && log[i].recipient == name
                                      && forall j :: i < j < |log| ==> !(log[j].Revocation? && log[j].revoked == name)
  {
    if log != [] {
      var init, e := log[..|log| - 1], log[|log| - 1];
      ActiveExactly(init, name);
      if e.Grant? && e.recipient == name {
        assert log[|log| - 1].Grant?;
      } else if name in ActiveRecipients(init) {
        var i :| 0 <= i < |init| && init[i].Grant? && init[i].recipient == name
                 && forall j :: i < j < |init| ==> !(init[j].Revocation? && init[j].revoked == name);
        assert log[i] == init[i] && forall j :: i < j < |init| ==> log[j] == init[j];
      } else if name != [] {
        forall i | 0 <= i < |init| && log[i].Grant? && log[i].recipient == name
          ensures exists j :: i < j < |init| && log[j].Revocation? && log[j].revoked == name
        {
          assert init[i] == log[i];
          var j :| i < j < |init| && init[j].Revocation? && init[j].revoked == name;
          assert log[j] == init[j];
        }
      }
    }
  }

  /** One event more, a grant of this key for this epoch to this name. */
  ghost predicate GrantAdded(before: seq<Event>, after: seq<Event>, name: Text, epoch: nat, key: Key) {
    |after| == |before| + 1 && after[..|before|] == before
    && var g := after[|before|]; g.Grant? && g.recipient == name && g.epoch == epoch && g.envelope.key == key
  }

  lemma AddedIsActive(before: seq<Event>, after: seq<Event>, name: Text, epoch: nat, key: Key)
    requires GrantAdded(before, after, name, epoch, key) && name != []
    ensures ActiveRecipients(after) == ActiveRecipients(before) + {name}
    ensures Holders(after, epoch) == Holders(before, epoch) + {name}
  {
    hide ActiveRecipients, Holders;
    var g := after[|before|];
    assert after == before + [g];
    ActiveAppend(before, g);
    HoldersAppend(before, g, epoch);
  }

  /** Creating a repository for a filed owner starts its first epoch with the key drawn, and grants it to the owner. */
  lemma CreateGrants(p: People, r: Repo, owner: Text, actor: Text, hpke: bool, random: Random)
    requires WellFiled(p) && owner in p.known && actor in p.own
    ensures var t := Perform(p, r, Create(owner, actor, hpke, random));
            && t.epoch == Some(1) && t.keys == map[1 := random.key] && GrantAdded(r.log, t.log, owner, 1, random.key)
            && ActiveRecipients(t.log) == ActiveRecipients(r.log) + {owner} && owner in Holders(t.log, 1)
  {
    hide ActiveRecipients;
    AddedIsActive(r.log, Perform(p, r, Create(owner, actor, hpke, random)).log, owner, 1, random.key);
  }

  /** A grant hands a filed recipient, or a given identity, the current key, and changes nothing else. */
  lemma GrantGoesOut(p: People, r: Repo, op: Op)
    requires WellFiled(p) && HasKey(r) && (op.GrantTo? || op.GrantIdentity?) && op.actor in p.own
    requires if op.GrantTo? then op.recipient in p.known else op.identity.name != []
    ensures var t := Perform(p, r, op); var name := if op.GrantTo? then op.recipient else op.identity.name; var n := r.epoch.value;
            && t.epoch == r.epoch && t.keys == r.keys && GrantAdded(r.log, t.log, name, n, r.keys[n])
            && ActiveRecipients(t.log) == ActiveRecipients(r.log) + {name} && name in Holders(t.log, n)
  {
    hide ActiveRecipients;
    var name := if op.GrantTo? then op.recipient else op.identity.name;
    AddedIsActive(r.log, Perform(p, r, op).log, name, r.epoch.value, r.keys[r.epoch.value]);
  }

  lemma {:induction false} AllServed(p: People, names: seq<Text>)
    requires forall n :: n in names ==> n in p.known
    ensures Served(p, names) == names
  {
    if names != [] {
      AllServed(p, names[1..]);
      assert names == [names[0]] + names[1..];
    }
  }

  /** A revocation whose rotation finds everybody starts the next epoch with the key drawn; afterwards exactly those who
      were active, without the revoked name, and the actor's own recipient are active, and exactly they were handed
      the new key. */
  lemma RevokeHandsOn(p: People, r: Repo, recipient: Text, actor: Text, hpke: bool, random: Random)
    requires WellFiled(p) && r.epoch.Some? && Bounded(r.log, r.epoch.value) && actor in p.own
    requires forall n :: n in ActiveRecipients(r.log) && n != recipient ==> n in p.known
    requires (if p.own[actor].grantRecipientName.Some? then p.own[actor].grantRecipientName.value else actor) in p.known
    ensures var t := Perform(p, r, Revoke(recipient, actor, hpke, random)); var next := r.epoch.value + 1;
            var me := if p.own[actor].grantRecipientName.Some? then p.own[actor].grantRecipientName.value else actor;
            var stay := (ActiveRecipients(r.log) - {recipient}) + {me};
            && t.epoch == Some(next) && t.keys == r.keys[next := random.key]
            && ActiveRecipients(t.log) == stay && Holders(t.log, next) == stay
            && |t.log| > |r.log| && t.log[..|r.log|] == r.log && t.log[|r.log|].Revocation? && t.log[|r.log|].revoked == recipient
            && HandedInOrder(t.log[|r.log| + 1..], Sorted(stay), next, random.key)
  {
    hide ActiveRecipients, Holders, Bounded, RotateFor, Served;
    var epoch := r.epoch.value;
    var t := Rotated(p, r, recipient, actor, random);
    var e := t.log[|r.log|];
    var names := Sorted(Remaining(p, r, recipient, actor));
    ActiveAppend(r.log, e);
    EmptyIsNeverActive(r.log);
    HoldersAppend(r.log, e, epoch + 1);
    NobodyYet(r.log, epoch);
    BoundedAppend(r.log, e, epoch + 1);
    RotateForIs(p, t, names, actor, epoch + 1, hpke, random);
    forall n | n in names ensures n in p.known {
      assert n in Members(names);
    }
    AllServed(p, names);
    RotateAppends(p, t, names, actor, epoch + 1, hpke, random);
    var u := RotateFor(p, t, names, actor, epoch + 1, hpke, random);
    assert u.log[..|r.log|] == u.log[..|t.log|][..|r.log|] == r.log;
    assert u.log[|r.log|] == u.log[..|t.log|][|r.log|] == e;
  }

  /** One grant per name, in this order, of this key for this epoch. */
  ghost predicate HandedInOrder(added: seq<Event>, names: seq<Text>, epoch: nat, key: Key) {
    |added| == |names|
    && forall i :: 0 <= i < |added| ==> added[i].Grant? && added[i].recipient == names[i] && added[i].epoch == epoch && added[i].envelope.key == key
  }

  lemma {:induction false} RotateAppends(p: People, r: Repo, names: seq<Text>, actor: Text, epoch: nat, hpke: bool, random: Random)
    requires WellFiled(p) && actor in p.own && forall n :: n in names ==> n in p.known
    ensures var t := RotateFor(p, r, names, actor, epoch, hpke, random);
            |t.log| >= |r.log| && t.log[..|r.log|] == r.log && HandedInOrder(t.log[|r.log|..], names, epoch, random.key)
    decreases |names|
  {
    if names != [] {
      var g := GrantEvent(p, actor, p.known[names[0]], epoch, random.key, KeyRotated, hpke, random.ids(|r.log|));
      var next := Append(r, g);
      RotateAppends(p, next, names[1..], actor, epoch, hpke, random);
      var t := RotateFor(p, next, names[1..], actor, epoch, hpke, random);
      assert t.log[..|r.log|] == t.log[..|next.log|][..|r.log|] == r.log;
      assert t.log[|r.log|] == t.log[..|next.log|][|r.log|] == g;
      assert t.log[|r.log|..] == [g] + t.log[|next.log|..];
    }
  }
}
