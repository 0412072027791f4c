/** The operating replica as an object: the event directory, the key file and the metadata. */
module Vault {
  import opened Basics
  import opened Texts
  import opened VaultEvents
  import opened EventLog
  import opened MembershipSpec

  method FoldRecipients(events: seq<Event>) returns (recipients: set<Text>)
    ensures recipients == ActiveRecipients(events)
  {
    recipients := {};
    var i := 0;
    assert events[..0] == [];
    while i < |events|
      invariant 0 <= i <= |events| && recipients == ActiveRecipients(events[..i])
    {
      var event := events[i];
      assert events[..i + 1][..i] == events[..i];
      if event.Grant? && event.recipient != [] {
        recipients := recipients + {event.recipient};
      }
      if event.Revocation? && event.revoked != [] {
        recipients := recipients - {event.revoked};
      }
      i := i + 1;
    }
    assert events[..i] == events;
  }

  class ContextVault {
    const eventsDir: EventDirectory
    var keys: map<nat, Key>
    var currentKeyEpoch: Option<nat>

    ghost function View(): Repo
      reads this, eventsDir
    {
      Repo(eventsDir.log, keys, currentKeyEpoch)
    }

    ghost predicate Valid()
      reads this, eventsDir
    {
      eventsDir.Valid()
    }

    constructor ()
      ensures Valid() && View() == NO_REPO && fresh(eventsDir)
    {
      eventsDir := new EventDirectory();
      keys, currentKeyEpoch := map[], None;
    }

    /** Folds the files, in listing order, into a set. */
    method ActiveRecipientsOf() returns (recipients: set<Text>)
      requires Valid() && |eventsDir.log| < LIMIT
      ensures recipients == ActiveRecipients(eventsDir.log)
    {
      var events := eventsDir.List();
      ListingIsLog(eventsDir.files, eventsDir.log);
      recipients := FoldRecipients(events);
    }

    method AppendGrantEvent(p: People, actor: Text, to: PublicIdentity, epoch: nat, key: Key, kind: GrantKind, hpke: bool, random: Random)
      requires Valid() && actor in p.own
      modifies eventsDir
      ensures Valid()
      ensures View() == Append(old(View()), GrantEvent(p, actor, to, epoch, key, kind, hpke, random.ids(|old(eventsDir.log)|)))
    {
      var id := random.ids(|eventsDir.files|);
      eventsDir.Append(GrantEvent(p, actor, to, epoch, key, kind, hpke, id));
    }

    method CreateRepo(p: People, owner: Text, actor: Text, hpke: bool, random: Random) returns (ok: bool)
      requires Valid()
      modifies this, eventsDir
      ensures Valid() && View() == MembershipSpec.CreateRepo(p, old(View()), owner, actor, hpke, random)
      ensures ok <==> owner in p.known && actor in p.own
    {
      if owner !in p.known {
        return false;
      }
      currentKeyEpoch := Some(1);
      keys := map[1 := random.key];
      if actor !in p.own {
        return false;
      }
      AppendGrantEvent(p, actor, p.known[owner], 1, random.key, RepoCreated, hpke, random);
      return true;
    }

    method GrantRepo(p: People, recipient: Text, actor: Text, hpke: bool, random: Random) returns (ok: bool)
      requires Valid()
      modifies eventsDir
      ensures Valid() && View() == Perform(p, old(View()), GrantTo(recipient, actor, hpke, random))
      ensures ok <==> recipient in p.known && HasKey(old(View())) && actor in p.own
    {
      if recipient !in p.known || currentKeyEpoch.None? || currentKeyEpoch.value !in keys || actor !in p.own {
        return false;
      }
      var epoch := currentKeyEpoch.value;
      AppendGrantEvent(p, actor, p.known[recipient], epoch, keys[epoch], MemberGranted, hpke, random);
      return true;
    }

    /** A recipient that need not be filed. */
    method GrantRepoHpkeRecipient(p: People, identity: PublicIdentity, actor: Text, random: Random) returns (ok: bool)
      requires Valid()
      modifies eventsDir
      ensures Valid() && View() == Perform(p, old(View()), GrantIdentity(identity, actor, random))
      ensures ok <==> HasKey(old(View())) && actor in p.own
    {
      if currentKeyEpoch.None? || currentKeyEpoch.value !in keys || actor !in p.own {
        return false;
      }
      var epoch := currentKeyEpoch.value;
      AppendGrantEvent(p, actor, identity, epoch, keys[epoch], MemberGranted, true, random);
      return true;
    }

    /** The rotation: one grant per name, in sorted order, until a name is not known. */
    method RotateKeys(p: People, names: seq<Text>, actor: Text, epoch: nat, hpke: bool, random: Random) returns (ok: bool)
      requires Valid() && actor in p.own
      modifies eventsDir
      ensures Valid() && View() == RotateFor(p, old(View()), names, actor, epoch, hpke, random)
      ensures ok <==> forall n :: n in names ==> n in p.known
    {
      hide Numbered;
      var i := 0;
      assert names[0..] == names;
      while i < |names|
        invariant 0 <= i <= |names| && Valid()
        invariant keys == old(keys) && currentKeyEpoch == old(currentKeyEpoch)
        invariant forall k :: 0 <= k < i ==> names[k] in p.known
        invariant RotateFor(p, View(), names[i..], actor, epoch, hpke, random) == RotateFor(p, old(View()), names, actor, epoch, hpke, random)
      {
        assert names[i..][0] == names[i] && names[i..][1..] == names[i + 1..];
        if names[i] !in p.known {
          assert names[i] in names;
          return false;
        }
        AppendGrantEvent(p, actor, p.known[names[i]], epoch, random.key, KeyRotated, hpke, random);
        i := i + 1;
      }
      return true;
    }

    /** The key and the epoch are written first, then the revocation. */
    method StartEpoch(p: People, recipient: Text, actor: Text, random: Random)
      requires Valid() && actor in p.own && currentKeyEpoch.Some?
      modifies this, eventsDir
      ensures Valid() && View() == Rotated(p, old(View()), recipient, actor, random)
    {
      hide Numbered;
      eventsDir.AsManyFiles();
      var epoch := currentKeyEpoch.value;
      keys := keys[epoch + 1 := random.key];
      currentKeyEpoch := Some(epoch + 1);
      var id := random.ids(|eventsDir.files|);
      eventsDir.Append(Revocation(id, p.own[actor].name, p.own[actor].signer, epoch, recipient, epoch + 1));
    }

    method SortedNames(names: set<Text>) returns (s: seq<Text>)
      ensures s == Sorted(names)
      ensures forall n :: n in s <==> n in names
    {
      s := Sort(names);
      SortUnique(s, Sorted(names));
      assert forall n :: n in s <==> n in Members(s);
    }

    method RevokeRepo(p: People, recipient: Text, actor: Text, hpke: bool, random: Random) returns (ok: bool)
      requires Valid() && |eventsDir.log| < LIMIT
      modifies this, eventsDir
      ensures Valid() && View() == MembershipSpec.RevokeRepo(p, old(View()), recipient, actor, hpke, random)
      ensures ok <==> actor in p.own && old(View()).epoch.Some? && Remaining(p, old(View()), recipient, actor) <= p.known.Keys
    {
      hide Numbered, RotateFor, ActiveRecipients, Rotated;
      if actor !in p.own || currentKeyEpoch.None? {
        return false;
      }
      ghost var r := View();
      var active := ActiveRecipientsOf();
      active := active - {recipient};
      active := active + {GrantRecipientName(p, actor)};
      assert active == Remaining(p, r, recipient, actor);
      var epoch := currentKeyEpoch.value;
      StartEpoch(p, recipient, actor, random);
      var names := SortedNames(active);
      ok := RotateKeys(p, names, actor, epoch + 1, hpke, random);
    }

    method AppendEvent(p: People, act: Act, actor: Text, private: bool, random: Random) returns (ok: bool)
      requires Valid()
      modifies eventsDir
      ensures Valid() && View() == Write(p, old(View()), act, actor, private, random)
      ensures ok <==> actor in p.own && (private || HasKey(old(View())))
    {
      if actor !in p.own || (!private && (currentKeyEpoch.None? || currentKeyEpoch.value !in keys)) {
        return false;
      }
      var who, id := p.own[actor], random.ids(|eventsDir.files|);
      eventsDir.Append(if private then Written(id, who.name, who.signer, 0, true, who.personalKey, act)
                       else Written(id, who.name, who.signer, currentKeyEpoch.value, false, keys[currentKeyEpoch.value], act));
      return true;
    }

    /** A superseding event, then the approval of its replacement. */
    method SupersedeEntry(p: People, entryId: Text, replacement: Entry, actor: Text, random: Random) returns (ok: bool)
      requires Valid()
      modifies eventsDir
      ensures Valid()
      ensures var r := Write(p, old(View()), EntrySuperseded(entryId, replacement.id), actor, false, random);
              View() == Write(p, r, EntryApproved(replacement, []), actor, false, random)
    {
      ok := AppendEvent(p, EntrySuperseded(entryId, replacement.id), actor, false, random);
      if ok {
        ok := AppendEvent(p, EntryApproved(replacement, []), actor, false, random);
      }
    }
  }
}
