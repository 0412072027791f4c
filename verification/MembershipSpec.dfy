/**
  The operating replica of a repository: creating it, granting it, revoking a recipient with a new key
  epoch, and writing. Keys and event ids come from the caller, where the program draws them at random.
*/
module MembershipSpec {
  import opened Basics
  import opened Texts
  import opened VaultEvents

  /** An identity whose private keys are here; grants may go to it under another name. */
  datatype Identity = Identity(name: Text, signer: Holder, personalKey: Key, grantRecipientName: Option<Text>)

  /** What is known of an identity: its name and the key pairs that keys can be wrapped for. */
  datatype PublicIdentity = PublicIdentity(name: Text, legacy: Holder, hpke: Holder)

  datatype People = People(own: map<Text, Identity>, known: map<Text, PublicIdentity>)

  /** Identities are filed under their own, non-empty names. */
  ghost predicate WellFiled(p: People) {
    forall n :: n in p.known ==> p.known[n].name == n && n != []
  }

  /** The log, the key file and `currentKeyEpoch`, which is missing until the repository is created. */
  datatype Repo = Repo(log: seq<Event>, keys: map<nat, Key>, epoch: Option<nat>)

  const NO_REPO: Repo := Repo([], map[], None)

  /** A grant adds its recipient, a revocation deletes its own; empty names are passed over. */
  function ActiveStep(active: set<Text>, e: Event): set<Text> {
    if e.Grant? && e.recipient != [] then active + {e.recipient}
    else if e.Revocation? && e.revoked != [] then active - {e.revoked}
    else active
  }

  function ActiveRecipients(log: seq<Event>): set<Text> {
    if log == [] then {} else ActiveStep(ActiveRecipients(log[..|log| - 1]), log[|log| - 1])
  }

  /** Drawn at random by the program: a new repository key and an id for each event written. */
  datatype Random = Random(key: Key, ids: nat -> Text)

  function GrantEvent(p: People, actor: Text, to: PublicIdentity, epoch: nat, key: Key, kind: GrantKind, hpke: bool, id: Text): Event
    requires actor in p.own
  {
    Grant(id, p.own[actor].name, p.own[actor].signer, kind, to.name, epoch, Envelope(if hpke then to.hpke else to.legacy, key, hpke))
  }

  function Append(r: Repo, e: Event): Repo { r.(log := r.log + [e]) }

  datatype Op =
    | Create(owner: Text, actor: Text, hpke: bool, random: Random)
    | GrantTo(recipient: Text, actor: Text, hpke: bool, random: Random)
    | GrantIdentity(identity: PublicIdentity, actor: Text, random: Random)
    | Revoke(recipient: Text, actor: Text, hpke: bool, random: Random)
    | WriteShared(act: Act, actor: Text, random: Random)
    | WritePrivate(act: Act, actor: Text, random: Random)

  /** Metadata and keys are written before the actor is looked up. */
  function CreateRepo(p: People, r: Repo, owner: Text, actor: Text, hpke: bool, random: Random): Repo {
    if owner !in p.known then r
    else
      var r' := r.(keys := map[1 := random.key], epoch := Some(1));
      if actor !in p.own then r'
      else Append(r', GrantEvent(p, actor, p.known[owner], 1, random.key, RepoCreated, hpke, random.ids(|r.log|)))
  }

  /** The current epoch's key, if the repository and the key are there. */
  predicate HasKey(r: Repo) { r.epoch.Some? && r.epoch.value in r.keys }

  function GrantCurrent(p: People, r: Repo, to: PublicIdentity, actor: Text, hpke: bool, random: Random): Repo {
    if !HasKey(r) || actor !in p.own then r
    else Append(r, GrantEvent(p, actor, to, r.epoch.value, r.keys[r.epoch.value], MemberGranted, hpke, random.ids(|r.log|)))
  }

  function GrantRecipientName(p: People, actor: Text): Text
    requires actor in p.own
  {
    if p.own[actor].grantRecipientName.Some? then p.own[actor].grantRecipientName.value else actor
  }

  /** Who is handed the next epoch's key: the active recipients without the revoked one, and the actor. */
  function Remaining(p: People, r: Repo, recipient: Text, actor: Text): set<Text>
    requires actor in p.own
  {
    (ActiveRecipients(r.log) - {recipient}) + {GrantRecipientName(p, actor)}
  }

  /** A grant per name, up to the first name that is not known, which throws. */
  function RotateFor(p: People, r: Repo, names: seq<Text>, actor: Text, epoch: nat, hpke: bool, random: Random): Repo
    requires actor in p.own
    decreases |names|
  {
    if names == [] || names[0] !in p.known then r
    else
      RotateFor(p, Append(r, GrantEvent(p, actor, p.known[names[0]], epoch, random.key, KeyRotated, hpke, random.ids(|r.log|))),
                names[1..], actor, epoch, hpke, random)
  }

  /** The new key, the new epoch and the revocation are written before the first grant. */
  function Rotated(p: People, r: Repo, recipient: Text, actor: Text, random: Random): Repo
    requires actor in p.own && r.epoch.Some?
  {
    var next := r.epoch.value + 1;
    Repo(r.log + [Revocation(random.ids(|r.log|), p.own[actor].name, p.own[actor].signer, r.epoch.value, recipient, next)],
         r.keys[next := random.key], Some(next))
  }

  ghost function RevokeRepo(p: People, r: Repo, recipient: Text, actor: Text, hpke: bool, random: Random): Repo {
    if actor !in p.own || r.epoch.None? then r
    else RotateFor(p, Rotated(p, r, recipient, actor, random), Sorted(Remaining(p, r, recipient, actor)), actor, r.epoch.value + 1, hpke, random)
  }

  function Write(p: People, r: Repo, act: Act, actor: Text, private: bool, random: Random): Repo {
    if actor !in p.own || (!private && !HasKey(r)) then r
    else
      var who := p.own[actor];
      var id := random.ids(|r.log|);
      Append(r, if private then Written(id, who.name, who.signer, 0, true, who.personalKey, act)
                else Written(id, who.name, who.signer, r.epoch.value, false, r.keys[r.epoch.value], act))
  }

  /** The repository after an operation, also when the operation throws. */
  ghost function Perform(p: People, r: Repo, op: Op): Repo {
    match op
    case Create(owner, actor, hpke, random) => CreateRepo(p, r, owner, actor, hpke, random)
    case GrantTo(recipient, actor, hpke, random) => if recipient !in p.known then r else GrantCurrent(p, r, p.known[recipient], actor, hpke, random)
    case GrantIdentity(identity, actor, random) => GrantCurrent(p, r, identity, actor, true, random)
    case Revoke(recipient, actor, hpke, random) => RevokeRepo(p, r, recipient, actor, hpke, random)
    case WriteShared(act, actor, random) => Write(p, r, act, actor, false, random)
    case WritePrivate(act, actor, random) => Write(p, r, act, actor, true, random)
  }
}
