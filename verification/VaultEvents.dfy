/**
  The events of a context vault. Encryption is symbolic: a wrapped key opens for the holder of the
  matching private key, and a sealed payload opens with the key it was sealed with.
*/
module VaultEvents {
  import opened Texts

  /** A symmetric key: a repository key of some epoch, or somebody's personal key. */
  type Key = nat

  /** The key pair of an identity, named by its private half. */
  type Holder = nat

  /** A repository key wrapped for one holder, in the legacy form or with HPKE. */
  datatype Envelope = Envelope(holder: Holder, key: Key, hpke: bool)

  datatype GrantKind = RepoCreated | MemberGranted | KeyRotated

  datatype Entry = Entry(id: Text, versionId: Text, scope: Text, title: Text, body: Text, source: Text, createdAt: Text)

  datatype Status = Created | Assigned | Approved | Rejected | Tombstoned

  datatype Proposal = Proposal(id: Text, title: Text, body: Text, source: Text, createdAt: Text, status: Status)

  /** The payload of a written event, by the event's type. */
  datatype Act =
    | EntryApproved(entry: Entry, appliesTo: seq<Text>)
    | EntryProposed(proposal: Proposal)
    | CandidateAssigned(id: Text, assignedTo: Text)
    | CandidateApproved(id: Text, reviewedBy: Text)
    | CandidateRejected(id: Text, reviewedBy: Text, reason: Text)
    | CandidateTombstoned(id: Text, reviewedBy: Text, reason: Text)
    | EntrySuperseded(id: Text, supersededBy: Text)

  /** `signer` is the key that signed the event. */
  datatype Event =
    | Grant(id: Text, actor: Text, signer: Holder, kind: GrantKind, recipient: Text, epoch: nat, envelope: Envelope)
    | Revocation(id: Text, actor: Text, signer: Holder, epoch: nat, revoked: Text, nextEpoch: nat)
    | Written(id: Text, actor: Text, signer: Holder, epoch: nat, private: bool, sealedWith: Key, act: Act)

  predicate Private(e: Event) {
    e.Written? && e.private
  }
}
