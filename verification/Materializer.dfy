/**
  Replay of an event log into a store: a first pass collects the epoch keys that grants hand the reader,
  a second pass applies every payload the reader can open.
*/
module Materializer {
  import opened Basics
  import opened Texts
  import opened VaultEvents

  // ----- the reader -----

  /** A name that grants may be addressed to, with the private keys that open them. */
  datatype Recipient = Recipient(name: Text, legacy: Holder, hpke: Holder)

  /** `main` is the reader's own recipient; the others are tried by asynchronous replay only. */
  datatype Reader = Reader(name: Text, personalKey: Key, main: Recipient, others: seq<Recipient>)

  type Keys = map<nat, Key>

  predicate Unwraps(who: Recipient, envelope: Envelope) {
    envelope.holder == if envelope.hpke then who.hpke else who.legacy
  }

  /** `find`: the first recipient of that name. */
  function FirstNamed(recipients: seq<Recipient>, name: Text): Option<Recipient> {
    if recipients == [] then None
    else if recipients[0].name == name then Some(recipients[0])
    else FirstNamed(recipients[1..], name)
  }

  /** Does asynchronous replay get a key out of this event? */
  predicate Hands(r: Reader, e: Event) {
    e.Grant? && var who := FirstNamed([r.main] + r.others, e.recipient); who.Some? && Unwraps(who.value, e.envelope)
  }

  predicate Decryptable(e: Event, r: Reader, keys: Keys) {
    && e.Written?
    && if e.private then e.actor == r.name && e.sealedWith == r.personalKey
       else e.epoch in keys && e.sealedWith == keys[e.epoch]
  }

  // ----- the first pass -----

  type PublicKeys = map<Text, Holder>

  predicate Signed(e: Event, publicKeys: PublicKeys) {
    e.actor in publicKeys && publicKeys[e.actor] == e.signer
  }

  predicate AllSigned(log: seq<Event>, publicKeys: PublicKeys) {
    forall e :: e in log ==> Signed(e, publicKeys)
  }

  const BAD_SIGNATURE := "Invalid event signature"
  const NEEDS_ASYNC := "HPKE key grant requires async materialization before synchronous projection"

  function SyncStep(keys: Keys, e: Event, r: Reader): Result<Keys> {
    if !(e.Grant? && e.recipient == r.main.name) then Ok(keys)
    else if e.envelope.hpke then if e.epoch in keys then Ok(keys) else Err(NEEDS_ASYNC)
    else if Unwraps(r.main, e.envelope) then Ok(keys[e.epoch := e.envelope.key])
    else Ok(keys)
  }

  function SyncKeys(log: seq<Event>, r: Reader, publicKeys: PublicKeys, keys: Keys): Result<Keys> {
    if log == [] then Ok(keys)
    else
      var before := SyncKeys(log[..|log| - 1], r, publicKeys, keys);
      var e := log[|log| - 1];
      if before.Err? then before
      else if !Signed(e, publicKeys) then Err(BAD_SIGNATURE)
      else SyncStep(before.value, e, r)
  }

  function AsyncStep(keys: Keys, e: Event, r: Reader): Keys {
    if Hands(r, e) then keys[e.epoch := e.envelope.key] else keys
  }

  /** The keys after the asynchronous pass over signed events. */
  function AsyncKeys(log: seq<Event>, r: Reader, keys: Keys): Keys {
    if log == [] then keys else AsyncStep(AsyncKeys(log[..|log| - 1], r, keys), log[|log| - 1], r)
  }

  // ----- the store -----

  datatype Row = Row(entry: Entry, supersededBy: Option<Text>)

  datatype IndexRow = IndexRow(id: Text, title: Text, body: Text)

  datatype Edge = Edge(from: Text, relation: string, to: Text)

  datatype Candidate = Candidate(
    proposal: Proposal, proposalEventId: Text, status: Status, assignedTo: Option<Text>,
    reviewedBy: Option<Text>, reviewReason: Option<Text>)

  datatype Store = Store(entries: map<Text, Row>, index: seq<IndexRow>, edges: seq<Edge>, candidates: map<Text, Candidate>)

  const EMPTY: Store := Store(map[], [], [], map[])

  /** `DELETE FROM context_entries_fts WHERE id = ?` */
  function WithoutId(index: seq<IndexRow>, id: Text): seq<IndexRow> {
    if index == [] then []
    else WithoutId(index[..|index| - 1], id) + (if index[|index| - 1].id == id then [] else [index[|index| - 1]])
  }

  function AppliesTo(id: Text, targets: seq<Text>): (edges: seq<Edge>)
    ensures |edges| == |targets|
  {
    seq(|targets|, i requires 0 <= i < |targets| => Edge(id, "applies_to", targets[i]))
  }

  /** `UPDATE context_candidates ... WHERE id = ? AND status ...`; an absent id changes nothing. */
  function Transition(c: Candidate, act: Act): Candidate {
    match act
    case CandidateAssigned(_, reviewer) =>
      if c.status.Approved? || c.status.Rejected? || c.status.Tombstoned? then c else c.(status := Assigned, assignedTo := Some(reviewer))
    case CandidateApproved(_, who) =>
      if c.status.Rejected? || c.status.Tombstoned? then c else c.(status := Approved, reviewedBy := Some(who))
    case CandidateRejected(_, who, reason) =>
      if c.status.Approved? then c else c.(status := Rejected, reviewedBy := Some(who), reviewReason := Some(reason))
    case CandidateTombstoned(_, who, reason) =>
      if c.status.Approved? then c else c.(status := Tombstoned, reviewedBy := Some(who), reviewReason := Some(reason))
    case _ => c
  }

  predicate Transitions(act: Act) {
    act.CandidateAssigned? || act.CandidateApproved? || act.CandidateRejected? || act.CandidateTombstoned?
  }

  function Apply(s: Store, act: Act, eventId: Text): Store {
    match act
    case EntryApproved(entry, targets) =>
      s.(entries := s.entries[entry.id := Row(entry, None)],
         index := WithoutId(s.index, entry.id) + [IndexRow(entry.id, entry.title, entry.body)],
         edges := s.edges + AppliesTo(entry.id, targets))
    case EntryProposed(p) => s.(candidates := s.candidates[p.id := Candidate(p, eventId, p.status, None, None, None)])
    case EntrySuperseded(id, replacement) =>
      s.(entries := if id in s.entries then s.entries[id := s.entries[id].(supersededBy := Some(replacement))] else s.entries,
         edges := s.edges + [Edge(id, "superseded_by", replacement)])
    case _ => if act.id in s.candidates then s.(candidates := s.candidates[act.id := Transition(s.candidates[act.id], act)]) else s
  }

  function ReplayStep(s: Store, e: Event, r: Reader, keys: Keys): Store {
    if Decryptable(e, r, keys) then Apply(s, e.act, e.id) else s
  }

  /** The second pass. */
  function Replay(log: seq<Event>, r: Reader, keys: Keys): Store {
    if log == [] then EMPTY else ReplayStep(Replay(log[..|log| - 1], r, keys), log[|log| - 1], r, keys)
  }

  // ----- the whole -----

  /** `materializeRepo`: on success the keys are written and the store is the result. */
  datatype Outcome = Failed(message: string) | Ready(keys: Keys, store: Store)

  function Materialize(log: seq<Event>, r: Reader, publicKeys: PublicKeys, keys: Keys): Outcome {
    match SyncKeys(log, r, publicKeys, keys)
    case Err(m) => Failed(m)
    case Ok(all) => Ready(all, Replay(log, r, all))
  }

  /** `materializeRepoAsync`: the keys it found are written before the synchronous pass may fail. */
  function KeysWritten(log: seq<Event>, r: Reader, publicKeys: PublicKeys, keys: Keys): Keys {
    if AllSigned(log, publicKeys) then AsyncKeys(log, r, keys) else keys
  }

  function MaterializeAsync(log: seq<Event>, r: Reader, publicKeys: PublicKeys, keys: Keys): Outcome {
    if !AllSigned(log, publicKeys) then Failed(BAD_SIGNATURE)
    else Materialize(log, r, publicKeys, AsyncKeys(log, r, keys))
  }
}
